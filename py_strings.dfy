/** Python's `str.split(sep)` with a one-character separator, as the row
    validator uses it on each line, and its partner `sep.join(fields)`. */
module PyStrings {

  /** The number of occurrences of `c` in `s`. */
  function Occurrences(s: string, c: char): nat {
    if s == [] then 0 else (if s[0] == c then 1 else 0) + Occurrences(s[1..], c)
  }

  predicate Free(s: string, c: char) {
    forall i :: 0 <= i < |s| ==> s[i] != c
  }

  /** `s.split(sep)`: the pieces between separators, empty pieces included, so
      there is always at least one. */
  function Split(s: string, sep: char): (r: seq<string>)
    ensures |r| == Occurrences(s, sep) + 1
    ensures forall k :: 0 <= k < |r| ==> Free(r[k], sep)
  {
    if s == [] then [[]]
    else
      var rest := Split(s[1..], sep);
      if s[0] == sep then [[]] + rest
      else [[s[0]] + rest[0]] + rest[1..]
  }

  /** `sep.join(fields)`. */
  function Join(fields: seq<string>, sep: char): string {
    if fields == [] then []
    else if |fields| == 1 then fields[0]
    else fields[0] + [sep] + Join(fields[1..], sep)
  }

  /** Splitting loses nothing: joining the pieces gives the line back. */
  lemma {:induction false} JoinSplit(s: string, sep: char)
    ensures Join(Split(s, sep), sep) == s
  {
    if s != [] {
      var rest := Split(s[1..], sep);
      JoinSplit(s[1..], sep);
      if s[0] == sep {
        assert Split(s, sep)[1..] == rest;
      } else {
        var r := Split(s, sep);
        if |rest| == 1 {
          assert r == [[s[0]] + rest[0]];
        } else {
          assert r[1..] == rest[1..];
          assert Join(rest, sep) == rest[0] + [sep] + Join(rest[1..], sep);
        }
      }
    }
  }

  /** Fields free of the separator come back from a split of their join, so a
      row written as five comma-free fields splits into exactly those five. */
  lemma {:induction false} SplitJoin(fields: seq<string>, sep: char)
    requires |fields| >= 1
    requires forall k :: 0 <= k < |fields| ==> Free(fields[k], sep)
    ensures Split(Join(fields, sep), sep) == fields
  {
    if |fields| == 1 {
      SplitFree(fields[0], sep);
    } else {
      SplitJoin(fields[1..], sep);
      SplitAround(fields[0], sep, Join(fields[1..], sep));
    }
  }

  /** A separator-free text is a single piece. */
  lemma {:induction false} SplitFree(s: string, sep: char)
    requires Free(s, sep)
    ensures Split(s, sep) == [s]
  {
    if s != [] {
      SplitFree(s[1..], sep);
      assert s[0] != sep;
      assert [s[0]] + s[1..] == s;
    }
  }

  /** A separator-free piece in front of a separator becomes the first field. */
  lemma {:induction false} SplitAround(f: string, sep: char, t: string)
    requires Free(f, sep)
    ensures Split(f + [sep] + t, sep) == [f] + Split(t, sep)
  {
    if f != [] {
      var s := f + [sep] + t;
      assert s[0] == f[0] && f[0] != sep;
      assert s[1..] == f[1..] + [sep] + t;
      SplitAround(f[1..], sep, t);
      assert [f[0]] + f[1..] == f;
    } else {
      assert ([sep] + t)[1..] == t;
    }
  }

  /** Text after the last field stays in the last field. */
  lemma {:induction false} JoinAppend(fields: seq<string>, sep: char, t: string)
    requires |fields| >= 1
    ensures Join(fields, sep) + t == Join(fields[..|fields| - 1] + [fields[|fields| - 1] + t], sep)
  {
    var g := fields[..|fields| - 1] + [fields[|fields| - 1] + t];
    if |fields| > 1 {
      JoinAppend(fields[1..], sep, t);
      assert g[1..] == fields[1..][..|fields| - 2] + [fields[|fields| - 1] + t];
      assert g[0] == fields[0];
    }
  }
}
