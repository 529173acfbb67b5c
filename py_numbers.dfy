/** Python's `int(str)` and `float(str)` on base-10 text, as the row validator
    relies on them to accept or reject a field; the decimal text the instrument
    writes, as their partner; and the round-half-to-even division that
    `np.round` of a mean and `timedelta / 2` perform. */
module PyNumbers {
  import opened Wrappers

  function Signed(negative: bool, m: real): real {
    if negative then -m else m
  }

  /** The values `float(str)` produces. A finite value is kept as the exact
      decimal the text denotes (no rounding to a double). */
  datatype PyFloat = Num(value: real) | Inf(negative: bool) | NaN

  function Abs(x: int): nat { if x < 0 then -x else x }

  // ---------------------------------------------------------------------------
  // Characters

  /** The whitespace `int()` and `float()` strip from an ASCII string: tab,
      line feed, vertical tab, form feed, carriage return and space. The
      separators 0x1C-0x1F, which `str.isspace` also accepts, are not stripped
      from ASCII text, so a field padded with them is refused. The lines come
      from an ASCII decode, so no other character can occur. */
  predicate IsSpace(c: char) {
    var k := c as int;
    (9 <= k <= 13) || k == 32
  }

  predicate IsDigit(c: char) { '0' <= c <= '9' }

  function DigitValue(c: char): (d: nat)
    requires IsDigit(c)
    ensures d < 10
  {
    c as int - '0' as int
  }

  function DigitChar(d: nat): (c: char)
    requires d < 10
    ensures IsDigit(c) && DigitValue(c) == d
  {
    ('0' as int + d) as char
  }

  // ---------------------------------------------------------------------------
  // Surrounding whitespace, which int() and float() both ignore

  function StripLeading(s: string): (r: string)
    ensures |r| <= |s| && r == s[|s| - |r|..]
    ensures r == [] || !IsSpace(r[0])
    ensures forall i :: 0 <= i < |s| - |r| ==> IsSpace(s[i])
  {
    if s != [] && IsSpace(s[0]) then
      var r := StripLeading(s[1..]);
      assert s[1..][|s| - 1 - |r|..] == s[|s| - |r|..];
      r
    else s
  }

  function StripTrailing(s: string): (r: string)
    ensures |r| <= |s| && r == s[..|r|]
    ensures r == [] || !IsSpace(r[|r| - 1])
    ensures forall i :: |r| <= i < |s| ==> IsSpace(s[i])
  {
    if s != [] && IsSpace(s[|s| - 1]) then
      var r := StripTrailing(s[..|s| - 1]);
      assert s[..|s| - 1][..|r|] == s[..|r|];
      r
    else s
  }

  function Strip(s: string): string {
    StripTrailing(StripLeading(s))
  }

  // ---------------------------------------------------------------------------
  // Digits

  /** An underscore at `i` standing between two digits. */
  predicate IsJoiner(b: string, i: int)
    requires 0 <= i < |b|
  {
    b[i] == '_' && 0 < i < |b| - 1 && IsDigit(b[i - 1]) && IsDigit(b[i + 1])
  }

  /** A run of digits in which a single underscore may stand between two digits
      ("1_000"): the digit groups int() and float() accept. */
  predicate IsDigitPart(b: string) {
    |b| > 0 && forall i :: 0 <= i < |b| ==> IsDigit(b[i]) || IsJoiner(b, i)
  }

  /** The number the digits of `b` spell, underscores ignored. */
  function DigitsValue(b: string): nat {
    if b == [] then 0
    else if IsDigit(b[|b| - 1]) then 10 * DigitsValue(b[..|b| - 1]) + DigitValue(b[|b| - 1])
    else DigitsValue(b[..|b| - 1])
  }

  /** The number of digits in `b`, underscores not counted. */
  function DigitCount(b: string): nat {
    if b == [] then 0
    else if IsDigit(b[|b| - 1]) then DigitCount(b[..|b| - 1]) + 1
    else DigitCount(b[..|b| - 1])
  }

  function Pow10(k: nat): (r: nat)
    ensures r >= 1
  {
    if k == 0 then 1 else 10 * Pow10(k - 1)
  }

  /** 10 raised to a possibly negative exponent. */
  function Scale(e: int): (r: real)
    ensures r > 0.0
  {
    if e >= 0 then Pow10(e) as real else 1.0 / Pow10(-e) as real
  }

  // ---------------------------------------------------------------------------
  // int()

  predicate IsNegative(t: string) { |t| > 0 && t[0] == '-' }

  /** `t` without its leading sign, if it has one. */
  function Unsigned(t: string): string {
    if |t| > 0 && (t[0] == '+' || t[0] == '-') then t[1..] else t
  }

  /** An optionally signed digit group with nothing around it. */
  function ParseSigned(t: string): Option<int> {
    var body := Unsigned(t);
    if IsDigitPart(body) then
      Some(if IsNegative(t) then -(DigitsValue(body) as int) else DigitsValue(body) as int)
    else None
  }

  /** The most digits `int()` converts from decimal text: the default of
      `sys.set_int_max_str_digits` (Python 3.11, and the security releases
      3.7.14 to 3.10.7). `float()` has no such limit. */
  const IntMaxStrDigits: nat := 4300

  /** `int(s)`: surrounding whitespace, an optional sign and one digit group of
      at most `IntMaxStrDigits` digits, underscores not counted. None stands
      for the ValueError Python raises. */
  function ParseInt(s: string): Option<int> {
    var t := Strip(s);
    if DigitCount(Unsigned(t)) > IntMaxStrDigits then None else ParseSigned(t)
  }

  // ---------------------------------------------------------------------------
  // float()

  predicate IsExpMark(c: char) { c == 'e' || c == 'E' }

  /** Index of the first exponent mark of `s`, or |s| when there is none. */
  function FindExpMark(s: string): (k: nat)
    ensures k <= |s|
    ensures forall i :: 0 <= i < k ==> !IsExpMark(s[i])
    ensures k < |s| ==> IsExpMark(s[k])
  {
    if s == [] || IsExpMark(s[0]) then 0 else 1 + FindExpMark(s[1..])
  }

  /** Index of the first `c` in `s`, or |s| when there is none. */
  function FindChar(s: string, c: char): (k: nat)
    ensures k <= |s|
    ensures forall i :: 0 <= i < k ==> s[i] != c
    ensures k < |s| ==> s[k] == c
  {
    if s == [] || s[0] == c then 0 else 1 + FindChar(s[1..], c)
  }

  /** n / 10^k: the value of k fraction digits spelling n. */
  function Fraction(n: nat, k: nat): real {
    n as real / Pow10(k) as real
  }

  /** The value of whole-part digits and fraction-part digits around a point. */
  function PointValue(whole: string, frac: string): real {
    DigitsValue(whole) as real + Fraction(DigitsValue(frac), DigitCount(frac))
  }

  /** An unsigned decimal number: digits, an optional point with optional
      digits after it (at least one digit overall), then an optional exponent
      made of `e` or `E`, an optional sign and digits. */
  function ParseUnsignedDecimal(body: string): Option<real> {
    var k := FindExpMark(body);
    var exponent := if k == |body| then Some(0) else ParseSigned(body[k + 1..]);
    var mantissa := body[..k];
    var d := FindChar(mantissa, '.');
    var whole := mantissa[..d];
    var frac := if d == |mantissa| then [] else mantissa[d + 1..];
    if exponent.Some? && (whole != [] || frac != [])
       && (whole == [] || IsDigitPart(whole)) && (frac == [] || IsDigitPart(frac))
    then Some(PointValue(whole, frac) * Scale(exponent.value))
    else None
  }

  /** ASCII upper-case letters mapped to lower case. */
  function Lower(s: string): (r: string)
    ensures |r| == |s|
  {
    seq(|s|, i requires 0 <= i < |s| => if 'A' <= s[i] <= 'Z' then (s[i] as int + 32) as char else s[i])
  }

  /** `float(s)`: surrounding whitespace, an optional sign, then a decimal number
      or one of the words inf, infinity, nan in any letter case. None stands for
      the ValueError Python raises. */
  function ParseFloat(s: string): Option<PyFloat> {
    var t := Strip(s);
    var body := Unsigned(t);
    match ParseUnsignedDecimal(body)
    case Some(v) => Some(Num(Signed(IsNegative(t), v)))
    case None =>
      var word := Lower(body);
      if word == "inf" || word == "infinity" then Some(Inf(IsNegative(t)))
      else if word == "nan" then Some(NaN)
      else None
  }

  // ---------------------------------------------------------------------------
  // The text the instrument writes

  function NatText(n: nat): (r: string)
    ensures |r| > 0
    ensures forall i :: 0 <= i < |r| ==> IsDigit(r[i])
  {
    if n < 10 then [DigitChar(n)] else NatText(n / 10) + [DigitChar(n % 10)]
  }

  /** Decimal text of an integer, with a minus sign when negative. */
  function IntText(n: int): string {
    if n < 0 then "-" + NatText(-n) else NatText(n)
  }

  /** The number of digits in the decimal text of n. */
  function DigitLength(n: int): nat {
    |NatText(Abs(n))|
  }

  /** Exactly `k` digits spelling `f`, with leading zeros. */
  function PaddedText(f: nat, k: nat): (r: string)
    requires f < Pow10(k)
    ensures |r| == k
    ensures forall i :: 0 <= i < |r| ==> IsDigit(r[i])
  {
    if k == 0 then [] else PaddedText(f / 10, k - 1) + [DigitChar(f % 10)]
  }

  /** A fixed-point decimal such as 124.00 or -3.5: sign, whole part, and a
      fraction of `places` digits. */
  datatype Decimal = Decimal(negative: bool, whole: nat, frac: nat, places: nat) {
    predicate Valid() { 1 <= places && frac < Pow10(places) }

    function Value(): real {
      Signed(negative, whole as real + Fraction(frac, places))
    }
  }

  function DecimalText(d: Decimal): string
    requires d.Valid()
  {
    (if d.negative then "-" else "") + NatText(d.whole) + "." + PaddedText(d.frac, d.places)
  }

  // ---------------------------------------------------------------------------
  // Round half to even

  /** The integer nearest to a / b, ties going to the even neighbour. */
  function RoundHalfEvenDiv(a: int, b: int): (r: int)
    requires b > 0
    ensures 2 * Abs(a - r * b) <= b
    ensures 2 * Abs(a - r * b) == b ==> r % 2 == 0
  {
    var q := a / b;
    var rem := a % b;
    assert a == q * b + rem;
    assert a - (q + 1) * b == rem - b;
    if 2 * rem < b then q
    else if 2 * rem > b then q + 1
    else if q % 2 == 0 then q else q + 1
  }

  lemma ProductBounds(j: int, b: int)
    requires b > 0
    ensures j >= 2 ==> j * b >= 2 * b
    ensures j <= -1 ==> j * b <= -b
  {
    if j >= 2 {
      assert j * b == 2 * b + (j - 2) * b;
    } else if j <= -1 {
      assert j * b == -b - (-1 - j) * b;
    }
  }

  /** Only q and q + 1 lie within half a step of a / b, where q = a / b. */
  lemma NearestCandidates(rem: int, b: int, j: int)
    requires 0 <= rem < b
    requires 2 * Abs(rem - j * b) <= b
    ensures j == 0 || j == 1
  {
    ProductBounds(j, b);
  }

  /** The two conditions above single out one integer: round-half-to-even is
      the only rounding that meets them. */
  lemma RoundHalfEvenUnique(a: int, b: int, r: int)
    requires b > 0
    requires 2 * Abs(a - r * b) <= b
    requires 2 * Abs(a - r * b) == b ==> r % 2 == 0
    ensures r == RoundHalfEvenDiv(a, b)
  {
    var q, rem := a / b, a % b;
    RemainderOffset(a, b, r);
    NearestCandidates(rem, b, r - q);
    if r == q {
      assert 2 * rem == b ==> q % 2 == 0;
    } else {
      assert 2 * rem == b ==> q % 2 == 1;
    }
  }

  /** How far a / b is from r, in terms of the remainder of a / b. */
  lemma RemainderOffset(a: int, b: int, r: int)
    requires b > 0
    ensures a - r * b == a % b - (r - a / b) * b
  {
    var q := a / b;
    assert a == q * b + a % b;
    assert r * b == q * b + (r - q) * b;
  }

  // ---------------------------------------------------------------------------
  // Round trips and the int-literal / float-literal relation

  lemma {:induction false} NatTextValue(n: nat)
    ensures DigitsValue(NatText(n)) == n
    ensures DigitCount(NatText(n)) == |NatText(n)|
  {
    if n >= 10 {
      NatTextValue(n / 10);
      var p := NatText(n / 10);
      var s := p + [DigitChar(n % 10)];
      assert s[..|s| - 1] == p;
    }
  }

  lemma {:induction false} PaddedTextValue(f: nat, k: nat)
    requires f < Pow10(k)
    ensures DigitsValue(PaddedText(f, k)) == f
    ensures DigitCount(PaddedText(f, k)) == k
  {
    if k > 0 {
      var q, r := f / 10, f % 10;
      assert f == 10 * q + r;
      assert q < Pow10(k - 1);
      PaddedTextValue(q, k - 1);
      var p := PaddedText(q, k - 1);
      var s := p + [DigitChar(r)];
      assert s[..|s| - 1] == p;
      assert DigitsValue(s) == 10 * DigitsValue(p) + r;
    }
  }

  lemma {:induction false} StripTrailingSpaces(t: string, pad: string)
    requires t != [] && !IsSpace(t[|t| - 1])
    requires forall i :: 0 <= i < |pad| ==> IsSpace(pad[i])
    ensures StripTrailing(t + pad) == t
  {
    if pad != [] {
      assert (t + pad)[..|t + pad| - 1] == t + pad[..|pad| - 1];
      StripTrailingSpaces(t, pad[..|pad| - 1]);
    }
  }

  /** Text that starts and ends with a non-space survives Strip when only
      whitespace (such as the line's "\r\n") follows it. */
  lemma StripPadded(t: string, pad: string)
    requires t != [] && !IsSpace(t[0]) && !IsSpace(t[|t| - 1])
    requires forall i :: 0 <= i < |pad| ==> IsSpace(pad[i])
    ensures Strip(t + pad) == t
  {
    assert StripLeading(t + pad) == t + pad;
    StripTrailingSpaces(t, pad);
  }

  lemma AllDigitsIsDigitPart(b: string)
    requires |b| > 0 && forall i :: 0 <= i < |b| ==> IsDigit(b[i])
    ensures IsDigitPart(b)
  {
  }

  /** int() reads back the text of any integer of at most `IntMaxStrDigits`
      digits, whitespace after it allowed, and refuses the text of any longer
      one. */
  lemma IntTextRoundTrip(n: int, pad: string)
    requires forall i :: 0 <= i < |pad| ==> IsSpace(pad[i])
    ensures DigitLength(n) <= IntMaxStrDigits ==> ParseInt(IntText(n) + pad) == Some(n)
    ensures DigitLength(n) > IntMaxStrDigits ==> ParseInt(IntText(n) + pad) == None
  {
    IntTextEnds(n);
    StripPadded(IntText(n), pad);
    IntTextSigned(n);
  }

  /** An integer has at most k digits exactly when its magnitude is below
      10^k; so int() reads back exactly the integers below 10^4300 in
      magnitude. */
  lemma {:induction false} DigitLengthBound(n: int, k: nat)
    requires k >= 1
    ensures DigitLength(n) <= k <==> Abs(n) < Pow10(k)
    decreases k
  {
    var m := Abs(n);
    if m >= 10 {
      var q := m / 10;
      assert m == 10 * q + m % 10;
      assert DigitLength(n) == DigitLength(q) + 1;
      if k == 1 {
        assert NatText(q) != [];
      } else {
        DigitLengthBound(q, k - 1);
        assert Pow10(k) == 10 * Pow10(k - 1);
      }
    }
  }

  /** The text of an integer starts and ends with a non-space. */
  lemma IntTextEnds(n: int)
    ensures var t := IntText(n);
            t != [] && !IsSpace(t[0]) && !IsSpace(t[|t| - 1])
  {
    var m: nat := if n < 0 then -n else n;
    var digits := NatText(m);
    var t := IntText(n);
    assert t == (if n < 0 then "-" else "") + digits;
    assert t[|t| - 1] == digits[|digits| - 1];
  }

  /** The text of an integer is a signed digit group with its value, of
      `DigitLength(n)` digits. */
  lemma IntTextSigned(n: int)
    ensures ParseSigned(IntText(n)) == Some(n)
    ensures DigitCount(Unsigned(IntText(n))) == DigitLength(n)
  {
    var m: nat := if n < 0 then -n else n;
    var digits := NatText(m);
    var t := IntText(n);
    assert t == (if n < 0 then "-" else "") + digits;
    assert Unsigned(t) == digits;
    NatTextValue(m);
    AllDigitsIsDigitPart(digits);
  }

  /** A character that is neither a digit nor an underscore breaks a digit group. */
  lemma NotDigitPart(b: string, k: nat)
    requires k < |b| && !IsDigit(b[k]) && b[k] != '_'
    ensures !IsDigitPart(b)
  {
  }

  /** Digits, a point and digits parse as a decimal number without exponent,
      and not as an integer. */
  lemma PointTextParse(w: string, f: string)
    requires |w| > 0 && forall i :: 0 <= i < |w| ==> IsDigit(w[i])
    requires |f| > 0 && forall i :: 0 <= i < |f| ==> IsDigit(f[i])
    ensures ParseUnsignedDecimal(w + "." + f) == Some(PointValue(w, f))
    ensures !IsDigitPart(w + "." + f)
  {
    var body := w + "." + f;
    forall i | 0 <= i < |body|
      ensures !IsExpMark(body[i])
      ensures i < |w| ==> body[i] != '.'
    {
      if i < |w| { assert body[i] == w[i]; }
      else if i > |w| { assert body[i] == f[i - |w| - 1]; }
    }
    assert body[|w|] == '.';
    assert FindExpMark(body) == |body|;
    assert body[..|body|] == body;
    assert FindChar(body, '.') == |w|;
    assert body[..|w|] == w;
    assert body[|w| + 1..] == f;
    AllDigitsIsDigitPart(w);
    AllDigitsIsDigitPart(f);
    assert Scale(0) == 1.0;
    NotDigitPart(body, |w|);
  }

  /** The instrument's text of a decimal, with trailing whitespace, strips to
      the text itself, whose sign is the decimal's and whose unsigned part is
      whole digits, a point and fraction digits. */
  lemma DecimalTextShape(d: Decimal, pad: string)
    requires d.Valid()
    requires forall i :: 0 <= i < |pad| ==> IsSpace(pad[i])
    ensures Strip(DecimalText(d) + pad) == DecimalText(d)
    ensures IsNegative(DecimalText(d)) == d.negative
    ensures Unsigned(DecimalText(d)) == NatText(d.whole) + "." + PaddedText(d.frac, d.places)
  {
    var f := PaddedText(d.frac, d.places);
    var body := NatText(d.whole) + "." + f;
    var t := DecimalText(d);
    assert t[|t| - 1] == f[|f| - 1] by {
      assert t == (if d.negative then "-" else "") + body;
    }
    if d.negative {
      assert t == "-" + body;
      assert t[1..] == body;
    } else {
      assert t == body;
      assert IsDigit(t[0]);
    }
    StripPadded(t, pad);
  }

  /** Text that strips to an optionally signed digits-point-digits number is
      read by float() as that number. */
  lemma FloatOfPointText(s: string, w: string, f: string)
    requires |w| > 0 && forall i :: 0 <= i < |w| ==> IsDigit(w[i])
    requires |f| > 0 && forall i :: 0 <= i < |f| ==> IsDigit(f[i])
    requires Unsigned(Strip(s)) == w + "." + f
    ensures ParseFloat(s) == Some(Num(Signed(IsNegative(Strip(s)), PointValue(w, f))))
  {
    PointTextParse(w, f);
  }

  lemma DecimalTextNotInt(d: Decimal, pad: string)
    requires d.Valid()
    requires forall i :: 0 <= i < |pad| ==> IsSpace(pad[i])
    ensures ParseInt(DecimalText(d) + pad) == None
  {
    DecimalTextShape(d, pad);
    PointTextParse(NatText(d.whole), PaddedText(d.frac, d.places));
  }

  lemma DecimalTextFloatParse(d: Decimal, pad: string)
    requires d.Valid()
    requires forall i :: 0 <= i < |pad| ==> IsSpace(pad[i])
    ensures ParseFloat(DecimalText(d) + pad)
            == Some(Num(Signed(d.negative, PointValue(NatText(d.whole), PaddedText(d.frac, d.places)))))
  {
    DecimalTextShape(d, pad);
    FloatOfPointText(DecimalText(d) + pad, NatText(d.whole), PaddedText(d.frac, d.places));
  }

  lemma DecimalTextPointValue(d: Decimal)
    requires d.Valid()
    ensures Signed(d.negative, PointValue(NatText(d.whole), PaddedText(d.frac, d.places))) == d.Value()
  {
    NatTextValue(d.whole);
    PaddedTextValue(d.frac, d.places);
  }

  /** float() reads back a fixed-point decimal exactly, and int() refuses it:
      this is why "124.00" passes as a frequency field and "124" does not. */
  lemma DecimalTextRoundTrip(d: Decimal, pad: string)
    requires d.Valid()
    requires forall i :: 0 <= i < |pad| ==> IsSpace(pad[i])
    ensures ParseFloat(DecimalText(d) + pad) == Some(Num(d.Value()))
    ensures ParseInt(DecimalText(d) + pad) == None
  {
    DecimalTextPointValue(d);
    DecimalTextFloatParse(d, pad);
    DecimalTextNotInt(d, pad);
  }

  /** Every text int() accepts, float() accepts as the same number; so a field
      that passes int() is never a proper float literal in the row rule. */
  lemma IntLiteralIsFloatLiteral(s: string)
    requires ParseInt(s).Some?
    ensures ParseFloat(s) == Some(Num(ParseInt(s).value as real))
  {
    SignedLiteralIsFloatLiteral(s);
  }

  /** The same holds for a signed digit group of any length, which float()
      reads even where int() refuses it for its length. */
  lemma SignedLiteralIsFloatLiteral(s: string)
    requires ParseSigned(Strip(s)).Some?
    ensures ParseFloat(s) == Some(Num(ParseSigned(Strip(s)).value as real))
  {
    var t := Strip(s);
    var body := Unsigned(t);
    DigitPartIsDecimal(body);
  }

  /** float() reads the text of any integer, however long, as that integer. */
  lemma IntTextFloat(n: int)
    ensures ParseFloat(IntText(n)) == Some(Num(n as real))
  {
    IntTextEnds(n);
    assert IntText(n) + [] == IntText(n);
    StripPadded(IntText(n), []);
    IntTextSigned(n);
    SignedLiteralIsFloatLiteral(IntText(n));
  }

  /** A digit group read as a decimal number has the value it has as an
      integer. */
  lemma DigitPartIsDecimal(body: string)
    requires IsDigitPart(body)
    ensures ParseUnsignedDecimal(body) == Some(DigitsValue(body) as real)
  {
    DigitPartHasNoMarks(body);
    assert body[..|body|] == body;
    assert PointValue(body, []) == DigitsValue(body) as real;
  }

  lemma DigitPartHasNoMarks(body: string)
    requires IsDigitPart(body)
    ensures FindExpMark(body) == |body| && FindChar(body, '.') == |body|
  {
    assert forall i :: 0 <= i < |body| ==> !IsExpMark(body[i]) && body[i] != '.';
  }
}
