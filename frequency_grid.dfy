/** The frequencies a sweep visits: `np.linspace(start, stop,
    int(|stop - start| / step) + 1)`, and the byte strings sent to the
    instrument for them. Values are exact reals; the text of a frequency
    (`str(freq)`) is a parameter. */
module FrequencyGrid {
  import opened Wrappers

  datatype GridError =
    | ZeroStep          // |stop - start| / 0.0 is inf or nan, and int() of it raises
    | NegativeCount     // linspace refuses a negative number of samples

  function AbsReal(x: real): real { if x < 0.0 then -x else x }

  /** Python's int() of a float: truncation toward zero. */
  function Trunc(x: real): (n: int)
    ensures AbsReal(n as real) <= AbsReal(x) < AbsReal(n as real) + 1.0
    ensures n == 0 || (n > 0) == (x > 0.0)
  {
    if x >= 0.0 then x.Floor else -((-x).Floor)
  }

  /** The sample count handed to linspace. */
  function SampleCount(start: real, stop: real, step: real): int
    requires step != 0.0
  {
    Trunc(AbsReal(stop - start) / step) + 1
  }

  /** `np.linspace(start, stop, num)`: no points, the start alone, or `num`
      evenly spaced points from start to stop inclusive. */
  function Linspace(start: real, stop: real, num: nat): (r: seq<real>)
    ensures |r| == num
  {
    if num == 0 then []
    else if num == 1 then [start]
    else seq(num, i => start + i as real * Spacing(start, stop, num))
  }

  /** `frequency_steps`. */
  function FrequencySteps(start: real, stop: real, step: real): (r: Result<seq<real>, GridError>)
    ensures step == 0.0 ==> r == Err(ZeroStep)
    ensures r.Err? <==> step == 0.0 || SampleCount(start, stop, step) < 0
    ensures r.Ok? ==> |r.value| == SampleCount(start, stop, step)
  {
    if step == 0.0 then Err(ZeroStep)
    else
      var num := SampleCount(start, stop, step);
      if num < 0 then Err(NegativeCount) else Ok(Linspace(start, stop, num))
  }

  /** With a positive step the grid has floor(|stop - start| / step) + 1 points:
      it always exists and is never empty. */
  lemma PositiveStepCount(start: real, stop: real, step: real)
    requires step > 0.0
    ensures FrequencySteps(start, stop, step).Ok?
    ensures |FrequencySteps(start, stop, step).value| == (AbsReal(stop - start) / step).Floor + 1
  {
  }

  /** The distance between neighbouring points of a grid of `num` points. */
  function Spacing(start: real, stop: real, num: nat): real
    requires num >= 2
  {
    (stop - start) / (num - 1) as real
  }

  /** The grid starts at `start`, ends at `stop` once it has two points, and
      its neighbours are all the same distance apart. */
  lemma GridShape(start: real, stop: real, step: real)
    requires FrequencySteps(start, stop, step).Ok?
    ensures var r := FrequencySteps(start, stop, step).value;
            (|r| >= 1 ==> r[0] == start) &&
            (|r| >= 2 ==> r[|r| - 1] == stop) &&
            (|r| >= 2 ==> forall i :: 0 <= i < |r| - 1 ==> r[i + 1] - r[i] == Spacing(start, stop, |r|))
  {
    var r := FrequencySteps(start, stop, step).value;
    var n := |r|;
    if n >= 2 {
      LinspaceShape(start, stop, n);
    }
  }

  lemma LinspaceShape(start: real, stop: real, n: nat)
    requires n >= 2
    ensures var r := Linspace(start, stop, n);
            r[n - 1] == stop &&
            forall i :: 0 <= i < n - 1 ==> r[i + 1] - r[i] == Spacing(start, stop, n)
  {
    var r := Linspace(start, stop, n);
    var w := Spacing(start, stop, n);
    forall i | 0 <= i < n - 1
      ensures r[i + 1] - r[i] == w
    {
      assert r[i + 1] == start + (i + 1) as real * w;
      assert r[i] == start + i as real * w;
      assert (i + 1) as real * w == i as real * w + w;
    }
    assert r[n - 1] == start + (n - 1) as real * w;
    assert (n - 1) as real * w == stop - start;
  }

  /** An upward sweep visits its frequencies in strictly increasing order. */
  lemma GridIncreasing(start: real, stop: real, step: real)
    requires step > 0.0 && start < stop
    ensures var r := FrequencySteps(start, stop, step).value;
            forall i, j :: 0 <= i < j < |r| ==> r[i] < r[j]
  {
    var r := FrequencySteps(start, stop, step).value;
    var n := |r|;
    if n >= 2 {
      var w := Spacing(start, stop, n);
      assert w > 0.0;
      forall i, j | 0 <= i < j < n
        ensures r[i] < r[j]
      {
        assert r[j] - r[i] == (j - i) as real * w;
      }
    }
  }

  /** With a positive step the points never come closer than `step`: the count
      is rounded down, so the spacing is rounded up. */
  lemma SpacingAtLeastStep(start: real, stop: real, step: real)
    requires step > 0.0
    requires |FrequencySteps(start, stop, step).value| >= 2
    ensures var r := FrequencySteps(start, stop, step).value;
            AbsReal(r[1] - r[0]) >= step
  {
    var r := FrequencySteps(start, stop, step).value;
    var d := AbsReal(stop - start);
    var k := (d / step).Floor;
    assert |r| == k + 1;
    GridShape(start, stop, step);
    assert r[1] - r[0] == Spacing(start, stop, k + 1);
    assert AbsReal(r[1] - r[0]) == d / k as real;
    QuotientAtLeastStep(d, step, k as real);
  }

  /** Splitting `d` into at most `d / step` parts leaves parts of at least
      `step`. */
  lemma QuotientAtLeastStep(d: real, step: real, parts: real)
    requires step > 0.0 && parts >= 1.0 && parts <= d / step
    ensures d / parts >= step
  {
    var q := d / step;
    assert q * step == d;
    var s := d / parts;
    assert s * parts == d;
    PartsAtLeastStep(q, step, parts, s, d);
  }

  lemma PartsAtLeastStep(q: real, step: real, parts: real, s: real, d: real)
    requires step > 0.0 && parts >= 1.0 && parts <= q
    requires q * step == d && s * parts == d
    ensures s >= step
  {
    ScaleMonotone(parts, q, step);
    ScaleMonotone(s, step, parts);
    assert step * parts == parts * step;
  }

  /** Multiplying by a positive factor keeps the order. */
  lemma ScaleMonotone(x: real, y: real, k: real)
    requires k > 0.0
    ensures x < y ==> x * k < y * k
    ensures x <= y ==> x * k <= y * k
  {
    assert y * k - x * k == (y - x) * k;
    if x < y {
      ProductPositive(y - x, k);
    } else if x <= y {
      ProductNonNegative(y - x, k);
    }
  }

  /** Counting a single point: if |stop - start| is smaller than a positive
      step, linspace gets num == 1 and returns the start alone, even when stop
      differs from it. */
  lemma ShortRangeIsStartOnly(start: real, stop: real, step: real)
    requires step > 0.0 && AbsReal(stop - start) < step
    ensures FrequencySteps(start, stop, step) == Ok([start])
  {
    var d := AbsReal(stop - start);
    FractionOfStep(d, step);
    assert Trunc(d / step) == 0;
  }

  /** A distance shorter than a positive step is less than one step. */
  lemma FractionOfStep(d: real, step: real)
    requires step > 0.0 && 0.0 <= d < step
    ensures 0.0 <= d / step < 1.0
  {
    var q := d / step;
    assert q * step == d;
    MultipleBelowStep(q, step, d);
  }

  lemma MultipleBelowStep(q: real, step: real, d: real)
    requires step > 0.0 && q * step == d && 0.0 <= d < step
    ensures 0.0 <= q < 1.0
  {
    StepMultiple(q, step);
  }

  lemma StepMultiple(q: real, step: real)
    requires step > 0.0
    ensures q >= 1.0 ==> q * step >= step
    ensures q < 0.0 ==> q * step < 0.0
  {
    if q >= 1.0 {
      assert q * step - step == (q - 1.0) * step;
      ProductNonNegative(q - 1.0, step);
    } else if q < 0.0 {
      assert q * step == -((-q) * step);
      ProductPositive(-q, step);
    }
  }

  lemma ProductPositive(x: real, y: real)
    requires x > 0.0 && y > 0.0
    ensures x * y > 0.0
  {
  }

  lemma ProductNonNegative(x: real, y: real)
    requires x >= 0.0 && y >= 0.0
    ensures x * y >= 0.0
  {
  }

  // ---------------------------------------------------------------------------
  // range_byte_encoder

  newtype byte = x: int | 0 <= x < 256

  predicate IsAscii(s: string) {
    forall i :: 0 <= i < |s| ==> s[i] as int < 128
  }

  /** `s.encode()`: UTF-8, which for ASCII text is one byte per character. */
  function Encode(s: string): (b: seq<byte>)
    requires IsAscii(s)
    ensures |b| == |s|
  {
    seq(|s|, i requires 0 <= i < |s| => s[i] as int as byte)
  }

  /** `b.decode()` of ASCII bytes. */
  function Decode(b: seq<byte>): (s: string)
    ensures |s| == |b|
  {
    seq(|b|, i requires 0 <= i < |b| => b[i] as int as char)
  }

  /** Decoding the encoding gives the text back. */
  lemma DecodeEncode(s: string)
    requires IsAscii(s)
    ensures Decode(Encode(s)) == s
  {
    var e := Encode(s);
    forall i | 0 <= i < |s| ensures Decode(e)[i] == s[i] {
      assert e[i] as int == s[i] as int;
    }
  }

  /** `range_byte_encoder`: one encoding per frequency, in grid order. */
  method RangeByteEncoder(frequencies: seq<real>, toText: real -> string) returns (encoded: seq<seq<byte>>)
    requires forall i :: 0 <= i < |frequencies| ==> IsAscii(toText(frequencies[i]))
    ensures |encoded| == |frequencies|
    ensures forall i :: 0 <= i < |frequencies| ==> Decode(encoded[i]) == toText(frequencies[i])
  {
    encoded := [];
    for k := 0 to |frequencies|
      invariant |encoded| == k
      invariant forall i :: 0 <= i < k ==> Decode(encoded[i]) == toText(frequencies[i])
    {
      var text := toText(frequencies[k]);
      DecodeEncode(text);
      encoded := encoded + [Encode(text)];
    }
  }
}
