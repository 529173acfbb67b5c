/** The peak-window logic of `parabolic_fit`: the first index of the largest
    amplitude, the two shoulder levels (a point half a peak width away, or the
    mean of a tenth of the curve when there is no room), the threshold halfway
    between the peak and the shoulders, the points at or above it, and the
    vertex of the parabola fitted through them. The least-squares fit itself
    (`np.polyfit`) is a parameter. */
module ParabolicPeak {
  import opened Wrappers
  import FrequencyGrid

  datatype FitError =
    | EmptyCurve          // `max()` of an empty array raises
    | ZeroStep            // `peak_width / (2 * step_size)` with a zero step
    | IndexOutOfRange     // a shoulder index outside the curve, even after Python's wrap-around
    | EmptySelection      // a NaN threshold selects nothing, and polyfit refuses an empty fit
    | DegenerateFit       // a zero leading coefficient leaves fewer than two roots

  /** A float level: a number, or the NaN that `np.mean` of nothing gives. */
  datatype Level = Value(x: real) | NotANumber

  /** The quadratic `c0*x^2 + c1*x + c2` from `np.polyfit(x, y, 2)`. */
  datatype Coeffs = Coeffs(c0: real, c1: real, c2: real)

  /** The points chosen for the fit and the level that chose them. */
  datatype Window = Window(peak: nat, threshold: real, indices: seq<nat>, xs: seq<real>, ys: seq<real>)

  /** The fitted resonance: the mean of the two roots, and the parabola there. */
  datatype FitResult = FitResult(frequency: real, amplitude: real)

  // ---------------------------------------------------------------------------
  // Peak and shoulders

  /** `np.where(a == a.max())[0][0]`: the first index holding the largest value. */
  function FirstArgMax(a: seq<real>): (k: nat)
    requires |a| > 0
    ensures k < |a|
    ensures forall i :: 0 <= i < |a| ==> a[i] <= a[k]
    ensures forall i :: 0 <= i < k ==> a[i] < a[k]
  {
    if |a| == 1 then 0
    else
      var k := FirstArgMax(a[..|a| - 1]);
      if a[|a| - 1] > a[k] then |a| - 1 else k
  }

  /** `a[i]` with Python's indexing: a negative index counts from the end, and
      anything outside `-|a| .. |a| - 1` raises. */
  function PyIndex(a: seq<real>, i: int): (r: Option<real>)
    ensures r.Some? <==> -|a| <= i < |a|
    ensures r.Some? ==> r.value in a
  {
    if 0 <= i < |a| then Some(a[i])
    else if -|a| <= i < 0 then Some(a[|a| + i])
    else None
  }

  function Sum(vals: seq<real>): real {
    if vals == [] then 0.0 else Sum(vals[..|vals| - 1]) + vals[|vals| - 1]
  }

  /** `np.mean`; NaN for no values. */
  function Mean(vals: seq<real>): Level {
    if vals == [] then NotANumber else Value(Sum(vals) / |vals| as real)
  }

  /** `b_vals`: the last `count` amplitudes, from the end backwards. */
  function TailValues(amps: seq<real>, count: nat): (r: seq<real>)
    requires count <= |amps|
    ensures |r| == count
  {
    seq(count, j requires 0 <= j < count => amps[|amps| - 1 - j])
  }

  /** `a_vals`: `count` amplitudes from index 1 on (index 0 is skipped). */
  function HeadValues(amps: seq<real>, count: nat): (r: seq<real>)
    requires count < |amps|
    ensures |r| == count
  {
    seq(count, j requires 0 <= j < count => amps[j + 1])
  }

  /** `int(len / 10)`. */
  function TenthCount(n: nat): nat { n / 10 }

  /** `b`: half a peak width to the right of the peak, or, when fewer points
      than that remain (`half_width > len - Amax_ind`), the mean of the last
      tenth of the curve. */
  function RightShoulder(amps: seq<real>, k: nat, hw: int): Result<Level, FitError>
    requires k < |amps|
  {
    if hw > |amps| - k then Ok(Mean(TailValues(amps, TenthCount(|amps|))))
    else match PyIndex(amps, k + hw - 1)
      case Some(v) => Ok(Value(v))
      case None => Err(IndexOutOfRange)
  }

  /** `a`: half a peak width to the left of the peak, or, when fewer points
      than that precede it (`half_width > Amax_ind`), the mean of the first
      tenth of the curve after index 0. */
  function LeftShoulder(amps: seq<real>, k: nat, hw: int): Result<Level, FitError>
    requires k < |amps|
  {
    if hw > k then Ok(Mean(HeadValues(amps, TenthCount(|amps|))))
    else match PyIndex(amps, k - hw)
      case Some(v) => Ok(Value(v))
      case None => Err(IndexOutOfRange)
  }

  /** The loop that gathers `b_vals` and averages them, or the single
      amplitude it reads. */
  method ComputeRightShoulder(amps: seq<real>, k: nat, hw: int) returns (r: Result<Level, FitError>)
    requires k < |amps|
    ensures r == RightShoulder(amps, k, hw)
  {
    var n := |amps|;
    if hw > n - k {
      var tenth := TenthCount(n);
      var bVals: seq<real> := [];
      for i := 1 to tenth + 1
        invariant bVals == TailValues(amps, i - 1)
      {
        assert TailValues(amps, i) == TailValues(amps, i - 1) + [amps[n - i]];
        bVals := bVals + [amps[n - i]];
      }
      return Ok(Mean(bVals));
    }
    var v := PyIndex(amps, k + hw - 1);
    if v.None? {
      return Err(IndexOutOfRange);
    }
    return Ok(Value(v.value));
  }

  /** The loop that gathers `a_vals` and averages them, or the single
      amplitude it reads. */
  method ComputeLeftShoulder(amps: seq<real>, k: nat, hw: int) returns (r: Result<Level, FitError>)
    requires k < |amps|
    ensures r == LeftShoulder(amps, k, hw)
  {
    var n := |amps|;
    if hw > k {
      var tenth := TenthCount(n);
      var aVals: seq<real> := [];
      for i := 1 to tenth + 1
        invariant aVals == HeadValues(amps, i - 1)
      {
        assert HeadValues(amps, i) == HeadValues(amps, i - 1) + [amps[i]];
        aVals := aVals + [amps[i]];
      }
      return Ok(Mean(aVals));
    }
    var v := PyIndex(amps, k - hw);
    if v.None? {
      return Err(IndexOutOfRange);
    }
    return Ok(Value(v.value));
  }

  /** `A_fw_hm = 0.5*Amax + 0.5*(b + a)/2`. */
  function Threshold(amax: real, a: real, b: real): real {
    0.5 * amax + 0.5 * ((b + a) / 2.0)
  }

  /** `np.where(amps >= threshold)`: the qualifying indices, increasing. */
  function Above(amps: seq<real>, threshold: real): (r: seq<nat>)
    ensures forall j :: 0 <= j < |r| ==> r[j] < |amps| && amps[r[j]] >= threshold
    ensures forall i :: 0 <= i < |amps| && amps[i] >= threshold ==> i in r
    ensures forall j, l :: 0 <= j < l < |r| ==> r[j] < r[l]
  {
    if amps == [] then []
    else
      var earlier := Above(amps[..|amps| - 1], threshold);
      if amps[|amps| - 1] >= threshold then earlier + [|amps| - 1] else earlier
  }

  function Pick(a: seq<real>, indices: seq<nat>): (r: seq<real>)
    requires forall j :: 0 <= j < |indices| ==> indices[j] < |a|
    ensures |r| == |indices|
  {
    seq(|indices|, j requires 0 <= j < |indices| => a[indices[j]])
  }

  /** The points `parabolic_fit` hands to polyfit, or the error that stops it
      before the fit. */
  function PeakWindow(freqs: seq<real>, amps: seq<real>, hw: int): Result<Window, FitError>
    requires |freqs| == |amps|
  {
    if amps == [] then Err(EmptyCurve)
    else
      var k := FirstArgMax(amps);
      match (RightShoulder(amps, k, hw), LeftShoulder(amps, k, hw))
      case (Err(e), _) => Err(e)
      case (_, Err(e)) => Err(e)
      case (Ok(Value(b)), Ok(Value(a))) =>
        var t := Threshold(amps[k], a, b);
        var idx := Above(amps, t);
        Ok(Window(k, t, idx, Pick(freqs, idx), Pick(amps, idx)))
      case _ => Err(EmptySelection)
  }

  /** `int(peak_width / (2 * step_size))`. */
  function HalfWidth(peakWidth: real, step: real): Result<int, FitError> {
    if step == 0.0 then Err(ZeroStep) else Ok(FrequencyGrid.Trunc(peakWidth / (2.0 * step)))
  }

  // ---------------------------------------------------------------------------
  // The parabola

  function Poly(c: Coeffs, x: real): real {
    c.c0 * x * x + c.c1 * x + c.c2
  }

  /** `-c1 / (2*c0)`, where the parabola turns. */
  function Vertex(c: Coeffs): real
    requires c.c0 != 0.0
  {
    -c.c1 / (2.0 * c.c0)
  }

  /** From the fitted coefficients to the resonance: `np.roots` of the
      parabola less the threshold needs a non-zero leading coefficient to give
      two roots, and their mean is the vertex. */
  function Resonance(c: Coeffs): Result<FitResult, FitError> {
    if c.c0 == 0.0 then Err(DegenerateFit)
    else Ok(FitResult(Vertex(c), Poly(c, Vertex(c))))
  }

  /** What `parabolic_fit` returns as the resonance (and appends as its
      amplitude), or the error it raises. */
  function CurveFit(freqs: seq<real>, amps: seq<real>, peakWidth: real, step: real,
                    polyfit: (seq<real>, seq<real>) -> Coeffs): Result<FitResult, FitError>
    requires |freqs| == |amps|
  {
    match HalfWidth(peakWidth, step)
    case Err(e) => Err(e)
    case Ok(hw) =>
      match PeakWindow(freqs, amps, hw)
      case Err(e) => Err(e)
      case Ok(w) => Resonance(polyfit(w.xs, w.ys))
  }

  // ---------------------------------------------------------------------------
  // Shoulders and threshold

  /** A mean is no larger than a bound on its values. */
  lemma {:induction false} MeanAtMost(vals: seq<real>, m: real)
    requires forall j :: 0 <= j < |vals| ==> vals[j] <= m
    ensures Mean(vals).Value? ==> Mean(vals).x <= m
  {
    SumAtMost(vals, m);
  }

  lemma {:induction false} SumAtMost(vals: seq<real>, m: real)
    requires forall j :: 0 <= j < |vals| ==> vals[j] <= m
    ensures Sum(vals) <= |vals| as real * m
  {
    if vals != [] {
      SumAtMost(vals[..|vals| - 1], m);
    }
  }

  /** Both shoulder levels, when they are numbers, are at most the peak. */
  lemma ShouldersAtMostPeak(amps: seq<real>, hw: int)
    requires |amps| > 0
    ensures var k := FirstArgMax(amps);
            (RightShoulder(amps, k, hw).Ok? && RightShoulder(amps, k, hw).value.Value? ==> RightShoulder(amps, k, hw).value.x <= amps[k]) &&
            (LeftShoulder(amps, k, hw).Ok? && LeftShoulder(amps, k, hw).value.Value? ==> LeftShoulder(amps, k, hw).value.x <= amps[k])
  {
    var k := FirstArgMax(amps);
    var n := TenthCount(|amps|);
    MeanAtMost(TailValues(amps, n), amps[k]);
    MeanAtMost(HeadValues(amps, n), amps[k]);
  }

  /** The threshold lies between the mean of the shoulders and the peak. */
  lemma ThresholdBetween(amax: real, a: real, b: real)
    requires a <= amax && b <= amax
    ensures (a + b) / 2.0 <= Threshold(amax, a, b) <= amax
  {
  }

  /** The window is never empty: the peak itself is selected, and the x and y
      values are taken at the same indices, in curve order. */
  lemma PeakInWindow(freqs: seq<real>, amps: seq<real>, hw: int)
    requires |freqs| == |amps|
    requires PeakWindow(freqs, amps, hw).Ok?
    ensures var w := PeakWindow(freqs, amps, hw).value;
            w.peak == FirstArgMax(amps) && w.peak in w.indices &&
            w.threshold <= amps[w.peak] &&
            |w.xs| == |w.ys| == |w.indices| >= 1 &&
            forall j :: 0 <= j < |w.indices| ==>
              w.xs[j] == freqs[w.indices[j]] && w.ys[j] == amps[w.indices[j]] && w.ys[j] >= w.threshold
  {
    var k := FirstArgMax(amps);
    ShouldersAtMostPeak(amps, hw);
  }

  /** With a non-negative half width the shoulder indices are in range: `b`
      is at most at `len - 1` (at -1, the last point, when both the half width
      and the peak index are 0) and `a` is at least at 0. */
  lemma ShoulderIndicesInRange(amps: seq<real>, hw: int)
    requires |amps| > 0 && hw >= 0
    ensures RightShoulder(amps, FirstArgMax(amps), hw).Ok?
    ensures LeftShoulder(amps, FirstArgMax(amps), hw).Ok?
  {
  }

  /** A curve of at least ten points never gives a NaN shoulder, since a tenth
      of it is at least one value; so with a non-negative half width only a
      shorter curve can leave the fit with nothing to fit. */
  lemma EmptySelectionNeedsShortCurve(freqs: seq<real>, amps: seq<real>, hw: int)
    requires |freqs| == |amps| && hw >= 0
    requires PeakWindow(freqs, amps, hw) == Err(EmptySelection)
    ensures 0 < |amps| < 10
  {
    ShoulderIndicesInRange(amps, hw);
    FallbackMeansDefined(amps);
  }

  lemma FallbackMeansDefined(amps: seq<real>)
    ensures |amps| >= 10 ==> Mean(TailValues(amps, TenthCount(|amps|))).Value?
    ensures |amps| >= 10 ==> Mean(HeadValues(amps, TenthCount(|amps|))).Value?
  {
  }

  // ---------------------------------------------------------------------------
  // The parabola and its roots

  /** The parabola around its vertex: `c0*(x - v)^2 + P(v)`. */
  lemma VertexForm(c: Coeffs, x: real)
    requires c.c0 != 0.0
    ensures Poly(c, x) == c.c0 * (x - Vertex(c)) * (x - Vertex(c)) + Poly(c, Vertex(c))
  {
    var v := Vertex(c);
    assert c.c1 == -2.0 * c.c0 * v;
  }

  /** Two different points at the same height are symmetric about the
      vertex: the mean of the two roots at the threshold is the vertex. */
  lemma RootsMeanIsVertex(c: Coeffs, r1: real, r2: real)
    requires c.c0 != 0.0 && r1 != r2
    requires Poly(c, r1) == Poly(c, r2)
    ensures (r1 + r2) / 2.0 == Vertex(c)
  {
    assert Poly(c, r1) - Poly(c, r2) == (r1 - r2) * (c.c0 * (r1 + r2) + c.c1);
    assert c.c0 * (r1 + r2) + c.c1 == 0.0;
  }

  /** A parabola opening downward is highest at its vertex, and it is
      symmetric about it. */
  lemma VertexIsPeak(c: Coeffs, x: real, d: real)
    requires c.c0 < 0.0
    ensures Poly(c, x) <= Poly(c, Vertex(c))
    ensures Poly(c, Vertex(c) + d) == Poly(c, Vertex(c) - d)
  {
    VertexForm(c, x);
    VertexForm(c, Vertex(c) + d);
    VertexForm(c, Vertex(c) - d);
    assert (x - Vertex(c)) * (x - Vertex(c)) >= 0.0;
  }
}
