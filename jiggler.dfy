/** The state a `Jiggler` instrument object keeps between sweeps and the
    operations that update it: the row filter over one frequency's lines,
    the parabolic fit (which records the fitted amplitude), and the per-sweep
    and per-file accumulation of resonance frequencies that passes each fit
    through the 50-200 Hz plausibility filter. */
module JigglerState {
  import opened Wrappers
  import opened PyNumbers
  import opened PyStrings
  import opened RowFilter
  import opened ParabolicPeak

  /** The outcome of the Lorentz curve fit, which is not modelled: a centre
      frequency, or the failure that `lorentz_fit` reports as the sentinel
      `[0, 0, 0, 0, 0]`. */
  datatype LorentzOutcome = Converged(center: real) | NoFit

  /** The first entry of `lorentz_fit`'s result. */
  function LorentzFrequency(o: LorentzOutcome): real {
    match o
    case Converged(c) => c
    case NoFit => 0.0
  }

  /** A fitted frequency is kept only strictly between 50 and 200 Hz; anything
      else is recorded as None. */
  function Plausible(f: real): (r: Option<real>)
    ensures r.Some? <==> 50.0 < f < 200.0
    ensures r.Some? ==> r.value == f
  {
    if f < 200.0 && f > 50.0 then Some(f) else None
  }

  /** A failed Lorentz fit is always recorded as None. */
  lemma FailedLorentzIsNone()
    ensures Plausible(LorentzFrequency(NoFit)) == None
  {
  }

  /** One curve of amplitude results: `A_sol_list[0]` and `A_sol_list[1]`. */
  datatype Curve = Curve(frequency: seq<real>, amplitude: seq<real>) {
    predicate WellFormed() { |frequency| == |amplitude| }
  }

  /** Start, midpoint and end of a sweep, in microseconds. */
  datatype SweepTimes = SweepTimes(start: int, mid: int, end: int)

  /** `start + (start - end) / 2`, the timedelta halved and rounded half to
      even to the microsecond, as the sweep computes it: the reflection of
      the midpoint about the start. */
  function MidTime(start: int, end: int): int {
    start + RoundHalfEvenDiv(start - end, 2)
  }

  /** For a sweep that ends after it starts, the recorded midpoint lies
      before the start, half the sweep's length away (to the microsecond). */
  lemma MidTimeBeforeStart(start: int, end: int)
    requires start <= end
    ensures MidTime(start, end) <= start
    ensures Abs(2 * (start - MidTime(start, end)) - (end - start)) <= 1
  {
    var r := RoundHalfEvenDiv(start - end, 2);
    assert 2 * Abs((start - end) - r * 2) <= 2;
  }

  /** The width of the peak, in Hz, that `parabolic_fit` uses by default. */
  const PeakWidth: real := 10.0

  /** The frequency step of an imported curve: `A_sol_list[0][1] -
      A_sol_list[0][0]`, an IndexError for a curve of fewer than two points. */
  function CurveStep(c: Curve): Option<real> {
    if |c.frequency| < 2 then None else Some(c.frequency[1] - c.frequency[0])
  }

  datatype ImportError = MissingStep | FitFailed(error: FitError)

  /** What importing one curve adds to the parabolic results (nothing when the
      parabolic fit is switched off), or why it stops the import. */
  function ImportedFit(c: Curve, parabolic: bool, polyfit: (seq<real>, seq<real>) -> Coeffs): Result<seq<FitResult>, ImportError>
    requires c.WellFormed()
  {
    match CurveStep(c)
    case None => Err(MissingStep)
    case Some(step) =>
      if !parabolic then Ok([])
      else match CurveFit(c.frequency, c.amplitude, PeakWidth, step, polyfit)
        case Ok(fit) => Ok([fit])
        case Err(e) => Err(FitFailed(e))
  }

  /** The parabolic fit of a curve that imports without error. */
  function ParabolicOf(c: Curve, polyfit: (seq<real>, seq<real>) -> Coeffs): FitResult
    requires c.WellFormed() && ImportedFit(c, true, polyfit).Ok?
  {
    ImportedFit(c, true, polyfit).value[0]
  }

  predicate AllWellFormed(curves: seq<Curve>) {
    forall i :: 0 <= i < |curves| ==> curves[i].WellFormed()
  }

  /** What importing each curve gives, in order. */
  function Outcomes(curves: seq<Curve>, parabolic: bool, polyfit: (seq<real>, seq<real>) -> Coeffs): (r: seq<Result<seq<FitResult>, ImportError>>)
    requires AllWellFormed(curves)
    ensures |r| == |curves|
  {
    if curves == [] then []
    else Outcomes(curves[..|curves| - 1], parabolic, polyfit) + [ImportedFit(curves[|curves| - 1], parabolic, polyfit)]
  }

  lemma {:induction false} OutcomeAt(curves: seq<Curve>, parabolic: bool, polyfit: (seq<real>, seq<real>) -> Coeffs, i: nat)
    requires AllWellFormed(curves) && i < |curves|
    ensures Outcomes(curves, parabolic, polyfit)[i] == ImportedFit(curves[i], parabolic, polyfit)
  {
    if i < |curves| - 1 {
      OutcomeAt(curves[..|curves| - 1], parabolic, polyfit, i);
    }
  }

  /** The number of curves imported before the first one that fails. */
  function FirstFailure<T, E>(outs: seq<Result<T, E>>): (n: nat)
    ensures n <= |outs|
    ensures forall i :: 0 <= i < n ==> outs[i].Ok?
    ensures n < |outs| ==> outs[n].Err?
  {
    if outs == [] then 0
    else if outs[0].Err? then 0
    else 1 + FirstFailure(outs[1..])
  }

  /** The fits of successfully imported curves, in curve order. */
  function Flatten<T, E>(outs: seq<Result<seq<T>, E>>): seq<T>
    requires forall i :: 0 <= i < |outs| ==> outs[i].Ok?
  {
    if outs == [] then [] else Flatten(outs[..|outs| - 1]) + outs[|outs| - 1].value
  }

  function Frequencies(fits: seq<FitResult>): (r: seq<Option<real>>)
    ensures |r| == |fits|
  {
    seq(|fits|, i requires 0 <= i < |fits| => Plausible(fits[i].frequency))
  }

  function Amplitudes(fits: seq<FitResult>): (r: seq<real>)
    ensures |r| == |fits|
  {
    seq(|fits|, i requires 0 <= i < |fits| => fits[i].amplitude)
  }

  function LorentzEntries(outcomes: seq<LorentzOutcome>): (r: seq<Option<real>>)
    ensures |r| == |outcomes|
  {
    seq(|outcomes|, i requires 0 <= i < |outcomes| => Plausible(LorentzFrequency(outcomes[i])))
  }

  lemma FrequenciesAppend(fits: seq<FitResult>, more: seq<FitResult>)
    ensures Frequencies(fits + more) == Frequencies(fits) + Frequencies(more)
    ensures Amplitudes(fits + more) == Amplitudes(fits) + Amplitudes(more)
  {
  }

  lemma LorentzEntriesAppend(outcomes: seq<LorentzOutcome>, i: nat)
    requires i < |outcomes|
    ensures LorentzEntries(outcomes[..i + 1]) == LorentzEntries(outcomes[..i]) + [Plausible(LorentzFrequency(outcomes[i]))]
  {
  }

  lemma AppendAssoc<T>(a: seq<T>, b: seq<T>, c: seq<T>)
    ensures (a + b) + c == a + (b + c)
  {
  }

  /** The first failure is at the first outcome that is an error. */
  lemma FirstFailureAt<T, E>(outs: seq<Result<T, E>>, i: nat)
    requires i <= FirstFailure(outs) && i < |outs| && outs[i].Err?
    ensures FirstFailure(outs) == i
  {
  }

  /** Flattening one more successful outcome appends its fits. */
  lemma FlattenStep<T, E>(outs: seq<Result<seq<T>, E>>, i: nat)
    requires i < |outs| && forall j :: 0 <= j <= i ==> outs[j].Ok?
    ensures Flatten(outs[..i + 1]) == Flatten(outs[..i]) + outs[i].value
  {
    assert outs[..i + 1][..i] == outs[..i];
  }

  /** When every outcome holds exactly one fit, the fits line up with the
      outcomes. */
  lemma {:induction false} FlattenSingletons<T, E>(outs: seq<Result<seq<T>, E>>)
    requires forall i :: 0 <= i < |outs| ==> outs[i].Ok? && |outs[i].value| == 1
    ensures |Flatten(outs)| == |outs|
    ensures forall i :: 0 <= i < |outs| ==> Flatten(outs)[i] == outs[i].value[0]
  {
    if outs != [] {
      var init := outs[..|outs| - 1];
      FlattenSingletons(init);
    }
  }

  /** When no outcome holds a fit, there are none. */
  lemma {:induction false} FlattenEmpty<T, E>(outs: seq<Result<seq<T>, E>>)
    requires forall i :: 0 <= i < |outs| ==> outs[i].Ok? && outs[i].value == []
    ensures Flatten(outs) == []
  {
    if outs != [] {
      FlattenEmpty(outs[..|outs| - 1]);
    }
  }

  /** An import that succeeds with the parabolic fit on records one
      resonance per curve, in curve order: the fit of that curve, with the
      step read from its first two frequencies, passed through the
      plausibility filter. */
  lemma ImportRecordsOnePerCurve(curves: seq<Curve>, polyfit: (seq<real>, seq<real>) -> Coeffs)
    requires AllWellFormed(curves)
    requires forall i :: 0 <= i < |curves| ==> ImportedFit(curves[i], true, polyfit).Ok?
    ensures var outs := Outcomes(curves, true, polyfit);
            FirstFailure(outs) == |curves| &&
            var entries := Frequencies(Flatten(outs));
            |entries| == |curves| &&
            forall i :: 0 <= i < |curves| ==> entries[i] == Plausible(ParabolicOf(curves[i], polyfit).frequency)
  {
    var outs := Outcomes(curves, true, polyfit);
    forall i | 0 <= i < |curves|
      ensures outs[i] == ImportedFit(curves[i], true, polyfit)
    {
      OutcomeAt(curves, true, polyfit, i);
    }
    FlattenSingletons(outs);
  }

  /** With the parabolic fit off, an import records no parabolic result. */
  lemma ImportRecordsNoneWhenOff(curves: seq<Curve>, polyfit: (seq<real>, seq<real>) -> Coeffs)
    requires AllWellFormed(curves)
    requires forall i :: 0 <= i < |curves| ==> |curves[i].frequency| >= 2
    ensures var outs := Outcomes(curves, false, polyfit);
            FirstFailure(outs) == |curves| && Flatten(outs) == []
  {
    var outs := Outcomes(curves, false, polyfit);
    forall i | 0 <= i < |curves|
      ensures outs[i] == Ok([])
    {
      OutcomeAt(curves, false, polyfit, i);
    }
    FlattenEmpty(outs);
  }

  class Jiggler {
    /** Which sweep of the measurement loop this is, quoted in the filter's
        diagnostic. */
    var loopCount: int
    /** The frequency step of a sweep, in Hz. */
    var stepSize: real
    /** `options_dict["parabolic_fit"]` and `options_dict["lorentz_fit"]`. */
    var parabolicEnabled: bool
    var lorentzEnabled: bool
    /** One entry per fit run: the resonance, or None when implausible. */
    var parabolicResFreq: seq<Option<real>>
    var lorentzResFreq: seq<Option<real>>
    /** The parabola's height at each fitted resonance. */
    var resFreqAmp: seq<real>
    var timeList: seq<SweepTimes>

    constructor (stepSize: real, parabolicEnabled: bool, lorentzEnabled: bool)
      ensures loopCount == 0 && this.stepSize == stepSize
      ensures this.parabolicEnabled == parabolicEnabled && this.lorentzEnabled == lorentzEnabled
      ensures parabolicResFreq == [] && lorentzResFreq == [] && resFreqAmp == [] && timeList == []
    {
      loopCount := 0;
      this.stepSize := stepSize;
      this.parabolicEnabled := parabolicEnabled;
      this.lorentzEnabled := lorentzEnabled;
      parabolicResFreq, lorentzResFreq, resFreqAmp, timeList := [], [], [], [];
    }

    /** The measurement loop counts its sweeps before each one. */
    method NextLoop()
      modifies this`loopCount
      ensures loopCount == old(loopCount) + 1
    {
      loopCount := loopCount + 1;
    }

    /** `data_filter`: keep the lines that pass the row rule, count the rest,
        and report the count together with the first kept frequency. */
    method DataFilter(lines: seq<string>) returns (r: Result<FilterReport, FilterError>)
      ensures r == FilterOutcome(loopCount, lines)
      ensures r.Ok? ==> |r.value.rows| + r.value.rejected == |lines|
    {
      var badCount: nat := 0;
      var clean: seq<Sample> := [];
      for i := 0 to |lines|
        invariant clean == Kept(lines[..i], ParseRow)
        invariant badCount == Rejected(lines[..i], ParseRow)
      {
        assert lines[..i + 1][..i] == lines[..i];
        match ParseRow(lines[i])
        case None =>
          badCount := badCount + 1;
        case Some(row) =>
          clean := clean + [row];
      }
      assert lines[..|lines|] == lines;
      CountsAddUp(lines, ParseRow);
      if badCount > 0 {
        if clean == [] {
          return Err(NoRowToReport);
        }
        return Ok(FilterReport(clean, badCount, Some(FilterWarning(loopCount, clean[0].frequency, badCount))));
      }
      return Ok(FilterReport(clean, 0, None));
    }

    /** `parabolic_fit`: choose the window around the peak, fit it, and record
        the parabola's height at the resonance. Nothing is recorded when it
        raises. */
    method ParabolicFit(freqs: seq<real>, amps: seq<real>, peakWidth: real, step: real,
                        polyfit: (seq<real>, seq<real>) -> Coeffs) returns (r: Result<FitResult, FitError>)
      requires |freqs| == |amps|
      modifies this`resFreqAmp
      ensures r == CurveFit(freqs, amps, peakWidth, step, polyfit)
      ensures resFreqAmp == old(resFreqAmp) + (if r.Ok? then [r.value.amplitude] else [])
    {
      var halfWidth := HalfWidth(peakWidth, step);
      if halfWidth.Err? {
        return Err(halfWidth.error);
      }
      var hw := halfWidth.value;
      if |amps| == 0 {
        return Err(EmptyCurve);
      }
      var k := FirstArgMax(amps);
      var right := ComputeRightShoulder(amps, k, hw);
      if right.Err? {
        return Err(right.error);
      }
      var left := ComputeLeftShoulder(amps, k, hw);
      if left.Err? {
        return Err(left.error);
      }
      var b, a := right.value, left.value;
      if b.NotANumber? || a.NotANumber? {
        return Err(EmptySelection);
      }
      var threshold := Threshold(amps[k], a.x, b.x);
      var indices := Above(amps, threshold);
      var c := polyfit(Pick(freqs, indices), Pick(amps, indices));
      if c.c0 == 0.0 {
        return Err(DegenerateFit);
      }
      var frequency := Vertex(c);
      var amplitude := Poly(c, frequency);
      resFreqAmp := resFreqAmp + [amplitude];
      return Ok(FitResult(frequency, amplitude));
    }

    /** Record one parabolic result, passed through the plausibility filter. */
    method RecordParabolic(f: real)
      modifies this`parabolicResFreq
      ensures parabolicResFreq == old(parabolicResFreq) + [Plausible(f)]
    {
      if f < 200.0 && f > 50.0 {
        parabolicResFreq := parabolicResFreq + [Some(f)];
      } else {
        parabolicResFreq := parabolicResFreq + [None];
      }
    }

    /** Record one Lorentz result, passed through the plausibility filter. */
    method RecordLorentz(o: LorentzOutcome)
      modifies this`lorentzResFreq
      ensures lorentzResFreq == old(lorentzResFreq) + [Plausible(LorentzFrequency(o))]
    {
      var f := LorentzFrequency(o);
      if f < 200.0 && f > 50.0 {
        lorentzResFreq := lorentzResFreq + [Some(f)];
      } else {
        lorentzResFreq := lorentzResFreq + [None];
      }
    }

    /** The fitting and bookkeeping part of `Jiggler_sweep`, given the sweep's
        start and end times and the amplitude curve computed from its data:
        each enabled fit appends exactly one entry, and the times are
        recorded. When the parabolic fit raises, nothing is recorded. */
    method Sweep(start: int, end: int, curve: Curve, lorentz: LorentzOutcome,
                 polyfit: (seq<real>, seq<real>) -> Coeffs) returns (r: Result<SweepTimes, FitError>)
      requires curve.WellFormed()
      modifies this
      ensures loopCount == old(loopCount) && stepSize == old(stepSize)
      ensures parabolicEnabled == old(parabolicEnabled) && lorentzEnabled == old(lorentzEnabled)
      ensures var fit := CurveFit(curve.frequency, curve.amplitude, PeakWidth, stepSize, polyfit);
              r.Err? <==> parabolicEnabled && fit.Err?
      ensures r.Err? ==> parabolicResFreq == old(parabolicResFreq) && lorentzResFreq == old(lorentzResFreq)
                         && resFreqAmp == old(resFreqAmp) && timeList == old(timeList)
      ensures r.Ok? ==>
                var fit := CurveFit(curve.frequency, curve.amplitude, PeakWidth, stepSize, polyfit);
                parabolicResFreq == old(parabolicResFreq) + (if parabolicEnabled then [Plausible(fit.value.frequency)] else []) &&
                resFreqAmp == old(resFreqAmp) + (if parabolicEnabled then [fit.value.amplitude] else []) &&
                lorentzResFreq == old(lorentzResFreq) + (if lorentzEnabled then [Plausible(LorentzFrequency(lorentz))] else []) &&
                r.value == SweepTimes(start, MidTime(start, end), end) &&
                timeList == old(timeList) + [r.value]
    {
      var mid := MidTime(start, end);
      if parabolicEnabled {
        var fit := ParabolicFit(curve.frequency, curve.amplitude, PeakWidth, stepSize, polyfit);
        if fit.Err? {
          return Err(fit.error);
        }
        RecordParabolic(fit.value.frequency);
      }
      if lorentzEnabled {
        RecordLorentz(lorentz);
      }
      var times := SweepTimes(start, mid, end);
      timeList := timeList + [times];
      return Ok(times);
    }

    /** Import curve `i` of a file: derive the step from its first two
        frequencies and run the enabled fits, each appending one entry.
        Nothing is recorded when it raises. */
    method ImportCurve(curves: seq<Curve>, lorentz: seq<LorentzOutcome>,
                       polyfit: (seq<real>, seq<real>) -> Coeffs, i: nat) returns (r: Result<seq<FitResult>, ImportError>)
      requires AllWellFormed(curves) && |lorentz| == |curves| && i < |curves|
      modifies this`parabolicResFreq, this`lorentzResFreq, this`resFreqAmp
      ensures r == Outcomes(curves, parabolicEnabled, polyfit)[i]
      ensures r.Err? ==> parabolicResFreq == old(parabolicResFreq) && lorentzResFreq == old(lorentzResFreq)
                         && resFreqAmp == old(resFreqAmp)
      ensures r.Ok? ==>
                parabolicResFreq == old(parabolicResFreq) + Frequencies(r.value) &&
                resFreqAmp == old(resFreqAmp) + Amplitudes(r.value) &&
                lorentzResFreq == old(lorentzResFreq) + (if lorentzEnabled then [Plausible(LorentzFrequency(lorentz[i]))] else [])
    {
      OutcomeAt(curves, parabolicEnabled, polyfit, i);
      var c := curves[i];
      var step := CurveStep(c);
      if step.None? {
        return Err(MissingStep);
      }
      var fits: seq<FitResult> := [];
      if parabolicEnabled {
        var fit := ParabolicFit(c.frequency, c.amplitude, PeakWidth, step.value, polyfit);
        if fit.Err? {
          return Err(FitFailed(fit.error));
        }
        RecordParabolic(fit.value.frequency);
        fits := [fit.value];
      }
      if lorentzEnabled {
        RecordLorentz(lorentz[i]);
      }
      return Ok(fits);
    }

    /** The fitting part of `import_plotter`: import the curves in order.
        The import stops at the first curve that raises, keeping what the
        curves before it recorded. */
    method ImportFits(curves: seq<Curve>, lorentz: seq<LorentzOutcome>,
                      polyfit: (seq<real>, seq<real>) -> Coeffs) returns (r: Result<(), ImportError>)
      requires AllWellFormed(curves) && |lorentz| == |curves|
      modifies this`parabolicResFreq, this`lorentzResFreq, this`resFreqAmp
      ensures var outs := Outcomes(curves, parabolicEnabled, polyfit);
              var n := FirstFailure(outs);
              var fits := Flatten(outs[..n]);
              (r.Ok? <==> n == |curves|) &&
              parabolicResFreq == old(parabolicResFreq) + Frequencies(fits) &&
              resFreqAmp == old(resFreqAmp) + Amplitudes(fits) &&
              lorentzResFreq == old(lorentzResFreq) + (if lorentzEnabled then LorentzEntries(lorentz[..n]) else [])
    {
      ghost var outs := Outcomes(curves, parabolicEnabled, polyfit);
      var i := 0;
      while i < |curves|
        invariant 0 <= i <= FirstFailure(outs)
        invariant parabolicResFreq == old(parabolicResFreq) + Frequencies(Flatten(outs[..i]))
        invariant resFreqAmp == old(resFreqAmp) + Amplitudes(Flatten(outs[..i]))
        invariant lorentzResFreq == old(lorentzResFreq) + (if lorentzEnabled then LorentzEntries(lorentz[..i]) else [])
      {
        ghost var before := Flatten(outs[..i]);
        var out := ImportCurve(curves, lorentz, polyfit, i);
        if out.Err? {
          FirstFailureAt(outs, i);
          return Err(out.error);
        }
        FlattenStep(outs, i);
        FrequenciesAppend(before, out.value);
        LorentzEntriesAppend(lorentz, i);
        AppendAssoc(old(parabolicResFreq), Frequencies(before), Frequencies(out.value));
        AppendAssoc(old(resFreqAmp), Amplitudes(before), Amplitudes(out.value));
        AppendAssoc(old(lorentzResFreq), LorentzEntries(lorentz[..i]), [Plausible(LorentzFrequency(lorentz[i]))]);
        i := i + 1;
      }
      return Ok(());
    }
  }
}
