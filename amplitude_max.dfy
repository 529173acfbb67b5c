/** `Amplitude_max`: the largest deviation from the rounded mean that at least
    2% of a batch of deflection samples share. Deflections are integer tenths
    of a degree, so the rounded mean and the deviations are integers. */
module AmplitudeMax {
  import opened Wrappers
  import opened PyNumbers

  /** `A_max` is never bound: no deviation level reaches the 2% share (always
      the case for an empty batch), and returning it raises. */
  datatype AmplitudeError = NoQualifyingLevel

  function Sum(s: seq<int>): int {
    if s == [] then 0 else Sum(s[..|s| - 1]) + s[|s| - 1]
  }

  /** `np.round(np.mean(angle))`: the mean rounded half to even. */
  function RoundedMean(angle: seq<int>): int
    requires |angle| > 0
  {
    RoundHalfEvenDiv(Sum(angle), |angle|)
  }

  /** `abs(angle - mean)`, sample by sample. */
  function Deviations(angle: seq<int>): (d: seq<nat>)
    requires |angle| > 0
    ensures |d| == |angle|
  {
    var m := RoundedMean(angle);
    seq(|angle|, i requires 0 <= i < |angle| => Abs(angle[i] - m))
  }

  /** More than 2% of the batch sits at deviation `v`: `len*0.02 < count`,
      written without the fraction. */
  predicate Qualifies(devs: seq<nat>, v: int) {
    50 * multiset(devs)[v] > |devs|
  }

  /** The largest element of a non-empty batch: `unique_angles[-1]`. */
  function MaxOf(s: seq<nat>): (m: nat)
    requires |s| > 0
    ensures m in s
    ensures forall i :: 0 <= i < |s| ==> s[i] <= m
  {
    if |s| == 1 then s[0]
    else
      var rest := MaxOf(s[1..]);
      assert rest in s;
      if s[0] >= rest then s[0] else rest
  }

  /** The walk from level `v` downward over the levels that occur. */
  function Search(devs: seq<nat>, v: int): Option<nat>
    decreases v + 1
  {
    if v < 0 then None
    else if v in devs && Qualifies(devs, v) then Some(v)
    else Search(devs, v - 1)
  }

  /** What `Amplitude_max` returns, or its error. */
  function AmplitudeMaxSpec(angle: seq<int>): Result<nat, AmplitudeError> {
    if angle == [] then Err(NoQualifyingLevel)
    else
      var devs := Deviations(angle);
      match Search(devs, MaxOf(devs))
      case Some(v) => Ok(v)
      case None => Err(NoQualifyingLevel)
  }

  // ---------------------------------------------------------------------------
  // What the search finds

  /** The walk returns a level at or below its start that occurs and
      qualifies, and no level between the two qualifies; when it finds
      nothing, no level up to its start qualifies. */
  lemma {:induction false} SearchFinds(devs: seq<nat>, v: int)
    ensures Search(devs, v).Some? ==>
              var w := Search(devs, v).value;
              w <= v && w in devs && Qualifies(devs, w) &&
              forall u :: w < u <= v ==> !Qualifies(devs, u)
    ensures Search(devs, v).None? ==> forall u :: 0 <= u <= v ==> !Qualifies(devs, u)
    decreases v + 1
  {
    if v >= 0 {
      SearchFinds(devs, v - 1);
      if !(v in devs) {
        assert multiset(devs)[v] == 0;
      }
    }
  }

  /** A level that does not occur has no share at all. */
  lemma AbsentDoesNotQualify(devs: seq<nat>, u: int)
    requires u !in devs
    ensures !Qualifies(devs, u)
  {
    assert multiset(devs)[u] == 0;
  }

  /** `Amplitude_max` returns the largest qualifying deviation level: it
      occurs among the deviations, more than 2% of the batch share it, and no
      larger level does. It fails exactly when no level qualifies. */
  lemma AmplitudeMaxIsLargestQualifying(angle: seq<int>)
    requires |angle| > 0
    ensures var devs := Deviations(angle);
            match AmplitudeMaxSpec(angle)
            case Ok(v) => v in devs && Qualifies(devs, v) && forall u :: u > v ==> !Qualifies(devs, u)
            case Err(_) => forall u :: !Qualifies(devs, u)
  {
    var devs := Deviations(angle);
    var top := MaxOf(devs);
    SearchFinds(devs, top);
    forall u | u > top ensures !Qualifies(devs, u) {
      AbsentDoesNotQualify(devs, u);
    }
    forall u | u < 0 ensures !Qualifies(devs, u) {
      AbsentDoesNotQualify(devs, u);
    }
  }

  /** In a batch of fewer than 50 samples every occurring level qualifies, so
      the result is the largest deviation. */
  lemma SmallBatchTakesLargestDeviation(angle: seq<int>)
    requires 0 < |angle| < 50
    ensures AmplitudeMaxSpec(angle) == Ok(MaxOf(Deviations(angle)))
  {
    var devs := Deviations(angle);
    var top := MaxOf(devs);
    assert multiset(devs)[top] >= 1;
  }

  // ---------------------------------------------------------------------------
  // Independence from the zero and the sign of the deflection reading

  function Shift(angle: seq<int>, c: int): (r: seq<int>)
    ensures |r| == |angle|
  {
    seq(|angle|, i requires 0 <= i < |angle| => angle[i] + c)
  }

  function Negate(angle: seq<int>): (r: seq<int>)
    ensures |r| == |angle|
  {
    seq(|angle|, i requires 0 <= i < |angle| => -angle[i])
  }

  lemma {:induction false} SumShift(angle: seq<int>, c: int)
    ensures Sum(Shift(angle, c)) == Sum(angle) + |angle| * c
  {
    if angle != [] {
      var init := angle[..|angle| - 1];
      SumShift(init, c);
      assert Shift(angle, c)[..|angle| - 1] == Shift(init, c);
    }
  }

  lemma {:induction false} SumNegate(angle: seq<int>)
    ensures Sum(Negate(angle)) == -Sum(angle)
  {
    if angle != [] {
      var init := angle[..|angle| - 1];
      SumNegate(init);
      assert Negate(angle)[..|angle| - 1] == Negate(init);
    }
  }

  /** Rounding commutes with adding an even number of steps (an odd number
      can move a tie to the other neighbour). */
  lemma RoundShift(a: int, n: int, c: int)
    requires n > 0 && c % 2 == 0
    ensures RoundHalfEvenDiv(a + n * c, n) == RoundHalfEvenDiv(a, n) + c
  {
    var r := RoundHalfEvenDiv(a, n);
    ShiftOffset(a, n, c, r);
    assert (r + c) % 2 == r % 2;
    RoundHalfEvenUnique(a + n * c, n, r + c);
  }

  lemma ShiftOffset(a: int, n: int, c: int, r: int)
    ensures (a + n * c) - (r + c) * n == a - r * n
  {
    assert (r + c) * n == r * n + c * n;
  }

  /** Round half to even is symmetric about zero. */
  lemma RoundNegate(a: int, n: int)
    requires n > 0
    ensures RoundHalfEvenDiv(-a, n) == -RoundHalfEvenDiv(a, n)
  {
    var r := RoundHalfEvenDiv(a, n);
    assert -a - (-r) * n == -(a - r * n);
    RoundHalfEvenUnique(-a, n, -r);
  }

  /** An even offset of the angle sensor does not change the amplitude: the
      rounded mean moves with it and the deviations stay the same. */
  lemma ShiftInvariant(angle: seq<int>, c: int)
    requires c % 2 == 0
    ensures AmplitudeMaxSpec(Shift(angle, c)) == AmplitudeMaxSpec(angle)
  {
    if angle != [] {
      SumShift(angle, c);
      RoundShift(Sum(angle), |angle|, c);
      assert Deviations(Shift(angle, c)) == Deviations(angle);
    }
  }

  /** Reading the deflection with the opposite sign does not change the
      amplitude. */
  lemma NegateInvariant(angle: seq<int>)
    ensures AmplitudeMaxSpec(Negate(angle)) == AmplitudeMaxSpec(angle)
  {
    if angle != [] {
      NegateDeviations(angle);
    }
  }

  lemma NegateDeviations(angle: seq<int>)
    requires |angle| > 0
    ensures Deviations(Negate(angle)) == Deviations(angle)
  {
    SumNegate(angle);
    RoundNegate(Sum(angle), |angle|);
    var m := RoundedMean(angle);
    assert RoundedMean(Negate(angle)) == -m;
    var d, e := Deviations(angle), Deviations(Negate(angle));
    forall i | 0 <= i < |angle| ensures e[i] == d[i] {
      assert e[i] == Abs(-angle[i] - (-m));
    }
  }

  /** An odd offset can change the result when the mean is a tie: the batch
      0, 0, 2, 4 (mean 1.5, rounded to 2) gives 2 ... */
  lemma TieRoundedDown()
    ensures AmplitudeMaxSpec([0, 0, 2, 4]) == Ok(2)
  {
    var a := [0, 0, 2, 4];
    assert Sum(a) == 6 by {
      assert a[..3] == [0, 0, 2] && a[..3][..2] == [0, 0];
      assert [0, 0][..1] == [0] && [0][..0] == [];
    }
    assert RoundHalfEvenDiv(6, 4) == 2;
    assert Deviations(a) == [2, 2, 0, 2];
    SmallBatchTakesLargestDeviation(a);
  }

  /** ... and the same batch moved up by one, 1, 1, 3, 5 (mean 2.5, rounded
      to 2), gives 3. */
  lemma TieRoundedUp()
    ensures AmplitudeMaxSpec([1, 1, 3, 5]) == Ok(3)
  {
    var b := [1, 1, 3, 5];
    assert Sum(b) == 10 by {
      assert b[..3] == [1, 1, 3] && b[..3][..2] == [1, 1];
      assert [1, 1][..1] == [1] && [1][..0] == [];
    }
    assert RoundHalfEvenDiv(10, 4) == 2;
    assert Deviations(b) == [1, 1, 1, 3];
    SmallBatchTakesLargestDeviation(b);
  }

  // ---------------------------------------------------------------------------
  // The computation

  /** `np.bincount`: how often each level up to `top` occurs. */
  method Histogram(devs: seq<nat>, top: nat) returns (counts: array<nat>)
    requires forall i :: 0 <= i < |devs| ==> devs[i] <= top
    ensures fresh(counts) && counts.Length == top + 1
    ensures forall v :: 0 <= v <= top ==> counts[v] == multiset(devs)[v]
  {
    counts := new nat[top + 1](_ => 0);
    for k := 0 to |devs|
      invariant forall v :: 0 <= v <= top ==> counts[v] == multiset(devs[..k])[v]
    {
      assert devs[..k + 1] == devs[..k] + [devs[k]];
      counts[devs[k]] := counts[devs[k]] + 1;
    }
    assert devs[..|devs|] == devs;
  }

  /** `Amplitude_max`: histogram the deviations (`np.bincount`), then walk the
      levels that occur from the largest down and stop at the first that more
      than 2% of the batch share. */
  method ComputeAmplitudeMax(angle: seq<int>) returns (r: Result<nat, AmplitudeError>)
    ensures r == AmplitudeMaxSpec(angle)
  {
    if |angle| == 0 {
      return Err(NoQualifyingLevel);
    }
    var devs := Deviations(angle);
    var top := MaxOf(devs);
    var counts := Histogram(devs, top);
    var v := top;
    while v >= 0
      invariant -1 <= v <= top
      invariant Search(devs, top) == Search(devs, v)
      decreases v
    {
      if counts[v] > 0 && 50 * counts[v] > |angle| {
        return Ok(v);
      }
      v := v - 1;
    }
    return Err(NoQualifyingLevel);
  }
}
