/** The ionosphere-free combination of two carriers, its narrow-lane form, and the
    wide-lane integer. Exact algebra over the reals. */
module Combinations {

  import opened Text
  import Decimal
  import opened Reals

  datatype CombinationError = EqualFrequencies | InvalidFrequency

  /** Speed of light in metres per second. */
  const C_M_S: real := 299792458.0

  function Squared(f: real): real { Times(f, f) }

  lemma SquaresDiffer(f1: real, f2: real)
    requires f1 > 0.0 && f2 > 0.0 && f1 != f2
    ensures Squared(f1) - Squared(f2) == Times(f1 - f2, f1 + f2) && Squared(f1) - Squared(f2) != 0.0
    ensures Squared(f1) > 0.0 && Squared(f2) > 0.0
  {
    SquareFactors(f1, f2);
    hide Times;
    TimesSigns(f1 - f2, f1 + f2);
    TimesSigns(f1, f1);
    TimesSigns(f2, f2);
  }

  lemma SquareFactors(f1: real, f2: real)
    ensures Times(f1, f1) - Times(f2, f2) == Times(f1 - f2, f1 + f2)
  {
  }

  /** `gamma` */
  function Gamma(f1: real, f2: real): Result<real, CombinationError> {
    if f1 <= 0.0 || f2 <= 0.0 then Err(InvalidFrequency)
    else if f1 == f2 then Err(EqualFrequencies)
    else
      SquaresDiffer(f1, f2);
      Ok(Over(Squared(f1), Squared(f1) - Squared(f2)))
  }

  /** `ionosphere_free` */
  function IonosphereFree(obs1: real, obs2: real, f1: real, f2: real): Result<real, CombinationError> {
    match Gamma(f1, f2)
    case Err(e) => Err(e)
    case Ok(g) => Ok(Times(g, obs1) - Times(g - 1.0, obs2))
  }

  // ----- the two coefficients -----

  /** `gamma` and `gamma - 1` are the two squares over their difference. */
  lemma Coefficients(f1: real, f2: real) returns (g: real, d: real)
    requires f1 > 0.0 && f2 > 0.0 && f1 != f2
    ensures Gamma(f1, f2) == Ok(g) && d == Squared(f1) - Squared(f2) && d != 0.0
    ensures Times(g, d) == Squared(f1) && Times(g - 1.0, d) == Squared(f2)
  {
    SquaresDiffer(f1, f2);
    d := Squared(f1) - Squared(f2);
    g := Over(Squared(f1), d);
    hide Times, Over, Squared;
    OverTimes(Squared(f1), d);
    TimesSum(d, g, -1.0);
    TimesSigns(1.0, d);
  }

  lemma Cancel(d: real, a: real, b: real)
    requires d != 0.0 && Times(a, d) == Times(b, d)
    ensures a == b
  {
    hide Times, Over;
    OverOnly(Times(b, d), d, a);
    OverOnly(Times(b, d), d, b);
  }

  /** `g * (k / a)`, where `g * d == a`, is `k / d` whatever `a` is. */
  lemma ScaledDelay(g: real, k: real, a: real, d: real)
    requires a != 0.0 && d != 0.0 && Times(g, d) == a
    ensures Times(Times(g, Over(k, a)), d) == k
  {
    hide Times, Over;
    OverTimes(k, a);
    TimesSwap(g, Over(k, a));
    TimesAssoc(Over(k, a), g, d);
  }

  /** A delay proportional to 1/f^2 cancels and the common range stays. */
  lemma DelayCancels(range: real, k: real, f1: real, f2: real)
    requires f1 > 0.0 && f2 > 0.0 && f1 != f2
    ensures Squared(f1) > 0.0 && Squared(f2) > 0.0
    ensures IonosphereFree(range + Over(k, Squared(f1)), range + Over(k, Squared(f2)), f1, f2) == Ok(range)
  {
    SquaresDiffer(f1, f2);
    var g, d := Coefficients(f1, f2);
    hide Times, Over, Squared;
    var e1, e2 := Over(k, Squared(f1)), Over(k, Squared(f2));
    ScaledDelay(g, k, Squared(f1), d);
    ScaledDelay(g - 1.0, k, Squared(f2), d);
    Cancel(d, Times(g, e1), Times(g - 1.0, e2));
    TimesSum(g, range, e1);
    TimesSum(g - 1.0, range, e2);
    TimesSum(range, g, -1.0);
    TimesSigns(1.0, range);
  }

  /** Exchanging the bands changes nothing. */
  lemma Symmetric(obs1: real, obs2: real, f1: real, f2: real)
    ensures IonosphereFree(obs1, obs2, f1, f2) == IonosphereFree(obs2, obs1, f2, f1)
  {
    if f1 > 0.0 && f2 > 0.0 && f1 != f2 {
      var g, d := Coefficients(f1, f2);
      var h, e := Coefficients(f2, f1);
      hide Times, Over, Squared;
      TimesSigns(h, d);
      TimesSigns(g, d);
      TimesSigns(g - 1.0, d);
      assert Times(-(g - 1.0), d) == Times(h, d);
      Cancel(d, -(g - 1.0), h);
      TimesSigns(g - 1.0, obs2);
      TimesSigns(h, obs2);
      TimesSigns(h - 1.0, obs1);
      TimesSigns(g, obs1);
    }
  }

  // ----- narrow lane -----

  datatype NarrowLane = NarrowLane(wavelength: real, offset: real)

  /** `narrow_lane_params` */
  function NarrowLaneParams(f1: real, f2: real, wideLane: real): Result<NarrowLane, CombinationError> {
    match Gamma(f1, f2)
    case Err(e) => Err(e)
    case Ok(g) =>
      Ok(NarrowLane(Over(C_M_S, f1 + f2), Times(Times(g - 1.0, Over(C_M_S, f2)), wideLane)))
  }

  /** `g * (c / f)` over the difference of squares, where `g` is `f^2` over it. */
  lemma ScaledWavelength(g: real, f: real, d: real)
    requires f > 0.0 && Times(g, d) == Squared(f)
    ensures Times(Times(g, Over(C_M_S, f)), d) == Times(C_M_S, f)
  {
    hide Times, Over;
    var w := Over(C_M_S, f);
    OverTimes(C_M_S, f);
    TimesSwap(g, w);
    TimesAssoc(w, g, d);
    TimesAssoc(w, f, f);
  }

  /** The combined wavelength of both carriers is the narrow-lane one. */
  lemma NarrowWavelength(f1: real, f2: real) returns (g: real)
    requires f1 > 0.0 && f2 > 0.0 && f1 != f2
    ensures Gamma(f1, f2) == Ok(g)
    ensures Times(g, Over(C_M_S, f1)) - Times(g - 1.0, Over(C_M_S, f2)) == Over(C_M_S, f1 + f2)
  {
    var d: real;
    g, d := Coefficients(f1, f2);
    SquaresDiffer(f1, f2);
    ScaledWavelength(g, f1, d);
    ScaledWavelength(g - 1.0, f2, d);
    hide Times, Over, Squared;
    var w1, w2, n := Times(g, Over(C_M_S, f1)), Times(g - 1.0, Over(C_M_S, f2)), Over(C_M_S, f1 + f2);
    TimesSum(d, w1, -w2);
    TimesSigns(w2, d);
    TimesSum(C_M_S, f1, -f2);
    TimesSigns(C_M_S, f2);
    OverTimes(C_M_S, f1 + f2);
    TimesSwap(f1 - f2, f1 + f2);
    TimesAssoc(n, f1 + f2, f1 - f2);
    Cancel(d, w1 - w2, n);
  }

  /** Combining `n1` cycles of the first carrier with `n2` of the second is the
      narrow-lane wavelength times `n1` plus the offset for `n1 - n2`. */
  lemma NarrowLaneLaw(f1: real, f2: real, n1: real, n2: real)
    requires f1 > 0.0 && f2 > 0.0 && f1 != f2
    ensures NarrowLaneParams(f1, f2, n1 - n2).Ok?
    ensures var p := NarrowLaneParams(f1, f2, n1 - n2).value;
      IonosphereFree(Times(Over(C_M_S, f1), n1), Times(Over(C_M_S, f2), n2), f1, f2) == Ok(Times(p.wavelength, n1) + p.offset)
  {
    var g := NarrowWavelength(f1, f2);
    hide Times, Over, Gamma;
    var l1, l2 := Over(C_M_S, f1), Over(C_M_S, f2);
    var w1, w2 := Times(g, l1), Times(g - 1.0, l2);
    TimesAssoc(g, l1, n1);
    TimesAssoc(g - 1.0, l2, n2);
    TimesSum(w2, n1, -n2);
    TimesSigns(w2, n2);
    TimesSum(n1, w1, -w2);
    TimesSigns(w2, n1);
  }

  // ----- wide lane -----

  datatype WideLaneError = TooFewEpochs(count: nat, minimum: nat) | NotInteger

  function Sum(s: seq<real>): real { if s == [] then 0.0 else Sum(s[..|s| - 1]) + s[|s| - 1] }

  /** Nearest integer, halves away from zero, clamped to 64 bits. */
  function RoundI64(x: real): int {
    var n := if x >= 0.0 then (x + 0.5).Floor else -((0.5 - x).Floor);
    if n > Decimal.I64_MAX then Decimal.I64_MAX else if n < -Decimal.I64_MAX - 1 then -Decimal.I64_MAX - 1 else n
  }

  /** The sum of one value is the value, and sums of parts add up. */
  lemma {:induction false} SumParts(a: seq<real>, b: seq<real>, x: real)
    ensures Sum([x]) == x && Sum([]) == 0.0 && Sum(a + b) == Sum(a) + Sum(b)
  {
    assert [x][..0] == [];
    if b == [] {
      assert a + b == a;
    } else {
      var n := |b| - 1;
      assert (a + b)[..|a| + n] == a + b[..n];
      SumParts(a, b[..n], x);
    }
  }

  /** The mean of the cycles is within `tolerance` of the 64-bit integer `n`. */
  predicate MeanNear(cycles: seq<real>, n: int, tolerance: real) {
    cycles != [] && -Decimal.I64_MAX - 1 <= n <= Decimal.I64_MAX && Abs(Over(Sum(cycles), |cycles| as real) - n as real) <= tolerance
  }

  /** With a tolerance below one half the answer is the one integer within it: that
      integer is returned exactly when it exists and there are enough epochs. */
  method EstimateWideLane(cycles: seq<real>, minEpochs: nat, tolerance: real) returns (r: Result<int, WideLaneError>)
    ensures |cycles| < minEpochs ==> r == Err(TooFewEpochs(|cycles|, minEpochs))
    ensures r.Ok? ==> |cycles| >= minEpochs && MeanNear(cycles, r.value, tolerance)
    ensures tolerance < 0.5 && |cycles| >= minEpochs ==>
      forall n :: MeanNear(cycles, n, tolerance) ==> r == Ok(n)
  {
    if |cycles| < minEpochs { return Err(TooFewEpochs(|cycles|, minEpochs)); }
    var sum, i := 0.0, 0;
    while i < |cycles|
      invariant i <= |cycles| && sum == Sum(cycles[..i])
    {
      assert cycles[..i + 1][..i] == cycles[..i];
      sum := sum + cycles[i];
      i := i + 1;
    }
    assert cycles[..i] == cycles;
    if cycles == [] { return Err(NotInteger); }
    hide Over, Sum;
    var mean := Over(sum, |cycles| as real);
    var fixed := RoundI64(mean);
    forall n | MeanNear(cycles, n, tolerance) && tolerance < 0.5 ensures n == fixed {
      NearestOnly(mean, n);
    }
    if Abs(mean - fixed as real) <= tolerance { return Ok(fixed); }
    return Err(NotInteger);
  }

  lemma NearestOnly(x: real, n: int)
    requires Abs(x - n as real) < 0.5 && -Decimal.I64_MAX - 1 <= n <= Decimal.I64_MAX
    ensures RoundI64(x) == n
  {
  }
}
