/** The tracked operations, and what each keeps: the assignment of symbols that
    explained the operands extends to one that explains the result. */
module DriftOps {

  import opened Reals
  import opened DriftArith
  import opened Drift

  /** A new value and the next free symbol. */
  datatype Made = Made(t: Tracked, next: nat)

  /** The assignment now also explains the made value. */
  ghost predicate Keeps(eps': nat -> real, eps: nat -> real, n: nat, m: Made, other: real) {
    n <= m.next && Extends(eps', eps, n) && Sound(eps', m.next, m.t, other)
  }

  // ----- rounded operations -----

  /** `_finish` */
  function Finish(f: Format, z: real, lin: map<nat, real>, rem: real, diverged: bool, hint: real, n: nat): Made {
    if diverged then Made(Tracked(z, lin[n := f.ulp(Abs(z) + hint)], rem), n + 1)
    else Made(Tracked(z, lin, rem), n)
  }

  /** Two roundings of exact results at most `hint` apart move the gap by at most
      one unit of the largest magnitude the other build's result can have. */
  lemma RoundingGap(f: Format, exact: real, exact': real, hint: real)
    requires FormatOk(f) && Abs(exact' - exact) <= hint
    ensures Abs((f.rnd(exact') - exact') - (f.rnd(exact) - exact)) <= f.ulp(Abs(f.rnd(exact)) + hint)
  {
    var z := Abs(f.rnd(exact));
    RoundedUnit(f, exact);
    assert UnitGrows(f, z, z + hint);
    RoundedWithin(f, exact', z + hint);
  }

  lemma FinishSound(f: Format, eps: nat -> real, n: nat, exact: real, exact': real,
                    lin: map<nat, real>, rem: real, diverged: bool, hint: real) returns (eps': nat -> real)
    requires FormatOk(f) && Unit(eps) && Below(lin, n) && rem >= 0.0
    requires Abs(exact' - exact - SumAt(lin, eps, n)) <= rem && Abs(exact' - exact) <= hint
    requires !diverged ==> exact' == exact && lin.Keys == {}
    ensures Keeps(eps', eps, n, Finish(f, f.rnd(exact), lin, rem, diverged, hint, n), f.rnd(exact'))
  {
    if diverged {
      hide FormatOk, Times;
      var z := f.rnd(exact);
      var c := f.ulp(Abs(z) + hint);
      RoundingGap(f, exact, exact', hint);
      var value := Share(c, (f.rnd(exact') - exact') - (z - exact));
      eps' := Given(eps, n, value);
      SumWithNext(lin, eps, n, c, value);
    } else {
      eps' := eps;
      EmptySums(lin, eps, n);
    }
  }

  /** `_add`, for a sign of 1 or -1. */
  function Sum(x: real, y: real, plus: bool): real { if plus then x + y else x - y }

  function Add(f: Format, x: Tracked, y: Tracked, plus: bool, n: nat): Made {
    Finish(f, f.rnd(Sum(x.v, y.v, plus)), Merge(x.lin, 1.0, y.lin, if plus then 1.0 else -1.0), x.rem + y.rem,
      Diverged(x) || Diverged(y), Radius(x, n) + Radius(y, n), n)
  }

  lemma SumGap(x: real, y: real, x': real, y': real, sx: real, sy: real, rx: real, ry: real, plus: bool)
    requires Abs(x' - x - sx) <= rx && Abs(y' - y - sy) <= ry
    ensures Abs(Sum(x', y', plus) - Sum(x, y, plus) - Weighted(1.0, sx, if plus then 1.0 else -1.0, sy)) <= rx + ry
  {
    hide Times;
    TimesSigns(1.0, sx);
    TimesSigns(1.0, sy);
  }

  lemma AddSound(f: Format, eps: nat -> real, n: nat, x: Tracked, y: Tracked, plus: bool, x': real, y': real)
    returns (eps': nat -> real)
    requires FormatOk(f) && Sound(eps, n, x, x') && Sound(eps, n, y, y')
    ensures Keeps(eps', eps, n, Add(f, x, y, plus, n), f.rnd(Sum(x', y', plus)))
  {
    hide FormatOk, Times, Merge, Keeps, Finish, Sum, Weighted, Abs, SumAt, SumAbs;
    var k := if plus then 1.0 else -1.0;
    GapWithinRadius(eps, n, x, x');
    GapWithinRadius(eps, n, y, y');
    BothSame(eps, n, x, y, x', y');
    MergeBelow(x.lin, 1.0, y.lin, k, n);
    MergeSum(x.lin, 1.0, y.lin, k, eps, n);
    SumGap(x.v, y.v, x', y', SumAt(x.lin, eps, n), SumAt(y.lin, eps, n), x.rem, y.rem, plus);
    SumGap(x.v, y.v, x', y', 0.0, 0.0, Radius(x, n), Radius(y, n), plus);
    WeightedSum(1.0, 0.0, 0.0, k, 0.0, 0.0);
    eps' := FinishSound(f, eps, n, Sum(x.v, y.v, plus), Sum(x', y', plus), Merge(x.lin, 1.0, y.lin, k), x.rem + y.rem,
      Diverged(x) || Diverged(y), Radius(x, n) + Radius(y, n));
  }

  /** Operands that cannot have diverged are the same in both builds. */
  lemma BothSame(eps: nat -> real, n: nat, x: Tracked, y: Tracked, x': real, y': real)
    requires Sound(eps, n, x, x') && Sound(eps, n, y, y')
    ensures !Diverged(x) && !Diverged(y) ==> x' == x.v && y' == y.v && x.lin.Keys == {} && y.lin.Keys == {}
  {
    if !Diverged(x) && !Diverged(y) {
      SameWhenNotDiverged(eps, n, x, x');
      SameWhenNotDiverged(eps, n, y, y');
    }
  }

  function Mul(f: Format, x: Tracked, y: Tracked, n: nat): Made {
    var p, q := Radius(x, n), Radius(y, n);
    Finish(f, f.rnd(Times(x.v, y.v)), Merge(x.lin, y.v, y.lin, x.v), MulRest(x.v, y.v, x.rem, y.rem, p, q),
      Diverged(x) || Diverged(y), MulRest(x.v, y.v, p, q, p, q), n)
  }

  lemma MulRestNotNegative(x: real, y: real, rx: real, ry: real, p: real, q: real)
    requires rx >= 0.0 && ry >= 0.0 && p >= 0.0 && q >= 0.0
    ensures MulRest(x, y, rx, ry, p, q) >= 0.0
  {
    hide Times;
    TimesSigns(Abs(y), rx);
    TimesSigns(Abs(x), ry);
    TimesSigns(p, q);
  }

  lemma MulSound(f: Format, eps: nat -> real, n: nat, x: Tracked, y: Tracked, x': real, y': real)
    returns (eps': nat -> real)
    requires FormatOk(f) && Sound(eps, n, x, x') && Sound(eps, n, y, y')
    ensures Keeps(eps', eps, n, Mul(f, x, y, n), f.rnd(Times(x', y')))
  {
    hide FormatOk, Times, Merge, Keeps, Finish, MulRest, Weighted;
    var p, q, sx, sy := Radius(x, n), Radius(y, n), SumAt(x.lin, eps, n), SumAt(y.lin, eps, n);
    GapWithinRadius(eps, n, x, x');
    GapWithinRadius(eps, n, y, y');
    BothSame(eps, n, x, y, x', y');
    MergeBelow(x.lin, y.v, y.lin, x.v, n);
    MergeSum(x.lin, y.v, y.lin, x.v, eps, n);
    MulRemainder(x.v, y.v, x' - x.v, y' - y.v, sx, sy, x.rem, y.rem, p, q);
    MulRemainder(x.v, y.v, x' - x.v, y' - y.v, 0.0, 0.0, p, q, p, q);
    WeightedSum(y.v, 0.0, 0.0, x.v, 0.0, 0.0);
    MulRestNotNegative(x.v, y.v, x.rem, y.rem, p, q);
    eps' := FinishSound(f, eps, n, Times(x.v, y.v), Times(x', y'), Merge(x.lin, y.v, y.lin, x.v),
      MulRest(x.v, y.v, x.rem, y.rem, p, q), Diverged(x) || Diverged(y), MulRest(x.v, y.v, p, q, p, q));
  }

  /** The divisor is nonzero and its gap is under half of it. */
  predicate Divides(y: Tracked, n: nat) { y.v != 0.0 && Radius(y, n) < Abs(y.v) / 2.0 }

  function Div(f: Format, x: Tracked, y: Tracked, n: nat): Made
    requires Divides(y, n)
  {
    var p, q := Radius(x, n), Radius(y, n);
    SquareOf(y.v);
    Finish(f, f.rnd(Over(x.v, y.v)), Merge(x.lin, Over(1.0, y.v), y.lin, Over(-x.v, Times(y.v, y.v))),
      DivRest(x.v, y.v, x.rem, y.rem, p, q), Diverged(x) || Diverged(y), DivRest(x.v, y.v, p, q, p, q), n)
  }

  lemma DivSound(f: Format, eps: nat -> real, n: nat, x: Tracked, y: Tracked, x': real, y': real)
    returns (eps': nat -> real)
    requires FormatOk(f) && Sound(eps, n, x, x') && Sound(eps, n, y, y') && Divides(y, n)
    ensures y' != 0.0
    ensures Keeps(eps', eps, n, Div(f, x, y, n), f.rnd(Over(x', y')))
  {
    hide FormatOk, Times, Over, Merge, Keeps, Finish, DivRest, Weighted;
    SquareOf(y.v);
    var p, q, sx, sy := Radius(x, n), Radius(y, n), SumAt(x.lin, eps, n), SumAt(y.lin, eps, n);
    var kx, ky := Over(1.0, y.v), Over(-x.v, Times(y.v, y.v));
    GapWithinRadius(eps, n, x, x');
    GapWithinRadius(eps, n, y, y');
    BothSame(eps, n, x, y, x', y');
    MergeBelow(x.lin, kx, y.lin, ky, n);
    MergeSum(x.lin, kx, y.lin, ky, eps, n);
    DivRemainder(x.v, y.v, x' - x.v, y' - y.v, sx, sy, x.rem, y.rem, p, q);
    DivRemainder(x.v, y.v, x' - x.v, y' - y.v, 0.0, 0.0, p, q, p, q);
    WeightedSum(kx, 0.0, 0.0, ky, 0.0, 0.0);
    DivRestNotNegative(x.v, y.v, x.rem, y.rem, p, q);
    eps' := FinishSound(f, eps, n, Over(x.v, y.v), Over(x', y'), Merge(x.lin, kx, y.lin, ky),
      DivRest(x.v, y.v, x.rem, y.rem, p, q), Diverged(x) || Diverged(y), DivRest(x.v, y.v, p, q, p, q));
  }

  lemma DivRestNotNegative(x: real, y: real, rx: real, ry: real, p: real, q: real)
    requires y != 0.0 && rx >= 0.0 && ry >= 0.0 && p >= 0.0 && 0.0 <= q < Abs(y)
    ensures DivRest(x, y, rx, ry, p, q) >= 0.0
  {
    hide Times, Over, Weighted;
    DivRemainder(x, y, 0.0, 0.0, 0.0, 0.0, rx, ry, p, q);
  }

  // ----- exact operations -----

  /** A form scaled as a whole. */
  function Scaled(lin: map<nat, real>, k: real): map<nat, real> { Merge(lin, k, map[], 0.0) }

  lemma ScaledSum(lin: map<nat, real>, k: real, eps: nat -> real, n: nat)
    requires Below(lin, n)
    ensures SumAt(Scaled(lin, k), eps, n) == Times(k, SumAt(lin, eps, n)) && Below(Scaled(lin, k), n)
  {
    hide Merge, Times;
    MergeSum(lin, k, map[], 0.0, eps, n);
    MergeBelow(lin, k, map[], 0.0, n);
    TimesSigns(0.0, SumAt(map[], eps, n));
  }

  function NegOf(v: real): real { -v }

  function Neg(x: Tracked): Tracked { Tracked(NegOf(x.v), Scaled(x.lin, -1.0), x.rem) }

  lemma NegSound(eps: nat -> real, n: nat, x: Tracked, x': real)
    requires Sound(eps, n, x, x')
    ensures Sound(eps, n, Neg(x), NegOf(x'))
  {
    hide Scaled, Times;
    ScaledSum(x.lin, -1.0, eps, n);
    TimesSigns(1.0, SumAt(x.lin, eps, n));
  }

  /** `t_fabs` */
  function Fabs(x: Tracked, n: nat): Tracked {
    var b := Radius(x, n);
    if Abs(x.v) > b then Tracked(Abs(x.v), Scaled(x.lin, if x.v > 0.0 then 1.0 else -1.0), x.rem)
    else Tracked(Abs(x.v), map[], b)
  }

  lemma FabsSound(eps: nat -> real, n: nat, x: Tracked, x': real)
    requires Sound(eps, n, x, x')
    ensures Sound(eps, n, Fabs(x, n), Abs(x'))
  {
    hide Scaled, Times;
    GapWithinRadius(eps, n, x, x');
    ScaledSum(x.lin, if x.v > 0.0 then 1.0 else -1.0, eps, n);
    TimesSigns(1.0, SumAt(x.lin, eps, n));
    EmptySums(map[], eps, n);
  }

  function FmodOf(v: real, m: real): real
    requires m != 0.0
  {
    v - Times(m, Trunc(Over(v, m)) as real)
  }

  lemma TruncMono(a: real, b: real)
    requires a <= b
    ensures Trunc(a) <= Trunc(b)
  {
  }

  lemma OverMono(a: real, b: real, m: real)
    requires m != 0.0 && a <= b
    ensures m > 0.0 ==> Over(a, m) <= Over(b, m)
    ensures m < 0.0 ==> Over(b, m) <= Over(a, m)
  {
    hide Times, Over;
    OverTimes(a, m);
    OverTimes(b, m);
    TimesSigns(Over(a, m), m);
    TimesSigns(Over(b, m), m);
    if m > 0.0 && Over(b, m) < Over(a, m) {
      TimesLess(Over(b, m), Over(a, m), m);
    } else if m < 0.0 && Over(a, m) < Over(b, m) {
      TimesLess(Over(a, m), Over(b, m), -m);
    }
  }

  /** Whether the uncertainty of `fmod`'s argument reaches another quotient. */
  predicate FmodWraps(x: Tracked, m: real, n: nat)
    requires m != 0.0
  {
    Diverged(x) && Trunc(Over(x.v - Radius(x, n), m)) != Trunc(Over(x.v + Radius(x, n), m))
  }

  /** `t_fmod` */
  function Fmod(x: Tracked, m: real): Tracked
    requires m != 0.0
  {
    Tracked(FmodOf(x.v, m), x.lin, x.rem)
  }

  lemma FmodSound(eps: nat -> real, n: nat, x: Tracked, m: real, x': real)
    requires m != 0.0 && Sound(eps, n, x, x') && !FmodWraps(x, m, n)
    ensures Sound(eps, n, Fmod(x, m), FmodOf(x', m))
  {
    hide Times, Over;
    if Diverged(x) {
      var b := Radius(x, n);
      GapWithinRadius(eps, n, x, x');
      hide Trunc;
      SameQuotient(x.v - b, x.v, x.v + b, m);
      SameQuotient(x.v - b, x', x.v + b, m);
    } else {
      SameWhenNotDiverged(eps, n, x, x');
    }
  }

  lemma SameQuotient(low: real, w: real, high: real, m: real)
    requires m != 0.0 && low <= w <= high && Trunc(Over(low, m)) == Trunc(Over(high, m))
    ensures Trunc(Over(w, m)) == Trunc(Over(low, m))
  {
    hide Over, Trunc;
    OverMono(low, w, m);
    OverMono(w, high, m);
    if m > 0.0 {
      TruncMono(Over(low, m), Over(w, m));
      TruncMono(Over(w, m), Over(high, m));
    } else {
      TruncMono(Over(w, m), Over(low, m));
      TruncMono(Over(high, m), Over(w, m));
    }
  }

  // ----- comparisons -----

  datatype Relation = Lt | Le | Gt | Ge | Eq | Ne

  predicate Holds(op: Relation, a: real, b: real) {
    match op
    case Lt => a < b
    case Le => a <= b
    case Gt => a > b
    case Ge => a >= b
    case Eq => a == b
    case Ne => a != b
  }

  /** Whether the two builds could decide a comparison differently. */
  predicate Ambiguous(x: Tracked, y: Tracked, n: nat) {
    (Diverged(x) || Diverged(y)) && Abs(x.v - y.v) <= Radius(x, n) + Radius(y, n)
  }

  lemma ComparisonSound(eps: nat -> real, n: nat, x: Tracked, y: Tracked, op: Relation, x': real, y': real)
    requires Sound(eps, n, x, x') && Sound(eps, n, y, y') && !Ambiguous(x, y, n)
    ensures Holds(op, x', y') == Holds(op, x.v, y.v)
  {
    GapWithinRadius(eps, n, x, x');
    GapWithinRadius(eps, n, y, y');
    BothSame(eps, n, x, y, x', y');
  }

  // ----- condensing -----

  function Early(lin: map<nat, real>, mark: nat): map<nat, real> { map s | s in lin && s < mark :: lin[s] }

  function Late(lin: map<nat, real>, mark: nat): map<nat, real> { map s | s in lin && s >= mark :: lin[s] }

  /** `condense` */
  function Condense(x: Tracked, mark: nat, n: nat): Made {
    var radius := SumAbs(Late(x.lin, mark), n);
    if radius > 0.0 then Made(Tracked(x.v, Early(x.lin, mark)[n := radius], x.rem), n + 1)
    else Made(Tracked(x.v, Early(x.lin, mark), x.rem), n)
  }

  lemma SplitTerm(lin: map<nat, real>, mark: nat, eps: nat -> real, s: nat)
    ensures Term(lin, eps, s) == Term(Early(lin, mark), eps, s) + Term(Late(lin, mark), eps, s)
    ensures Abs(Coef(lin, s)) == Abs(Coef(Early(lin, mark), s)) + Abs(Coef(Late(lin, mark), s))
  {
    hide Times;
    TimesSigns(0.0, eps(s));
  }

  lemma {:induction false} SplitSum(lin: map<nat, real>, mark: nat, eps: nat -> real, n: nat)
    ensures SumAt(lin, eps, n) == SumAt(Early(lin, mark), eps, n) + SumAt(Late(lin, mark), eps, n)
    ensures SumAbs(lin, n) == SumAbs(Early(lin, mark), n) + SumAbs(Late(lin, mark), n)
  {
    hide Term, Early, Late;
    if n > 0 {
      SplitSum(lin, mark, eps, n - 1);
      SplitTerm(lin, mark, eps, n - 1);
    }
  }

  /** Condensing keeps the explanation and the radius. */
  lemma CondenseSound(eps: nat -> real, n: nat, x: Tracked, mark: nat, x': real) returns (eps': nat -> real)
    requires Sound(eps, n, x, x')
    ensures Keeps(eps', eps, n, Condense(x, mark, n), x')
    ensures Radius(Condense(x, mark, n).t, Condense(x, mark, n).next) == Radius(x, n)
  {
    hide Times;
    var early, late := Early(x.lin, mark), Late(x.lin, mark);
    var radius := SumAbs(late, n);
    assert Below(early, n);
    hide Early, Late;
    SplitSum(x.lin, mark, eps, n);
    SumAtBound(late, eps, n);
    if radius > 0.0 {
      var value := Share(radius, SumAt(late, eps, n));
      eps' := Given(eps, n, value);
      SumWithNext(early, eps, n, radius, value);
    } else {
      eps' := eps;
    }
  }

  // ----- library functions -----

  /** One library function: its value in the two builds and its true value, the
      derivative and the second-order bound its tracked form uses, and where that form
      applies. */
  datatype Libm = Libm(here: real -> real, there: real -> real, truth: real -> real, slope: real -> real,
                       second: (real, real) -> real, applies: (real, real) -> bool)

  /** The largest magnitude either build's result is taken to have. */
  function Reach(f: Format, z: real): real { Abs(z) + 2.0 * f.ulp(Abs(z)) }

  /** `_libm_symbol`: two units of that magnitude. */
  function PairUnits(f: Format, z: real): real { 2.0 * f.ulp(Reach(f, z)) }

  /** The documented accuracy: within one unit of the true value. */
  ghost predicate Accurate(f: Format, lib: real -> real, truth: real -> real) {
    forall v :: AccurateAt(f, lib, truth, v)
  }

  ghost predicate AccurateAt(f: Format, lib: real -> real, truth: real -> real, v: real) {
    Abs(lib(v) - truth(v)) <= f.ulp(Abs(truth(v)))
  }

  /** The bound on what the true function leaves past first order. */
  ghost predicate Taylor(g: Libm) {
    forall v, w, b :: Abs(w - v) <= b && g.applies(v, b) ==> TaylorAt(g, v, w, b)
  }

  ghost predicate TaylorAt(g: Libm, v: real, w: real, b: real) {
    g.second(v, b) >= 0.0 && Abs(g.truth(w) - g.truth(v) - Times(g.slope(v), w - v)) <= g.second(v, b)
  }

  ghost predicate LibmOk(f: Format, g: Libm) {
    Accurate(f, g.here, g.truth) && Accurate(f, g.there, g.truth) && Taylor(g)
  }

  /** The values of one call can be these: the true values at the two arguments, `d`
      apart, and the other build's result, for a result `z` here, a slope, a
      second-order bound and a radius. */
  ghost predicate Possible(f: Format, z: real, slope: real, second: real, b: real, t: real, u: real, y: real, d: real) {
    && Abs(z - t) <= f.ulp(Abs(t)) && Abs(d) <= b
    && Abs(u - t - Times(slope, d)) <= second && Abs(y - u) <= f.ulp(Abs(u))
  }

  /** Whatever they are, the charged units and the second-order bound cover the gap. */
  ghost predicate AlwaysCovered(f: Format, z: real, slope: real, second: real, b: real) {
    forall t, u, y, d :: Possible(f, z, slope, second, b, t, u, y, d) ==> CoveredAt(f, z, slope, second, y, d)
  }

  ghost predicate CoveredAt(f: Format, z: real, slope: real, second: real, y: real, d: real) {
    Abs(y - z - Times(slope, d)) <= PairUnits(f, z) + second
  }

  /** For every error `a` the result here can have, that error and one unit where the
      other result can then lie are within the charged units. */
  ghost predicate UnitsCover(f: Format, z: real, slope: real, second: real, b: real) {
    forall a :: 0.0 <= a <= f.ulp(Abs(z) + a) ==> ErrorCovered(f, z, slope, second, b, a)
  }

  ghost predicate ErrorCovered(f: Format, z: real, slope: real, second: real, b: real, a: real) {
    a + f.ulp(Abs(z) + a + Times(Abs(slope), b) + second) <= PairUnits(f, z)
  }

  ghost predicate UnitsCoverCall(f: Format, g: Libm, v: real, b: real) {
    UnitsCover(f, g.here(v), g.slope(v), g.second(v, b), b)
  }

  lemma UnitOf(f: Format, a: real, b: real)
    requires FormatOk(f) && 0.0 <= a <= b
    ensures 0.0 <= f.ulp(a) <= f.ulp(b)
  {
    assert UnitGrows(f, a, b);
  }

  lemma {:induction false} CoverSuffices(f: Format, z: real, slope: real, second: real, b: real,
                                         t: real, u: real, y: real, d: real)
    requires FormatOk(f) && second >= 0.0 && UnitsCover(f, z, slope, second, b)
    requires Possible(f, z, slope, second, b, t, u, y, d)
    ensures CoveredAt(f, z, slope, second, y, d)
  {
    hide Times, FormatOk, PairUnits;
    var a := Abs(t - z);
    TimesBound(slope, d, Abs(slope), b);
    UnitOf(f, Abs(t), Abs(z) + a);
    assert a <= f.ulp(Abs(z) + a);
    assert ErrorCovered(f, z, slope, second, b, a);
    hide UnitsCover;
    UnitOf(f, Abs(u), Abs(z) + a + Times(Abs(slope), b) + second);
  }

  /** An offset of the radius that moves the result in a given direction. */
  lemma Aligned(slope: real, b: real, up: bool) returns (d: real)
    requires b >= 0.0
    ensures Abs(d) <= b && Times(slope, d) == if up then Times(Abs(slope), b) else -Times(Abs(slope), b)
  {
    hide Times;
    d := if (slope >= 0.0) == up then b else -b;
    TimesSigns(slope, b);
  }

  lemma {:induction false} CoverNeeded(f: Format, z: real, slope: real, second: real, b: real, a: real)
    requires FormatOk(f) && second >= 0.0 && b >= 0.0 && AlwaysCovered(f, z, slope, second, b)
    requires 0.0 <= a <= f.ulp(Abs(z) + a)
    ensures ErrorCovered(f, z, slope, second, b, a)
  {
    hide Times, FormatOk, PairUnits;
    TimesSigns(Abs(slope), b);
    var up := z >= 0.0;
    var d := Aligned(slope, b, up);
    var far := Abs(z) + a + Times(Abs(slope), b) + second;
    var t := if up then z + a else z - a;
    var u := if up then far else -far;
    UnitOf(f, far, far);
    var y := if up then u + f.ulp(far) else u - f.ulp(far);
    assert Possible(f, z, slope, second, b, t, u, y, d);
    assert CoveredAt(f, z, slope, second, y, d);
  }

  /** Every pair of accurate libraries and every true function within the bound is
      covered exactly when the charged units cover each possible error. */
  lemma CoveredExactly(f: Format, z: real, slope: real, second: real, b: real)
    requires FormatOk(f) && second >= 0.0 && b >= 0.0
    ensures AlwaysCovered(f, z, slope, second, b) <==> UnitsCover(f, z, slope, second, b)
  {
    hide FormatOk, Possible, CoveredAt, ErrorCovered;
    if UnitsCover(f, z, slope, second, b) {
      forall t, u, y, d | Possible(f, z, slope, second, b, t, u, y, d) ensures CoveredAt(f, z, slope, second, y, d) {
        CoverSuffices(f, z, slope, second, b, t, u, y, d);
      }
    }
    if AlwaysCovered(f, z, slope, second, b) {
      forall a | 0.0 <= a <= f.ulp(Abs(z) + a) ensures ErrorCovered(f, z, slope, second, b, a) {
        CoverNeeded(f, z, slope, second, b, a);
      }
    }
  }

  /** The argument's own uncertainty cannot carry the result to where the unit is
      larger than the one charged. */
  predicate InReach(f: Format, z: real, slope: real, second: real, b: real) {
    f.ulp(Reach(f, z) + Times(Abs(slope), b) + second) <= f.ulp(Reach(f, z))
  }

  /** Which is enough. */
  lemma InReachCovers(f: Format, z: real, slope: real, second: real, b: real)
    requires FormatOk(f) && second >= 0.0 && b >= 0.0 && InReach(f, z, slope, second, b)
    ensures UnitsCover(f, z, slope, second, b)
  {
    hide Times;
    TimesSigns(Abs(slope), b);
    forall a | 0.0 <= a <= f.ulp(Abs(z) + a) ensures ErrorCovered(f, z, slope, second, b, a) {
      ErrorInReach(f, z, a);
      hide FormatOk, Reach;
      var rest := Times(Abs(slope), b) + second;
      UnitOf(f, Abs(z) + a + rest, Reach(f, z) + rest);
    }
  }

  lemma ErrorInReach(f: Format, z: real, a: real)
    requires FormatOk(f) && 0.0 <= a <= f.ulp(Abs(z) + a)
    ensures Abs(z) + a <= Reach(f, z) && a <= f.ulp(Reach(f, z))
  {
    assert UnitDoubles(f, Abs(z), Abs(z) + a);
    hide FormatOk;
    UnitOf(f, Abs(z) + a, Reach(f, z));
  }

  /** Without uncertainty in the argument it always is. */
  lemma SameArgumentCovered(f: Format, z: real, slope: real)
    requires FormatOk(f)
    ensures UnitsCover(f, z, slope, 0.0, 0.0)
  {
    hide FormatOk, UnitsCover;
    TimesSigns(Abs(slope), 0.0);
    InReachCovers(f, z, slope, 0.0, 0.0);
  }

  /** Both libraries' accuracy and the true function's smoothness bound the gap. */
  lemma LibmPair(f: Format, g: Libm, v: real, w: real, b: real)
    requires FormatOk(f) && LibmOk(f, g) && Abs(w - v) <= b && g.applies(v, b) && UnitsCoverCall(f, g, v, b)
    ensures g.second(v, b) >= 0.0
    ensures Abs(g.there(w) - g.here(v) - Times(g.slope(v), w - v)) <= PairUnits(f, g.here(v)) + g.second(v, b)
  {
    hide Times, FormatOk, PairUnits, UnitsCover;
    assert TaylorAt(g, v, w, b);
    assert AccurateAt(f, g.here, g.truth, v) && AccurateAt(f, g.there, g.truth, w);
    hide LibmOk;
    CoverSuffices(f, g.here(v), g.slope(v), g.second(v, b), b, g.truth(v), g.truth(w), g.there(w), w - v);
  }

  // A format that rounds to whole numbers below eight and to even ones from there.

  function UnitAtEight(x: real): real { if x < 8.0 then 1.0 else 2.0 }

  function RoundAtEight(x: real): real { if Abs(x) < 8.0 then NearestWhole(x) else 2.0 * NearestWhole(x / 2.0) }

  predicate ExactAtEight(y: real) { IsWhole(y) && (Abs(y) <= 8.0 || IsWhole(y / 2.0)) }

  const AT_EIGHT := Format(RoundAtEight, UnitAtEight, ExactAtEight)

  lemma AtEightNearest(x: real, y: real)
    ensures Nearest(AT_EIGHT, x, y)
  {
    if ExactAtEight(y) {
      hide NearestWhole, IsWhole;
      if Abs(x) < 8.0 {
        NearestWholeIs(x, y);
        NegatedHalf(y);
      } else {
        NegatedHalf(y);
        if IsWhole(y / 2.0) {
          NearestWholeIs(x / 2.0, y / 2.0);
        } else {
          FourIsWhole();
          NearestWholeIs(x / 2.0, if x < 0.0 then -4.0 else 4.0);
        }
      }
    }
  }

  lemma NegatedHalf(y: real)
    requires ExactAtEight(y)
    ensures ExactAtEight(-y)
  {
    hide IsWhole;
    NegatedIsWhole(y);
    if IsWhole(y / 2.0) {
      NegatedIsWhole(y / 2.0);
      assert -(y / 2.0) == (-y) / 2.0;
    }
  }

  lemma NegatedIsWhole(y: real)
    requires IsWhole(y)
    ensures IsWhole(-y)
  {
    NegatedWhole(y.Floor);
  }

  lemma FourIsWhole()
    ensures IsWhole(4.0) && IsWhole(-4.0)
  {
    assert Whole(4) == 4.0 && Whole(-4) == -4.0;
  }

  lemma AtEightOk()
    ensures FormatOk(AT_EIGHT)
  {
    forall x ensures HalfUnit(AT_EIGHT, x) {
      hide NearestWhole;
      NearestWholeNear(x);
      NearestWholeNear(x / 2.0);
    }
    forall x, y ensures Nearest(AT_EIGHT, x, y) {
      AtEightNearest(x, y);
    }
    forall a, b ensures UnitGrows(AT_EIGHT, a, b) {
      if 0.0 <= a < 8.0 <= b {
        assert IsWhole(8.0) by { assert Whole(8) == 8.0; }
        assert ExactAtEight(8.0);
        assert EdgeBetween(AT_EIGHT, a, b);
      }
    }
    forall a, b ensures UnitDoubles(AT_EIGHT, a, b) {
    }
  }

  /** `pow` with the exponent 1 as `t_pow` tracks it: slope 1, no second-order term,
      and only for an uncertainty under half the base. One build's library is one unit
      low and the other's one unit high. */
  const POW_ONE := Libm((v: real) => v - UnitAtEight(Abs(v)), (v: real) => v + UnitAtEight(Abs(v)), (v: real) => v,
    (v: real) => 1.0, (v: real, b: real) => 0.0, (v: real, b: real) => b < v / 2.0)

  lemma PowOneOk()
    ensures LibmOk(AT_EIGHT, POW_ONE)
  {
    forall v ensures AccurateAt(AT_EIGHT, POW_ONE.here, POW_ONE.truth, v) && AccurateAt(AT_EIGHT, POW_ONE.there, POW_ONE.truth, v) {
    }
    forall v, w, b | Abs(w - v) <= b && POW_ONE.applies(v, b) ensures TaylorAt(POW_ONE, v, w, b) {
      TimesSigns(1.0, w - v);
    }
  }

  /** Both libraries are within their documented accuracy, and the base 6 with an
      uncertainty of 2 is one the code accepts, but at 8 the unit is larger: the charged
      units do not cover the gap between 5 here and 10 there. */
  lemma ReachIsNeeded()
    ensures FormatOk(AT_EIGHT) && LibmOk(AT_EIGHT, POW_ONE) && POW_ONE.applies(6.0, 2.0)
    ensures AT_EIGHT.exact(6.0) && AT_EIGHT.exact(8.0) && AT_EIGHT.exact(POW_ONE.here(6.0)) && AT_EIGHT.exact(POW_ONE.there(8.0))
    ensures !UnitsCoverCall(AT_EIGHT, POW_ONE, 6.0, 2.0)
    ensures Abs(POW_ONE.there(8.0) - POW_ONE.here(6.0) - Times(POW_ONE.slope(6.0), 8.0 - 6.0))
      > PairUnits(AT_EIGHT, POW_ONE.here(6.0)) + POW_ONE.second(6.0, 2.0)
  {
    AtEightOk();
    PowOneOk();
    WholeExact(6);
    WholeExact(8);
    WholeExact(5);
    assert ExactAtEight(10.0) by { assert Whole(10) == 10.0 && Whole(5) == 10.0 / 2.0; }
    TimesSigns(1.0, 2.0);
    assert Reach(AT_EIGHT, 5.0) == 7.0;
    assert !ErrorCovered(AT_EIGHT, 5.0, 1.0, 0.0, 2.0, 1.0);
    assert 0.0 <= 1.0 <= UnitAtEight(Abs(5.0) + 1.0);
  }

  lemma WholeExact(k: int)
    requires -8 <= k <= 8
    ensures ExactAtEight(k as real)
  {
    assert Whole(k) == k as real;
  }

  function Call(f: Format, g: Libm, x: Tracked, n: nat): Made {
    var z := g.here(x.v);
    var slope := g.slope(x.v);
    Made(Tracked(z, Merge(x.lin, slope, map[n := PairUnits(f, z)], 1.0),
      Times(Abs(slope), x.rem) + g.second(x.v, Radius(x, n))), n + 1)
  }

  /** So the call's own radius does not cover the gap either: the base 6 with an
      uncertainty of 2, and 8 in the other build. */
  lemma CallOutOfReach()
    ensures var x := Tracked(6.0, map[0 := 2.0], 0.0);
      var m := Call(AT_EIGHT, POW_ONE, x, 1);
      && Sound((s: nat) => 1.0, 1, x, 8.0)
      && Radius(x, 1) == 2.0 && POW_ONE.applies(x.v, Radius(x, 1))
      && Abs(POW_ONE.there(8.0) - m.t.v) > Radius(m.t, m.next)
  {
    var x, eps := Tracked(6.0, map[0 := 2.0], 0.0), (s: nat) => 1.0;
    var unit := map[1 := 2.0];
    assert Reach(AT_EIGHT, 5.0) == 7.0;
    MergeCoef(x.lin, 1.0, unit, 1.0, 0);
    MergeCoef(x.lin, 1.0, unit, 1.0, 1);
    hide Times, Merge;
    TimesSwap(2.0, 1.0);
    TimesSigns(1.0, 2.0);
    TimesSigns(1.0, 0.0);
    var lin := Merge(x.lin, 1.0, unit, 1.0);
    assert Coef(lin, 0) == 2.0 && Coef(lin, 1) == 2.0;
    assert SumAbs(lin, 0) == 0.0;
    assert SumAbs(lin, 1) == 2.0;
    assert SumAbs(lin, 2) == 4.0;
    assert SumAbs(x.lin, 0) == 0.0;
    assert SumAbs(x.lin, 1) == 2.0;
    assert SumAt(x.lin, eps, 0) == 0.0;
    assert SumAt(x.lin, eps, 1) == 2.0;
  }

  /** A difference within `p + q` is a part within `p` and a part within `q`. */
  lemma Divide(d: real, p: real, q: real) returns (a: real)
    requires Abs(d) <= p + q && p >= 0.0 && q >= 0.0
    ensures Abs(a) <= p && Abs(d - a) <= q
  {
    a := if d > p then p else if d < -p then -p else d;
  }

  /** The form of a call, with its new symbol at `value`. */
  lemma CallForm(eps: nat -> real, n: nat, lin: map<nat, real>, slope: real, c: real, value: real)
    requires Below(lin, n)
    ensures var m := Merge(lin, slope, map[n := c], 1.0);
      && Below(m, n + 1)
      && SumAt(m, Given(eps, n, value), n + 1) == Weighted(slope, SumAt(lin, eps, n), 1.0, Times(c, value))
  {
    hide Merge, Times, Weighted, Coef, Term;
    var eps', unit := Given(eps, n, value), map[n := c];
    SumSameBelow(lin, eps, eps', n);
    SumsStable(lin, eps', n, n + 1);
    OneSum(n, c, eps');
    MergeSum(lin, slope, unit, 1.0, eps', n + 1);
    MergeBelow(lin, slope, unit, 1.0, n + 1);
  }

  lemma LibmGap(f: Format, g: Libm, v: real, w: real, b: real) returns (part: real)
    requires FormatOk(f) && LibmOk(f, g) && Abs(w - v) <= b && g.applies(v, b) && UnitsCoverCall(f, g, v, b)
    ensures Abs(part) <= PairUnits(f, g.here(v)) && g.second(v, b) >= 0.0
    ensures Abs(g.there(w) - g.here(v) - Times(g.slope(v), w - v) - part) <= g.second(v, b)
  {
    hide Times;
    LibmPair(f, g, v, w, b);
    UnitsNotNegative(f, g.here(v));
    hide FormatOk, LibmOk, PairUnits, UnitsCoverCall;
    part := Divide(g.there(w) - g.here(v) - Times(g.slope(v), w - v), PairUnits(f, g.here(v)), g.second(v, b));
  }

  lemma CallSound(f: Format, eps: nat -> real, n: nat, g: Libm, x: Tracked, x': real) returns (eps': nat -> real)
    requires FormatOk(f) && LibmOk(f, g) && Sound(eps, n, x, x') && g.applies(x.v, Radius(x, n))
    requires UnitsCoverCall(f, g, x.v, Radius(x, n))
    ensures Keeps(eps', eps, n, Call(f, g, x, n), g.there(x'))
  {
    hide Times, Merge, FormatOk, LibmOk, UnitsCoverCall, PairUnits, Weighted, Abs, SumAt;
    var z, slope, b := g.here(x.v), g.slope(x.v), Radius(x, n);
    GapWithinRadius(eps, n, x, x');
    var part := LibmGap(f, g, x.v, x', b);
    var value := Share(PairUnits(f, z), part);
    eps' := Given(eps, n, value);
    CallForm(eps, n, x.lin, slope, PairUnits(f, z), value);
    CallGap(g.there(x') - z, slope, x' - x.v, SumAt(x.lin, eps, n), x.rem, part, g.second(x.v, b));
  }

  lemma CallGap(gap: real, slope: real, d: real, s: real, rem: real, part: real, second: real)
    requires Abs(d - s) <= rem && Abs(gap - Times(slope, d) - part) <= second
    ensures Abs(gap - Weighted(slope, s, 1.0, part)) <= Times(Abs(slope), rem) + second
    ensures Times(Abs(slope), rem) >= 0.0
  {
    hide Times;
    TimesSigns(1.0, part);
    TimesBound(slope, d - s, Abs(slope), rem);
    TimesSum(slope, d - s, s);
    TimesSigns(Abs(slope), rem);
  }

  lemma UnitsNotNegative(f: Format, z: real)
    requires FormatOk(f)
    ensures PairUnits(f, z) >= 0.0
  {
    assert UnitGrows(f, Abs(z), Abs(z));
    var w := Abs(z) + 2.0 * f.ulp(Abs(z));
    assert UnitGrows(f, w, w);
  }

  lemma OneSum(n: nat, c: real, eps: nat -> real)
    ensures SumAt(map[n := c], eps, n + 1) == Times(c, eps(n)) && Below(map[n := c], n + 1)
  {
    hide Times;
    EmptySums(map[], eps, n);
    CoefSameBelow(map[], map[n := c], eps, n);
  }

  // ----- flags and remainders, exactly -----

  /** Some values within the two radii decide some relation differently. */
  ghost predicate CouldDiffer(x: Tracked, y: Tracked, n: nat) {
    exists op, x', y' :: Differs(x, y, n, op, x', y')
  }

  ghost predicate Differs(x: Tracked, y: Tracked, n: nat, op: Relation, x': real, y': real) {
    Abs(x' - x.v) <= Radius(x, n) && Abs(y' - y.v) <= Radius(y, n) && Holds(op, x', y') != Holds(op, x.v, y.v)
  }

  /** A comparison that could go either way is flagged, and a flagged one could go
      either way unless neither value has any room to differ. */
  lemma FlagExactly(x: Tracked, y: Tracked, n: nat)
    requires Formed(x, n) && Formed(y, n)
    ensures CouldDiffer(x, y, n) <==> Ambiguous(x, y, n) && Radius(x, n) + Radius(y, n) > 0.0
  {
    hide SumAbs;
    var p, q := Radius(x, n), Radius(y, n);
    if CouldDiffer(x, y, n) {
      var op, x', y' :| Differs(x, y, n, op, x', y');
      DivergedRoom(x, n);
      DivergedRoom(y, n);
    }
    if Ambiguous(x, y, n) && p + q > 0.0 {
      if x.v == y.v {
        assert Differs(x, y, n, Eq, x.v + p, y.v - q);
      } else {
        var x', y' := Meeting(x.v, y.v, p, q);
        assert Differs(x, y, n, Eq, x', y');
      }
    }
  }

  /** Two values no further apart than both radii can meet. */
  lemma Meeting(x: real, y: real, p: real, q: real) returns (x': real, y': real)
    requires Abs(x - y) <= p + q && p >= 0.0 && q >= 0.0
    ensures x' == y' && Abs(x' - x) <= p && Abs(y' - y) <= q
  {
    x' := if Abs(x - y) <= p then y else if x < y then x + p else x - p;
    y' := x';
  }

  /** A value with room to differ counts as diverged. */
  lemma DivergedRoom(t: Tracked, n: nat)
    requires Formed(t, n)
    ensures Radius(t, n) > 0.0 ==> Diverged(t)
  {
    if !Diverged(t) {
      assert t.lin.Keys == {};
      EmptySums(t.lin, (s: nat) => 0.0, n);
    }
  }

  /** A form whose one coefficient is zero is flagged although it cannot differ. */
  lemma FlaggedForNothing()
    ensures var x := Tracked(1.0, map[0 := 0.0], 0.0); Formed(x, 1) && Ambiguous(x, x, 1) && !CouldDiffer(x, x, 1)
  {
    var x := Tracked(1.0, map[0 := 0.0], 0.0);
    assert SumAbs(x.lin, 0) == 0.0;
    assert SumAbs(x.lin, 1) == 0.0;
    FlagExactly(x, x, 1);
  }

  ghost predicate MultipleApart(v: real, r: real, m: real, k: int) { v == r + Times(m, k as real) }

  /** `fmod` gives what is left after whole multiples of the divisor: smaller than it
      and never of the other sign. */
  lemma FmodIs(v: real, m: real)
    requires m != 0.0
    ensures Abs(FmodOf(v, m)) < Abs(m)
    ensures v >= 0.0 ==> FmodOf(v, m) >= 0.0
    ensures v <= 0.0 ==> FmodOf(v, m) <= 0.0
    ensures exists k :: MultipleApart(v, FmodOf(v, m), m, k)
  {
    hide Times, Over;
    var q := Over(v, m);
    var k := Trunc(q);
    var rest := q - k as real;
    OverTimes(v, m);
    TimesSwap(q, m);
    TimesSum(m, q, -(k as real));
    TimesSigns(m, k as real);
    assert FmodOf(v, m) == Times(m, rest);
    assert MultipleApart(v, FmodOf(v, m), m, k);
    TimesMagnitude(m, rest);
    TimesLess(Abs(rest), 1.0, Abs(m));
    TimesSwap(Abs(m), Abs(rest));
    TimesSigns(1.0, Abs(m));
    SameSide(v, m, q, rest);
  }

  lemma SameSide(v: real, m: real, q: real, rest: real)
    requires m != 0.0 && q == Over(v, m) && (q >= 0.0 ==> rest >= 0.0) && (q <= 0.0 ==> rest <= 0.0)
    ensures v >= 0.0 ==> Times(m, rest) >= 0.0
    ensures v <= 0.0 ==> Times(m, rest) <= 0.0
  {
    hide Times, Over;
    OverTimes(v, m);
    TimesSigns(q, m);
    TimesSigns(-q, m);
    TimesSigns(q, -m);
    TimesSigns(-q, -m);
    TimesSigns(m, rest);
    TimesSigns(-m, rest);
    TimesSigns(m, -rest);
    TimesSigns(-m, -rest);
  }

  /** For factors of one sign the product's remainder is attained: no smaller one would
      be sound. */
  lemma MulRestAttained(x: real, y: real, rx: real, ry: real, p: real, q: real)
    requires x >= 0.0 && y >= 0.0 && 0.0 <= rx <= p && 0.0 <= ry <= q
    ensures Abs(Times(x + p, y + q) - Times(x, y) - Weighted(y, p - rx, x, q - ry)) == MulRest(x, y, rx, ry, p, q)
  {
    ProductGap(x, y, p, q, p - rx, q - ry);
    hide Times, Weighted;
    MulRestNotNegative(x, y, rx, ry, p, q);
  }

  /** Values that have not diverged stay so: an operation hands out a symbol only when
      an operand could differ between the builds. */
  lemma UndivergedResults(f: Format, x: Tracked, y: Tracked, plus: bool, n: nat)
    requires !Diverged(x) && !Diverged(y) && x.rem == 0.0 && y.rem == 0.0
    ensures var m := Add(f, x, y, plus, n); !Diverged(m.t) && m.next == n
    ensures var m := Mul(f, x, y, n); !Diverged(m.t) && m.next == n
    ensures Divides(y, n) ==> var m := Div(f, x, y, n); !Diverged(m.t) && m.next == n
    ensures !Diverged(Neg(x)) && !Diverged(Fabs(x, n)) && (forall d :: d != 0.0 ==> !FmodWraps(x, d, n))
    ensures !Ambiguous(x, y, n)
  {
    hide Times, Over;
    assert x.lin.Keys == {} && y.lin.Keys == {};
    var zero := (s: nat) => 0.0;
    EmptySums(x.lin, zero, n);
    EmptySums(y.lin, zero, n);
    NothingMerged(x.lin, y.lin);
    TimesSigns(Abs(y.v), 0.0);
    TimesSigns(Abs(x.v), 0.0);
    TimesSigns(0.0, 0.0);
    if Divides(y, n) {
      NothingDivided(x.v, y.v);
    }
  }

  lemma NothingMerged(a: map<nat, real>, b: map<nat, real>)
    requires a.Keys == {} && b.Keys == {}
    ensures forall ka, kb :: Merge(a, ka, b, kb) == map[]
    ensures forall k :: Scaled(a, k) == map[]
  {
    hide Times;
  }

  lemma NothingDivided(x: real, y: real)
    requires y != 0.0
    ensures DivRest(x, y, 0.0, 0.0, 0.0, 0.0) == 0.0
  {
    hide Times, Over;
    SquareOf(y);
    var a := Abs(y);
    Powers(a);
    RatioBelowOne(0.0, a);
    TimesSigns(a, 0.0);
    TimesSigns(Abs(x), 0.0);
    TimesSigns(0.0, 0.0);
    TimesSigns(0.0, a);
    TimesSigns(0.0, Times(y, y));
    TimesSigns(0.0, Times(Times(a, a), a));
    OverOnly(0.0, a, 0.0);
    OverOnly(0.0, Times(y, y), 0.0);
    OverOnly(0.0, Times(Times(a, a), a), 0.0);
    TimesSigns(0.0, 1.0);
    OverOnly(0.0, 1.0, 0.0);
  }
}
