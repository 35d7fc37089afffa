/** Affine bounds on how far two builds of one program can drift apart
    (`Tracked`): a value with a sum of coefficients times symbols in [-1, 1] and a
    remainder, which together cover the other build's value. */
module Drift {

  import opened Reals

  // ----- rounding -----

  /** Round-to-nearest of one floating-point format. */
  datatype Format = Format(rnd: real -> real, ulp: real -> real, exact: real -> bool)

  /** What binary64 gives away from overflow: the nearest representable value, at
      most half a unit away; units that grow with magnitude, doubling; and a
      representable value at every place where the unit grows. */
  ghost predicate FormatOk(f: Format) {
    && (forall x :: HalfUnit(f, x))
    && (forall x, y :: Nearest(f, x, y))
    && (forall a, b :: UnitGrows(f, a, b))
    && (forall a, b :: UnitDoubles(f, a, b))
  }

  ghost predicate HalfUnit(f: Format, x: real) { Abs(f.rnd(x) - x) <= f.ulp(Abs(x)) / 2.0 }

  /** No representable value, of either sign, is nearer than the rounded one. */
  ghost predicate Nearest(f: Format, x: real, y: real) {
    f.exact(y) ==> Abs(f.rnd(x) - x) <= Abs(y - x) && f.exact(-y)
  }

  ghost predicate UnitGrows(f: Format, a: real, b: real) {
    0.0 <= a <= b ==>
      && 0.0 <= f.ulp(a) <= f.ulp(b)
      && (f.ulp(a) < f.ulp(b) ==> EdgeBetween(f, a, b))
  }

  /** A unit reaches back at most into a stretch with half the unit. */
  ghost predicate UnitDoubles(f: Format, a: real, b: real) {
    0.0 <= a <= b <= a + f.ulp(b) ==> f.ulp(b) <= 2.0 * f.ulp(a)
  }

  ghost predicate EdgeBetween(f: Format, a: real, b: real) { exists e :: a < e <= b && f.exact(e) }

  function NearestWhole(x: real): real { (x + 0.5).Floor as real }

  function Whole(k: int): real { k as real }

  predicate IsWhole(x: real) { x == Whole(x.Floor) }

  /** Rounding to whole numbers is such a format. */
  lemma WholeNumbersOk()
    ensures FormatOk(Format(NearestWhole, (x: real) => 1.0, IsWhole))
  {
    var f := Format(NearestWhole, (x: real) => 1.0, IsWhole);
    hide IsWhole, NearestWhole;
    forall x, y ensures Nearest(f, x, y) {
      if IsWhole(y) {
        NearestWholeIs(x, y);
      }
    }
    forall x ensures HalfUnit(f, x) {
      NearestWholeNear(x);
    }
  }

  lemma NearestWholeNear(x: real)
    ensures Abs(NearestWhole(x) - x) <= 0.5
  {
  }

  lemma NearestWholeIs(x: real, y: real)
    requires IsWhole(y)
    ensures Abs(NearestWhole(x) - x) <= Abs(y - x) && IsWhole(-y)
  {
    NegatedWhole(y.Floor);
    WholeFar(x, (x + 0.5).Floor, y.Floor);
  }

  lemma NegatedWhole(k: int)
    ensures -Whole(k) == Whole(-k) && IsWhole(Whole(-k))
  {
  }

  lemma WholeFar(x: real, n: int, k: int)
    requires n as real <= x + 0.5 < n as real + 1.0
    ensures Abs(n as real - x) <= Abs(k as real - x)
  {
    assert k <= n - 1 || k == n || k >= n + 1;
  }

  lemma Nearer(f: Format, x: real, e: real)
    requires FormatOk(f) && f.exact(e) && 0.0 <= e <= Abs(x)
    ensures Abs(f.rnd(x) - x) <= Abs(x) - e
  {
    assert Nearest(f, x, e);
    assert Nearest(f, x, -e);
  }

  /** A result no further than half a unit above `w` is rounded by at most half the
      unit of `w`, even when it lies past the place where the unit grows. */
  lemma RoundedWithin(f: Format, x: real, w: real)
    requires FormatOk(f) && 0.0 <= w && Abs(x) <= w + f.ulp(w) / 2.0
    ensures Abs(f.rnd(x) - x) <= f.ulp(w) / 2.0
  {
    hide Nearest;
    var a := Abs(x);
    assert HalfUnit(f, x);
    if a <= w {
      assert UnitGrows(f, a, w);
    } else {
      assert UnitGrows(f, w, a);
      if f.ulp(w) < f.ulp(a) {
        var e :| w < e <= a && f.exact(e);
        Nearer(f, x, e);
      }
    }
  }

  /** The rounding error is at most half a unit of the rounded value. */
  lemma RoundedUnit(f: Format, x: real)
    requires FormatOk(f)
    ensures Abs(f.rnd(x) - x) <= f.ulp(Abs(f.rnd(x))) / 2.0
  {
    hide Nearest;
    var z, a := Abs(f.rnd(x)), Abs(x);
    assert HalfUnit(f, x);
    if a <= z {
      assert UnitGrows(f, a, z);
    } else {
      assert UnitGrows(f, z, a);
      if f.ulp(z) < f.ulp(a) {
        var e :| z < e <= a && f.exact(e);
        Nearer(f, x, e);
        EdgeBelow(f, x, e);
      }
    }
  }

  /** The rounded value does not fall below a representable magnitude. */
  lemma EdgeBelow(f: Format, x: real, e: real)
    requires FormatOk(f) && f.exact(e) && 0.0 <= e <= Abs(x)
    ensures e <= Abs(f.rnd(x))
  {
    hide FormatOk;
    Nearer(f, x, e);
  }

  // ----- affine forms -----

  /** `lin` maps symbol ids to coefficients. */
  datatype Tracked = Tracked(v: real, lin: map<nat, real>, rem: real)

  function Coef(lin: map<nat, real>, s: nat): real { if s in lin then lin[s] else 0.0 }

  /** Sum of the magnitudes of the coefficients of symbols below `n`. */
  function SumAbs(lin: map<nat, real>, n: nat): (r: real)
    ensures r >= 0.0
  {
    if n == 0 then 0.0 else SumAbs(lin, n - 1) + Abs(Coef(lin, n - 1))
  }

  ghost function Term(lin: map<nat, real>, eps: nat -> real, s: nat): real { Times(Coef(lin, s), eps(s)) }

  /** Value of the form for one assignment of the symbols. */
  ghost function SumAt(lin: map<nat, real>, eps: nat -> real, n: nat): real {
    if n == 0 then 0.0 else SumAt(lin, eps, n - 1) + Term(lin, eps, n - 1)
  }

  /** Only symbols already handed out. */
  predicate Below(lin: map<nat, real>, n: nat) { forall s :: s in lin ==> s < n }

  predicate Formed(t: Tracked, n: nat) { Below(t.lin, n) && t.rem >= 0.0 }

  function Radius(t: Tracked, n: nat): real { SumAbs(t.lin, n) + t.rem }

  predicate Diverged(t: Tracked) { |t.lin| > 0 || t.rem > 0.0 }

  ghost predicate Unit(eps: nat -> real) { forall s :: -1.0 <= eps(s) <= 1.0 }

  /** The assignment explains the other build's value up to the remainder. */
  ghost predicate Explains(eps: nat -> real, n: nat, t: Tracked, other: real) {
    Abs(other - t.v - SumAt(t.lin, eps, n)) <= t.rem
  }

  lemma TermBound(lin: map<nat, real>, eps: nat -> real, s: nat)
    requires Unit(eps)
    ensures Abs(Term(lin, eps, s)) <= Abs(Coef(lin, s))
  {
    hide Coef, Times;
    TimesBound(Coef(lin, s), eps(s), Abs(Coef(lin, s)), 1.0);
    TimesSigns(1.0, Abs(Coef(lin, s)));
    TimesSwap(1.0, Abs(Coef(lin, s)));
  }

  lemma {:induction false} SumAtBound(lin: map<nat, real>, eps: nat -> real, n: nat)
    requires Unit(eps)
    ensures Abs(SumAt(lin, eps, n)) <= SumAbs(lin, n)
  {
    hide Term, Coef;
    if n > 0 {
      SumAtBound(lin, eps, n - 1);
      TermBound(lin, eps, n - 1);
    }
  }

  lemma {:induction false} SumsStable(lin: map<nat, real>, eps: nat -> real, n: nat, m: nat)
    requires Below(lin, n) && n <= m
    ensures SumAbs(lin, m) == SumAbs(lin, n) && SumAt(lin, eps, m) == SumAt(lin, eps, n)
    decreases m
  {
    if n < m {
      SumsStable(lin, eps, n, m - 1);
    }
  }

  lemma {:induction false} SumSameBelow(lin: map<nat, real>, eps: nat -> real, eps': nat -> real, n: nat)
    requires forall s: nat :: s < n ==> eps'(s) == eps(s)
    ensures SumAt(lin, eps', n) == SumAt(lin, eps, n)
  {
    if n > 0 {
      SumSameBelow(lin, eps, eps', n - 1);
    }
  }

  /** The gap between the builds is within the radius. */
  lemma GapWithinRadius(eps: nat -> real, n: nat, t: Tracked, other: real)
    requires Unit(eps) && Explains(eps, n, t, other)
    ensures Abs(other - t.v) <= Radius(t, n)
  {
    SumAtBound(t.lin, eps, n);
  }

  /** A value that cannot have diverged is the same in both builds. */
  lemma {:induction false} SameWhenNotDiverged(eps: nat -> real, n: nat, t: Tracked, other: real)
    requires Explains(eps, n, t, other) && !Diverged(t) && t.rem >= 0.0
    ensures other == t.v && Radius(t, n) == 0.0
  {
    assert t.lin.Keys == {};
    EmptySums(t.lin, eps, n);
  }

  lemma {:induction false} EmptySums(lin: map<nat, real>, eps: nat -> real, n: nat)
    requires lin.Keys == {}
    ensures SumAt(lin, eps, n) == 0.0 && SumAbs(lin, n) == 0.0
  {
    if n > 0 {
      EmptySums(lin, eps, n - 1);
    }
  }

  // ----- combining forms -----

  /** `_merge`: `ka * a + kb * b`, dropping a form scaled by zero. */
  function Merge(a: map<nat, real>, ka: real, b: map<nat, real>, kb: real): map<nat, real> {
    map s | s in (if ka != 0.0 then a.Keys else {}) + (if kb != 0.0 then b.Keys else {})
      :: Weighted(ka, Coef(a, s), kb, Coef(b, s))
  }

  lemma MergeCoef(a: map<nat, real>, ka: real, b: map<nat, real>, kb: real, s: nat)
    ensures Coef(Merge(a, ka, b, kb), s) == Weighted(ka, Coef(a, s), kb, Coef(b, s))
  {
    hide Times;
    TimesSigns(0.0, Coef(a, s));
    TimesSigns(0.0, Coef(b, s));
    TimesSigns(ka, 0.0);
    TimesSigns(kb, 0.0);
  }

  lemma WeightedTimes(ka: real, a: real, kb: real, b: real, e: real)
    ensures Times(Weighted(ka, a, kb, b), e) == Weighted(ka, Times(a, e), kb, Times(b, e))
  {
  }

  lemma WeightedSum(ka: real, a: real, a': real, kb: real, b: real, b': real)
    ensures Weighted(ka, a + a', kb, b + b') == Weighted(ka, a, kb, b) + Weighted(ka, a', kb, b')
    ensures Weighted(ka, 0.0, kb, 0.0) == 0.0
  {
  }

  lemma {:induction false} MergeSum(a: map<nat, real>, ka: real, b: map<nat, real>, kb: real, eps: nat -> real, n: nat)
    ensures SumAt(Merge(a, ka, b, kb), eps, n) == Weighted(ka, SumAt(a, eps, n), kb, SumAt(b, eps, n))
  {
    hide Merge, Coef, Weighted, Times;
    if n == 0 {
      WeightedSum(ka, 0.0, 0.0, kb, 0.0, 0.0);
    } else {
      MergeSum(a, ka, b, kb, eps, n - 1);
      MergeCoef(a, ka, b, kb, n - 1);
      WeightedTimes(ka, Coef(a, n - 1), kb, Coef(b, n - 1), eps(n - 1));
      WeightedSum(ka, SumAt(a, eps, n - 1), Term(a, eps, n - 1), kb, SumAt(b, eps, n - 1), Term(b, eps, n - 1));
    }
  }

  lemma MergeBelow(a: map<nat, real>, ka: real, b: map<nat, real>, kb: real, n: nat)
    requires Below(a, n) && Below(b, n)
    ensures Below(Merge(a, ka, b, kb), n)
    ensures a.Keys == {} && b.Keys == {} ==> Merge(a, ka, b, kb).Keys == {}
  {
  }

  /** `eps` with the next symbol given a value. */
  ghost function Given(eps: nat -> real, n: nat, value: real): (r: nat -> real)
    ensures forall s: nat :: r(s) == if s == n then value else eps(s)
  {
    (s: nat) => if s == n then value else eps(s)
  }

  /** A share in [-1, 1] of a coefficient that covers the difference. */
  lemma Share(coefficient: real, difference: real) returns (value: real)
    requires Abs(difference) <= coefficient
    ensures -1.0 <= value <= 1.0 && Times(coefficient, value) == difference
  {
    hide Times, Over;
    if coefficient == 0.0 {
      value := 0.0;
      TimesSigns(coefficient, value);
    } else {
      value := Over(difference, coefficient);
      OverTimes(difference, coefficient);
      TimesSwap(value, coefficient);
      OverMagnitude(difference, coefficient);
      OverBound(Abs(difference), coefficient, coefficient, coefficient);
      TimesSigns(1.0, coefficient);
      OverOnly(coefficient, coefficient, 1.0);
    }
  }

  /** `eps'` keeps every symbol below `n`. */
  ghost predicate Extends(eps': nat -> real, eps: nat -> real, n: nat) {
    Unit(eps') && forall s: nat :: s < n ==> eps'(s) == eps(s)
  }

  /** `t` is well formed and explains the other build's value. */
  ghost predicate Sound(eps: nat -> real, n: nat, t: Tracked, other: real) {
    Unit(eps) && Formed(t, n) && Explains(eps, n, t, other)
  }

  /** Assigning later symbols changes nothing that was explained before. */
  lemma {:induction false} StillSound(eps: nat -> real, n: nat, eps': nat -> real, n': nat, t: Tracked, other: real)
    requires Sound(eps, n, t, other) && n <= n' && Extends(eps', eps, n)
    ensures Sound(eps', n', t, other)
  {
    SumSameBelow(t.lin, eps, eps', n);
    SumsStable(t.lin, eps', n, n');
  }

  /** A form extended by the next symbol. */
  lemma {:induction false} SumWithNext(lin: map<nat, real>, eps: nat -> real, n: nat, coefficient: real, value: real)
    requires Below(lin, n)
    ensures Below(lin[n := coefficient], n + 1)
    ensures SumAt(lin[n := coefficient], Given(eps, n, value), n + 1) == SumAt(lin, eps, n) + Times(coefficient, value)
    ensures SumAbs(lin[n := coefficient], n + 1) == SumAbs(lin, n) + Abs(coefficient)
  {
    SumSameBelow(lin, eps, Given(eps, n, value), n);
    CoefSameBelow(lin, lin[n := coefficient], Given(eps, n, value), n);
  }

  lemma {:induction false} CoefSameBelow(lin: map<nat, real>, lin': map<nat, real>, eps: nat -> real, n: nat)
    requires forall s: nat :: s < n ==> Coef(lin, s) == Coef(lin', s)
    ensures SumAt(lin, eps, n) == SumAt(lin', eps, n) && SumAbs(lin, n) == SumAbs(lin', n)
  {
    if n > 0 {
      CoefSameBelow(lin, lin', eps, n - 1);
    }
  }
}
