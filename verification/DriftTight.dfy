/** What the tracker reports is no larger than it has to be said: the radius is the
    largest gap its form allows, and each operation charges exactly its derivatives, its
    second-order term and one unit. */
module DriftTight {

  import opened Reals
  import opened Drift
  import opened DriftOps

  // ----- the radius -----

  /** The assignment that turns every term toward its magnitude. */
  ghost function Aligned(lin: map<nat, real>): nat -> real {
    (s: nat) => if Coef(lin, s) < 0.0 then -1.0 else 1.0
  }

  lemma {:induction false} AlignedSum(lin: map<nat, real>, n: nat)
    ensures SumAt(lin, Aligned(lin), n) == SumAbs(lin, n)
  {
    hide Times, Coef;
    if n > 0 {
      AlignedSum(lin, n - 1);
      var c := Coef(lin, n - 1);
      TimesSwap(c, 1.0);
      TimesSwap(c, -1.0);
      TimesSigns(1.0, c);
      assert Aligned(lin)(n - 1) == if c < 0.0 then -1.0 else 1.0;
    }
  }

  /** A gap as large as the radius is one the form explains, so no smaller radius covers
      every value it explains. */
  lemma RadiusAttained(t: Tracked, n: nat) returns (eps: nat -> real)
    requires Formed(t, n)
    ensures Sound(eps, n, t, t.v + Radius(t, n))
  {
    eps := Aligned(t.lin);
    AlignedSum(t.lin, n);
  }

  // ----- what operations charge -----

  /** The result takes a symbol exactly when an operand has diverged, worth that unit. */
  ghost predicate Charges(m: Made, diverged: bool, unit: real, n: nat) {
    m.next == (if diverged then n + 1 else n) && Coef(m.t.lin, n) == if diverged then unit else 0.0
  }

  lemma NewSymbol(lin: map<nat, real>, n: nat, c: real, s: nat)
    requires Below(lin, n)
    ensures Coef(lin[n := c], s) == if s == n then c else Coef(lin, s)
    ensures Coef(lin, n) == 0.0
  {
  }

  lemma AddCharges(f: Format, x: Tracked, y: Tracked, plus: bool, n: nat, s: nat)
    requires Formed(x, n) && Formed(y, n) && s < n
    ensures var m := Add(f, x, y, plus, n);
      && m.t.v == f.rnd(if plus then x.v + y.v else x.v - y.v)
      && Coef(m.t.lin, s) == Coef(x.lin, s) + (if plus then Coef(y.lin, s) else -Coef(y.lin, s))
      && m.t.rem == x.rem + y.rem
      && Charges(m, Diverged(x) || Diverged(y), f.ulp(Abs(m.t.v) + (Radius(x, n) + Radius(y, n))), n)
  {
    hide Times, Merge, Coef, Radius, Diverged, Abs;
    var sign := if plus then 1.0 else -1.0;
    var lin := Merge(x.lin, 1.0, y.lin, sign);
    MergeBelow(x.lin, 1.0, y.lin, sign, n);
    MergeSigned(x.lin, y.lin, plus, s);
    var unit := f.ulp(Abs(f.rnd(Sum(x.v, y.v, plus))) + (Radius(x, n) + Radius(y, n)));
    NewSymbol(lin, n, unit, s);
    NewSymbol(lin, n, unit, n);
  }

  lemma MergeSigned(a: map<nat, real>, b: map<nat, real>, plus: bool, s: nat)
    ensures Coef(Merge(a, 1.0, b, if plus then 1.0 else -1.0), s)
         == Coef(a, s) + (if plus then Coef(b, s) else -Coef(b, s))
  {
    hide Times, Merge, Coef;
    MergeCoef(a, 1.0, b, if plus then 1.0 else -1.0, s);
    TimesSigns(1.0, Coef(a, s));
    TimesSigns(1.0, Coef(b, s));
  }

  lemma MulCharges(f: Format, x: Tracked, y: Tracked, n: nat, s: nat)
    requires Formed(x, n) && Formed(y, n) && s < n
    ensures var m, p, q := Mul(f, x, y, n), Radius(x, n), Radius(y, n);
      && m.t.v == f.rnd(Times(x.v, y.v))
      && Coef(m.t.lin, s) == Times(y.v, Coef(x.lin, s)) + Times(x.v, Coef(y.lin, s))
      && m.t.rem == Times(Abs(y.v), x.rem) + Times(Abs(x.v), y.rem) + Times(p, q)
      && Charges(m, Diverged(x) || Diverged(y),
           f.ulp(Abs(m.t.v) + (Times(Abs(y.v), p) + Times(Abs(x.v), q) + Times(p, q))), n)
  {
    hide Times, Merge, Coef, Radius, Diverged;
    var p, q := Radius(x, n), Radius(y, n);
    var lin := Merge(x.lin, y.v, y.lin, x.v);
    MergeBelow(x.lin, y.v, y.lin, x.v, n);
    MergeCoef(x.lin, y.v, y.lin, x.v, s);
    var unit := f.ulp(Abs(f.rnd(Times(x.v, y.v))) + (Times(Abs(y.v), p) + Times(Abs(x.v), q) + Times(p, q)));
    NewSymbol(lin, n, unit, s);
    NewSymbol(lin, n, unit, n);
  }

  /** What a quotient leaves past first order. */
  function SecondOrder(x: real, y: real, p: real, q: real): real
    requires y != 0.0 && q < Abs(y)
  {
    var a := Abs(y);
    SquareOf(y);
    DriftArith.Powers(a);
    DriftArith.RatioBelowOne(q, a);
    Over(Over(Times(Times(Abs(x), q), q), Times(Times(a, a), a)) + Over(Times(p, q), Times(y, y)), 1.0 - Over(q, a))
  }

  lemma SecondIs(x: real, y: real, p: real, q: real)
    requires y != 0.0 && q < Abs(y)
    ensures DriftArith.Second(x, y, p, q) == SecondOrder(x, y, p, q)
  {
    hide Times, Over;
  }

  lemma DivCharges(f: Format, x: Tracked, y: Tracked, n: nat, s: nat)
    requires Formed(x, n) && Formed(y, n) && s < n && y.v != 0.0 && Times(y.v, y.v) != 0.0
    requires Radius(y, n) < Abs(y.v) / 2.0
    ensures var m, p, q := Div(f, x, y, n), Radius(x, n), Radius(y, n);
      var a, square := Abs(y.v), Times(y.v, y.v);
      && m.t.v == f.rnd(Over(x.v, y.v))
      && Coef(m.t.lin, s) == Times(Over(1.0, y.v), Coef(x.lin, s)) + Times(Over(-x.v, square), Coef(y.lin, s))
      && m.t.rem == Over(x.rem, a) + Over(Times(Abs(x.v), y.rem), square) + SecondOrder(x.v, y.v, p, q)
      && Charges(m, Diverged(x) || Diverged(y),
           f.ulp(Abs(m.t.v) + (Over(p, a) + Over(Times(Abs(x.v), q), square) + SecondOrder(x.v, y.v, p, q))), n)
  {
    var p, q := Radius(x, n), Radius(y, n);
    hide Times, Over, Merge, Coef, Radius, Diverged, SecondOrder, DriftArith.Second;
    SecondIs(x.v, y.v, p, q);
    var square := Times(y.v, y.v);
    var lin := Merge(x.lin, Over(1.0, y.v), y.lin, Over(-x.v, square));
    MergeBelow(x.lin, Over(1.0, y.v), y.lin, Over(-x.v, square), n);
    MergeCoef(x.lin, Over(1.0, y.v), y.lin, Over(-x.v, square), s);
    var unit := f.ulp(Abs(f.rnd(Over(x.v, y.v))) + DriftArith.DivRest(x.v, y.v, p, q, p, q));
    NewSymbol(lin, n, unit, s);
    NewSymbol(lin, n, unit, n);
  }

  lemma CallCharges(f: Format, g: Libm, x: Tracked, n: nat, s: nat)
    requires Formed(x, n) && s < n
    ensures var m, z, slope := Call(f, g, x, n), g.here(x.v), g.slope(x.v);
      && m.t.v == z
      && Coef(m.t.lin, s) == Times(slope, Coef(x.lin, s))
      && m.t.rem == Times(Abs(slope), x.rem) + g.second(x.v, Radius(x, n))
      && Charges(m, true, 2.0 * f.ulp(Abs(z) + 2.0 * f.ulp(Abs(z))), n)
  {
    hide Times, Merge, Radius;
    var z, slope := g.here(x.v), g.slope(x.v);
    var c := PairUnits(f, z);
    MergeCoef(x.lin, slope, map[n := c], 1.0, s);
    MergeCoef(x.lin, slope, map[n := c], 1.0, n);
    TimesSigns(1.0, c);
    TimesSigns(1.0, 0.0);
    TimesSigns(slope, 0.0);
  }

  /** Turning the sign, taking the magnitude and the remainder keep the radius. */
  lemma RadiusKept(x: Tracked, d: real, n: nat)
    requires Formed(x, n) && d != 0.0
    ensures Radius(Neg(x), n) == Radius(x, n)
    ensures Radius(Fabs(x, n), n) == Radius(x, n)
    ensures Radius(Fmod(x, d), n) == Radius(x, n)
  {
    SignKeeps(x.lin, 1.0, n);
    SignKeeps(x.lin, -1.0, n);
    EmptySums(map[], Aligned(map[]), n);
    hide Scaled, Times;
  }

  lemma {:induction false} SignKeeps(lin: map<nat, real>, k: real, n: nat)
    requires k == 1.0 || k == -1.0
    ensures SumAbs(Scaled(lin, k), n) == SumAbs(lin, n)
  {
    hide Times, Merge, Coef;
    if n > 0 {
      SignKeeps(lin, k, n - 1);
      MergeCoef(lin, k, map[], 0.0, n - 1);
      TimesSigns(1.0, Coef(lin, n - 1));
      TimesSigns(0.0, Coef(map[], n - 1));
    }
  }
}
