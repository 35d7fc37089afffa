/** Radial, along-track and cross-track components (`project_rac`). */
module Triad {

  import opened Reals

  datatype Vec = Vec(x: real, y: real, z: real)

  function Dot(a: Vec, b: Vec): real { Times(a.x, b.x) + Times(a.y, b.y) + Times(a.z, b.z) }

  function Cross(a: Vec, b: Vec): Vec {
    Vec(Times(a.y, b.z) - Times(a.z, b.y), Times(a.z, b.x) - Times(a.x, b.z), Times(a.x, b.y) - Times(a.y, b.x))
  }

  function Scaled(a: Vec, k: real): Vec { Vec(Times(a.x, k), Times(a.y, k), Times(a.z, k)) }

  const ZERO := Vec(0.0, 0.0, 0.0)

  /** `norm` is the length of `v`. */
  predicate IsNorm(v: Vec, norm: real) { norm >= 0.0 && Times(norm, norm) == Dot(v, v) }

  /** `unit3`, for the length of the vector; the zero vector has no direction. */
  function Unit(v: Vec, norm: real): Vec { if norm > 0.0 then Scaled(v, Over(1.0, norm)) else ZERO }

  datatype Rac = Rac(radial: real, along: real, cross: real)

  /** `project_rac`, given the lengths of `r` and of `r x v`. */
  function Project(d: Vec, r: Vec, v: Vec, lengthR: real, lengthH: real): Rac {
    var radial := Unit(r, lengthR);
    var cross := Unit(Cross(r, v), lengthH);
    var along := Cross(cross, radial);
    Rac(Dot(d, radial), Dot(d, along), Dot(d, cross))
  }

  // ----- unit vectors -----

  lemma DotScaled(a: Vec, b: Vec, k: real)
    ensures Dot(Scaled(a, k), b) == Times(Dot(a, b), k) && Dot(b, Scaled(a, k)) == Times(Dot(b, a), k)
  {
    DotScaledPart(a.x, b.x, k);
    DotScaledPart(a.y, b.y, k);
    DotScaledPart(a.z, b.z, k);
    hide Times;
    TimesSum(k, Times(a.x, b.x) + Times(a.y, b.y), Times(a.z, b.z));
    TimesSum(k, Times(a.x, b.x), Times(a.y, b.y));
    TimesSum(k, Times(b.x, a.x) + Times(b.y, a.y), Times(b.z, a.z));
    TimesSum(k, Times(b.x, a.x), Times(b.y, a.y));
  }

  lemma DotScaledPart(a: real, b: real, k: real)
    ensures Times(Times(a, k), b) == Times(Times(a, b), k) && Times(b, Times(a, k)) == Times(Times(b, a), k)
  {
  }

  lemma UnitLength(v: Vec, norm: real)
    requires IsNorm(v, norm) && norm > 0.0
    ensures Dot(Unit(v, norm), Unit(v, norm)) == 1.0
  {
    hide Times, Over, Dot;
    var k := Over(1.0, norm);
    DotScaled(v, Scaled(v, k), k);
    DotScaled(v, v, k);
    OverTimes(1.0, norm);
    // (norm * norm * k) * k == 1
    TimesAssoc(norm, norm, k);
    TimesSwap(norm, k);
    TimesSwap(norm, 1.0);
    TimesSigns(1.0, norm);
  }

  /** The cross product is square to both factors. */
  lemma CrossSquare(a: Vec, b: Vec)
    ensures Dot(Cross(a, b), a) == 0.0
  {
  }

  // ----- three square unit vectors -----

  /** First component of each: their squares add to one. */
  lemma Diagonal(a1: real, a2: real, a3: real, b1: real, b2: real, b3: real)
    requires Times(a1, a1) + Times(a2, a2) + Times(a3, a3) == 1.0
    requires Times(b1, b1) + Times(b2, b2) + Times(b3, b3) == 1.0
    requires Times(a1, b1) + Times(a2, b2) + Times(a3, b3) == 0.0
    ensures var c := Times(a2, b3) - Times(a3, b2); Times(a1, a1) + Times(b1, b1) + Times(c, c) == 1.0
  {
    Lagrange(a2, a3, b2, b3);
    var p, q, s := Times(a2, a2) + Times(a3, a3), Times(b2, b2) + Times(b3, b3), Times(a2, b2) + Times(a3, b3);
    SquareOfProduct(a1, b1);
    hide Times;
    var a, b, m := Times(a1, a1), Times(b1, b1), Times(a1, b1);
    assert p == 1.0 - a && q == 1.0 - b && s == -m;
    OneMinus(a, b);
    TimesSigns(m, m);
    TimesSigns(m, -m);
  }

  lemma Lagrange(a2: real, a3: real, b2: real, b3: real)
    ensures var c, s := Times(a2, b3) - Times(a3, b2), Times(a2, b2) + Times(a3, b3);
      Times(c, c) == Times(Times(a2, a2) + Times(a3, a3), Times(b2, b2) + Times(b3, b3)) - Times(s, s)
  {
  }

  lemma SquareOfProduct(a: real, b: real)
    ensures Times(Times(a, b), Times(a, b)) == Times(Times(a, a), Times(b, b))
  {
  }

  lemma OneMinus(a: real, b: real)
    ensures Times(1.0 - a, 1.0 - b) == 1.0 - a - b + Times(a, b)
  {
  }

  /** Products of two components: they cancel. */
  lemma OffDiagonal(a1: real, a2: real, a3: real, b1: real, b2: real, b3: real)
    requires Times(a1, a1) + Times(a2, a2) + Times(a3, a3) == 1.0
    requires Times(b1, b1) + Times(b2, b2) + Times(b3, b3) == 1.0
    requires Times(a1, b1) + Times(a2, b2) + Times(a3, b3) == 0.0
    ensures var c1, c2 := Times(a2, b3) - Times(a3, b2), Times(a3, b1) - Times(a1, b3);
      Times(a1, a2) + Times(b1, b2) + Times(c1, c2) == 0.0
  {
    MixedProduct(a1, a2, a3, b1, b2, b3);
    MixedRest(a1, a2, b1, b2);
    hide Times;
    var p, q := Times(a1, a2), Times(b1, b2);
    var u, v, w := Times(a3, a3), Times(b3, b3), Times(a3, b3);
    assert u == 1.0 - (Times(a1, a1) + Times(a2, a2)) && v == 1.0 - (Times(b1, b1) + Times(b2, b2));
    assert w == -(Times(a1, b1) + Times(a2, b2));
    TimesSum(p, 1.0, -(Times(b1, b1) + Times(b2, b2)));
    TimesSum(q, 1.0, -(Times(a1, a1) + Times(a2, a2)));
    OneTimes(p);
    OneTimes(q);
    TimesSigns(p, Times(b1, b1) + Times(b2, b2));
    TimesSigns(q, Times(a1, a1) + Times(a2, a2));
    TimesSigns(Times(a1, b1) + Times(a2, b2), Times(a2, b1) + Times(a1, b2));
  }

  lemma MixedProduct(a1: real, a2: real, a3: real, b1: real, b2: real, b3: real)
    ensures Times(Times(a2, b3) - Times(a3, b2), Times(a3, b1) - Times(a1, b3))
      == Times(Times(a3, b3), Times(a2, b1) + Times(a1, b2)) - Times(Times(a1, a2), Times(b3, b3)) - Times(Times(b1, b2), Times(a3, a3))
  {
    hide Times;
    DifferenceProduct(Times(a2, b3), Times(a3, b2), Times(a3, b1), Times(a1, b3));
    Regroup(a2, b3, a3, b1);
    Regroup(a2, b3, a1, b3);
    Regroup(a3, b2, a3, b1);
    Regroup(a3, b2, a1, b3);
    TimesSum(Times(a3, b3), Times(a2, b1), Times(a1, b2));
  }

  lemma DifferenceProduct(p: real, q: real, r: real, s: real)
    ensures Times(p - q, r - s) == Times(p, r) - Times(p, s) - Times(q, r) + Times(q, s)
  {
  }

  /** A product of four factors, paired the other ways. */
  lemma Regroup(x: real, y: real, z: real, w: real)
    ensures Times(Times(x, y), Times(z, w)) == Times(Times(z, y), Times(x, w)) == Times(Times(z, x), Times(y, w))
         == Times(Times(w, y), Times(x, z)) == Times(Times(x, w), Times(z, y))
  {
  }

  lemma MixedRest(a1: real, a2: real, b1: real, b2: real)
    ensures Times(Times(a1, b1) + Times(a2, b2), Times(a2, b1) + Times(a1, b2))
      == Times(Times(a1, a2), Times(b1, b1) + Times(b2, b2)) + Times(Times(b1, b2), Times(a1, a1) + Times(a2, a2))
  {
  }

  /** The square of a component, with its products named. */
  function Quadratic(d: Vec, a: Vec): real {
    Times(Times(d.x, d.x), Times(a.x, a.x)) + Times(Times(d.y, d.y), Times(a.y, a.y)) + Times(Times(d.z, d.z), Times(a.z, a.z))
    + 2.0 * (Times(Times(d.x, d.y), Times(a.x, a.y)) + Times(Times(d.y, d.z), Times(a.y, a.z)) + Times(Times(d.z, d.x), Times(a.z, a.x)))
  }

  lemma DotSquared(d: Vec, a: Vec)
    ensures Times(Dot(d, a), Dot(d, a)) == Quadratic(d, a)
  {
    hide Times;
    SquareOfSum(Times(d.x, a.x), Times(d.y, a.y), Times(d.z, a.z));
    PairProduct(d.x, a.x, d.x, a.x);
    PairProduct(d.y, a.y, d.y, a.y);
    PairProduct(d.z, a.z, d.z, a.z);
    PairProduct(d.x, a.x, d.y, a.y);
    PairProduct(d.y, a.y, d.z, a.z);
    PairProduct(d.z, a.z, d.x, a.x);
  }

  lemma SquareOfSum(p: real, q: real, r: real)
    ensures Times(p + q + r, p + q + r) == Times(p, p) + Times(q, q) + Times(r, r) + 2.0 * (Times(p, q) + Times(q, r) + Times(r, p))
  {
  }

  lemma PairProduct(d1: real, a1: real, d2: real, a2: real)
    ensures Times(Times(d1, a1), Times(d2, a2)) == Times(Times(d1, d2), Times(a1, a2))
  {
  }

  /** What the components of three square unit vectors satisfy, column by column. */
  predicate Columns(a: Vec, b: Vec, c: Vec) {
    && Times(a.x, a.x) + Times(b.x, b.x) + Times(c.x, c.x) == 1.0
    && Times(a.y, a.y) + Times(b.y, b.y) + Times(c.y, c.y) == 1.0
    && Times(a.z, a.z) + Times(b.z, b.z) + Times(c.z, c.z) == 1.0
    && Times(a.x, a.y) + Times(b.x, b.y) + Times(c.x, c.y) == 0.0
    && Times(a.y, a.z) + Times(b.y, b.z) + Times(c.y, c.z) == 0.0
    && Times(a.z, a.x) + Times(b.z, b.x) + Times(c.z, c.x) == 0.0
  }

  lemma ThreeTimes(k: real, a: real, b: real, c: real)
    ensures Times(k, a) + Times(k, b) + Times(k, c) == Times(k, a + b + c)
  {
  }

  lemma ColumnsAdd(d: Vec, a: Vec, b: Vec, c: Vec)
    requires Columns(a, b, c)
    ensures Quadratic(d, a) + Quadratic(d, b) + Quadratic(d, c) == Dot(d, d)
  {
    hide Times;
    ThreeTimes(Times(d.x, d.x), Times(a.x, a.x), Times(b.x, b.x), Times(c.x, c.x));
    ThreeTimes(Times(d.y, d.y), Times(a.y, a.y), Times(b.y, b.y), Times(c.y, c.y));
    ThreeTimes(Times(d.z, d.z), Times(a.z, a.z), Times(b.z, b.z), Times(c.z, c.z));
    ThreeTimes(Times(d.x, d.y), Times(a.x, a.y), Times(b.x, b.y), Times(c.x, c.y));
    ThreeTimes(Times(d.y, d.z), Times(a.y, a.z), Times(b.y, b.z), Times(c.y, c.z));
    ThreeTimes(Times(d.z, d.x), Times(a.z, a.x), Times(b.z, b.x), Times(c.z, c.x));
    TimesSigns(Times(d.x, d.x), 0.0);
    OneTimes(Times(d.x, d.x));
    OneTimes(Times(d.y, d.y));
    OneTimes(Times(d.z, d.z));
    OneTimes(Times(d.x, d.y));
    OneTimes(Times(d.y, d.z));
    OneTimes(Times(d.z, d.x));
  }

  lemma OneTimes(k: real)
    ensures Times(k, 1.0) == k && Times(k, 0.0) == 0.0
  {
  }

  lemma ColumnsOfTriad(a: Vec, b: Vec)
    requires Dot(a, a) == 1.0 && Dot(b, b) == 1.0 && Dot(a, b) == 0.0
    ensures Columns(a, b, Cross(a, b))
  {
    hide Times;
    Diagonal(a.x, a.y, a.z, b.x, b.y, b.z);
    Diagonal(a.y, a.z, a.x, b.y, b.z, b.x);
    Diagonal(a.z, a.x, a.y, b.z, b.x, b.y);
    OffDiagonal(a.x, a.y, a.z, b.x, b.y, b.z);
    OffDiagonal(a.y, a.z, a.x, b.y, b.z, b.x);
    OffDiagonal(a.z, a.x, a.y, b.z, b.x, b.y);
  }

  /** The three components keep the length of the difference whenever the position
      and the angular momentum are nonzero. */
  lemma ProjectionKeepsLength(d: Vec, r: Vec, v: Vec, lengthR: real, lengthH: real)
    requires IsNorm(r, lengthR) && IsNorm(Cross(r, v), lengthH) && lengthR > 0.0 && lengthH > 0.0
    ensures var p := Project(d, r, v, lengthR, lengthH);
      Times(p.radial, p.radial) + Times(p.along, p.along) + Times(p.cross, p.cross) == Dot(d, d)
  {
    hide Times, Over, Dot, Cross, Scaled, Quadratic, Columns, IsNorm;
    var radial, cross := Unit(r, lengthR), Unit(Cross(r, v), lengthH);
    UnitLength(r, lengthR);
    UnitLength(Cross(r, v), lengthH);
    CrossSquare(r, v);
    DotScaled(Cross(r, v), radial, Over(1.0, lengthH));
    DotScaled(r, Cross(r, v), Over(1.0, lengthR));
    TimesSigns(0.0, Over(1.0, lengthR));
    TimesSigns(0.0, Over(1.0, lengthH));
    ColumnsOfTriad(cross, radial);
    var along := Cross(cross, radial);
    ColumnsAdd(d, cross, radial, along);
    DotSquared(d, radial);
    DotSquared(d, along);
    DotSquared(d, cross);
  }

  // ----- the axes -----

  lemma DotSwap(a: Vec, b: Vec)
    ensures Dot(a, b) == Dot(b, a)
  {
    hide Times;
    TimesSwap(a.x, b.x);
    TimesSwap(a.y, b.y);
    TimesSwap(a.z, b.z);
  }

  lemma CrossSquareRight(a: Vec, b: Vec)
    ensures Dot(b, Cross(a, b)) == 0.0 && Dot(a, Cross(a, b)) == 0.0
  {
  }

  /** The triple product turns through its factors. */
  lemma TripleTurns(a: Vec, b: Vec, c: Vec)
    ensures Dot(a, Cross(b, c)) == Dot(b, Cross(c, a))
  {
  }

  /** A vector along its own unit vector has its length as component. */
  lemma AlongItself(v: Vec, norm: real)
    requires IsNorm(v, norm) && norm > 0.0
    ensures Dot(v, Unit(v, norm)) == norm
  {
    hide Times, Over, Dot;
    var k := Over(1.0, norm);
    DotScaled(v, v, k);
    OverTimes(1.0, norm);
    TimesAssoc(norm, norm, k);
    TimesSwap(norm, k);
    TimesSwap(norm, 1.0);
    TimesSigns(1.0, norm);
  }

  /** The position is all radial. */
  lemma PositionIsRadial(r: Vec, v: Vec, lengthR: real, lengthH: real)
    requires IsNorm(r, lengthR) && IsNorm(Cross(r, v), lengthH) && lengthR > 0.0 && lengthH > 0.0
    ensures Project(r, r, v, lengthR, lengthH) == Rac(lengthR, 0.0, 0.0)
  {
    hide Times, Over, Dot, Cross, Scaled, IsNorm;
    var h, k := Cross(r, v), Over(1.0, lengthR);
    var radial, cross := Unit(r, lengthR), Unit(h, lengthH);
    AlongItself(r, lengthR);
    CrossSquareRight(r, v);
    DotScaled(h, r, Over(1.0, lengthH));
    TimesSigns(0.0, Over(1.0, lengthH));
    // r . (cross x radial) == cross . (radial x r), and radial is along r
    TripleTurns(r, cross, radial);
    CrossOfScaled(r, k);
    ZeroDot(cross);
  }

  lemma CrossOfScaled(r: Vec, k: real)
    ensures Cross(Scaled(r, k), r) == ZERO
  {
  }

  lemma ZeroDot(a: Vec)
    ensures Dot(a, ZERO) == 0.0
  {
  }

  /** The velocity has no cross-track part, and its along-track part points forward. */
  lemma VelocityIsForward(r: Vec, v: Vec, lengthR: real, lengthH: real)
    requires IsNorm(r, lengthR) && IsNorm(Cross(r, v), lengthH) && lengthR > 0.0 && lengthH > 0.0
    ensures Project(v, r, v, lengthR, lengthH).cross == 0.0
    ensures Project(v, r, v, lengthR, lengthH).along == Over(lengthH, lengthR) > 0.0
  {
    hide Times, Over, Dot, Cross, Scaled, IsNorm;
    var h, k := Cross(r, v), Over(1.0, lengthR);
    var radial, cross := Unit(r, lengthR), Unit(h, lengthH);
    CrossSquareRight(r, v);
    DotScaled(h, v, Over(1.0, lengthH));
    TimesSigns(0.0, Over(1.0, lengthH));
    // v . (cross x radial) == cross . (radial x v) == (cross . h) / |r|
    TripleTurns(v, cross, radial);
    ScaledCross(r, v, k);
    DotScaled(h, cross, k);
    AlongItself(h, lengthH);
    DotSwap(h, cross);
    OverTimes(1.0, lengthR);
    TimesAssoc(lengthH, k, lengthR);
    TimesSwap(lengthH, 1.0);
    TimesSigns(1.0, lengthH);
    OverOnly(lengthH, lengthR, Times(lengthH, k));
    OverNotNegative(lengthH, lengthR);
    TimesSigns(0.0, lengthR);
    OverTimes(lengthH, lengthR);
  }

  lemma ScaledCross(r: Vec, v: Vec, k: real)
    ensures Cross(Scaled(r, k), v) == Scaled(Cross(r, v), k)
  {
    ScaledCrossPart(r.y, v.z, r.z, v.y, k);
    ScaledCrossPart(r.z, v.x, r.x, v.z, k);
    ScaledCrossPart(r.x, v.y, r.y, v.x, k);
    hide Times;
  }

  lemma ScaledCrossPart(a: real, b: real, c: real, d: real, k: real)
    ensures Times(Times(a, k), b) - Times(Times(c, k), d) == Times(Times(a, b) - Times(c, d), k)
  {
  }
}
