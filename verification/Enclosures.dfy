/** Intervals with outward rounding (`Enclosure`): every operation's result holds
    the exact result of every choice from its operands. */
module Enclosures {

  import opened Reals

  /** Rounding toward minus and plus infinity. */
  datatype Rounding = Rounding(down: real -> real, up: real -> real)

  ghost predicate Directed(r: Rounding) { forall x :: r.down(x) <= x <= r.up(x) }

  datatype Enclosure = Enclosure(lower: real, upper: real)

  predicate Holds(e: Enclosure, x: real) { e.lower <= x <= e.upper }

  function Exactly(x: real): Enclosure { Enclosure(x, x) }

  function Min4(a: real, b: real, c: real, d: real): real { Min(Min(a, b), Min(c, d)) }

  function Max4(a: real, b: real, c: real, d: real): real { Max(Max(a, b), Max(c, d)) }

  function Plus(r: Rounding, a: Enclosure, b: Enclosure): Enclosure {
    Enclosure(r.down(a.lower + b.lower), r.up(a.upper + b.upper))
  }

  function Minus(r: Rounding, a: Enclosure, b: Enclosure): Enclosure {
    Enclosure(r.down(a.lower - b.upper), r.up(a.upper - b.lower))
  }

  function Multiplied(r: Rounding, a: Enclosure, b: Enclosure): Enclosure {
    var ll, lu := Times(a.lower, b.lower), Times(a.lower, b.upper);
    var ul, uu := Times(a.upper, b.lower), Times(a.upper, b.upper);
    Enclosure(Min4(r.down(ll), r.down(lu), r.down(ul), r.down(uu)), Max4(r.up(ll), r.up(lu), r.up(ul), r.up(uu)))
  }

  /** The divisor keeps away from zero. */
  predicate Divisor(b: Enclosure) { b.lower > 0.0 || b.upper < 0.0 }

  function Divided(r: Rounding, a: Enclosure, b: Enclosure): Enclosure
    requires Divisor(b) && b.lower <= b.upper
  {
    var ll, lu := Over(a.lower, b.lower), Over(a.lower, b.upper);
    var ul, uu := Over(a.upper, b.lower), Over(a.upper, b.upper);
    Enclosure(Min4(r.down(ll), r.down(lu), r.down(ul), r.down(uu)), Max4(r.up(ll), r.up(lu), r.up(ul), r.up(uu)))
  }

  // ----- soundness -----

  lemma PlusHolds(r: Rounding, a: Enclosure, b: Enclosure, x: real, y: real)
    requires Directed(r) && Holds(a, x) && Holds(b, y)
    ensures Holds(Plus(r, a, b), x + y) && Holds(Minus(r, a, b), x - y)
  {
  }

  /** A product is between the products of the ends, one factor at a time. */
  lemma TimesBetween(a: real, x: real, b: real, y: real)
    requires a <= x <= b
    ensures Min(Times(a, y), Times(b, y)) <= Times(x, y) <= Max(Times(a, y), Times(b, y))
  {
    hide Times;
    if y >= 0.0 {
      TimesMono(a, x, y);
      TimesMono(x, b, y);
    } else {
      TimesMono(a, x, -y);
      TimesMono(x, b, -y);
      TimesSigns(a, y);
      TimesSigns(x, y);
      TimesSigns(b, y);
    }
  }

  lemma TimesCorners(a: real, x: real, b: real, c: real, y: real, d: real)
    requires a <= x <= b && c <= y <= d
    ensures Min4(Times(a, c), Times(a, d), Times(b, c), Times(b, d)) <= Times(x, y)
         <= Max4(Times(a, c), Times(a, d), Times(b, c), Times(b, d))
  {
    hide Times;
    TimesBetween(a, x, b, y);
    TimesBetween(c, y, d, a);
    TimesBetween(c, y, d, b);
    TimesSwap(a, y);
    TimesSwap(b, y);
    TimesSwap(a, c);
    TimesSwap(a, d);
    TimesSwap(b, c);
    TimesSwap(b, d);
  }

  /** Rounding the corners outward keeps what they enclose. */
  lemma CornersRounded(r: Rounding, p: real, q: real, s: real, t: real, z: real)
    requires Directed(r) && Min4(p, q, s, t) <= z <= Max4(p, q, s, t)
    ensures Min4(r.down(p), r.down(q), r.down(s), r.down(t)) <= z <= Max4(r.up(p), r.up(q), r.up(s), r.up(t))
  {
  }

  lemma MultipliedHolds(r: Rounding, a: Enclosure, b: Enclosure, x: real, y: real)
    requires Directed(r) && Holds(a, x) && Holds(b, y)
    ensures Holds(Multiplied(r, a, b), Times(x, y))
  {
    hide Times, Directed, Min4, Max4;
    TimesCorners(a.lower, x, a.upper, b.lower, y, b.upper);
    CornersRounded(r, Times(a.lower, b.lower), Times(a.lower, b.upper), Times(a.upper, b.lower), Times(a.upper, b.upper), Times(x, y));
  }

  lemma OverIsTimes(x: real, y: real)
    requires y != 0.0
    ensures Over(x, y) == Times(x, Over(1.0, y))
  {
    hide Times, Over;
    OverTimes(1.0, y);
    TimesAssoc(x, Over(1.0, y), y);
    TimesSwap(x, 1.0);
    TimesSigns(1.0, x);
    OverOnly(x, y, Times(x, Over(1.0, y)));
  }

  lemma InverseOrder(c: real, d: real)
    requires c <= d && (c > 0.0 || d < 0.0)
    ensures Over(1.0, d) <= Over(1.0, c)
  {
    hide Times, Over;
    if c > 0.0 {
      OverBound(1.0, 1.0, d, c);
    } else {
      OverBound(1.0, 1.0, -c, -d);
      OverNegated(1.0, c);
      OverNegated(1.0, d);
    }
  }

  lemma OverNegated(n: real, d: real)
    requires d != 0.0
    ensures Over(n, -d) == -Over(n, d)
  {
    hide Times, Over;
    OverTimes(n, d);
    TimesSigns(Over(n, d), d);
    TimesSigns(Over(n, d), -d);
    TimesSigns(-Over(n, d), -d);
    OverOnly(n, -d, -Over(n, d));
  }

  lemma DividedHolds(r: Rounding, a: Enclosure, b: Enclosure, x: real, y: real)
    requires Directed(r) && Holds(a, x) && Holds(b, y) && Divisor(b)
    ensures Holds(Divided(r, a, b), Over(x, y))
  {
    hide Times, Over, Directed;
    InverseOrder(b.lower, y);
    InverseOrder(y, b.upper);
    OverIsTimes(x, y);
    OverIsTimes(a.lower, b.lower);
    OverIsTimes(a.lower, b.upper);
    OverIsTimes(a.upper, b.lower);
    OverIsTimes(a.upper, b.upper);
    TimesCorners(a.lower, x, a.upper, Over(1.0, b.upper), Over(1.0, y), Over(1.0, b.lower));
    CornersRounded(r, Over(a.lower, b.lower), Over(a.lower, b.upper), Over(a.upper, b.lower), Over(a.upper, b.upper), Over(x, y));
  }

  // ----- without rounding -----

  ghost predicate Unrounded(r: Rounding) { forall x :: r.down(x) == x == r.up(x) }

  /** Without rounding an operation on single values gives the single exact result. */
  lemma UnroundedResults(r: Rounding, x: real, y: real)
    requires Unrounded(r)
    ensures Plus(r, Exactly(x), Exactly(y)) == Exactly(x + y)
    ensures Minus(r, Exactly(x), Exactly(y)) == Exactly(x - y)
    ensures Multiplied(r, Exactly(x), Exactly(y)) == Exactly(Times(x, y))
    ensures y != 0.0 ==> Divided(r, Exactly(x), Exactly(y)) == Exactly(Over(x, y))
  {
    hide Times, Over;
  }
}
