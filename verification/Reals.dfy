/** Named exact arithmetic over the reals. Proofs hide `Times` and `Over` and use
    the laws, so that no nonlinear term reaches the solver. */
module Reals {

  function Abs(x: real): real { if x < 0.0 then -x else x }

  function Min(a: real, b: real): real { if b < a then b else a }

  function Max(a: real, b: real): real { if a < b then b else a }

  /** The whole part, toward zero. */
  function Trunc(r: real): int { if r >= 0.0 then r.Floor else -((-r).Floor) }

  function Times(a: real, b: real): real { a * b }

  function Over(a: real, b: real): real
    requires b != 0.0
  {
    a / b
  }

  /** `ka * a + kb * b` */
  function Weighted(ka: real, a: real, kb: real, b: real): real { Times(ka, a) + Times(kb, b) }

  // ----- laws -----

  lemma TimesSwap(a: real, b: real) ensures Times(a, b) == Times(b, a) {}

  lemma TimesAssoc(a: real, b: real, c: real) ensures Times(a, Times(b, c)) == Times(Times(a, b), c) {}

  lemma TimesSum(a: real, b: real, c: real)
    ensures Times(a, b + c) == Times(a, b) + Times(a, c) && Times(b + c, a) == Times(b, a) + Times(c, a)
  {
  }

  lemma TimesMono(a: real, b: real, c: real)
    requires a <= b && c >= 0.0
    ensures Times(a, c) <= Times(b, c) && Times(c, a) <= Times(c, b)
  {
  }

  lemma TimesSigns(a: real, b: real)
    ensures a >= 0.0 && b >= 0.0 ==> Times(a, b) >= 0.0
    ensures a > 0.0 && b > 0.0 ==> Times(a, b) > 0.0
    ensures a != 0.0 && b != 0.0 ==> Times(a, b) != 0.0
    ensures Times(-a, b) == -Times(a, b) && Times(a, -b) == -Times(a, b)
    ensures Times(a, 0.0) == 0.0 && Times(0.0, b) == 0.0 && Times(1.0, b) == b && Times(-1.0, b) == -b
  {
  }

  lemma TimesMagnitude(a: real, b: real)
    ensures Abs(Times(a, b)) == Times(Abs(a), Abs(b))
  {
    hide Times;
    TimesSigns(a, b);
    TimesSigns(a, -b);
    TimesSigns(-a, b);
    TimesSigns(-a, -b);
  }

  lemma SquareOf(y: real)
    requires y != 0.0
    ensures Times(y, y) == Times(Abs(y), Abs(y)) && Times(y, y) > 0.0
  {
    hide Times;
    TimesMagnitude(y, y);
    TimesSigns(Abs(y), Abs(y));
    TimesSigns(-y, y);
    TimesSigns(-y, -y);
  }

  /** A bound on a scaled difference. */
  lemma TimesBound(a: real, b: real, p: real, q: real)
    requires Abs(a) <= p && Abs(b) <= q
    ensures Abs(Times(a, b)) <= Times(p, q)
  {
    hide Times;
    TimesMagnitude(a, b);
    TimesMono(Abs(b), q, Abs(a));
    TimesMono(Abs(a), p, q);
  }

  lemma OverTimes(n: real, d: real)
    requires d != 0.0
    ensures Times(Over(n, d), d) == n
  {
  }

  lemma OverOnly(n: real, d: real, r: real)
    requires d != 0.0 && Times(r, d) == n
    ensures Over(n, d) == r
  {
    assert (Over(n, d) - r) * d == 0.0;
  }

  lemma OverMagnitude(n: real, d: real)
    requires d != 0.0
    ensures Abs(Over(n, d)) == Over(Abs(n), Abs(d))
  {
    hide Times, Over;
    OverTimes(n, d);
    TimesMagnitude(Over(n, d), d);
    OverOnly(Abs(n), Abs(d), Abs(Over(n, d)));
  }

  lemma {:induction false} TimesLess(a: real, b: real, c: real)
    requires a < b && c > 0.0
    ensures Times(a, c) < Times(b, c)
  {
  }

  lemma OverBound(n: real, bound: real, d: real, low: real)
    requires 0.0 <= n <= bound && 0.0 < low <= d
    ensures Over(n, d) <= Over(bound, low)
  {
    hide Times, Over;
    var u, v := Over(n, d), Over(bound, low);
    OverTimes(n, d);
    OverTimes(bound, low);
    if v < u {
      OverNotNegative(bound, low);
      TimesLess(v, u, low);
      TimesMono(low, d, u);
    }
  }

  lemma OverNotNegative(n: real, d: real)
    requires n >= 0.0 && d > 0.0
    ensures Over(n, d) >= 0.0
  {
    hide Times, Over;
    OverTimes(n, d);
    if Over(n, d) < 0.0 {
      TimesLess(Over(n, d), 0.0, d);
      TimesSigns(0.0, d);
    }
  }

  lemma SumOfTwo(a: real, b: real, p: real, q: real)
    requires Abs(a) <= p && Abs(b) <= q
    ensures Abs(a - b) <= p + q && Abs(a + b) <= p + q
  {
  }

  lemma SumOfThree(a: real, b: real, c: real, p: real, q: real, r: real)
    requires Abs(a) <= p && Abs(b) <= q && Abs(c) <= r
    ensures Abs(a + b + c) <= p + q + r
  {
  }
}
