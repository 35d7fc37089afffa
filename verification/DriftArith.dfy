/** What the gap between two products, and between two quotients, leaves past first
    order. */
module DriftArith {

  import opened Reals

  // ----- products -----

  function MulRest(x: real, y: real, rx: real, ry: real, p: real, q: real): real {
    Times(Abs(y), rx) + Times(Abs(x), ry) + Times(p, q)
  }

  lemma ProductGap(x: real, y: real, dx: real, dy: real, sx: real, sy: real)
    ensures Times(x + dx, y + dy) - Times(x, y) - Weighted(y, sx, x, sy)
         == Times(y, dx - sx) + Times(x, dy - sy) + Times(dx, dy)
  {
  }

  /** What the gap of a product leaves past first order. `p` and `q` bound the two
      factors' gaps, `rx` and `ry` what their own forms leave over. */
  lemma MulRemainder(x: real, y: real, dx: real, dy: real, sx: real, sy: real, rx: real, ry: real, p: real, q: real)
    requires Abs(dx - sx) <= rx && Abs(dy - sy) <= ry && Abs(dx) <= p && Abs(dy) <= q
    ensures Abs(Times(x + dx, y + dy) - Times(x, y) - Weighted(y, sx, x, sy)) <= MulRest(x, y, rx, ry, p, q)
  {
    TimesBound(y, dx - sx, Abs(y), rx);
    TimesBound(x, dy - sy, Abs(x), ry);
    TimesBound(dx, dy, p, q);
    ProductGap(x, y, dx, dy, sx, sy);
    hide Abs, Times, Weighted;
    SumOfThree(Times(y, dx - sx), Times(x, dy - sy), Times(dx, dy), Times(Abs(y), rx), Times(Abs(x), ry), Times(p, q));
  }

  // ----- quotients -----

  lemma Powers(a: real)
    requires a > 0.0
    ensures Times(a, a) > 0.0 && Times(Times(a, a), a) > 0.0
  {
    hide Times;
    TimesSigns(a, a);
    TimesSigns(Times(a, a), a);
  }

  lemma RatioBelowOne(q: real, a: real)
    requires q < a && a > 0.0
    ensures Over(q, a) < 1.0 && Times(1.0 - Over(q, a), a) == a - q
  {
    hide Times, Over;
    OverTimes(q, a);
    TimesSigns(1.0, a);
    TimesSum(a, 1.0, -Over(q, a));
    TimesSigns(Over(q, a), a);
    if Over(q, a) >= 1.0 {
      TimesMono(1.0, Over(q, a), a);
    }
  }

  /** The second-order term of a quotient. */
  function Second(x: real, y: real, p: real, q: real): real
    requires y != 0.0 && q < Abs(y)
  {
    var a := Abs(y);
    SquareOf(y);
    Powers(a);
    RatioBelowOne(q, a);
    Over(Over(Times(Times(Abs(x), q), q), Times(Times(a, a), a)) + Over(Times(p, q), Times(y, y)), 1.0 - Over(q, a))
  }

  lemma SecondCleared(a: real, q: real, m: real, k: real, s: real, t: real, w: real, r: real)
    requires Times(s, Times(Times(a, a), a)) == m && Times(t, Times(a, a)) == k
    requires Times(r, w) == s + t && Times(w, a) == a - q
    ensures Times(r, Times(Times(a, a), a - q)) == m + Times(k, a)
  {
    hide Times;
    var a2 := Times(a, a);
    TimesSwap(w, a);
    TimesAssoc(a2, a, w);
    TimesSwap(Times(a2, a), w);
    TimesAssoc(r, w, Times(a2, a));
    TimesSum(Times(a2, a), s, t);
    TimesAssoc(t, a2, a);
  }

  lemma SecondNumerator(x: real, a: real, p: real, q: real)
    ensures Times(Times(x, q) + Times(p, a), q) == Times(Times(x, q), q) + Times(Times(p, q), a)
  {
  }

  /** The second-order term over one denominator. */
  lemma SecondIs(x: real, y: real, p: real, q: real)
    requires y != 0.0 && q < Abs(y)
    ensures Times(Times(Abs(y), Abs(y)), Abs(y) - q) > 0.0
    ensures Second(x, y, p, q) ==
      Over(Times(Times(Abs(x), q) + Times(p, Abs(y)), q), Times(Times(Abs(y), Abs(y)), Abs(y) - q))
  {
    hide Times, Over;
    var a := Abs(y);
    SquareOf(y);
    Powers(a);
    RatioBelowOne(q, a);
    TimesSigns(Times(a, a), a - q);
    var m, k := Times(Times(Abs(x), q), q), Times(p, q);
    var s, t, w := Over(m, Times(Times(a, a), a)), Over(k, Times(a, a)), 1.0 - Over(q, a);
    OverTimes(m, Times(Times(a, a), a));
    OverTimes(k, Times(a, a));
    OverTimes(s + t, w);
    SecondCleared(a, q, m, k, s, t, w, Over(s + t, w));
    SecondNumerator(Abs(x), a, p, q);
    OverOnly(m + Times(k, a), Times(Times(a, a), a - q), Over(s + t, w));
  }

  lemma GapIdentity(x: real, y: real, dx: real, dy: real)
    ensures Times(x + dx, Times(y, y)) - Times(x, Times(y, y + dy))
         == Times(Times(dx, y) - Times(x, dy), y + dy) - Times(Times(dx, y) - Times(x, dy), dy)
  {
  }

  lemma GapCleared(x: real, y: real, dx: real, dy: real, u: real, v: real, w: real, g: real)
    requires Times(u, y + dy) == x + dx && Times(v, y) == x && Times(w, Times(y, y)) == g
    requires g == Times(dx, y) - Times(x, dy)
    ensures Times(v + w - u, Times(Times(y, y), y + dy)) == Times(g, dy)
  {
    hide Times;
    var y2, d := Times(y, y), Times(Times(y, y), y + dy);
    TimesSum(d, v + w, -u);
    TimesSum(d, v, w);
    TimesSigns(u, d);
    TimesSwap(y2, y + dy);
    TimesAssoc(u, y + dy, y2);
    TimesAssoc(y, y, y + dy);
    TimesAssoc(v, y, Times(y, y + dy));
    TimesAssoc(w, y2, y + dy);
    GapIdentity(x, y, dx, dy);
  }

  /** What the gap of a quotient leaves past first order, exactly. */
  lemma QuotientGap(x: real, y: real, dx: real, dy: real, g: real)
    requires y != 0.0 && y + dy != 0.0 && g == Times(dx, y) - Times(x, dy)
    ensures Times(y, y) != 0.0 && Times(Times(y, y), y + dy) != 0.0
    ensures Over(x + dx, y + dy) - Over(x, y) - Over(g, Times(y, y)) == -Over(Times(g, dy), Times(Times(y, y), y + dy))
  {
    hide Times, Over;
    SquareOf(y);
    TimesSigns(Times(y, y), y + dy);
    var u, v, w := Over(x + dx, y + dy), Over(x, y), Over(g, Times(y, y));
    OverTimes(x + dx, y + dy);
    OverTimes(x, y);
    OverTimes(g, Times(y, y));
    GapCleared(x, y, dx, dy, u, v, w, g);
    OverOnly(Times(g, dy), Times(Times(y, y), y + dy), v + w - u);
  }

  lemma CrossBound(x: real, y: real, dx: real, dy: real, p: real, q: real)
    requires Abs(dx) <= p && Abs(dy) <= q
    ensures Abs(Times(Times(dx, y) - Times(x, dy), dy)) <= Times(Times(Abs(x), q) + Times(p, Abs(y)), q)
  {
    TimesBound(dx, y, p, Abs(y));
    TimesBound(x, dy, Abs(x), q);
    hide Times, Abs;
    SumOfTwo(Times(dx, y), Times(x, dy), Times(p, Abs(y)), Times(Abs(x), q));
    TimesBound(Times(dx, y) - Times(x, dy), dy, Times(Abs(x), q) + Times(p, Abs(y)), q);
  }

  lemma DenominatorBound(y: real, dy: real, q: real)
    requires Abs(dy) <= q < Abs(y)
    ensures Abs(Times(Times(y, y), y + dy)) >= Times(Times(Abs(y), Abs(y)), Abs(y) - q)
  {
    hide Times;
    SquareOf(y);
    TimesMagnitude(Times(y, y), y + dy);
    TimesMono(Abs(y) - q, Abs(y + dy), Times(y, y));
  }

  /** What a quotient's gap leaves past first order is within `Second`. */
  lemma SecondCovers(x: real, y: real, dx: real, dy: real, p: real, q: real, g: real)
    requires y != 0.0 && Abs(dx) <= p && Abs(dy) <= q < Abs(y) && g == Times(dx, y) - Times(x, dy)
    ensures y + dy != 0.0 && Times(y, y) != 0.0
    ensures Abs(Over(x + dx, y + dy) - Over(x, y) - Over(g, Times(y, y))) <= Second(x, y, p, q)
  {
    hide Times, Over, Second;
    var d := Times(Times(y, y), y + dy);
    QuotientGap(x, y, dx, dy, g);
    SecondIs(x, y, p, q);
    OverMagnitude(Times(g, dy), d);
    CrossBound(x, y, dx, dy, p, q);
    DenominatorBound(y, dy, q);
    OverBound(Abs(Times(g, dy)), Times(Times(Abs(x), q) + Times(p, Abs(y)), q), Abs(d),
      Times(Times(Abs(y), Abs(y)), Abs(y) - q));
  }

  function DivRest(x: real, y: real, rx: real, ry: real, p: real, q: real): real
    requires y != 0.0 && q < Abs(y)
  {
    SquareOf(y);
    Over(rx, Abs(y)) + Over(Times(Abs(x), ry), Times(y, y)) + Second(x, y, p, q)
  }

  /** The first-order part of a quotient's gap, as the sum of its two factors'. */
  lemma FirstOrder(x: real, y: real, dx: real, dy: real)
    requires y != 0.0
    ensures Times(y, y) != 0.0
    ensures Weighted(Over(1.0, y), dx, Over(-x, Times(y, y)), dy)
         == Over(Times(dx, y) - Times(x, dy), Times(y, y))
  {
    hide Times, Over;
    SquareOf(y);
    var y2, u, w := Times(y, y), Over(1.0, y), Over(-x, Times(y, y));
    OverTimes(1.0, y);
    OverTimes(-x, y2);
    calc {
      Times(Times(u, dx), y2);
      { TimesSwap(u, dx); TimesAssoc(dx, u, y2); TimesAssoc(u, y, y); TimesSigns(1.0, y); }
      Times(dx, y);
    }
    calc {
      Times(Times(w, dy), y2);
      { TimesSwap(w, dy); TimesAssoc(dy, w, y2); TimesSwap(dy, -x); TimesSigns(x, dy); }
      -Times(x, dy);
    }
    TimesSum(y2, Times(u, dx), Times(w, dy));
    OverOnly(Times(dx, y) - Times(x, dy), y2, Times(u, dx) + Times(w, dy));
  }

  lemma WeightedGap(ka: real, a: real, a': real, kb: real, b: real, b': real)
    ensures Weighted(ka, a, kb, b) - Weighted(ka, a', kb, b') == Times(ka, a - a') + Times(kb, b - b')
  {
  }

  lemma RatioBound(k: real, y: real, d: real, r: real)
    requires y != 0.0 && Abs(d) <= r
    ensures Abs(Times(Over(k, y), d)) <= Over(Times(Abs(k), r), Abs(y))
  {
    hide Times, Over;
    OverMagnitude(k, y);
    var u := Over(Abs(k), Abs(y));
    TimesBound(Over(k, y), d, u, r);
    OverTimes(Abs(k), Abs(y));
    TimesSwap(u, r);
    TimesAssoc(r, u, Abs(y));
    TimesSwap(r, Abs(k));
    OverOnly(Times(Abs(k), r), Abs(y), Times(u, r));
  }

  /** What the gap of a quotient leaves past first order. */
  lemma DivRemainder(x: real, y: real, dx: real, dy: real, sx: real, sy: real, rx: real, ry: real, p: real, q: real)
    requires y != 0.0 && Abs(dx - sx) <= rx && Abs(dy - sy) <= ry && Abs(dx) <= p && Abs(dy) <= q < Abs(y)
    ensures y + dy != 0.0 && Times(y, y) != 0.0
    ensures Abs(Over(x + dx, y + dy) - Over(x, y) - Weighted(Over(1.0, y), sx, Over(-x, Times(y, y)), sy))
         <= DivRest(x, y, rx, ry, p, q)
  {
    hide Times, Over, Second, Weighted;
    SquareOf(y);
    var y2, g := Times(y, y), Times(dx, y) - Times(x, dy);
    FirstOrder(x, y, dx, dy);
    SecondCovers(x, y, dx, dy, p, q, g);
    WeightedGap(Over(1.0, y), dx, sx, Over(-x, y2), dy, sy);
    RatioBound(1.0, y, dx - sx, rx);
    RatioBound(-x, y2, dy - sy, ry);
    TimesSigns(1.0, rx);
    SumOfThree(Times(Over(1.0, y), dx - sx), Times(Over(-x, y2), dy - sy),
      Over(x + dx, y + dy) - Over(x, y) - Over(g, y2), Over(rx, Abs(y)), Over(Times(Abs(x), ry), y2), Second(x, y, p, q));
  }
}
