/** Enclosing sine and cosine (`trigonometric`): the partial Taylor sum and a
    geometric bound on everything after it. */
module Trigonometric {

  import opened Text
  import opened Reals
  import opened Enclosures

  const TERMS: nat := 80

  // ----- the exact series -----

  /** The first factor of the denominator after term `k`. */
  function First(sine: bool, k: nat): int { 2 * k + (if sine then 2 else 1) }

  function Denominator(sine: bool, k: nat): (d: real)
    ensures d >= 2.0
  {
    (First(sine, k) * (First(sine, k) + 1)) as real
  }

  function Term(x: real, sine: bool, k: nat): real {
    if k == 0 then (if sine then x else 1.0)
    else -Over(Times(Term(x, sine, k - 1), Times(x, x)), Denominator(sine, k - 1))
  }

  /** The sum of the first `n` terms. */
  function Partial(x: real, sine: bool, n: nat): real {
    if n == 0 then 0.0 else Partial(x, sine, n - 1) + Term(x, sine, n - 1)
  }

  function Power(x: real, n: nat): real { if n == 0 then 1.0 else Times(Power(x, n - 1), x) }

  function Factorial(n: nat): (r: real)
    ensures r > 0.0
  {
    if n == 0 then 1.0 else
      TimesSigns(Factorial(n - 1), n as real);
      Times(Factorial(n - 1), n as real)
  }

  function Degree(sine: bool, k: nat): nat { 2 * k + (if sine then 1 else 0) }

  function Signed(k: nat, v: real): real { if k % 2 == 0 then v else -v }

  /** The terms are those of the Taylor series: (-1)^k x^n / n!, where n is 2k + 1
      for the sine and 2k for the cosine. */
  lemma {:induction false} TermIsTaylor(x: real, sine: bool, k: nat)
    ensures Term(x, sine, k) == Signed(k, Over(Power(x, Degree(sine, k)), Factorial(Degree(sine, k))))
  {
    hide Times, Over;
    if k == 0 {
      TimesSigns(1.0, x);
      TimesSigns(1.0, 1.0);
      assert Power(x, 0) == 1.0 && Factorial(0) == 1.0;
      assert sine ==> Power(x, 1) == x && Factorial(1) == 1.0;
      TimesSwap(x, 1.0);
      OverOnly(x, 1.0, x);
      OverOnly(1.0, 1.0, 1.0);
    } else {
      TermIsTaylor(x, sine, k - 1);
      NextTaylor(x, sine, k - 1);
    }
  }

  /** One more step of the series multiplies by x^2 and two factors of the factorial. */
  lemma NextTaylor(x: real, sine: bool, k: nat)
    requires Term(x, sine, k) == Signed(k, Over(Power(x, Degree(sine, k)), Factorial(Degree(sine, k))))
    ensures Term(x, sine, k + 1) == Signed(k + 1, Over(Power(x, Degree(sine, k + 1)), Factorial(Degree(sine, k + 1))))
  {
    hide Times, Over;
    var n := Degree(sine, k);
    var p, f, d, x2 := Power(x, n), Factorial(n), Denominator(sine, k), Times(x, x);
    var v := Over(p, f);
    PowerTwo(x, n);
    FactorialTwo(sine, k);
    OverTimes(p, f);
    TimesSigns(v, x2);
    // v * x^2 / d == p * x^2 / (f * d)
    OverTimes(Times(v, x2), d);
    var u := Over(Times(v, x2), d);
    TimesSwap(f, d);
    TimesAssoc(u, d, f);
    TimesSwap(v, x2);
    TimesAssoc(x2, v, f);
    TimesSwap(x2, p);
    OverOnly(Times(p, x2), Times(f, d), u);
    OverNegatedTop(Times(v, x2), d);
  }

  lemma OverNegatedTop(n: real, d: real)
    requires d != 0.0
    ensures Over(-n, d) == -Over(n, d)
  {
    hide Times, Over;
    OverTimes(n, d);
    TimesSigns(Over(n, d), d);
    OverOnly(-n, d, -Over(n, d));
  }

  lemma PowerTwo(x: real, n: nat)
    ensures Power(x, n + 2) == Times(Power(x, n), Times(x, x))
  {
    hide Times;
    TimesAssoc(Power(x, n), x, x);
  }

  lemma FactorialTwo(sine: bool, k: nat)
    ensures Factorial(Degree(sine, k + 1)) == Times(Factorial(Degree(sine, k)), Denominator(sine, k))
  {
    var n := Degree(sine, k);
    hide Factorial;
    FactorialStep(n);
    FactorialStep(n + 1);
    hide Times;
    TimesAssoc(Factorial(n), (n + 1) as real, (n + 2) as real);
    ProductOfInts(n + 1, n + 2);
  }

  lemma FactorialStep(n: nat)
    ensures Factorial(n + 1) == Times(Factorial(n), (n + 1) as real)
  {
  }

  lemma ProductOfInts(a: int, b: int)
    ensures Times(a as real, b as real) == (a * b) as real
  {
  }

  // ----- the tail -----

  /** The bound on the ratio of consecutive terms from `TERMS` on, for |x| <= 8. */
  function Ratio(sine: bool): (q: real)
    ensures 0.0 < q < 1.0
  {
    RatioRange(sine);
    Over(64.0, Denominator(sine, TERMS))
  }

  lemma RatioRange(sine: bool)
    ensures 0.0 < Over(64.0, Denominator(sine, TERMS)) < 1.0
  {
    hide Times, Over;
    var d := Denominator(sine, TERMS);
    assert d > 64.0 by { assert First(sine, TERMS) * (First(sine, TERMS) + 1) > 64; }
    OverTimes(64.0, d);
    var q := Over(64.0, d);
    OverNotNegative(64.0, d);
    TimesSigns(1.0, d);
    TimesSigns(0.0, d);
    if q >= 1.0 {
      TimesMono(1.0, q, d);
    }
  }

  lemma SquareAtMost(x: real)
    requires Abs(x) <= 8.0
    ensures 0.0 <= Times(x, x) <= 64.0
  {
    hide Times;
    TimesBound(x, x, 8.0, 8.0);
    assert Times(8.0, 8.0) == 64.0 by { EightSquared(); }
    TimesMagnitude(x, x);
    TimesSigns(Abs(x), Abs(x));
    TimesSigns(x, x);
    TimesSigns(-x, x);
    TimesSigns(-x, -x);
  }

  lemma EightSquared()
    ensures Times(8.0, 8.0) == 64.0
  {
  }

  lemma DenominatorRises(sine: bool, k: nat)
    requires k >= TERMS
    ensures Denominator(sine, k) >= Denominator(sine, TERMS)
  {
    var a, b := First(sine, TERMS), First(sine, k);
    assert a * (a + 1) <= b * (b + 1) by { IntMono(a, b); }
  }

  lemma IntMono(a: int, b: int)
    requires 0 <= a <= b
    ensures a * (a + 1) <= b * (b + 1)
  {
    assert b * (b + 1) - a * (a + 1) == (b - a) * (a + b + 1);
  }

  /** From `TERMS` on each term is at most `Ratio` times the one before. */
  lemma TermShrinks(x: real, sine: bool, k: nat)
    requires Abs(x) <= 8.0 && k >= TERMS
    ensures Abs(Term(x, sine, k + 1)) <= Times(Ratio(sine), Abs(Term(x, sine, k)))
  {
    hide Times, Over, Denominator;
    var t, d, low, x2 := Term(x, sine, k), Denominator(sine, k), Denominator(sine, TERMS), Times(x, x);
    var n := Times(t, x2);
    assert Term(x, sine, k + 1) == -Over(n, d);
    hide Term;
    SquareAtMost(x);
    DenominatorRises(sine, k);
    OverMagnitude(n, d);
    TimesBound(t, x2, Abs(t), 64.0);
    OverBound(Abs(n), Times(Abs(t), 64.0), d, low);
    // |t| * 64 / low == (64 / low) * |t|
    var q := Over(64.0, low);
    OverTimes(64.0, low);
    TimesAssoc(Abs(t), q, low);
    OverOnly(Times(Abs(t), 64.0), low, Times(Abs(t), q));
    TimesSwap(Abs(t), q);
  }

  /** What a geometric tail that starts at `t` adds up to. */
  function Tail(sine: bool, t: real): real { Over(t, 1.0 - Ratio(sine)) }

  lemma TailStep(sine: bool, t: real, next: real)
    requires t >= 0.0 && 0.0 <= next <= Times(Ratio(sine), t)
    ensures t + Tail(sine, next) <= Tail(sine, t)
  {
    hide Times, Over, Ratio;
    var q := Ratio(sine);
    var g := 1.0 - q;
    OverBound(next, Times(q, t), g, g);
    var u := Tail(sine, t);
    OverTimes(t, g);
    // u - t == q * u, and q * t / (1 - q) == q * u
    TimesAssoc(q, u, g);
    OverOnly(Times(q, t), g, Times(q, u));
    TimesSum(u, 1.0, -q);
    TimesSigns(q, u);
    TimesSigns(1.0, u);
    TimesSwap(u, 1.0);
    TimesSwap(u, q);
    TimesSigns(u, q);
  }

  /** Every later partial sum, with the geometric tail after it, stays within the
      geometric tail of the first omitted term. */
  lemma {:induction false} TailCovers(x: real, sine: bool, n: nat)
    requires Abs(x) <= 8.0 && n >= TERMS
    ensures Abs(Partial(x, sine, n) - Partial(x, sine, TERMS)) + Tail(sine, Abs(Term(x, sine, n)))
         <= Tail(sine, Abs(Term(x, sine, TERMS)))
  {
    hide Term, Tail;
    if n > TERMS {
      TailCovers(x, sine, n - 1);
      TermShrinks(x, sine, n - 1);
      TailStep(sine, Abs(Term(x, sine, n - 1)), Abs(Term(x, sine, n)));
      assert Partial(x, sine, n) == Partial(x, sine, n - 1) + Term(x, sine, n - 1);
    }
  }

  lemma TailNotNegative(sine: bool, t: real)
    requires t >= 0.0
    ensures Tail(sine, t) >= 0.0
  {
    OverNotNegative(t, 1.0 - Ratio(sine));
  }

  // ----- the program -----

  /** The enclosure of `1 - ratio` keeps away from zero, so the remainder exists. */
  predicate RatioUsable(r: Rounding, sine: bool) {
    RatioRange(sine);
    r.down(1.0 - r.up(Over(64.0, Denominator(sine, TERMS)))) > 0.0
  }

  /** The enclosure for an argument; none when the rounding is so coarse that the
      bound on the remainder divides by an interval around zero. */
  method Trigonometric(r: Rounding, x: real, sine: bool) returns (e: Option<Enclosure>)
    requires Directed(r)
    ensures e.Some? ==> RatioUsable(r, sine)
    ensures RatioUsable(r, sine) ==> e.Some?
    ensures e.Some? && Abs(x) <= 8.0 ==> forall n :: n >= TERMS ==> Holds(e.value, Partial(x, sine, n))
    ensures Unrounded(r) ==> e == Some(UnroundedEnclosure(x, sine))
  {
    hide Times, Over, Directed, Denominator, Plus, Minus, Multiplied, Divided, Term, Unrounded, UnroundedEnclosure;
    var interval := Exactly(x);
    var squared := Multiplied(r, interval, interval);
    MultipliedHolds(r, interval, interval, x, x);
    var term := if sine then interval else Exactly(1.0);
    var total := Exactly(0.0);
    FirstTerm(x, sine);
    var index := 0;
    UnroundedSquare(r, x);
    while index < TERMS
      invariant index <= TERMS
      invariant Holds(term, Term(x, sine, index)) && Holds(total, Partial(x, sine, index))
      invariant Unrounded(r) ==> term == Exactly(Term(x, sine, index)) && total == Exactly(Partial(x, sine, index))
    {
      UnroundedNext(r, x, sine, index);
      PlusHolds(r, total, term, Partial(x, sine, index), Term(x, sine, index));
      total := Plus(r, total, term);
      var denominator := Exactly(Denominator(sine, index));
      NextHolds(r, x, sine, index, term, squared);
      term := Divided(r, Multiplied(r, term, squared), denominator);
      term := Multiplied(r, term, Exactly(-1.0));
      index := index + 1;
    }
    hide Partial;
    var omitted := Max(Abs(term.lower), Abs(term.upper));
    OmittedCovers(term, Term(x, sine, TERMS));
    var ratio := Divided(r, Exactly(64.0), Exactly(Denominator(sine, TERMS)));
    DividedHolds(r, Exactly(64.0), Exactly(Denominator(sine, TERMS)), 64.0, Denominator(sine, TERMS));
    var rest := Minus(r, Exactly(1.0), ratio);
    PlusHolds(r, Exactly(1.0), ratio, 1.0, Ratio(sine));
    RestLower(r, sine);
    UnroundedRest(r, x, sine);
    if rest.lower <= 0.0 { return None; }
    var remainder := Divided(r, Exactly(omitted), rest).upper;
    DividedHolds(r, Exactly(omitted), rest, omitted, 1.0 - Ratio(sine));
    TailNotNegative(sine, omitted);
    e := Some(Plus(r, total, Enclosure(-remainder, remainder)));
    if Abs(x) <= 8.0 {
      forall n | n >= TERMS ensures Holds(e.value, Partial(x, sine, n)) {
        Finish(r, x, sine, total, omitted, remainder, n);
      }
    }
  }

  /** Without rounding: the sum of the first 80 terms, give or take the geometric tail
      of the next one. */
  function UnroundedEnclosure(x: real, sine: bool): Enclosure {
    var tail := Tail(sine, Abs(Term(x, sine, 80)));
    Enclosure(Partial(x, sine, 80) - tail, Partial(x, sine, 80) + tail)
  }

  lemma UnroundedSquare(r: Rounding, x: real)
    ensures Unrounded(r) ==> Multiplied(r, Exactly(x), Exactly(x)) == Exactly(Times(x, x))
  {
    if Unrounded(r) {
      UnroundedResults(r, x, x);
    }
  }

  lemma UnroundedNext(r: Rounding, x: real, sine: bool, k: nat)
    ensures Unrounded(r) ==>
      && Plus(r, Exactly(Partial(x, sine, k)), Exactly(Term(x, sine, k))) == Exactly(Partial(x, sine, k + 1))
      && Multiplied(r,
           Divided(r, Multiplied(r, Exactly(Term(x, sine, k)), Exactly(Times(x, x))), Exactly(Denominator(sine, k))),
           Exactly(-1.0)) == Exactly(Term(x, sine, k + 1))
  {
    hide Times, Over, Denominator, Plus, Multiplied, Divided;
    if Unrounded(r) {
      var t, x2, d := Term(x, sine, k), Times(x, x), Denominator(sine, k);
      var u := Over(Times(t, x2), d);
      UnroundedResults(r, Partial(x, sine, k), t);
      UnroundedResults(r, t, x2);
      UnroundedResults(r, Times(t, x2), d);
      UnroundedResults(r, u, -1.0);
      TimesSwap(u, -1.0);
      TimesSigns(1.0, u);
    }
  }

  /** Without rounding the rest of the computation is exact too. */
  lemma UnroundedRest(r: Rounding, x: real, sine: bool)
    ensures Unrounded(r) ==>
      var t, p := Abs(Term(x, sine, TERMS)), Partial(x, sine, TERMS);
      var rest := Minus(r, Exactly(1.0), Divided(r, Exactly(64.0), Exactly(Denominator(sine, TERMS))));
      && rest == Exactly(1.0 - Ratio(sine))
      && Divided(r, Exactly(t), Exactly(1.0 - Ratio(sine))).upper == Tail(sine, t)
      && Plus(r, Exactly(p), Enclosure(-Tail(sine, t), Tail(sine, t))) == UnroundedEnclosure(x, sine)
  {
    hide Times, Over, Denominator, Term, Partial;
    if Unrounded(r) {
      UnroundedResults(r, 64.0, Denominator(sine, TERMS));
      UnroundedResults(r, 1.0, Ratio(sine));
      UnroundedResults(r, Abs(Term(x, sine, TERMS)), 1.0 - Ratio(sine));
    }
  }

  lemma FirstTerm(x: real, sine: bool)
    ensures Term(x, sine, 0) == (if sine then x else 1.0)
  {
  }

  lemma NextHolds(r: Rounding, x: real, sine: bool, k: nat, term: Enclosure, squared: Enclosure)
    requires Directed(r) && Holds(term, Term(x, sine, k)) && Holds(squared, Times(x, x))
    ensures Holds(
      Multiplied(r, Divided(r, Multiplied(r, term, squared), Exactly(Denominator(sine, k))), Exactly(-1.0)), Term(x, sine, k + 1))
  {
    hide Times, Over, Directed, Denominator, Multiplied, Divided;
    var t, x2, d := Term(x, sine, k), Times(x, x), Denominator(sine, k);
    MultipliedHolds(r, term, squared, t, x2);
    var product := Multiplied(r, term, squared);
    DividedHolds(r, product, Exactly(d), Times(t, x2), d);
    var quotient := Divided(r, product, Exactly(d));
    var u := Over(Times(t, x2), d);
    MultipliedHolds(r, quotient, Exactly(-1.0), u, -1.0);
    TimesSwap(u, -1.0);
    TimesSigns(1.0, u);
  }

  lemma OmittedCovers(term: Enclosure, t: real)
    requires Holds(term, t)
    ensures Abs(t) <= Max(Abs(term.lower), Abs(term.upper))
  {
  }

  lemma RestLower(r: Rounding, sine: bool)
    ensures Minus(r, Exactly(1.0), Divided(r, Exactly(64.0), Exactly(Denominator(sine, TERMS)))).lower
         == r.down(1.0 - r.up(Over(64.0, Denominator(sine, TERMS))))
  {
    hide Times, Over, Denominator;
  }

  lemma Finish(r: Rounding, x: real, sine: bool, total: Enclosure, omitted: real, remainder: real, n: nat)
    requires Directed(r) && Abs(x) <= 8.0 && n >= TERMS
    requires Holds(total, Partial(x, sine, TERMS)) && Abs(Term(x, sine, TERMS)) <= omitted
    requires Over(omitted, 1.0 - Ratio(sine)) <= remainder
    ensures Holds(Plus(r, total, Enclosure(-remainder, remainder)), Partial(x, sine, n))
  {
    hide Times, Over, Directed, Term, Partial, Ratio;
    TailCovers(x, sine, n);
    TailNotNegative(sine, Abs(Term(x, sine, n)));
    var g := 1.0 - Ratio(sine);
    OverBound(Abs(Term(x, sine, TERMS)), omitted, g, g);
    PlusHolds(r, total, Enclosure(-remainder, remainder), Partial(x, sine, TERMS),
      Partial(x, sine, n) - Partial(x, sine, TERMS));
  }

  // ----- the functions themselves -----

  /** `limit` is approached by the partial sums, as the sine or cosine is. */
  ghost predicate LimitOf(x: real, sine: bool, limit: real) {
    forall e :: e > 0.0 ==> NearLater(x, sine, limit, e)
  }

  ghost predicate NearLater(x: real, sine: bool, limit: real, e: real) {
    exists n :: n >= TERMS && Abs(Partial(x, sine, n) - limit) < e
  }

  lemma LimitNear(x: real, sine: bool, limit: real, e: Enclosure, gap: real)
    requires LimitOf(x, sine, limit) && gap > 0.0 && forall n :: n >= TERMS ==> Holds(e, Partial(x, sine, n))
    ensures e.lower - gap < limit < e.upper + gap
  {
    hide Partial;
    assert NearLater(x, sine, limit, gap);
  }

  /** An enclosure of every late partial sum holds their limit too. */
  lemma LimitEnclosed(x: real, sine: bool, limit: real, e: Enclosure)
    requires LimitOf(x, sine, limit) && forall n :: n >= TERMS ==> Holds(e, Partial(x, sine, n))
    ensures Holds(e, limit)
  {
    hide Partial, LimitOf;
    if limit < e.lower {
      LimitNear(x, sine, limit, e, e.lower - limit);
    } else if limit > e.upper {
      LimitNear(x, sine, limit, e, limit - e.upper);
    }
  }
}
