/** The `F13.7` seconds field of `VALID FROM` / `VALID UNTIL`: an exact decimal
    fraction, the reader of the field and the writer of the field. */
module Seconds {
  import opened Text
  import opened Decimal

  /** `digits / 10^scale`, in `[0, 1)`. */
  datatype SecondFraction = SecondFraction(digits: nat, scale: nat)

  const ZERO := SecondFraction(0, 0)

  /** What the private fields can hold: no trailing zero digit, below one, `u64`. */
  predicate Normal(f: SecondFraction) {
    && f.digits <= U64_MAX
    && f.scale <= U64_MAX
    && Reduced(f)
  }

  /** Below one and without a trailing zero digit, whatever the width of its fields. */
  predicate Reduced(f: SecondFraction) {
    if f.digits == 0 then f.scale == 0
    else f.digits % 10 != 0 && DecimalDigits(f.digits) <= f.scale
  }

  /** `digits / 10^scale` with the trailing zeros of `digits` cancelled. */
  function Cancelled(digits: nat, scale: nat): (f: SecondFraction)
    requires digits != 0 && DecimalDigits(digits) <= scale
    ensures f.digits != 0 && f.digits % 10 != 0 && f.digits <= digits && f.scale <= scale
    ensures DecimalDigits(f.digits) <= f.scale
    ensures f.digits * Pow10(scale - f.scale) == digits
    decreases digits
  {
    if digits % 10 == 0 then
      var f := Cancelled(digits / 10, scale - 1);
      assert Pow10(scale - f.scale) == 10 * Pow10(scale - 1 - f.scale);
      assert f.digits * (10 * Pow10(scale - 1 - f.scale)) == 10 * (f.digits * Pow10(scale - 1 - f.scale));
      f
    else SecondFraction(digits, scale)
  }

  /** `SecondFraction::new` as a value. */
  function NewFraction(digits: nat, scale: nat): (r: Option<SecondFraction>)
    ensures r.Some? <==> digits < Pow10(scale)
    ensures r.Some? && digits <= U64_MAX && scale <= U64_MAX ==> Normal(r.value)
    ensures r.Some? ==> SameRational(r.value.digits, r.value.scale, digits, scale)
  {
    DecimalDigitsFit(digits, scale);
    if digits == 0 then Some(ZERO)
    else if DecimalDigits(digits) > scale then None
    else
      var f := Cancelled(digits, scale);
      CancelledValue(f, digits, scale);
      Some(f)
  }

  /** `a / 10^i == b / 10^j`. */
  ghost predicate SameRational(a: nat, i: nat, b: nat, j: nat) { a * Pow10(j) == b * Pow10(i) }

  lemma CancelledValue(f: SecondFraction, digits: nat, scale: nat)
    requires f.scale <= scale && f.digits * Pow10(scale - f.scale) == digits
    ensures SameRational(f.digits, f.scale, digits, scale)
  {
    Pow10Add(scale - f.scale, f.scale);
    assert f.digits * (Pow10(scale - f.scale) * Pow10(f.scale)) == f.digits * Pow10(scale - f.scale) * Pow10(f.scale);
  }

  /** `SecondFraction::new`, whose loop strips trailing zero digits. */
  method New(digits: nat, scale: nat) returns (r: Option<SecondFraction>)
    requires digits <= U64_MAX && scale <= U64_MAX
    ensures r == NewFraction(digits, scale)
  {
    if digits == 0 {
      return Some(ZERO);
    }
    if DecimalDigits(digits) > scale {
      return None;
    }
    var d, s := digits, scale;
    while d % 10 == 0
      invariant d != 0 && DecimalDigits(d) <= s
      invariant Cancelled(digits, scale) == Cancelled(d, s)
      decreases d
    {
      d, s := d / 10, s - 1;
    }
    r := Some(SecondFraction(d, s));
  }

  // ----- canonical form and order -----

  /** Equal rationals have equal normal forms. */
  lemma Canonical(f: SecondFraction, g: SecondFraction)
    requires Reduced(f) && Reduced(g)
    ensures f == g <==> SameRational(f.digits, f.scale, g.digits, g.scale)
  {
    if SameRational(f.digits, f.scale, g.digits, g.scale) {
      if f.scale <= g.scale {
        CanonicalShift(f, g);
      } else {
        CanonicalShift(g, f);
      }
    }
  }

  lemma CanonicalShift(f: SecondFraction, g: SecondFraction)
    requires Reduced(f) && Reduced(g) && f.scale <= g.scale
    requires f.digits * Pow10(g.scale) == g.digits * Pow10(f.scale)
    ensures f == g
  {
    var k := g.scale - f.scale;
    Pow10Add(k, f.scale);
    MulAssoc(f.digits, Pow10(k), Pow10(f.scale));
    MulCancel(f.digits * Pow10(k), g.digits, Pow10(f.scale));
    if k > 0 {
      MulAssoc(f.digits, 10, Pow10(k - 1));
      TenDivides(g.digits, f.digits, Pow10(k - 1));
    }
  }

  lemma TenDivides(g: int, f: int, p: int)
    requires f * 10 * p == g
    ensures g % 10 == 0
  {
    assert g == 10 * (f * p);
  }

  /** Two constructions are equal exactly when their rationals are. */
  lemma ConstructionsEqual(d1: nat, s1: nat, d2: nat, s2: nat)
    requires d1 <= U64_MAX && s1 <= U64_MAX && d2 <= U64_MAX && s2 <= U64_MAX
    requires NewFraction(d1, s1).Some? && NewFraction(d2, s2).Some?
    ensures NewFraction(d1, s1) == NewFraction(d2, s2) <==> SameRational(d1, s1, d2, s2)
  {
    var f, g := NewFraction(d1, s1).value, NewFraction(d2, s2).value;
    Canonical(f, g);
    SameRationalTransfer(f.digits, f.scale, d1, s1, g.digits, g.scale);
    SameRationalTransfer(g.digits, g.scale, d2, s2, d1, s1);
    assert SameRational(d1, s1, g.digits, g.scale) == SameRational(g.digits, g.scale, d1, s1);
    assert SameRational(d2, s2, d1, s1) == SameRational(d1, s1, d2, s2);
  }

  /** `SameRational(·, ·, c, k)` only depends on the rational of its left side. */
  lemma SameRationalTransfer(a: nat, i: nat, b: nat, j: nat, c: nat, k: nat)
    requires SameRational(a, i, b, j)
    ensures SameRational(a, i, c, k) <==> SameRational(b, j, c, k)
  {
    var pi, pj, pk := Pow10(i), Pow10(j), Pow10(k);
    if a * pk == c * pi {
      CrossTransfer(a, pi, b, pj, c, pk);
    }
    if b * pk == c * pj {
      CrossTransfer(b, pj, a, pi, c, pk);
    }
  }

  lemma CrossTransfer(a: int, pi: int, b: int, pj: int, c: int, pk: int)
    requires pi > 0 && a * pj == b * pi && a * pk == c * pi
    ensures b * pk == c * pj
  {
    calc {
      b * pk * pi;
    ==  { MulAssoc(b, pk, pi); MulAssoc(b, pi, pk); }
      b * pi * pk;
    ==
      a * pj * pk;
    ==  { MulAssoc(a, pj, pk); MulAssoc(a, pk, pj); }
      a * pk * pj;
    ==
      c * pi * pj;
    ==  { MulAssoc(c, pi, pj); MulAssoc(c, pj, pi); }
      c * pj * pi;
    }
    MulCancel(b * pk, c * pj, pi);
  }

  datatype Ordering = Less | Equal | Greater

  function CompareInt(a: int, b: int): Ordering {
    if a < b then Less else if a == b then Equal else Greater
  }

  /** `leading_zeros`: zeros between the point and the first significant digit. */
  function LeadingZeros(f: SecondFraction): Option<nat>
    requires Normal(f)
  {
    if f.digits == 0 then None else Some(f.scale - DecimalDigits(f.digits))
  }

  /** The number of digits both fractions are aligned to. */
  function AlignedWidth(f: SecondFraction, g: SecondFraction): (width: nat)
    ensures DecimalDigits(f.digits) <= width && DecimalDigits(g.digits) <= width
  {
    var nf, ng := DecimalDigits(f.digits), DecimalDigits(g.digits);
    if nf > ng then nf else ng
  }

  /** The digits shifted left until there are `width` of them. */
  function Aligned(f: SecondFraction, width: nat): nat
    requires DecimalDigits(f.digits) <= width
  {
    f.digits * Pow10(width - DecimalDigits(f.digits))
  }

  /** `Ord::cmp`. */
  function Compare(f: SecondFraction, g: SecondFraction): Ordering
    requires Normal(f) && Normal(g)
  {
    match (LeadingZeros(f), LeadingZeros(g))
    case (None, None) => Equal
    case (None, Some(_)) => Less
    case (Some(_), None) => Greater
    case (Some(a), Some(b)) =>
      if a != b then CompareInt(b, a)
      else
        var width := AlignedWidth(f, g);
        CompareInt(Aligned(f, width), Aligned(g, width))
  }

  /** `Compare` is the order of the rationals, for every pair of fractions; it is
      therefore total, and equal only on equal values. */
  lemma CompareIsRationalOrder(f: SecondFraction, g: SecondFraction)
    requires Normal(f) && Normal(g)
    ensures Compare(f, g) == CompareInt(f.digits * Pow10(g.scale), g.digits * Pow10(f.scale))
    ensures Compare(f, g) == Equal <==> f == g
  {
    Canonical(f, g);
    if f.digits != 0 && g.digits != 0 {
      var a, b := f.scale - DecimalDigits(f.digits), g.scale - DecimalDigits(g.digits);
      if a < b {
        FewerZerosIsLarger(g, f);
      } else if b < a {
        FewerZerosIsLarger(f, g);
      } else {
        CompareAligned(f, g);
      }
    } else if g.digits != 0 {
      assert g.digits * Pow10(f.scale) > 0;
    } else if f.digits != 0 {
      assert f.digits * Pow10(g.scale) > 0;
    }
  }

  lemma FewerZerosIsLarger(f: SecondFraction, g: SecondFraction)
    requires Normal(f) && Normal(g) && f.digits != 0 && g.digits != 0
    requires g.scale - DecimalDigits(g.digits) < f.scale - DecimalDigits(f.digits)
    ensures f.digits * Pow10(g.scale) < g.digits * Pow10(f.scale)
  {
    var nf, ng := DecimalDigits(f.digits), DecimalDigits(g.digits);
    DecimalDigitsBounds(f.digits);
    DecimalDigitsBounds(g.digits);
    MulLess(f.digits, Pow10(nf), Pow10(g.scale));
    Pow10Add(nf, g.scale);
    Pow10Mono(nf + g.scale, ng - 1 + f.scale);
    Pow10Add(ng - 1, f.scale);
    MulLess(g.digits, Pow10(ng - 1), Pow10(f.scale));
  }

  lemma CompareAligned(f: SecondFraction, g: SecondFraction)
    requires Normal(f) && Normal(g) && f.digits != 0 && g.digits != 0
    requires g.scale - DecimalDigits(g.digits) == f.scale - DecimalDigits(f.digits)
    ensures Compare(f, g) == CompareInt(f.digits * Pow10(g.scale), g.digits * Pow10(f.scale))
  {
    var nf, ng := DecimalDigits(f.digits), DecimalDigits(g.digits);
    var width := AlignedWidth(f, g);
    var k := g.scale - (width - nf);
    assert k == f.scale - (width - ng) && k >= 0;
    Pow10Add(width - nf, k);
    Pow10Add(width - ng, k);
    var x, y := f.digits * Pow10(width - nf), g.digits * Pow10(width - ng);
    MulAssoc(f.digits, Pow10(width - nf), Pow10(k));
    MulAssoc(g.digits, Pow10(width - ng), Pow10(k));
    MulLess(x, y, Pow10(k));
    MulLess(y, x, Pow10(k));
  }

  lemma TenToTheTwentieth()
    ensures Pow10(20) == 100000000000000000000
  {
    Pow10Add(10, 10);
    assert Pow10(10) == 10000000000 by { Pow10Add(5, 5); }
  }

  const U128_MAX := 340282366920938463463374607431768211455

  /** A 64-bit number has at most twenty digits. */
  lemma SixtyFourBitDigits(n: nat)
    requires n <= U64_MAX
    ensures DecimalDigits(n) <= 20
  {
    TenToTheTwentieth();
    DecimalDigitsFit(n, 20);
  }

  lemma AlignedBelow(f: SecondFraction, width: nat)
    requires DecimalDigits(f.digits) <= width <= 20
    ensures Aligned(f, width) < 100000000000000000000
  {
    var n := DecimalDigits(f.digits);
    DecimalDigitsBounds(f.digits);
    Pow10Add(n, width - n);
    MulLess(f.digits, Pow10(n), Pow10(width - n));
    Pow10Mono(width, 20);
    TenToTheTwentieth();
  }

  /** For every two fractions, both products `cmp` forms stay below `10^20`, and so
      fit 128 bits. */
  lemma CompareDoesNotOverflow(f: SecondFraction, g: SecondFraction)
    requires Normal(f) && Normal(g)
    ensures AlignedWidth(f, g) <= 20
    ensures Aligned(f, AlignedWidth(f, g)) < 100000000000000000000 < U128_MAX
    ensures Aligned(g, AlignedWidth(f, g)) < 100000000000000000000
  {
    SixtyFourBitDigits(f.digits);
    SixtyFourBitDigits(g.digits);
    AlignedBelow(f, AlignedWidth(f, g));
    AlignedBelow(g, AlignedWidth(f, g));
  }
}
