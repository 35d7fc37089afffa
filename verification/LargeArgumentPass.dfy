/** One pass of `rem_pio2_large` over its limbs: the value is split exactly into a
    whole number modulo 8 and a signed remainder of at most one half. */
module LargeArgumentPass {

  import opened Limbs
  import opened LargeArgument

  /** Denominator of the leading value: `2^-q0` when its last bits are fractional. */
  function Den(q0: int): (d: int)
    ensures d > 0
  {
    if q0 < 0 then Pow2(-q0) else 1
  }

  /** Range of the top digit once `q0` bits of it have joined the whole part. */
  function TopRange(q0: int): int { if q0 == 1 then 0x800000 else if q0 == 2 then 0x400000 else BASE }

  /** One whole turn count, in units of the last digit. */
  function One(jz: nat, q0: int): int
    requires jz >= 1
  {
    if q0 > 0 then Mul(TopRange(q0), Pow(jz - 1)) else Mul(Den(q0), Pow(jz))
  }

  /** The fraction held by the leading value's numerator and the digits. */
  function Fraction(z: int, digits: seq<int>): int { Mul(z, Pow(|digits|)) + Little(digits) }

  lemma DivLaw(a: int, m: int)
    requires m > 0
    ensures a == Mul(a / m, m) + a % m && 0 <= a % m < m
  {
  }

  lemma DivBelow(a: int, m: int, k: int)
    requires m > 0 && 0 <= a && k > 0 && a < Mul(k, m)
    ensures 0 <= a / m < k
  {
    hide Mul;
    DivLaw(a, m);
    if a / m >= k {
      MulMono(k, a / m, m);
    }
    if a / m < 0 {
      MulMono(a / m, -1, m);
      MulSum(m, 0, 1);
      MulConst(1, m);
      MulConst(0, m);
    }
  }

  /** Taking off multiples of eight, then the whole part. */
  lemma WholePart(num: int, den: int)
    requires den > 0 && num >= 0
    ensures var m := num % (8 * den);
      && num == 8 * Mul(num / (8 * den), den) + Mul(m / den, den) + m % den
      && 0 <= m && 0 <= m / den < 8 && 0 <= m % den < den
  {
    hide Mul;
    var m := num % (8 * den);
    DivLaw(num, 8 * den);
    DivLaw(m, den);
    var t := num / (8 * den);
    MulSwap(t, 8 * den);
    MulSwap(t, den);
    MulConst(den, t);
    MulConst(1, den);
    assert Mul(8, den) == 8 * den by { MulConst(1, den); }
    DivBelow(m, den, 8);
  }

  /** The same split, carried to the units of the last digit. */
  lemma Recompose(num: int, t: int, n: int, z: int, den: int, pow: int, low: int)
    requires num == 8 * Mul(t, den) + Mul(n, den) + z
    ensures Mul(num, pow) + low == 8 * Mul(t, Mul(den, pow)) + Mul(n, Mul(den, pow)) + (Mul(z, pow) + low)
  {
    hide Mul;
    var a, b := Mul(t, den), Mul(n, den);
    MulSum(pow, 8 * a + b, z);
    MulSum(pow, 8 * a, b);
    MulConst(a, pow);
    MulAssoc(t, den, pow);
    MulAssoc(n, den, pow);
  }

  lemma FractionBelow(z: int, digits: seq<int>, den: int)
    requires Digits(digits) && 0 <= z < den
    ensures 0 <= Fraction(z, digits) < Mul(den, Pow(|digits|))
  {
    hide Mul;
    var pow := Pow(|digits|);
    LittleRange(digits);
    MulMono(z + 1, den, pow);
    MulSum(pow, z, 1);
    MulConst(1, pow);
    MulSign(z, pow);
  }

  /** With an even denominator the leading value alone shows which half it is in. */
  lemma HalfBelow(z: int, digits: seq<int>, half: int)
    requires Digits(digits) && 0 <= z
    ensures z >= half <==> Fraction(z, digits) >= Mul(half, Pow(|digits|))
  {
    hide Mul;
    var pow := Pow(|digits|);
    LittleRange(digits);
    if z >= half {
      MulMono(half, z, pow);
    } else {
      MulMono(z + 1, half, pow);
      MulSum(pow, z, 1);
      MulConst(1, pow);
    }
  }

  lemma DenEven(q0: int)
    requires q0 < 0
    ensures Den(q0) == 2 * Pow2(-q0 - 1)
  {
  }

  /** The value of digits by their top one. */
  lemma TopDigit(digits: seq<int>)
    requires digits != []
    ensures var n := |digits| - 1; Little(digits) == Little(digits[..n]) + Mul(digits[n], Pow(n))
  {
  }

  /** A string whose top digit is below `2 * half` is below that many times its
      place, and is in the upper half exactly when its top digit is. */
  lemma TopBelow(digits: seq<int>, half: int)
    requires digits != [] && Digits(digits) && digits[|digits| - 1] < 2 * half
    ensures var n := |digits| - 1;
      && 0 <= Little(digits) < Mul(2 * half, Pow(n))
      && (digits[n] >= half <==> 2 * Little(digits) >= Mul(2 * half, Pow(n)))
  {
    hide Mul, Little, Pow;
    var n := |digits| - 1;
    var pow, d := Pow(n), digits[n];
    TopDigit(digits);
    LittleRange(digits[..n]);
    MulSign(d, pow);
    MulMono(d + 1, 2 * half, pow);
    MulSum(pow, d, 1);
    MulConst(1, pow);
    MulConst(half, pow);
    if d >= half {
      MulMono(half, d, pow);
    } else {
      MulMono(d + 1, half, pow);
    }
  }

  // ----- the whole part -----

  /** The state between the steps of a pass. `ih` is 1 or 2 for a fraction of one
      half or more. */
  ghost predicate PassOk(digits: seq<int>, q0: int, z: int, ih: int) {
    && digits != [] && Digits(digits) && q0 <= 2
    && 0 <= z < Den(q0)
    && (q0 > 0 ==> digits[|digits| - 1] < TopRange(q0))
    && 0 <= Fraction(z, digits) < One(|digits|, q0)
    && (ih > 0 <==> 2 * Fraction(z, digits) >= One(|digits|, q0))
    && (ih == 2 ==> q0 < 0) && (ih == 1 ==> q0 >= 0) && 0 <= ih <= 2
  }

  /** `lead` is what distilling leaves in front of the digits. */
  ghost predicate Conserved(lead: int, was: seq<int>, t: int, n: int, one: int, z: int, now: seq<int>) {
    Fraction(lead, was) == 8 * Mul(t, one) + Mul(n, one) + Fraction(z, now)
  }

  function Shifted(lead: int, q0: int): int { if q0 == 1 then 2 * lead else if q0 == 2 then 4 * lead else lead }

  lemma TopBitsMove(lead: int, was: seq<int>, q0: int, t: int, n: int, now: seq<int>)
    requires was != [] && |now| == |was| && now[..|was| - 1] == was[..|was| - 1] && (q0 == 1 || q0 == 2)
    requires Shifted(lead, q0) == 8 * t + n
    requires var d := was[|was| - 1]; now[|was| - 1] == d - d / TopRange(q0) * TopRange(q0)
    ensures Conserved(lead, was, t, n + was[|was| - 1] / TopRange(q0), One(|was|, q0), 0, now)
  {
    hide Mul, Little, Pow;
    var k := |was| - 1;
    var range, pow, d := TopRange(q0), Pow(k), was[k];
    var i, r := d / range, now[k];
    var one := Mul(range, pow);
    TopDigit(was);
    TopDigit(now);
    PowStep(k);
    // pow * BASE == 2^q0 * one
    MulConst(range, pow);
    MulConst(1, pow);
    assert Mul(BASE, pow) == BASE * pow by { MulConst(1, pow); }
    assert Pow(k + 1) == if q0 == 1 then 2 * one else 4 * one;
    LeadMoves(lead, q0, one);
    MulSum(one, 8 * t, n);
    MulConst(t, one);
    // the top digit
    assert d == i * range + r;
    SplitTop(i, range, r, pow, d);
    MulSum(one, n, i);
    MulConst(0, Pow(k + 1));
  }

  lemma LeadMoves(lead: int, q0: int, one: int)
    ensures q0 == 1 ==> Mul(lead, 2 * one) == Mul(Shifted(lead, q0), one)
    ensures q0 == 2 ==> Mul(lead, 4 * one) == Mul(Shifted(lead, q0), one)
  {
  }

  lemma SplitTop(i: int, range: int, r: int, pow: int, d: int)
    requires d == i * range + r
    ensures Mul(d, pow) == Mul(i, Mul(range, pow)) + Mul(r, pow)
  {
    assert d * pow == i * range * pow + r * pow;
  }

  /** The whole part modulo 8, and which half the fraction is in. */
  method TakeWhole(iq: array<int>, jz: nat, q0: int, lead: int) returns (n: int, z: int, ih: int, ghost t: int)
    requires 1 <= jz <= iq.Length && Digits(iq[..jz]) && q0 <= 2 && lead >= 0
    modifies iq
    ensures PassOk(iq[..jz], q0, z, ih) && n >= 0
    ensures Conserved(lead, old(iq[..jz]), t, n, One(jz, q0), z, iq[..jz])
  {
    hide Mul, Little, Pow, Pow2, Conserved;
    ghost var was := iq[..jz];
    var den, num := Den(q0), Shifted(lead, q0);
    WholePart(num, den);
    DivLaw(num, 8 * den);
    t := num / (8 * den);
    var m := num - Mul(num / (8 * den), 8 * den);
    DivLaw(m, den);
    n := ToI32(m, den);
    FitsI32(m, den);
    z := m - Mul(n, den);
    ih := 0;
    if q0 > 0 {
      MulConst(t, n);
      MulConst(n, t);
      var range := TopRange(q0);
      var i := iq[jz - 1] / range;
      iq[jz - 1] := iq[jz - 1] - i * range;
      ih := iq[jz - 1] / (range / 2);
      assert iq[..jz][..jz - 1] == was[..jz - 1];
      TopBitsMove(lead, was, q0, t, n, iq[..jz]);
      n := n + i;
      TopBelow(iq[..jz], range / 2);
      MulConst(0, Pow(jz));
    } else {
      WholeConserved(lead, was, q0, t, n, z);
      FractionBelow(z, was, den);
      if q0 == 0 {
        ih := iq[jz - 1] / 0x800000;
        TopBelow(was, 0x800000);
        ZeroExponent(z, was);
      } else {
        DenEven(q0);
        HalfBelow(z, was, Pow2(-q0 - 1));
        MulConst(Pow2(-q0 - 1), Pow(jz));
        if 2 * z >= den { ih := 2; }
      }
    }
  }

  lemma FitsI32(m: int, den: int)
    requires den > 0 && 0 <= m && m / den < 8
    ensures ToI32(m, den) == m / den
  {
    DivLaw(m, den);
  }

  lemma ZeroExponent(z: int, digits: seq<int>)
    requires digits != [] && z == 0
    ensures Fraction(z, digits) == Little(digits)
    ensures Mul(2 * 0x800000, Pow(|digits| - 1)) == One(|digits|, 0)
  {
    assert Pow(|digits|) == BASE * Pow(|digits| - 1);
  }

  lemma WholeConserved(lead: int, was: seq<int>, q0: int, t: int, n: int, z: int)
    requires was != [] && q0 <= 0 && lead == 8 * Mul(t, Den(q0)) + Mul(n, Den(q0)) + z
    ensures Conserved(lead, was, t, n, One(|was|, q0), z, was)
  {
    hide Mul, Little, Pow;
    Recompose(lead, t, n, z, Den(q0), Pow(|was|), Little(was));
  }

  // ----- the complement -----

  /** Masking the top digit takes the value modulo the place it ends at. */
  lemma MaskTop(was: seq<int>, now: seq<int>, range: int)
    requires was != [] && |now| == |was| && Digits(was) && (range == 0x800000 || range == 0x400000)
    requires now[..|was| - 1] == was[..|was| - 1] && now[|was| - 1] == was[|was| - 1] % range
    ensures Digits(now) && 0 <= Little(now) < Mul(range, Pow(|was| - 1))
    ensures Little(now) == Little(was) - Mul(was[|was| - 1] / range, Mul(range, Pow(|was| - 1)))
  {
    hide Mul, Little, Pow;
    var k := |was| - 1;
    forall i | 0 <= i < |now| ensures 0 <= now[i] < BASE {
      if i < k {
        assert now[i] == now[..k][i] == was[..k][i] == was[i];
      }
    }
    TopDigit(was);
    TopDigit(now);
    TopBelow(now, range / 2);
    SplitTop(was[k] / range, range, now[k], Pow(k), was[k]);
  }

  /** Two values in `[0, one)` that differ by a multiple of `one` are the same. */
  lemma SameResidue(a: int, b: int, k: int, one: int)
    requires 0 <= a < one && 0 <= b < one && a == b + Mul(k, one)
    ensures a == b
  {
    hide Mul;
    MulConst(1, one);
    if k >= 1 {
      MulMono(1, k, one);
    } else if k <= -1 {
      MulMono(k, -1, one);
      MulSum(one, 0, 1);
      MulConst(0, one);
    } else {
      MulConst(0, one);
    }
  }

  lemma MaskedComplement(pow: int, q0: int, fraction: int, whole: int, one: int, top: int, masked: int)
    requires (q0 == 1 && pow == 2 * one) || (q0 == 2 && pow == 4 * one)
    requires 0 < fraction < one && whole == pow - fraction
    requires 0 <= masked < one && masked == whole - Mul(top, one)
    ensures masked == one - fraction
  {
    hide Mul;
    var k := if q0 == 1 then 1 - top else 3 - top;
    MulSum(one, if q0 == 1 then 1 else 3, top);
    MulConst(1, one);
    assert Mul(3, one) == 3 * one by { MulSum(one, 1, 2); MulConst(1, one); }
    SameResidue(masked, one - fraction, k, one);
  }

  lemma TopPlace(jz: nat, q0: int)
    requires jz >= 1 && (q0 == 1 || q0 == 2)
    ensures q0 == 1 ==> Pow(jz) == 2 * One(jz, q0)
    ensures q0 == 2 ==> Pow(jz) == 4 * One(jz, q0)
  {
    assert Pow(jz) == BASE * Pow(jz - 1);
  }

  /** The complement loop, the masks and the leading value's part of
      it replace the fraction by one minus the fraction, exactly. */
  method Reflect(iq: array<int>, jz: nat, q0: int, z: int, ih: int) returns (z': int)
    requires 1 <= jz <= iq.Length && PassOk(iq[..jz], q0, z, ih) && ih > 0
    modifies iq
    ensures Digits(iq[..jz]) && z' >= 0
    ensures Fraction(z', iq[..jz]) == One(jz, q0) - Fraction(z, old(iq[..jz]))
  {
    hide Mul, Little, Pow, Pow2, One;
    ghost var was := iq[..jz];
    ghost var fraction := Fraction(z, was);
    LittleRange(was);
    OneIs(jz, q0);
    var carry := Complement(iq, jz);
    ghost var whole := iq[..jz];
    z' := z;
    if q0 > 0 {
      MulConst(0, Pow(jz));
      var range := TopRange(q0);
      iq[jz - 1] := iq[jz - 1] % range;
      assert iq[..jz][..jz - 1] == whole[..jz - 1];
      MaskTop(whole, iq[..jz], range);
      TopPlace(jz, q0);
      MaskedComplement(Pow(jz), q0, fraction, Little(whole), One(jz, q0), whole[jz - 1] / range, Little(iq[..jz]));
    } else if q0 == 0 {
      MulConst(0, Pow(jz));
      MulConst(1, Pow(jz));
    } else {
      MulSum(Pow(jz), Den(q0), z);
      z' := Den(q0) - z;
      MulSum(Pow(jz), Den(q0) - z, 1);
      MulConst(1, Pow(jz));
      if carry != 0 { z' := z' - 1; }
    }
  }

  lemma OneIs(jz: nat, q0: int)
    requires jz >= 1
    ensures One(jz, q0) == if q0 > 0 then Mul(TopRange(q0), Pow(jz - 1)) else Mul(Den(q0), Pow(jz))
  {
  }

  /** One pass: the limbs' value, in units of the last digit, is `n` whole ones and
      a fraction of at most one half added or, past one half, taken away; multiples
      of eight are dropped. */
  method Pass(q: array<int>, iq: array<int>, jz: nat, q0: int) returns (n: int, z: int, ih: int, ghost t: int)
    requires 1 <= jz < q.Length && jz <= iq.Length && q != iq && Small(q[..jz + 1]) && q0 <= 2
    modifies iq
    ensures Digits(iq[..jz]) && z >= 0 && 0 <= ih <= 2
    ensures 0 <= 2 * Fraction(z, iq[..jz]) <= One(jz, q0)
    ensures Big(q[..jz + 1]) == 8 * Mul(t, One(jz, q0)) + Mul(n, One(jz, q0))
      + (if ih > 0 then -Fraction(z, iq[..jz]) else Fraction(z, iq[..jz]))
  {
    hide Mul, Little, Pow, Pow2, One, Big;
    var lead := Distill(q, iq, jz);
    n, z, ih, t := TakeWhole(iq, jz, q0, lead);
    if ih > 0 {
      MulSum(One(jz, q0), n, 1);
      MulConst(1, One(jz, q0));
      n := n + 1;
      z := Reflect(iq, jz, q0, z, ih);
    }
  }
}
