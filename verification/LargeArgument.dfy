/** The multi-limb core of reducing a huge angle (`rem_pio2_large`): limbs are
    distilled into 24-bit digits, the whole part is taken off modulo 8, and a
    remainder past one half is replaced by its complement. All of it is exact. */
module LargeArgument {

  import opened Limbs

  const EXACT: int := 0x20000000000000

  const I32_MAX: int := 2147483647

  // ----- exponents -----

  /** Integer division toward zero, by a positive divisor. */
  function TruncDiv(a: int, b: int): int
    requires b > 0
  {
    if a >= 0 then a / b else -((-a) / b)
  }

  function StartLimb(e0: int): int {
    var jv := TruncDiv(e0 - 3, 24);
    if jv < 0 then 0 else jv
  }

  function StartExponent(e0: int): int { e0 - 24 * (StartLimb(e0) + 1) }

  /** The exponent of the last distilled limb: always at most 2, and from -21 on for
      every argument the caller passes. */
  lemma ExponentRange(e0: int)
    ensures StartExponent(e0) <= 2
    ensures -21 <= StartExponent(e0) <==> e0 >= 3
  {
  }

  // ----- products -----

  /** `v as i32`, for `v == num / den`: toward zero, saturating. */
  function ToI32(num: int, den: int): int
    requires den > 0
  {
    if num >= I32_MAX * den then I32_MAX
    else if num <= -(I32_MAX + 1) * den then -(I32_MAX + 1)
    else TruncDiv(num, den)
  }

  /** What `terms` products of 24-bit limbs add up to at most. */
  function ProductBound(terms: nat): int { terms * (BASE - 1) * (BASE - 1) }

  lemma LimbProduct(a: int, b: int)
    requires 0 <= a < BASE && 0 <= b < BASE
    ensures 0 <= Mul(a, b) <= (BASE - 1) * (BASE - 1)
  {
    MulMono(a, BASE - 1, b);
    MulMono(b, BASE - 1, BASE - 1);
    MulSign(a, b);
  }

  /** The `i`-th coefficient of the argument times 2/pi, from term `from` on. */
  function Coefficient(x: seq<int>, f: seq<int>, i: nat, from: nat): int
    requires from <= |x| && |x| + i <= |f| + 1 && (|x| > 0 ==> |x| - 1 + i < |f|)
    decreases |x| - from
  {
    if from == |x| then 0 else Mul(x[from], f[|x| - 1 + i - from]) + Coefficient(x, f, i, from + 1)
  }

  /** One product limb: the sum is exact, no partial sum reaching 2^53. */
  method ProductLimb(x: array<int>, f: array<int>, i: nat) returns (fw: int)
    requires 0 < x.Length <= 16 && x.Length - 1 + i < f.Length
    requires Digits(x[..]) && Digits(f[..])
    ensures fw == Coefficient(x[..], f[..], i, 0)
    ensures 0 <= fw <= ProductBound(x.Length) < EXACT / 2
  {
    hide Mul;
    fw := 0;
    var j := 0;
    while j < x.Length
      invariant j <= x.Length && 0 <= fw <= ProductBound(j) < EXACT
      invariant fw + Coefficient(x[..], f[..], i, j) == Coefficient(x[..], f[..], i, 0)
    {
      assert x[..][j] == x[j] && f[..][x.Length - 1 + i - j] == f[x.Length - 1 + i - j];
      LimbProduct(x[j], f[x.Length - 1 + i - j]);
      fw := fw + Mul(x[j], f[x.Length - 1 + i - j]);
      j := j + 1;
    }
  }

  // ----- distilling -----

  /** Limbs that are sums of at most 16 products of digits. */
  predicate Small(q: seq<int>) { forall i :: 0 <= i < |q| ==> 0 <= q[i] <= ProductBound(16) }

  lemma CarryStep(total: int, low: int, pow: int, high: int, q: int, z: int)
    requires total == low + Mul(pow, BASE * (BASE * high + q) + z)
    ensures total == low + Mul(z % BASE, pow) + Mul(BASE * pow, BASE * high + (q + z / BASE))
  {
    hide Mul;
    var d, w := z % BASE, BASE * high + (q + z / BASE);
    assert BASE * (BASE * high + q) + z == BASE * w + d;
    MulSum(pow, BASE * w, d);
    MulConst(pow, w);
    MulSwap(pow, d);
  }

  /** Carrying from the last limb up leaves digits and one leading value, which
      together are the limbs' value. Nothing saturates or reaches 2^53. */
  method Distill(q: array<int>, iq: array<int>, jz: nat) returns (z: int)
    requires jz < q.Length && jz <= iq.Length && q != iq && Small(q[..jz + 1])
    modifies iq
    ensures Digits(iq[..jz]) && 0 <= z < EXACT
    ensures Big(q[..jz + 1]) == Little(iq[..jz]) + Mul(z, Pow(jz))
  {
    hide Mul, Big, Little, Pow;
    ghost var total := Big(q[..jz + 1]);
    var i, j := 0, jz;
    z := q[jz];
    assert q[..jz + 1] == q[..jz] + [q[jz]];
    BigPush(q[..jz], q[jz]);
    NoDigits(iq[..0], BASE * Big(q[..jz]) + z);
    while j > 0
      invariant 0 <= j && i == jz - j && Digits(iq[..i])
      invariant 0 <= z < ProductBound(16) + BASE * BASE
      invariant total == Little(iq[..i]) + Mul(Pow(i), BASE * Big(q[..j]) + z)
    {
      assert q[..j] == q[..j - 1] + [q[j - 1]];
      BigPush(q[..j - 1], q[j - 1]);
      assert q[j - 1] == q[..jz + 1][j - 1];
      CarryStep(total, Little(iq[..i]), Pow(i), Big(q[..j - 1]), q[j - 1], z);
      var fw := ToI32(z, BASE);
      assert fw == z / BASE < I32_MAX;
      ghost var before := iq[..i];
      iq[i] := ToI32(z - BASE * fw, 1);
      assert iq[i] == z % BASE;
      assert iq[..i + 1] == before + [iq[i]];
      LittlePush(before, iq[i]);
      PowStep(i);
      z := q[j - 1] + fw;
      i, j := i + 1, j - 1;
    }
    NothingAbove(q[..0], z, Pow(jz));
  }

  lemma NoDigits(s: seq<int>, v: int)
    requires s == []
    ensures Little(s) == 0 && Mul(Pow(0), v) == v
  {
  }

  lemma NothingAbove(s: seq<int>, z: int, pow: int)
    requires s == []
    ensures Mul(pow, BASE * Big(s) + z) == Mul(z, pow)
  {
  }

  lemma PowStep(k: nat)
    ensures Pow(k + 1) == BASE * Pow(k)
  {
  }

  // ----- complementing -----

  lemma ComplementStep(pow: int, low: int, d: int)
    ensures pow - low + Mul(BASE - 1 - d, pow) == BASE * pow - (low + Mul(d, pow))
    ensures Mul(BASE - d, pow) == BASE * pow - Mul(d, pow)
  {
  }

  /** The complement loop: the exact negation modulo the width of the digits, for
      every digit string but zero, which it leaves alone. */
  method Complement(iq: array<int>, jz: nat) returns (carry: int)
    requires jz <= iq.Length && Digits(iq[..jz])
    modifies iq
    ensures Digits(iq[..jz])
    ensures carry == 0 <==> Little(old(iq[..jz])) == 0
    ensures carry == 0 || carry == 1
    ensures Little(iq[..jz]) == if carry == 0 then 0 else Pow(jz) - Little(old(iq[..jz]))
  {
    hide Mul, Little, Pow;
    carry := 0;
    ghost var was := iq[..jz];
    var i := 0;
    NoDigits(was[..0], 0);
    assert was[..0] == iq[..0];
    while i < jz
      invariant i <= jz && (carry == 0 || carry == 1)
      invariant forall k :: i <= k < jz ==> iq[k] == was[k]
      invariant Digits(iq[..i])
      invariant carry == 0 ==> Little(was[..i]) == 0 && Little(iq[..i]) == 0
      invariant carry == 1 ==> Little(was[..i]) != 0 && Little(iq[..i]) == Pow(i) - Little(was[..i])
    {
      var j := iq[i];
      assert j == was[i] && 0 <= was[i] < BASE;
      ghost var done := iq[..i];
      assert was[..i + 1] == was[..i] + [was[i]];
      LittlePush(was[..i], j);
      ComplementStep(Pow(i), Little(was[..i]), j);
      PowStep(i);
      MulSign(j, Pow(i));
      MulConst(0, Pow(i));
      LittleRange(was[..i]);
      if carry == 0 {
        if j != 0 {
          carry := 1;
          iq[i] := BASE - j;
        }
      } else {
        iq[i] := BASE - 1 - j;
      }
      assert iq[..i + 1] == done + [iq[i]];
      LittlePush(done, iq[i]);
      i := i + 1;
    }
    assert was[..jz] == was;
  }
}
