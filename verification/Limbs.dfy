/** Numbers as strings of 24-bit limbs. */
module Limbs {

  const BASE: int := 0x1000000

  /** The product of two integers, named so that proofs can keep it closed. */
  function Mul(a: int, b: int): int { a * b }

  lemma MulSwap(a: int, b: int) ensures Mul(a, b) == Mul(b, a) {}

  lemma MulAssoc(a: int, b: int, c: int) ensures Mul(a, Mul(b, c)) == Mul(Mul(a, b), c) {}

  lemma MulSum(a: int, b: int, c: int)
    ensures Mul(a, b + c) == Mul(a, b) + Mul(a, c) && Mul(b + c, a) == Mul(b, a) + Mul(c, a)
    ensures Mul(a, b - c) == Mul(a, b) - Mul(a, c) && Mul(b - c, a) == Mul(b, a) - Mul(c, a)
  {
  }

  /** Multiplying by a constant is linear. */
  lemma MulConst(a: int, b: int)
    ensures Mul(a, 0) == 0 && Mul(0, b) == 0 && Mul(a, 1) == a && Mul(1, b) == b
    ensures Mul(2 * a, b) == 2 * Mul(a, b) && Mul(4 * a, b) == 4 * Mul(a, b) && Mul(8 * a, b) == 8 * Mul(a, b)
    ensures Mul(BASE * a, b) == BASE * Mul(a, b) && Mul(a, BASE * b) == BASE * Mul(a, b)
  {
  }

  lemma MulMono(a: int, b: int, c: int)
    requires a <= b && c >= 0
    ensures Mul(a, c) <= Mul(b, c) && Mul(c, a) <= Mul(c, b)
  {
  }

  lemma MulSign(a: int, b: int)
    ensures a >= 0 && b >= 0 ==> Mul(a, b) >= 0
    ensures a > 0 && b > 0 ==> Mul(a, b) > 0
  {
  }

  function Pow(k: nat): (r: int)
    ensures r > 0
  {
    if k == 0 then 1 else BASE * Pow(k - 1)
  }

  function Pow2(k: nat): (r: int)
    ensures r > 0
  {
    if k == 0 then 1 else 2 * Pow2(k - 1)
  }

  predicate Digits(s: seq<int>) { forall i :: 0 <= i < |s| ==> 0 <= s[i] < BASE }

  /** Value of a string with the most significant limb first. */
  function Big(s: seq<int>): int {
    if s == [] then 0 else BASE * Big(s[..|s| - 1]) + s[|s| - 1]
  }

  /** Value of a string with the least significant limb first. */
  function Little(s: seq<int>): int {
    if s == [] then 0 else Little(s[..|s| - 1]) + Mul(s[|s| - 1], Pow(|s| - 1))
  }

  lemma LittlePush(s: seq<int>, d: int)
    ensures Little(s + [d]) == Little(s) + Mul(d, Pow(|s|))
  {
    assert (s + [d])[..|s|] == s;
  }

  lemma BigPush(s: seq<int>, d: int)
    ensures Big(s + [d]) == BASE * Big(s) + d
  {
    assert (s + [d])[..|s|] == s;
  }

  lemma {:induction false} LittleRange(s: seq<int>)
    requires Digits(s)
    ensures 0 <= Little(s) < Pow(|s|)
  {
    hide Mul;
    if s != [] {
      var n := |s| - 1;
      LittleRange(s[..n]);
      MulMono(0, s[n], Pow(n));
      MulMono(s[n], BASE - 1, Pow(n));
      MulConst(0, Pow(n));
      MulConst(1, Pow(n));
      MulSum(Pow(n), BASE, 1);
    }
  }

  lemma {:induction false} LittleZero(s: seq<int>)
    requires Digits(s)
    ensures Little(s) == 0 <==> forall i :: 0 <= i < |s| ==> s[i] == 0
  {
    hide Mul;
    if s != [] {
      var n := |s| - 1;
      LittleZero(s[..n]);
      LittleRange(s[..n]);
      MulSign(s[n], Pow(n));
      MulConst(0, Pow(n));
    }
  }
}
