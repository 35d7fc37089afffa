/** Decimal numerals: digit strings and the numbers they state. */
module Decimal {
  import opened Text

  const U64_MAX := 18446744073709551615
  const I64_MAX := 9223372036854775807
  const U32_MAX := 4294967295

  function Pow10(n: nat): (r: nat)
    ensures r >= 1
  {
    if n == 0 then 1 else 10 * Pow10(n - 1)
  }

  lemma {:induction false} Pow10Add(a: nat, b: nat)
    ensures Pow10(a + b) == Pow10(a) * Pow10(b)
    decreases a
  {
    if a != 0 {
      Pow10Add(a - 1, b);
      assert Pow10(a + b) == 10 * (Pow10(a - 1) * Pow10(b));
    }
  }

  lemma {:induction false} Pow10Mono(a: nat, b: nat)
    requires a <= b
    ensures Pow10(a) <= Pow10(b)
    decreases b
  {
    if a < b {
      Pow10Mono(a, b - 1);
    }
  }

  lemma MulAssoc(a: int, b: int, c: int)
    ensures a * (b * c) == a * b * c
  {
  }

  lemma MulTen(a: int, b: int)
    ensures 10 * (a * b) == a * (10 * b)
  {
  }

  lemma MulCancel(a: int, b: int, c: int)
    requires c > 0 && a * c == b * c
    ensures a == b
  {
  }

  lemma MulMono(a: int, b: int, c: int)
    requires c >= 0 && a <= b
    ensures a * c <= b * c
  {
  }

  lemma MulLess(a: int, b: int, c: int)
    requires c > 0
    ensures a < b <==> a * c < b * c
  {
  }

  predicate AllDigits(s: string) { forall i :: 0 <= i < |s| ==> IsDigit(s[i]) }

  function DigitValue(c: char): (d: nat)
    requires IsDigit(c)
    ensures d < 10
  {
    c as int - '0' as int
  }

  function DigitChar(d: nat): (c: char)
    requires d < 10
    ensures IsDigit(c) && DigitValue(c) == d
  {
    (d + '0' as int) as char
  }

  /** The number a digit string states; zero for the empty string. */
  function Value(s: string): nat
    requires AllDigits(s)
  {
    if s == "" then 0 else 10 * Value(s[..|s| - 1]) + DigitValue(s[|s| - 1])
  }

  /** Decimal text of a number, without leading zeros. */
  function Digits(n: nat): (s: string)
    ensures AllDigits(s) && |s| >= 1
    ensures s[0] == '0' <==> n == 0
  {
    if n < 10 then [DigitChar(n)] else Digits(n / 10) + [DigitChar(n % 10)]
  }

  /** `decimal_digits`: `checked_ilog10 + 1`, `1` for zero. */
  function DecimalDigits(n: nat): (k: nat)
    ensures k >= 1
  {
    if n < 10 then 1 else 1 + DecimalDigits(n / 10)
  }

  lemma {:induction false} ValueOfDigits(n: nat)
    ensures Value(Digits(n)) == n && |Digits(n)| == DecimalDigits(n)
  {
    if n < 10 {
      assert Digits(n)[..0] == "";
    } else {
      ValueOfDigits(n / 10);
      assert Digits(n)[..|Digits(n)| - 1] == Digits(n / 10);
    }
  }

  lemma {:induction false} DecimalDigitsBounds(n: nat)
    ensures n < Pow10(DecimalDigits(n))
    ensures n > 0 ==> Pow10(DecimalDigits(n) - 1) <= n
  {
    if n >= 10 {
      DecimalDigitsBounds(n / 10);
    }
  }

  /** `k` columns hold exactly the numbers below `10^k`. */
  lemma DecimalDigitsFit(n: nat, k: nat)
    ensures k >= 1 ==> (DecimalDigits(n) <= k <==> n < Pow10(k))
    ensures n > 0 ==> (DecimalDigits(n) <= k <==> n < Pow10(k))
  {
    DecimalDigitsBounds(n);
    if DecimalDigits(n) <= k {
      Pow10Mono(DecimalDigits(n), k);
    } else if n > 0 {
      Pow10Mono(k, DecimalDigits(n) - 1);
    }
  }

  lemma {:induction false} ValueBound(s: string)
    requires AllDigits(s)
    ensures Value(s) < Pow10(|s|)
  {
    if s != "" {
      ValueBound(s[..|s| - 1]);
    }
  }

  lemma {:induction false} ValueConcat(a: string, b: string)
    requires AllDigits(a) && AllDigits(b)
    ensures AllDigits(a + b) && Value(a + b) == Value(a) * Pow10(|b|) + Value(b)
  {
    if b == "" {
      assert a + b == a;
    } else {
      var b' := b[..|b| - 1];
      assert (a + b)[..|a + b| - 1] == a + b';
      ValueConcat(a, b');
      MulTen(Value(a), Pow10(|b'|));
    }
  }

  function Zeros(n: nat): (r: string)
    ensures |r| == n && AllDigits(r)
    ensures forall i :: 0 <= i < n ==> r[i] == '0'
  {
    seq(n, _ => '0')
  }

  lemma {:induction false} ValueZeros(n: nat)
    ensures Value(Zeros(n)) == 0
  {
    if n != 0 {
      assert Zeros(n)[..n - 1] == Zeros(n - 1);
      ValueZeros(n - 1);
    }
  }

  lemma ValuePrefixZeros(n: nat, s: string)
    requires AllDigits(s)
    ensures AllDigits(Zeros(n) + s) && Value(Zeros(n) + s) == Value(s)
  {
    ValueConcat(Zeros(n), s);
    ValueZeros(n);
  }

  lemma ValueSuffixZeros(s: string, n: nat)
    requires AllDigits(s)
    ensures AllDigits(s + Zeros(n)) && Value(s + Zeros(n)) == Value(s) * Pow10(n)
  {
    ValueConcat(s, Zeros(n));
    ValueZeros(n);
  }

  /** A digit string with a nonzero first digit states a number of its own length. */
  lemma ValueLeading(s: string)
    requires AllDigits(s) && s != "" && s[0] != '0'
    ensures Value(s) >= Pow10(|s| - 1)
    ensures DecimalDigits(Value(s)) == |s|
  {
    assert s == [s[0]] + s[1..];
    ValueConcat([s[0]], s[1..]);
    assert [s[0]][..0] == "";
    assert Value([s[0]]) >= 1;
    ValueBound(s);
    DecimalDigitsBounds(Value(s));
    DecimalDigitsFit(Value(s), |s|);
    DecimalDigitsFit(Value(s), |s| - 1);
  }

  /** `str::parse` for an unsigned type: an optional plus sign, then digits. */
  function ParseUnsigned(s: string, max: nat): Option<nat> {
    var digits := if s != "" && s[0] == '+' then s[1..] else s;
    if digits == "" || !AllDigits(digits) || Value(digits) > max then None else Some(Value(digits))
  }

  /** `str::parse::<i64>`. */
  function ParseI64(s: string): Option<int> {
    var negative := s != "" && s[0] == '-';
    var digits := if s != "" && (s[0] == '+' || s[0] == '-') then s[1..] else s;
    if digits == "" || !AllDigits(digits) then None
    else
      var n: int := Value(digits);
      var v := if negative then -n else n;
      if -I64_MAX - 1 <= v <= I64_MAX then Some(v) else None
  }

  /** A right-justified integer field reads back. */
  lemma IntegerField(n: nat, width: nat)
    ensures Trim(PadLeft(Digits(n), width)) == Digits(n)
  {
    DigitsTight(n);
    TrimPadLeft(Digits(n), width);
  }

  lemma IntegerText(n: nat, max: nat)
    requires n <= max
    ensures ParseUnsigned(Digits(n), max) == Some(n)
    ensures n <= I64_MAX ==> ParseI64(Digits(n)) == Some(n)
  {
    ValueOfDigits(n);
    assert IsDigit(Digits(n)[0]);
  }

  lemma DigitsTight(n: nat)
    ensures Tight(Digits(n)) && OneLine(Digits(n))
  {
    var s := Digits(n);
    assert IsDigit(s[0]) && IsDigit(s[|s| - 1]);
    assert forall i :: 0 <= i < |s| ==> IsDigit(s[i]);
  }
}
