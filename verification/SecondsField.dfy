/** Reading and writing the 13-column seconds field exactly. */
module SecondsField {
  import opened Text
  import opened Decimal
  import opened Seconds

  // ----- the reader, `parse_gps_seconds` -----

  predicate IsExponentMark(c: char) { c == 'e' || c == 'E' || c == 'd' || c == 'D' }

  /** Index of the first exponent mark, or the length when there is none. */
  function ExponentAt(s: string): (n: nat)
    ensures n <= |s|
    ensures n < |s| ==> IsExponentMark(s[n])
    ensures forall i :: 0 <= i < n ==> !IsExponentMark(s[i])
  {
    if s == "" || IsExponentMark(s[0]) then 0 else 1 + ExponentAt(s[1..])
  }

  /** Index of the first decimal point, or the length when there is none. */
  function PointAt(s: string): (n: nat)
    ensures n <= |s|
    ensures n < |s| ==> s[n] == '.'
    ensures forall i :: 0 <= i < n ==> s[i] != '.'
  {
    if s == "" || s[0] == '.' then 0 else 1 + PointAt(s[1..])
  }

  /** The parts of a seconds text: `whole.fraction x 10^exponent`. */
  datatype Scan = Scan(negative: bool, whole: string, fraction: string, exponent: int)

  predicate ValidScan(s: Scan) {
    AllDigits(s.whole) && AllDigits(s.fraction) && s.whole + s.fraction != ""
  }

  function ScanExponent(s: string): Option<int> {
    var digits := if s != "" && (s[0] == '+' || s[0] == '-') then s[1..] else s;
    if digits == "" || !AllDigits(digits) then None
    else ParseI64(if s[0] == '+' then s[1..] else s)
  }

  function ScanUnsigned(negative: bool, s: string): (r: Option<Scan>)
    ensures r.Some? ==> ValidScan(r.value)
  {
    var e := ExponentAt(s);
    var mantissa := s[..e];
    var p := PointAt(mantissa);
    var whole := mantissa[..p];
    var fraction := if p < |mantissa| then mantissa[p + 1..] else "";
    if (whole == "" && fraction == "") || !AllDigits(whole) || !AllDigits(fraction) then None
    else if e == |s| then Some(Scan(negative, whole, fraction, 0))
    else
      match ScanExponent(s[e + 1..])
      case None => None
      case Some(x) => Some(Scan(negative, whole, fraction, x))
  }

  function ScanSeconds(text: string): (r: Option<Scan>)
    ensures r.Some? ==> ValidScan(r.value)
  {
    if text != "" && text[0] == '-' then ScanUnsigned(true, text[1..])
    else if text != "" && text[0] == '+' then ScanUnsigned(false, text[1..])
    else ScanUnsigned(false, text)
  }

  function DropLeadingZeros(s: string): (r: string)
    ensures |r| <= |s|
  {
    if s != "" && s[0] == '0' then DropLeadingZeros(s[1..]) else s
  }

  function DropTrailingZeros(s: string): (r: string)
    ensures |r| <= |s|
  {
    if s != "" && s[|s| - 1] == '0' then DropTrailingZeros(s[..|s| - 1]) else s
  }

  lemma {:induction false} LeadingZerosValue(s: string)
    requires AllDigits(s)
    ensures var r := DropLeadingZeros(s); AllDigits(r) && Value(r) == Value(s) && (r != "" ==> r[0] != '0')
  {
    if s != "" && s[0] == '0' {
      LeadingZerosValue(s[1..]);
      assert s == Zeros(1) + s[1..];
      ValuePrefixZeros(1, s[1..]);
    }
  }

  lemma {:induction false} TrailingZerosValue(s: string)
    requires AllDigits(s)
    ensures var r := DropTrailingZeros(s);
            && AllDigits(r)
            && Value(s) == Value(r) * Pow10(|s| - |r|)
            && (r != "" ==> r[0] == s[0] && r[|r| - 1] != '0')
  {
    if s != "" && s[|s| - 1] == '0' {
      var t := s[..|s| - 1];
      TrailingZerosValue(t);
      var r := DropTrailingZeros(t);
      MulTen(Value(r), Pow10(|t| - |r|));
    }
  }

  predicate InI64(x: int) { -I64_MAX - 1 <= x <= I64_MAX }

  /** Significant digits: neither the first nor the last is a zero. */
  predicate Significant(s: string) {
    s != "" && AllDigits(s) && s[0] != '0' && s[|s| - 1] != '0'
  }

  function Split(point: int, count: nat): (n: nat)
    ensures n <= count
  {
    if point <= 0 then 0 else if point < count then point else count
  }

  /** The tail of the reader: the value `0.D x 10^point`, D the significant digits. */
  function FromSignificant(s: string, point: int): Option<(nat, SecondFraction)>
    requires Significant(s)
  {
    if point > 2 then None
    else
      var split := Split(point, |s|);
      var whole := Value(s[..split]) * Pow10(if point > |s| then point - |s| else 0);
      var tail := s[split..];
      if tail == "" then Some((whole, ZERO))
      else
        var scale := |s| - point;
        if !InI64(scale) || Value(tail) > U64_MAX then None
        else
          match NewFraction(Value(tail), scale)
          case None => None
          case Some(f) => Some((whole, f))
  }

  /** The reader after the text has been scanned. */
  function ReadScan(s: Scan): Option<(nat, SecondFraction)>
    requires ValidScan(s)
  {
    var all := s.whole + s.fraction;
    var stripped := DropLeadingZeros(all);
    var leading := |all| - |stripped|;
    var significant := DropTrailingZeros(stripped);
    if significant == "" then Some((0, ZERO))
    else if s.negative then None
    else
      var point := |s.whole| - leading + s.exponent;
      if !InI64(point) then None
      else
        SignificantDigits(all, stripped, significant);
        FromSignificant(significant, point)
  }

  lemma SignificantDigits(all: string, stripped: string, significant: string)
    requires AllDigits(all)
    requires stripped == DropLeadingZeros(all) && significant == DropTrailingZeros(stripped)
    requires significant != ""
    ensures Significant(significant)
  {
    LeadingZerosValue(all);
    TrailingZerosValue(stripped);
  }

  /** `parse_gps_seconds`. */
  function ParseGpsSeconds(text: string): Option<(nat, SecondFraction)> {
    match ScanSeconds(text)
    case None => None
    case Some(s) => ReadScan(s)
  }

  // ----- what the reader reads -----

  function Positive(x: int): nat { if x > 0 then x else 0 }

  /** `w + f == n x 10^e`, cross-multiplied. */
  ghost predicate Denotes(n: nat, e: int, w: nat, f: SecondFraction) {
    Cross(Mantissa(w, f), Pow10(Positive(-e)), n, Pow10(Positive(e)), Pow10(f.scale))
  }

  ghost predicate Cross(x: int, a: int, n: int, b: int, p: int) { x * a == n * b * p }

  /** `w + f` in units of `10^-scale`. */
  function Mantissa(w: nat, f: SecondFraction): nat { w * Pow10(f.scale) + f.digits }

  /** The value the digits and the exponent of a scanned text state. */
  ghost predicate ScanDenotes(s: Scan, w: nat, f: SecondFraction)
    requires ValidScan(s)
  {
    Denotes(Value(s.whole + s.fraction), s.exponent - |s.fraction|, w, f)
  }

  /** A value splits into a whole number and a reduced fraction in one way. */
  lemma DenotesUnique(n: nat, e: int, w: nat, f: SecondFraction, v: nat, g: SecondFraction)
    requires Reduced(f) && Reduced(g)
    requires Denotes(n, e, w, f) && Denotes(n, e, v, g)
    ensures w == v && f == g
  {
    var ps, pt := Pow10(f.scale), Pow10(g.scale);
    var x, y := Mantissa(w, f), Mantissa(v, g);
    SameQuotient(x, ps, y, pt, Pow10(Positive(-e)), n * Pow10(Positive(e)));
    FractionBelowOne(f);
    FractionBelowOne(g);
    SplitUnique(w, f.digits, ps, v, g.digits, pt);
    Canonical(f, g);
  }

  lemma FractionBelowOne(f: SecondFraction)
    requires Reduced(f)
    ensures f.digits < Pow10(f.scale)
  {
    DecimalDigitsFit(f.digits, f.scale);
  }

  lemma SameQuotient(x: int, ps: int, y: int, pt: int, c: int, m: int)
    requires c > 0 && x * c == m * ps && y * c == m * pt
    ensures x * pt == y * ps
  {
    calc {
      x * pt * c;
    ==  { MulAssoc(x, pt, c); MulAssoc(x, c, pt); }
      x * c * pt;
    ==
      m * ps * pt;
    ==  { MulAssoc(m, ps, pt); MulAssoc(m, pt, ps); }
      m * pt * ps;
    ==
      y * c * ps;
    ==  { MulAssoc(y, c, ps); MulAssoc(y, ps, c); }
      y * ps * c;
    }
    MulCancel(x * pt, y * ps, c);
  }

  lemma SplitUnique(w: nat, d: nat, p: nat, v: nat, h: nat, q: nat)
    requires d < p && h < q && (w * p + d) * q == (v * q + h) * p
    ensures w == v && d * q == h * p
  {
    var pq := p * q;
    assert w * p * q == w * pq by { MulAssoc(w, p, q); }
    assert v * q * p == v * pq by { MulAssoc(v, q, p); }
    assert w * pq + d * q == v * pq + h * p;
    MulLess(d, p, q);
    MulLess(h, q, p);
    if w < v {
      SplitOrder(w, v, pq);
    } else if v < w {
      SplitOrder(v, w, pq);
    }
  }

  lemma SplitOrder(w: int, v: int, m: int)
    requires m > 0 && w < v
    ensures w * m + m <= v * m
  {
    MulMono(w + 1, v, m);
  }

  /** The value before any width check. */
  function Candidate(s: string, point: int): (r: (nat, SecondFraction))
    requires Significant(s)
  {
    var split := Split(point, |s|);
    var whole := Value(s[..split]) * Pow10(if point > |s| then point - |s| else 0);
    (whole, if split == |s| then ZERO else SecondFraction(Value(s[split..]), |s| - point))
  }

  lemma LastDigit(s: string)
    requires AllDigits(s) && s != ""
    ensures Value(s) % 10 == DigitValue(s[|s| - 1])
  {
  }

  lemma NonzeroDigit(c: char)
    requires IsDigit(c) && c != '0'
    ensures DigitValue(c) != 0
  {
  }

  lemma CandidateReduced(s: string, point: int)
    requires Significant(s)
    ensures Reduced(Candidate(s, point).1)
  {
    var split := Split(point, |s|);
    var tail := s[split..];
    if tail != "" {
      assert tail[|tail| - 1] == s[|s| - 1];
      LastDigit(tail);
      NonzeroDigit(tail[|tail| - 1]);
      ValueBound(tail);
      DecimalDigitsFit(Value(tail), |tail|);
    }
  }

  lemma CandidateDenotes(s: string, point: int)
    requires Significant(s)
    ensures Denotes(Value(s), point - |s|, Candidate(s, point).0, Candidate(s, point).1)
  {
    var (w, f) := Candidate(s, point);
    var split := Split(point, |s|);
    if point <= 0 {
      assert s[..0] == "" && s[0..] == s;
      DenotesAtScale(Value(s), point - |s|, w, f);
    } else if point < |s| {
      assert s == s[..point] + s[point..];
      ValueConcat(s[..point], s[point..]);
      DenotesAtScale(Value(s), point - |s|, w, f);
    } else {
      assert s[..split] == s;
      DenotesWhole(Value(s), point - |s|);
    }
  }

  lemma DenotesAtScale(n: nat, e: int, w: nat, f: SecondFraction)
    requires e <= 0 && f.scale == -e && Mantissa(w, f) == n
    ensures Denotes(n, e, w, f)
  {
    CrossUnit(n, Pow10(f.scale));
  }

  lemma CrossUnit(n: int, p: int)
    ensures Cross(n, p, n, 1, p)
  {
  }

  lemma DenotesWhole(n: nat, e: nat)
    ensures Denotes(n, e, n * Pow10(e), ZERO)
  {
    assert Pow10(0) == 1;
  }

  /** Within the field widths the reader returns the candidate; it returns nothing else. */
  lemma FromSignificantIsCandidate(s: string, point: int)
    requires Significant(s)
    ensures FromSignificant(s, point).Some? ==> FromSignificant(s, point).value == Candidate(s, point)
    ensures FromSignificant(s, point).Some? <==>
            && point <= 2
            && var f := Candidate(s, point).1;
               f == ZERO || (f.scale <= I64_MAX && f.digits <= U64_MAX)
  {
    CandidateReduced(s, point);
    var (w, f) := Candidate(s, point);
    if f != ZERO {
      DecimalDigitsFit(f.digits, f.scale);
      assert f.digits % 10 != 0 ==> Cancelled(f.digits, f.scale) == f;
    }
    if Split(point, |s|) != |s| {
      assert f.scale != 0;
    }
  }

  lemma CandidateWhole(s: string, point: int)
    requires Significant(s)
    ensures point <= 2 <==> Candidate(s, point).0 < 100
  {
    var split := Split(point, |s|);
    var head := s[..split];
    var (w, f) := Candidate(s, point);
    ValueBound(head);
    if point <= 0 {
      assert w == 0;
    } else {
      ValueLeading(head);
      var k := Positive(point - |s|);
      assert point == split + k;
      Pow10Add(split, k);
      Pow10Add(split - 1, k);
      MulLess(Value(head), Pow10(split), Pow10(k));
      MulLess(Value(head), Pow10(split - 1), Pow10(k));
      if point <= 2 {
        Pow10Mono(point, 2);
      } else {
        Pow10Mono(2, point - 1);
      }
      assert Pow10(2) == 100;
    }
  }

  /** Scaling the digits by `10^k` and lowering the exponent by `k` keeps the value. */
  lemma {:induction false} DenotesShift(n: nat, e: int, k: nat, w: nat, f: SecondFraction)
    ensures Denotes(n * Pow10(k), e - k, w, f) <==> Denotes(n, e, w, f)
  {
    var x, ps := Mantissa(w, f), Pow10(f.scale);
    if e >= k {
      Pow10Add(k, e - k);
      CrossUp(x, n, Pow10(k), Pow10(e - k), ps);
    } else if e >= 0 {
      Pow10Add(e, k - e);
      CrossOver(x, n, Pow10(e), Pow10(k - e), ps);
    } else {
      Pow10Add(-e, k);
      CrossDown(x, Pow10(-e), n, Pow10(k), ps);
    }
  }

  lemma CrossUp(x: int, n: int, k: int, r: int, p: int)
    ensures Cross(x, 1, n * k, r, p) <==> Cross(x, 1, n, k * r, p)
  {
    MulAssoc(n, k, r);
  }

  lemma CrossOver(x: int, n: int, e: int, r: int, p: int)
    requires r > 0
    ensures Cross(x, r, n * (e * r), 1, p) <==> Cross(x, 1, n, e, p)
  {
    MulAssoc(n, e, r);
    Regroup(n * e, r, p);
    ShiftBoth(x, n * e * p, r);
  }

  lemma CrossDown(x: int, a: int, n: int, k: int, p: int)
    requires k > 0
    ensures Cross(x, a * k, n * k, 1, p) <==> Cross(x, a, n, 1, p)
  {
    MulAssoc(x, a, k);
    Regroup(n, k, p);
    ShiftBoth(x * a, n * p, k);
  }

  lemma Regroup(a: int, b: int, c: int)
    ensures a * b * c == a * c * b
  {
    MulAssoc(a, b, c);
    MulAssoc(a, c, b);
  }

  lemma ShiftBoth(a: int, b: int, c: int)
    requires c > 0
    ensures a == b <==> a * c == b * c
  {
    if a * c == b * c {
      MulCancel(a, b, c);
    }
  }

  function SignificantOf(all: string): string { DropTrailingZeros(DropLeadingZeros(all)) }

  function TrailingZeros(all: string): nat { |DropLeadingZeros(all)| - |SignificantOf(all)| }

  lemma {:induction false} StrippedValue(all: string)
    requires AllDigits(all)
    ensures AllDigits(SignificantOf(all))
    ensures Value(all) == Value(SignificantOf(all)) * Pow10(TrailingZeros(all))
  {
    LeadingZerosValue(all);
    TrailingZerosValue(DropLeadingZeros(all));
  }

  /** Dropping the outer zeros moves them into the exponent. */
  lemma {:induction false} StrippedDenotes(all: string, e: int, w: nat, f: SecondFraction)
    requires AllDigits(all)
    ensures AllDigits(SignificantOf(all))
    ensures Denotes(Value(all), e, w, f) <==> Denotes(Value(SignificantOf(all)), e + TrailingZeros(all), w, f)
  {
    StrippedValue(all);
    DenotesShift(Value(SignificantOf(all)), e + TrailingZeros(all), TrailingZeros(all), w, f);
  }

  lemma DenotesZero(e: int, w: nat, f: SecondFraction)
    requires Reduced(f) && Denotes(0, e, w, f)
    ensures w == 0 && f == ZERO
  {
    ZeroDenotes(e);
    DenotesUnique(0, e, w, f, 0, ZERO);
  }

  lemma ZeroDenotes(e: int)
    ensures Denotes(0, e, 0, ZERO)
  {
    assert Mantissa(0, ZERO) == 0;
  }

  /** Whatever the reader returns is exactly the value of the text, as a clock
      second below 100 and a normalized fraction. */
  lemma {:induction false} ReadScanSound(s: Scan)
    requires ValidScan(s) && ReadScan(s).Some?
    ensures var (w, f) := ReadScan(s).value; w < 100 && Normal(f) && ScanDenotes(s, w, f)
  {
    hide Denotes, FromSignificant, Pow10;
    var all := s.whole + s.fraction;
    var significant := SignificantOf(all);
    var e := s.exponent - |s.fraction|;
    var (w, f) := ReadScan(s).value;
    StrippedDenotes(all, e, w, f);
    if significant == "" {
      ZeroDenotes(e + TrailingZeros(all));
    } else {
      SignificantDigits(all, DropLeadingZeros(all), significant);
      CandidateSound(significant, e + TrailingZeros(all) + |significant|);
    }
  }

  lemma {:induction false} CandidateSound(s: string, point: int)
    requires Significant(s) && FromSignificant(s, point).Some?
    ensures var (w, f) := FromSignificant(s, point).value;
            w < 100 && Normal(f) && Denotes(Value(s), point - |s|, w, f)
  {
    FromSignificantIsCandidate(s, point);
    CandidateReduced(s, point);
    CandidateDenotes(s, point);
    CandidateWhole(s, point);
  }

  /** The power of ten that puts the point right before the significant digits. */
  function PointOf(s: Scan): int
    requires ValidScan(s)
  {
    var all := s.whole + s.fraction;
    s.exponent - |s.fraction| + TrailingZeros(all) + |SignificantOf(all)|
  }

  lemma {:induction false} ReadScanShape(s: Scan)
    requires ValidScan(s) && !s.negative
    ensures var sig := SignificantOf(s.whole + s.fraction);
            if sig == "" then ReadScan(s) == Some((0, ZERO))
            else Significant(sig) && ReadScan(s) == if InI64(PointOf(s)) then FromSignificant(sig, PointOf(s)) else None
  {
    hide FromSignificant, Value, Pow10;
    var all := s.whole + s.fraction;
    if SignificantOf(all) != "" {
      SignificantDigits(all, DropLeadingZeros(all), SignificantOf(all));
    }
  }

  lemma {:induction false} CandidateComplete(s: string, point: int, w: nat, f: SecondFraction)
    requires Significant(s) && w < 100 && Normal(f)
    requires Denotes(Value(s), point - |s|, w, f) && |s| - point <= I64_MAX
    ensures point <= 2 && FromSignificant(s, point) == Some((w, f))
  {
    var c := Candidate(s, point);
    CandidateDenotes(s, point);
    CandidateReduced(s, point);
    DenotesUnique(Value(s), point - |s|, w, f, c.0, c.1);
    CandidateWhole(s, point);
    CandidateScale(s, point);
    FromSignificantIsCandidate(s, point);
  }

  lemma CandidateScale(s: string, point: int)
    requires Significant(s)
    ensures Candidate(s, point).1 == ZERO || Candidate(s, point).1.scale == |s| - point
  {
  }

  /** Whatever clock value the text states is what the reader returns, whenever
      the net power of ten fits the `i64` the reader computes it in. */
  lemma {:induction false} ReadScanComplete(s: Scan, w: nat, f: SecondFraction)
    requires ValidScan(s) && w < 100 && Normal(f) && ScanDenotes(s, w, f)
    requires !s.negative && s.exponent - |s.fraction| >= -I64_MAX
    ensures ReadScan(s) == Some((w, f))
  {
    hide Denotes, FromSignificant, Pow10, ReadScan, SignificantOf, TrailingZeros;
    var all := s.whole + s.fraction;
    var e := s.exponent - |s.fraction|;
    ReadScanShape(s);
    StrippedDenotes(all, e, w, f);
    if SignificantOf(all) == "" {
      DenotesZero(e + TrailingZeros(all), w, f);
    } else {
      CandidateComplete(SignificantOf(all), PointOf(s), w, f);
    }
  }

  // ----- the writer, `seconds_text` -----

  const SECONDS_WIDTH := 13

  function Fits(text: string): Option<string> {
    if |text| <= SECONDS_WIDTH then Some(text) else None
  }

  /** At least seven decimals of a fraction whose decimals end by the twelfth. */
  function Decimals(f: SecondFraction): (r: string)
    requires Reduced(f)
    ensures AllDigits(r) && |r| >= 7 && |r| >= f.scale
  {
    var d := if f.digits == 0 then "" else ZeroPadded(f);
    if |d| < 7 then d + Zeros(7 - |d|) else d
  }

  function ZeroPadded(f: SecondFraction): (r: string)
    requires Reduced(f) && f.digits != 0
    ensures AllDigits(r) && |r| == f.scale && Value(r) == f.digits
  {
    ValueOfDigits(f.digits);
    ValuePrefixZeros(f.scale - |Digits(f.digits)|, Digits(f.digits));
    Zeros(f.scale - |Digits(f.digits)|) + Digits(f.digits)
  }

  function FixedText(whole: string, fraction: string): string { whole + "." + fraction }

  function PoweredText(whole: string, fraction: string, x: nat): string {
    FixedText(whole, fraction) + "E-" + Digits(x)
  }

  /** `d.ddd x 10^-x`. */
  function Scientific(f: SecondFraction): string
    requires Reduced(f) && f.digits != 0
  {
    ValueOfDigits(f.digits);
    var d := Digits(f.digits);
    PoweredText(d[..1], d[1..], f.scale - (|d| - 1))
  }

  /** `.ddd x 10^-x`. */
  function LeadingPoint(f: SecondFraction): string
    requires Reduced(f) && f.digits != 0
  {
    ValueOfDigits(f.digits);
    var d := Digits(f.digits);
    PoweredText("", d, f.scale - |d|)
  }

  function ExponentText(second: nat, f: SecondFraction): Option<string>
    requires Reduced(f)
  {
    if second != 0 || f.digits == 0 then None
    else Fits(if |LeadingPoint(f)| < |Scientific(f)| then LeadingPoint(f) else Scientific(f))
  }

  /** `seconds_text`. */
  function SecondsText(second: nat, f: SecondFraction): Option<string>
    requires Reduced(f)
  {
    if f.scale <= 12 then
      var fixed := FixedText(Digits(second), Decimals(f));
      var bare := FixedText("", Decimals(f));
      if |fixed| <= SECONDS_WIDTH then Some(fixed)
      else if second == 0 && |bare| <= SECONDS_WIDTH then Some(bare)
      else ExponentText(second, f)
    else ExponentText(second, f)
  }

  // ----- the written text reads back -----

  lemma {:induction false} PointAtDigits(whole: string, tail: string)
    requires AllDigits(whole)
    ensures PointAt(whole + "." + tail) == |whole|
  {
    var t := whole + "." + tail;
    assert forall i :: 0 <= i < |whole| ==> t[i] == whole[i];
    assert t[|whole|] == '.';
  }

  lemma {:induction false} ExponentAtMark(mantissa: string, tail: string)
    requires forall i :: 0 <= i < |mantissa| ==> !IsExponentMark(mantissa[i])
    ensures ExponentAt(mantissa) == |mantissa|
    ensures ExponentAt(mantissa + "E" + tail) == |mantissa|
  {
    var t := mantissa + "E" + tail;
    assert forall i :: 0 <= i < |mantissa| ==> t[i] == mantissa[i];
    assert t[|mantissa|] == 'E';
  }

  predicate MantissaText(whole: string, fraction: string) {
    AllDigits(whole) && AllDigits(fraction) && whole + fraction != ""
  }

  lemma {:induction false} ScanFixed(whole: string, fraction: string)
    requires MantissaText(whole, fraction)
    ensures ScanSeconds(FixedText(whole, fraction)) == Some(Scan(false, whole, fraction, 0))
  {
    var t := FixedText(whole, fraction);
    PointAtDigits(whole, fraction);
    assert forall i :: 0 <= i < |t| ==> IsDigit(t[i]) || t[i] == '.';
    ExponentAtMark(t, "");
    assert t[..|t|] == t && t[..|whole|] == whole && t[|whole| + 1..] == fraction;
    assert t[0] != '-' && t[0] != '+';
  }

  lemma {:induction false} ScanExponentReads(x: nat)
    requires x <= I64_MAX
    ensures ScanExponent("-" + Digits(x)) == Some(0 - x)
  {
    var mark := "-" + Digits(x);
    assert mark[1..] == Digits(x) && mark[0] == '-';
    ValueOfDigits(x);
  }

  lemma {:induction false} ScanWithExponent(whole: string, fraction: string, x: nat)
    requires MantissaText(whole, fraction) && x <= I64_MAX
    ensures ScanSeconds(PoweredText(whole, fraction, x)) == Some(Scan(false, whole, fraction, 0 - x))
  {
    var m := FixedText(whole, fraction);
    var mark := "-" + Digits(x);
    var t := m + "E" + mark;
    assert PoweredText(whole, fraction, x) == t;
    PointAtDigits(whole, fraction);
    assert forall i :: 0 <= i < |m| ==> IsDigit(m[i]) || m[i] == '.';
    ExponentAtMark(m, mark);
    assert t[..|m|] == m && t[|m| + 1..] == mark;
    ScanExponentReads(x);
    ScanParts(t, whole, fraction, mark, x);
  }

  lemma {:induction false} ScanParts(t: string, whole: string, fraction: string, mark: string, x: nat)
    requires MantissaText(whole, fraction)
    requires ExponentAt(t) == |whole| + 1 + |fraction| < |t|
    requires t[..ExponentAt(t)] == whole + "." + fraction && t[ExponentAt(t) + 1..] == mark
    requires PointAt(whole + "." + fraction) == |whole|
    requires ScanExponent(mark) == Some(0 - x)
    ensures ScanSeconds(t) == Some(Scan(false, whole, fraction, 0 - x))
  {
    var m := whole + "." + fraction;
    assert m[..|whole|] == whole && m[|whole| + 1..] == fraction;
    assert t[0] == m[0] && m[0] != '-' && m[0] != '+';
  }

  lemma {:induction false} DecimalsValue(f: SecondFraction)
    requires Reduced(f)
    ensures Value(Decimals(f)) == f.digits * Pow10(|Decimals(f)| - f.scale)
  {
    var d := if f.digits == 0 then "" else ZeroPadded(f);
    if |d| < 7 {
      ValueSuffixZeros(d, 7 - |d|);
    } else {
      assert Pow10(0) == 1;
    }
  }

  /** `second.decimals` and, for a zero second, `.decimals` state the second. */
  lemma {:induction false} FixedDenotes(whole: string, second: nat, f: SecondFraction)
    requires Reduced(f) && AllDigits(whole) && Value(whole) == second
    ensures AllDigits(whole + Decimals(f))
    ensures Denotes(Value(whole + Decimals(f)), 0 - |Decimals(f)|, second, f)
  {
    var d := Decimals(f);
    ValueConcat(whole, d);
    DecimalsValue(f);
    FixedScaled(Value(whole + d), |d|, second, f);
  }

  lemma {:induction false} FixedScaled(n: nat, k: nat, second: nat, f: SecondFraction)
    requires f.scale <= k && n == second * Pow10(k) + f.digits * Pow10(k - f.scale)
    ensures Denotes(n, 0 - k, second, f)
  {
    Pow10Add(f.scale, k - f.scale);
    FixedCross(second, f.digits, Pow10(f.scale), Pow10(k - f.scale));
  }

  lemma FixedCross(w: int, d: int, p: int, k: int)
    ensures Cross(w * p + d, p * k, w * (p * k) + d * k, 1, p)
  {
    assert (w * p + d) * k == w * (p * k) + d * k by { MulAssoc(w, p, k); }
    MulAssoc(w * p + d, p, k);
    Regroup(w * p + d, p, k);
  }

  /** The digits with the net exponent `-scale` state the fraction. */
  lemma {:induction false} ExponentDenotes(f: SecondFraction)
    requires Reduced(f)
    ensures Denotes(f.digits, 0 - f.scale, 0, f)
  {
    DenotesAtScale(f.digits, 0 - f.scale, 0, f);
  }

  lemma {:induction false} FitsExponent(x: nat)
    requires |Digits(x)| <= SECONDS_WIDTH
    ensures x <= 9999999999999
  {
    ValueOfDigits(x);
    DecimalDigitsFit(x, 13);
    Pow10Add(6, 7);
  }

  lemma PoweredShape(whole: string, fraction: string, x: nat)
    ensures var t := PoweredText(whole, fraction, x);
            t[|whole|] == '.' && |t| == |whole| + |fraction| + |Digits(x)| + 3
  {
  }

  /** Significant digits split anywhere, with the power that restores the scale. */
  lemma {:induction false} PoweredReads(whole: string, fraction: string, x: nat, f: SecondFraction)
    requires Normal(f) && MantissaText(whole, fraction) && Value(whole + fraction) == f.digits
    requires x + |fraction| == f.scale && |PoweredText(whole, fraction, x)| <= SECONDS_WIDTH
    ensures ParseGpsSeconds(PoweredText(whole, fraction, x)) == Some((0, f))
  {
    hide ScanSeconds, ReadScan, Denotes, Value, Pow10, Digits, PoweredText;
    PoweredShape(whole, fraction, x);
    FitsExponent(x);
    ScanWithExponent(whole, fraction, x);
    ExponentDenotes(f);
    ReadScanComplete(Scan(false, whole, fraction, 0 - x), 0, f);
  }

  lemma {:induction false} ExponentReads(f: SecondFraction)
    requires Normal(f) && ExponentText(0, f).Some?
    ensures var t := ExponentText(0, f).value;
            |t| <= SECONDS_WIDTH && '.' in t && ParseGpsSeconds(t) == Some((0, f))
  {
    hide ParseGpsSeconds, Value, Pow10, Digits, PoweredText;
    ValueOfDigits(f.digits);
    var d := Digits(f.digits);
    if |LeadingPoint(f)| < |Scientific(f)| {
      assert "" + d == d;
      PoweredReads("", d, f.scale - |d|, f);
      PoweredShape("", d, f.scale - |d|);
    } else {
      assert d[..1] + d[1..] == d;
      PoweredReads(d[..1], d[1..], f.scale - (|d| - 1), f);
      PoweredShape(d[..1], d[1..], f.scale - (|d| - 1));
    }
  }

  /** Every text the writer produces fits its 13 columns, carries a decimal
      point and reads back as exactly the same second and fraction. */
  lemma {:induction false} SecondsRoundTrip(second: nat, f: SecondFraction)
    requires second <= 59 && Normal(f) && SecondsText(second, f).Some?
    ensures var t := SecondsText(second, f).value;
            |t| <= SECONDS_WIDTH && '.' in t && ParseGpsSeconds(t) == Some((second, f))
  {
    hide ParseGpsSeconds, Value, Pow10, Digits, FixedText, Decimals, ExponentText;
    var fixed, bare := FixedText(Digits(second), Decimals(f)), FixedText("", Decimals(f));
    if f.scale <= 12 && |fixed| <= SECONDS_WIDTH {
      ValueOfDigits(second);
      FixedTextReads(Digits(second), second, f);
    } else if f.scale <= 12 && second == 0 && |bare| <= SECONDS_WIDTH {
      EmptyValue();
      FixedTextReads("", 0, f);
    } else {
      assert second == 0 by { ExponentOnlyBelowOne(second, f); }
      ExponentReads(f);
    }
  }

  lemma EmptyValue()
    ensures Value("") == 0
  {
  }

  lemma ExponentOnlyBelowOne(second: nat, f: SecondFraction)
    requires Reduced(f) && ExponentText(second, f).Some?
    ensures second == 0
  {
  }

  lemma {:induction false} FixedTextReads(whole: string, second: nat, f: SecondFraction)
    requires Normal(f) && f.scale <= 12 && second < 100 && AllDigits(whole) && Value(whole) == second
    ensures ParseGpsSeconds(FixedText(whole, Decimals(f))) == Some((second, f))
    ensures '.' in FixedText(whole, Decimals(f))
  {
    assert FixedText(whole, Decimals(f))[|whole|] == '.';
    hide ScanSeconds, ReadScan, ScanDenotes, Value, Pow10, FixedText, Decimals;
    FixedScanDenotes(whole, second, f);
    ScanFixed(whole, Decimals(f));
    ReadScanComplete(Scan(false, whole, Decimals(f), 0), second, f);
  }

  lemma {:induction false} FixedScanDenotes(whole: string, second: nat, f: SecondFraction)
    requires Normal(f) && f.scale <= 12 && AllDigits(whole) && Value(whole) == second
    ensures var s := Scan(false, whole, Decimals(f), 0);
      ValidScan(s) && ScanDenotes(s, second, f) && s.exponent - |s.fraction| >= -I64_MAX
  {
    hide Denotes, Value, Pow10;
    FixedDenotes(whole, second, f);
  }

  predicate IsSecondsChar(c: char) { IsDigit(c) || c == '.' || c == 'E' || c == '-' }

  predicate SecondsChars(t: string) { forall i :: 0 <= i < |t| ==> IsSecondsChar(t[i]) }

  lemma FixedChars(whole: string, fraction: string)
    requires AllDigits(whole) && AllDigits(fraction)
    ensures SecondsChars(FixedText(whole, fraction))
  {
  }

  lemma PoweredChars(whole: string, fraction: string, x: nat)
    requires AllDigits(whole) && AllDigits(fraction)
    ensures SecondsChars(PoweredText(whole, fraction, x))
  {
    FixedChars(whole, fraction);
    hide FixedText;
  }

  /** The written text has no blank to trim and no line break. */
  lemma {:induction false} SecondsTextClean(second: nat, f: SecondFraction)
    requires Reduced(f) && SecondsText(second, f).Some?
    ensures var t := SecondsText(second, f).value; Tight(t) && OneLine(t)
  {
    hide FixedText, PoweredText, Digits, Decimals;
    FixedChars(Digits(second), Decimals(f));
    FixedChars("", Decimals(f));
    if f.digits != 0 {
      ValueOfDigits(f.digits);
      var d := Digits(f.digits);
      PoweredChars(d[..1], d[1..], f.scale - (|d| - 1));
      PoweredChars("", d, f.scale - |d|);
    }
    var t := SecondsText(second, f).value;
    assert SecondsChars(t);
  }
}
