/** The writer of the seconds field gives up only when no text could state the
    value: the 13 columns hold no text with a decimal point that reads back as it. */
module SecondsFit {
  import opened Text
  import opened Decimal
  import opened Seconds
  import opened SecondsField
  import opened SecondsGrammar

  /** A text for the field that reads back as that second and fraction. */
  predicate States(text: string, second: nat, f: SecondFraction) {
    |text| <= 13 && '.' in text && ParseGpsSeconds(text) == Some((second, f))
  }

  lemma DigitsGrow(n: nat, m: nat)
    ensures DecimalDigits(n + m) <= DecimalDigits(n) + m
    decreases m
  {
    if m > 0 {
      DigitsGrow(n, m - 1);
      var k := DecimalDigits(n + m - 1);
      DecimalDigitsBounds(n + m - 1);
      assert n + m < Pow10(k + 1);
      DecimalDigitsFit(n + m, k + 1);
    }
  }

  /** The columns an exponent takes. */
  function ExponentColumns(x: int): nat { if x < 0 then 2 + DecimalDigits(-x) else 0 }

  lemma {:induction false} TailLength(tail: string, x: int)
    requires IsTail(tail, x)
    ensures '.' !in tail && ExponentColumns(x) <= |tail|
  {
    if tail != "" {
      assert tail == [tail[0]] + tail[1..];
      PowerLength(tail[1..], x);
    }
  }

  lemma {:induction false} PowerLength(power: string, x: int)
    requires IsPower(power, x)
    ensures '.' !in power && ExponentColumns(x) <= |power| + 1
  {
    assert power == power[..1] + power[1..];
    assert AllDigits(power) ==> '.' !in power;
    assert AllDigits(power[1..]) ==> '.' !in power[1..];
    if x < 0 {
      ValueBound(power[1..]);
      DecimalDigitsFit(Value(power[1..]), |power| - 1);
    }
  }

  /** A text with a point is long enough for the parts scanned from it. */
  lemma {:induction false} TextLength(text: string)
    requires '.' in text && ScanSeconds(text).Some?
    ensures var r := ScanSeconds(text).value;
      |r.whole| + |r.fraction| + 1 + ExponentColumns(r.exponent) <= |text|
  {
    hide ScanSeconds, IsTail, ExponentColumns;
    var r := ScanSeconds(text).value;
    var sign, mantissa, tail := Scanned(text, r);
    TailLength(tail, r.exponent);
    assert '.' in mantissa;
    assert AllDigits(r.whole) ==> '.' !in r.whole;
  }

  /** Leading zeros, significant digits and trailing zeros make up all digits. */
  lemma {:induction false} DigitParts(all: string)
    requires AllDigits(all)
    ensures TrailingZeros(all) + |SignificantOf(all)| <= |all|
  {
  }

  /** Where the second and the fraction stand among the significant digits. */
  lemma {:induction false} CandidateDigits(s: string, point: int)
    requires Significant(s) && point <= 2 && Candidate(s, point).1 != ZERO
    ensures var (w, f) := Candidate(s, point);
      && f.scale == |s| - point
      && (w == 0 ==> point <= 0 && DecimalDigits(f.digits) == |s|)
      && (w != 0 ==> DecimalDigits(w) == point)
  {
    var split := Split(point, |s|);
    var head := s[..split];
    if point > 0 {
      ValueLeading(head);
      assert Pow10(0) == 1;
    } else {
      assert s[0..] == s;
      ValueLeading(s);
    }
  }

  /** The shorter of the two exponent forms has one column for the point, two for the
      mark and the sign, and the digits. */
  lemma {:induction false} LeadingLength(f: SecondFraction)
    requires Reduced(f) && f.digits != 0
    ensures |LeadingPoint(f)| == DecimalDigits(f.digits) + 3 + DecimalDigits(f.scale - DecimalDigits(f.digits))
  {
    ValueOfDigits(f.digits);
    ValueOfDigits(f.scale - DecimalDigits(f.digits));
  }

  lemma {:induction false} FixedLength(whole: string, f: SecondFraction)
    requires Reduced(f)
    ensures |FixedText(whole, Decimals(f))| == |whole| + 1 + if f.scale < 7 then 7 else f.scale
  {
  }

  lemma {:induction false} WholeFits(second: nat, f: SecondFraction)
    requires Reduced(f) && second <= 59 && f.scale <= 12 && DecimalDigits(second) + 1 + f.scale <= 13
    ensures SecondsText(second, f).Some?
  {
    ValueOfDigits(second);
    DecimalDigitsFit(second, 2);
    assert Pow10(2) == 100;
    FixedLength(Digits(second), f);
    hide FixedText, Decimals, Digits, ExponentText;
  }

  lemma {:induction false} BareFits(f: SecondFraction)
    requires Reduced(f) && f.scale <= 12
    ensures SecondsText(0, f).Some?
  {
    FixedLength("", f);
    hide FixedText, Decimals, Digits, ExponentText;
  }

  lemma {:induction false} PowerFits(f: SecondFraction)
    requires Reduced(f) && f.digits != 0 && f.scale > 12
    requires DecimalDigits(f.digits) + 3 + DecimalDigits(f.scale - DecimalDigits(f.digits)) <= 13
    ensures SecondsText(0, f).Some?
  {
    LeadingLength(f);
    hide LeadingPoint, Scientific, Decimals;
  }

  /** The digits of a scan that states a fraction, and its power of ten. */
  lemma {:induction false} ScanDigits(s: Scan, second: nat, f: SecondFraction)
    requires ValidScan(s) && ReadScan(s) == Some((second, f)) && f.digits != 0
    ensures var all := s.whole + s.fraction;
      && Significant(SignificantOf(all)) && PointOf(s) <= 2
      && Candidate(SignificantOf(all), PointOf(s)) == (second, f)
  {
    hide FromSignificant, Candidate, Value, Pow10, SignificantOf;
    NotNegative(s);
    ReadScanShape(s);
    FromSignificantIsCandidate(SignificantOf(s.whole + s.fraction), PointOf(s));
  }

  lemma NotNegative(s: Scan)
    requires ValidScan(s) && ReadScan(s).Some? && ReadScan(s).value.1.digits != 0
    ensures !s.negative
  {
  }

  lemma {:induction false} StatedFits(text: string, second: nat, f: SecondFraction)
    requires second <= 59 && States(text, second, f)
    ensures Reduced(f) && SecondsText(second, f).Some?
  {
    hide ScanSeconds, ReadScan, ScanDenotes, SecondsText, Candidate, Value, Pow10, SignificantOf, TrailingZeros, DecimalDigits;
    var s := ScanSeconds(text).value;
    ReadScanSound(s);
    TextLength(text);
    if f.digits == 0 {
      OneDigit();
      DecimalDigitsFit(second, 2);
      assert Pow10(2) == 100 by { Hundred(); }
      WholeFits(second, f);
    } else {
      ScanFits(s, second, f);
    }
  }

  lemma Hundred()
    ensures Pow10(2) == 100
  {
  }

  lemma OneDigit()
    ensures DecimalDigits(0) == 1
  {
  }

  /** The scan's own columns already hold one of the writer's forms. */
  lemma {:induction false} ScanFits(s: Scan, second: nat, f: SecondFraction)
    requires ValidScan(s) && ReadScan(s) == Some((second, f)) && f.digits != 0 && Reduced(f) && second <= 59
    requires |s.whole| + |s.fraction| + 1 + ExponentColumns(s.exponent) <= 13
    ensures SecondsText(second, f).Some?
  {
    hide ReadScan, SecondsText, Candidate, Value, Pow10, SignificantOf, TrailingZeros, DecimalDigits;
    var all := s.whole + s.fraction;
    ScanDigits(s, second, f);
    DigitParts(all);
    CandidateDigits(SignificantOf(all), PointOf(s));
    if second != 0 {
      WholeFits(second, f);
    } else if f.scale <= 12 {
      BareFits(f);
    } else {
      ScanPower(s, f);
      PowerFits(f);
    }
  }

  /** For a fraction past the twelfth decimal they hold the exponent form. */
  lemma {:induction false} ScanPower(s: Scan, f: SecondFraction)
    requires ValidScan(s) && ReadScan(s) == Some((0, f)) && f.digits != 0 && Reduced(f) && f.scale > 12
    requires |s.fraction| <= 12
    ensures DecimalDigits(f.digits) + 3 + DecimalDigits(f.scale - DecimalDigits(f.digits))
         <= |s.whole| + |s.fraction| + 1 + ExponentColumns(s.exponent)
  {
    hide ReadScan, SecondsText, Candidate, Value, Pow10, SignificantOf, TrailingZeros, DecimalDigits;
    var all := s.whole + s.fraction;
    var sig, point := SignificantOf(all), PointOf(s);
    ScanDigits(s, 0, f);
    DigitParts(all);
    CandidateDigits(sig, point);
    assert f.scale == |s.fraction| - s.exponent - TrailingZeros(all);
    assert s.exponent < 0;
    assert -point <= -s.exponent + (|all| - |sig|);
    DigitsMono(-point, -s.exponent + (|all| - |sig|));
    DigitsGrow(-s.exponent, |all| - |sig|);
  }

  lemma {:induction false} DigitsMono(a: nat, b: nat)
    requires a <= b
    ensures DecimalDigits(a) <= DecimalDigits(b)
    decreases b
  {
    DecimalDigitsBounds(b);
    DecimalDigitsFit(a, DecimalDigits(b));
  }

  /** The writer finds a text exactly when there is one. */
  lemma SecondsStatable(second: nat, f: SecondFraction)
    requires second <= 59 && Normal(f)
    ensures SecondsText(second, f).Some? <==> exists text :: States(text, second, f)
  {
    hide SecondsText, ParseGpsSeconds;
    if SecondsText(second, f).Some? {
      SecondsRoundTrip(second, f);
      assert States(SecondsText(second, f).value, second, f);
    }
    if text :| States(text, second, f) {
      StatedFits(text, second, f);
    }
  }

  /** Which text it is: the whole second with seven decimals, or with all of them when
      there are more; without the leading zero when only that fits; and past the twelfth
      decimal a text no longer than any other that states the value. */
  lemma SecondsForm(second: nat, f: SecondFraction)
    requires second <= 59 && Normal(f) && SecondsText(second, f).Some?
    ensures var text, n := SecondsText(second, f).value, if f.scale < 7 then 7 else f.scale;
      && (f.scale <= 12 && |Digits(second)| + 1 + n <= 13 ==> text == Digits(second) + "." + text[|text| - n..])
      && (f.scale <= 12 && |Digits(second)| + 1 + n > 13 ==> second == 0 && text == "." + text[|text| - n..])
      && (f.scale > 12 ==> forall other :: States(other, second, f) ==> |text| <= |other|)
  {
    if f.scale <= 12 {
      FixedForm(second, f);
    } else {
      forall other | States(other, second, f) ensures |SecondsText(second, f).value| <= |other| {
        Shortest(other, f, SecondsText(second, f).value);
      }
    }
    hide SecondsText, Digits, States;
  }

  lemma FixedForm(second: nat, f: SecondFraction)
    requires Reduced(f) && f.scale <= 12 && SecondsText(second, f).Some?
    ensures var text, n := SecondsText(second, f).value, if f.scale < 7 then 7 else f.scale;
      && (|Digits(second)| + 1 + n <= 13 ==> text == Digits(second) + "." + text[|text| - n..])
      && (|Digits(second)| + 1 + n > 13 ==> second == 0 && text == "." + text[|text| - n..])
  {
    FixedLength(Digits(second), f);
    FixedLength("", f);
    FixedTail(Digits(second), Decimals(f));
    FixedTail("", Decimals(f));
    PoweredOnlySmall(second, f);
    hide ExponentText, Decimals, Digits, FixedText;
  }

  lemma FixedTail(whole: string, fraction: string)
    ensures var t := FixedText(whole, fraction); t == whole + "." + t[|t| - |fraction|..]
    ensures "" + "." == "."
  {
    var t := FixedText(whole, fraction);
    assert t[|t| - |fraction|..] == fraction;
  }

  /** A fraction of at most twelve decimals is never written with an exponent. */
  lemma PoweredOnlySmall(second: nat, f: SecondFraction)
    requires Reduced(f) && f.scale <= 12
    ensures second == 0 ==> |FixedText("", Decimals(f))| <= 13
    ensures second != 0 ==> ExponentText(second, f).None?
  {
    FixedLength("", f);
  }

  lemma {:induction false} Shortest(other: string, f: SecondFraction, text: string)
    requires Normal(f) && f.scale > 12 && SecondsText(0, f) == Some(text) && States(other, 0, f)
    ensures |text| <= |other|
  {
    var s := ScanSeconds(other).value;
    PoweredLength(f, text);
    hide ScanSeconds, ReadScan, SecondsText, DecimalDigits, ScanDenotes;
    TextLength(other);
    ScanPower(s, f);
  }

  lemma {:induction false} PoweredLength(f: SecondFraction, text: string)
    requires Reduced(f) && f.scale > 12 && SecondsText(0, f) == Some(text)
    ensures f.digits != 0
    ensures |text| <= DecimalDigits(f.digits) + 3 + DecimalDigits(f.scale - DecimalDigits(f.digits))
  {
    LeadingLength(f);
    hide LeadingPoint, Scientific, Decimals;
  }
}
