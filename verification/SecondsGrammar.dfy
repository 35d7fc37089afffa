/** The texts the seconds field accepts: an optional sign, digits with at most one
    point, and an optional power of ten. */
module SecondsGrammar {
  import opened Text
  import opened Decimal
  import opened Seconds
  import opened SecondsField

  /** `power` is an optional sign and decimal digits that state `x`. */
  predicate IsPower(power: string, x: int) {
    || (power != "" && AllDigits(power) && x == Value(power) <= 9223372036854775807)
    || (|power| > 1 && power[0] == '+' && AllDigits(power[1..]) && x == Value(power[1..]) <= 9223372036854775807)
    || (|power| > 1 && power[0] == '-' && AllDigits(power[1..]) && x == 0 - Value(power[1..]) >= -9223372036854775808)
  }

  /** The tail of a text: nothing, or an exponent mark and a power. */
  predicate IsTail(tail: string, x: int) {
    (tail == "" && x == 0) || (tail != "" && tail[0] in "eEdD" && IsPower(tail[1..], x))
  }

  predicate IsMantissa(mantissa: string, s: Scan) {
    && AllDigits(s.whole) && AllDigits(s.fraction) && s.whole + s.fraction != ""
    && (mantissa == s.whole + "." + s.fraction || (mantissa == s.whole && s.fraction == ""))
  }

  predicate IsSign(sign: string, negative: bool) { sign == if negative then "-" else "" }

  /** `text` is that sign, mantissa and tail; a plus sign says nothing. */
  ghost predicate Spells(text: string, sign: string, mantissa: string, tail: string, s: Scan) {
    && text == sign + mantissa + tail
    && (IsSign(sign, s.negative) || (sign == "+" && !s.negative))
    && IsMantissa(mantissa, s)
    && IsTail(tail, s.exponent)
  }

  lemma {:induction false} PowerIs(power: string, x: int)
    ensures IsPower(power, x) <==> ScanExponent(power) == Some(x)
  {
    hide Value;
    if power != "" && power[0] == '+' {
      PowerDigits(power[1..]);
    } else {
      PowerDigits(power);
    }
  }

  lemma PowerDigits(t: string)
    ensures t != "" && AllDigits(t) ==> IsDigit(t[0])
  {
  }

  lemma {:induction false} MantissaDigits(mantissa: string, s: Scan)
    requires IsMantissa(mantissa, s)
    ensures forall i :: 0 <= i < |mantissa| ==> !IsExponentMark(mantissa[i])
    ensures mantissa != "" && mantissa[0] != '-' && mantissa[0] != '+'
  {
  }

  lemma {:induction false} PointIs(mantissa: string, s: Scan)
    requires IsMantissa(mantissa, s)
    ensures var p := PointAt(mantissa);
      mantissa[..p] == s.whole && s.fraction == if p < |mantissa| then mantissa[p + 1..] else ""
  {
    var p := PointAt(mantissa);
    if mantissa == s.whole + "." + s.fraction {
      assert mantissa[|s.whole|] == '.';
      assert forall i :: 0 <= i < |s.whole| ==> mantissa[i] == s.whole[i];
      assert p == |s.whole|;
    } else {
      assert p == |mantissa|;
    }
  }

  lemma {:induction false} MarkIs(mantissa: string, tail: string)
    requires forall i :: 0 <= i < |mantissa| ==> !IsExponentMark(mantissa[i])
    requires tail != "" ==> tail[0] in "eEdD"
    ensures ExponentAt(mantissa + tail) == |mantissa|
  {
    var t := mantissa + tail;
    var e := ExponentAt(t);
    assert forall i :: 0 <= i < |mantissa| ==> t[i] == mantissa[i];
    if tail != "" {
      assert t[|mantissa|] == tail[0];
    }
  }

  lemma {:induction false} UnsignedSpelt(negative: bool, mantissa: string, tail: string, s: Scan)
    requires s.negative == negative && IsMantissa(mantissa, s) && IsTail(tail, s.exponent)
    ensures ScanUnsigned(negative, mantissa + tail) == Some(s)
  {
    hide PointAt, ExponentAt, ScanExponent, IsPower, Value;
    MantissaDigits(mantissa, s);
    MarkIs(mantissa, tail);
    PointIs(mantissa, s);
    var t := mantissa + tail;
    CutAt(mantissa, tail);
    if tail != "" {
      PowerIs(tail[1..], s.exponent);
    }
    assert s.whole != "" || s.fraction != "";
    hide IsMantissa;
  }

  lemma CutAt(a: string, b: string)
    ensures (a + b)[..|a|] == a && (a + b)[|a|..] == b
    ensures b != "" ==> (a + b)[|a| + 1..] == b[1..]
  {
  }

  /** Every text so spelt is scanned as its parts. */
  lemma {:induction false} SpeltScans(text: string, sign: string, mantissa: string, tail: string, s: Scan)
    requires Spells(text, sign, mantissa, tail, s)
    ensures ScanSeconds(text) == Some(s)
  {
    hide IsTail, ScanUnsigned;
    MantissaDigits(mantissa, s);
    UnsignedSpelt(s.negative, mantissa, tail, s);
    hide IsMantissa;
    if sign == "" {
      assert text == mantissa + tail;
    } else {
      assert text[1..] == mantissa + tail;
    }
  }

  lemma {:induction false} MantissaFound(m: string)
    ensures var p := PointAt(m);
      && (p < |m| ==> m == m[..p] + "." + m[p + 1..])
      && (p == |m| ==> m == m[..p])
  {
  }

  lemma Marks(c: char)
    ensures IsExponentMark(c) <==> c in "eEdD"
  {
  }

  lemma {:induction false} TailFound(negative: bool, t: string)
    requires ScanUnsigned(negative, t).Some?
    ensures IsTail(t[ExponentAt(t)..], ScanUnsigned(negative, t).value.exponent)
  {
    hide PointAt, ExponentAt, ScanExponent, IsPower, AllDigits, IsExponentMark;
    var e := ExponentAt(t);
    if e < |t| {
      Marks(t[e]);
      assert t[e..][1..] == t[e + 1..];
      PowerIs(t[e + 1..], ScanUnsigned(negative, t).value.exponent);
    }
  }

  lemma UnsignedParts(negative: bool, t: string)
    requires ScanUnsigned(negative, t).Some?
    ensures var s, m := ScanUnsigned(negative, t).value, t[..ExponentAt(t)];
      && s.negative == negative
      && s.whole == m[..PointAt(m)]
      && s.fraction == if PointAt(m) < |m| then m[PointAt(m) + 1..] else ""
  {
    hide PointAt, ExponentAt, ScanExponent, AllDigits;
  }

  lemma MantissaIs(m: string, s: Scan)
    requires ValidScan(s) && s.whole == m[..PointAt(m)]
    requires s.fraction == if PointAt(m) < |m| then m[PointAt(m) + 1..] else ""
    ensures IsMantissa(m, s)
  {
    hide PointAt, AllDigits;
    MantissaFound(m);
    if PointAt(m) < |m| {
      assert m == s.whole + "." + s.fraction;
    } else {
      assert m == s.whole;
    }
  }

  lemma {:induction false} UnsignedSpells(negative: bool, t: string) returns (mantissa: string, tail: string)
    requires ScanUnsigned(negative, t).Some?
    ensures var s := ScanUnsigned(negative, t).value;
      t == mantissa + tail && s.negative == negative && IsMantissa(mantissa, s) && IsTail(tail, s.exponent)
  {
    hide PointAt, ExponentAt, ScanUnsigned, IsTail, IsMantissa, AllDigits;
    var s := ScanUnsigned(negative, t).value;
    var e := ExponentAt(t);
    mantissa, tail := t[..e], t[e..];
    TailFound(negative, t);
    UnsignedParts(negative, t);
    MantissaIs(mantissa, s);
    assert t == mantissa + tail;
  }

  lemma {:induction false} Scanned(text: string, s: Scan) returns (sign: string, mantissa: string, tail: string)
    requires ScanSeconds(text) == Some(s)
    ensures Spells(text, sign, mantissa, tail, s)
  {
    hide ScanUnsigned, IsMantissa, IsTail;
    sign := if text != "" && (text[0] == '-' || text[0] == '+') then text[..1] else "";
    var t := text[|sign|..];
    SignScanned(text, s);
    hide ScanSeconds;
    assert text == sign + t;
    mantissa, tail := UnsignedSpells(s.negative, t);
    assert text == sign + mantissa + tail;
  }

  /** The seconds field scans exactly the texts so spelt. */
  lemma {:induction false} ScansExactly(text: string, s: Scan)
    ensures ScanSeconds(text) == Some(s) <==>
      exists sign, mantissa, tail :: Spells(text, sign, mantissa, tail, s)
  {
    hide ScanSeconds, Spells;
    if ScanSeconds(text) == Some(s) {
      var sign, mantissa, tail := Scanned(text, s);
    }
    if sign, mantissa, tail :| Spells(text, sign, mantissa, tail, s) {
      SpeltScans(text, sign, mantissa, tail, s);
    }
  }

  lemma {:induction false} SignScanned(text: string, s: Scan)
    requires ScanSeconds(text) == Some(s)
    ensures var sign := if text != "" && (text[0] == '-' || text[0] == '+') then text[..1] else "";
      && ScanUnsigned(s.negative, text[|sign|..]) == Some(s)
      && (IsSign(sign, s.negative) || (sign == "+" && !s.negative))
  {
    assert ScanUnsigned(true, text).Some? ==> ScanUnsigned(true, text).value.negative;
    assert text[0..] == text;
  }
}
