/** Every record the writer produces is one step of the reader that restores
    exactly the value it was written from. */
module AntexRecords {
  import opened Text
  import opened Decimal
  import opened Seconds
  import opened SecondsField
  import opened AntexTypes
  import opened AntexReader
  import opened AntexWriter
  import opened PcvRows

  // ----- labeled lines -----

  lemma {:induction false} TagAfter(body: string, text: string)
    requires |body| <= LABEL_COLUMN && |text| <= 20 && Tight(text)
    ensures Tag(Pad(body, LABEL_COLUMN) + text) == text
  {
    var line := Pad(body, LABEL_COLUMN) + text;
    assert RawField(line, 60, 80) == text;
    TrimTight(text);
  }

  lemma {:induction false} LabeledTag(body: string, l: Label)
    requires |body| <= LABEL_COLUMN && l != GridRow
    ensures LabelOf(Tag(Labeled(body, l))) == l
  {
    hide LabelText, LabelOf, Tag, Pad;
    LabelEnds(l);
    LabelOfText(l);
    TagAfter(body, LabelText(l));
  }

  /** Columns of the body, which is blank past its own text. */
  lemma {:induction false} LabeledField(body: string, l: Label, a: nat, b: nat)
    requires |body| <= LABEL_COLUMN && a <= b <= LABEL_COLUMN
    ensures RawField(Labeled(body, l), a, b) == Pad(body, LABEL_COLUMN)[a..b]
  {
    hide LabelText;
    assert Labeled(body, l)[a..b] == Pad(body, LABEL_COLUMN)[a..b];
  }

  lemma {:induction false} LabeledBody(body: string, l: Label)
    requires |body| <= LABEL_COLUMN && TightEnd(body)
    ensures Body(Labeled(body, l)) == body
  {
    LabeledField(body, l, 0, LABEL_COLUMN);
    TrimEndPad(body, LABEL_COLUMN);
  }

  /** The columns `a..b` of a body that reaches that far. */
  lemma {:induction false} SliceField(body: string, l: Label, a: nat, b: nat)
    requires a <= b <= |body| <= LABEL_COLUMN
    ensures RawField(Labeled(body, l), a, b) == body[a..b]
  {
    LabeledField(body, l, a, b);
    assert Pad(body, LABEL_COLUMN)[a..b] == body[a..b];
  }

  lemma {:induction false} SliceF64(pf: Platform, body: string, l: Label, a: nat, b: nat, v: F64)
    requires a <= b <= |body| <= LABEL_COLUMN
    requires Trim(body[a..b]) != "" && StrictF64(pf, Trim(body[a..b])) == Some(v)
    ensures FortranF64(pf, Labeled(body, l), a, b) == Some(v)
  {
    SliceField(body, l, a, b);
  }

  lemma FourSlices(t0: string, t1: string, t2: string, t3: string)
    ensures var body := t0 + t1 + t2 + t3;
            var a, b, c := |t0|, |t0| + |t1|, |t0| + |t1| + |t2|;
            && |body| == c + |t3|
            && body[..a] == t0 && body[a..b] == t1 && body[b..c] == t2 && body[c..c + |t3|] == t3
  {
  }

  lemma ThreeSlices(t1: string, t2: string, t3: string)
    requires |t1| == |t2| == |t3| == 10
    ensures var body := t1 + t2 + t3;
            |body| == 30 && body[0..10] == t1 && body[10..20] == t2 && body[20..30] == t3
  {
  }

  lemma SixSlices(t0: string, t1: string, t2: string, t3: string, t4: string, t5: string)
    requires |t0| == |t1| == |t2| == |t3| == |t4| == 6
    ensures var body := t0 + t1 + t2 + t3 + t4 + t5;
            && |body| == 30 + |t5|
            && body[0..6] == t0 && body[6..12] == t1 && body[12..18] == t2
            && body[18..24] == t3 && body[24..30] == t4 && body[30..30 + |t5|] == t5
  {
    FourSlices(t0, t1, t2, t3);
    var head := t0 + t1 + t2 + t3;
    FourSlices(head, t4, t5, "");
    var body := head + t4 + t5;
    assert forall a: nat, b: nat :: a <= b <= 24 ==> body[a..b] == head[a..b];
  }

  /** A text at the end of the body, read from a wider field. */
  lemma {:induction false} OpenField(before: string, text: string, l: Label, end: nat)
    requires |before| + |text| <= end <= LABEL_COLUMN
    ensures RawField(Labeled(before + text, l), |before|, end) == Pad(text, end - |before|)
  {
    var body := before + text;
    LabeledField(body, l, |before|, end);
    assert Pad(body, LABEL_COLUMN)[|before|..end] == Pad(text, end - |before|);
  }

  // ----- header records -----

  lemma {:induction false} VersionReads(pf: Platform, v: AntexVersion, n: nat, s: State)
    requires Lawful(pf) && VersionFits(pf, v)
    requires Version !in s.headerRecords && !s.blockSeen && !s.header.endOfHeader
    ensures var line := VersionLine(pf, v);
            ReadVersion(pf, n, line, s)
            == Ok(s.(headerRecords := s.headerRecords[Version := Body(line)],
                     header := s.header.(version := Some(v))))
  {
    var number := pf.text(v.version, 8, 1);
    var flag := [if v.system.Some? then v.system.value else ' '];
    var line := VersionLine(pf, v);
    F8Reads(pf, v.version);
    assert |number| == 8;
    hide Lawful, FitsF8, StrictF64, FortranF64, Trim, Labeled, Body, RawField;
    var body := number + Blanks(12) + flag;
    assert |body| == 21 && body[0..8] == number && body[20..21] == flag;
    SliceF64(pf, body, Version, 0, 8, v.version);
    SliceField(body, Version, 20, 21);
  }

  lemma {:induction false} PcvTypeReads(r: PcvTypeRecord, n: nat, s: State)
    requires PcvTypeFits(r)
    requires PcvTypeRefant !in s.headerRecords && !s.blockSeen && !s.header.endOfHeader
    ensures var line := PcvTypeLine(r);
            ReadPcvType(n, line, s)
            == Ok(s.(headerRecords := s.headerRecords[PcvTypeRefant := Body(line)],
                     header := s.header.(pcvType := Some(r))))
  {
    var flag := if r.pcvType == Absolute then "A" else "R";
    var kind, serial := r.referenceType, r.referenceSerial;
    TrimPad(kind, 20);
    TrimPad(serial, 20);
    FourSlices(flag, Blanks(19), Pad(kind, 20), serial);
    hide Trim, Pad;
    var head := flag + Blanks(19) + Pad(kind, 20);
    var body := head + serial;
    assert body[0..1] == flag && flag == [flag[0]];
    OpenField(head, serial, PcvTypeRefant, 60);
    SliceField(body, PcvTypeRefant, 0, 1);
    SliceField(body, PcvTypeRefant, 20, 40);
    hide Labeled, RawField, Blanks, Body;
    assert RawField(PcvTypeLine(r), 0, 1) == flag;
    assert TrimmedField(PcvTypeLine(r), 20, 40) == kind;
    assert TrimmedField(PcvTypeLine(r), 40, 60) == serial;
    hide PcvTypeLine, TrimmedField;
  }

  // ----- block records -----

  lemma {:induction false} IdentityReads(a: Antenna, b: Antenna)
    requires IdentityAgrees(a)
    ensures Identify(b, Labeled(a.id, TypeSerial))
            == b.(id := a.id, antennaType := a.antennaType, serial := a.serial, kind := a.kind)
  {
    hide Labeled, TrimmedField, IsSatelliteSerial;
  }

  lemma {:induction false} CalibrationReads(c: Calibration, n: nat, s: State)
    requires CalibrationFits(c) && s.current.Some?
    ensures var b := s.current.value;
            ReadCalibration(n, Labeled(CalibrationBody(c), Meth), s)
            == s.(current := Some(b.(antenna := b.antenna.(calibrations := b.antenna.calibrations + [c]))))
  {
    var line := Labeled(CalibrationBody(c), Meth);
    CalibrationTexts(c);
    CalibrationCount(c);
    hide Labeled, CalibrationBody, CalibrationFits, TrimEnd, RawField, Field, StrictUnsigned;
  }

  function CountText(c: Calibration): string { if c.antennas.Some? then Digits(c.antennas.value) else "" }

  lemma {:induction false} CountTextFits(c: Calibration)
    requires c.antennas.Some? ==> c.antennas.value <= 999999
    ensures |CountText(c)| <= 6
  {
    if c.antennas.Some? {
      ValueOfDigits(c.antennas.value);
      DecimalDigitsFit(c.antennas.value, 6);
      assert Pow10(6) == 1000000 by { Pow10Add(3, 3); }
    }
  }

  lemma {:induction false} CalibrationSlices(c: Calibration)
    requires CalibrationFits(c)
    ensures var body := CalibrationBody(c);
            && |body| == 50 + |c.date|
            && body[0..20] == Pad(c.method_, 20)
            && body[20..40] == Pad(c.agency, 20)
            && body[40..46] == PadLeft(CountText(c), 6)
            && body == body[..50] + c.date
  {
    CountTextFits(c);
    hide Digits;
    FourSlices(Pad(c.method_, 20), Pad(c.agency, 20), PadLeft(CountText(c), 6), Blanks(4));
    var head := Pad(c.method_, 20) + Pad(c.agency, 20) + PadLeft(CountText(c), 6) + Blanks(4);
    hide Pad, PadLeft, CountText;
    var body := head + c.date;
    assert body[..50] == head;
    assert forall a: nat, b: nat :: a <= b <= 50 ==> body[a..b] == head[a..b];
  }

  lemma {:induction false} CalibrationTexts(c: Calibration)
    requires CalibrationFits(c)
    ensures var line := Labeled(CalibrationBody(c), Meth);
            && TrimEnd(RawField(line, 0, 20)) == c.method_
            && TrimEnd(RawField(line, 20, 40)) == c.agency
            && TrimEnd(RawField(line, 50, 60)) == c.date
  {
    CalibrationSlices(c);
    TrimEndPad(c.method_, 20);
    TrimEndPad(c.agency, 20);
    TrimEndPad(c.date, 10);
    hide Labeled, CalibrationBody, TrimEnd, RawField, Pad;
    var body := CalibrationBody(c);
    SliceField(body, Meth, 0, 20);
    SliceField(body, Meth, 20, 40);
    OpenField(body[..50], c.date, Meth, 60);
  }

  lemma {:induction false} CalibrationCount(c: Calibration)
    requires CalibrationFits(c)
    ensures var text := Field(Labeled(CalibrationBody(c), Meth), 40, 46);
            if c.antennas.None? then text == None
            else text.Some? && StrictUnsigned(text.value, U32_MAX) == c.antennas
  {
    CalibrationSlices(c);
    CountTextReads(c);
    hide Labeled, CalibrationBody, Digits, Trim, StrictUnsigned, CountText, PadLeft;
    SliceField(CalibrationBody(c), Meth, 40, 46);
  }

  lemma {:induction false} CountTextReads(c: Calibration)
    requires c.antennas.Some? ==> c.antennas.value <= 999999
    ensures var t := Trim(PadLeft(CountText(c), 6));
            if c.antennas.None? then t == "" else t != "" && StrictUnsigned(t, U32_MAX) == c.antennas
  {
    if c.antennas.Some? {
      IntegerReads(c.antennas.value, 6, U32_MAX);
    } else {
      TrimPadLeft("", 6);
    }
  }

  /** A right-justified integer reads back. */
  lemma {:induction false} IntegerReads(k: nat, width: nat, max: nat)
    requires k <= max
    ensures var t := Trim(PadLeft(Digits(k), width)); t == Digits(k) && t != "" && StrictUnsigned(t, max) == Some(k)
  {
    IntegerField(k, width);
    IntegerText(k, max);
    DigitsTight(k);
    TrimTight(Digits(k));
  }

  lemma {:induction false} DaziReads(pf: Platform, v: F64, n: nat, s: State)
    requires Lawful(pf) && FitsF6(pf, v) && s.current.Some? && Dazi !in s.current.value.records
    ensures var b := s.current.value;
            var line := DaziLine(pf, v);
            ReadDazi(pf, n, line, s)
            == Ok(s.(current := Some(b.(records := b.records[Dazi := Body(line)], antenna := b.antenna.(dazi := Some(v))))))
  {
    var text := pf.text(v, 6, 1);
    F6Reads(pf, v);
    assert |text| == 6;
    hide Lawful, FitsF6, StrictF64, FortranF64, Trim, Labeled, Body, RawField;
    var body := "  " + text;
    assert |body| == 8 && body[0..2] == "  " && body[2..8] == text;
    SliceField(body, Dazi, 0, 2);
    SliceF64(pf, body, Dazi, 2, 8, v);
  }

  lemma {:induction false} GridReads(pf: Platform, g: ZenithGrid, n: nat, s: State)
    requires Lawful(pf) && GridFits(pf, g) && s.current.Some? && Zenith !in s.current.value.records
    ensures var b := s.current.value;
            var line := GridLine(pf, g);
            ReadZenith(pf, n, line, s)
            == Ok(s.(current := Some(b.(records := b.records[Zenith := Body(line)], antenna := b.antenna.(grid := Some(g))))))
  {
    var t1, t2, t3 := pf.text(g.start, 6, 1), pf.text(g.end, 6, 1), pf.text(g.step, 6, 1);
    F6Reads(pf, g.start);
    F6Reads(pf, g.end);
    F6Reads(pf, g.step);
    assert |t1| == |t2| == |t3| == 6;
    FourSlices("  ", t1, t2, t3);
    var body := "  " + t1 + t2 + t3;
    assert |"  "| == 2;
    GridFieldsRead(pf, g, body, n, s);
  }

  lemma {:induction false} GridFieldsRead(pf: Platform, g: ZenithGrid, body: string, n: nat, s: State)
    requires |body| == 20 && s.current.Some? && Zenith !in s.current.value.records
    requires Trim(body[2..8]) != "" && StrictF64(pf, Trim(body[2..8])) == Some(g.start)
    requires Trim(body[8..14]) != "" && StrictF64(pf, Trim(body[8..14])) == Some(g.end)
    requires Trim(body[14..20]) != "" && StrictF64(pf, Trim(body[14..20])) == Some(g.step)
    ensures var b := s.current.value;
            var line := Labeled(body, Zenith);
            ReadZenith(pf, n, line, s)
            == Ok(s.(current := Some(b.(records := b.records[Zenith := Body(line)], antenna := b.antenna.(grid := Some(g))))))
  {
    hide StrictF64, FortranF64, Trim, Labeled, Body;
    SliceF64(pf, body, Zenith, 2, 8, g.start);
    SliceF64(pf, body, Zenith, 8, 14, g.end);
    SliceF64(pf, body, Zenith, 14, 20, g.step);
  }

  lemma {:induction false} SixDigits(k: nat)
    requires k <= 999999
    ensures |Digits(k)| <= 6
  {
    ValueOfDigits(k);
    DecimalDigitsFit(k, 6);
    assert Pow10(6) == 1000000 by { Pow10Add(3, 3); }
  }

  lemma {:induction false} CountReads(count: nat, n: nat, s: State)
    requires count <= 999999 && s.current.Some? && FrequencyCount !in s.current.value.records
    ensures var b := s.current.value;
            var line := CountLine(count);
            ReadFrequencyCount(n, line, s)
            == Ok(s.(current := Some(b.(records := b.records[FrequencyCount := Body(line)],
                                        antenna := b.antenna.(hasFrequencyCount := true),
                                        declared := Some(count)))))
  {
    var text := PadLeft(Digits(count), 6);
    SixDigits(count);
    CountFieldReads(count);
    assert |text| == 6 && text[0..6] == text;
    hide Labeled, Digits, PadLeft, Body, StrictUnsigned, Trim, RawField;
    SliceField(text, FrequencyCount, 0, 6);
  }

  lemma {:induction false} CountFieldReads(count: nat)
    requires count <= 999999
    ensures StrictUnsigned(PadLeft(Digits(count), 6), U64_MAX) == Some(count)
  {
    IntegerReads(count, 6, U64_MAX);
    IntegerText(count, U64_MAX);
  }

  lemma {:induction false} SinexReads(code: string, n: nat, s: State)
    requires SinexFits(code) && s.current.Some? && Sinex !in s.current.value.records
    ensures var b := s.current.value;
            var line := Labeled(code, Sinex);
            ReadSinex(n, line, s)
            == Ok(s.(current := Some(b.(records := b.records[Sinex := Body(line)], antenna := b.antenna.(sinex := Some(code))))))
  {
    TrimPad(code, 60);
    assert "" + code == code;
    hide Labeled, Trim, Body;
    OpenField("", code, Sinex, 60);
  }

  // ----- validity bounds -----

  lemma {:induction false} SmallInteger(k: nat)
    requires k <= 9999
    ensures |PadLeft(Digits(k), 6)| == 6
    ensures ParseI64(Trim(PadLeft(Digits(k), 6))) == Some(k)
  {
    SixDigits(k);
    IntegerField(k, 6);
    IntegerText(k, k);
  }

  /** One `I6` component of a date. */
  lemma {:induction false} DatePartReads(body: string, k: nat, l: Label, id: string, i: nat)
    requires i < 5 && 6 * i + 6 <= |body| <= LABEL_COLUMN && k <= 9999
    requires body[6 * i..6 * i + 6] == PadLeft(Digits(k), 6)
    ensures DatePart(Labeled(body, l), l, id, i) == Ok(k)
  {
    SmallInteger(k);
    hide Labeled, Trim, ParseI64, Digits, PadLeft;
    SliceField(body, l, 6 * i, 6 * i + 6);
  }

  lemma {:induction false} DateSeconds(d: DateTime, text: string, body: string, l: Label)
    requires d.second <= 59 && Normal(d.fraction) && SecondsText(d.second, d.fraction) == Some(text)
    requires |body| == 43 && body[30..43] == PadLeft(text, SECONDS_WIDTH)
    ensures ParseGpsSeconds(DateText(Labeled(body, l), 5)) == Some((d.second, d.fraction))
  {
    hide Labeled, Trim, PadLeft, SecondsText, ParseGpsSeconds;
    SecondsRoundTrip(d.second, d.fraction);
    SecondsTextClean(d.second, d.fraction);
    TrimPadLeft(text, SECONDS_WIDTH);
    SliceField(body, l, 30, 43);
  }

  lemma {:induction false} DateSlices(d: DateTime, text: string)
    requires DateInRange(d) && |text| <= SECONDS_WIDTH
    ensures var body := DateBody(d, text);
            && |body| == 43
            && body[0..6] == PadLeft(Digits(d.year), 6)
            && body[6..12] == PadLeft(Digits(d.month), 6)
            && body[12..18] == PadLeft(Digits(d.day), 6)
            && body[18..24] == PadLeft(Digits(d.hour), 6)
            && body[24..30] == PadLeft(Digits(d.minute), 6)
            && body[30..43] == PadLeft(text, SECONDS_WIDTH)
  {
    SmallInteger(d.year);
    SmallInteger(d.month);
    SmallInteger(d.day);
    SmallInteger(d.hour);
    SmallInteger(d.minute);
    hide Digits, PadLeft;
    SixSlices(PadLeft(Digits(d.year), 6), PadLeft(Digits(d.month), 6), PadLeft(Digits(d.day), 6),
              PadLeft(Digits(d.hour), 6), PadLeft(Digits(d.minute), 6), PadLeft(text, SECONDS_WIDTH));
  }

  lemma {:induction false} DateReads(d: DateTime, text: string, l: Label, id: string)
    requires DateInRange(d) && Normal(d.fraction) && SecondsText(d.second, d.fraction) == Some(text)
    ensures ReadDate(Labeled(DateBody(d, text), l), l, id) == Ok(d)
  {
    SecondsRoundTrip(d.second, d.fraction);
    DateSlices(d, text);
    hide Labeled, DateBody, Digits, PadLeft, SecondsText, ParseGpsSeconds, DatePart, DateText;
    var body := DateBody(d, text);
    DatePartReads(body, d.year, l, id, 0);
    DatePartReads(body, d.month, l, id, 1);
    DatePartReads(body, d.day, l, id, 2);
    DatePartReads(body, d.hour, l, id, 3);
    DatePartReads(body, d.minute, l, id, 4);
    DateSeconds(d, text, body, l);
  }

  lemma {:induction false} ValidReads(d: DateTime, l: Label, n: nat, s: State)
    requires l == ValidFrom || l == ValidUntil
    requires DateFits(d) && s.current.Some? && l !in s.current.value.records
    ensures var b := s.current.value;
            var line := DateLine(d, l);
            ReadValid(n, line, s, l)
            == Ok(s.(current := Some(b.(records := b.records[l := Body(line)],
                                        antenna := if l == ValidFrom then b.antenna.(validFrom := Some(d))
                                                   else b.antenna.(validUntil := Some(d))))))
  {
    DateReads(d, SecondsText(d.second, d.fraction).value, l, s.current.value.antenna.id);
    hide Labeled, DateBody, ReadDate, Body, SecondsText;
  }

  // ----- section records -----

  lemma {:induction false} CodeTight(code: string)
    requires IsFrequencyCode(code)
    ensures Tight(code) && OneLine(code)
  {
  }

  lemma {:induction false} SectionName(code: string, l: Label)
    requires IsFrequencyCode(code)
    ensures TrimmedField(Labeled("   " + code, l), 0, 20) == code
  {
    CodeTight(code);
    var body := "   " + code;
    assert body == Blanks(3) + code;
    assert Pad(body, 20) == Blanks(3) + code + Blanks(14);
    TrimSurrounded(3, code, 14);
    assert "" + body == body;
    hide Labeled, Trim;
    OpenField("", body, l, 20);
  }

  lemma {:induction false} PcoReads(pf: Platform, p: Triple, n: nat, s: State)
    requires Lawful(pf) && PcoFits(pf, p) && s.section.Some? && s.section.value.pcoBody.None?
    ensures var sec := s.section.value;
            var line := PcoLine(pf, p);
            ReadPco(pf, n, line, s) == Ok(s.(section := Some(sec.(pco := Some(p), pcoBody := Some(Body(line))))))
  {
    var t1, t2, t3 := MmText(pf, p.north, 10), MmText(pf, p.east, 10), MmText(pf, p.up, 10);
    MmReads(pf, p.north, 10);
    MmReads(pf, p.east, 10);
    MmReads(pf, p.up, 10);
    assert |t1| == |t2| == |t3| == 10;
    ThreeSlices(t1, t2, t3);
    hide Lawful, FitsMm, MmText, StrictF64, Trim, Labeled, Body, ReadPco;
    PcoFieldsRead(pf, t1 + t2 + t3, Millimetres(pf, p.north, 10), Millimetres(pf, p.east, 10),
                  Millimetres(pf, p.up, 10), n, s);
  }

  lemma {:induction false} PcoFieldsRead(pf: Platform, body: string, north: F64, east: F64, up: F64, n: nat, s: State)
    requires |body| == 30 && s.section.Some? && s.section.value.pcoBody.None?
    requires Trim(body[0..10]) != "" && StrictF64(pf, Trim(body[0..10])) == Some(north)
    requires Trim(body[10..20]) != "" && StrictF64(pf, Trim(body[10..20])) == Some(east)
    requires Trim(body[20..30]) != "" && StrictF64(pf, Trim(body[20..30])) == Some(up)
    ensures var sec := s.section.value;
            var line := Labeled(body, NorthEastUp);
            var p := Triple(pf.mul(north, pf.mPerMm), pf.mul(east, pf.mPerMm), pf.mul(up, pf.mPerMm));
            ReadPco(pf, n, line, s) == Ok(s.(section := Some(sec.(pco := Some(p), pcoBody := Some(Body(line))))))
  {
    hide StrictF64, FortranF64, Trim, Labeled, Body;
    SliceF64(pf, body, NorthEastUp, 0, 10, north);
    SliceF64(pf, body, NorthEastUp, 10, 20, east);
    SliceF64(pf, body, NorthEastUp, 20, 30, up);
  }

  // ----- the laws can hold -----

  /** A platform of whole numbers: each value is its bits, written in digits. */
  const WHOLE_NUMBERS := Platform(
    (s: string) => match ParseUnsigned(s, U64_MAX) { case None => None case Some(n) => Some(F64(n)) },
    (v: F64, width: nat, decimals: nat) => PadLeft(Digits(v.bits), width),
    (v: F64) => true,
    (v: F64) => if v.bits == 0 then Zero else Positive,
    (v: F64) => false,
    (v: F64, w: F64) => v.bits < w.bits,
    (v: F64, w: F64) => F64(v.bits + w.bits),
    (v: F64, w: F64) => if v.bits < w.bits then F64(0) else F64(v.bits - w.bits),
    (v: F64, w: F64) => F64(v.bits * w.bits),
    (v: F64, w: F64) => if w.bits == 0 then F64(0) else F64(v.bits / w.bits),
    (v: F64) => v,
    (v: F64) => v.bits,
    (v: F64) => v.bits,
    (n: nat) => F64(n),
    F64(10), F64(1), F64(1))

  /** The four laws hold together. */
  lemma WholeNumbersLawful()
    ensures Lawful(WHOLE_NUMBERS)
  {
    forall v: F64, w: nat, d: nat ensures NumericText(WHOLE_NUMBERS.text(v, w, d)) {
      PaddedDigitsNumeric(v.bits, w);
    }
  }

  lemma PaddedDigitsNumeric(n: nat, width: nat)
    ensures NumericText(PadLeft(Digits(n), width))
  {
    var s := PadLeft(Digits(n), width);
    ValueOfDigits(n);
    IntegerField(n, width);
  }
}
