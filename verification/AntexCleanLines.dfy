/** Nothing the writer produces contains a line break, so splitting the written
    text gives back the lines. */
module AntexCleanLines {
  import opened Text
  import opened Decimal
  import opened SecondsField
  import opened AntexTypes
  import opened AntexReader
  import opened AntexWriter
  import opened PcvRows
  import opened AntexRecords

  predicate Clean(lines: seq<string>) { forall i :: 0 <= i < |lines| ==> OneLine(lines[i]) }

  lemma CleanConcat(a: seq<string>, b: seq<string>)
    requires Clean(a) && Clean(b)
    ensures Clean(a + b)
  {
    hide OneLine;
  }

  lemma OneLineConcat(a: string, b: string)
    requires OneLine(a) && OneLine(b)
    ensures OneLine(a + b)
  {
  }

  lemma BlanksOneLine(n: nat)
    ensures OneLine(Blanks(n))
  {
  }

  lemma PadOneLine(s: string, width: nat)
    requires OneLine(s)
    ensures OneLine(Pad(s, width)) && OneLine(PadLeft(s, width))
  {
    hide OneLine;
    if |s| < width {
      BlanksOneLine(width - |s|);
      OneLineConcat(s, Blanks(width - |s|));
      OneLineConcat(Blanks(width - |s|), s);
    }
  }

  lemma LabeledOneLine(body: string, l: Label)
    requires OneLine(body)
    ensures OneLine(Labeled(body, l))
  {
    hide OneLine, LabelText, Pad;
    PadOneLine(body, LABEL_COLUMN);
    LabelOneLine(l);
    OneLineConcat(Pad(body, LABEL_COLUMN), LabelText(l));
  }

  lemma NumericOneLine(s: string)
    requires forall i :: 0 <= i < |s| ==> IsNumeric(s[i])
    ensures OneLine(s)
  {
  }

  lemma DigitsOneLine(n: nat, width: nat)
    ensures OneLine(PadLeft(Digits(n), width))
  {
    hide OneLine, PadLeft;
    DigitsTight(n);
    PadOneLine(Digits(n), width);
  }

  lemma {:induction false} F6OneLine(pf: Platform, v: F64)
    requires Lawful(pf) && FitsF6(pf, v)
    ensures OneLine(pf.text(v, 6, 1))
  {
    hide OneLine;
    F6Reads(pf, v);
    NumericOneLine(pf.text(v, 6, 1));
  }

  lemma {:induction false} F8OneLine(pf: Platform, v: F64)
    requires Lawful(pf) && FitsF8(pf, v)
    ensures OneLine(pf.text(v, 8, 1))
  {
    hide OneLine;
    F8Reads(pf, v);
    NumericOneLine(pf.text(v, 8, 1));
  }

  lemma {:induction false} MmOneLine(pf: Platform, v: F64, width: nat)
    requires Lawful(pf) && FitsMm(pf, v, width)
    ensures OneLine(MmText(pf, v, width))
  {
    hide OneLine;
    MmReads(pf, v, width);
    NumericOneLine(MmText(pf, v, width));
  }

  lemma ThreeOneLine(a: string, b: string, c: string)
    requires OneLine(a) && OneLine(b) && OneLine(c)
    ensures OneLine(a + b + c)
  {
    hide OneLine;
    OneLineConcat(a, b);
    OneLineConcat(a + b, c);
  }

  // ----- records -----

  lemma {:induction false} CommentsClean(cs: seq<string>)
    requires CommentsFit(cs)
    ensures Clean(CommentLines(cs))
    decreases |cs|
  {
    hide OneLine, Labeled;
    if cs != [] {
      assert OneLine(cs[0]);
      LabeledOneLine(cs[0], Comment);
      CommentsClean(cs[1..]);
    }
  }

  lemma {:induction false} VersionClean(pf: Platform, v: AntexVersion)
    requires Lawful(pf) && VersionFits(pf, v)
    ensures OneLine(VersionLine(pf, v))
  {
    F8OneLine(pf, v.version);
    var flag := [if v.system.Some? then v.system.value else ' '];
    assert OneLine(flag);
    BlanksOneLine(12);
    hide OneLine, Labeled;
    ThreeOneLine(pf.text(v.version, 8, 1), Blanks(12), flag);
    LabeledOneLine(pf.text(v.version, 8, 1) + Blanks(12) + flag, Version);
  }

  lemma {:induction false} PcvTypeClean(r: PcvTypeRecord)
    requires PcvTypeFits(r)
    ensures OneLine(PcvTypeLine(r))
  {
    var flag := if r.pcvType == Absolute then "A" else "R";
    assert OneLine(flag);
    hide OneLine, Labeled, Pad;
    BlanksOneLine(19);
    PadOneLine(r.referenceType, 20);
    ThreeOneLine(flag, Blanks(19), Pad(r.referenceType, 20));
    OneLineConcat(flag + Blanks(19) + Pad(r.referenceType, 20), r.referenceSerial);
    LabeledOneLine(flag + Blanks(19) + Pad(r.referenceType, 20) + r.referenceSerial, PcvTypeRefant);
  }

  lemma EmptyClean(l: Label)
    ensures OneLine(Labeled("", l))
  {
    hide Labeled;
    LabeledOneLine("", l);
  }

  lemma {:induction false} HeaderClean(pf: Platform, h: Header)
    requires Lawful(pf) && HeaderFits(pf, h)
    ensures Clean(HeaderLines(pf, h))
  {
    hide Lawful, OneLine, Labeled, VersionFits, PcvTypeFits, CommentsFit, VersionLine, PcvTypeLine, CommentLines;
    var l1 := if h.version.Some? then [VersionLine(pf, h.version.value)] else [];
    var l2 := if h.pcvType.Some? then [PcvTypeLine(h.pcvType.value)] else [];
    var l4 := if h.endOfHeader then [Labeled("", EndOfHeader)] else [];
    if h.version.Some? { VersionClean(pf, h.version.value); }
    if h.pcvType.Some? { PcvTypeClean(h.pcvType.value); }
    CommentsClean(h.comments);
    EmptyClean(EndOfHeader);
    CleanConcat(l1, l2);
    CleanConcat(l1 + l2, CommentLines(h.comments));
    CleanConcat(l1 + l2 + CommentLines(h.comments), l4);
  }

  lemma {:induction false} CalibrationClean(c: Calibration)
    requires CalibrationFits(c)
    ensures OneLine(CalibrationBody(c))
  {
    var count := if c.antennas.Some? then Digits(c.antennas.value) else "";
    assert OneLine(count) by { if c.antennas.Some? { DigitsTight(c.antennas.value); } }
    hide OneLine, Pad, PadLeft;
    PadOneLine(c.method_, 20);
    PadOneLine(c.agency, 20);
    PadOneLine(count, 6);
    BlanksOneLine(4);
    ThreeOneLine(Pad(c.method_, 20), Pad(c.agency, 20), PadLeft(count, 6));
    ThreeOneLine(Pad(c.method_, 20) + Pad(c.agency, 20) + PadLeft(count, 6), Blanks(4), c.date);
  }

  lemma {:induction false} CalibrationsClean(cs: seq<Calibration>)
    requires CalibrationsFit(cs)
    ensures Clean(CalibrationLines(cs))
    decreases |cs|
  {
    hide OneLine, Labeled, CalibrationFits, CalibrationBody;
    if cs != [] {
      CalibrationClean(cs[0]);
      LabeledOneLine(CalibrationBody(cs[0]), Meth);
      CalibrationsClean(cs[1..]);
    }
  }

  lemma {:induction false} DaziClean(pf: Platform, v: Option<F64>)
    requires Lawful(pf) && (v.Some? ==> FitsF6(pf, v.value))
    ensures Clean(DaziLines(pf, v))
  {
    assert OneLine("  ");
    hide OneLine, Lawful, FitsF6, Labeled;
    if v.Some? {
      F6OneLine(pf, v.value);
      OneLineConcat("  ", pf.text(v.value, 6, 1));
      LabeledOneLine("  " + pf.text(v.value, 6, 1), Dazi);
    }
  }

  lemma {:induction false} GridClean(pf: Platform, g: Option<ZenithGrid>)
    requires Lawful(pf) && (g.Some? ==> GridFits(pf, g.value))
    ensures Clean(GridLines(pf, g))
  {
    assert OneLine("  ");
    hide OneLine, Lawful, FitsF6, Labeled;
    if g.Some? {
      var a, b, c := pf.text(g.value.start, 6, 1), pf.text(g.value.end, 6, 1), pf.text(g.value.step, 6, 1);
      F6OneLine(pf, g.value.start);
      F6OneLine(pf, g.value.end);
      F6OneLine(pf, g.value.step);
      ThreeOneLine("  ", a, b);
      OneLineConcat("  " + a + b, c);
      LabeledOneLine("  " + a + b + c, Zenith);
    }
  }

  lemma {:induction false} CountClean(stated: bool, count: nat)
    ensures Clean(CountLines(stated, count))
  {
    hide OneLine, Labeled, PadLeft;
    DigitsOneLine(count, 6);
    LabeledOneLine(PadLeft(Digits(count), 6), FrequencyCount);
  }

  lemma {:induction false} DateBodyClean(d: DateTime, text: string)
    requires OneLine(text)
    ensures OneLine(DateBody(d, text))
  {
    hide OneLine, PadLeft, Digits;
    var y, mo, da := PadLeft(Digits(d.year), 6), PadLeft(Digits(d.month), 6), PadLeft(Digits(d.day), 6);
    var h, mi, se := PadLeft(Digits(d.hour), 6), PadLeft(Digits(d.minute), 6), PadLeft(text, SECONDS_WIDTH);
    DigitsOneLine(d.year, 6);
    DigitsOneLine(d.month, 6);
    DigitsOneLine(d.day, 6);
    DigitsOneLine(d.hour, 6);
    DigitsOneLine(d.minute, 6);
    PadOneLine(text, SECONDS_WIDTH);
    ThreeOneLine(y, mo, da);
    ThreeOneLine(y + mo + da, h, mi);
    OneLineConcat(y + mo + da + h + mi, se);
  }

  lemma {:induction false} DateClean(d: Option<DateTime>, l: Label)
    requires d.Some? ==> DateFits(d.value)
    ensures Clean(DateLines(d, l))
  {
    hide OneLine, Labeled, DateBody, SecondsText;
    if d.Some? {
      var text := SecondsText(d.value.second, d.value.fraction).value;
      SecondsTextClean(d.value.second, d.value.fraction);
      DateBodyClean(d.value, text);
      LabeledOneLine(DateBody(d.value, text), l);
    }
  }

  lemma {:induction false} SinexClean(code: Option<string>)
    requires code.Some? ==> SinexFits(code.value)
    ensures Clean(SinexLines(code))
  {
    hide OneLine, Labeled;
    if code.Some? {
      LabeledOneLine(code.value, Sinex);
    }
  }

  lemma {:induction false} RecordsClean(pf: Platform, a: Antenna)
    requires Lawful(pf) && RecordsFit(pf, a)
    ensures Clean(RecordLines(pf, a))
  {
    hide Lawful, OneLine, Clean, FitsF6, GridFits, DateFits, SinexFits, CommentsFit, CalibrationsFit, DaziLines, GridLines,
         CountLines, DateLines, SinexLines, CommentLines, CalibrationLines, Earlier;
    var l1, l2, l3 := CalibrationLines(a.calibrations), DaziLines(pf, a.dazi), GridLines(pf, a.grid);
    var l4, l5 := CountLines(a.hasFrequencyCount, |a.frequencies|), DateLines(a.validFrom, ValidFrom);
    var l6, l7, l8 := DateLines(a.validUntil, ValidUntil), SinexLines(a.sinex), CommentLines(a.comments);
    CalibrationsClean(a.calibrations);
    DaziClean(pf, a.dazi);
    GridClean(pf, a.grid);
    CountClean(a.hasFrequencyCount, |a.frequencies|);
    DateClean(a.validFrom, ValidFrom);
    DateClean(a.validUntil, ValidUntil);
    SinexClean(a.sinex);
    CommentsClean(a.comments);
    CleanConcat(l1, l2);
    CleanConcat(l1 + l2, l3);
    CleanConcat(l1 + l2 + l3, l4);
    CleanConcat(l1 + l2 + l3 + l4, l5);
    CleanConcat(l1 + l2 + l3 + l4 + l5, l6);
    CleanConcat(l1 + l2 + l3 + l4 + l5 + l6, l7);
    CleanConcat(l1 + l2 + l3 + l4 + l5 + l6 + l7, l8);
  }

  // ----- rows and sections -----

  lemma {:induction false} RowClean(pf: Platform, g: ZenithGrid, key: Option<F64>, head: string, samples: seq<PcvSample>)
    requires Lawful(pf) && RowOk(pf, g, key, samples) && OneLine(head)
    ensures OneLine(PcvRow(pf, g, head, samples))
  {
    assert forall i :: 0 <= i < |samples| ==> FitsMm(pf, samples[i].value, 8);
    hide OneLine, Lawful, RowOk, Pad, FitsMm, Index;
    var last := LastIndex(pf, g, samples);
    CellsNumeric(pf, g, samples, 0, last);
    NumericOneLine(Cells(pf, g, samples, 0, last));
    PadOneLine(head, 8);
    OneLineConcat(Pad(head, 8), Cells(pf, g, samples, 0, last));
  }

  lemma {:induction false} AzimuthRowsClean(pf: Platform, g: ZenithGrid, rows: seq<AzimuthSamples>, seen: seq<F64>)
    requires Lawful(pf) && RowsOk(pf, g, rows, seen)
    ensures Clean(AzimuthLines(pf, g, rows))
    decreases |rows|
  {
    hide OneLine, Lawful, RowOk, PcvRow, FitsF8;
    if rows != [] {
      F8OneLine(pf, seen[0]);
      RowClean(pf, g, Some(seen[0]), rows[0].head, rows[0].samples);
      AzimuthRowsClean(pf, g, rows[1..], seen[1..]);
    }
  }

  lemma {:induction false} RowsClean(pf: Platform, grid: Option<ZenithGrid>, samples: seq<PcvSample>)
    requires Lawful(pf) && RowsFit(pf, grid, samples)
    ensures Clean(RowLines(pf, grid, samples))
  {
    assert OneLine(NOAZI_HEAD);
    hide OneLine, Lawful, RowOk, RowsOk, PcvRow, GroupFrom, AzimuthLines, Flatten;
    if samples != [] {
      var g := grid.value;
      var groups := GroupSamples(pf, g, samples).value;
      GroupingPartitions(pf, g, samples);
      RowClean(pf, g, None, NOAZI_HEAD, groups.noazi);
      AzimuthRowsClean(pf, g, groups.rows, groups.seen);
      CleanConcat(if groups.noazi == [] then [] else [PcvRow(pf, g, NOAZI_HEAD, groups.noazi)], AzimuthLines(pf, g, groups.rows));
    }
  }

  lemma {:induction false} PcoClean(pf: Platform, p: Triple)
    requires Lawful(pf) && PcoFits(pf, p)
    ensures OneLine(PcoLine(pf, p))
  {
    hide OneLine, Lawful, FitsMm, MmText, Labeled;
    var a, b, c := MmText(pf, p.north, 10), MmText(pf, p.east, 10), MmText(pf, p.up, 10);
    MmOneLine(pf, p.north, 10);
    MmOneLine(pf, p.east, 10);
    MmOneLine(pf, p.up, 10);
    ThreeOneLine(a, b, c);
    LabeledOneLine(a + b + c, NorthEastUp);
  }

  lemma {:induction false} CodeClean(code: string, l: Label)
    requires IsFrequencyCode(code)
    ensures OneLine(Labeled("   " + code, l))
  {
    CodeTight(code);
    assert OneLine("   ");
    hide OneLine, Labeled, IsFrequencyCode;
    OneLineConcat("   ", code);
    LabeledOneLine("   " + code, l);
  }

  lemma {:induction false} SectionClean(pf: Platform, grid: Option<ZenithGrid>, code: string, start: Label, end: Label,
                                        pco: Option<Triple>, samples: seq<PcvSample>)
    requires Lawful(pf) && IsFrequencyCode(code) && (pco.Some? ==> PcoFits(pf, pco.value)) && RowsFit(pf, grid, samples)
    ensures Clean([Labeled("   " + code, start)] + (if pco.Some? then [PcoLine(pf, pco.value)] else [])
                  + RowLines(pf, grid, samples) + [Labeled("   " + code, end)])
  {
    hide OneLine, Lawful, PcoFits, RowsFit, PcoLine, RowLines, Labeled, IsFrequencyCode;
    var l1, l4 := [Labeled("   " + code, start)], [Labeled("   " + code, end)];
    var l2 := if pco.Some? then [PcoLine(pf, pco.value)] else [];
    CodeClean(code, start);
    CodeClean(code, end);
    if pco.Some? { PcoClean(pf, pco.value); }
    RowsClean(pf, grid, samples);
    CleanConcat(l1, l2);
    CleanConcat(l1 + l2, RowLines(pf, grid, samples));
    CleanConcat(l1 + l2 + RowLines(pf, grid, samples), l4);
  }

  lemma {:induction false} FrequencyClean(pf: Platform, grid: Option<ZenithGrid>, f: Frequency)
    requires Lawful(pf) && FrequencyFits(pf, grid, f)
    ensures Clean(FrequencyLines(pf, grid, f))
  {
    hide OneLine, Lawful, PcoFits, RowsFit, PcoLine, RowLines, Labeled, IsFrequencyCode, Clean;
    var lines := [Labeled("   " + f.freq, StartOfFrequency)] + [PcoLine(pf, f.pco)]
                 + RowLines(pf, grid, f.samples) + [Labeled("   " + f.freq, EndOfFrequency)];
    SectionClean(pf, grid, f.freq, StartOfFrequency, EndOfFrequency, Some(f.pco), f.samples);
    if f.rms.Some? {
      SectionClean(pf, grid, f.freq, StartOfRms, EndOfRms, f.rms.value.pco, f.rms.value.samples);
      CleanConcat(lines, RmsLines(pf, grid, f.freq, f.rms.value));
    } else {
      assert lines + [] == lines;
    }
  }

  lemma {:induction false} SectionsClean(pf: Platform, grid: Option<ZenithGrid>, fs: seq<Frequency>)
    requires Lawful(pf) && FrequenciesFit(pf, grid, fs)
    ensures Clean(SectionLines(pf, grid, fs))
    decreases |fs|
  {
    hide OneLine, Lawful, FrequencyFits, FrequencyLines;
    if fs != [] {
      FrequencyClean(pf, grid, fs[0]);
      SectionsClean(pf, grid, fs[1..]);
      CleanConcat(FrequencyLines(pf, grid, fs[0]), SectionLines(pf, grid, fs[1..]));
    }
  }

  lemma {:induction false} AntennaClean(pf: Platform, a: Antenna)
    requires Lawful(pf) && AntennaFits(pf, a)
    ensures Clean(AntennaLines(pf, a))
  {
    assert OneLine(a.id);
    hide OneLine, Lawful, Labeled, IdentityFits, CommentsFit, RecordsFit, GridCarriesSamples, FrequenciesFit, CommentLines,
         RecordLines, SectionLines;
    var l1, l2, l3 := [Labeled("", StartOfAntenna)], CommentLines(a.leadingComments), [Labeled(a.id, TypeSerial)];
    var l4, l5, l6 := RecordLines(pf, a), SectionLines(pf, a.grid, a.frequencies), [Labeled("", EndOfAntenna)];
    EmptyClean(StartOfAntenna);
    EmptyClean(EndOfAntenna);
    LabeledOneLine(a.id, TypeSerial);
    CommentsClean(a.leadingComments);
    RecordsClean(pf, a);
    SectionsClean(pf, a.grid, a.frequencies);
    CleanConcat(l1, l2);
    CleanConcat(l1 + l2, l3);
    CleanConcat(l1 + l2 + l3, l4);
    CleanConcat(l1 + l2 + l3 + l4, l5);
    CleanConcat(l1 + l2 + l3 + l4 + l5, l6);
  }

  // ----- the whole product -----

  lemma {:induction false} OuterClean(outer: seq<OuterComment>)
    requires forall i :: 0 <= i < |outer| ==> EndTrimmedFits(outer[i].text, LABEL_COLUMN)
    ensures Clean(OuterLines(outer))
  {
    hide EndTrimmedFits;
    CommentsClean(Texts(outer));
  }

  lemma {:induction false} BlocksClean(pf: Platform, p: Antex, position: nat, outer: seq<OuterComment>)
    requires Lawful(pf) && BlocksFit(pf, p) && position <= |p.blockOrder|
    requires forall i :: 0 <= i < |outer| ==> EndTrimmedFits(outer[i].text, LABEL_COLUMN)
    ensures Clean(BlockLines(pf, p, position, outer))
    decreases |p.blockOrder| - position
  {
    hide OneLine, Clean, Lawful, AntennaFits, AntennaLines, EndTrimmedFits, OuterLines, BlockAt;
    if position == |p.blockOrder| {
      OuterClean(outer);
    } else {
      var n := OuterHere(outer, position);
      var a := BlockAt(p, position);
      OuterClean(outer[..n]);
      AntennaClean(pf, a);
      BlocksClean(pf, p, position + 1, outer[n..]);
      CleanConcat(OuterLines(outer[..n]), AntennaLines(pf, a));
      CleanConcat(OuterLines(outer[..n]) + AntennaLines(pf, a), BlockLines(pf, p, position + 1, outer[n..]));
    }
  }

  /** Splitting the written text gives back the written lines. */
  lemma {:induction false} ProductLinesSplit(pf: Platform, p: Antex)
    requires Lawful(pf) && Writable(pf, p)
    ensures Lines(Joined(ProductLines(pf, p))) == ProductLines(pf, p)
  {
    hide Lawful, HeaderFits, BlocksFit, ViewsFit, HeaderLines, BlockLines, Joined, Lines, OneLine;
    HeaderClean(pf, p.header);
    BlocksClean(pf, p, 0, p.outerComments);
    CleanConcat(HeaderLines(pf, p.header), BlockLines(pf, p, 0, p.outerComments));
    LinesJoined(ProductLines(pf, p));
  }
}
