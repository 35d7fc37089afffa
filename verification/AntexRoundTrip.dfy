/** Parsing what the writer wrote gives the product back. */
module AntexRoundTrip {
  import opened Text
  import opened Decimal
  import opened Seconds
  import opened SecondsField
  import opened AntexTypes
  import opened AntexReader
  import opened AntexWriter
  import opened PcvRows
  import opened AntexRecords

  // ----- runs -----

  lemma {:induction false} RunThen(pf: Platform, n: nat, a: seq<string>, b: seq<string>, s: State, s1: State)
    requires Run(pf, n, a, s) == Ok(s1)
    ensures Run(pf, n, a + b, s) == Run(pf, n + |a|, b, s1)
    decreases |a|
  {
    hide Step;
    if a == [] {
      assert a + b == b;
    } else {
      assert (a + b)[1..] == a[1..] + b;
      RunThen(pf, n + 1, a[1..], b, Step(pf, n + 1, a[0], s).value, s1);
    }
  }

  lemma {:induction false} RunOne(pf: Platform, n: nat, line: string, s: State)
    ensures Run(pf, n, [line], s) == Step(pf, n + 1, line, s)
  {
    hide Step;
    if Step(pf, n + 1, line, s).Ok? {
      assert Run(pf, n + 1, [line][1..], Step(pf, n + 1, line, s).value) == Step(pf, n + 1, line, s);
    }
  }

  lemma {:induction false} RunLabeled(pf: Platform, n: nat, body: string, l: Label, s: State)
    requires |body| <= LABEL_COLUMN && l != GridRow
    ensures Run(pf, n, [Labeled(body, l)], s) == Handle(pf, l, n + 1, Labeled(body, l), s)
  {
    hide Handle, Labeled, LabelOf, Tag;
    RunOne(pf, n, Labeled(body, l), s);
    LabeledTag(body, l);
  }

  // ----- comments -----

  function OuterOf(position: nat, cs: seq<string>): (r: seq<OuterComment>)
    ensures |r| == |cs|
  {
    seq(|cs|, i requires 0 <= i < |cs| => OuterComment(position, cs[i]))
  }

  /** Where the reader puts comments read in state `s`. */
  function WithComments(s: State, cs: seq<string>): State {
    match s.current
    case Some(b) =>
      if !b.identified then
        s.(current := Some(b.(antenna := b.antenna.(leadingComments := b.antenna.leadingComments + cs))))
      else
        s.(current := Some(b.(antenna := b.antenna.(comments := b.antenna.comments + cs))))
    case None =>
      if !s.blockSeen && !s.header.endOfHeader then
        s.(header := s.header.(comments := s.header.comments + cs))
      else
        s.(outerComments := s.outerComments + OuterOf(|s.blockOrder|, cs))
  }

  lemma {:induction false} CommentStep(pf: Platform, n: nat, text: string, s: State)
    requires EndTrimmedFits(text, LABEL_COLUMN)
    ensures Run(pf, n, [Labeled(text, Comment)], s) == Ok(WithComments(s, [text]))
  {
    hide Run, Labeled, Body;
    RunLabeled(pf, n, text, Comment, s);
    LabeledBody(text, Comment);
    assert OuterOf(|s.blockOrder|, [text]) == [OuterComment(|s.blockOrder|, text)];
  }

  lemma {:induction false} CommentsTogether(s: State, c: string, cs: seq<string>)
    ensures WithComments(WithComments(s, [c]), cs) == WithComments(s, [c] + cs)
  {
    assert OuterOf(|s.blockOrder|, [c]) + OuterOf(|s.blockOrder|, cs) == OuterOf(|s.blockOrder|, [c] + cs);
    match s.current
    case Some(b) =>
      assert b.antenna.leadingComments + [c] + cs == b.antenna.leadingComments + ([c] + cs);
      assert b.antenna.comments + [c] + cs == b.antenna.comments + ([c] + cs);
    case None =>
      assert s.header.comments + [c] + cs == s.header.comments + ([c] + cs);
      assert s.outerComments + OuterOf(|s.blockOrder|, [c]) + OuterOf(|s.blockOrder|, cs)
             == s.outerComments + OuterOf(|s.blockOrder|, [c] + cs);
  }

  lemma {:induction false} NoComments(s: State)
    ensures WithComments(s, []) == s
  {
    assert OuterOf(|s.blockOrder|, []) == [];
    match s.current
    case Some(b) =>
      assert b.antenna.leadingComments + [] == b.antenna.leadingComments;
      assert b.antenna.comments + [] == b.antenna.comments;
    case None =>
      assert s.header.comments + [] == s.header.comments;
      assert s.outerComments + [] == s.outerComments;
  }

  lemma {:induction false} RunComments(pf: Platform, n: nat, cs: seq<string>, s: State)
    requires CommentsFit(cs)
    ensures Run(pf, n, CommentLines(cs), s) == Ok(WithComments(s, cs))
    decreases |cs|
  {
    hide WithComments, Labeled, EndTrimmedFits, Step;
    if cs == [] {
      NoComments(s);
    } else {
      var first := [Labeled(cs[0], Comment)];
      CommentStep(pf, n, cs[0], s);
      RunThen(pf, n, first, CommentLines(cs[1..]), s, WithComments(s, [cs[0]]));
      RunComments(pf, n + 1, cs[1..], WithComments(s, [cs[0]]));
      CommentsTogether(s, cs[0], cs[1..]);
      assert [cs[0]] + cs[1..] == cs;
    }
  }

  // ----- header -----

  function HeaderState(h: Header, records: map<Label, string>): State {
    INITIAL.(header := h, headerRecords := records)
  }

  lemma {:induction false} RunVersion(pf: Platform, n: nat, v: Option<AntexVersion>, s: State) returns (records: map<Label, string>)
    requires Lawful(pf) && (v.Some? ==> VersionFits(pf, v.value))
    requires s.header.version.None? && s.headerRecords == map[] && !s.blockSeen && !s.header.endOfHeader
    ensures Run(pf, n, if v.Some? then [VersionLine(pf, v.value)] else [], s)
            == Ok(s.(headerRecords := records, header := s.header.(version := v)))
    ensures records.Keys <= {Version}
  {
    records := s.headerRecords;
    if v.Some? {
      var line := VersionLine(pf, v.value);
      VersionReads(pf, v.value, n + 1, s);
      VersionWidth(pf, v.value);
      hide Run, ReadVersion, Labeled, Lawful, VersionFits;
      RunLabeled(pf, n, pf.text(v.value.version, 8, 1) + Blanks(12) + [if v.value.system.Some? then v.value.system.value else ' '], Version, s);
      records := s.headerRecords[Version := Body(line)];
    }
  }

  lemma VersionWidth(pf: Platform, v: AntexVersion)
    requires VersionFits(pf, v)
    ensures |pf.text(v.version, 8, 1) + Blanks(12) + [if v.system.Some? then v.system.value else ' ']| == 21
  {
  }

  lemma {:induction false} RunPcvType(pf: Platform, n: nat, r: Option<PcvTypeRecord>, s: State) returns (records: map<Label, string>)
    requires r.Some? ==> PcvTypeFits(r.value)
    requires s.header.pcvType.None? && PcvTypeRefant !in s.headerRecords && !s.blockSeen && !s.header.endOfHeader
    ensures Run(pf, n, if r.Some? then [PcvTypeLine(r.value)] else [], s)
            == Ok(s.(headerRecords := records, header := s.header.(pcvType := r)))
  {
    records := s.headerRecords;
    if r.Some? {
      var line := PcvTypeLine(r.value);
      PcvTypeReads(r.value, n + 1, s);
      hide Run, ReadPcvType, Labeled;
      var flag := if r.value.pcvType == Absolute then "A" else "R";
      RunLabeled(pf, n, flag + Blanks(19) + Pad(r.value.referenceType, 20) + r.value.referenceSerial, PcvTypeRefant, s);
      records := s.headerRecords[PcvTypeRefant := Body(line)];
    }
  }

  lemma {:induction false} RunEndOfHeader(pf: Platform, n: nat, s: State)
    requires !s.blockSeen
    ensures Run(pf, n, [Labeled("", EndOfHeader)], s) == Ok(s.(header := s.header.(endOfHeader := true)))
  {
    hide Run, Labeled;
    RunLabeled(pf, n, "", EndOfHeader, s);
  }

  /** The header lines restore the header from the empty state. */
  lemma {:induction false} RunHeader(pf: Platform, h: Header) returns (records: map<Label, string>)
    requires Lawful(pf) && HeaderFits(pf, h)
    ensures Run(pf, 0, HeaderLines(pf, h), INITIAL) == Ok(HeaderState(h, records))
  {
    hide Run, Lawful, VersionFits, PcvTypeFits, CommentsFit, VersionLine, PcvTypeLine, CommentLines, Labeled;
    var l1 := if h.version.Some? then [VersionLine(pf, h.version.value)] else [];
    var l2 := if h.pcvType.Some? then [PcvTypeLine(h.pcvType.value)] else [];
    var l3 := CommentLines(h.comments);
    var l4 := if h.endOfHeader then [Labeled("", EndOfHeader)] else [];
    var r1 := RunVersion(pf, 0, h.version, INITIAL);
    var s1 := INITIAL.(headerRecords := r1, header := INITIAL.header.(version := h.version));
    records := RunPcvType(pf, |l1|, h.pcvType, s1);
    var s2 := s1.(headerRecords := records, header := s1.header.(pcvType := h.pcvType));
    RunComments(pf, |l1| + |l2|, h.comments, s2);
    var s3 := s2.(header := s2.header.(comments := h.comments));
    assert [] + h.comments == h.comments;
    var s4 := HeaderState(h, records);
    if h.endOfHeader {
      RunEndOfHeader(pf, |l1| + |l2| + |l3|, s3);
    } else {
      RunNothing(pf, |l1| + |l2| + |l3|, s3);
    }
    RunFour(pf, 0, l1, l2, l3, l4, INITIAL, s1, s2, s3, s4);
  }

  lemma {:induction false} RunFour(pf: Platform, n: nat, a: seq<string>, b: seq<string>, c: seq<string>, d: seq<string>,
                                   s: State, s1: State, s2: State, s3: State, s4: State)
    requires Run(pf, n, a, s) == Ok(s1) && Run(pf, n + |a|, b, s1) == Ok(s2)
    requires Run(pf, n + |a| + |b|, c, s2) == Ok(s3) && Run(pf, n + |a| + |b| + |c|, d, s3) == Ok(s4)
    ensures Run(pf, n, a + b + c + d, s) == Ok(s4)
  {
    hide Run;
    RunThen(pf, n, a, b, s, s1);
    RunThen(pf, n, a + b, c, s, s2);
    RunThen(pf, n, a + b + c, d, s, s3);
  }

  lemma RunNothing(pf: Platform, n: nat, s: State)
    ensures Run(pf, n, [], s) == Ok(s)
  {
  }

  // ----- block records -----

  /** `b'` is `b` after records that claim at most `l`. */
  ghost predicate Advanced(b: Block, b': Block, l: Label) {
    b'.identified == b.identified && forall m :: m in b'.records ==> m == l || m in b.records
  }

  lemma {:induction false} RunCalibrations(pf: Platform, n: nat, cs: seq<Calibration>, s: State, b: Block)
    requires CalibrationsFit(cs) && s.current == Some(b)
    ensures Run(pf, n, CalibrationLines(cs), s)
            == Ok(s.(current := Some(b.(antenna := b.antenna.(calibrations := b.antenna.calibrations + cs)))))
    decreases |cs|
  {
    hide Labeled, CalibrationFits, CalibrationBody, Step;
    if cs == [] {
      assert b.antenna.calibrations + cs == b.antenna.calibrations;
    } else {
      var b1 := b.(antenna := b.antenna.(calibrations := b.antenna.calibrations + [cs[0]]));
      var s1 := s.(current := Some(b1));
      var first := [Labeled(CalibrationBody(cs[0]), Meth)];
      RunCalibration(pf, n, cs[0], s, b);
      RunThen(pf, n, first, CalibrationLines(cs[1..]), s, s1);
      RunCalibrations(pf, n + 1, cs[1..], s1, b1);
      assert b.antenna.calibrations + [cs[0]] + cs[1..] == b.antenna.calibrations + cs;
    }
  }

  lemma {:induction false} RunCalibration(pf: Platform, n: nat, c: Calibration, s: State, b: Block)
    requires CalibrationFits(c) && s.current == Some(b)
    ensures Run(pf, n, [Labeled(CalibrationBody(c), Meth)], s)
            == Ok(s.(current := Some(b.(antenna := b.antenna.(calibrations := b.antenna.calibrations + [c])))))
  {
    hide Run, Labeled, CalibrationBody, ReadCalibration;
    CalibrationSlices(c);
    RunLabeled(pf, n, CalibrationBody(c), Meth, s);
    CalibrationReads(c, n + 1, s);
  }

  lemma {:induction false} RunDazi(pf: Platform, n: nat, v: Option<F64>, s: State, b: Block) returns (b': Block)
    requires Lawful(pf) && (v.Some? ==> FitsF6(pf, v.value))
    requires s.current == Some(b) && b.antenna.dazi.None? && Dazi !in b.records
    ensures Run(pf, n, DaziLines(pf, v), s) == Ok(s.(current := Some(b')))
    ensures Advanced(b, b', Dazi) && b'.antenna == b.antenna.(dazi := v) && b'.declared == b.declared
  {
    hide Run, Labeled, Lawful, ReadDazi, Body;
    b' := b;
    if v.Some? {
      var line := DaziLine(pf, v.value);
      assert |"  " + pf.text(v.value, 6, 1)| == 8;
      RunLabeled(pf, n, "  " + pf.text(v.value, 6, 1), Dazi, s);
      DaziReads(pf, v.value, n + 1, s);
      b' := b.(records := b.records[Dazi := Body(line)], antenna := b.antenna.(dazi := v));
    } else {
      RunNothing(pf, n, s);
    }
  }

  lemma {:induction false} RunGrid(pf: Platform, n: nat, g: Option<ZenithGrid>, s: State, b: Block) returns (b': Block)
    requires Lawful(pf) && (g.Some? ==> GridFits(pf, g.value))
    requires s.current == Some(b) && b.antenna.grid.None? && Zenith !in b.records
    ensures Run(pf, n, GridLines(pf, g), s) == Ok(s.(current := Some(b')))
    ensures Advanced(b, b', Zenith) && b'.antenna == b.antenna.(grid := g) && b'.declared == b.declared
  {
    hide Run, Labeled, Lawful, ReadZenith, Body;
    b' := b;
    if g.Some? {
      var body := "  " + pf.text(g.value.start, 6, 1) + pf.text(g.value.end, 6, 1) + pf.text(g.value.step, 6, 1);
      assert |body| == 20;
      RunLabeled(pf, n, body, Zenith, s);
      GridReads(pf, g.value, n + 1, s);
      b' := b.(records := b.records[Zenith := Body(Labeled(body, Zenith))], antenna := b.antenna.(grid := g));
    } else {
      RunNothing(pf, n, s);
    }
  }

  lemma {:induction false} RunCount(pf: Platform, n: nat, stated: bool, count: nat, s: State, b: Block) returns (b': Block)
    requires stated ==> count <= 999999
    requires s.current == Some(b) && !b.antenna.hasFrequencyCount && FrequencyCount !in b.records && b.declared.None?
    ensures Run(pf, n, CountLines(stated, count), s) == Ok(s.(current := Some(b')))
    ensures Advanced(b, b', FrequencyCount) && b'.antenna == b.antenna.(hasFrequencyCount := stated)
    ensures b'.declared == if stated then Some(count) else None
  {
    hide Run, Labeled, ReadFrequencyCount, Body, Digits;
    b' := b;
    if stated {
      SixDigits(count);
      RunLabeled(pf, n, PadLeft(Digits(count), 6), FrequencyCount, s);
      CountReads(count, n + 1, s);
      b' := b.(records := b.records[FrequencyCount := Body(CountLine(count))],
               antenna := b.antenna.(hasFrequencyCount := true), declared := Some(count));
    } else {
      RunNothing(pf, n, s);
    }
  }

  lemma DateWidth(d: DateTime)
    requires DateFits(d)
    ensures |DateBody(d, SecondsText(d.second, d.fraction).value)| == 43
  {
    hide Digits, SecondsText, Normal;
    SecondsRoundTrip(d.second, d.fraction);
    DateSlices(d, SecondsText(d.second, d.fraction).value);
  }

  lemma {:induction false} RunFrom(pf: Platform, n: nat, d: Option<DateTime>, s: State, b: Block) returns (b': Block)
    requires d.Some? ==> DateFits(d.value)
    requires s.current == Some(b) && b.antenna.validFrom.None? && ValidFrom !in b.records
    ensures Run(pf, n, DateLines(d, ValidFrom), s) == Ok(s.(current := Some(b')))
    ensures Advanced(b, b', ValidFrom) && b'.antenna == b.antenna.(validFrom := d) && b'.declared == b.declared
  {
    hide Run, Labeled, DateBody, ReadValid, Body, SecondsText, DateInRange;
    b' := b;
    if d.Some? {
      DateWidth(d.value);
      RunLabeled(pf, n, DateBody(d.value, SecondsText(d.value.second, d.value.fraction).value), ValidFrom, s);
      ValidReads(d.value, ValidFrom, n + 1, s);
      b' := b.(records := b.records[ValidFrom := Body(DateLine(d.value, ValidFrom))],
               antenna := b.antenna.(validFrom := d));
    } else {
      RunNothing(pf, n, s);
    }
  }

  lemma {:induction false} RunUntil(pf: Platform, n: nat, d: Option<DateTime>, s: State, b: Block) returns (b': Block)
    requires d.Some? ==> DateFits(d.value)
    requires s.current == Some(b) && b.antenna.validUntil.None? && ValidUntil !in b.records
    ensures Run(pf, n, DateLines(d, ValidUntil), s) == Ok(s.(current := Some(b')))
    ensures Advanced(b, b', ValidUntil) && b'.antenna == b.antenna.(validUntil := d) && b'.declared == b.declared
  {
    hide Run, Labeled, DateBody, ReadValid, Body, SecondsText, DateInRange;
    b' := b;
    if d.Some? {
      DateWidth(d.value);
      RunLabeled(pf, n, DateBody(d.value, SecondsText(d.value.second, d.value.fraction).value), ValidUntil, s);
      ValidReads(d.value, ValidUntil, n + 1, s);
      b' := b.(records := b.records[ValidUntil := Body(DateLine(d.value, ValidUntil))],
               antenna := b.antenna.(validUntil := d));
    } else {
      RunNothing(pf, n, s);
    }
  }

  lemma {:induction false} RunSinex(pf: Platform, n: nat, code: Option<string>, s: State, b: Block) returns (b': Block)
    requires code.Some? ==> SinexFits(code.value)
    requires s.current == Some(b) && b.antenna.sinex.None? && Sinex !in b.records
    ensures Run(pf, n, SinexLines(code), s) == Ok(s.(current := Some(b')))
    ensures Advanced(b, b', Sinex) && b'.antenna == b.antenna.(sinex := code) && b'.declared == b.declared
  {
    hide Run, Labeled, ReadSinex, Body;
    b' := b;
    if code.Some? {
      RunLabeled(pf, n, code.value, Sinex, s);
      SinexReads(code.value, n + 1, s);
      b' := b.(records := b.records[Sinex := Body(Labeled(code.value, Sinex))], antenna := b.antenna.(sinex := code));
    } else {
      RunNothing(pf, n, s);
    }
  }

  /** A block that has its identity and leading comments and nothing else. */
  ghost predicate Opened(a: Antenna, b: Block) {
    && b.identified && b.declared.None? && (forall m :: m in b.records ==> m == TypeSerial)
    && b.antenna == IdentityOnly(a)
  }

  function IdentityOnly(a: Antenna): Antenna {
    BLANK_ANTENNA.(id := a.id, kind := a.kind, antennaType := a.antennaType, serial := a.serial,
                   leadingComments := a.leadingComments)
  }

  function WithoutTail(a: Antenna): Antenna {
    a.(frequencies := [], validFrom := None, validUntil := None, sinex := None, comments := [])
  }

  lemma HeadAssembled(a: Antenna)
    ensures IdentityOnly(a).(calibrations := a.calibrations).(dazi := a.dazi).(grid := a.grid)
            .(hasFrequencyCount := a.hasFrequencyCount) == WithoutTail(a)
    ensures var i := IdentityOnly(a);
            i.calibrations == [] && i.dazi.None? && i.grid.None? && !i.hasFrequencyCount
  {
  }

  lemma TailAssembled(a: Antenna)
    ensures WithoutTail(a).(validFrom := a.validFrom).(validUntil := a.validUntil).(sinex := a.sinex)
            .(comments := a.comments) == a.(frequencies := [])
    ensures var w := WithoutTail(a); w.validFrom.None? && w.validUntil.None? && w.sinex.None? && w.comments == []
  {
  }

  /** A block with all its records and no frequency section yet. */
  ghost predicate Recorded(a: Antenna, b: Block) {
    && b.identified
    && b.antenna == a.(frequencies := [])
    && b.declared == (if a.hasFrequencyCount then Some(|a.frequencies|) else None)
  }

  function AntennaHead(pf: Platform, a: Antenna): seq<string> {
    CalibrationLines(a.calibrations) + DaziLines(pf, a.dazi) + GridLines(pf, a.grid)
    + CountLines(a.hasFrequencyCount, |a.frequencies|)
  }

  /** A block after its calibration, grid and count records. */
  ghost predicate HalfRecorded(a: Antenna, b: Block) {
    && b.identified
    && ValidFrom !in b.records && ValidUntil !in b.records && Sinex !in b.records
    && b.antenna == WithoutTail(a)
    && b.declared == (if a.hasFrequencyCount then Some(|a.frequencies|) else None)
  }

  lemma {:induction false} RunAntennaHead(pf: Platform, n: nat, a: Antenna, s: State, b: Block) returns (b': Block)
    requires Lawful(pf) && RecordsFit(pf, a) && s.current == Some(b) && Opened(a, b)
    ensures Run(pf, n, AntennaHead(pf, a), s) == Ok(s.(current := Some(b'))) && HalfRecorded(a, b')
  {
    hide Run, Lawful, FitsF6, GridFits, ValidityFits, SinexFits, CommentsFit, CalibrationsFit, DaziLines, GridLines,
         CountLines, CalibrationLines, IdentityOnly, WithoutTail;
    HeadAssembled(a);
    var l1, l2 := CalibrationLines(a.calibrations), DaziLines(pf, a.dazi);
    var l3, l4 := GridLines(pf, a.grid), CountLines(a.hasFrequencyCount, |a.frequencies|);
    RunCalibrations(pf, n, a.calibrations, s, b);
    assert [] + a.calibrations == a.calibrations;
    var b1 := b.(antenna := b.antenna.(calibrations := a.calibrations));
    var b2 := RunDazi(pf, n + |l1|, a.dazi, s.(current := Some(b1)), b1);
    var b3 := RunGrid(pf, n + |l1| + |l2|, a.grid, s.(current := Some(b2)), b2);
    b' := RunCount(pf, n + |l1| + |l2| + |l3|, a.hasFrequencyCount, |a.frequencies|, s.(current := Some(b3)), b3);
    RunFour(pf, n, l1, l2, l3, l4, s, s.(current := Some(b1)), s.(current := Some(b2)), s.(current := Some(b3)), s.(current := Some(b')));
    assert b'.antenna == WithoutTail(a);
    assert ValidFrom !in b'.records;
    assert ValidUntil !in b'.records;
    assert Sinex !in b'.records;
  }

  lemma {:induction false} RunRecords(pf: Platform, n: nat, a: Antenna, s: State, b: Block) returns (b': Block)
    requires Lawful(pf) && RecordsFit(pf, a) && s.current == Some(b) && Opened(a, b)
    ensures Run(pf, n, RecordLines(pf, a), s) == Ok(s.(current := Some(b'))) && Recorded(a, b')
  {
    hide Run, Lawful, FitsF6, GridFits, DateFits, SinexFits, CommentsFit, CalibrationsFit, DaziLines, GridLines,
         CountLines, DateLines, SinexLines, CommentLines, CalibrationLines, Earlier, Opened, WithoutTail;
    TailAssembled(a);
    var head := AntennaHead(pf, a);
    var l5, l6 := DateLines(a.validFrom, ValidFrom), DateLines(a.validUntil, ValidUntil);
    var l7, l8 := SinexLines(a.sinex), CommentLines(a.comments);
    var b4 := RunAntennaHead(pf, n, a, s, b);
    var s4 := s.(current := Some(b4));
    var n4 := n + |head|;
    var b5 := RunFrom(pf, n4, a.validFrom, s4, b4);
    var b6 := RunUntil(pf, n4 + |l5|, a.validUntil, s.(current := Some(b5)), b5);
    var b7 := RunSinex(pf, n4 + |l5| + |l6|, a.sinex, s.(current := Some(b6)), b6);
    RunComments(pf, n4 + |l5| + |l6| + |l7|, a.comments, s.(current := Some(b7)));
    assert [] + a.comments == a.comments;
    b' := b7.(antenna := b7.antenna.(comments := a.comments));
    RunMore(pf, n, head, l5, l6, l7, l8, s, s4, s.(current := Some(b5)), s.(current := Some(b6)),
            s.(current := Some(b7)), s.(current := Some(b')));
  }

  lemma {:induction false} RunMore(pf: Platform, n: nat, head: seq<string>, a: seq<string>, b: seq<string>, c: seq<string>, d: seq<string>,
                                   s: State, s0: State, s1: State, s2: State, s3: State, s4: State)
    requires Run(pf, n, head, s) == Ok(s0)
    requires Run(pf, n + |head|, a, s0) == Ok(s1) && Run(pf, n + |head| + |a|, b, s1) == Ok(s2)
    requires Run(pf, n + |head| + |a| + |b|, c, s2) == Ok(s3) && Run(pf, n + |head| + |a| + |b| + |c|, d, s3) == Ok(s4)
    ensures Run(pf, n, head + a + b + c + d, s) == Ok(s4)
  {
    hide Run;
    RunThen(pf, n, head, a, s, s0);
    RunThen(pf, n, head + a, b, s, s1);
    RunThen(pf, n, head + a + b, c, s, s2);
    RunThen(pf, n, head + a + b + c, d, s, s3);
  }

  // ----- grid rows -----

  lemma {:induction false} FlattenCons(rows: seq<AzimuthSamples>)
    requires rows != []
    ensures Flatten(rows) == rows[0].samples + Flatten(rows[1..])
  {
    var n := |rows| - 1;
    if n == 0 {
      assert rows[..0] == [] && rows[1..] == [];
    } else {
      FlattenCons(rows[..n]);
      assert rows[..n][1..] == rows[1..][..n - 1];
      var first, middle, end := rows[0].samples, Flatten(rows[..n][1..]), rows[n].samples;
      assert Flatten(rows[1..]) == middle + end;
      assert first + middle + end == first + (middle + end);
    }
  }

  /** No position of the section belongs to an azimuth still to come. */
  ghost predicate AzimuthsFree(seen: seq<F64>, occupied: set<(Option<F64>, nat)>) {
    forall p :: p in occupied ==> forall i :: 0 <= i < |seen| ==> p.0 != Some(seen[i])
  }

  lemma {:induction false} AzimuthsStayFree(pf: Platform, g: ZenithGrid, seen: seq<F64>, samples: seq<PcvSample>, occupied: set<(Option<F64>, nat)>)
    requires seen != [] && Distinct(seen) && AzimuthsFree(seen, occupied)
    ensures AzimuthsFree(seen[1..], occupied + PositionsOf(pf, g, Some(seen[0]), samples))
    ensures Distinct(seen[1..])
    ensures PositionsOf(pf, g, Some(seen[0]), samples) !! occupied
  {
    hide Index;
    var rest := seen[1..];
    forall p | p in PositionsOf(pf, g, Some(seen[0]), samples)
      ensures forall i :: 0 <= i < |rest| ==> p.0 != Some(rest[i])
    {
      assert forall i :: 0 <= i < |rest| ==> rest[i] == seen[i + 1] != seen[0];
    }
  }

  lemma {:induction false} RowsTail(pf: Platform, g: ZenithGrid, rows: seq<AzimuthSamples>, seen: seq<F64>)
    requires RowsOk(pf, g, rows, seen) && rows != []
    ensures RowsOk(pf, g, rows[1..], seen[1..])
    ensures FitsF8(pf, seen[0]) && rows[0].head == pf.text(seen[0], 8, 1) && RowOk(pf, g, Some(seen[0]), rows[0].samples)
  {
    hide RowOk, FitsF8;
  }

  /** The state with the section's samples and positions replaced. */
  function WithSamples(s: State, samples: seq<PcvSample>, occupied: set<(Option<F64>, nat)>): State
    requires s.section.Some?
  {
    s.(section := Some(s.section.value.(samples := samples, occupied := occupied)))
  }

  ghost predicate InSection(g: ZenithGrid, s: State) {
    s.section.Some? && s.current.Some? && s.current.value.antenna.grid == Some(g)
  }

  lemma {:induction false} RunRow(pf: Platform, n: nat, g: ZenithGrid, key: Option<F64>, head: string, samples: seq<PcvSample>, s: State)
    requires Lawful(pf) && RowOk(pf, g, key, samples) && pf.sign(g.step) == Positive
    requires HeadOk(pf, key, head) && InSection(g, s)
    requires PositionsOf(pf, g, key, samples) !! s.section.value.occupied
    ensures var sec := s.section.value;
            Run(pf, n, [PcvRow(pf, g, head, samples)], s)
            == Ok(WithSamples(s, sec.samples + samples, sec.occupied + PositionsOf(pf, g, key, samples)))
  {
    hide Run, Step, Lawful, RowOk, HeadOk, PcvRow, PositionsOf;
    RunOne(pf, n, PcvRow(pf, g, head, samples), s);
    RowStep(pf, g, key, head, samples, n + 1, s);
  }

  lemma {:induction false} RunAzimuthRows(pf: Platform, n: nat, g: ZenithGrid, rows: seq<AzimuthSamples>, seen: seq<F64>, s: State)
    returns (occupied: set<(Option<F64>, nat)>)
    requires Lawful(pf) && pf.sign(g.step) == Positive && InSection(g, s)
    requires RowsOk(pf, g, rows, seen) && AzimuthsFree(seen, s.section.value.occupied)
    ensures Run(pf, n, AzimuthLines(pf, g, rows), s) == Ok(WithSamples(s, s.section.value.samples + Flatten(rows), occupied))
    decreases |rows|
  {
    hide Run, Lawful, RowsOk, RowOk, HeadOk, PcvRow, PositionsOf, AzimuthsFree, Flatten, FitsF8, Distinct;
    var sec := s.section.value;
    occupied := sec.occupied;
    if rows == [] {
      NoRows();
      RunNothing(pf, n, s);
      assert sec.samples + [] == sec.samples;
    } else {
      DistinctOfRows(pf, g, rows, seen);
      var key, samples := Some(seen[0]), rows[0].samples;
      RowsTail(pf, g, rows, seen);
      AzimuthHead(pf, seen[0]);
      AzimuthsStayFree(pf, g, seen, samples, sec.occupied);
      RunRow(pf, n, g, key, rows[0].head, samples, s);
      var s1 := WithSamples(s, sec.samples + samples, sec.occupied + PositionsOf(pf, g, key, samples));
      RunThen(pf, n, [PcvRow(pf, g, rows[0].head, samples)], AzimuthLines(pf, g, rows[1..]), s, s1);
      occupied := RunAzimuthRows(pf, n + 1, g, rows[1..], seen[1..], s1);
      FlattenCons(rows);
      assert sec.samples + samples + Flatten(rows[1..]) == sec.samples + Flatten(rows);
    }
  }

  lemma NoRows()
    ensures Flatten([]) == []
  {
  }

  lemma DistinctOfRows(pf: Platform, g: ZenithGrid, rows: seq<AzimuthSamples>, seen: seq<F64>)
    requires RowsOk(pf, g, rows, seen)
    ensures Distinct(seen) && |seen| == |rows|
  {
  }

  lemma {:induction false} NoaziApart(pf: Platform, g: ZenithGrid, samples: seq<PcvSample>, seen: seq<F64>)
    ensures AzimuthsFree(seen, PositionsOf(pf, g, None, samples))
  {
    hide Index;
  }

  lemma {:induction false} StepPositive(pf: Platform, g: ZenithGrid)
    requires Lawful(pf) && GridFits(pf, g) && StepAccepted(pf, g)
    ensures pf.sign(g.step) == Positive
  {
    assert pf.finite(g.step);
  }

  /** The rows of a section restore its sample list. */
  lemma {:induction false} RunRows(pf: Platform, n: nat, grid: Option<ZenithGrid>, samples: seq<PcvSample>, s: State)
    returns (occupied: set<(Option<F64>, nat)>)
    requires Lawful(pf) && RowsFit(pf, grid, samples) && (grid.Some? ==> GridFits(pf, grid.value))
    requires s.section.Some? && s.section.value.samples == [] && s.section.value.occupied == {}
    requires s.current.Some? && s.current.value.antenna.grid == grid
    ensures Run(pf, n, RowLines(pf, grid, samples), s) == Ok(WithSamples(s, samples, occupied))
  {
    hide Run, Lawful, RowsOk, RowOk, HeadOk, PcvRow, PositionsOf, AzimuthsFree, Flatten, GridFits, GroupFrom, AzimuthLines;
    occupied := {};
    if samples == [] {
      RunNothing(pf, n, s);
    } else {
      var g := grid.value;
      var groups := GroupSamples(pf, g, samples).value;
      GroupingPartitions(pf, g, samples);
      StepPositive(pf, g);
      if groups.noazi == [] {
        assert groups.noazi + Flatten(groups.rows) == Flatten(groups.rows);
        NothingOccupied(groups.seen);
        occupied := RunAzimuthRows(pf, n, g, groups.rows, groups.seen, s);
        assert [] + samples == samples;
        assert [] + AzimuthLines(pf, g, groups.rows) == AzimuthLines(pf, g, groups.rows);
      } else {
        var first := PositionsOf(pf, g, None, groups.noazi);
        NoaziHead(pf);
        RunRow(pf, n, g, None, NOAZI_HEAD, groups.noazi, s);
        assert {} + first == first && [] + groups.noazi == groups.noazi;
        var s1 := WithSamples(s, groups.noazi, first);
        NoaziApart(pf, g, groups.noazi, groups.seen);
        RunThen(pf, n, [PcvRow(pf, g, NOAZI_HEAD, groups.noazi)], AzimuthLines(pf, g, groups.rows), s, s1);
        occupied := RunAzimuthRows(pf, n + 1, g, groups.rows, groups.seen, s1);
      }
    }
  }

  lemma NothingOccupied(seen: seq<F64>)
    ensures AzimuthsFree(seen, {})
  {
  }

  // ----- sections -----

  function NewSection(kind: SectionKind, code: string): Section { Section(kind, code, None, None, [], {}) }

  lemma {:induction false} CodeWidth(code: string)
    requires IsFrequencyCode(code)
    ensures |"   " + code| == 6
  {
  }

  lemma {:induction false} RunBegin(pf: Platform, n: nat, code: string, kind: SectionKind, s: State)
    requires IsFrequencyCode(code) && s.current.Some? && s.section.None?
    ensures Run(pf, n, [Labeled("   " + code, if kind == Values then StartOfFrequency else StartOfRms)], s)
            == Ok(s.(section := Some(NewSection(kind, code))))
  {
    hide Run, Labeled, IsFrequencyCode, TrimmedField;
    CodeWidth(code);
    var l := if kind == Values then StartOfFrequency else StartOfRms;
    RunLabeled(pf, n, "   " + code, l, s);
    SectionName(code, l);
  }

  lemma {:induction false} RunPco(pf: Platform, n: nat, p: Option<Triple>, s: State) returns (body: Option<string>)
    requires Lawful(pf) && (p.Some? ==> PcoFits(pf, p.value))
    requires s.section.Some? && s.section.value.pcoBody.None? && s.section.value.pco.None?
    ensures Run(pf, n, if p.Some? then [PcoLine(pf, p.value)] else [], s)
            == Ok(s.(section := Some(s.section.value.(pco := p, pcoBody := body))))
  {
    hide Run, Labeled, Lawful, ReadPco, Body, MmText;
    body := None;
    if p.Some? {
      var text := MmText(pf, p.value.north, 10) + MmText(pf, p.value.east, 10) + MmText(pf, p.value.up, 10);
      assert |text| == 30;
      RunLabeled(pf, n, text, NorthEastUp, s);
      PcoReads(pf, p.value, n + 1, s);
      body := Some(Body(Labeled(text, NorthEastUp)));
    } else {
      RunNothing(pf, n, s);
    }
  }

  lemma {:induction false} RunEnd(pf: Platform, n: nat, code: string, kind: SectionKind, s: State)
    requires IsFrequencyCode(code) && s.section.Some? && s.section.value.kind == kind && s.section.value.freq == code
    ensures Run(pf, n, [Labeled("   " + code, if kind == Values then EndOfFrequency else EndOfRms)], s)
            == FinalizeSection(n + 1, s)
  {
    hide Run, Labeled, IsFrequencyCode, TrimmedField, FinalizeSection;
    CodeWidth(code);
    var l := if kind == Values then EndOfFrequency else EndOfRms;
    RunLabeled(pf, n, "   " + code, l, s);
    SectionName(code, l);
  }

  /** `s` with that list of completed sections in its open block. */
  function WithFrequencies(s: State, fs: seq<Frequency>): State
    requires s.current.Some?
  {
    var b := s.current.value;
    s.(current := Some(b.(antenna := b.antenna.(frequencies := fs))))
  }

  /** Lines of a section: its start, its offset, its rows and its end. */
  lemma {:induction false} RunSection(pf: Platform, n: nat, grid: Option<ZenithGrid>, code: string, kind: SectionKind,
                                      pco: Option<Triple>, samples: seq<PcvSample>, s: State) returns (sec: Section)
    requires Lawful(pf) && IsFrequencyCode(code) && (pco.Some? ==> PcoFits(pf, pco.value))
    requires RowsFit(pf, grid, samples) && (grid.Some? ==> GridFits(pf, grid.value))
    requires s.current.Some? && s.section.None? && s.current.value.antenna.grid == grid
    ensures sec.kind == kind && sec.freq == code && sec.pco == pco && sec.samples == samples
    ensures var lines := [Labeled("   " + code, if kind == Values then StartOfFrequency else StartOfRms)]
                         + (if pco.Some? then [PcoLine(pf, pco.value)] else [])
                         + RowLines(pf, grid, samples)
                         + [Labeled("   " + code, if kind == Values then EndOfFrequency else EndOfRms)];
            Run(pf, n, lines, s) == FinalizeSection(n + |lines|, s.(section := Some(sec)))
  {
    hide Run, Labeled, IsFrequencyCode, Lawful, PcoFits, RowsFit, GridFits, PcoLine, RowLines, FinalizeSection;
    var l1 := [Labeled("   " + code, if kind == Values then StartOfFrequency else StartOfRms)];
    var l2 := if pco.Some? then [PcoLine(pf, pco.value)] else [];
    var l3 := RowLines(pf, grid, samples);
    var l4 := [Labeled("   " + code, if kind == Values then EndOfFrequency else EndOfRms)];
    RunBegin(pf, n, code, kind, s);
    var s1 := s.(section := Some(NewSection(kind, code)));
    RunThen(pf, n, l1, l2, s, s1);
    var body := RunPco(pf, n + 1, pco, s1);
    var s2 := s.(section := Some(NewSection(kind, code).(pco := pco, pcoBody := body)));
    RunThen(pf, n, l1 + l2, l3, s, s2);
    var occupied := RunRows(pf, n + |l1 + l2|, grid, samples, s2);
    sec := s2.section.value.(samples := samples, occupied := occupied);
    var s3 := s.(section := Some(sec));
    RunThen(pf, n, l1 + l2 + l3, l4, s, s3);
    RunEnd(pf, n + |l1 + l2 + l3|, code, kind, s3);
  }

  lemma {:induction false} FinishValues(n: nat, s: State, sec: Section, fs: seq<Frequency>)
    requires s.current.Some? && s.section.None? && s.current.value.antenna.frequencies == fs
    requires sec.kind == Values && sec.pco.Some?
    ensures FinalizeSection(n, s.(section := Some(sec)))
            == Ok(WithFrequencies(s, fs + [Frequency(sec.freq, sec.pco.value, sec.samples, None)]))
  {
  }

  lemma {:induction false} FinishRms(n: nat, s: State, sec: Section, fs: seq<Frequency>, f: Frequency)
    requires s.current.Some? && s.section.None? && s.current.value.antenna.frequencies == fs + [f]
    requires sec.kind == Rms && f.freq == sec.freq && f.rms.None?
    ensures FinalizeSection(n, s.(section := Some(sec)))
            == Ok(WithFrequencies(s, fs + [f.(rms := Some(FrequencyRms(sec.pco, sec.samples)))]))
  {
    var all := fs + [f];
    assert RmsTarget(all, sec.freq) == Some(|fs|);
    assert all[|fs| := f.(rms := Some(FrequencyRms(sec.pco, sec.samples)))]
           == fs + [f.(rms := Some(FrequencyRms(sec.pco, sec.samples)))];
  }

  /** A frequency and its RMS section are appended to the sections read so far,
      whatever labels those carry. */
  lemma {:induction false} RunFrequency(pf: Platform, n: nat, grid: Option<ZenithGrid>, f: Frequency, s: State, fs: seq<Frequency>)
    requires Lawful(pf) && FrequencyFits(pf, grid, f) && (grid.Some? ==> GridFits(pf, grid.value))
    requires s.current.Some? && s.section.None? && s.current.value.antenna.grid == grid
    requires s.current.value.antenna.frequencies == fs
    ensures Run(pf, n, FrequencyLines(pf, grid, f), s) == Ok(WithFrequencies(s, fs + [f]))
  {
    hide Run, Labeled, IsFrequencyCode, Lawful, PcoFits, RowsFit, GridFits, PcoLine, RowLines, FinalizeSection;
    var sec := RunSection(pf, n, grid, f.freq, Values, Some(f.pco), f.samples, s);
    var lines := [Labeled("   " + f.freq, StartOfFrequency)] + [PcoLine(pf, f.pco)]
                 + RowLines(pf, grid, f.samples) + [Labeled("   " + f.freq, EndOfFrequency)];
    FinishValues(n + |lines|, s, sec, fs);
    var bare := f.(rms := None);
    var s1 := WithFrequencies(s, fs + [bare]);
    if f.rms.Some? {
      var rms := f.rms.value;
      RunThen(pf, n, lines, RmsLines(pf, grid, f.freq, rms), s, s1);
      var sec2 := RunSection(pf, n + |lines|, grid, f.freq, Rms, rms.pco, rms.samples, s1);
      FinishRms(n + |lines| + |RmsLines(pf, grid, f.freq, rms)|, s1, sec2, fs, bare);
    } else {
      assert lines + [] == lines;
    }
  }

  lemma {:induction false} RunSections(pf: Platform, n: nat, grid: Option<ZenithGrid>, todo: seq<Frequency>, s: State, fs: seq<Frequency>)
    requires Lawful(pf) && FrequenciesFit(pf, grid, todo) && (grid.Some? ==> GridFits(pf, grid.value))
    requires s.current.Some? && s.section.None? && s.current.value.antenna.grid == grid
    requires s.current.value.antenna.frequencies == fs
    ensures Run(pf, n, SectionLines(pf, grid, todo), s) == Ok(WithFrequencies(s, fs + todo))
    decreases |todo|
  {
    hide Run, Lawful, FrequencyFits, GridFits, FrequencyLines;
    if todo == [] {
      RunNothing(pf, n, s);
      assert fs + todo == fs;
    } else {
      var f := todo[0];
      var s1 := WithFrequencies(s, fs + [f]);
      RunFrequency(pf, n, grid, f, s, fs);
      RunThen(pf, n, FrequencyLines(pf, grid, f), SectionLines(pf, grid, todo[1..]), s, s1);
      RunSections(pf, n + |FrequencyLines(pf, grid, f)|, grid, todo[1..], s1, fs + [f]);
      assert fs + [f] + todo[1..] == fs + todo;
    }
  }

  // ----- blocks -----

  lemma {:induction false} RunStart(pf: Platform, n: nat, s: State)
    requires s.current.None?
    ensures Run(pf, n, [Labeled("", StartOfAntenna)], s) == Ok(s.(blockSeen := true, current := Some(BLANK_BLOCK)))
  {
    hide Run, Labeled, FinalizeAntenna;
    RunLabeled(pf, n, "", StartOfAntenna, s);
  }

  lemma {:induction false} RunIdentity(pf: Platform, n: nat, a: Antenna, s: State, b: Block) returns (b': Block)
    requires IdentityFits(a) && s.current == Some(b)
    requires b == BLANK_BLOCK.(antenna := BLANK_ANTENNA.(leadingComments := a.leadingComments))
    ensures Run(pf, n, [Labeled(a.id, TypeSerial)], s) == Ok(s.(current := Some(b'))) && Opened(a, b')
  {
    hide Run, Labeled, Body, Identify, IdentityAgrees;
    RunLabeled(pf, n, a.id, TypeSerial, s);
    IdentityReads(a, b.antenna);
    var line := Labeled(a.id, TypeSerial);
    b' := b.(antenna := Identify(b.antenna, line), identified := true, records := map[TypeSerial := Body(line)]);
    assert b'.antenna == IdentityOnly(a);
  }

  lemma {:induction false} RunFinish(pf: Platform, n: nat, a: Antenna, s: State, b: Block)
    requires s.current == Some(b) && s.section.None? && b.identified && b.antenna == a
    requires b.declared == if a.hasFrequencyCount then Some(|a.frequencies|) else None
    ensures Run(pf, n, [Labeled("", EndOfAntenna)], s) == Ok(Retain(s.(current := None), a))
  {
    hide Run, Labeled, Retain;
    RunLabeled(pf, n, "", EndOfAntenna, s);
  }

  /** The lines of a block retain exactly that block. */
  lemma {:induction false} RunAntenna(pf: Platform, n: nat, a: Antenna, s: State)
    requires Lawful(pf) && AntennaFits(pf, a) && s.current.None? && s.section.None?
    ensures Run(pf, n, AntennaLines(pf, a), s) == Ok(Retain(s.(blockSeen := true), a))
  {
    hide Run, Labeled, Lawful, IdentityFits, CommentsFit, RecordsFit, GridCarriesSamples, FrequenciesFit, CommentLines,
         RecordLines, SectionLines, Retain, Opened;
    var l1, l2, l3 := [Labeled("", StartOfAntenna)], CommentLines(a.leadingComments), [Labeled(a.id, TypeSerial)];
    var l4, l5, l6 := RecordLines(pf, a), SectionLines(pf, a.grid, a.frequencies), [Labeled("", EndOfAntenna)];
    var s1 := s.(blockSeen := true, current := Some(BLANK_BLOCK));
    RunStart(pf, n, s);
    RunComments(pf, n + |l1|, a.leadingComments, s1);
    assert [] + a.leadingComments == a.leadingComments;
    var b2 := BLANK_BLOCK.(antenna := BLANK_ANTENNA.(leadingComments := a.leadingComments));
    var s2 := s1.(current := Some(b2));
    var b3 := RunIdentity(pf, n + |l1| + |l2|, a, s2, b2);
    var s3 := s1.(current := Some(b3));
    var b4 := RunRecords(pf, n + |l1| + |l2| + |l3|, a, s3, b3);
    var s4 := s1.(current := Some(b4));
    RunFour(pf, n, l1, l2, l3, l4, s, s1, s2, s3, s4);
    GridOfRecords(pf, a);
    RunBlockEnd(pf, n, l1 + l2 + l3 + l4, a, s, s4, b4);
    assert s4.(current := None) == s.(blockSeen := true);
  }

  lemma GridOfRecords(pf: Platform, a: Antenna)
    requires RecordsFit(pf, a)
    ensures a.grid.Some? ==> GridFits(pf, a.grid.value)
  {
  }

  lemma {:induction false} RunBlockEnd(pf: Platform, n: nat, head: seq<string>, a: Antenna, s: State, s4: State, b: Block)
    requires Lawful(pf) && FrequenciesFit(pf, a.grid, a.frequencies) && (a.grid.Some? ==> GridFits(pf, a.grid.value))
    requires Run(pf, n, head, s) == Ok(s4) && s4.current == Some(b) && s4.section.None? && Recorded(a, b)
    ensures Run(pf, n, head + SectionLines(pf, a.grid, a.frequencies) + [Labeled("", EndOfAntenna)], s)
            == Ok(Retain(s4.(current := None), a))
  {
    hide Run, Labeled, Lawful, GridFits, FrequenciesFit, SectionLines, Retain;
    var l5 := SectionLines(pf, a.grid, a.frequencies);
    RunThen(pf, n, head, l5, s, s4);
    RunSections(pf, n + |head|, a.grid, a.frequencies, s4, []);
    assert [] + a.frequencies == a.frequencies;
    var s5 := WithFrequencies(s4, a.frequencies);
    RunThen(pf, n, head + l5, [Labeled("", EndOfAntenna)], s, s5);
    RunFinish(pf, n + |head + l5|, a, s5, s5.current.value);
    assert s5.(current := None) == s4.(current := None);
  }
}
