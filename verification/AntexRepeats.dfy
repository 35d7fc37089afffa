/** An identical repeat of a once-only record, anywhere in the same header, block
    or section, leaves the product as it was apart from the line numbers of its
    diagnostics. */
module AntexRepeats {
  import opened Text
  import opened AntexTypes
  import opened AntexReader
  import opened AntexRoundTrip

  // ----- line numbers only stamp diagnostics -----

  ghost predicate SameReasons(a: seq<Skip>, b: seq<Skip>) {
    |a| == |b| && forall i :: 0 <= i < |a| ==> a[i].reason == b[i].reason
  }

  /** Equal states up to the line numbers of their skips. */
  ghost predicate Alike(s: State, t: State) { t == s.(skips := t.skips) && SameReasons(s.skips, t.skips) }

  ghost predicate AlikeResults(r: Result<State, Error>, q: Result<State, Error>) {
    match (r, q)
    case (Ok(s), Ok(t)) => Alike(s, t)
    case (Err(e), Err(f)) => e == f
    case _ => false
  }

  lemma {:induction false} PushAlike(n: nat, m: nat, reason: SkipReason, s: State, t: State)
    requires Alike(s, t)
    ensures Alike(PushSkip(s, n, reason), PushSkip(t, m, reason))
  {
  }

  lemma {:induction false} VersionAlike(pf: Platform, n: nat, m: nat, line: string, s: State, t: State)
    requires Alike(s, t)
    ensures AlikeResults(ReadVersion(pf, n, line, s), ReadVersion(pf, m, line, t))
  {
    hide FortranF64, RawField, Body, TrimmedField, SameReasons;
    PushAlike(n, m, Inconsistent(MisplacedHeader), s, t);
  }

  lemma {:induction false} PcvTypeAlike(n: nat, m: nat, line: string, s: State, t: State)
    requires Alike(s, t)
    ensures AlikeResults(ReadPcvType(n, line, s), ReadPcvType(m, line, t))
  {
    hide RawField, Body, TrimmedField, Trim, SameReasons;
    PushAlike(n, m, Inconsistent(MisplacedHeader), s, t);
  }

  lemma {:induction false} EndOfHeaderAlike(n: nat, m: nat, s: State, t: State)
    requires Alike(s, t)
    ensures Alike(ReadEndOfHeader(n, s), ReadEndOfHeader(m, t))
  {
    hide SameReasons;
    PushAlike(n, m, Inconsistent(MisplacedHeader), s, t);
  }

  lemma {:induction false} CommentAlike(line: string, s: State, t: State)
    requires Alike(s, t)
    ensures Alike(ReadComment(line, s), ReadComment(line, t))
  {
    hide SameReasons;
    CommentSkips(line, s, t.skips);
    hide ReadComment;
  }

  lemma {:induction false} CommentSkips(line: string, s: State, skips: seq<Skip>)
    ensures ReadComment(line, s.(skips := skips)) == ReadComment(line, s).(skips := skips)
    ensures ReadComment(line, s).skips == s.skips
  {
    hide Body;
    if s.current.Some? {
      // a comment before the block's identity, or after it
      if s.current.value.identified {
      } else {
      }
    }
  }

  lemma {:induction false} TypeSerialAlike(n: nat, m: nat, line: string, s: State, t: State)
    requires Alike(s, t)
    ensures AlikeResults(ReadTypeSerial(n, line, s), ReadTypeSerial(m, line, t))
  {
    hide Body, Identify, SameReasons;
    PushAlike(n, m, Inconsistent(OutsideAntenna), s, t);
  }

  lemma {:induction false} CalibrationAlike(n: nat, m: nat, line: string, s: State, t: State)
    requires Alike(s, t)
    ensures Alike(ReadCalibration(n, line, s), ReadCalibration(m, line, t))
  {
    hide RawField, TrimEnd, Field, StrictUnsigned, SameReasons;
    PushAlike(n, m, Inconsistent(OutsideAntenna), s, t);
    if Field(line, 40, 46).Some? {
      PushAlike(n, m, MalformedField(Field(line, 40, 46).value), s, t);
    }
  }

  lemma {:induction false} DaziAlike(pf: Platform, n: nat, m: nat, line: string, s: State, t: State)
    requires Alike(s, t)
    ensures AlikeResults(ReadDazi(pf, n, line, s), ReadDazi(pf, m, line, t))
  {
    hide RawField, FortranF64, Body, TrimmedField, SameReasons;
    PushAlike(n, m, Inconsistent(OutsideAntenna), s, t);
  }

  lemma {:induction false} ZenithAlike(pf: Platform, n: nat, m: nat, line: string, s: State, t: State)
    requires Alike(s, t)
    ensures AlikeResults(ReadZenith(pf, n, line, s), ReadZenith(pf, m, line, t))
  {
    hide ZenithField, Body, SameReasons;
    PushAlike(n, m, Inconsistent(OutsideAntenna), s, t);
  }

  lemma {:induction false} CountAlike(n: nat, m: nat, line: string, s: State, t: State)
    requires Alike(s, t)
    ensures AlikeResults(ReadFrequencyCount(n, line, s), ReadFrequencyCount(m, line, t))
  {
    hide RawField, StrictUnsigned, Body, TrimmedField, SameReasons;
    PushAlike(n, m, Inconsistent(OutsideAntenna), s, t);
    PushAlike(n, m, MalformedField(TrimmedField(line, 0, 6)), s, t);
  }

  lemma {:induction false} SinexAlike(n: nat, m: nat, line: string, s: State, t: State)
    requires Alike(s, t)
    ensures AlikeResults(ReadSinex(n, line, s), ReadSinex(m, line, t))
  {
    hide TrimmedField, Body, SameReasons;
    PushAlike(n, m, Inconsistent(OutsideAntenna), s, t);
  }

  lemma {:induction false} ValidAlike(n: nat, m: nat, line: string, s: State, t: State, record: Label)
    requires Alike(s, t) && (record == ValidFrom || record == ValidUntil)
    ensures AlikeResults(ReadValid(n, line, s, record), ReadValid(m, line, t, record))
  {
    hide ReadDate, Body, SameReasons;
    PushAlike(n, m, Inconsistent(OutsideAntenna), s, t);
  }

  lemma {:induction false} FinalizeSectionAlike(n: nat, m: nat, s: State, t: State)
    requires Alike(s, t)
    ensures AlikeResults(FinalizeSection(n, s), FinalizeSection(m, t))
  {
    hide RmsTarget, SameReasons;
    PushAlike(n, m, Inconsistent(RmsWithoutFrequency), s.(section := None), t.(section := None));
  }

  lemma {:induction false} CloseSectionAlike(n: nat, m: nat, s: State, t: State)
    requires Alike(s, t)
    ensures AlikeResults(CloseOpenSection(n, s), CloseOpenSection(m, t))
  {
    hide FinalizeSection, SameReasons;
    PushAlike(n, m, Inconsistent(SectionNotClosed), s, t);
    FinalizeSectionAlike(n, m, SkipInconsistent(s, n, SectionNotClosed), SkipInconsistent(t, m, SectionNotClosed));
  }

  lemma {:induction false} FinalizeAlike(n: nat, m: nat, s: State, t: State)
    requires Alike(s, t)
    ensures AlikeResults(FinalizeAntenna(n, s), FinalizeAntenna(m, t))
  {
    hide CloseOpenSection, SameReasons;
    CloseSectionAlike(n, m, s, t);
    if CloseOpenSection(n, s).Ok? {
      var s2 := CloseOpenSection(n, s).value.(current := None);
      var t2 := CloseOpenSection(m, t).value.(current := None);
      PushAlike(n, m, Inconsistent(BlockWithoutType), s2, t2);
      PushAlike(n, m, Inconsistent(CountDiffers), s2, t2);
    }
  }

  lemma {:induction false} CloseAlike(n: nat, m: nat, s: State, t: State)
    requires Alike(s, t)
    ensures AlikeResults(CloseOpenBlock(n, s), CloseOpenBlock(m, t))
  {
    hide FinalizeAntenna, SameReasons;
    PushAlike(n, m, Inconsistent(BlockNotClosed), s, t);
    FinalizeAlike(n, m, SkipInconsistent(s, n, BlockNotClosed), SkipInconsistent(t, m, BlockNotClosed));
  }

  lemma {:induction false} OpenAlike(n: nat, m: nat, s: State, t: State)
    requires Alike(s, t)
    ensures AlikeResults(OpenBlock(n, s), OpenBlock(m, t))
  {
    hide CloseOpenBlock, SameReasons;
    CloseAlike(n, m, s, t);
  }

  lemma {:induction false} BeginAlike(n: nat, m: nat, line: string, s: State, t: State, kind: SectionKind)
    requires Alike(s, t)
    ensures AlikeResults(BeginSection(n, line, s, kind), BeginSection(m, line, t, kind))
  {
    hide CloseOpenSection, TrimmedField, SameReasons;
    PushAlike(n, m, Inconsistent(OutsideAntenna), s, t);
    CloseSectionAlike(n, m, s, t);
  }

  lemma {:induction false} EndAlike(n: nat, m: nat, line: string, s: State, t: State, kind: SectionKind)
    requires Alike(s, t)
    ensures AlikeResults(EndSection(n, line, s, kind), EndSection(m, line, t, kind))
  {
    hide FinalizeSection, TrimmedField, SameReasons;
    if s.section.Some? {
      var sec := s.section.value;
      var name := TrimmedField(line, 0, 20);
      PushAlike(n, m, Inconsistent(WrongEndRecord), s, t);
      var s1 := if sec.kind != kind then SkipInconsistent(s, n, WrongEndRecord) else s;
      var t1 := if sec.kind != kind then SkipInconsistent(t, m, WrongEndRecord) else t;
      PushAlike(n, m, Inconsistent(EndLabelDiffers), s1, t1);
      var s2 := if name != "" && name != sec.freq then SkipInconsistent(s1, n, EndLabelDiffers) else s1;
      var t2 := if name != "" && name != sec.freq then SkipInconsistent(t1, m, EndLabelDiffers) else t1;
      FinalizeSectionAlike(n, m, s2, t2);
    }
  }

  lemma {:induction false} PcoAlike(pf: Platform, n: nat, m: nat, line: string, s: State, t: State)
    requires Alike(s, t)
    ensures AlikeResults(ReadPco(pf, n, line, s), ReadPco(pf, m, line, t))
  {
    hide PcoComponent, Body, SameReasons;
    PushAlike(n, m, Inconsistent(PcoOutsideSection), s, t);
  }

  ghost predicate AlikeRows(r: Result<Row, GridFault>, q: Result<Row, GridFault>) {
    match (r, q)
    case (Ok(a), Ok(b)) => a.values == b.values && SameReasons(a.skips, b.skips)
    case (Err(e), Err(f)) => e == f
    case _ => false
  }

  lemma {:induction false} RowValuesAlike(pf: Platform, step: F64, key: Option<F64>, occupied: set<(Option<F64>, nat)>, n: nat, m: nat, line: string, k: nat)
    ensures AlikeRows(RowValues(pf, step, key, occupied, n, line, k), RowValues(pf, step, key, occupied, m, line, k))
    decreases |line| - 8 * k
  {
    hide Field, StrictF64;
    if 8 + 8 * k < |line| {
      RowValuesAlike(pf, step, key, occupied, n, m, line, k + 1);
    }
  }

  lemma {:induction false} AddAlike(pf: Platform, key: Option<F64>, n: nat, m: nat, line: string, s: State, t: State)
    requires Alike(s, t)
    ensures AlikeResults(AddPcvValues(pf, key, n, line, s), AddPcvValues(pf, key, m, line, t))
  {
    hide RowValues, Samples, Positions;
    if s.section.Some? && s.current.Some? && s.current.value.antenna.grid.Some? {
      RowValuesAlike(pf, s.current.value.antenna.grid.value.step, key, s.section.value.occupied, n, m, line, 0);
    }
  }

  lemma {:induction false} RowAlike(pf: Platform, n: nat, m: nat, line: string, s: State, t: State)
    requires Alike(s, t)
    ensures AlikeResults(ReadRow(pf, n, line, s), ReadRow(pf, m, line, t))
  {
    hide AddPcvValues, Trim, Tag, TrimmedField, Field, FortranF64, SameReasons;
    var what := if Tag(line) == "" then TrimmedField(line, 0, LABEL_COLUMN) else Tag(line);
    PushAlike(n, m, UnknownBlock(what), s, t);
    var head := if Field(line, 0, 8).Some? then Field(line, 0, 8).value else "";
    PushAlike(n, m, MalformedField(head), s, t);
    AddAlike(pf, None, n, m, line, s, t);
    AddAlike(pf, FortranF64(pf, line, 0, 8), n, m, line, s, t);
  }

  lemma {:induction false} HandleAlike(pf: Platform, l: Label, n: nat, m: nat, line: string, s: State, t: State)
    requires Alike(s, t)
    ensures AlikeResults(Handle(pf, l, n, line, s), Handle(pf, l, m, line, t))
  {
    hide SameReasons, OpenBlock, FinalizeAntenna, ReadTypeSerial, ReadCalibration, ReadDazi, ReadZenith, ReadFrequencyCount,
         ReadSinex, ReadValid, ReadComment, ReadVersion, ReadPcvType, ReadEndOfHeader, BeginSection, EndSection, ReadPco, ReadRow;
    match l
    case StartOfAntenna => OpenAlike(n, m, s, t);
    case EndOfAntenna => FinalizeAlike(n, m, s, t);
    case TypeSerial => TypeSerialAlike(n, m, line, s, t);
    case Meth => CalibrationAlike(n, m, line, s, t);
    case Dazi => DaziAlike(pf, n, m, line, s, t);
    case Zenith => ZenithAlike(pf, n, m, line, s, t);
    case FrequencyCount => CountAlike(n, m, line, s, t);
    case Sinex => SinexAlike(n, m, line, s, t);
    case ValidFrom => ValidAlike(n, m, line, s, t, ValidFrom);
    case ValidUntil => ValidAlike(n, m, line, s, t, ValidUntil);
    case Comment => CommentAlike(line, s, t);
    case Version => VersionAlike(pf, n, m, line, s, t);
    case PcvTypeRefant => PcvTypeAlike(n, m, line, s, t);
    case EndOfHeader => EndOfHeaderAlike(n, m, s, t);
    case StartOfFrequency => BeginAlike(n, m, line, s, t, Values);
    case StartOfRms => BeginAlike(n, m, line, s, t, Rms);
    case EndOfFrequency => EndAlike(n, m, line, s, t, Values);
    case EndOfRms => EndAlike(n, m, line, s, t, Rms);
    case NorthEastUp => PcoAlike(pf, n, m, line, s, t);
    case GridRow => RowAlike(pf, n, m, line, s, t);
  }

  lemma {:induction false} RunAlike(pf: Platform, n: nat, m: nat, lines: seq<string>, s: State, t: State)
    requires Alike(s, t)
    ensures AlikeResults(Run(pf, n, lines, s), Run(pf, m, lines, t))
    decreases |lines|
  {
    hide Alike, Handle, LabelOf, Tag;
    if lines != [] {
      HandleAlike(pf, LabelOf(Tag(lines[0])), n + 1, m + 1, lines[0], s, t);
      if Step(pf, n + 1, lines[0], s).Ok? {
        RunAlike(pf, n + 1, m + 1, lines[1..], Step(pf, n + 1, lines[0], s).value, Step(pf, m + 1, lines[0], t).value);
      }
    }
  }

  // ----- claims -----

  ghost predicate InHeader(l: Label) { l == Version || l == PcvTypeRefant }

  ghost predicate InBlock(l: Label) {
    l in {TypeSerial, Dazi, Zenith, FrequencyCount, Sinex, ValidFrom, ValidUntil}
  }

  ghost predicate OnceOnly(l: Label) { InHeader(l) || InBlock(l) || l == NorthEastUp }

  /** The record has been read, with that body, in the scope now open. */
  ghost predicate Claimed(s: State, l: Label, body: string) {
    if InHeader(l) then l in s.headerRecords && s.headerRecords[l] == body
    else if InBlock(l) then
      && s.current.Some?
      && l in s.current.value.records && s.current.value.records[l] == body
      && (l == TypeSerial ==> s.current.value.identified)
    else s.section.Some? && s.section.value.pcoBody == Some(body)
  }

  /** A repeat inside the scope changes nothing at all. */
  lemma {:induction false} RepeatIsNothing(pf: Platform, n: nat, line: string, s: State)
    requires OnceOnly(LabelOf(Tag(line))) && Claimed(s, LabelOf(Tag(line)), Body(line))
    ensures Step(pf, n, line, s) == Ok(s)
  {
    hide LabelOf, Tag, Body, FortranF64, RawField, TrimmedField, Trim, ZenithField, StrictUnsigned, ReadDate, PcoComponent, Identify,
         OpenBlock, EndBlock, ReadCalibration, ReadComment, ReadEndOfHeader, BeginSection, EndSection, ReadRow;
  }

  /** Records that end the scope of a claim. */
  ghost predicate EndsScope(l: Label, ender: Label) {
    if InHeader(l) then false
    else if InBlock(l) then ender in {StartOfAntenna, EndOfAntenna}
    else ender in {StartOfAntenna, EndOfAntenna, StartOfFrequency, StartOfRms, EndOfFrequency, EndOfRms}
  }

  ghost predicate MapGrows(a: map<Label, string>, b: map<Label, string>) {
    forall l :: l in a ==> l in b && b[l] == a[l]
  }

  /** Claims of the header and of the open block survive. */
  ghost predicate Grows(s: State, s': State) {
    && MapGrows(s.headerRecords, s'.headerRecords)
    && (s.current.Some? ==>
          && s'.current.Some?
          && MapGrows(s.current.value.records, s'.current.value.records)
          && (s.current.value.identified ==> s'.current.value.identified))
  }

  ghost predicate SectionStays(s: State, s': State) {
    s.section.Some? && s.section.value.pcoBody.Some? ==>
      s'.section.Some? && s'.section.value.pcoBody == s.section.value.pcoBody
  }

  lemma {:induction false} GrowsKeeps(s: State, s': State, l: Label, body: string)
    requires OnceOnly(l) && Claimed(s, l, body) && Grows(s, s') && (l == NorthEastUp ==> SectionStays(s, s'))
    ensures Claimed(s', l, body)
  {
  }

  lemma {:induction false} HeaderGrows(pf: Platform, n: nat, line: string, s: State)
    ensures ReadVersion(pf, n, line, s).Ok? ==> Grows(s, ReadVersion(pf, n, line, s).value) && SectionStays(s, ReadVersion(pf, n, line, s).value)
    ensures ReadPcvType(n, line, s).Ok? ==> Grows(s, ReadPcvType(n, line, s).value) && SectionStays(s, ReadPcvType(n, line, s).value)
  {
    hide ReadVersion, ReadPcvType, Grows, SectionStays;
    VersionGrows(pf, n, line, s);
    PcvTypeGrows(n, line, s);
  }

  lemma {:induction false} VersionGrows(pf: Platform, n: nat, line: string, s: State)
    ensures ReadVersion(pf, n, line, s).Ok? ==> Grows(s, ReadVersion(pf, n, line, s).value) && SectionStays(s, ReadVersion(pf, n, line, s).value)
  {
    hide FortranF64, RawField, TrimmedField, Body;
  }

  lemma {:induction false} PcvTypeGrows(n: nat, line: string, s: State)
    ensures ReadPcvType(n, line, s).Ok? ==> Grows(s, ReadPcvType(n, line, s).value) && SectionStays(s, ReadPcvType(n, line, s).value)
  {
    hide RawField, TrimmedField, Body, Trim;
  }

  lemma {:induction false} PlainGrows(n: nat, line: string, s: State)
    ensures Grows(s, ReadEndOfHeader(n, s)) && SectionStays(s, ReadEndOfHeader(n, s))
    ensures Grows(s, ReadComment(line, s)) && SectionStays(s, ReadComment(line, s))
  {
    hide Body;
  }

  lemma {:induction false} CalibrationGrows(n: nat, line: string, s: State)
    ensures Grows(s, ReadCalibration(n, line, s)) && SectionStays(s, ReadCalibration(n, line, s))
  {
    hide RawField, TrimEnd, Field, StrictUnsigned;
  }

  lemma {:induction false} TypeSerialGrows(n: nat, line: string, s: State)
    requires ReadTypeSerial(n, line, s).Ok?
    ensures Grows(s, ReadTypeSerial(n, line, s).value) && SectionStays(s, ReadTypeSerial(n, line, s).value)
  {
    hide Body, Identify;
  }

  lemma {:induction false} DaziGrows(pf: Platform, n: nat, line: string, s: State)
    requires ReadDazi(pf, n, line, s).Ok?
    ensures Grows(s, ReadDazi(pf, n, line, s).value) && SectionStays(s, ReadDazi(pf, n, line, s).value)
  {
    hide Body, FortranF64, RawField;
  }

  lemma {:induction false} ZenithGrows(pf: Platform, n: nat, line: string, s: State)
    requires ReadZenith(pf, n, line, s).Ok?
    ensures Grows(s, ReadZenith(pf, n, line, s).value) && SectionStays(s, ReadZenith(pf, n, line, s).value)
  {
    hide Body, ZenithField;
  }

  lemma {:induction false} CountGrows(n: nat, line: string, s: State)
    requires ReadFrequencyCount(n, line, s).Ok?
    ensures Grows(s, ReadFrequencyCount(n, line, s).value) && SectionStays(s, ReadFrequencyCount(n, line, s).value)
  {
    hide Body, StrictUnsigned, RawField, TrimmedField;
    var r := ReadFrequencyCount(n, line, s).value;
    assert r.section == s.section && r.headerRecords == s.headerRecords;
    if s.current.Some? {
      assert r.current.Some? && r.current.value.identified == s.current.value.identified;
      assert MapGrows(s.current.value.records, r.current.value.records);
    }
  }

  lemma {:induction false} SinexGrows(n: nat, line: string, s: State)
    requires ReadSinex(n, line, s).Ok?
    ensures Grows(s, ReadSinex(n, line, s).value) && SectionStays(s, ReadSinex(n, line, s).value)
  {
    hide Body, TrimmedField;
  }

  lemma {:induction false} ValidGrows(n: nat, line: string, s: State, record: Label)
    requires (record == ValidFrom || record == ValidUntil) && ReadValid(n, line, s, record).Ok?
    ensures Grows(s, ReadValid(n, line, s, record).value) && SectionStays(s, ReadValid(n, line, s, record).value)
  {
    hide Body, ReadDate;
  }

  lemma {:induction false} FinalizeSectionGrows(n: nat, s: State)
    requires FinalizeSection(n, s).Ok?
    ensures Grows(s, FinalizeSection(n, s).value)
  {
    hide RmsTarget;
  }

  lemma {:induction false} BeginGrows(n: nat, line: string, s: State, kind: SectionKind)
    requires BeginSection(n, line, s, kind).Ok?
    ensures Grows(s, BeginSection(n, line, s, kind).value)
  {
    hide FinalizeSection, TrimmedField, MapGrows;
    assert MapGrows(s.headerRecords, s.headerRecords) by { SameGrows(s.headerRecords); }
    if s.current.Some? {
      SameGrows(s.current.value.records);
      if s.section.Some? {
        FinalizeSectionGrows(n, SkipInconsistent(s, n, SectionNotClosed));
      }
    }
  }

  lemma SameGrows(a: map<Label, string>)
    ensures MapGrows(a, a)
  {
  }

  lemma {:induction false} EndGrows(n: nat, line: string, s: State, kind: SectionKind)
    requires EndSection(n, line, s, kind).Ok?
    ensures Grows(s, EndSection(n, line, s, kind).value)
  {
    hide FinalizeSection, TrimmedField, MapGrows;
    SameGrows(s.headerRecords);
    if s.current.Some? {
      SameGrows(s.current.value.records);
    }
    if s.section.Some? {
      var sec := s.section.value;
      var s1 := if sec.kind != kind then SkipInconsistent(s, n, WrongEndRecord) else s;
      var name := TrimmedField(line, 0, 20);
      var s2 := if name != "" && name != sec.freq then SkipInconsistent(s1, n, EndLabelDiffers) else s1;
      FinalizeSectionGrows(n, s2);
    }
  }

  lemma {:induction false} PcoGrows(pf: Platform, n: nat, line: string, s: State)
    requires ReadPco(pf, n, line, s).Ok?
    ensures Grows(s, ReadPco(pf, n, line, s).value) && SectionStays(s, ReadPco(pf, n, line, s).value)
  {
    hide PcoComponent, Body;
  }

  lemma {:induction false} AddGrows(pf: Platform, key: Option<F64>, n: nat, line: string, s: State)
    requires AddPcvValues(pf, key, n, line, s).Ok?
    ensures Grows(s, AddPcvValues(pf, key, n, line, s).value) && SectionStays(s, AddPcvValues(pf, key, n, line, s).value)
  {
    hide RowValues, Samples, Positions;
  }

  lemma {:induction false} RowGrows(pf: Platform, n: nat, line: string, s: State)
    requires ReadRow(pf, n, line, s).Ok?
    ensures Grows(s, ReadRow(pf, n, line, s).value) && SectionStays(s, ReadRow(pf, n, line, s).value)
  {
    hide AddPcvValues, Trim, Tag, TrimmedField, Field, FortranF64, MapGrows;
    SameGrows(s.headerRecords);
    if s.current.Some? {
      SameGrows(s.current.value.records);
    }
    if s.section.Some? {
      if AddPcvValues(pf, None, n, line, s).Ok? {
        AddGrows(pf, None, n, line, s);
      }
      if FortranF64(pf, line, 0, 8).Some? && AddPcvValues(pf, FortranF64(pf, line, 0, 8), n, line, s).Ok? {
        AddGrows(pf, FortranF64(pf, line, 0, 8), n, line, s);
      }
    }
  }

  /** Opening or closing a block keeps the header's claims. */
  lemma {:induction false} BlockEndsGrow(n: nat, s: State)
    ensures CloseOpenSection(n, s).Ok? ==> CloseOpenSection(n, s).value.headerRecords == s.headerRecords
    ensures FinalizeAntenna(n, s).Ok? ==> FinalizeAntenna(n, s).value.headerRecords == s.headerRecords
    ensures OpenBlock(n, s).Ok? ==> OpenBlock(n, s).value.headerRecords == s.headerRecords
  {
    FinalizeHeader(n, s);
    FinalizeHeader(n, SkipInconsistent(s, n, BlockNotClosed));
    hide FinalizeAntenna;
  }

  lemma {:induction false} FinalizeHeader(n: nat, s: State)
    ensures CloseOpenSection(n, s).Ok? ==> CloseOpenSection(n, s).value.headerRecords == s.headerRecords
    ensures FinalizeAntenna(n, s).Ok? ==> FinalizeAntenna(n, s).value.headerRecords == s.headerRecords
  {
    hide RmsTarget;
  }

  lemma {:induction false} HandleKeepsClaim(pf: Platform, m: Label, n: nat, line: string, s: State, l: Label, body: string)
    requires OnceOnly(l) && Claimed(s, l, body) && !EndsScope(l, m) && Handle(pf, m, n, line, s).Ok?
    ensures Claimed(Handle(pf, m, n, line, s).value, l, body)
  {
    hide Grows, SectionStays, OpenBlock, FinalizeAntenna, ReadTypeSerial, ReadCalibration, ReadDazi, ReadZenith, ReadFrequencyCount,
         ReadSinex, ReadValid, ReadComment, ReadVersion, ReadPcvType, ReadEndOfHeader, BeginSection, EndSection, ReadPco, ReadRow;
    var s' := Handle(pf, m, n, line, s).value;
    if m == StartOfAntenna || m == EndOfAntenna {
      BlockEndsGrow(n, s);
    } else {
      match m {
      case TypeSerial => TypeSerialGrows(n, line, s);
      case Meth => CalibrationGrows(n, line, s);
      case Dazi => DaziGrows(pf, n, line, s);
      case Zenith => ZenithGrows(pf, n, line, s);
      case FrequencyCount => CountGrows(n, line, s);
      case Sinex => SinexGrows(n, line, s);
      case ValidFrom => ValidGrows(n, line, s, ValidFrom);
      case ValidUntil => ValidGrows(n, line, s, ValidUntil);
      case Comment => PlainGrows(n, line, s);
      case Version => HeaderGrows(pf, n, line, s);
      case PcvTypeRefant => HeaderGrows(pf, n, line, s);
      case EndOfHeader => PlainGrows(n, line, s);
      case StartOfFrequency => BeginGrows(n, line, s, Values);
      case StartOfRms => BeginGrows(n, line, s, Rms);
      case EndOfFrequency => EndGrows(n, line, s, Values);
      case EndOfRms => EndGrows(n, line, s, Rms);
      case NorthEastUp => PcoGrows(pf, n, line, s);
      case GridRow => RowGrows(pf, n, line, s);
      }
      GrowsKeeps(s, s', l, body);
    }
  }

  lemma {:induction false} RunKeepsClaim(pf: Platform, n: nat, lines: seq<string>, s: State, l: Label, body: string)
    requires OnceOnly(l) && Claimed(s, l, body) && Run(pf, n, lines, s).Ok?
    requires forall i :: 0 <= i < |lines| ==> !EndsScope(l, LabelOf(Tag(lines[i])))
    ensures Claimed(Run(pf, n, lines, s).value, l, body)
    decreases |lines|
  {
    hide Claimed, Handle, LabelOf, Tag, EndsScope, OnceOnly;
    if lines != [] {
      HandleKeepsClaim(pf, LabelOf(Tag(lines[0])), n + 1, lines[0], s, l, body);
      RunKeepsClaim(pf, n + 1, lines[1..], Step(pf, n + 1, lines[0], s).value, l, body);
    }
  }

  /** The scope a once-only record needs is open; a block's identity opens its own. */
  ghost predicate ScopeOpen(s: State, l: Label) {
    (InBlock(l) && l != TypeSerial ==> s.current.Some?) && (l == NorthEastUp ==> s.section.Some?)
  }

  /** Reading the record in its scope claims it. */
  lemma {:induction false} FirstClaims(pf: Platform, n: nat, line: string, s: State)
    requires OnceOnly(LabelOf(Tag(line))) && Step(pf, n, line, s).Ok? && ScopeOpen(s, LabelOf(Tag(line)))
    ensures Claimed(Step(pf, n, line, s).value, LabelOf(Tag(line)), Body(line))
  {
    hide LabelOf, Tag;
    HandleClaims(pf, LabelOf(Tag(line)), n, line, s);
  }

  /** The open block has claimed the record. */
  ghost predicate BlockClaimed(s: State, l: Label, body: string) {
    s.current.Some? && l in s.current.value.records && s.current.value.records[l] == body
  }

  lemma {:induction false} HandleClaims(pf: Platform, l: Label, n: nat, line: string, s: State)
    requires OnceOnly(l) && Handle(pf, l, n, line, s).Ok? && ScopeOpen(s, l)
    ensures Claimed(Handle(pf, l, n, line, s).value, l, Body(line))
  {
    hide Body, OpenBlock, EndBlock, ReadTypeSerial, ReadCalibration, ReadDazi, ReadZenith, ReadFrequencyCount, ReadSinex;
    hide ReadValid, ReadComment, ReadVersion, ReadPcvType, ReadEndOfHeader, BeginSection, EndSection, ReadPco, ReadRow;
    match l {
      case Version => VersionClaims(pf, n, line, s);
      case PcvTypeRefant => PcvTypeClaims(n, line, s);
      case TypeSerial => TypeSerialClaims(n, line, s);
      case Dazi => DaziClaims(pf, n, line, s);
      case Zenith => ZenithClaims(pf, n, line, s);
      case FrequencyCount => CountClaims(n, line, s);
      case Sinex => SinexClaims(n, line, s);
      case ValidFrom => ValidClaims(n, line, s, ValidFrom);
      case ValidUntil => ValidClaims(n, line, s, ValidUntil);
      case NorthEastUp => PcoClaims(pf, n, line, s);
    }
  }

  lemma {:induction false} VersionClaims(pf: Platform, n: nat, line: string, s: State)
    requires ReadVersion(pf, n, line, s).Ok?
    ensures var s' := ReadVersion(pf, n, line, s).value; Version in s'.headerRecords && s'.headerRecords[Version] == Body(line)
  {
    hide Body, FortranF64, RawField, TrimmedField;
  }

  lemma {:induction false} PcvTypeClaims(n: nat, line: string, s: State)
    requires ReadPcvType(n, line, s).Ok?
    ensures var s' := ReadPcvType(n, line, s).value;
      PcvTypeRefant in s'.headerRecords && s'.headerRecords[PcvTypeRefant] == Body(line)
  {
    hide Body, RawField, TrimmedField, Trim;
  }

  lemma {:induction false} TypeSerialClaims(n: nat, line: string, s: State)
    requires ReadTypeSerial(n, line, s).Ok?
    ensures BlockClaimed(ReadTypeSerial(n, line, s).value, TypeSerial, Body(line))
    ensures ReadTypeSerial(n, line, s).value.current.value.identified
  {
    hide Body, Identify;
  }

  lemma {:induction false} DaziClaims(pf: Platform, n: nat, line: string, s: State)
    requires ReadDazi(pf, n, line, s).Ok? && s.current.Some?
    ensures BlockClaimed(ReadDazi(pf, n, line, s).value, Dazi, Body(line))
  {
    hide Body, RawField, FortranF64, TrimmedField;
  }

  lemma {:induction false} ZenithClaims(pf: Platform, n: nat, line: string, s: State)
    requires ReadZenith(pf, n, line, s).Ok? && s.current.Some?
    ensures BlockClaimed(ReadZenith(pf, n, line, s).value, Zenith, Body(line))
  {
    hide Body, ZenithField;
  }

  lemma {:induction false} CountClaims(n: nat, line: string, s: State)
    requires ReadFrequencyCount(n, line, s).Ok? && s.current.Some?
    ensures BlockClaimed(ReadFrequencyCount(n, line, s).value, FrequencyCount, Body(line))
  {
    hide Body, RawField, TrimmedField, StrictUnsigned;
  }

  lemma {:induction false} SinexClaims(n: nat, line: string, s: State)
    requires ReadSinex(n, line, s).Ok? && s.current.Some?
    ensures BlockClaimed(ReadSinex(n, line, s).value, Sinex, Body(line))
  {
    hide Body, TrimmedField;
  }

  lemma {:induction false} ValidClaims(n: nat, line: string, s: State, record: Label)
    requires record == ValidFrom || record == ValidUntil
    requires ReadValid(n, line, s, record).Ok? && s.current.Some?
    ensures BlockClaimed(ReadValid(n, line, s, record).value, record, Body(line))
  {
    hide Body, ReadDate;
  }

  lemma {:induction false} PcoClaims(pf: Platform, n: nat, line: string, s: State)
    requires ReadPco(pf, n, line, s).Ok? && s.section.Some?
    ensures var s' := ReadPco(pf, n, line, s).value; s'.section.Some? && s'.section.value.pcoBody == Some(Body(line))
  {
    hide Body, PcoComponent;
  }

  /** Equal products up to the line numbers of the skips. */
  ghost predicate SameProduct(p: Antex, q: Antex) {
    q == p.(skips := q.skips) && SameReasons(p.skips, q.skips)
  }

  /** Inserting `again`, a repeat of the record of `line` with the same body, after
      any lines that do not end the record's scope, changes neither whether the
      whole text parses nor what it parses to. */
  lemma {:induction false} RepeatHarmless(pf: Platform, before: seq<string>, line: string, between: seq<string>, again: string, after: seq<string>)
    requires var l := LabelOf(Tag(line));
             && OnceOnly(l) && LabelOf(Tag(again)) == l && Body(again) == Body(line)
             && (forall i :: 0 <= i < |between| ==> !EndsScope(l, LabelOf(Tag(between[i]))))
             && (Run(pf, 0, before, INITIAL).Ok? ==> ScopeOpen(Run(pf, 0, before, INITIAL).value, l))
    ensures var p := ParseLines(pf, before + [line] + between + after);
            var q := ParseLines(pf, before + [line] + between + [again] + after);
            if p.Ok? then q.Ok? && SameProduct(p.value, q.value) else q == p
  {
    hide Run, LabelOf, Tag, Body, Step, CloseOpenBlock, Claimed, SameReasons, EndsScope;
    var l := LabelOf(Tag(line));
    var head := before + [line] + between;
    if Run(pf, 0, head, INITIAL).Err? {
      RunFails(pf, 0, head, after, INITIAL);
      assert head + [again] + after == head + ([again] + after);
      RunFails(pf, 0, head, [again] + after, INITIAL);
      return;
    }
    assert before + [line] + between == before + ([line] + between);
    RunPrefix(pf, 0, before, [line] + between, INITIAL);
    var s0 := Run(pf, 0, before, INITIAL).value;
    RunThen(pf, 0, before, [line] + between, INITIAL, s0);
    RunOne(pf, |before|, line, s0);
    RunPrefix(pf, |before|, [line], between, s0);
    var s1 := Step(pf, |before| + 1, line, s0).value;
    RunThen(pf, |before|, [line], between, s0, s1);
    FirstClaims(pf, |before| + 1, line, s0);
    RunKeepsClaim(pf, |before| + 1, between, s1, l, Body(line));
    var s2 := Run(pf, 0, head, INITIAL).value;
    RepeatIsNothing(pf, |head| + 1, again, s2);
    RunOne(pf, |head|, again, s2);
    RunThen(pf, 0, head, after, INITIAL, s2);
    RunThen(pf, 0, head, [again], INITIAL, s2);
    RunThen(pf, 0, head + [again], after, INITIAL, s2);
    SelfAlike(s2);
    RunAlike(pf, |head|, |head| + 1, after, s2, s2);
    if Run(pf, |head|, after, s2).Ok? {
      CloseAlike(|head + after|, |head + [again] + after|, Run(pf, |head|, after, s2).value, Run(pf, |head| + 1, after, s2).value);
    }
  }

  lemma {:induction false} RunFails(pf: Platform, n: nat, a: seq<string>, b: seq<string>, s: State)
    requires Run(pf, n, a, s).Err?
    ensures Run(pf, n, a + b, s) == Run(pf, n, a, s)
    decreases |a|
  {
    hide Step;
    assert (a + b)[1..] == a[1..] + b;
    if Step(pf, n + 1, a[0], s).Ok? {
      RunFails(pf, n + 1, a[1..], b, Step(pf, n + 1, a[0], s).value);
    }
  }

  lemma SelfAlike(s: State)
    ensures Alike(s, s)
  {
  }

  /** A run that succeeds succeeds on every prefix. */
  lemma {:induction false} RunPrefix(pf: Platform, n: nat, a: seq<string>, b: seq<string>, s: State)
    requires Run(pf, n, a + b, s).Ok?
    ensures Run(pf, n, a, s).Ok?
    decreases |a|
  {
    hide Step;
    if a != [] {
      assert (a + b)[1..] == a[1..] + b;
      RunPrefix(pf, n + 1, a[1..], b, Step(pf, n + 1, a[0], s).value);
    }
  }
}
