/** What blocks, sections, dates and grid rows mean, stated on the lines themselves. */
module AntexLayoutSections {
  import opened Text
  import opened Decimal
  import opened Seconds
  import opened SecondsField
  import opened AntexTypes
  import opened AntexReader
  import opened AntexLayout

  // ----- sections -----

  /** The last frequency of that label without an RMS section. */
  ghost predicate IsRmsTarget(fs: seq<Frequency>, freq: string, i: nat) {
    && i < |fs| && fs[i].freq == freq && fs[i].rms.None?
    && forall j :: i < j < |fs| ==> fs[j].freq != freq || fs[j].rms.Some?
  }

  /** A closed section becomes a frequency of its block, or the RMS section of the last
      frequency of its label that has none. */
  ghost function SectionClosedMeans(n: nat, s: State): Result<State, Error>
    requires s.section.Some? && s.current.Some?
  {
    var sec, b := s.section.value, s.current.value;
    var fs := b.antenna.frequencies;
    match sec.kind
    case Values =>
      if sec.pco.None? then Err(MissingPco(b.antenna.id, sec.freq))
      else
        Ok(s.(section := None, current := Some(b.(antenna := b.antenna.(
          frequencies := fs + [Frequency(sec.freq, sec.pco.value, sec.samples, None)])))))
    case Rms =>
      if exists i: nat :: IsRmsTarget(fs, sec.freq, i) then
        var i: nat :| IsRmsTarget(fs, sec.freq, i);
        Ok(s.(section := None, current := Some(b.(antenna := b.antenna.(
          frequencies := fs[i := fs[i].(rms := Some(FrequencyRms(sec.pco, sec.samples)))])))))
      else Ok(s.(section := None, skips := s.skips + [Skip(n, Inconsistent(RmsWithoutFrequency))]))
  }

  lemma {:induction false} SectionClosedReads(n: nat, s: State)
    requires s.section.Some? && s.current.Some?
    ensures FinalizeSection(n, s) == SectionClosedMeans(n, s)
  {
    var sec, fs := s.section.value, s.current.value.antenna.frequencies;
    hide RmsTarget;
    if sec.kind == Rms {
      var found := RmsTarget(fs, sec.freq);
      TargetIs(fs, sec.freq);
      hide IsRmsTarget;
      if found.Some? {
        assert IsRmsTarget(fs, sec.freq, found.value);
      }
    }
  }

  lemma TargetIs(fs: seq<Frequency>, freq: string)
    ensures match RmsTarget(fs, freq)
      case None => forall i: nat :: !IsRmsTarget(fs, freq, i)
      case Some(k) => forall i: nat :: IsRmsTarget(fs, freq, i) <==> i == k
  {
    hide RmsTarget;
    match RmsTarget(fs, freq) {
      case None =>
      case Some(k) =>
        assert IsRmsTarget(fs, freq, k);
        forall i: nat | IsRmsTarget(fs, freq, i) ensures i == k {
        }
    }
  }

  /** A section opens with the label in columns 1-20; one still open is closed first and
      reported. */
  ghost function BeginMeans(n: nat, line: string, s: State, kind: SectionKind): Result<State, Error>
    requires |line| >= 60
  {
    var begun := Some(Section(kind, Trim(line[0..20]), None, None, [], {}));
    if s.current.None? then Ok(s.(skips := s.skips + [Skip(n, Inconsistent(OutsideAntenna))]))
    else if s.section.None? then Ok(s.(section := begun))
    else
      match SectionClosedMeans(n, s.(skips := s.skips + [Skip(n, Inconsistent(SectionNotClosed))]))
      case Err(e) => Err(e)
      case Ok(t) => Ok(t.(section := begun))
  }

  lemma {:induction false} BeginReads(n: nat, line: string, s: State, kind: SectionKind)
    requires |line| >= 60
    ensures BeginSection(n, line, s, kind) == BeginMeans(n, line, s, kind)
  {
    ColumnsAre(line, 0, 20);
    hide Trim, TrimmedField, FinalizeSection, SectionClosedMeans;
    if s.current.Some? && s.section.Some? {
      SectionClosedReads(n, s.(skips := s.skips + [Skip(n, Inconsistent(SectionNotClosed))]));
    }
  }

  lemma SectionStartLayout(pf: Platform, n: nat, line: string, s: State)
    requires |line| >= 60
    ensures Labelled(line, "START OF FREQUENCY") ==> Step(pf, n, line, s) == BeginMeans(n, line, s, Values)
    ensures Labelled(line, "START OF FREQ RMS") ==> Step(pf, n, line, s) == BeginMeans(n, line, s, Rms)
  {
    hide Step, BeginSection, BeginMeans, Labelled;
    DispatchMore(pf, n, line, s);
    BeginReads(n, line, s, Values);
    BeginReads(n, line, s, Rms);
  }

  /** An end record closes the open section; ending the other kind, or naming another
      label, is reported. */
  ghost function EndMeans(n: nat, line: string, s: State, kind: SectionKind): Result<State, Error>
    requires |line| >= 60 && (s.section.Some? ==> s.current.Some?)
  {
    if s.section.None? then Ok(s)
    else
      var sec, freq := s.section.value, Trim(line[0..20]);
      var wrong := if sec.kind != kind then [Skip(n, Inconsistent(WrongEndRecord))] else [];
      var other := if freq != "" && freq != sec.freq then [Skip(n, Inconsistent(EndLabelDiffers))] else [];
      SectionClosedMeans(n, s.(skips := s.skips + wrong + other))
  }

  lemma {:induction false} EndReads(n: nat, line: string, s: State, kind: SectionKind)
    requires |line| >= 60 && (s.section.Some? ==> s.current.Some?)
    ensures EndSection(n, line, s, kind) == EndMeans(n, line, s, kind)
  {
    ColumnsAre(line, 0, 20);
    hide Trim, TrimmedField, FinalizeSection, SectionClosedMeans;
    if s.section.Some? {
      var sec, freq := s.section.value, Trim(line[0..20]);
      var wrong := if sec.kind != kind then [Skip(n, Inconsistent(WrongEndRecord))] else [];
      var other := if freq != "" && freq != sec.freq then [Skip(n, Inconsistent(EndLabelDiffers))] else [];
      assert s.skips + [] == s.skips && s.skips + wrong + [] == s.skips + wrong;
      SectionClosedReads(n, s.(skips := s.skips + wrong + other));
    }
  }

  lemma SectionEndLayout(pf: Platform, n: nat, line: string, s: State)
    requires |line| >= 60 && (s.section.Some? ==> s.current.Some?)
    ensures Labelled(line, "END OF FREQUENCY") ==> Step(pf, n, line, s) == EndMeans(n, line, s, Values)
    ensures Labelled(line, "END OF FREQ RMS") ==> Step(pf, n, line, s) == EndMeans(n, line, s, Rms)
  {
    hide Step, EndSection, EndMeans, Labelled;
    DispatchMore(pf, n, line, s);
    EndReads(n, line, s, Values);
    EndReads(n, line, s, Rms);
  }

  // ----- blocks -----

  /** A closed block is kept as the next interval of its id and as the public antenna;
      an open section is closed first, and what is missing is reported. */
  ghost function BlockClosedMeans(n: nat, s: State): Result<State, Error>
    requires s.current.Some?
  {
    var closed := if s.section.None? then Ok(s)
                  else SectionClosedMeans(n, s.(skips := s.skips + [Skip(n, Inconsistent(SectionNotClosed))]));
    match closed
    case Err(e) => Err(e)
    case Ok(t) =>
      if t.current.None? then Ok(t)
      else if !t.current.value.identified then
        Ok(t.(current := None, skips := t.skips + [Skip(n, Inconsistent(BlockWithoutType))]))
      else
        var b := t.current.value;
        var a := b.antenna;
        var before := if a.id in t.intervals then t.intervals[a.id] else [];
        var differs := b.declared.Some? && b.declared.value != |a.frequencies|;
        Ok(t.(
          current := None,
          skips := t.skips + if differs then [Skip(n, Inconsistent(CountDiffers))] else [],
          blockOrder := t.blockOrder + [(a.id, |before|)],
          intervals := t.intervals[a.id := before + [a]],
          antennas := t.antennas[a.id := a]))
  }

  lemma {:induction false} BlockClosedReads(n: nat, s: State)
    requires s.current.Some?
    ensures FinalizeAntenna(n, s) == BlockClosedMeans(n, s)
  {
    hide FinalizeSection, SectionClosedMeans;
    if s.section.Some? {
      SectionClosedReads(n, s.(skips := s.skips + [Skip(n, Inconsistent(SectionNotClosed))]));
    }
    assert CloseOpenSection(n, s) == if s.section.None? then Ok(s)
      else SectionClosedMeans(n, s.(skips := s.skips + [Skip(n, Inconsistent(SectionNotClosed))]));
    hide CloseOpenSection;
    match CloseOpenSection(n, s) {
      case Err(_) =>
      case Ok(t) =>
        assert t.skips + [] == t.skips;
    }
  }

  /** A block opens blank; one still open is closed first and reported. */
  ghost function OpenMeans(n: nat, s: State): Result<State, Error> {
    var blank := Antenna("", Receiver, "", "", [], [], None, None, false, None, None, None, [], []);
    var begun := Some(Block(blank, false, map[], None));
    if s.current.None? then Ok(s.(blockSeen := true, current := begun))
    else
      match BlockClosedMeans(n, s.(skips := s.skips + [Skip(n, Inconsistent(BlockNotClosed))]))
      case Err(e) => Err(e)
      case Ok(t) => Ok(t.(blockSeen := true, current := begun))
  }

  lemma BlockLayout(pf: Platform, n: nat, line: string, s: State)
    ensures Labelled(line, "START OF ANTENNA") ==> Step(pf, n, line, s) == OpenMeans(n, s)
    ensures Labelled(line, "END OF ANTENNA") ==>
      Step(pf, n, line, s) == if s.current.None? then Ok(s) else BlockClosedMeans(n, s)
  {
    hide Step, FinalizeAntenna, BlockClosedMeans, Labelled;
    Dispatch(pf, n, line, s);
    if s.current.Some? {
      BlockClosedReads(n, s);
      BlockClosedReads(n, s.(skips := s.skips + [Skip(n, Inconsistent(BlockNotClosed))]));
    }
  }

  /** At the end of the text an open block is closed and reported. */
  lemma EndOfTextMeans(n: nat, s: State)
    ensures CloseOpenBlock(n, s) ==
      if s.current.None? then Ok(s)
      else BlockClosedMeans(n, s.(skips := s.skips + [Skip(n, Inconsistent(BlockNotClosed))]))
  {
    hide FinalizeAntenna, BlockClosedMeans;
    if s.current.Some? {
      BlockClosedReads(n, s.(skips := s.skips + [Skip(n, Inconsistent(BlockNotClosed))]));
    }
  }

  // ----- records out of place and repeats -----

  /** A block record outside a block is reported and says nothing else. */
  lemma {:induction false} OutsideLayout(pf: Platform, n: nat, line: string, s: State, label_: string)
    requires Labelled(line, label_) && s.current.None?
    requires label_ in ["METH / BY / # / DATE", "DAZI", "ZEN1 / ZEN2 / DZEN", "# OF FREQUENCIES", "SINEX CODE",
                        "VALID FROM", "VALID UNTIL"]
    ensures Step(pf, n, line, s) == Ok(s.(skips := s.skips + [Skip(n, Inconsistent(OutsideAntenna))]))
  {
    hide Step, Labelled;
    Dispatch(pf, n, line, s);
  }

  /** The record is on file with another body. */
  predicate Restated(records: map<Label, string>, l: Label, line: string)
    requires |line| >= 60
  {
    l in records && records[l] != TrimEnd(line[..60])
  }

  /** The record is on file as it is. */
  predicate Repeated(records: map<Label, string>, l: Label, line: string)
    requires |line| >= 60
  {
    l in records && records[l] == TrimEnd(line[..60])
  }

  /** A once-only block record that states something else than before is refused, and
      the same record again says nothing. */
  lemma OnceOnlyLayout(pf: Platform, n: nat, line: string, s: State, l: Label)
    requires |line| >= 60 && s.current.Some?
    requires match l
      case Dazi => Labelled(line, "DAZI")
      case Zenith => Labelled(line, "ZEN1 / ZEN2 / DZEN")
      case FrequencyCount => Labelled(line, "# OF FREQUENCIES")
      case Sinex => Labelled(line, "SINEX CODE")
      case ValidFrom => Labelled(line, "VALID FROM")
      case ValidUntil => Labelled(line, "VALID UNTIL")
      case _ => false
    ensures Restated(s.current.value.records, l, line) ==>
      Step(pf, n, line, s) == Err(RepeatedRecord(Some(s.current.value.antenna.id), l))
    ensures Repeated(s.current.value.records, l, line) ==> Step(pf, n, line, s) == Ok(s)
  {
    hide Step, Labelled, Restated, Repeated, ReadDazi, ReadZenith, ReadFrequencyCount, ReadSinex, ReadValid;
    Dispatch(pf, n, line, s);
    OnceOnly(pf, n, line, s, l);
  }

  lemma OnceOnly(pf: Platform, n: nat, line: string, s: State, l: Label)
    requires |line| >= 60 && s.current.Some?
    ensures Restated(s.current.value.records, l, line) ==>
      var refused := Err(RepeatedRecord(Some(s.current.value.antenna.id), l));
      && (l == Dazi ==> ReadDazi(pf, n, line, s) == refused)
      && (l == Zenith ==> ReadZenith(pf, n, line, s) == refused)
      && (l == FrequencyCount ==> ReadFrequencyCount(n, line, s) == refused)
      && (l == Sinex ==> ReadSinex(n, line, s) == refused)
      && (l == ValidFrom || l == ValidUntil ==> ReadValid(n, line, s, l) == refused)
    ensures Repeated(s.current.value.records, l, line) ==>
      && (l == Dazi ==> ReadDazi(pf, n, line, s) == Ok(s))
      && (l == Zenith ==> ReadZenith(pf, n, line, s) == Ok(s))
      && (l == FrequencyCount ==> ReadFrequencyCount(n, line, s) == Ok(s))
      && (l == Sinex ==> ReadSinex(n, line, s) == Ok(s))
      && (l == ValidFrom || l == ValidUntil ==> ReadValid(n, line, s, l) == Ok(s))
  {
    Claims(s.current.value.records, l, line, Some(s.current.value.antenna.id));
    hide ClaimOnce, Restated, Repeated, TrimEnd, Body, Trim, RawField, FortranF64, ReadDate, ZenithField;
    hide StrictUnsigned, TrimmedField;
  }

  lemma Claims(records: map<Label, string>, l: Label, line: string, id: Option<string>)
    requires |line| >= 60
    ensures Restated(records, l, line) ==> ClaimOnce(records, l, line, id) == Err(RepeatedRecord(id, l))
    ensures Repeated(records, l, line) ==> ClaimOnce(records, l, line, id) == Ok(Repeat)
  {
    ColumnsAre(line, 0, 60);
    hide TrimEnd, Body, Trim;
  }

  /** The same of the header's two records. */
  lemma HeaderOnceLayout(pf: Platform, n: nat, line: string, s: State, l: Label)
    requires |line| >= 60
    requires (l == Version && Labelled(line, "ANTEX VERSION / SYST"))
          || (l == PcvTypeRefant && Labelled(line, "PCV TYPE / REFANT"))
    ensures Restated(s.headerRecords, l, line) ==> Step(pf, n, line, s) == Err(RepeatedRecord(None, l))
    ensures Repeated(s.headerRecords, l, line) ==> Step(pf, n, line, s) == Ok(s)
  {
    hide Step, Labelled, Restated, Repeated, ReadVersion, ReadPcvType;
    DispatchMore(pf, n, line, s);
    HeaderOnce(pf, n, line, s, l);
  }

  lemma HeaderOnce(pf: Platform, n: nat, line: string, s: State, l: Label)
    requires |line| >= 60 && (l == Version || l == PcvTypeRefant)
    ensures var r := if l == Version then ReadVersion(pf, n, line, s) else ReadPcvType(n, line, s);
      && (Restated(s.headerRecords, l, line) ==> r == Err(RepeatedRecord(None, l)))
      && (Repeated(s.headerRecords, l, line) ==> r == Ok(s))
  {
    Claims(s.headerRecords, l, line, None);
    hide ClaimOnce, Restated, Repeated, Body, Trim, RawField, FortranF64, TrimmedField, MisplacedIfLate;
  }

  /** A block identified already keeps its identity: the same record again says
      nothing, another one is refused. */
  lemma IdentityOnceLayout(pf: Platform, n: nat, line: string, s: State)
    requires |line| >= 60 && Labelled(line, "TYPE / SERIAL NO") && s.current.Some? && s.current.value.identified
    ensures Restated(s.current.value.records, TypeSerial, line) ==>
      Step(pf, n, line, s) == Err(RepeatedRecord(Some(s.current.value.antenna.id), TypeSerial))
    ensures Repeated(s.current.value.records, TypeSerial, line) ==> Step(pf, n, line, s) == Ok(s)
  {
    hide Step, Labelled, ReadTypeSerial, Restated, Repeated;
    DispatchIdentity(pf, n, line, s);
    IdentityOnce(n, line, s);
  }

  lemma DispatchIdentity(pf: Platform, n: nat, line: string, s: State)
    requires Labelled(line, "TYPE / SERIAL NO")
    ensures Step(pf, n, line, s) == ReadTypeSerial(n, line, s)
  {
    hide Labelled, Tag, LabelOf, OpenBlock, EndBlock, ReadTypeSerial, ReadCalibration, ReadDazi, ReadZenith;
    hide ReadFrequencyCount, ReadSinex, ReadValid, ReadComment, ReadVersion, ReadPcvType, ReadEndOfHeader;
    hide BeginSection, EndSection, ReadPco, ReadRow;
    TagIs(line, "TYPE / SERIAL NO");
    Labels();
  }

  lemma IdentityOnce(n: nat, line: string, s: State)
    requires |line| >= 60 && s.current.Some? && s.current.value.identified
    ensures Restated(s.current.value.records, TypeSerial, line) ==>
      ReadTypeSerial(n, line, s) == Err(RepeatedRecord(Some(s.current.value.antenna.id), TypeSerial))
    ensures Repeated(s.current.value.records, TypeSerial, line) ==> ReadTypeSerial(n, line, s) == Ok(s)
  {
    hide ClaimOnce, Body, Identify, Restated, Repeated;
    Claims(s.current.value.records, TypeSerial, line, Some(s.current.value.antenna.id));
  }

  /** An identity record outside a block is reported and opens one. */
  lemma IdentityOutsideLayout(pf: Platform, n: nat, line: string, s: State)
    requires |line| >= 60 && Labelled(line, "TYPE / SERIAL NO") && s.current.None?
    ensures var blank := Antenna("", Receiver, "", "", [], [], None, None, false, None, None, None, [], []);
      Step(pf, n, line, s) == Step(pf, n, line, s.(
        skips := s.skips + [Skip(n, Inconsistent(OutsideAntenna))], blockSeen := true,
        current := Some(Block(blank, false, map[], None))))
  {
    hide Step, Labelled, ReadTypeSerial;
    var blank := Antenna("", Receiver, "", "", [], [], None, None, false, None, None, None, [], []);
    var s' := s.(skips := s.skips + [Skip(n, Inconsistent(OutsideAntenna))], blockSeen := true,
                 current := Some(Block(blank, false, map[], None)));
    DispatchIdentity(pf, n, line, s);
    DispatchIdentity(pf, n, line, s');
    assert ReadTypeSerial(n, line, s) == ReadTypeSerial(n, line, s') by {
      IdentityOutside(n, line, s, s');
    }
  }

  lemma IdentityOutside(n: nat, line: string, s: State, s': State)
    requires s.current.None?
    requires s' == SkipInconsistent(s, n, OutsideAntenna).(blockSeen := true, current := Some(BLANK_BLOCK))
    ensures ReadTypeSerial(n, line, s) == ReadTypeSerial(n, line, s')
  {
    hide ClaimOnce, Body, Identify;
  }
}
