/** The reader as the program runs it: a parse state whose fields every record
    updates in place, proved step by step against the functions of `AntexReader`. */
module AntexParser {
  import opened Text
  import opened Decimal
  import opened AntexTypes
  import opened AntexReader

  /** What a step reports and leaves behind is what the specification gives; after
      a refusal the state is not looked at again. */
  ghost predicate Did(fault: Option<Error>, want: Result<State, Error>, now: State) {
    match want
    case Ok(s) => fault.None? && now == s
    case Err(e) => fault == Some(e)
  }

  class ParseState {
    var header: Header
    var headerRecords: map<Label, string>
    var antennas: map<string, Antenna>
    var intervals: map<string, seq<Antenna>>
    var blockOrder: seq<(string, nat)>
    var outerComments: seq<OuterComment>
    var blockSeen: bool
    var current: Option<Block>
    var section: Option<Section>
    var line: nat
    var skips: seq<Skip>

    ghost function View(): State
      reads this
    {
      State(header, headerRecords, antennas, intervals, blockOrder, outerComments, blockSeen, current, section, skips)
    }

    constructor ()
      ensures View() == INITIAL && line == 0
    {
      header := Header(None, None, [], false);
      headerRecords := map[];
      antennas := map[];
      intervals := map[];
      blockOrder := [];
      outerComments := [];
      blockSeen := false;
      current := None;
      section := None;
      line := 0;
      skips := [];
    }

    method Skipped(reason: SkipReason)
      modifies this`skips
      ensures View() == PushSkip(old(View()), line, reason)
    {
      skips := skips + [Skip(line, reason)];
    }

    // ----- header -----

    method ParseVersion(pf: Platform, text: string) returns (fault: Option<Error>)
      modifies this`header, this`headerRecords, this`skips
      ensures Did(fault, ReadVersion(pf, line, text, old(View())), View())
    {
      var claim := ClaimOnce(headerRecords, Version, text, None);
      if claim.Err? { return Some(claim.error); }
      if claim.value.Repeat? { return None; }
      headerRecords := claim.value.records;
      if blockSeen || header.endOfHeader { Skipped(Inconsistent(MisplacedHeader)); }
      var version := FortranF64(pf, text, 0, 8);
      if version.None? { return Some(InvalidField(None, Version, VersionNumber, TrimmedField(text, 0, 8))); }
      var flag := RawField(text, 20, 21);
      header := header.(version := Some(AntexVersion(version.value, if flag == "" || flag[0] == ' ' then None else Some(flag[0]))));
      return None;
    }

    method ParsePcvType(text: string) returns (fault: Option<Error>)
      modifies this`header, this`headerRecords, this`skips
      ensures Did(fault, ReadPcvType(line, text, old(View())), View())
    {
      var claim := ClaimOnce(headerRecords, PcvTypeRefant, text, None);
      if claim.Err? { return Some(claim.error); }
      if claim.value.Repeat? { return None; }
      headerRecords := claim.value.records;
      if blockSeen || header.endOfHeader { Skipped(Inconsistent(MisplacedHeader)); }
      var flag := RawField(text, 0, 1);
      if flag != "A" && flag != "R" { return Some(InvalidField(None, PcvTypeRefant, PcvTypeFlag, Trim(flag))); }
      header := header.(pcvType := Some(PcvTypeRecord(
        if flag == "A" then Absolute else Relative, TrimmedField(text, 20, 40), TrimmedField(text, 40, 60))));
      return None;
    }

    method ParseEndOfHeader()
      modifies this`header, this`skips
      ensures View() == ReadEndOfHeader(line, old(View()))
    {
      if blockSeen { Skipped(Inconsistent(MisplacedHeader)); }
      header := header.(endOfHeader := true);
    }

    method ParseComment(text: string)
      modifies this`current, this`header, this`outerComments
      ensures View() == ReadComment(text, old(View()))
    {
      var body := Body(text);
      if current.Some? {
        var b := current.value;
        if !b.identified {
          current := Some(b.(antenna := b.antenna.(leadingComments := b.antenna.leadingComments + [body])));
        } else {
          current := Some(b.(antenna := b.antenna.(comments := b.antenna.comments + [body])));
        }
      } else if !blockSeen && !header.endOfHeader {
        header := header.(comments := header.comments + [body]);
      } else {
        outerComments := outerComments + [OuterComment(|blockOrder|, body)];
      }
    }

    // ----- closing sections and blocks -----

    /** The last frequency with that label and no RMS section, found from the end. */
    method FindRmsTarget(fs: seq<Frequency>, freq: string) returns (at: Option<nat>)
      ensures at == RmsTarget(fs, freq)
    {
      var i := |fs|;
      assert fs[..i] == fs;
      while i > 0
        invariant i <= |fs| && RmsTarget(fs[..i], freq) == RmsTarget(fs, freq)
      {
        i := i - 1;
        if fs[i].freq == freq && fs[i].rms.None? { return Some(i); }
        assert fs[..i + 1][..i] == fs[..i];
      }
      return None;
    }

    method CompleteSection() returns (fault: Option<Error>)
      modifies this`section, this`current, this`skips
      ensures Did(fault, FinalizeSection(line, old(View())), View())
    {
      var taken := section;
      section := None;
      if taken.None? || current.None? { return None; }
      var sec, b := taken.value, current.value;
      var fs := b.antenna.frequencies;
      match sec.kind {
        case Values =>
          if sec.pco.None? { return Some(MissingPco(b.antenna.id, sec.freq)); }
          fs := fs + [Frequency(sec.freq, sec.pco.value, sec.samples, None)];
          current := Some(b.(antenna := b.antenna.(frequencies := fs)));
        case Rms =>
          var target := FindRmsTarget(fs, sec.freq);
          if target.Some? {
            var f := fs[target.value];
            fs := fs[target.value := f.(rms := Some(FrequencyRms(sec.pco, sec.samples)))];
            current := Some(b.(antenna := b.antenna.(frequencies := fs)));
          } else {
            Skipped(Inconsistent(RmsWithoutFrequency));
          }
      }
      return None;
    }

    method CompleteOpenSection() returns (fault: Option<Error>)
      modifies this`section, this`current, this`skips
      ensures Did(fault, CloseOpenSection(line, old(View())), View())
    {
      if section.None? { return None; }
      Skipped(Inconsistent(SectionNotClosed));
      fault := CompleteSection();
    }

    /** A completed block joins the intervals of its id and becomes the public one. */
    method Keep(a: Antenna)
      modifies this`blockOrder, this`intervals, this`antennas
      ensures View() == Retain(old(View()), a)
    {
      if a.id !in intervals { intervals := intervals[a.id := []]; }
      blockOrder := blockOrder + [(a.id, |intervals[a.id]|)];
      intervals := intervals[a.id := intervals[a.id] + [a]];
      antennas := antennas[a.id := a];
    }

    method CompleteAntenna() returns (fault: Option<Error>)
      modifies this`section, this`current, this`skips, this`blockOrder, this`intervals, this`antennas
      ensures Did(fault, FinalizeAntenna(line, old(View())), View())
    {
      fault := CompleteOpenSection();
      if fault.Some? { return; }
      hide CloseOpenSection, Retain;
      if current.None? { return None; }
      var b := current.value;
      current := None;
      if !b.identified {
        Skipped(Inconsistent(BlockWithoutType));
        return None;
      }
      if b.declared.Some? && b.declared.value != |b.antenna.frequencies| {
        Skipped(Inconsistent(CountDiffers));
      }
      Keep(b.antenna);
    }

    method CompleteOpenBlock() returns (fault: Option<Error>)
      modifies this`section, this`current, this`skips, this`blockOrder, this`intervals, this`antennas
      ensures Did(fault, CloseOpenBlock(line, old(View())), View())
    {
      if current.None? { return None; }
      Skipped(Inconsistent(BlockNotClosed));
      fault := CompleteAntenna();
    }

    method ParseStartOfAntenna() returns (fault: Option<Error>)
      modifies this`section, this`current, this`skips, this`blockOrder, this`intervals, this`antennas, this`blockSeen
      ensures Did(fault, OpenBlock(line, old(View())), View())
    {
      fault := CompleteOpenBlock();
      if fault.Some? { return; }
      blockSeen := true;
      current := Some(BLANK_BLOCK);
    }

    method ParseEndOfAntenna() returns (fault: Option<Error>)
      modifies this`section, this`current, this`skips, this`blockOrder, this`intervals, this`antennas
      ensures Did(fault, EndBlock(line, old(View())), View())
    {
      if current.None? { return None; }
      fault := CompleteAntenna();
    }

    // ----- block records -----

    method ParseTypeSerial(text: string) returns (fault: Option<Error>)
      modifies this`current, this`blockSeen, this`skips
      ensures Did(fault, ReadTypeSerial(line, text, old(View())), View())
    {
      if current.None? {
        Skipped(Inconsistent(OutsideAntenna));
        blockSeen := true;
        current := Some(BLANK_BLOCK);
      }
      var b := current.value;
      var claim := ClaimOnce(b.records, TypeSerial, text, if b.identified then Some(b.antenna.id) else None);
      if claim.Err? { return Some(claim.error); }
      if claim.value.First? {
        b := b.(records := claim.value.records);
        current := Some(b);
      }
      if !b.identified {
        current := Some(b.(antenna := Identify(b.antenna, text), identified := true));
      }
      return None;
    }

    method ParseCalibration(text: string)
      modifies this`current, this`skips
      ensures View() == ReadCalibration(line, text, old(View()))
    {
      if current.None? {
        Skipped(Inconsistent(OutsideAntenna));
        return;
      }
      var b := current.value;
      var count: Option<nat> := None;
      var stated := Field(text, 40, 46);
      if stated.Some? {
        count := StrictUnsigned(stated.value, U32_MAX);
        if count.None? { Skipped(MalformedField(stated.value)); }
      }
      var c := Calibration(
        TrimEnd(RawField(text, 0, 20)), TrimEnd(RawField(text, 20, 40)), count, TrimEnd(RawField(text, 50, 60)));
      current := Some(b.(antenna := b.antenna.(calibrations := b.antenna.calibrations + [c])));
    }

    method ParseDazi(pf: Platform, text: string) returns (fault: Option<Error>)
      modifies this`current, this`skips
      ensures Did(fault, ReadDazi(pf, line, text, old(View())), View())
    {
      if current.None? {
        Skipped(Inconsistent(OutsideAntenna));
        return None;
      }
      var b := current.value;
      var claim := ClaimOnce(b.records, Dazi, text, Some(b.antenna.id));
      if claim.Err? { return Some(claim.error); }
      if claim.value.Repeat? { return None; }
      b := b.(records := claim.value.records);
      current := Some(b);
      var start := if RawField(text, 0, 2) == "  " then 2 else 0;
      var dazi := FortranF64(pf, text, start, 8);
      if dazi.None? { return Some(InvalidField(Some(b.antenna.id), Dazi, DaziAngle, TrimmedField(text, start, 8))); }
      current := Some(b.(antenna := b.antenna.(dazi := dazi)));
      return None;
    }

    method ParseZenithGrid(pf: Platform, text: string) returns (fault: Option<Error>)
      modifies this`current, this`skips
      ensures Did(fault, ReadZenith(pf, line, text, old(View())), View())
    {
      if current.None? {
        Skipped(Inconsistent(OutsideAntenna));
        return None;
      }
      var b := current.value;
      var claim := ClaimOnce(b.records, Zenith, text, Some(b.antenna.id));
      if claim.Err? { return Some(claim.error); }
      if claim.value.Repeat? { return None; }
      b := b.(records := claim.value.records);
      current := Some(b);
      var start := ZenithField(pf, text, b, 2, Zen1);
      if start.Err? { return Some(start.error); }
      var end := ZenithField(pf, text, b, 8, Zen2);
      if end.Err? { return Some(end.error); }
      var step := ZenithField(pf, text, b, 14, Dzen);
      if step.Err? { return Some(step.error); }
      current := Some(b.(antenna := b.antenna.(grid := Some(ZenithGrid(start.value, end.value, step.value)))));
      return None;
    }

    method ParseFrequencyCount(text: string) returns (fault: Option<Error>)
      modifies this`current, this`skips
      ensures Did(fault, ReadFrequencyCount(line, text, old(View())), View())
    {
      if current.None? {
        Skipped(Inconsistent(OutsideAntenna));
        return None;
      }
      var b := current.value;
      var claim := ClaimOnce(b.records, FrequencyCount, text, Some(b.antenna.id));
      if claim.Err? { return Some(claim.error); }
      if claim.value.Repeat? { return None; }
      b := b.(records := claim.value.records, antenna := b.antenna.(hasFrequencyCount := true));
      current := Some(b);
      var count := StrictUnsigned(RawField(text, 0, 6), U64_MAX);
      if count.Some? {
        current := Some(b.(declared := count));
      } else {
        Skipped(MalformedField(TrimmedField(text, 0, 6)));
      }
      return None;
    }

    method ParseSinexCode(text: string) returns (fault: Option<Error>)
      modifies this`current, this`skips
      ensures Did(fault, ReadSinex(line, text, old(View())), View())
    {
      if current.None? {
        Skipped(Inconsistent(OutsideAntenna));
        return None;
      }
      var b := current.value;
      var claim := ClaimOnce(b.records, Sinex, text, Some(b.antenna.id));
      if claim.Err? { return Some(claim.error); }
      if claim.value.Repeat? { return None; }
      b := b.(records := claim.value.records);
      current := Some(b);
      var code := TrimmedField(text, 0, LABEL_COLUMN);
      if code != "" { current := Some(b.(antenna := b.antenna.(sinex := Some(code)))); }
      return None;
    }

    method ParseValid(text: string, record: Label) returns (fault: Option<Error>)
      requires record == ValidFrom || record == ValidUntil
      modifies this`current, this`skips
      ensures Did(fault, ReadValid(line, text, old(View()), record), View())
    {
      if current.None? {
        Skipped(Inconsistent(OutsideAntenna));
        return None;
      }
      var b := current.value;
      var claim := ClaimOnce(b.records, record, text, Some(b.antenna.id));
      if claim.Err? { return Some(claim.error); }
      if claim.value.Repeat? { return None; }
      b := b.(records := claim.value.records);
      current := Some(b);
      var date := ReadDate(text, record, b.antenna.id);
      if date.Err? { return Some(date.error); }
      if record == ValidFrom {
        current := Some(b.(antenna := b.antenna.(validFrom := Some(date.value))));
      } else {
        current := Some(b.(antenna := b.antenna.(validUntil := Some(date.value))));
      }
      return None;
    }

    // ----- sections -----

    method ParseStartOfSection(text: string, kind: SectionKind) returns (fault: Option<Error>)
      modifies this`section, this`current, this`skips
      ensures Did(fault, BeginSection(line, text, old(View()), kind), View())
    {
      if current.None? {
        Skipped(Inconsistent(OutsideAntenna));
        return None;
      }
      fault := CompleteOpenSection();
      if fault.Some? { return; }
      section := Some(Section(kind, TrimmedField(text, 0, 20), None, None, [], {}));
    }

    method ParseEndOfSection(text: string, kind: SectionKind) returns (fault: Option<Error>)
      modifies this`section, this`current, this`skips
      ensures Did(fault, EndSection(line, text, old(View()), kind), View())
    {
      if section.None? { return None; }
      var sec, freq := section.value, TrimmedField(text, 0, 20);
      if sec.kind != kind { Skipped(Inconsistent(WrongEndRecord)); }
      if freq != "" && freq != sec.freq { Skipped(Inconsistent(EndLabelDiffers)); }
      fault := CompleteSection();
    }

    method ParsePco(pf: Platform, text: string) returns (fault: Option<Error>)
      modifies this`section, this`skips
      ensures Did(fault, ReadPco(pf, line, text, old(View())), View())
    {
      if section.None? {
        Skipped(Inconsistent(PcoOutsideSection));
        return None;
      }
      var sec := section.value;
      var id := if current.Some? then Some(current.value.antenna.id) else None;
      if sec.pcoBody.Some? {
        if sec.pcoBody.value == Body(text) { return None; }
        return Some(RepeatedRecord(id, NorthEastUp));
      }
      var north := PcoComponent(pf, text, id, 0, North);
      if north.Err? { return Some(north.error); }
      var east := PcoComponent(pf, text, id, 10, East);
      if east.Err? { return Some(east.error); }
      var up := PcoComponent(pf, text, id, 20, Up);
      if up.Err? { return Some(up.error); }
      section := Some(sec.(pco := Some(Triple(north.value, east.value, up.value)), pcoBody := Some(Body(text))));
      return None;
    }

    // ----- grid rows -----

    /** The row's fields in order; malformed ones are reported as they are met. */
    method CollectRow(pf: Platform, step: F64, key: Option<F64>, occupied: set<(Option<F64>, nat)>, text: string)
      returns (values: seq<(nat, F64)>, fault: Option<GridFault>)
      modifies this`skips
      ensures match RowValues(pf, step, key, occupied, line, text, 0)
        case Ok(row) => fault.None? && values == row.values && skips == old(skips) + row.skips
        case Err(e) => fault == Some(e)
    {
      hide RowValues, After;
      values := [];
      var k := 0;
      ghost var more: seq<Skip> := [];
      ghost var whole := RowValues(pf, step, key, occupied, line, text, 0);
      AfterNothing(whole);
      while 8 + 8 * k < |text|
        invariant skips == old(skips) + more
        invariant After(whole, values, more, RowValues(pf, step, key, occupied, line, text, k))
        decreases |text| - 8 * k
      {
        AfterCell(pf, step, key, occupied, line, text, k, whole, values, more);
        var cell := Field(text, 8 + 8 * k, 16 + 8 * k);
        if cell.Some? {
          var v := StrictF64(pf, cell.value);
          if v.Some? {
            if k > 0 && pf.sign(step) != Positive { return values, Some(StepNotPositive(k)); }
            if (key, k) in occupied { return values, Some(PositionFilled(k)); }
            values := values + [(k, v.value)];
          } else {
            Skipped(MalformedField(cell.value));
            more := more + [Skip(line, MalformedField(cell.value))];
          }
        }
        k := k + 1;
      }
      AfterAll(pf, step, key, occupied, line, text, k, whole, values, more);
      return values, None;
    }

    /** The collected values become samples and fill their positions. */
    method PlaceRow(pf: Platform, grid: ZenithGrid, key: Option<F64>, values: seq<(nat, F64)>)
      requires section.Some?
      modifies this`section
      ensures section == Some(old(section.value).(
        samples := old(section.value.samples) + Samples(pf, grid, key, values),
        occupied := old(section.value.occupied) + Positions(key, values)))
    {
      hide Samples, Positions, SampleAt;
      var i := 0;
      PlacedNone(pf, grid, key, values);
      while i < |values|
        invariant i <= |values| && section.Some?
        invariant section.value == old(section.value).(samples := section.value.samples, occupied := section.value.occupied)
        invariant section.value.samples == old(section.value.samples) + Samples(pf, grid, key, values[..i])
        invariant section.value.occupied == old(section.value.occupied) + Positions(key, values[..i])
      {
        var (k, v) := values[i];
        PlacedOne(pf, grid, key, values, i);
        section := Some(section.value.(
          occupied := section.value.occupied + {(key, k)},
          samples := section.value.samples + [SampleAt(pf, grid, key, k, v)]));
        i := i + 1;
      }
      assert values[..i] == values;
    }

    method AddValues(pf: Platform, key: Option<F64>, text: string) returns (fault: Option<Error>)
      modifies this`section, this`skips
      ensures Did(fault, AddPcvValues(pf, key, line, text, old(View())), View())
    {
      if current.None? || section.None? { return None; }
      var b, sec := current.value, section.value;
      if b.antenna.grid.None? { return Some(DegenerateGrid(b.antenna.id, sec.freq, NoGrid)); }
      var grid := b.antenna.grid.value;
      var values, bad := CollectRow(pf, grid.step, key, sec.occupied, text);
      if bad.Some? { return Some(DegenerateGrid(b.antenna.id, sec.freq, bad.value)); }
      PlaceRow(pf, grid, key, values);
      return None;
    }

    method ParseRow(pf: Platform, text: string) returns (fault: Option<Error>)
      modifies this`section, this`skips
      ensures Did(fault, ReadRow(pf, line, text, old(View())), View())
    {
      if Trim(text) == "" { return None; }
      if section.None? {
        Skipped(UnknownBlock(if Tag(text) == "" then TrimmedField(text, 0, LABEL_COLUMN) else Tag(text)));
        return None;
      }
      var field := Field(text, 0, 8);
      var head := if field.Some? then field.value else "";
      if head == "NOAZI" {
        fault := AddValues(pf, None, text);
        return;
      }
      var azimuth := FortranF64(pf, text, 0, 8);
      if azimuth.Some? {
        fault := AddValues(pf, azimuth, text);
        return;
      }
      Skipped(MalformedField(head));
      return None;
    }

    // ----- the whole text -----

    method ParseLine(pf: Platform, text: string) returns (fault: Option<Error>)
      modifies this
      ensures line == old(line)
      ensures Did(fault, Step(pf, line, text, old(View())), View())
    {
      hide OpenBlock, EndBlock, ReadTypeSerial, ReadCalibration, ReadDazi, ReadZenith, ReadFrequencyCount, ReadSinex;
      hide ReadValid, ReadComment, ReadVersion, ReadPcvType, ReadEndOfHeader, BeginSection, EndSection, ReadPco, ReadRow;
      hide LabelOf, Tag;
      fault := None;
      match LabelOf(Tag(text)) {
        case StartOfAntenna => fault := ParseStartOfAntenna();
        case EndOfAntenna => fault := ParseEndOfAntenna();
        case TypeSerial => fault := ParseTypeSerial(text);
        case Meth => ParseCalibration(text);
        case Dazi => fault := ParseDazi(pf, text);
        case Zenith => fault := ParseZenithGrid(pf, text);
        case FrequencyCount => fault := ParseFrequencyCount(text);
        case Sinex => fault := ParseSinexCode(text);
        case ValidFrom => fault := ParseValid(text, ValidFrom);
        case ValidUntil => fault := ParseValid(text, ValidUntil);
        case Comment => ParseComment(text);
        case Version => fault := ParseVersion(pf, text);
        case PcvTypeRefant => fault := ParsePcvType(text);
        case EndOfHeader => ParseEndOfHeader();
        case StartOfFrequency => fault := ParseStartOfSection(text, Values);
        case StartOfRms => fault := ParseStartOfSection(text, Rms);
        case EndOfFrequency => fault := ParseEndOfSection(text, Values);
        case EndOfRms => fault := ParseEndOfSection(text, Rms);
        case NorthEastUp => fault := ParsePco(pf, text);
        case GridRow => fault := ParseRow(pf, text);
      }
    }
  }

  /** A row read so far, followed by what is read of the rest, is the whole row. */
  ghost predicate After(whole: Result<Row, GridFault>, values: seq<(nat, F64)>, skips: seq<Skip>,
                        rest: Result<Row, GridFault>) {
    match rest
    case Ok(row) => whole == Ok(Row(values + row.values, skips + row.skips))
    case Err(e) => whole == Err(e)
  }

  lemma AfterNothing(whole: Result<Row, GridFault>)
    ensures After(whole, [], [], whole)
  {
    if whole.Ok? {
      assert [] + whole.value.values == whole.value.values && [] + whole.value.skips == whole.value.skips;
    }
  }

  /** What reading the next field adds. */
  lemma AfterCell(pf: Platform, step: F64, key: Option<F64>, occupied: set<(Option<F64>, nat)>, n: nat, text: string,
                  k: nat, whole: Result<Row, GridFault>, values: seq<(nat, F64)>, more: seq<Skip>)
    requires 8 + 8 * k < |text| && After(whole, values, more, RowValues(pf, step, key, occupied, n, text, k))
    ensures var rest := RowValues(pf, step, key, occupied, n, text, k + 1);
      match Field(text, 8 + 8 * k, 16 + 8 * k)
      case None => After(whole, values, more, rest)
      case Some(cell) =>
        match StrictF64(pf, cell)
        case None => After(whole, values, more + [Skip(n, MalformedField(cell))], rest)
        case Some(v) =>
          if k > 0 && pf.sign(step) != Positive then whole == Err(StepNotPositive(k))
          else if (key, k) in occupied then whole == Err(PositionFilled(k))
          else After(whole, values + [(k, v)], more, rest)
  {
    hide StrictF64, Field;
    var rest := RowValues(pf, step, key, occupied, n, text, k + 1);
    var cell := Field(text, 8 + 8 * k, 16 + 8 * k);
    if rest.Ok? && cell.Some? {
      var v := StrictF64(pf, cell.value);
      if v.Some? {
        assert values + ([(k, v.value)] + rest.value.values) == values + [(k, v.value)] + rest.value.values;
      } else {
        var skip := Skip(n, MalformedField(cell.value));
        assert more + ([skip] + rest.value.skips) == more + [skip] + rest.value.skips;
      }
    }
  }

  lemma AfterAll(pf: Platform, step: F64, key: Option<F64>, occupied: set<(Option<F64>, nat)>, n: nat, text: string,
                 k: nat, whole: Result<Row, GridFault>, values: seq<(nat, F64)>, more: seq<Skip>)
    requires 8 + 8 * k >= |text| && After(whole, values, more, RowValues(pf, step, key, occupied, n, text, k))
    ensures whole == Ok(Row(values, more))
  {
    assert values + [] == values && more + [] == more;
  }

  lemma PlacedNone(pf: Platform, grid: ZenithGrid, key: Option<F64>, values: seq<(nat, F64)>)
    ensures Samples(pf, grid, key, values[..0]) == [] && Positions(key, values[..0]) == {}
  {
  }

  lemma PlacedOne(pf: Platform, grid: ZenithGrid, key: Option<F64>, values: seq<(nat, F64)>, i: nat)
    requires i < |values|
    ensures Samples(pf, grid, key, values[..i + 1])
         == Samples(pf, grid, key, values[..i]) + [SampleAt(pf, grid, key, values[i].0, values[i].1)]
    ensures Positions(key, values[..i + 1]) == Positions(key, values[..i]) + {(key, values[i].0)}
  {
    hide SampleAt;
    SamplesOne(pf, grid, key, values, i);
    PositionsOne(key, values, i);
  }

  lemma SamplesOne(pf: Platform, grid: ZenithGrid, key: Option<F64>, values: seq<(nat, F64)>, i: nat)
    requires i < |values|
    ensures Samples(pf, grid, key, values[..i + 1])
         == Samples(pf, grid, key, values[..i]) + [SampleAt(pf, grid, key, values[i].0, values[i].1)]
  {
    hide SampleAt, Samples;
  }

  lemma PositionsOne(key: Option<F64>, values: seq<(nat, F64)>, i: nat)
    requires i < |values|
    ensures Positions(key, values[..i + 1]) == Positions(key, values[..i]) + {(key, values[i].0)}
  {
    var before, now := values[..i], values[..i + 1];
    forall p | p in Positions(key, before) ensures p in Positions(key, now) {
      var j :| 0 <= j < |before| && p == (key, before[j].0);
      assert now[j] == before[j];
    }
    assert now[i] == values[i];
    forall p | p in Positions(key, now) ensures p in Positions(key, before) + {(key, values[i].0)} {
      var j :| 0 <= j < |now| && p == (key, now[j].0);
      assert j < i ==> now[j] == before[j];
    }
  }

  /** `Antex::parse`. */
  method ParseText(pf: Platform, text: string) returns (r: Result<Antex, Error>)
    ensures r == Parse(pf, text)
  {
    hide Lines, Step, CloseOpenBlock;
    var lines := Lines(text);
    var state := new ParseState();
    var i := 0;
    while i < |lines|
      invariant i <= |lines| && state.line == i
      invariant Run(pf, 0, lines, INITIAL) == Run(pf, i, lines[i..], state.View())
    {
      state.line := i + 1;
      ghost var before := state.View();
      var fault := state.ParseLine(pf, lines[i]);
      assert lines[i..][0] == lines[i] && lines[i..][1..] == lines[i + 1..];
      if fault.Some? { return Err(fault.value); }
      i := i + 1;
    }
    var fault := state.CompleteOpenBlock();
    if fault.Some? { return Err(fault.value); }
    return Ok(Antex(state.header, state.outerComments, state.antennas, state.intervals, state.blockOrder, state.skips));
  }
}
