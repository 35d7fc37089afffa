/** Samples never share a grid position: in every run, a block's zenith grid is
    fixed before its first row, and each section fills distinct positions of it. */
module AntexGrid {
  import opened Text
  import opened AntexTypes
  import opened AntexReader

  type Position = (Option<F64>, nat)

  /** The sample stands at that row head and index of the grid. */
  ghost predicate StandsAt(pf: Platform, g: ZenithGrid, s: PcvSample, at: Position) {
    && s == SampleAt(pf, g, at.0, at.1, F64(0)).(value := s.value)
    && (at.1 > 0 ==> pf.sign(g.step) == Positive)
  }

  ghost predicate NoRepeats(at: seq<Position>) { forall i, j :: 0 <= i < j < |at| ==> at[i] != at[j] }

  /** Each sample at a position of its own. */
  ghost predicate Placement(pf: Platform, g: ZenithGrid, samples: seq<PcvSample>, at: seq<Position>) {
    && |at| == |samples|
    && NoRepeats(at)
    && forall i :: 0 <= i < |at| ==> StandsAt(pf, g, samples[i], at[i])
  }

  ghost predicate OnGrid(pf: Platform, grid: Option<ZenithGrid>, samples: seq<PcvSample>) {
    samples == [] || (grid.Some? && exists at :: Placement(pf, grid.value, samples, at))
  }

  function Filled(at: seq<Position>): set<Position> { set i | 0 <= i < |at| :: at[i] }

  /** The open section: its samples' positions are exactly the filled ones. */
  ghost predicate SectionOk(pf: Platform, grid: Option<ZenithGrid>, sec: Section) {
    if grid.None? then sec.samples == [] && sec.occupied == {}
    else exists at :: Placement(pf, grid.value, sec.samples, at) && Filled(at) == sec.occupied
  }

  ghost predicate FrequencyOk(pf: Platform, grid: Option<ZenithGrid>, f: Frequency) {
    OnGrid(pf, grid, f.samples) && (f.rms.Some? ==> OnGrid(pf, grid, f.rms.value.samples))
  }

  ghost predicate AntennaOk(pf: Platform, a: Antenna) {
    forall i :: 0 <= i < |a.frequencies| ==> FrequencyOk(pf, a.grid, a.frequencies[i])
  }

  ghost predicate BlockOk(pf: Platform, b: Block, section: Option<Section>) {
    && AntennaOk(pf, b.antenna)
    && (b.antenna.grid.Some? ==> Zenith in b.records)
    && (section.Some? ==> SectionOk(pf, b.antenna.grid, section.value))
  }

  ghost predicate RetainedOk(pf: Platform, intervals: map<string, seq<Antenna>>) {
    forall id :: id in intervals ==> forall i :: 0 <= i < |intervals[id]| ==> AntennaOk(pf, intervals[id][i])
  }

  ghost predicate GridInv(pf: Platform, s: State) {
    && RetainedOk(pf, s.intervals)
    && (s.section.Some? ==> s.current.Some?)
    && (s.current.Some? ==> BlockOk(pf, s.current.value, s.section))
  }

  // ----- rows -----

  /** The positions a row's values take rise from `k` and are free. */
  ghost predicate Fresh(pf: Platform, step: F64, key: Option<F64>, occupied: set<Position>, k: nat, values: seq<(nat, F64)>) {
    && (forall i :: 0 <= i < |values| ==>
          && k <= values[i].0
          && (key, values[i].0) !in occupied
          && (values[i].0 > 0 ==> pf.sign(step) == Positive))
    && forall i, j :: 0 <= i < j < |values| ==> values[i].0 < values[j].0
  }

  lemma {:induction false} RowValuesFresh(pf: Platform, step: F64, key: Option<F64>, occupied: set<Position>, n: nat, line: string, k: nat)
    requires RowValues(pf, step, key, occupied, n, line, k).Ok?
    ensures Fresh(pf, step, key, occupied, k, RowValues(pf, step, key, occupied, n, line, k).value.values)
    decreases |line| - 8 * k
  {
    hide Field, StrictF64;
    if 8 + 8 * k < |line| {
      if Field(line, 8 + 8 * k, 16 + 8 * k).None? || StrictF64(pf, Field(line, 8 + 8 * k, 16 + 8 * k).value).None? {
        RowValuesFresh(pf, step, key, occupied, n, line, k + 1);
      } else {
        RowValuesFresh(pf, step, key, occupied, n, line, k + 1);
        var rest := RowValues(pf, step, key, occupied, n, line, k + 1).value.values;
        assert RowValues(pf, step, key, occupied, n, line, k).value.values[1..] == rest;
      }
    }
  }

  function RowPositions(key: Option<F64>, values: seq<(nat, F64)>): (r: seq<Position>)
    ensures |r| == |values|
    ensures forall i :: 0 <= i < |r| ==> r[i] == (key, values[i].0)
  {
    seq(|values|, i requires 0 <= i < |values| => (key, values[i].0))
  }

  lemma {:induction false} RowPlaced(pf: Platform, g: ZenithGrid, key: Option<F64>, sec: Section, values: seq<(nat, F64)>)
    requires SectionOk(pf, Some(g), sec) && Fresh(pf, g.step, key, sec.occupied, 0, values)
    ensures SectionOk(pf, Some(g), sec.(samples := sec.samples + Samples(pf, g, key, values),
                                        occupied := sec.occupied + Positions(key, values)))
  {
    hide StandsAt, NoRepeats, Filled, Positions, Samples, RowPositions;
    var at :| Placement(pf, g, sec.samples, at) && Filled(at) == sec.occupied;
    var more, added := RowPositions(key, values), Samples(pf, g, key, values);
    JoinedNoRepeats(at, more, pf, g.step, key, values);
    RowStands(pf, g, key, values);
    PlacementJoined(pf, g, sec.samples, at, added, more);
    FilledJoined(at, more);
    FilledRow(key, values);
  }

  lemma {:induction false} PlacementJoined(pf: Platform, g: ZenithGrid, xs: seq<PcvSample>, at: seq<Position>, ys: seq<PcvSample>, more: seq<Position>)
    requires Placement(pf, g, xs, at) && NoRepeats(at + more) && |ys| == |more|
    requires forall i :: 0 <= i < |ys| ==> StandsAt(pf, g, ys[i], more[i])
    ensures Placement(pf, g, xs + ys, at + more)
  {
    hide StandsAt, NoRepeats;
  }

  lemma {:induction false} JoinedNoRepeats(at: seq<Position>, more: seq<Position>, pf: Platform, step: F64, key: Option<F64>, values: seq<(nat, F64)>)
    requires NoRepeats(at) && Fresh(pf, step, key, Filled(at), 0, values) && more == RowPositions(key, values)
    ensures NoRepeats(at + more)
  {
    assert forall i :: 0 <= i < |at| ==> at[i] in Filled(at);
  }

  lemma {:induction false} RowStands(pf: Platform, g: ZenithGrid, key: Option<F64>, values: seq<(nat, F64)>)
    requires forall i :: 0 <= i < |values| ==> values[i].0 > 0 ==> pf.sign(g.step) == Positive
    ensures forall i :: 0 <= i < |values| ==> StandsAt(pf, g, Samples(pf, g, key, values)[i], RowPositions(key, values)[i])
  {
    hide Samples, RowPositions;
  }

  lemma {:induction false} FilledJoined(at: seq<Position>, more: seq<Position>)
    ensures Filled(at + more) == Filled(at) + Filled(more)
  {
    var all := at + more;
    forall p | p in Filled(at) + Filled(more) ensures p in Filled(all) {
      if p in Filled(at) {
        var i :| 0 <= i < |at| && at[i] == p;
        assert all[i] == p;
      } else {
        var i :| 0 <= i < |more| && more[i] == p;
        assert all[|at| + i] == p;
      }
    }
  }

  lemma {:induction false} FilledRow(key: Option<F64>, values: seq<(nat, F64)>)
    ensures Filled(RowPositions(key, values)) == Positions(key, values)
  {
  }

  lemma {:induction false} AddKeeps(pf: Platform, key: Option<F64>, n: nat, line: string, s: State)
    requires GridInv(pf, s) && AddPcvValues(pf, key, n, line, s).Ok?
    ensures GridInv(pf, AddPcvValues(pf, key, n, line, s).value)
  {
    hide RowValues, Samples, Positions, SectionOk, AntennaOk, RetainedOk;
    if s.current.Some? && s.section.Some? && s.current.value.antenna.grid.Some? {
      var g, sec := s.current.value.antenna.grid.value, s.section.value;
      RowValuesFresh(pf, g.step, key, sec.occupied, n, line, 0);
      RowPlaced(pf, g, key, sec, RowValues(pf, g.step, key, sec.occupied, n, line, 0).value.values);
    }
  }

  lemma {:induction false} RowKeeps(pf: Platform, n: nat, line: string, s: State)
    requires GridInv(pf, s) && ReadRow(pf, n, line, s).Ok?
    ensures GridInv(pf, ReadRow(pf, n, line, s).value)
  {
    hide AddPcvValues, Trim, Tag, TrimmedField, Field, FortranF64, BlockOk, RetainedOk;
    if s.section.Some? {
      if AddPcvValues(pf, None, n, line, s).Ok? {
        AddKeeps(pf, None, n, line, s);
      }
      if FortranF64(pf, line, 0, 8).Some? && AddPcvValues(pf, FortranF64(pf, line, 0, 8), n, line, s).Ok? {
        AddKeeps(pf, FortranF64(pf, line, 0, 8), n, line, s);
      }
    }
  }

  // ----- the zenith record -----

  /** Without a grid there is no sample yet, so any grid may be declared. */
  lemma {:induction false} GridDeclared(pf: Platform, b: Block, section: Option<Section>, g: ZenithGrid, body: string)
    requires BlockOk(pf, b, section) && b.antenna.grid.None?
    ensures BlockOk(pf, b.(records := b.records[Zenith := body], antenna := b.antenna.(grid := Some(g))), section)
  {
    hide StandsAt, NoRepeats;
    if section.Some? {
      assert Placement(pf, g, section.value.samples, []) by { assert NoRepeats([]) by { EmptyNoRepeats(); } }
      assert Filled([]) == {};
    }
  }

  lemma EmptyNoRepeats()
    ensures NoRepeats([])
  {
  }

  lemma {:induction false} ZenithKeeps(pf: Platform, n: nat, line: string, s: State)
    requires GridInv(pf, s) && ReadZenith(pf, n, line, s).Ok?
    ensures GridInv(pf, ReadZenith(pf, n, line, s).value)
  {
    hide BlockOk, RetainedOk, ZenithField, Body;
    if s.current.Some? {
      var b := s.current.value;
      GridUnclaimed(pf, b, s.section);
      var r := ReadZenith(pf, n, line, s).value.current.value;
      if Zenith !in b.records {
        GridDeclared(pf, b, s.section, r.antenna.grid.value, Body(line));
      }
    }
  }

  lemma GridUnclaimed(pf: Platform, b: Block, section: Option<Section>)
    requires BlockOk(pf, b, section)
    ensures Zenith !in b.records ==> b.antenna.grid.None?
  {
  }

  // ----- records that leave grid and samples alone -----

  /** Only other fields of the block changed, and claims only grew. */
  ghost predicate Untouched(s: State, s': State) {
    && s'.intervals == s.intervals
    && s'.section == s.section
    && (s'.current.Some? <==> s.current.Some?)
    && (s.current.Some? ==>
          && s'.current.value.antenna.grid == s.current.value.antenna.grid
          && s'.current.value.antenna.frequencies == s.current.value.antenna.frequencies
          && (Zenith in s.current.value.records ==> Zenith in s'.current.value.records))
  }

  lemma {:induction false} UntouchedKeeps(pf: Platform, s: State, s': State)
    requires GridInv(pf, s) && Untouched(s, s')
    ensures GridInv(pf, s')
  {
    hide FrequencyOk, SectionOk, RetainedOk;
  }

  lemma {:induction false} HeaderUntouched(pf: Platform, n: nat, line: string, s: State)
    ensures ReadVersion(pf, n, line, s).Ok? ==> Untouched(s, ReadVersion(pf, n, line, s).value)
    ensures ReadPcvType(n, line, s).Ok? ==> Untouched(s, ReadPcvType(n, line, s).value)
    ensures Untouched(s, ReadEndOfHeader(n, s))
  {
    hide ReadVersion, ReadPcvType;
    VersionUntouched(pf, n, line, s);
    PcvTypeUntouched(n, line, s);
  }

  lemma {:induction false} VersionUntouched(pf: Platform, n: nat, line: string, s: State)
    ensures ReadVersion(pf, n, line, s).Ok? ==> Untouched(s, ReadVersion(pf, n, line, s).value)
  {
    hide Body, FortranF64, RawField, TrimmedField;
  }

  lemma {:induction false} PcvTypeUntouched(n: nat, line: string, s: State)
    ensures ReadPcvType(n, line, s).Ok? ==> Untouched(s, ReadPcvType(n, line, s).value)
  {
    hide Body, RawField, TrimmedField, Trim;
  }

  lemma {:induction false} CommentUntouched(line: string, s: State)
    ensures Untouched(s, ReadComment(line, s))
  {
    hide Body;
  }

  lemma {:induction false} DaziUntouched(pf: Platform, n: nat, line: string, s: State)
    ensures ReadDazi(pf, n, line, s).Ok? ==> Untouched(s, ReadDazi(pf, n, line, s).value)
  {
    hide FortranF64, RawField, TrimmedField, Body;
  }

  lemma {:induction false} CalibrationUntouched(n: nat, line: string, s: State)
    ensures Untouched(s, ReadCalibration(n, line, s))
  {
    hide RawField, TrimEnd, Field, StrictUnsigned;
  }

  lemma {:induction false} CountUntouched(n: nat, line: string, s: State)
    ensures ReadFrequencyCount(n, line, s).Ok? ==> Untouched(s, ReadFrequencyCount(n, line, s).value)
  {
    hide RawField, TrimmedField, Body, StrictUnsigned;
  }

  lemma {:induction false} SinexUntouched(n: nat, line: string, s: State)
    ensures ReadSinex(n, line, s).Ok? ==> Untouched(s, ReadSinex(n, line, s).value)
  {
    hide RawField, TrimmedField, Body, StrictUnsigned;
  }

  lemma {:induction false} ValidUntouched(n: nat, line: string, s: State, record: Label)
    requires record == ValidFrom || record == ValidUntil
    ensures ReadValid(n, line, s, record).Ok? ==> Untouched(s, ReadValid(n, line, s, record).value)
  {
    hide ReadDate, Body;
  }

  lemma {:induction false} PcoKeeps(pf: Platform, n: nat, line: string, s: State)
    requires GridInv(pf, s) && ReadPco(pf, n, line, s).Ok?
    ensures GridInv(pf, ReadPco(pf, n, line, s).value)
  {
    hide PcoComponent, Body, AntennaOk, RetainedOk, Placement, Filled;
  }

  lemma IdentifyKeeps(a: Antenna, line: string)
    ensures Identify(a, line).grid == a.grid && Identify(a, line).frequencies == a.frequencies
  {
    hide TrimmedField, IsSatelliteSerial;
  }

  lemma {:induction false} TypeSerialKeeps(pf: Platform, n: nat, line: string, s: State)
    requires GridInv(pf, s) && ReadTypeSerial(n, line, s).Ok?
    ensures GridInv(pf, ReadTypeSerial(n, line, s).value)
  {
    hide Body, FrequencyOk, SectionOk, RetainedOk, Identify;
    if s.current.Some? {
      IdentifyKeeps(s.current.value.antenna, line);
    }
    IdentifyKeeps(BLANK_ANTENNA, line);
  }

  // ----- sections and blocks -----

  lemma {:induction false} SectionOnGrid(pf: Platform, grid: Option<ZenithGrid>, sec: Section)
    requires SectionOk(pf, grid, sec)
    ensures OnGrid(pf, grid, sec.samples)
  {
    hide Placement;
  }

  lemma {:induction false} FinalizeSectionKeeps(pf: Platform, n: nat, s: State)
    requires GridInv(pf, s) && FinalizeSection(n, s).Ok?
    ensures GridInv(pf, FinalizeSection(n, s).value) && FinalizeSection(n, s).value.section.None?
    ensures FinalizeSection(n, s).value.current.Some? <==> s.current.Some?
  {
    hide OnGrid, SectionOk, RetainedOk, RmsTarget, AntennaOk;
    if s.section.Some? {
      var a, sec := s.current.value.antenna, s.section.value;
      SectionOnGrid(pf, a.grid, sec);
      if sec.kind == Values {
        FrequencyAdded(pf, a, Frequency(sec.freq, sec.pco.value, sec.samples, None));
      } else if RmsTarget(a.frequencies, sec.freq).Some? {
        RmsAdded(pf, a, RmsTarget(a.frequencies, sec.freq).value, FrequencyRms(sec.pco, sec.samples));
      }
    }
  }

  lemma {:induction false} FrequencyAdded(pf: Platform, a: Antenna, f: Frequency)
    requires AntennaOk(pf, a) && OnGrid(pf, a.grid, f.samples) && f.rms.None?
    ensures AntennaOk(pf, a.(frequencies := a.frequencies + [f]))
  {
    hide OnGrid;
  }

  lemma {:induction false} RmsAdded(pf: Platform, a: Antenna, i: nat, rms: FrequencyRms)
    requires AntennaOk(pf, a) && i < |a.frequencies| && OnGrid(pf, a.grid, rms.samples)
    ensures AntennaOk(pf, a.(frequencies := a.frequencies[i := a.frequencies[i].(rms := Some(rms))]))
  {
    hide OnGrid;
  }

  lemma {:induction false} CloseSectionKeeps(pf: Platform, n: nat, s: State)
    requires GridInv(pf, s) && CloseOpenSection(n, s).Ok?
    ensures GridInv(pf, CloseOpenSection(n, s).value) && CloseOpenSection(n, s).value.section.None?
    ensures CloseOpenSection(n, s).value.current.Some? <==> s.current.Some?
  {
    hide FinalizeSection, BlockOk, RetainedOk;
    if s.section.Some? {
      FinalizeSectionKeeps(pf, n, SkipInconsistent(s, n, SectionNotClosed));
    }
  }

  lemma {:induction false} BeginKeeps(pf: Platform, n: nat, line: string, s: State, kind: SectionKind)
    requires GridInv(pf, s) && BeginSection(n, line, s, kind).Ok?
    ensures GridInv(pf, BeginSection(n, line, s, kind).value)
  {
    hide TrimmedField, CloseOpenSection, AntennaOk, RetainedOk, SectionOk;
    if s.current.Some? {
      CloseSectionKeeps(pf, n, s);
      var s1 := CloseOpenSection(n, s).value;
      EmptySection(pf, s1.current.value.antenna.grid, Section(kind, TrimmedField(line, 0, 20), None, None, [], {}));
    }
  }

  lemma {:induction false} EmptySection(pf: Platform, grid: Option<ZenithGrid>, sec: Section)
    requires sec.samples == [] && sec.occupied == {}
    ensures SectionOk(pf, grid, sec)
  {
    hide StandsAt, NoRepeats;
    EmptyNoRepeats();
    if grid.Some? {
      assert Placement(pf, grid.value, [], []);
      assert Filled([]) == {};
    }
  }

  lemma {:induction false} EndKeeps(pf: Platform, n: nat, line: string, s: State, kind: SectionKind)
    requires GridInv(pf, s) && EndSection(n, line, s, kind).Ok?
    ensures GridInv(pf, EndSection(n, line, s, kind).value)
  {
    hide TrimmedField, FinalizeSection, BlockOk, RetainedOk;
    if s.section.Some? {
      var sec := s.section.value;
      var s1 := if sec.kind != kind then SkipInconsistent(s, n, WrongEndRecord) else s;
      var name := TrimmedField(line, 0, 20);
      var s2 := if name != "" && name != sec.freq then SkipInconsistent(s1, n, EndLabelDiffers) else s1;
      FinalizeSectionKeeps(pf, n, s2);
    }
  }

  lemma {:induction false} FinalizeKeeps(pf: Platform, n: nat, s: State)
    requires GridInv(pf, s) && FinalizeAntenna(n, s).Ok?
    ensures GridInv(pf, FinalizeAntenna(n, s).value)
    ensures FinalizeAntenna(n, s).value.current.None? && FinalizeAntenna(n, s).value.section.None?
  {
    hide CloseOpenSection, AntennaOk, SectionOk;
    CloseSectionKeeps(pf, n, s);
  }

  lemma {:induction false} CloseKeeps(pf: Platform, n: nat, s: State)
    requires GridInv(pf, s) && CloseOpenBlock(n, s).Ok?
    ensures GridInv(pf, CloseOpenBlock(n, s).value)
    ensures CloseOpenBlock(n, s).value.current.None? && CloseOpenBlock(n, s).value.section.None?
  {
    hide FinalizeAntenna, BlockOk, RetainedOk;
    if s.current.Some? {
      FinalizeKeeps(pf, n, SkipInconsistent(s, n, BlockNotClosed));
    }
  }

  lemma {:induction false} OpenKeeps(pf: Platform, n: nat, s: State)
    requires GridInv(pf, s) && OpenBlock(n, s).Ok?
    ensures GridInv(pf, OpenBlock(n, s).value)
  {
    hide CloseOpenBlock, FrequencyOk, SectionOk, RetainedOk;
    CloseKeeps(pf, n, s);
  }

  // ----- runs -----

  lemma {:induction false} HandleKeeps(pf: Platform, l: Label, n: nat, line: string, s: State)
    requires GridInv(pf, s) && Handle(pf, l, n, line, s).Ok?
    ensures GridInv(pf, Handle(pf, l, n, line, s).value)
  {
    hide GridInv, Untouched, OpenBlock, FinalizeAntenna, ReadTypeSerial, ReadCalibration, ReadDazi, ReadZenith, ReadFrequencyCount,
         ReadSinex, ReadValid, ReadComment, ReadVersion, ReadPcvType, ReadEndOfHeader, BeginSection, EndSection, ReadPco, ReadRow;
    var s' := Handle(pf, l, n, line, s).value;
    match l
    case StartOfAntenna => OpenKeeps(pf, n, s);
    case EndOfAntenna => if s.current.Some? { FinalizeKeeps(pf, n, s); }
    case TypeSerial => TypeSerialKeeps(pf, n, line, s);
    case Zenith => ZenithKeeps(pf, n, line, s);
    case StartOfFrequency => BeginKeeps(pf, n, line, s, Values);
    case StartOfRms => BeginKeeps(pf, n, line, s, Rms);
    case EndOfFrequency => EndKeeps(pf, n, line, s, Values);
    case EndOfRms => EndKeeps(pf, n, line, s, Rms);
    case NorthEastUp => PcoKeeps(pf, n, line, s);
    case GridRow => RowKeeps(pf, n, line, s);
    case Meth => CalibrationUntouched(n, line, s); UntouchedKeeps(pf, s, s');
    case Comment => CommentUntouched(line, s); UntouchedKeeps(pf, s, s');
    case Dazi => DaziUntouched(pf, n, line, s); UntouchedKeeps(pf, s, s');
    case FrequencyCount => CountUntouched(n, line, s); UntouchedKeeps(pf, s, s');
    case Sinex => SinexUntouched(n, line, s); UntouchedKeeps(pf, s, s');
    case ValidFrom => ValidUntouched(n, line, s, ValidFrom); UntouchedKeeps(pf, s, s');
    case ValidUntil => ValidUntouched(n, line, s, ValidUntil); UntouchedKeeps(pf, s, s');
    case Version => HeaderUntouched(pf, n, line, s); UntouchedKeeps(pf, s, s');
    case PcvTypeRefant => HeaderUntouched(pf, n, line, s); UntouchedKeeps(pf, s, s');
    case EndOfHeader => HeaderUntouched(pf, n, line, s); UntouchedKeeps(pf, s, s');
  }

  lemma {:induction false} RunKeeps(pf: Platform, n: nat, lines: seq<string>, s: State)
    requires GridInv(pf, s) && Run(pf, n, lines, s).Ok?
    ensures GridInv(pf, Run(pf, n, lines, s).value)
    decreases |lines|
  {
    hide GridInv, Handle, LabelOf, Tag;
    if lines != [] {
      HandleKeeps(pf, LabelOf(Tag(lines[0])), n + 1, lines[0], s);
      RunKeeps(pf, n + 1, lines[1..], Step(pf, n + 1, lines[0], s).value);
    }
  }

  /** In every product a parse returns, the samples of every section of every block
      stand at distinct positions `ZEN1 + k * DZEN` of the block's one grid. */
  lemma {:induction false} ParsedOnGrid(pf: Platform, text: string)
    requires Parse(pf, text).Ok?
    ensures RetainedOk(pf, Parse(pf, text).value.intervals)
  {
    hide Run, Lines, CloseOpenBlock, BlockOk, AntennaOk;
    var lines := Lines(text);
    RunKeeps(pf, 0, lines, INITIAL);
    CloseKeeps(pf, |lines|, Run(pf, 0, lines, INITIAL).value);
  }
}
