/** Once declared, a block's zenith grid cannot change while the block is open. */
module AntexGridFixed {
  import opened Text
  import opened AntexTypes
  import opened AntexReader
  import opened AntexGrid

  /** The block stays open with the same grid, and keeps its claim on the record. */
  ghost predicate GridKept(s: State, s': State) {
    && s.current.Some? && s'.current.Some?
    && s'.current.value.antenna.grid == s.current.value.antenna.grid
    && (Zenith in s.current.value.records ==> Zenith in s'.current.value.records)
  }

  ghost predicate Fixed(s: State) {
    s.current.Some? && s.current.value.antenna.grid.Some? && Zenith in s.current.value.records
  }

  lemma KeptAsItIs(s: State)
    requires Fixed(s)
    ensures GridKept(s, s)
  {
  }

  lemma UntouchedGrid(s: State, s': State)
    requires Fixed(s) && Untouched(s, s')
    ensures GridKept(s, s')
  {
  }

  lemma {:induction false} IdentityFixed(n: nat, line: string, s: State)
    requires Fixed(s) && ReadTypeSerial(n, line, s).Ok?
    ensures GridKept(s, ReadTypeSerial(n, line, s).value)
  {
    hide Body, Identify;
    IdentifyKeeps(s.current.value.antenna, line);
  }

  /** A second grid record is an identical repeat or a refusal. */
  lemma {:induction false} ZenithFixed(pf: Platform, n: nat, line: string, s: State)
    requires Fixed(s) && ReadZenith(pf, n, line, s).Ok?
    ensures ReadZenith(pf, n, line, s).value == s
  {
    hide Body, ZenithField;
  }

  lemma {:induction false} FinalizeFixed(n: nat, s: State)
    requires Fixed(s) && FinalizeSection(n, s).Ok?
    ensures GridKept(s, FinalizeSection(n, s).value)
  {
    hide RmsTarget;
  }

  lemma {:induction false} SectionsFixed(n: nat, line: string, s: State, kind: SectionKind)
    requires Fixed(s)
    ensures BeginSection(n, line, s, kind).Ok? ==> GridKept(s, BeginSection(n, line, s, kind).value)
    ensures EndSection(n, line, s, kind).Ok? ==> GridKept(s, EndSection(n, line, s, kind).value)
  {
    hide FinalizeSection, TrimmedField;
    var skipped := SkipInconsistent(s, n, SectionNotClosed);
    if FinalizeSection(n, skipped).Ok? {
      FinalizeFixed(n, skipped);
    }
    if s.section.Some? {
      var freq, sec := TrimmedField(line, 0, 20), s.section.value;
      var s1 := if sec.kind != kind then SkipInconsistent(s, n, WrongEndRecord) else s;
      var s2 := if freq != "" && freq != sec.freq then SkipInconsistent(s1, n, EndLabelDiffers) else s1;
      if FinalizeSection(n, s2).Ok? {
        FinalizeFixed(n, s2);
      }
    }
  }

  lemma {:induction false} PcoFixed(pf: Platform, n: nat, line: string, s: State)
    requires Fixed(s) && ReadPco(pf, n, line, s).Ok?
    ensures GridKept(s, ReadPco(pf, n, line, s).value)
  {
    hide Body, PcoComponent;
  }

  lemma {:induction false} RowFixed(pf: Platform, n: nat, line: string, s: State)
    requires Fixed(s) && ReadRow(pf, n, line, s).Ok?
    ensures GridKept(s, ReadRow(pf, n, line, s).value)
  {
    hide Trim, Tag, Field, TrimmedField, FortranF64, RowValues, Samples, Positions;
  }

  /** A line that neither opens nor closes a block leaves the declared grid alone. */
  lemma {:induction false} StepFixed(pf: Platform, n: nat, line: string, s: State)
    requires Fixed(s) && Step(pf, n, line, s).Ok? && LabelOf(Tag(line)) !in {StartOfAntenna, EndOfAntenna}
    ensures GridKept(s, Step(pf, n, line, s).value)
  {
    hide LabelOf, Tag, ReadTypeSerial, ReadCalibration, ReadDazi, ReadZenith, ReadFrequencyCount, ReadSinex, ReadValid;
    hide ReadComment, ReadVersion, ReadPcvType, ReadEndOfHeader, BeginSection, EndSection, ReadPco, ReadRow, OpenBlock, EndBlock;
    hide Fixed, GridKept, Untouched;
    var s' := Step(pf, n, line, s).value;
    match LabelOf(Tag(line)) {
      case TypeSerial => IdentityFixed(n, line, s);
      case Meth => CalibrationUntouched(n, line, s); UntouchedGrid(s, s');
      case Dazi => DaziUntouched(pf, n, line, s); UntouchedGrid(s, s');
      case Zenith => ZenithFixed(pf, n, line, s); KeptAsItIs(s);
      case FrequencyCount => CountUntouched(n, line, s); UntouchedGrid(s, s');
      case Sinex => SinexUntouched(n, line, s); UntouchedGrid(s, s');
      case ValidFrom => ValidUntouched(n, line, s, ValidFrom); UntouchedGrid(s, s');
      case ValidUntil => ValidUntouched(n, line, s, ValidUntil); UntouchedGrid(s, s');
      case Comment => CommentUntouched(line, s); UntouchedGrid(s, s');
      case Version => HeaderUntouched(pf, n, line, s); UntouchedGrid(s, s');
      case PcvTypeRefant => HeaderUntouched(pf, n, line, s); UntouchedGrid(s, s');
      case EndOfHeader => HeaderUntouched(pf, n, line, s); UntouchedGrid(s, s');
      case StartOfFrequency => SectionsFixed(n, line, s, Values);
      case StartOfRms => SectionsFixed(n, line, s, Rms);
      case EndOfFrequency => SectionsFixed(n, line, s, Values);
      case EndOfRms => SectionsFixed(n, line, s, Rms);
      case NorthEastUp => PcoFixed(pf, n, line, s);
      case GridRow => RowFixed(pf, n, line, s);
    }
  }

  /** Over any lines of one block, the grid is the one first declared. */
  lemma {:induction false} RunFixed(pf: Platform, n: nat, lines: seq<string>, s: State)
    requires Fixed(s) && Run(pf, n, lines, s).Ok?
    requires forall i :: 0 <= i < |lines| ==> LabelOf(Tag(lines[i])) !in {StartOfAntenna, EndOfAntenna}
    ensures GridKept(s, Run(pf, n, lines, s).value)
    decreases |lines|
  {
    hide Step, LabelOf, Tag;
    if lines != [] {
      StepFixed(pf, n + 1, lines[0], s);
      RunFixed(pf, n + 1, lines[1..], Step(pf, n + 1, lines[0], s).value);
    }
  }

  /** The open block holds a sample, in its open section or in one already closed. */
  ghost predicate HoldsSample(s: State) {
    || (s.section.Some? && s.section.value.samples != [])
    || (s.current.Some? && AnyHolds(s.current.value.antenna.frequencies))
  }

  ghost predicate AnyHolds(fs: seq<Frequency>) { exists i :: 0 <= i < |fs| && FrequencyHolds(fs[i]) }

  ghost predicate FrequencyHolds(f: Frequency) {
    f.samples != [] || (f.rms.Some? && f.rms.value.samples != [])
  }

  lemma {:induction false} SampleFixesGrid(pf: Platform, s: State)
    requires GridInv(pf, s) && HoldsSample(s)
    ensures Fixed(s)
  {
    hide Placement, RetainedOk;
    if !(s.section.Some? && s.section.value.samples != []) {
      var fs := s.current.value.antenna.frequencies;
      var i :| 0 <= i < |fs| && FrequencyHolds(fs[i]);
      assert FrequencyOk(pf, s.current.value.antenna.grid, fs[i]);
    }
  }

  /** In every run, once the open block holds any sample its grid is declared and
      claimed. */
  lemma {:induction false} RowsFixGrid(pf: Platform, n: nat, lines: seq<string>)
    requires Run(pf, n, lines, INITIAL).Ok?
    ensures var s := Run(pf, n, lines, INITIAL).value; HoldsSample(s) ==> Fixed(s)
  {
    assert GridInv(pf, INITIAL);
    hide Run, GridInv, HoldsSample, Fixed;
    RunKeeps(pf, n, lines, INITIAL);
    var s := Run(pf, n, lines, INITIAL).value;
    if HoldsSample(s) {
      SampleFixesGrid(pf, s);
    }
  }

  /** So from any such state on, no line of the block changes the grid. */
  lemma {:induction false} GridNeverChanges(pf: Platform, before: seq<string>, lines: seq<string>)
    requires Run(pf, 0, before, INITIAL).Ok? && HoldsSample(Run(pf, 0, before, INITIAL).value)
    requires Run(pf, |before|, lines, Run(pf, 0, before, INITIAL).value).Ok?
    requires forall i :: 0 <= i < |lines| ==> LabelOf(Tag(lines[i])) !in {StartOfAntenna, EndOfAntenna}
    ensures var s := Run(pf, 0, before, INITIAL).value; GridKept(s, Run(pf, |before|, lines, s).value)
  {
    hide Run, HoldsSample, Fixed, GridKept, LabelOf, Tag;
    RowsFixGrid(pf, 0, before);
    RunFixed(pf, |before|, lines, Run(pf, 0, before, INITIAL).value);
  }
}
