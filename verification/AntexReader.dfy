/** `Antex::parse`: every line of the text is one step of the reader's state. */
module AntexReader {
  import opened Text
  import opened Decimal
  import opened SecondsField
  import opened AntexTypes

  const LABEL_COLUMN := 60

  // ----- fields -----

  function ReplaceD(s: string): string {
    seq(|s|, i requires 0 <= i < |s| => if s[i] == 'D' || s[i] == 'd' then 'e' else s[i])
  }

  /** `strict_f64`: Fortran exponents accepted, non-finite values refused. */
  function StrictF64(pf: Platform, s: string): Option<F64> {
    var value := Trim(s);
    if value == "" then None
    else
      match pf.parse(ReplaceD(value))
      case None => None
      case Some(v) => if pf.finite(v) then Some(v) else None
  }

  function FortranF64(pf: Platform, line: string, start: nat, end: nat): Option<F64> {
    match Field(line, start, end)
    case None => None
    case Some(s) => StrictF64(pf, s)
  }

  /** `strict_int` for an unsigned type. */
  function StrictUnsigned(s: string, max: nat): Option<nat> {
    var value := Trim(s);
    if value == "" then None else ParseUnsigned(value, max)
  }

  function Tag(line: string): string { Trim(RawField(line, 60, 80)) }

  function Body(line: string): string { TrimEnd(RawField(line, 0, LABEL_COLUMN)) }

  function TrimmedField(line: string, start: nat, end: nat): string { Trim(RawField(line, start, end)) }

  // ----- shared steps -----

  function PushSkip(s: State, n: nat, reason: SkipReason): State {
    s.(skips := s.skips + [Skip(n, reason)])
  }

  function SkipInconsistent(s: State, n: nat, what: Inconsistency): State {
    PushSkip(s, n, Inconsistent(what))
  }

  datatype Claim = First(records: map<Label, string>) | Repeat

  /** `claim_once`: an identical repeat says nothing new, a different one is refused. */
  function ClaimOnce(records: map<Label, string>, record: Label, line: string, id: Option<string>): Result<Claim, Error> {
    if record !in records then Ok(First(records[record := Body(line)]))
    else if records[record] == Body(line) then Ok(Repeat)
    else Err(RepeatedRecord(id, record))
  }

  // ----- header records -----

  function MisplacedIfLate(s: State, n: nat): State {
    if s.blockSeen || s.header.endOfHeader then SkipInconsistent(s, n, MisplacedHeader) else s
  }

  function ReadVersion(pf: Platform, n: nat, line: string, s: State): Result<State, Error> {
    var claim :- ClaimOnce(s.headerRecords, Version, line, None);
    if claim.Repeat? then Ok(s)
    else
      match FortranF64(pf, line, 0, 8)
      case None => Err(InvalidField(None, Version, VersionNumber, TrimmedField(line, 0, 8)))
      case Some(v) =>
        var flag := RawField(line, 20, 21);
        var system := if flag == "" || flag[0] == ' ' then None else Some(flag[0]);
        var s' := MisplacedIfLate(s, n);
        Ok(s'.(headerRecords := claim.records,
               header := s'.header.(version := Some(AntexVersion(v, system)))))
  }

  function ReadPcvType(n: nat, line: string, s: State): Result<State, Error> {
    var claim :- ClaimOnce(s.headerRecords, PcvTypeRefant, line, None);
    if claim.Repeat? then Ok(s)
    else
      var flag := RawField(line, 0, 1);
      if flag != "A" && flag != "R" then Err(InvalidField(None, PcvTypeRefant, PcvTypeFlag, Trim(flag)))
      else
        var record := PcvTypeRecord(
          if flag == "A" then Absolute else Relative, TrimmedField(line, 20, 40), TrimmedField(line, 40, 60));
        var s' := MisplacedIfLate(s, n);
        Ok(s'.(headerRecords := claim.records, header := s'.header.(pcvType := Some(record))))
  }

  function ReadEndOfHeader(n: nat, s: State): State {
    var s' := if s.blockSeen then SkipInconsistent(s, n, MisplacedHeader) else s;
    s'.(header := s'.header.(endOfHeader := true))
  }

  /** A comment belongs to the header, the open block, or the place between blocks. */
  function ReadComment(line: string, s: State): State {
    var text := Body(line);
    match s.current
    case Some(b) =>
      if !b.identified then
        s.(current := Some(b.(antenna := b.antenna.(leadingComments := b.antenna.leadingComments + [text]))))
      else
        s.(current := Some(b.(antenna := b.antenna.(comments := b.antenna.comments + [text]))))
    case None =>
      if !s.blockSeen && !s.header.endOfHeader then
        s.(header := s.header.(comments := s.header.comments + [text]))
      else
        s.(outerComments := s.outerComments + [OuterComment(|s.blockOrder|, text)])
  }

  // ----- antenna blocks -----

  /** Index of the last frequency with that label and no RMS section yet. */
  function RmsTarget(fs: seq<Frequency>, freq: string): (r: Option<nat>)
    ensures r.Some? ==> r.value < |fs| && fs[r.value].freq == freq && fs[r.value].rms.None?
    ensures r.None? ==> forall i :: 0 <= i < |fs| ==> !(fs[i].freq == freq && fs[i].rms.None?)
    ensures r.Some? ==> forall i :: r.value < i < |fs| ==> !(fs[i].freq == freq && fs[i].rms.None?)
  {
    if fs == [] then None
    else if fs[|fs| - 1].freq == freq && fs[|fs| - 1].rms.None? then Some(|fs| - 1)
    else RmsTarget(fs[..|fs| - 1], freq)
  }

  function FinalizeSection(n: nat, s: State): Result<State, Error> {
    match (s.section, s.current)
    case (Some(sec), Some(b)) =>
      var fs := b.antenna.frequencies;
      (match sec.kind
       case Values =>
         (match sec.pco
          case None => Err(MissingPco(b.antenna.id, sec.freq))
          case Some(pco) =>
            var fs' := fs + [Frequency(sec.freq, pco, sec.samples, None)];
            Ok(s.(section := None, current := Some(b.(antenna := b.antenna.(frequencies := fs'))))))
       case Rms =>
         (match RmsTarget(fs, sec.freq)
          case None => Ok(SkipInconsistent(s.(section := None), n, RmsWithoutFrequency))
          case Some(i) =>
            var fs' := fs[i := fs[i].(rms := Some(FrequencyRms(sec.pco, sec.samples)))];
            Ok(s.(section := None, current := Some(b.(antenna := b.antenna.(frequencies := fs')))))))
    case _ => Ok(s.(section := None))
  }

  function CloseOpenSection(n: nat, s: State): Result<State, Error> {
    if s.section.None? then Ok(s) else FinalizeSection(n, SkipInconsistent(s, n, SectionNotClosed))
  }

  /** Keep a completed block in all three views. */
  function Retain(s: State, a: Antenna): State {
    var before := if a.id in s.intervals then s.intervals[a.id] else [];
    s.(blockOrder := s.blockOrder + [(a.id, |before|)],
       intervals := s.intervals[a.id := before + [a]],
       antennas := s.antennas[a.id := a])
  }

  function FinalizeAntenna(n: nat, s: State): Result<State, Error> {
    var s1 :- CloseOpenSection(n, s);
    match s1.current
    case None => Ok(s1)
    case Some(b) =>
      var s2 := s1.(current := None);
      if !b.identified then Ok(SkipInconsistent(s2, n, BlockWithoutType))
      else
        var s3 :=
          if b.declared.Some? && b.declared.value != |b.antenna.frequencies|
          then SkipInconsistent(s2, n, CountDiffers) else s2;
        Ok(Retain(s3, b.antenna))
  }

  function CloseOpenBlock(n: nat, s: State): Result<State, Error> {
    if s.current.None? then Ok(s) else FinalizeAntenna(n, SkipInconsistent(s, n, BlockNotClosed))
  }

  function OpenBlock(n: nat, s: State): Result<State, Error> {
    var s' :- CloseOpenBlock(n, s);
    Ok(s'.(blockSeen := true, current := Some(BLANK_BLOCK)))
  }

  function EndBlock(n: nat, s: State): Result<State, Error> {
    if s.current.None? then Ok(s) else FinalizeAntenna(n, s)
  }

  predicate IsSatelliteSerial(serial: string) {
    |serial| == 3 && 'A' <= serial[0] <= 'Z' && IsDigit(serial[1]) && IsDigit(serial[2])
  }

  function Identify(a: Antenna, line: string): Antenna {
    var serial := TrimmedField(line, 20, 40);
    a.(id := TrimmedField(line, 0, 60),
       antennaType := TrimmedField(line, 0, 20),
       serial := serial,
       kind := if IsSatelliteSerial(serial) then Satellite else Receiver)
  }

  function ReadTypeSerial(n: nat, line: string, s: State): Result<State, Error> {
    var s' := if s.current.None? then
                SkipInconsistent(s, n, OutsideAntenna).(blockSeen := true, current := Some(BLANK_BLOCK))
              else s;
    var b := s'.current.value;
    var claim :- ClaimOnce(b.records, TypeSerial, line, if b.identified then Some(b.antenna.id) else None);
    var records := if claim.First? then claim.records else b.records;
    if b.identified then Ok(s'.(current := Some(b.(records := records))))
    else Ok(s'.(current := Some(b.(antenna := Identify(b.antenna, line), identified := true, records := records))))
  }

  function ReadCalibration(n: nat, line: string, s: State): State {
    match s.current
    case None => SkipInconsistent(s, n, OutsideAntenna)
    case Some(b) =>
      var text := Field(line, 40, 46);
      var count := if text.None? then None else StrictUnsigned(text.value, U32_MAX);
      var s' := if text.Some? && count.None? then PushSkip(s, n, MalformedField(text.value)) else s;
      var c := Calibration(
        TrimEnd(RawField(line, 0, 20)), TrimEnd(RawField(line, 20, 40)), count, TrimEnd(RawField(line, 50, 60)));
      s'.(current := Some(b.(antenna := b.antenna.(calibrations := b.antenna.calibrations + [c]))))
  }

  function ReadDazi(pf: Platform, n: nat, line: string, s: State): Result<State, Error> {
    match s.current
    case None => Ok(SkipInconsistent(s, n, OutsideAntenna))
    case Some(b) =>
      var claim :- ClaimOnce(b.records, Dazi, line, Some(b.antenna.id));
      if claim.Repeat? then Ok(s)
      else
        var start := if RawField(line, 0, 2) == "  " then 2 else 0;
        (match FortranF64(pf, line, start, 8)
         case None => Err(InvalidField(Some(b.antenna.id), Dazi, DaziAngle, TrimmedField(line, start, 8)))
         case Some(v) => Ok(s.(current := Some(b.(records := claim.records, antenna := b.antenna.(dazi := Some(v)))))))
  }

  function ZenithField(pf: Platform, line: string, b: Block, start: nat, name: FieldName): Result<F64, Error> {
    match FortranF64(pf, line, start, start + 6)
    case None => Err(InvalidField(Some(b.antenna.id), Zenith, name, TrimmedField(line, start, start + 6)))
    case Some(v) => Ok(v)
  }

  function ReadZenith(pf: Platform, n: nat, line: string, s: State): Result<State, Error> {
    match s.current
    case None => Ok(SkipInconsistent(s, n, OutsideAntenna))
    case Some(b) =>
      var claim :- ClaimOnce(b.records, Zenith, line, Some(b.antenna.id));
      if claim.Repeat? then Ok(s)
      else
        var start :- ZenithField(pf, line, b, 2, Zen1);
        var end :- ZenithField(pf, line, b, 8, Zen2);
        var step :- ZenithField(pf, line, b, 14, Dzen);
        Ok(s.(current := Some(b.(records := claim.records,
                                 antenna := b.antenna.(grid := Some(ZenithGrid(start, end, step)))))))
  }

  function ReadFrequencyCount(n: nat, line: string, s: State): Result<State, Error> {
    match s.current
    case None => Ok(SkipInconsistent(s, n, OutsideAntenna))
    case Some(b) =>
      var claim :- ClaimOnce(b.records, FrequencyCount, line, Some(b.antenna.id));
      if claim.Repeat? then Ok(s)
      else
        var b' := b.(records := claim.records, antenna := b.antenna.(hasFrequencyCount := true));
        (match StrictUnsigned(RawField(line, 0, 6), U64_MAX)
         case Some(count) => Ok(s.(current := Some(b'.(declared := Some(count)))))
         case None => Ok(PushSkip(s.(current := Some(b')), n, MalformedField(TrimmedField(line, 0, 6)))))
  }

  function ReadSinex(n: nat, line: string, s: State): Result<State, Error> {
    match s.current
    case None => Ok(SkipInconsistent(s, n, OutsideAntenna))
    case Some(b) =>
      var claim :- ClaimOnce(b.records, Sinex, line, Some(b.antenna.id));
      if claim.Repeat? then Ok(s)
      else
        var code := TrimmedField(line, 0, LABEL_COLUMN);
        var a := if code == "" then b.antenna else b.antenna.(sinex := Some(code));
        Ok(s.(current := Some(b.(records := claim.records, antenna := a))))
  }

  // ----- validity bounds -----

  predicate IsLeapYear(year: int) { year % 4 == 0 && (year % 100 != 0 || year % 400 == 0) }

  function DaysInMonth(year: int, month: int): int {
    if month in {1, 3, 5, 7, 8, 10, 12} then 31
    else if month in {4, 6, 9, 11} then 30
    else if month == 2 then (if IsLeapYear(year) then 29 else 28)
    else 0
  }

  const DATETIME_FIELDS := [Year, Month, Day, Hour, Minute, Second]

  /** `check_gps_civil`: index of the first component out of range. */
  function CivilFault(year: int, month: int, day: int, hour: int, minute: int, second: int): (r: Option<nat>)
    ensures r.Some? ==> r.value < 6
    ensures r.None? ==> 0 <= year <= 9999 && 1 <= month <= 12 && 1 <= day <= 31
    ensures r.None? ==> 0 <= hour <= 23 && 0 <= minute <= 59 && 0 <= second <= 59
  {
    if !(0 <= year <= 9999) then Some(0)
    else if !(1 <= month <= 12) then Some(1)
    else if !(1 <= day <= DaysInMonth(year, month)) then Some(2)
    else if !(0 <= hour <= 23) then Some(3)
    else if !(0 <= minute <= 59) then Some(4)
    else if !(0 <= second <= 59) then Some(5)
    else None
  }

  function DateText(line: string, i: nat): string {
    if i < 5 then TrimmedField(line, 6 * i, 6 * i + 6) else TrimmedField(line, 30, 43)
  }

  function DateFault(line: string, record: Label, id: string, i: nat): Error
    requires i < 6
  {
    InvalidField(Some(id), record, DATETIME_FIELDS[i], DateText(line, i))
  }

  function DatePart(line: string, record: Label, id: string, i: nat): Result<int, Error>
    requires i < 5
  {
    match ParseI64(DateText(line, i))
    case None => Err(DateFault(line, record, id, i))
    case Some(v) => Ok(v)
  }

  function ReadDate(line: string, record: Label, id: string): Result<DateTime, Error> {
    var year :- DatePart(line, record, id, 0);
    var month :- DatePart(line, record, id, 1);
    var day :- DatePart(line, record, id, 2);
    var hour :- DatePart(line, record, id, 3);
    var minute :- DatePart(line, record, id, 4);
    match ParseGpsSeconds(DateText(line, 5))
    case None => Err(DateFault(line, record, id, 5))
    case Some((second, fraction)) =>
      (match CivilFault(year, month, day, hour, minute, second)
       case Some(i) => Err(DateFault(line, record, id, i))
       case None => Ok(DateTime(year, month, day, hour, minute, second, fraction)))
  }

  function ReadValid(n: nat, line: string, s: State, record: Label): Result<State, Error>
    requires record == ValidFrom || record == ValidUntil
  {
    match s.current
    case None => Ok(SkipInconsistent(s, n, OutsideAntenna))
    case Some(b) =>
      var claim :- ClaimOnce(b.records, record, line, Some(b.antenna.id));
      if claim.Repeat? then Ok(s)
      else
        var date :- ReadDate(line, record, b.antenna.id);
        var a := if record == ValidFrom then b.antenna.(validFrom := Some(date))
                 else b.antenna.(validUntil := Some(date));
        Ok(s.(current := Some(b.(records := claim.records, antenna := a))))
  }

  // ----- frequency and RMS sections -----

  function BeginSection(n: nat, line: string, s: State, kind: SectionKind): Result<State, Error> {
    if s.current.None? then Ok(SkipInconsistent(s, n, OutsideAntenna))
    else
      var s' :- CloseOpenSection(n, s);
      Ok(s'.(section := Some(Section(kind, TrimmedField(line, 0, 20), None, None, [], {}))))
  }

  function EndSection(n: nat, line: string, s: State, kind: SectionKind): Result<State, Error> {
    match s.section
    case None => Ok(s)
    case Some(sec) =>
      var freq := TrimmedField(line, 0, 20);
      var s1 := if sec.kind != kind then SkipInconsistent(s, n, WrongEndRecord) else s;
      var s2 := if freq != "" && freq != sec.freq then SkipInconsistent(s1, n, EndLabelDiffers) else s1;
      FinalizeSection(n, s2)
  }

  function BlockId(s: State): Option<string> {
    if s.current.Some? then Some(s.current.value.antenna.id) else None
  }

  function PcoComponent(pf: Platform, line: string, id: Option<string>, start: nat, name: FieldName): Result<F64, Error> {
    match FortranF64(pf, line, start, start + 10)
    case None => Err(InvalidField(id, NorthEastUp, name, TrimmedField(line, start, start + 10)))
    case Some(mm) => Ok(pf.mul(mm, pf.mPerMm))
  }

  function ReadPco(pf: Platform, n: nat, line: string, s: State): Result<State, Error> {
    match s.section
    case None => Ok(SkipInconsistent(s, n, PcoOutsideSection))
    case Some(sec) =>
      if sec.pcoBody.Some? then
        if sec.pcoBody.value == Body(line) then Ok(s) else Err(RepeatedRecord(BlockId(s), NorthEastUp))
      else
        var north :- PcoComponent(pf, line, BlockId(s), 0, North);
        var east :- PcoComponent(pf, line, BlockId(s), 10, East);
        var up :- PcoComponent(pf, line, BlockId(s), 20, Up);
        Ok(s.(section := Some(sec.(pco := Some(Triple(north, east, up)), pcoBody := Some(Body(line))))))
  }

  // ----- grid rows -----

  datatype Row = Row(values: seq<(nat, F64)>, skips: seq<Skip>)

  /** The values of a row from its `k`-th 8-column field on. A blank field leaves
      its position empty, a malformed one is skipped, and a value without a
      position of its own is refused. */
  function RowValues(pf: Platform, step: F64, key: Option<F64>, occupied: set<(Option<F64>, nat)>,
                     n: nat, line: string, k: nat): Result<Row, GridFault>
    decreases |line| - 8 * k
  {
    if 8 + 8 * k >= |line| then Ok(Row([], []))
    else
      match Field(line, 8 + 8 * k, 16 + 8 * k)
      case None => RowValues(pf, step, key, occupied, n, line, k + 1)
      case Some(text) =>
        match StrictF64(pf, text)
        case Some(v) =>
          if k > 0 && pf.sign(step) != Positive then Err(StepNotPositive(k))
          else if (key, k) in occupied then Err(PositionFilled(k))
          else
            var rest :- RowValues(pf, step, key, occupied, n, line, k + 1);
            Ok(Row([(k, v)] + rest.values, rest.skips))
        case None =>
          var rest :- RowValues(pf, step, key, occupied, n, line, k + 1);
          Ok(Row(rest.values, [Skip(n, MalformedField(text))] + rest.skips))
  }

  /** The sample at index `k` of a row headed `key`. */
  function SampleAt(pf: Platform, grid: ZenithGrid, key: Option<F64>, k: nat, v: F64): PcvSample {
    PcvSample(
      if key.Some? then Azimuth else NoAzimuth,
      key,
      if pf.sign(grid.step) == Zero then grid.start else pf.add(grid.start, pf.mul(grid.step, pf.ofUsize(k))),
      pf.mul(v, pf.mPerMm))
  }

  function Samples(pf: Platform, grid: ZenithGrid, key: Option<F64>, values: seq<(nat, F64)>): (r: seq<PcvSample>)
    ensures |r| == |values|
    ensures forall i :: 0 <= i < |r| ==> r[i] == SampleAt(pf, grid, key, values[i].0, values[i].1)
  {
    if values == [] then []
    else [SampleAt(pf, grid, key, values[0].0, values[0].1)] + Samples(pf, grid, key, values[1..])
  }

  function Positions(key: Option<F64>, values: seq<(nat, F64)>): set<(Option<F64>, nat)> {
    set i | 0 <= i < |values| :: (key, values[i].0)
  }

  function AddPcvValues(pf: Platform, key: Option<F64>, n: nat, line: string, s: State): Result<State, Error> {
    match (s.current, s.section)
    case (Some(b), Some(sec)) =>
      (match b.antenna.grid
       case None => Err(DegenerateGrid(b.antenna.id, sec.freq, NoGrid))
       case Some(grid) =>
         (match RowValues(pf, grid.step, key, sec.occupied, n, line, 0)
          case Err(fault) => Err(DegenerateGrid(b.antenna.id, sec.freq, fault))
          case Ok(row) =>
            Ok(s.(section := Some(sec.(samples := sec.samples + Samples(pf, grid, key, row.values),
                                       occupied := sec.occupied + Positions(key, row.values))),
                  skips := s.skips + row.skips))))
    case _ => Ok(s)
  }

  function ReadRow(pf: Platform, n: nat, line: string, s: State): Result<State, Error> {
    if Trim(line) == "" then Ok(s)
    else if s.section.None? then
      var what := if Tag(line) == "" then TrimmedField(line, 0, LABEL_COLUMN) else Tag(line);
      Ok(PushSkip(s, n, UnknownBlock(what)))
    else
      var head := if Field(line, 0, 8).Some? then Field(line, 0, 8).value else "";
      if head == "NOAZI" then AddPcvValues(pf, None, n, line, s)
      else
        match FortranF64(pf, line, 0, 8)
        case Some(azimuth) => AddPcvValues(pf, Some(azimuth), n, line, s)
        case None => Ok(PushSkip(s, n, MalformedField(head)))
  }

  // ----- the whole text -----

  /** What a line `n` of that record type does to the state. */
  function Handle(pf: Platform, l: Label, n: nat, line: string, s: State): Result<State, Error> {
    match l
    case StartOfAntenna => OpenBlock(n, s)
    case EndOfAntenna => EndBlock(n, s)
    case TypeSerial => ReadTypeSerial(n, line, s)
    case Meth => Ok(ReadCalibration(n, line, s))
    case Dazi => ReadDazi(pf, n, line, s)
    case Zenith => ReadZenith(pf, n, line, s)
    case FrequencyCount => ReadFrequencyCount(n, line, s)
    case Sinex => ReadSinex(n, line, s)
    case ValidFrom => ReadValid(n, line, s, ValidFrom)
    case ValidUntil => ReadValid(n, line, s, ValidUntil)
    case Comment => Ok(ReadComment(line, s))
    case Version => ReadVersion(pf, n, line, s)
    case PcvTypeRefant => ReadPcvType(n, line, s)
    case EndOfHeader => Ok(ReadEndOfHeader(n, s))
    case StartOfFrequency => BeginSection(n, line, s, Values)
    case StartOfRms => BeginSection(n, line, s, Rms)
    case EndOfFrequency => EndSection(n, line, s, Values)
    case EndOfRms => EndSection(n, line, s, Rms)
    case NorthEastUp => ReadPco(pf, n, line, s)
    case GridRow => ReadRow(pf, n, line, s)
  }

  function Step(pf: Platform, n: nat, line: string, s: State): Result<State, Error> {
    Handle(pf, LabelOf(Tag(line)), n, line, s)
  }

  /** Steps over `lines`, the first of which is line `n + 1`. */
  function Run(pf: Platform, n: nat, lines: seq<string>, s: State): Result<State, Error>
    decreases |lines|
  {
    if lines == [] then Ok(s)
    else
      var s' :- Step(pf, n + 1, lines[0], s);
      Run(pf, n + 1, lines[1..], s')
  }

  function Product(s: State): Antex {
    Antex(s.header, s.outerComments, s.antennas, s.intervals, s.blockOrder, s.skips)
  }

  function ParseLines(pf: Platform, lines: seq<string>): Result<Antex, Error> {
    var s :- Run(pf, 0, lines, INITIAL);
    var s' :- CloseOpenBlock(|lines|, s);
    Ok(Product(s'))
  }

  /** `Antex::parse`. */
  function Parse(pf: Platform, text: string): Result<Antex, Error> { ParseLines(pf, Lines(text)) }
}
