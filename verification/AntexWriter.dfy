/** `Antex::encode`: a strict writer that refuses what it cannot state exactly.
    Each part of a product has a predicate saying when it is accepted and, for
    accepted parts, a function giving its lines. */
module AntexWriter {
  import opened Text
  import opened Decimal
  import opened Seconds
  import opened SecondsField
  import opened AntexTypes
  import opened AntexReader

  /** A labeled record: the body padded to the label column, then the label. */
  function Labeled(body: string, l: Label): string { Pad(body, LABEL_COLUMN) + LabelText(l) }

  // ----- fields -----

  /** Whether formatted text reads back as the same bits. */
  predicate ReadsBack(pf: Platform, text: string, v: F64) { pf.parse(Trim(text)) == Some(v) }

  predicate FitsF6(pf: Platform, v: F64) {
    var text := pf.text(v, 6, 1);
    pf.finite(v) && pf.sign(v) != Negative && |text| == 6 && ReadsBack(pf, text, v)
  }

  predicate FitsF8(pf: Platform, v: F64) {
    var text := pf.text(v, 8, 1);
    pf.finite(v) && |text| == 8 && ReadsBack(pf, text, v)
  }

  /** A length in meters as millimetres with two decimals. */
  function MmText(pf: Platform, v: F64, width: nat): string { pf.text(pf.mul(v, pf.mmPerM), width, 2) }

  predicate FitsMm(pf: Platform, v: F64, width: nat) {
    var text := MmText(pf, v, width);
    && pf.finite(v)
    && |text| == width
    && pf.parse(Trim(text)).Some?
    && pf.mul(pf.parse(Trim(text)).value, pf.mPerMm) == v
  }

  predicate TextFits(s: string, width: nat) { |s| <= width && OneLine(s) }

  predicate TrimmedFits(s: string, width: nat) { TextFits(s, width) && Tight(s) }

  predicate EndTrimmedFits(s: string, width: nat) { TextFits(s, width) && TightEnd(s) }

  predicate IsGraphic(c: char) { '!' <= c <= '~' }

  // ----- header -----

  predicate VersionFits(pf: Platform, v: AntexVersion) {
    FitsF8(pf, v.version) && (v.system.Some? ==> IsGraphic(v.system.value))
  }

  function VersionLine(pf: Platform, v: AntexVersion): string {
    Labeled(pf.text(v.version, 8, 1) + Blanks(12) + [if v.system.Some? then v.system.value else ' '], Version)
  }

  predicate PcvTypeFits(r: PcvTypeRecord) { TrimmedFits(r.referenceType, 20) && TrimmedFits(r.referenceSerial, 20) }

  function PcvTypeLine(r: PcvTypeRecord): string {
    var flag := if r.pcvType == Absolute then "A" else "R";
    Labeled(flag + Blanks(19) + Pad(r.referenceType, 20) + r.referenceSerial, PcvTypeRefant)
  }

  predicate CommentsFit(cs: seq<string>) { forall i :: 0 <= i < |cs| ==> EndTrimmedFits(cs[i], LABEL_COLUMN) }

  function CommentLines(cs: seq<string>): seq<string> {
    if cs == [] then [] else [Labeled(cs[0], Comment)] + CommentLines(cs[1..])
  }

  predicate HeaderFits(pf: Platform, h: Header) {
    && (h.version.Some? ==> VersionFits(pf, h.version.value))
    && (h.pcvType.Some? ==> PcvTypeFits(h.pcvType.value))
    && CommentsFit(h.comments)
  }

  function HeaderLines(pf: Platform, h: Header): seq<string> {
    (if h.version.Some? then [VersionLine(pf, h.version.value)] else [])
    + (if h.pcvType.Some? then [PcvTypeLine(h.pcvType.value)] else [])
    + CommentLines(h.comments)
    + (if h.endOfHeader then [Labeled("", EndOfHeader)] else [])
  }

  // ----- block records -----

  predicate CalibrationFits(c: Calibration) {
    && EndTrimmedFits(c.method_, 20)
    && EndTrimmedFits(c.agency, 20)
    && EndTrimmedFits(c.date, 10)
    && (c.antennas.Some? ==> c.antennas.value <= 999999)
  }

  function CalibrationBody(c: Calibration): string {
    Pad(c.method_, 20) + Pad(c.agency, 20)
    + PadLeft(if c.antennas.Some? then Digits(c.antennas.value) else "", 6) + Blanks(4) + c.date
  }

  predicate CalibrationsFit(cs: seq<Calibration>) { forall i :: 0 <= i < |cs| ==> CalibrationFits(cs[i]) }

  function CalibrationLines(cs: seq<Calibration>): seq<string> {
    if cs == [] then [] else [Labeled(CalibrationBody(cs[0]), Meth)] + CalibrationLines(cs[1..])
  }

  /** The identity fields are the ones the identity record gives. */
  predicate IdentityAgrees(a: Antenna) {
    var decoded := Identify(BLANK_ANTENNA, Labeled(a.id, TypeSerial));
    && decoded.id == a.id
    && decoded.antennaType == a.antennaType
    && decoded.serial == a.serial
    && decoded.kind == a.kind
  }

  predicate IdentityFits(a: Antenna) { a.id != "" && TrimmedFits(a.id, LABEL_COLUMN) && IdentityAgrees(a) }

  function DaziLine(pf: Platform, v: F64): string { Labeled("  " + pf.text(v, 6, 1), Dazi) }

  predicate GridFits(pf: Platform, g: ZenithGrid) {
    FitsF6(pf, g.start) && FitsF6(pf, g.end) && FitsF6(pf, g.step) && !pf.less(g.end, g.start)
  }

  function GridLine(pf: Platform, g: ZenithGrid): string {
    Labeled("  " + pf.text(g.start, 6, 1) + pf.text(g.end, 6, 1) + pf.text(g.step, 6, 1), Zenith)
  }

  function CountLine(count: nat): string { Labeled(PadLeft(Digits(count), 6), FrequencyCount) }

  function DateBody(d: DateTime, seconds: string): string {
    PadLeft(Digits(d.year), 6) + PadLeft(Digits(d.month), 6) + PadLeft(Digits(d.day), 6)
    + PadLeft(Digits(d.hour), 6) + PadLeft(Digits(d.minute), 6) + PadLeft(seconds, SECONDS_WIDTH)
  }

  predicate DateInRange(d: DateTime) {
    CivilFault(d.year, d.month, d.day, d.hour, d.minute, d.second).None?
  }

  /** The private fields of a fraction only ever hold a normal one. */
  predicate DateFits(d: DateTime) {
    DateInRange(d) && Normal(d.fraction) && SecondsText(d.second, d.fraction).Some?
  }

  function DateLine(d: DateTime, l: Label): string
    requires DateFits(d)
  {
    Labeled(DateBody(d, SecondsText(d.second, d.fraction).value), l)
  }

  /** Calendar order, most significant component first. */
  predicate Earlier(a: DateTime, b: DateTime)
    requires Normal(a.fraction) && Normal(b.fraction)
  {
    if a.year != b.year then a.year < b.year
    else if a.month != b.month then a.month < b.month
    else if a.day != b.day then a.day < b.day
    else if a.hour != b.hour then a.hour < b.hour
    else if a.minute != b.minute then a.minute < b.minute
    else if a.second != b.second then a.second < b.second
    else Compare(a.fraction, b.fraction) == Less
  }

  predicate ValidityFits(a: Antenna) {
    && (a.validFrom.Some? ==> DateFits(a.validFrom.value))
    && (a.validUntil.Some? ==> DateFits(a.validUntil.value))
    && (a.validFrom.Some? && a.validUntil.Some? ==> !Earlier(a.validUntil.value, a.validFrom.value))
  }

  predicate SinexFits(code: string) { code != "" && TrimmedFits(code, LABEL_COLUMN) }

  /** Acceptance of the records between a block's identity and its sections. */
  predicate RecordsFit(pf: Platform, a: Antenna) {
    && CalibrationsFit(a.calibrations)
    && (a.dazi.Some? ==> FitsF6(pf, a.dazi.value))
    && (a.grid.Some? ==> GridFits(pf, a.grid.value))
    && (a.hasFrequencyCount ==> |a.frequencies| <= 999999)
    && ValidityFits(a)
    && (a.sinex.Some? ==> SinexFits(a.sinex.value))
    && CommentsFit(a.comments)
  }

  function DaziLines(pf: Platform, v: Option<F64>): seq<string> {
    if v.Some? then [DaziLine(pf, v.value)] else []
  }

  function GridLines(pf: Platform, g: Option<ZenithGrid>): seq<string> {
    if g.Some? then [GridLine(pf, g.value)] else []
  }

  function CountLines(stated: bool, count: nat): seq<string> { if stated then [CountLine(count)] else [] }

  function DateLines(d: Option<DateTime>, l: Label): seq<string>
    requires d.Some? ==> DateFits(d.value)
  {
    if d.Some? then [DateLine(d.value, l)] else []
  }

  function SinexLines(code: Option<string>): seq<string> {
    if code.Some? then [Labeled(code.value, Sinex)] else []
  }

  function RecordLines(pf: Platform, a: Antenna): seq<string>
    requires RecordsFit(pf, a)
  {
    CalibrationLines(a.calibrations) + DaziLines(pf, a.dazi) + GridLines(pf, a.grid)
    + CountLines(a.hasFrequencyCount, |a.frequencies|)
    + DateLines(a.validFrom, ValidFrom) + DateLines(a.validUntil, ValidUntil)
    + SinexLines(a.sinex) + CommentLines(a.comments)
  }

  // ----- grid rows -----

  function Tenths(pf: Platform, v: F64): int { pf.toI64(pf.round(pf.mul(v, pf.ten))) }

  /** The grid index a zenith rounds to. */
  function RawIndex(pf: Platform, g: ZenithGrid, zenith: F64): F64 {
    pf.round(pf.div(pf.sub(zenith, g.start), g.step))
  }

  function Index(pf: Platform, g: ZenithGrid, s: PcvSample): nat { pf.toUsize(RawIndex(pf, g, s.zenith)) }

  /** `i64` division truncates; the guards make both operands non-negative. */
  function MaxGridIndex(pf: Platform, g: ZenithGrid): nat {
    var start, step := Tenths(pf, g.start), Tenths(pf, g.step);
    if step > 0 && start <= 99999 then (99999 - start) / step else 0
  }

  /** Where the reader would place a value at that index. */
  function ZenithAt(pf: Platform, g: ZenithGrid, k: nat): F64 { pf.add(g.start, pf.mul(g.step, pf.ofUsize(k))) }

  datatype CurrentRow = NoRow | NoAziRow | AzimuthRow(azimuth: F64)

  datatype AzimuthSamples = AzimuthSamples(head: string, samples: seq<PcvSample>)

  datatype Grouping = Grouping(
    noazi: seq<PcvSample>, rows: seq<AzimuthSamples>, seen: seq<F64>, row: CurrentRow, last: nat)

  const NO_GROUPS := Grouping([], [], [], NoRow, 0)

  /** The checks on one sample that do not depend on the samples before it. */
  predicate SampleOk(pf: Platform, g: ZenithGrid, s: PcvSample) {
    && pf.finite(s.zenith)
    && pf.finite(s.value)
    && pf.sign(s.zenith) != Negative
    && !(pf.sign(s.zenith) == Zero && pf.signBit(s.zenith))
    && !pf.less(s.zenith, g.start)
    && FitsMm(pf, s.value, 8)
    && !pf.less(pf.ofUsize(MaxGridIndex(pf, g)), RawIndex(pf, g, s.zenith))
    && ZenithAt(pf, g, Index(pf, g, s)) == s.zenith
    && (s.grid == NoAzimuth <==> s.azimuth.None?)
    && (s.azimuth.Some? ==> FitsF8(pf, s.azimuth.value))
  }

  /** Whether the sample continues the grouping without losing its place. */
  predicate Follows(acc: Grouping, s: PcvSample, k: nat) {
    match s.azimuth
    case None => acc.row == NoRow || (acc.row == NoAziRow && acc.last < k)
    case Some(az) =>
      if acc.row == AzimuthRow(az) then acc.last < k
      else !acc.row.AzimuthRow? || az !in acc.seen
  }

  function Placed(pf: Platform, acc: Grouping, s: PcvSample, k: nat): Grouping {
    match s.azimuth
    case None => acc.(noazi := acc.noazi + [s], row := NoAziRow, last := k)
    case Some(az) =>
      if acc.row == AzimuthRow(az) then
        acc.(rows := PushToLast(acc.rows, s), last := k)
      else
        acc.(rows := acc.rows + [AzimuthSamples(pf.text(az, 8, 1), [s])],
             seen := acc.seen + [az], row := AzimuthRow(az), last := k)
  }

  function PushToLast(rows: seq<AzimuthSamples>, s: PcvSample): seq<AzimuthSamples> {
    if rows == [] then []
    else
      var r := rows[|rows| - 1];
      rows[..|rows| - 1] + [r.(samples := r.samples + [s])]
  }

  function GroupSample(pf: Platform, g: ZenithGrid, acc: Grouping, s: PcvSample): Option<Grouping> {
    var k := Index(pf, g, s);
    if SampleOk(pf, g, s) && Follows(acc, s, k) then Some(Placed(pf, acc, s, k)) else None
  }

  function GroupFrom(pf: Platform, g: ZenithGrid, acc: Grouping, samples: seq<PcvSample>): Option<Grouping>
    decreases |samples|
  {
    if samples == [] then Some(acc)
    else
      match GroupSample(pf, g, acc, samples[0])
      case None => None
      case Some(acc') => GroupFrom(pf, g, acc', samples[1..])
  }

  /** `!(step <= 0.0)`. */
  predicate StepAccepted(pf: Platform, g: ZenithGrid) { pf.sign(g.step) != Negative && pf.sign(g.step) != Zero }

  /** `validate_and_group_pcv_samples`; `None` is a refusal. */
  function GroupSamples(pf: Platform, g: ZenithGrid, samples: seq<PcvSample>): Option<Grouping> {
    if samples != [] && !(StepAccepted(pf, g) && Tenths(pf, g.step) > 0) then None
    else GroupFrom(pf, g, NO_GROUPS, samples)
  }

  /** The last index of the declared grid. */
  function GridIndex(pf: Platform, g: ZenithGrid): nat {
    var start, end, step := Tenths(pf, g.start), Tenths(pf, g.end), Tenths(pf, g.step);
    if step > 0 && end >= start then (end - start) / step else 0
  }

  function MaxSampleIndex(pf: Platform, g: ZenithGrid, samples: seq<PcvSample>): (r: nat)
    ensures forall i :: 0 <= i < |samples| ==> Index(pf, g, samples[i]) <= r
  {
    if samples == [] then 0
    else
      var a, b := Index(pf, g, samples[0]), MaxSampleIndex(pf, g, samples[1..]);
      if a > b then a else b
  }

  function LastIndex(pf: Platform, g: ZenithGrid, samples: seq<PcvSample>): nat {
    var a, b := GridIndex(pf, g), MaxSampleIndex(pf, g, samples);
    if a > b then a else b
  }

  /** The 8-column fields of indices `k` through `last`, blank where no sample falls. */
  function Cells(pf: Platform, g: ZenithGrid, samples: seq<PcvSample>, k: nat, last: nat): string
    decreases last + 1 - k
  {
    if k > last then ""
    else if samples != [] && Index(pf, g, samples[0]) == k then
      MmText(pf, samples[0].value, 8) + Cells(pf, g, samples[1..], k + 1, last)
    else
      Blanks(8) + Cells(pf, g, samples, k + 1, last)
  }

  /** `pcv_row`, for samples that passed the checks of the grouping. */
  function PcvRow(pf: Platform, g: ZenithGrid, head: string, samples: seq<PcvSample>): string {
    Pad(head, 8) + Cells(pf, g, samples, 0, LastIndex(pf, g, samples))
  }

  function AzimuthLines(pf: Platform, g: ZenithGrid, rows: seq<AzimuthSamples>): seq<string> {
    if rows == [] then [] else [PcvRow(pf, g, rows[0].head, rows[0].samples)] + AzimuthLines(pf, g, rows[1..])
  }

  const NOAZI_HEAD := "   NOAZI"

  predicate RowsFit(pf: Platform, grid: Option<ZenithGrid>, samples: seq<PcvSample>) {
    samples == [] || (grid.Some? && GroupSamples(pf, grid.value, samples).Some?)
  }

  function RowLines(pf: Platform, grid: Option<ZenithGrid>, samples: seq<PcvSample>): seq<string>
    requires RowsFit(pf, grid, samples)
  {
    if samples == [] then []
    else
      var groups := GroupSamples(pf, grid.value, samples).value;
      (if groups.noazi == [] then [] else [PcvRow(pf, grid.value, NOAZI_HEAD, groups.noazi)])
      + AzimuthLines(pf, grid.value, groups.rows)
  }

  // ----- sections -----

  /** A system flag and a two-column number. */
  predicate IsFrequencyCode(s: string) {
    && |s| == 3
    && IsGraphic(s[0])
    && (IsDigit(s[1]) || s[1] == ' ' || s[1] == '+' || s[1] == '-')
    && IsDigit(s[2])
  }

  predicate PcoFits(pf: Platform, p: Triple) {
    FitsMm(pf, p.north, 10) && FitsMm(pf, p.east, 10) && FitsMm(pf, p.up, 10)
  }

  function PcoLine(pf: Platform, p: Triple): string {
    Labeled(MmText(pf, p.north, 10) + MmText(pf, p.east, 10) + MmText(pf, p.up, 10), NorthEastUp)
  }

  predicate RmsFits(pf: Platform, grid: Option<ZenithGrid>, rms: FrequencyRms) {
    (rms.pco.Some? ==> PcoFits(pf, rms.pco.value)) && RowsFit(pf, grid, rms.samples)
  }

  function RmsLines(pf: Platform, grid: Option<ZenithGrid>, code: string, rms: FrequencyRms): seq<string>
    requires RmsFits(pf, grid, rms)
  {
    [Labeled("   " + code, StartOfRms)]
    + (if rms.pco.Some? then [PcoLine(pf, rms.pco.value)] else [])
    + RowLines(pf, grid, rms.samples)
    + [Labeled("   " + code, EndOfRms)]
  }

  predicate FrequencyFits(pf: Platform, grid: Option<ZenithGrid>, f: Frequency) {
    && IsFrequencyCode(f.freq)
    && PcoFits(pf, f.pco)
    && RowsFit(pf, grid, f.samples)
    && (f.rms.Some? ==> RmsFits(pf, grid, f.rms.value))
  }

  function FrequencyLines(pf: Platform, grid: Option<ZenithGrid>, f: Frequency): seq<string>
    requires FrequencyFits(pf, grid, f)
  {
    [Labeled("   " + f.freq, StartOfFrequency)]
    + [PcoLine(pf, f.pco)]
    + RowLines(pf, grid, f.samples)
    + [Labeled("   " + f.freq, EndOfFrequency)]
    + (if f.rms.Some? then RmsLines(pf, grid, f.freq, f.rms.value) else [])
  }

  predicate FrequenciesFit(pf: Platform, grid: Option<ZenithGrid>, fs: seq<Frequency>) {
    forall i :: 0 <= i < |fs| ==> FrequencyFits(pf, grid, fs[i])
  }

  function SectionLines(pf: Platform, grid: Option<ZenithGrid>, fs: seq<Frequency>): seq<string>
    requires FrequenciesFit(pf, grid, fs)
  {
    if fs == [] then [] else FrequencyLines(pf, grid, fs[0]) + SectionLines(pf, grid, fs[1..])
  }

  predicate HasSamples(fs: seq<Frequency>) {
    exists i :: 0 <= i < |fs| && (fs[i].samples != [] || (fs[i].rms.Some? && fs[i].rms.value.samples != []))
  }

  /** Samples need a grid whose declared end is a whole number of steps away. A
      positive step its columns accepted is at least one tenth; the platform's
      rounding being unknown here, the remainder is guarded. */
  predicate GridCarriesSamples(pf: Platform, a: Antenna) {
    HasSamples(a.frequencies) ==>
      && a.grid.Some?
      && StepAccepted(pf, a.grid.value)
      && var step := Tenths(pf, a.grid.value.step);
         step != 0 && (Tenths(pf, a.grid.value.end) - Tenths(pf, a.grid.value.start)) % step == 0
  }

  predicate AntennaFits(pf: Platform, a: Antenna) {
    && IdentityFits(a)
    && CommentsFit(a.leadingComments)
    && RecordsFit(pf, a)
    && GridCarriesSamples(pf, a)
    && FrequenciesFit(pf, a.grid, a.frequencies)
  }

  function AntennaLines(pf: Platform, a: Antenna): seq<string>
    requires AntennaFits(pf, a)
  {
    [Labeled("", StartOfAntenna)]
    + CommentLines(a.leadingComments)
    + [Labeled(a.id, TypeSerial)]
    + RecordLines(pf, a)
    + SectionLines(pf, a.grid, a.frequencies)
    + [Labeled("", EndOfAntenna)]
  }

  // ----- the whole product -----

  /** Number of retained blocks over those ids. */
  ghost function CountIntervals(intervals: map<string, seq<Antenna>>, ids: set<string>): nat
    requires ids <= intervals.Keys
  {
    if ids == {} then 0
    else
      var id :| id in ids;
      |intervals[id]| + CountIntervals(intervals, ids - {id})
  }

  /** Each public antenna is the latest interval under its id. */
  predicate LatestAgrees(p: Antex) {
    forall id :: id in p.antennas ==>
      && p.antennas[id].id == id
      && id in p.intervals
      && p.intervals[id] != []
      && p.antennas[id] == p.intervals[id][|p.intervals[id]| - 1]
  }

  /** Each interval list has a public antenna and holds only its own id. */
  predicate IntervalsAgree(p: Antex) {
    forall id :: id in p.intervals ==>
      id in p.antennas && forall i :: 0 <= i < |p.intervals[id]| ==> p.intervals[id][i].id == id
  }

  /** `validate_antennas_sync`. */
  ghost predicate ViewsFit(p: Antex) {
    && |p.antennas| == |p.intervals|
    && LatestAgrees(p)
    && IntervalsAgree(p)
    && |p.blockOrder| == CountIntervals(p.intervals, p.intervals.Keys)
  }

  /** `validate_outer_comments`: in file order, not past the last block, and not
      where they would be read as header comments. */
  predicate OuterFits(p: Antex) {
    forall i :: 0 <= i < |p.outerComments| ==>
      && EndTrimmedFits(p.outerComments[i].text, LABEL_COLUMN)
      && (if i == 0 then 0 else p.outerComments[i - 1].blocksBefore)
         <= p.outerComments[i].blocksBefore <= |p.blockOrder|
      && (p.outerComments[i].blocksBefore != 0 || p.header.endOfHeader)
  }

  function Texts(outer: seq<OuterComment>): (r: seq<string>)
    ensures |r| == |outer|
  {
    seq(|outer|, i requires 0 <= i < |outer| => outer[i].text)
  }

  function OuterLines(outer: seq<OuterComment>): seq<string> { CommentLines(Texts(outer)) }

  /** How many of the next comments stand before block `position`. */
  function OuterHere(outer: seq<OuterComment>, position: nat): (n: nat)
    ensures n <= |outer|
  {
    if outer == [] || outer[0].blocksBefore != position then 0 else 1 + OuterHere(outer[1..], position)
  }

  /** They are the first ones standing there, and the next one does not. */
  lemma {:induction false} OuterHereIs(outer: seq<OuterComment>, position: nat)
    ensures var n := OuterHere(outer, position);
            && (forall i :: 0 <= i < n ==> outer[i].blocksBefore == position)
            && (n < |outer| ==> outer[n].blocksBefore != position)
  {
    if outer != [] && outer[0].blocksBefore == position {
      OuterHereIs(outer[1..], position);
      var n := OuterHere(outer[1..], position);
      assert forall i :: 0 < i < n + 1 ==> outer[i] == outer[1..][i - 1];
    }
  }

  /** Every position of the block order names a retained, accepted block. */
  predicate BlocksFit(pf: Platform, p: Antex) {
    forall i :: 0 <= i < |p.blockOrder| ==>
      && p.blockOrder[i].0 in p.intervals
      && p.blockOrder[i].1 < |p.intervals[p.blockOrder[i].0]|
      && AntennaFits(pf, BlockAt(p, i))
  }

  function BlockAt(p: Antex, i: nat): Antenna
    requires i < |p.blockOrder| && p.blockOrder[i].0 in p.intervals
    requires p.blockOrder[i].1 < |p.intervals[p.blockOrder[i].0]|
  {
    p.intervals[p.blockOrder[i].0][p.blockOrder[i].1]
  }

  /** Blocks `position` onward, each after the comments that stand before it. */
  function BlockLines(pf: Platform, p: Antex, position: nat, outer: seq<OuterComment>): seq<string>
    requires BlocksFit(pf, p) && position <= |p.blockOrder|
    decreases |p.blockOrder| - position
  {
    if position == |p.blockOrder| then OuterLines(outer)
    else
      var n := OuterHere(outer, position);
      OuterLines(outer[..n]) + AntennaLines(pf, BlockAt(p, position)) + BlockLines(pf, p, position + 1, outer[n..])
  }

  ghost predicate Writable(pf: Platform, p: Antex) {
    ViewsFit(p) && OuterFits(p) && HeaderFits(pf, p.header) && BlocksFit(pf, p)
  }

  function ProductLines(pf: Platform, p: Antex): seq<string>
    requires BlocksFit(pf, p)
  {
    HeaderLines(pf, p.header) + BlockLines(pf, p, 0, p.outerComments)
  }

  /** `Antex::encode`. */
  ghost function Encode(pf: Platform, p: Antex): Result<string, Error> {
    if Writable(pf, p) then Ok(Joined(ProductLines(pf, p))) else Err(Unwritable)
  }
}
