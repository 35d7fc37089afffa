/** The whole set of products the writer accepts: those whose every part the reader
    would read back from its columns. */
module AntexAcceptance {
  import opened Text
  import opened AntexTypes
  import opened AntexReader
  import opened AntexWriter
  import opened AntexAcceptanceRows
  import opened AntexViews
  import L = AntexLayout
  import R = AntexLayoutRows
  import S = Seconds
  import F = SecondsFit
  import D = Decimal
  import P = AntexProduct

  // ----- texts -----

  predicate NoLineBreak(s: string) { '\n' !in s && '\r' !in s }

  /** A text that fits its columns and loses nothing to trimming. */
  predicate StatesText(s: string, width: nat) { |s| <= width && NoLineBreak(s) && Trim(s) == s }

  /** The same, where only the end is trimmed. */
  predicate StatesLine(s: string, width: nat) { |s| <= width && NoLineBreak(s) && TrimEnd(s) == s }

  predicate StateLines(lines: seq<string>) { forall i :: 0 <= i < |lines| ==> StatesLine(lines[i], 60) }

  lemma TextExactly(s: string, width: nat)
    ensures TrimmedFits(s, width) <==> StatesText(s, width)
  {
    var _ := TrimWithin(s);
    if Tight(s) {
      TrimTight(s);
    }
    hide Trim;
  }

  lemma LineExactly(s: string, width: nat)
    ensures EndTrimmedFits(s, width) <==> StatesLine(s, width)
  {
    TrimEndPrefix(s);
    if TightEnd(s) {
      assert TrimEnd(s) == s;
    }
    hide TrimEnd;
  }

  lemma LinesExactly(lines: seq<string>)
    ensures CommentsFit(lines) <==> StateLines(lines)
  {
    hide EndTrimmedFits, StatesLine;
    forall i | 0 <= i < |lines| ensures EndTrimmedFits(lines[i], 60) <==> StatesLine(lines[i], 60) {
      LineExactly(lines[i], 60);
    }
  }

  // ----- header -----

  ghost predicate HeaderStates(pf: Platform, h: Header) {
    && (match h.version
        case None => true
        case Some(v) => StatesF8(pf, v.version) && (v.system.Some? ==> '!' <= v.system.value <= '~'))
    && (match h.pcvType
        case None => true
        case Some(r) => StatesText(r.referenceType, 20) && StatesText(r.referenceSerial, 20))
    && StateLines(h.comments)
  }

  lemma HeaderExactly(pf: Platform, h: Header)
    requires Lawful(pf)
    ensures HeaderFits(pf, h) <==> HeaderStates(pf, h)
  {
    hide Lawful, FitsF8, StatesF8, TrimmedFits, StatesText, CommentsFit, StateLines;
    if h.version.Some? {
      F8Exactly(pf, h.version.value.version);
    }
    if h.pcvType.Some? {
      TextExactly(h.pcvType.value.referenceType, 20);
      TextExactly(h.pcvType.value.referenceSerial, 20);
    }
    LinesExactly(h.comments);
  }

  // ----- a block's records -----

  /** The id, as the sixty columns of the identity record, gives the other fields. */
  predicate IdentityStates(a: Antenna) {
    && a.id != "" && |a.id| <= 60 && StatesText(a.id, 60)
    && var columns := a.id + Blanks(60 - |a.id|);
       && a.antennaType == Trim(columns[0..20])
       && a.serial == Trim(columns[20..40])
       && (a.kind == Satellite <==> L.SatelliteSerial(a.serial))
  }

  lemma IdentityExactly(a: Antenna)
    ensures IdentityFits(a) <==> IdentityStates(a)
  {
    hide Identify, Trim, Labeled, TrimmedFits, StatesText, L.SatelliteSerial, Blanks, BLANK_ANTENNA;
    TextExactly(a.id, 60);
    if a.id != "" && StatesText(a.id, 60) {
      assert |a.id| <= 60 && Trim(a.id) == a.id by { TextIs(a.id, 60); }
      IdentifiedFrom(a.id);
      assert a.kind == Satellite || a.kind == Receiver;
    }
  }

  lemma TextIs(s: string, width: nat)
    requires StatesText(s, width)
    ensures |s| <= width && Trim(s) == s
  {
  }

  lemma IdentifiedFrom(id: string)
    requires |id| <= 60 && Trim(id) == id
    ensures var columns := id + Blanks(60 - |id|);
      var b := Identify(BLANK_ANTENNA, Labeled(id, TypeSerial));
      && b.id == id
      && b.antennaType == Trim(columns[0..20])
      && b.serial == Trim(columns[20..40])
      && b.kind == if L.SatelliteSerial(b.serial) then Satellite else Receiver
  {
    hide Trim, TrimmedField, Labeled, RawField, Blanks, L.SatelliteSerial;
    var columns := id + Blanks(60 - |id|);
    var line := Labeled(id, TypeSerial);
    Identified(line);
    hide Identify;
    PaddedColumns(id, line);
    L.ColumnsAre(line, 0, 60);
    L.ColumnsAre(line, 0, 20);
    L.ColumnsAre(line, 20, 40);
    TrimPadded(id, 60 - |id|);
  }

  lemma Identified(line: string)
    ensures var b := Identify(BLANK_ANTENNA, line);
      && b.id == TrimmedField(line, 0, 60)
      && b.antennaType == TrimmedField(line, 0, 20)
      && b.serial == TrimmedField(line, 20, 40)
      && b.kind == if L.SatelliteSerial(b.serial) then Satellite else Receiver
  {
    hide TrimmedField;
  }

  lemma PaddedColumns(id: string, line: string)
    requires |id| <= 60 && line == Labeled(id, TypeSerial)
    ensures |line| >= 60
    ensures var columns := id + Blanks(60 - |id|);
      line[0..60] == columns && line[0..20] == columns[0..20] && line[20..40] == columns[20..40]
  {
    hide LabelText;
    var columns := id + Blanks(60 - |id|);
    assert |id| == 60 ==> columns == id;
    assert line == columns + LabelText(TypeSerial);
  }

  predicate CalibrationStates(c: Calibration) {
    && StatesLine(c.method_, 20) && StatesLine(c.agency, 20) && StatesLine(c.date, 10)
    && (c.antennas.Some? ==> c.antennas.value <= 999999)
  }

  lemma CalibrationsExactly(cs: seq<Calibration>)
    ensures CalibrationsFit(cs) <==> forall i :: 0 <= i < |cs| ==> CalibrationStates(cs[i])
  {
    hide EndTrimmedFits, StatesLine;
    forall i | 0 <= i < |cs| ensures CalibrationFits(cs[i]) <==> CalibrationStates(cs[i]) {
      LineExactly(cs[i].method_, 20);
      LineExactly(cs[i].agency, 20);
      LineExactly(cs[i].date, 10);
    }
    hide CalibrationFits, CalibrationStates;
  }

  // ----- validity -----

  /** A Gregorian date and time of day, with seconds some text of the field states. */
  ghost predicate DateStates(d: DateTime) {
    && d.year <= 9999 && 1 <= d.month <= 12 && 1 <= d.day <= R.LastDay(d.year, d.month)
    && d.hour <= 23 && d.minute <= 59 && d.second <= 59
    && S.Normal(d.fraction)
    && exists text :: F.States(text, d.second, d.fraction)
  }

  lemma DateExactly(d: DateTime)
    ensures DateFits(d) <==> DateStates(d)
  {
    hide F.States, S.Normal, DaysInMonth, R.LastDay;
    if 1 <= d.month <= 12 {
      R.LastDayIs(d.year, d.month);
    }
    if d.second <= 59 && S.Normal(d.fraction) {
      F.SecondsStatable(d.second, d.fraction);
    }
  }

  function DayCount(d: DateTime): nat { (d.year * 12 + d.month) * 31 + d.day }

  /** The second of a date, in a count that rises with time and no two dates share. */
  function SecondCount(d: DateTime): nat { ((DayCount(d) * 24 + d.hour) * 60 + d.minute) * 60 + d.second }

  /** An earlier second, or the same second and a smaller fraction. */
  predicate Before(a: DateTime, b: DateTime) {
    || SecondCount(a) < SecondCount(b)
    || (SecondCount(a) == SecondCount(b)
        && a.fraction.digits * D.Pow10(b.fraction.scale) < b.fraction.digits * D.Pow10(a.fraction.scale))
  }

  lemma Carry(a: int, b: int, x: int, y: int, m: int)
    requires m > 0 && 0 <= x < m && 0 <= y < m
    ensures a * m + x < b * m + y <==> a < b || (a == b && x < y)
    ensures a * m + x == b * m + y <==> a == b && x == y
  {
    if a < b {
      assert (a + 1) * m <= b * m;
    }
    if b < a {
      assert (b + 1) * m <= a * m;
    }
  }

  lemma MonthCarry(a: DateTime, b: DateTime)
    requires 1 <= a.month <= 12 && 1 <= b.month <= 12 && 1 <= a.day <= 31 && 1 <= b.day <= 31
    ensures DayCount(a) == DayCount(b) <==> a.year == b.year && a.month == b.month && a.day == b.day
    ensures DayCount(a) < DayCount(b) <==>
      a.year < b.year || (a.year == b.year && (a.month < b.month || (a.month == b.month && a.day < b.day)))
  {
    Carry(a.year, b.year, a.month - 1, b.month - 1, 12);
    Carry(a.year * 12 + a.month, b.year * 12 + b.month, a.day - 1, b.day - 1, 31);
  }

  lemma CountOrder(a: DateTime, b: DateTime)
    requires DateInRange(a) && DateInRange(b)
    ensures SecondCount(a) == SecondCount(b) <==>
      a.year == b.year && a.month == b.month && a.day == b.day && a.hour == b.hour && a.minute == b.minute
      && a.second == b.second
    ensures SecondCount(a) < SecondCount(b) <==>
      if a.year != b.year then a.year < b.year
      else if a.month != b.month then a.month < b.month
      else if a.day != b.day then a.day < b.day
      else if a.hour != b.hour then a.hour < b.hour
      else if a.minute != b.minute then a.minute < b.minute
      else a.second < b.second
  {
    hide CivilFault, DayCount;
    MonthCarry(a, b);
    Carry(DayCount(a), DayCount(b), a.hour, b.hour, 24);
    Carry(DayCount(a) * 24 + a.hour, DayCount(b) * 24 + b.hour, a.minute, b.minute, 60);
    Carry((DayCount(a) * 24 + a.hour) * 60 + a.minute, (DayCount(b) * 24 + b.hour) * 60 + b.minute, a.second, b.second, 60);
  }

  lemma BeforeExactly(a: DateTime, b: DateTime)
    requires DateInRange(a) && DateInRange(b) && S.Normal(a.fraction) && S.Normal(b.fraction)
    ensures Earlier(a, b) <==> Before(a, b)
  {
    hide DateInRange, S.Normal, S.Compare, SecondCount, D.Pow10;
    CountOrder(a, b);
    S.CompareIsRationalOrder(a.fraction, b.fraction);
  }

  ghost predicate ValidityStates(a: Antenna) {
    && (a.validFrom.Some? ==> DateStates(a.validFrom.value))
    && (a.validUntil.Some? ==> DateStates(a.validUntil.value))
    && (a.validFrom.Some? && a.validUntil.Some? ==> !Before(a.validUntil.value, a.validFrom.value))
  }

  lemma ValidityExactly(a: Antenna)
    ensures ValidityFits(a) <==> ValidityStates(a)
  {
    if a.validFrom.Some? {
      DateExactly(a.validFrom.value);
    }
    if a.validUntil.Some? {
      DateExactly(a.validUntil.value);
    }
    if a.validFrom.Some? && a.validUntil.Some? && DateFits(a.validFrom.value) && DateFits(a.validUntil.value) {
      BeforeExactly(a.validUntil.value, a.validFrom.value);
    }
    assert forall d :: DateFits(d) ==> S.Normal(d.fraction);
    hide DateFits, DateStates, Before, Earlier;
  }

  // ----- the records of a block -----

  /** Bounds of the grid in order, each a number of six columns. */
  predicate GridStates(pf: Platform, g: ZenithGrid) {
    StatesF6(pf, g.start) && StatesF6(pf, g.end) && StatesF6(pf, g.step) && !pf.less(g.end, g.start)
  }

  lemma GridExactly(pf: Platform, g: ZenithGrid)
    requires Lawful(pf)
    ensures GridFits(pf, g) <==> GridStates(pf, g)
  {
    hide Lawful, FitsF6, StatesF6;
    F6Exactly(pf, g.start);
    F6Exactly(pf, g.end);
    F6Exactly(pf, g.step);
  }

  ghost predicate RecordsState(pf: Platform, a: Antenna) {
    && (forall i :: 0 <= i < |a.calibrations| ==> CalibrationStates(a.calibrations[i]))
    && (a.dazi.Some? ==> StatesF6(pf, a.dazi.value))
    && (a.grid.Some? ==> GridStates(pf, a.grid.value))
    && (a.hasFrequencyCount ==> |a.frequencies| <= 999999)
    && ValidityStates(a)
    && (a.sinex.Some? ==> a.sinex.value != "" && StatesText(a.sinex.value, 60))
    && StateLines(a.comments)
  }

  lemma RecordsExactly(pf: Platform, a: Antenna)
    requires Lawful(pf)
    ensures RecordsFit(pf, a) <==> RecordsState(pf, a)
  {
    hide Lawful, CalibrationsFit, CalibrationStates, FitsF6, StatesF6, GridFits, GridStates, ValidityFits, ValidityStates;
    hide CommentsFit, StateLines, StatesText, TrimmedFits;
    CalibrationsExactly(a.calibrations);
    if a.dazi.Some? {
      F6Exactly(pf, a.dazi.value);
    }
    if a.grid.Some? {
      GridExactly(pf, a.grid.value);
    }
    ValidityExactly(a);
    if a.sinex.Some? {
      TextExactly(a.sinex.value, 60);
    }
    LinesExactly(a.comments);
  }

  // ----- sections -----

  /** A system flag and a two-column number. */
  predicate CodeStates(code: string) {
    |code| == 3 && '!' <= code[0] <= '~' && code[1] in "0123456789 +-" && code[2] in "0123456789"
  }

  lemma CodeExactly(code: string)
    ensures IsFrequencyCode(code) <==> CodeStates(code)
  {
  }

  ghost predicate OffsetStates(pf: Platform, p: Triple) {
    StatesLength(pf, p.north, 10) && StatesLength(pf, p.east, 10) && StatesLength(pf, p.up, 10)
  }

  lemma OffsetExactly(pf: Platform, p: Triple)
    requires Lawful(pf)
    ensures PcoFits(pf, p) <==> OffsetStates(pf, p)
  {
    hide Lawful, FitsMm, StatesLength;
    LengthExactly(pf, p.north, 10);
    LengthExactly(pf, p.east, 10);
    LengthExactly(pf, p.up, 10);
  }

  /** A frequency section, and its RMS section when there is one. */
  ghost predicate SectionStates(pf: Platform, grid: Option<ZenithGrid>, f: Frequency) {
    && CodeStates(f.freq) && OffsetStates(pf, f.pco) && RowsState(pf, grid, f.samples)
    && match f.rms
       case None => true
       case Some(rms) => (rms.pco.Some? ==> OffsetStates(pf, rms.pco.value)) && RowsState(pf, grid, rms.samples)
  }

  lemma SectionExactly(pf: Platform, grid: Option<ZenithGrid>, f: Frequency)
    requires Lawful(pf)
    ensures FrequencyFits(pf, grid, f) <==> SectionStates(pf, grid, f)
  {
    hide Lawful, IsFrequencyCode, CodeStates, PcoFits, OffsetStates, RowsFit, RowsState;
    CodeExactly(f.freq);
    OffsetExactly(pf, f.pco);
    RowsExactly(pf, grid, f.samples);
    if f.rms.Some? {
      RowsExactly(pf, grid, f.rms.value.samples);
      if f.rms.value.pco.Some? {
        OffsetExactly(pf, f.rms.value.pco.value);
      }
    }
  }

  ghost predicate SectionsState(pf: Platform, grid: Option<ZenithGrid>, fs: seq<Frequency>) {
    forall i :: 0 <= i < |fs| ==> SectionStates(pf, grid, fs[i])
  }

  lemma SectionsExactly(pf: Platform, grid: Option<ZenithGrid>, fs: seq<Frequency>)
    requires Lawful(pf)
    ensures FrequenciesFit(pf, grid, fs) <==> SectionsState(pf, grid, fs)
  {
    hide Lawful, FrequencyFits, SectionStates;
    forall i | 0 <= i < |fs| ensures FrequencyFits(pf, grid, fs[i]) <==> SectionStates(pf, grid, fs[i]) {
      SectionExactly(pf, grid, fs[i]);
    }
  }

  /** A block with samples has a grid of whole steps: in tenths of a degree, its end is
      a multiple of the step away from its start. */
  ghost predicate GridCarries(pf: Platform, a: Antenna) {
    (exists f :: f in a.frequencies && (f.samples != [] || (f.rms.Some? && f.rms.value.samples != []))) ==>
      && a.grid.Some?
      && pf.sign(a.grid.value.step) !in {Sign.Negative, Sign.Zero}
      && var g := a.grid.value;
         InTenths(pf, g.step) != 0 && exists q: int ::
           InTenths(pf, g.end) - InTenths(pf, g.start) == q * InTenths(pf, g.step)
  }

  lemma WholeSteps(x: int, step: int)
    requires step != 0
    ensures x % step == 0 <==> exists q: int :: x == q * step
  {
    if x % step == 0 {
      assert x == (x / step) * step;
    }
    if q: int :| x == q * step {
      Divides(q, step);
    }
  }

  lemma Divides(q: int, step: int)
    requires step != 0
    ensures (q * step) % step == 0
  {
    var x := q * step;
    var k := q - x / step;
    assert x == (x / step) * step + x % step;
    assert k * step == q * step - (x / step) * step;
    if k != 0 {
      AtLeastOnce(k, step);
    }
  }

  lemma AtLeastOnce(k: int, step: int)
    requires k != 0 && step != 0
    ensures var size := if step > 0 then step else -step; k * step <= -size || size <= k * step
  {
    if k > 0 && step > 0 {
      assert k * step >= step;
    } else if k < 0 && step < 0 {
      assert k * step >= -step;
    } else if k > 0 {
      assert k * step <= step;
    } else {
      assert k * step <= -step;
    }
  }

  lemma CarriesExactly(pf: Platform, a: Antenna)
    ensures GridCarriesSamples(pf, a) <==> GridCarries(pf, a)
  {
    var fs := a.frequencies;
    assert HasSamples(fs) <==> exists f :: f in fs && (f.samples != [] || (f.rms.Some? && f.rms.value.samples != []));
    if a.grid.Some? {
      var g := a.grid.value;
      GridTenths(pf, g);
      if InTenths(pf, g.step) != 0 {
        WholeSteps(InTenths(pf, g.end) - InTenths(pf, g.start), InTenths(pf, g.step));
      }
    }
    hide HasSamples, Tenths, InTenths;
  }

  lemma GridTenths(pf: Platform, g: ZenithGrid)
    ensures Tenths(pf, g.start) == InTenths(pf, g.start) && Tenths(pf, g.end) == InTenths(pf, g.end)
    ensures Tenths(pf, g.step) == InTenths(pf, g.step)
  {
  }

  // ----- the product -----

  ghost predicate BlockStates(pf: Platform, a: Antenna) {
    && IdentityStates(a) && StateLines(a.leadingComments) && RecordsState(pf, a)
    && GridCarries(pf, a) && SectionsState(pf, a.grid, a.frequencies)
  }

  lemma BlockExactly(pf: Platform, a: Antenna)
    requires Lawful(pf)
    ensures AntennaFits(pf, a) <==> BlockStates(pf, a)
  {
    hide Lawful, IdentityFits, IdentityStates, CommentsFit, StateLines, RecordsFit, RecordsState;
    hide GridCarriesSamples, GridCarries, FrequenciesFit, SectionsState;
    IdentityExactly(a);
    LinesExactly(a.leadingComments);
    RecordsExactly(pf, a);
    CarriesExactly(pf, a);
    SectionsExactly(pf, a.grid, a.frequencies);
  }

  /** Comments outside the blocks: in file order, none past the last block, and none
      before the first unless the header has ended. */
  ghost predicate OuterStates(p: Antex, blocks: nat) {
    && (forall c :: c in p.outerComments ==>
          StatesLine(c.text, 60) && c.blocksBefore <= blocks && (c.blocksBefore == 0 ==> p.header.endOfHeader))
    && forall i, j :: 0 <= i < j < |p.outerComments| ==> p.outerComments[i].blocksBefore <= p.outerComments[j].blocksBefore
  }

  lemma OuterExactly(p: Antex)
    ensures OuterFits(p) <==> OuterStates(p, |p.blockOrder|)
  {
    hide EndTrimmedFits, StatesLine;
    forall c | c in p.outerComments ensures EndTrimmedFits(c.text, 60) <==> StatesLine(c.text, 60) {
      LineExactly(c.text, 60);
    }
    if OuterFits(p) {
      forall i, j | 0 <= i < j < |p.outerComments|
        ensures p.outerComments[i].blocksBefore <= p.outerComments[j].blocksBefore
      {
        Sorted(p, i, j);
      }
    }
  }

  lemma {:induction false} Sorted(p: Antex, i: nat, j: nat)
    requires OuterFits(p) && i <= j < |p.outerComments|
    ensures p.outerComments[i].blocksBefore <= p.outerComments[j].blocksBefore
    decreases j
  {
    hide EndTrimmedFits;
    if i < j {
      Sorted(p, i, j - 1);
    }
  }

  /** Every part of a product is one its columns state. */
  ghost predicate ProductStates(pf: Platform, p: Antex, blocks: seq<Antenna>) {
    && OuterStates(p, |blocks|)
    && HeaderStates(pf, p.header)
    && forall i :: 0 <= i < |blocks| ==> BlockStates(pf, blocks[i])
  }

  /** The writer accepts a product of retained blocks exactly when the columns of its
      records state every part of it; nothing else is refused. */
  lemma AcceptedExactly(pf: Platform, p: Antex, blocks: seq<Antenna>)
    requires Lawful(pf) && Built(p, blocks)
    ensures Encode(pf, p).Ok? <==> ProductStates(pf, p, blocks)
  {
    hide Lawful, OuterFits, OuterStates, HeaderFits, HeaderStates, ViewsFit, BlocksFit, BlockStates, Built, ProductLines;
    BuiltViewsFit(p, blocks);
    OuterExactly(p);
    HeaderExactly(pf, p.header);
    BlocksExactly(pf, p, blocks);
  }

  lemma BlocksExactly(pf: Platform, p: Antex, blocks: seq<Antenna>)
    requires Lawful(pf) && Built(p, blocks)
    ensures |p.blockOrder| == |blocks|
    ensures BlocksFit(pf, p) <==> forall i :: 0 <= i < |blocks| ==> BlockStates(pf, blocks[i])
  {
    OrderLength(blocks);
    hide Lawful, AntennaFits, BlockStates, ViewsOf;
    forall i | 0 <= i < |blocks|
      ensures p.blockOrder[i].0 in p.intervals && p.blockOrder[i].1 < |p.intervals[p.blockOrder[i].0]|
      ensures BlockAt(p, i) == blocks[i]
      ensures AntennaFits(pf, BlockAt(p, i)) <==> BlockStates(pf, blocks[i])
    {
      P.BlockIs(p, blocks, i);
      BlockExactly(pf, blocks[i]);
    }
  }
}
