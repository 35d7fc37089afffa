/** What dates, offsets and grid rows mean, stated on the columns of their lines. */
module AntexLayoutRows {
  import opened Text
  import opened Decimal
  import opened Seconds
  import opened SecondsField
  import opened AntexTypes
  import opened AntexReader
  import opened AntexLayout

  // ----- dates -----

  /** How many of the years before that one, from year 0 on, `d` divides. */
  function Multiples(year: int, d: int): int
    requires d > 0
  {
    (year + d - 1) / d
  }

  /** Days of the Gregorian calendar before that year. */
  function DaysBefore(year: int): int {
    365 * year + Multiples(year, 4) - Multiples(year, 100) + Multiples(year, 400)
  }

  /** The last day of a month; the months other than February have 337 days. */
  function LastDay(year: int, month: int): int
    requires 1 <= month <= 12
  {
    if month == 2 then DaysBefore(year + 1) - DaysBefore(year) - 337
    else [31, 0, 31, 30, 31, 30, 31, 31, 30, 31, 30, 31][month - 1]
  }

  lemma LastDayIs(year: int, month: int)
    requires 0 <= year && 1 <= month <= 12
    ensures DaysInMonth(year, month) == LastDay(year, month)
  {
    LeapDay(year);
    hide IsLeapYear, DaysBefore;
  }

  lemma LeapDay(year: int)
    requires 0 <= year
    ensures DaysBefore(year + 1) - DaysBefore(year) == if IsLeapYear(year) then 366 else 365
  {
    NextMultiple(year);
    NestedMultiples(year);
    hide Multiples;
  }

  lemma NextMultiple(y: int)
    requires 0 <= y
    ensures Multiples(y + 1, 4) - Multiples(y, 4) == if y % 4 == 0 then 1 else 0
    ensures Multiples(y + 1, 100) - Multiples(y, 100) == if y % 100 == 0 then 1 else 0
    ensures Multiples(y + 1, 400) - Multiples(y, 400) == if y % 400 == 0 then 1 else 0
  {
    Next4(y);
    Next100(y);
    Next400(y);
    assert y + 1 + 4 - 1 == y + 4 && y + 1 + 100 - 1 == y + 100 && y + 1 + 400 - 1 == y + 400;
  }

  lemma Next4(y: int)
    requires 0 <= y
    ensures (y + 4) / 4 - (y + 4 - 1) / 4 == if y % 4 == 0 then 1 else 0
  {
  }

  lemma Next100(y: int)
    requires 0 <= y
    ensures (y + 100) / 100 - (y + 100 - 1) / 100 == if y % 100 == 0 then 1 else 0
  {
  }

  lemma Next400(y: int)
    requires 0 <= y
    ensures (y + 400) / 400 - (y + 400 - 1) / 400 == if y % 400 == 0 then 1 else 0
  {
  }

  lemma NestedMultiples(y: int)
    requires 0 <= y
    ensures y % 400 == 0 ==> y % 100 == 0
    ensures y % 100 == 0 ==> y % 4 == 0
  {
    if y % 400 == 0 {
      HundredTimes(y, 4 * (y / 400));
    }
    if y % 100 == 0 {
      FourTimes(y, 25 * (y / 100));
    }
  }

  lemma HundredTimes(y: int, q: int)
    requires y == 100 * q
    ensures y % 100 == 0
  {
  }

  lemma FourTimes(y: int, q: int)
    requires y == 4 * q
    ensures y % 4 == 0
  {
  }

  /** A date's whole number: an optional sign and decimal digits. */
  function Part(id: string, record: Label, field: FieldName, columns: string): Result<int, Error> {
    match SignedNumber(Trim(columns))
    case None => Refused(id, record, field, columns)
    case Some(v) => Ok(v)
  }

  function Refused<T>(id: string, record: Label, field: FieldName, columns: string): Result<T, Error> {
    Err(InvalidField(Some(id), record, field, Trim(columns)))
  }

  /** Year, month, day, hour and minute in six columns each, then the seconds in
      columns 31-43: the first field that is no number is refused by name, and only
      then the first one out of range. */
  function DateMeans(line: string, record: Label, id: string): Result<DateTime, Error>
    requires |line| >= 60
  {
    var year :- Part(id, record, Year, line[0..6]);
    var month :- Part(id, record, Month, line[6..12]);
    var day :- Part(id, record, Day, line[12..18]);
    var hour :- Part(id, record, Hour, line[18..24]);
    var minute :- Part(id, record, Minute, line[24..30]);
    match ParseGpsSeconds(Trim(line[30..43]))
    case None => Refused(id, record, Second, line[30..43])
    case Some((second, fraction)) =>
      InRange(line, record, id, year, month, day, hour, minute, second, fraction)
  }

  function InRange(line: string, record: Label, id: string, year: int, month: int, day: int, hour: int, minute: int,
                   second: nat, fraction: SecondFraction): Result<DateTime, Error>
    requires |line| >= 60
  {
    if !(0 <= year <= 9999) then Refused(id, record, Year, line[0..6])
    else if !(1 <= month <= 12) then Refused(id, record, Month, line[6..12])
    else if !(1 <= day <= LastDay(year, month)) then Refused(id, record, Day, line[12..18])
    else if !(0 <= hour <= 23) then Refused(id, record, Hour, line[18..24])
    else if !(0 <= minute <= 59) then Refused(id, record, Minute, line[24..30])
    else if second > 59 then Refused(id, record, Second, line[30..43])
    else Ok(DateTime(year, month, day, hour, minute, second, fraction))
  }

  lemma {:induction false} DateFaults(line: string, record: Label, id: string)
    requires |line| >= 60
    ensures Err(DateFault(line, record, id, 0)) == Refused<DateTime>(id, record, Year, line[0..6])
    ensures Err(DateFault(line, record, id, 1)) == Refused<DateTime>(id, record, Month, line[6..12])
    ensures Err(DateFault(line, record, id, 2)) == Refused<DateTime>(id, record, Day, line[12..18])
    ensures Err(DateFault(line, record, id, 3)) == Refused<DateTime>(id, record, Hour, line[18..24])
    ensures Err(DateFault(line, record, id, 4)) == Refused<DateTime>(id, record, Minute, line[24..30])
    ensures Err(DateFault(line, record, id, 5)) == Refused<DateTime>(id, record, Second, line[30..43])
  {
    DateTexts(line);
    hide DateText, Trim;
  }

  lemma {:induction false} DateTexts(line: string)
    requires |line| >= 60
    ensures DateText(line, 0) == Trim(line[0..6]) && DateText(line, 1) == Trim(line[6..12])
    ensures DateText(line, 2) == Trim(line[12..18]) && DateText(line, 3) == Trim(line[18..24])
    ensures DateText(line, 4) == Trim(line[24..30]) && DateText(line, 5) == Trim(line[30..43])
  {
    ColumnsAre(line, 0, 6);
    ColumnsAre(line, 6, 12);
    ColumnsAre(line, 12, 18);
    ColumnsAre(line, 18, 24);
    ColumnsAre(line, 24, 30);
    ColumnsAre(line, 30, 43);
    hide Trim, TrimmedField;
  }

  lemma {:induction false} PartIs(line: string, record: Label, id: string, i: nat, columns: string)
    requires i < 5 && DateText(line, i) == Trim(columns)
    ensures DatePart(line, record, id, i) == Part(id, record, [Year, Month, Day, Hour, Minute][i], columns)
  {
    SignedIs(DateText(line, i));
    hide DateText, Trim, ParseI64, SignedNumber;
  }

  lemma {:induction false} RangeIs(line: string, record: Label, id: string, year: int, month: int, day: int, hour: int,
                                   minute: int, second: nat, fraction: SecondFraction)
    requires |line| >= 60
    ensures InRange(line, record, id, year, month, day, hour, minute, second, fraction) ==
      match CivilFault(year, month, day, hour, minute, second)
      case Some(at) => Err(DateFault(line, record, id, at))
      case None => Ok(DateTime(year, month, day, hour, minute, second, fraction))
  {
    DateFaults(line, record, id);
    if 0 <= year && 1 <= month <= 12 {
      LastDayIs(year, month);
    }
    hide DateFault, Refused, DaysInMonth, LastDay;
  }

  lemma {:induction false} DateReads(line: string, record: Label, id: string)
    requires |line| >= 60
    ensures ReadDate(line, record, id) == DateMeans(line, record, id)
  {
    DateTexts(line);
    DateFaults(line, record, id);
    PartIs(line, record, id, 0, line[0..6]);
    PartIs(line, record, id, 1, line[6..12]);
    PartIs(line, record, id, 2, line[12..18]);
    PartIs(line, record, id, 3, line[18..24]);
    PartIs(line, record, id, 4, line[24..30]);
    var texts := (Part(id, record, Year, line[0..6]), Part(id, record, Month, line[6..12]),
                  Part(id, record, Day, line[12..18]), Part(id, record, Hour, line[18..24]),
                  Part(id, record, Minute, line[24..30]), ParseGpsSeconds(Trim(line[30..43])));
    if texts.0.Ok? && texts.1.Ok? && texts.2.Ok? && texts.3.Ok? && texts.4.Ok? && texts.5.Some? {
      RangeIs(line, record, id, texts.0.value, texts.1.value, texts.2.value, texts.3.value, texts.4.value,
              texts.5.value.0, texts.5.value.1);
    }
    hide DateText, Trim, DatePart, Part, DateFault, Refused, ParseGpsSeconds, CivilFault, InRange;
  }

  /** A validity bound of a block that has none yet. */
  function ValidMeans(n: nat, line: string, s: State, record: Label): Result<State, Error>
    requires |line| >= 60 && s.current.Some? && record !in s.current.value.records
  {
    var b := s.current.value;
    match DateMeans(line, record, b.antenna.id)
    case Err(e) => Err(e)
    case Ok(date) =>
      Ok(s.(current := Some(b.(
        records := b.records[record := TrimEnd(line[..60])],
        antenna := if record == ValidFrom then b.antenna.(validFrom := Some(date))
                   else b.antenna.(validUntil := Some(date))))))
  }

  lemma {:induction false} ValidReads(n: nat, line: string, s: State, record: Label)
    requires record == ValidFrom || record == ValidUntil
    requires |line| >= 60 && s.current.Some? && record !in s.current.value.records
    ensures ReadValid(n, line, s, record) == ValidMeans(n, line, s, record)
  {
    DateReads(line, record, s.current.value.antenna.id);
    Unclaimed(s.current.value.records, record, line, Some(s.current.value.antenna.id));
    hide ClaimOnce, ReadDate, DateMeans, TrimEnd;
  }

  lemma ValidLayout(pf: Platform, n: nat, line: string, s: State)
    requires |line| >= 60 && s.current.Some?
    requires ValidFrom !in s.current.value.records && ValidUntil !in s.current.value.records
    ensures Labelled(line, "VALID FROM") ==> Step(pf, n, line, s) == ValidMeans(n, line, s, ValidFrom)
    ensures Labelled(line, "VALID UNTIL") ==> Step(pf, n, line, s) == ValidMeans(n, line, s, ValidUntil)
  {
    hide Step, ReadValid, ValidMeans, Labelled;
    Dispatch(pf, n, line, s);
    ValidReads(n, line, s, ValidFrom);
    ValidReads(n, line, s, ValidUntil);
  }

  // ----- phase-centre offsets -----

  /** A length stated in millimetres. */
  function Length(pf: Platform, id: Option<string>, name: FieldName, columns: string): Result<F64, Error> {
    match Number(pf, columns)
    case None => Err(InvalidField(id, NorthEastUp, name, Trim(columns)))
    case Some(mm) => Ok(pf.mul(mm, pf.mPerMm))
  }

  function Offset(pf: Platform, id: Option<string>, line: string): Result<Triple, Error>
    requires |line| >= 60
  {
    var north :- Length(pf, id, North, line[0..10]);
    var east :- Length(pf, id, East, line[10..20]);
    var up :- Length(pf, id, Up, line[20..30]);
    Ok(Triple(north, east, up))
  }

  /** North, east and up in ten columns each, in millimetres. A section states its
      offset once; the same record again says nothing, another one is refused. */
  function PcoMeans(pf: Platform, n: nat, line: string, s: State): Result<State, Error>
    requires |line| >= 60
  {
    var id := if s.current.Some? then Some(s.current.value.antenna.id) else None;
    if s.section.None? then Ok(s.(skips := s.skips + [Skip(n, Inconsistent(PcoOutsideSection))]))
    else if s.section.value.pcoBody.Some? then
      if s.section.value.pcoBody.value == TrimEnd(line[..60]) then Ok(s) else Err(RepeatedRecord(id, NorthEastUp))
    else
      var pco :- Offset(pf, id, line);
      Ok(s.(section := Some(s.section.value.(pco := Some(pco), pcoBody := Some(TrimEnd(line[..60]))))))
  }

  lemma {:induction false} PcoReads(pf: Platform, n: nat, line: string, s: State)
    requires |line| >= 60
    ensures ReadPco(pf, n, line, s) == PcoMeans(pf, n, line, s)
  {
    ColumnsAre(line, 0, 60);
    if s.section.Some? && s.section.value.pcoBody.None? {
      OffsetReads(pf, n, line, s);
    }
    hide TrimEnd, Body, Offset, PcoComponent;
  }

  lemma {:induction false} OffsetReads(pf: Platform, n: nat, line: string, s: State)
    requires |line| >= 60 && s.section.Some? && s.section.value.pcoBody.None?
    ensures ReadPco(pf, n, line, s) ==
      match Offset(pf, BlockId(s), line)
      case Err(e) => Err(e)
      case Ok(pco) => Ok(s.(section := Some(s.section.value.(pco := Some(pco), pcoBody := Some(Body(line))))))
  {
    hide Body, Length, PcoComponent, BlockId;
    LengthIs(pf, line, BlockId(s), 0, North);
    LengthIs(pf, line, BlockId(s), 10, East);
    LengthIs(pf, line, BlockId(s), 20, Up);
    var north := Length(pf, BlockId(s), North, line[0..10]);
    if north.Err? {
      assert Offset(pf, BlockId(s), line) == Err(north.error);
    } else if Length(pf, BlockId(s), East, line[10..20]).Err? {
    } else {
    }
  }

  lemma LengthIs(pf: Platform, line: string, id: Option<string>, start: nat, name: FieldName)
    requires start + 10 <= |line|
    ensures PcoComponent(pf, line, id, start, name) == Length(pf, id, name, line[start..start + 10])
  {
    ColumnsAre(line, start, start + 10);
    NumberIs(pf, line, start, start + 10);
    hide Trim, TrimmedField, Number, FortranF64;
  }

  lemma PcoLayout(pf: Platform, n: nat, line: string, s: State)
    requires |line| >= 60 && Labelled(line, "NORTH / EAST / UP")
    ensures Step(pf, n, line, s) == PcoMeans(pf, n, line, s)
  {
    hide Step, ReadPco, PcoMeans, Labelled;
    DispatchMore(pf, n, line, s);
    PcoReads(pf, n, line, s);
  }

  // ----- grid rows -----

  /** Columns `a` to `b` of a line, as far as it reaches. */
  function Cut(line: string, a: nat, b: nat): string
    requires a <= b
  {
    line[if a < |line| then a else |line|..if b < |line| then b else |line|]
  }

  lemma CutIs(pf: Platform, line: string, a: nat, b: nat)
    requires a <= b
    ensures RawField(line, a, b) == Cut(line, a, b)
    ensures Field(line, a, b) == if Trim(Cut(line, a, b)) == "" then None else Some(Trim(Cut(line, a, b)))
    ensures FortranF64(pf, line, a, b) == Number(pf, Cut(line, a, b))
    ensures Trim(Cut(line, a, b)) != "" ==> StrictF64(pf, Trim(Cut(line, a, b))) == Number(pf, Cut(line, a, b))
  {
    var cut := Cut(line, a, b);
    assert RawField(line, a, b) == cut;
    var t := Trim(cut);
    var _ := TrimWithin(cut);
    TrimTight(t);
    WithEIs(t);
    hide Trim, ReplaceD, WithE, RawField, Cut;
  }

  /** The field of index `k`: columns `9 + 8k` to `16 + 8k`. */
  function Cell(line: string, k: nat): string { Cut(line, 8 + 8 * k, 16 + 8 * k) }

  /** The field of index `k` holds a number. */
  predicate Holds(pf: Platform, line: string, k: nat) { 8 + 8 * k < |line| && Number(pf, Cell(line, k)).Some? }

  /** It is neither blank nor a number. */
  predicate Spoilt(pf: Platform, line: string, k: nat) {
    8 + 8 * k < |line| && Trim(Cell(line, k)) != "" && Number(pf, Cell(line, k)).None?
  }

  /** A number past the first needs a positive step, and every number a free position. */
  ghost predicate Fault(pf: Platform, step: F64, key: Option<F64>, occupied: set<(Option<F64>, nat)>, line: string, k: nat) {
    Holds(pf, line, k) && ((k > 0 && pf.sign(step) != Positive) || (key, k) in occupied)
  }

  ghost predicate Climbing(ks: seq<nat>) { forall i, j :: 0 <= i < j < |ks| ==> ks[i] < ks[j] }

  /** The numbers from field `from` on: their indices in rising order, and their values. */
  ghost predicate NumbersAre(pf: Platform, line: string, from: nat, values: seq<(nat, F64)>, ks: seq<nat>) {
    && Climbing(ks)
    && (forall k: nat :: k in ks <==> from <= k && Holds(pf, line, k))
    && |values| == |ks|
    && (forall i :: 0 <= i < |ks| ==>
          Holds(pf, line, ks[i]) && values[i] == (ks[i], Number(pf, Cell(line, ks[i])).value))
  }

  /** The reports of the fields from `from` on that are no numbers, in order. */
  ghost predicate ReportsAre(pf: Platform, n: nat, line: string, from: nat, skips: seq<Skip>, ks: seq<nat>) {
    && Climbing(ks)
    && (forall k: nat :: k in ks <==> from <= k && Spoilt(pf, line, k))
    && |skips| == |ks|
    && forall i :: 0 <= i < |ks| ==> skips[i] == Skip(n, MalformedField(Trim(Cell(line, ks[i]))))
  }

  /** A row is refused at its first fault and otherwise read in full. */
  ghost predicate RowMeans(pf: Platform, step: F64, key: Option<F64>, occupied: set<(Option<F64>, nat)>, n: nat,
                           line: string, from: nat, r: Result<Row, GridFault>)
  {
    match r
    case Err(f) =>
      exists k: nat ::
        && from <= k && Fault(pf, step, key, occupied, line, k)
        && (forall j: nat :: from <= j < k ==> !Fault(pf, step, key, occupied, line, j))
        && f == if k > 0 && pf.sign(step) != Positive then StepNotPositive(k) else PositionFilled(k)
    case Ok(row) =>
      && (forall k: nat :: from <= k ==> !Fault(pf, step, key, occupied, line, k))
      && (exists ks: seq<nat> :: NumbersAre(pf, line, from, row.values, ks))
      && (exists ks: seq<nat> :: ReportsAre(pf, n, line, from, row.skips, ks))
  }

  lemma {:induction false} RowValuesMean(pf: Platform, step: F64, key: Option<F64>, occupied: set<(Option<F64>, nat)>,
                                         n: nat, line: string, k: nat)
    ensures RowMeans(pf, step, key, occupied, n, line, k, RowValues(pf, step, key, occupied, n, line, k))
    decreases |line| - 8 * k
  {
    hide RowMeans, Fault, WithCell;
    if 8 + 8 * k >= |line| {
      PastTheEnd(pf, step, key, occupied, n, line, k);
    } else {
      var later := RowValues(pf, step, key, occupied, n, line, k + 1);
      RowValuesMean(pf, step, key, occupied, n, line, k + 1);
      CellIs(pf, step, key, occupied, n, line, k);
      hide RowValues;
      if !Fault(pf, step, key, occupied, line, k) {
        LaterMeans(pf, step, key, occupied, n, line, k, later);
      } else {
        FirstFault(pf, step, key, occupied, n, line, k);
      }
    }
  }

  lemma PastTheEnd(pf: Platform, step: F64, key: Option<F64>, occupied: set<(Option<F64>, nat)>, n: nat, line: string, k: nat)
    requires 8 + 8 * k >= |line|
    ensures RowMeans(pf, step, key, occupied, n, line, k, Ok(Row([], [])))
  {
    assert NumbersAre(pf, line, k, [], []);
    assert ReportsAre(pf, n, line, k, [], []);
  }

  /** One field, and what the reader makes of those after it. */
  lemma {:induction false} CellIs(pf: Platform, step: F64, key: Option<F64>, occupied: set<(Option<F64>, nat)>,
                                  n: nat, line: string, k: nat)
    requires 8 + 8 * k < |line|
    ensures RowValues(pf, step, key, occupied, n, line, k) ==
      if Fault(pf, step, key, occupied, line, k) then
        Err(if k > 0 && pf.sign(step) != Positive then StepNotPositive(k) else PositionFilled(k))
      else WithCell(pf, n, line, k, RowValues(pf, step, key, occupied, n, line, k + 1))
  {
    hide RowValues, Unfolded, Fault, WithCell;
    RowUnfolds(pf, step, key, occupied, n, line, k);
    UnfoldedIs(pf, step, key, occupied, n, line, k, RowValues(pf, step, key, occupied, n, line, k + 1));
  }

  lemma {:induction false} RowUnfolds(pf: Platform, step: F64, key: Option<F64>, occupied: set<(Option<F64>, nat)>,
                                      n: nat, line: string, k: nat)
    requires 8 + 8 * k < |line|
    ensures RowValues(pf, step, key, occupied, n, line, k) ==
      Unfolded(pf, step, key, occupied, n, line, k, RowValues(pf, step, key, occupied, n, line, k + 1))
  {
    hide Trim, StrictF64, Field;
  }

  lemma {:induction false} UnfoldedIs(pf: Platform, step: F64, key: Option<F64>, occupied: set<(Option<F64>, nat)>,
                                      n: nat, line: string, k: nat, later: Result<Row, GridFault>)
    requires 8 + 8 * k < |line|
    ensures Unfolded(pf, step, key, occupied, n, line, k, later) ==
      if Fault(pf, step, key, occupied, line, k) then
        Err(if k > 0 && pf.sign(step) != Positive then StepNotPositive(k) else PositionFilled(k))
      else WithCell(pf, n, line, k, later)
  {
    CellReads(pf, line, k);
    hide Trim, Number, StrictF64, Field, Cell;
  }

  ghost function Unfolded(pf: Platform, step: F64, key: Option<F64>, occupied: set<(Option<F64>, nat)>,
                          n: nat, line: string, k: nat, later: Result<Row, GridFault>): Result<Row, GridFault>
  {
    match Field(line, 8 + 8 * k, 16 + 8 * k)
    case None => later
    case Some(text) =>
      match StrictF64(pf, text)
      case Some(v) =>
        if k > 0 && pf.sign(step) != Positive then Err(StepNotPositive(k))
        else if (key, k) in occupied then Err(PositionFilled(k))
        else if later.Err? then later
        else Ok(Row([(k, v)] + later.value.values, later.value.skips))
      case None =>
        if later.Err? then later
        else Ok(Row(later.value.values, [Skip(n, MalformedField(text))] + later.value.skips))
  }

  ghost function WithCell(pf: Platform, n: nat, line: string, k: nat, later: Result<Row, GridFault>): Result<Row, GridFault> {
    match later
    case Err(f) => Err(f)
    case Ok(row) =>
      if Holds(pf, line, k) then Ok(Row([(k, Number(pf, Cell(line, k)).value)] + row.values, row.skips))
      else if Spoilt(pf, line, k) then Ok(Row(row.values, [Skip(n, MalformedField(Trim(Cell(line, k))))] + row.skips))
      else later
  }

  lemma {:induction false} FirstFault(pf: Platform, step: F64, key: Option<F64>, occupied: set<(Option<F64>, nat)>,
                                      n: nat, line: string, k: nat)
    requires Fault(pf, step, key, occupied, line, k)
    ensures RowMeans(pf, step, key, occupied, n, line, k,
      Err(if k > 0 && pf.sign(step) != Positive then StepNotPositive(k) else PositionFilled(k)))
  {
    hide Fault;
  }

  lemma {:induction false} LaterMeans(pf: Platform, step: F64, key: Option<F64>, occupied: set<(Option<F64>, nat)>,
                                      n: nat, line: string, k: nat, later: Result<Row, GridFault>)
    requires 8 + 8 * k < |line| && !Fault(pf, step, key, occupied, line, k)
    requires RowMeans(pf, step, key, occupied, n, line, k + 1, later)
    ensures RowMeans(pf, step, key, occupied, n, line, k, WithCell(pf, n, line, k, later))
  {
    hide Fault, Holds, Spoilt, NumbersAre, ReportsAre, Cell;
    if later.Err? {
      var at: nat :| k + 1 <= at && Fault(pf, step, key, occupied, line, at)
        && forall j: nat :: k + 1 <= j < at ==> !Fault(pf, step, key, occupied, line, j);
      assert forall j: nat :: k <= j < at ==> !Fault(pf, step, key, occupied, line, j);
    } else {
      var row := later.value;
      var ks: seq<nat> :| NumbersAre(pf, line, k + 1, row.values, ks);
      var bad: seq<nat> :| ReportsAre(pf, n, line, k + 1, row.skips, bad);
      HoldsOrSpoilt(pf, line, k);
      NumbersGrow(pf, line, k, row.values, ks);
      ReportsGrow(pf, n, line, k, row.skips, bad);
    }
  }

  lemma ClimbingGrows(ks: seq<nat>, k: nat)
    requires Climbing(ks) && forall j :: j in ks ==> k < j
    ensures Climbing([k] + ks)
  {
    assert forall i :: 0 <= i < |ks| ==> ks[i] in ks;
  }

  lemma HoldsOrSpoilt(pf: Platform, line: string, k: nat)
    ensures !(Holds(pf, line, k) && Spoilt(pf, line, k))
  {
  }

  lemma {:induction false} NumbersGrow(pf: Platform, line: string, k: nat, values: seq<(nat, F64)>, ks: seq<nat>)
    requires NumbersAre(pf, line, k + 1, values, ks)
    ensures if Holds(pf, line, k) then NumbersAre(pf, line, k, [(k, Number(pf, Cell(line, k)).value)] + values, [k] + ks)
            else NumbersAre(pf, line, k, values, ks)
  {
    assert Holds(pf, line, k) ==> Number(pf, Cell(line, k)).Some?;
    hide Holds, Cell, Number;
    assert forall i :: 0 <= i < |ks| ==> ks[i] in ks;
    ClimbingGrows(ks, k);
    hide Climbing;
  }

  lemma {:induction false} ReportsGrow(pf: Platform, n: nat, line: string, k: nat, skips: seq<Skip>, ks: seq<nat>)
    requires ReportsAre(pf, n, line, k + 1, skips, ks)
    ensures if Spoilt(pf, line, k) then
              ReportsAre(pf, n, line, k, [Skip(n, MalformedField(Trim(Cell(line, k))))] + skips, [k] + ks)
            else ReportsAre(pf, n, line, k, skips, ks)
  {
    hide Spoilt, Cell, Trim;
    assert forall i :: 0 <= i < |ks| ==> ks[i] in ks;
    ClimbingGrows(ks, k);
    hide Climbing;
  }

  lemma CellReads(pf: Platform, line: string, k: nat)
    ensures Field(line, 8 + 8 * k, 16 + 8 * k) == if Trim(Cell(line, k)) == "" then None else Some(Trim(Cell(line, k)))
    ensures Trim(Cell(line, k)) != "" ==> StrictF64(pf, Trim(Cell(line, k))) == Number(pf, Cell(line, k))
    ensures Trim(Cell(line, k)) == "" ==> Number(pf, Cell(line, k)).None?
  {
    CutIs(pf, line, 8 + 8 * k, 16 + 8 * k);
    hide Trim, StrictF64, Field, Cut;
  }

  // ----- the step of a grid row -----

  const LABELS := [
    "START OF ANTENNA", "END OF ANTENNA", "TYPE / SERIAL NO", "METH / BY / # / DATE", "METH / BY / DATE", "DAZI",
    "ZEN1 / ZEN2 / DZEN", "# OF FREQUENCIES", "SINEX CODE", "VALID FROM", "VALID UNTIL", "COMMENT",
    "ANTEX VERSION / SYST", "PCV TYPE / REFANT", "END OF HEADER", "START OF FREQUENCY", "START OF FREQ RMS",
    "END OF FREQUENCY", "END OF FREQ RMS", "NORTH / EAST / UP"]

  /** No record's label stands in columns 61-80. */
  predicate Unlabelled(line: string) { Trim(Cut(line, 60, 80)) !in LABELS }

  lemma Listed(l: Label)
    ensures l != GridRow ==> LabelText(l) in LABELS
  {
  }

  lemma {:induction false} NotLookedUp(tag: string, labels: seq<Label>)
    requires tag !in LABELS && GridRow !in labels
    ensures Lookup(tag, labels) == GridRow
  {
    hide LabelText;
    if labels != [] {
      Listed(labels[0]);
      hide LABELS;
      NotLookedUp(tag, labels[1..]);
    }
  }

  lemma NotListed(tag: string)
    requires tag !in LABELS
    ensures LabelOf(tag) == GridRow
  {
    NotLookedUp(tag, ALL_LABELS);
    assert LABELS[4] == "METH / BY / DATE";
    hide Lookup;
  }

  lemma UnlabelledStep(pf: Platform, n: nat, line: string, s: State)
    requires Unlabelled(line)
    ensures Step(pf, n, line, s) == ReadRow(pf, n, line, s)
    ensures Tag(line) == Trim(Cut(line, 60, 80))
  {
    hide LabelOf, LABELS, Cut, Trim;
    hide OpenBlock, EndBlock, ReadTypeSerial, ReadCalibration, ReadDazi, ReadZenith, ReadFrequencyCount, ReadSinex;
    hide ReadValid, ReadComment, ReadVersion, ReadPcvType, ReadEndOfHeader, BeginSection, EndSection, ReadPco, ReadRow;
    CutIs(pf, line, 60, 80);
    NotListed(Tag(line));
  }

  /** A row is headed by an azimuth, or by `NOAZI` for the values without one. */
  predicate Heads(pf: Platform, line: string, key: Option<F64>) {
    match key
    case None => Trim(Cut(line, 0, 8)) == "NOAZI"
    case Some(azimuth) => Trim(Cut(line, 0, 8)) != "NOAZI" && Number(pf, Cut(line, 0, 8)) == Some(azimuth)
  }

  /** A blank line says nothing; a line that is no record is reported, by its label
      outside a section and by its head inside one. */
  lemma StrayLayout(pf: Platform, n: nat, line: string, s: State)
    requires Unlabelled(line)
    ensures Trim(line) == "" ==> Step(pf, n, line, s) == Ok(s)
    ensures Trim(line) != "" && s.section.None? ==>
      Step(pf, n, line, s) == Ok(s.(skips := s.skips + [Skip(n, UnknownBlock(
        if Trim(Cut(line, 60, 80)) == "" then Trim(Cut(line, 0, 60)) else Trim(Cut(line, 60, 80))))]))
    ensures Trim(line) != "" && s.section.Some? && (forall key :: !Heads(pf, line, key)) ==>
      Step(pf, n, line, s) == Ok(s.(skips := s.skips + [Skip(n, MalformedField(Trim(Cut(line, 0, 8))))]))
  {
    UnlabelledStep(pf, n, line, s);
    CutIs(pf, line, 0, 60);
    CutIs(pf, line, 0, 8);
    hide Step, Unlabelled, Cut, Tag, Field, FortranF64, Number, AddPcvValues, Trim;
    assert !Heads(pf, line, None) ==> Trim(Cut(line, 0, 8)) != "NOAZI";
    if Number(pf, Cut(line, 0, 8)).Some? {
      assert Heads(pf, line, if Trim(Cut(line, 0, 8)) == "NOAZI" then None else Number(pf, Cut(line, 0, 8)));
    }
  }

  /** The values of a row as samples: at `ZEN1 + k * DZEN`, in meters. */
  ghost predicate SamplesAre(pf: Platform, g: ZenithGrid, key: Option<F64>, values: seq<(nat, F64)>, samples: seq<PcvSample>) {
    && |samples| == |values|
    && (forall i :: 0 <= i < |samples| ==>
          && samples[i].grid == (if key.Some? then Azimuth else NoAzimuth)
          && samples[i].azimuth == key
          && samples[i].zenith == (
               if pf.sign(g.step) == Zero then g.start else pf.add(g.start, pf.mul(g.step, pf.ofUsize(values[i].0))))
          && samples[i].value == pf.mul(values[i].1, pf.mPerMm))
  }

  /** What a row does to its section: its samples are appended, its positions filled,
      and its unreadable fields reported. */
  ghost predicate RowPlaced(pf: Platform, n: nat, line: string, g: ZenithGrid, key: Option<F64>, s: State,
                            r: Result<State, Error>)
    requires s.section.Some? && s.current.Some?
  {
    var sec := s.section.value;
    exists row: Result<Row, GridFault> ::
      && RowMeans(pf, g.step, key, sec.occupied, n, line, 0, row)
      && match row
         case Err(fault) => r == Err(DegenerateGrid(s.current.value.antenna.id, sec.freq, fault))
         case Ok(found) =>
           exists samples: seq<PcvSample> ::
             && SamplesAre(pf, g, key, found.values, samples)
             && r == Ok(s.(
                  section := Some(sec.(
                    samples := sec.samples + samples,
                    occupied := sec.occupied + set i | 0 <= i < |found.values| :: (key, found.values[i].0))),
                  skips := s.skips + found.skips))
  }

  lemma RowLayout(pf: Platform, n: nat, line: string, s: State, key: Option<F64>)
    requires Unlabelled(line) && Trim(line) != "" && Heads(pf, line, key)
    requires s.section.Some? && s.current.Some?
    ensures match s.current.value.antenna.grid
      case None =>
        Step(pf, n, line, s) == Err(DegenerateGrid(s.current.value.antenna.id, s.section.value.freq, NoGrid))
      case Some(g) => RowPlaced(pf, n, line, g, key, s, Step(pf, n, line, s))
  {
    HeadedStep(pf, n, line, s, key);
    hide Step, Unlabelled, Heads, RowPlaced, Trim;
    if s.current.value.antenna.grid.Some? {
      AddedPlaced(pf, n, line, s, key, s.current.value.antenna.grid.value);
    }
    hide RowValues;
  }

  lemma HeadedStep(pf: Platform, n: nat, line: string, s: State, key: Option<F64>)
    requires Unlabelled(line) && Trim(line) != "" && Heads(pf, line, key) && s.section.Some?
    ensures Step(pf, n, line, s) == AddPcvValues(pf, key, n, line, s)
  {
    UnlabelledStep(pf, n, line, s);
    CutIs(pf, line, 0, 8);
    hide Step, Unlabelled, Cut, Tag, Field, FortranF64, AddPcvValues, Trim;
  }

  lemma AddedPlaced(pf: Platform, n: nat, line: string, s: State, key: Option<F64>, g: ZenithGrid)
    requires s.section.Some? && s.current.Some? && s.current.value.antenna.grid == Some(g)
    ensures RowPlaced(pf, n, line, g, key, s, AddPcvValues(pf, key, n, line, s))
  {
    var sec := s.section.value;
    var row := RowValues(pf, g.step, key, sec.occupied, n, line, 0);
    RowValuesMean(pf, g.step, key, sec.occupied, n, line, 0);
    hide RowValues, RowMeans;
    if row.Ok? {
      assert SamplesAre(pf, g, key, row.value.values, Samples(pf, g, key, row.value.values));
    }
    hide SamplesAre, Samples;
  }
}
