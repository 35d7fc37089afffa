/** What each record's columns mean, stated on the line itself: its label in columns
    61-80 by its text, its fields by their columns, and the whole new state. */
module AntexLayout {
  import opened Text
  import opened Decimal
  import opened Seconds
  import opened SecondsField
  import opened AntexTypes
  import opened AntexReader

  /** The line carries that label in columns 61-80. */
  predicate Labelled(line: string, label_: string) {
    |line| >= 60 && Trim(line[60..if |line| < 80 then |line| else 80]) == label_
  }

  /** Every label and the record it stands for. */
  lemma Labels()
    ensures LabelOf("START OF ANTENNA") == StartOfAntenna && LabelOf("END OF ANTENNA") == EndOfAntenna
    ensures LabelOf("TYPE / SERIAL NO") == TypeSerial && LabelOf("DAZI") == Dazi
    ensures LabelOf("METH / BY / # / DATE") == Meth && LabelOf("METH / BY / DATE") == Meth
    ensures LabelOf("ZEN1 / ZEN2 / DZEN") == Zenith && LabelOf("# OF FREQUENCIES") == FrequencyCount
    ensures LabelOf("SINEX CODE") == Sinex && LabelOf("VALID FROM") == ValidFrom && LabelOf("VALID UNTIL") == ValidUntil
    ensures LabelOf("COMMENT") == Comment && LabelOf("ANTEX VERSION / SYST") == Version
    ensures LabelOf("PCV TYPE / REFANT") == PcvTypeRefant && LabelOf("END OF HEADER") == EndOfHeader
    ensures LabelOf("START OF FREQUENCY") == StartOfFrequency && LabelOf("START OF FREQ RMS") == StartOfRms
    ensures LabelOf("END OF FREQUENCY") == EndOfFrequency && LabelOf("END OF FREQ RMS") == EndOfRms
    ensures LabelOf("NORTH / EAST / UP") == NorthEastUp && LabelOf("") == GridRow
  {
    hide LabelOf;
    Named(StartOfAntenna);
    Named(EndOfAntenna);
    Named(TypeSerial);
    Named(Dazi);
    Named(Meth);
    Named(Zenith);
    Named(FrequencyCount);
    Named(Sinex);
    Named(ValidFrom);
    Named(ValidUntil);
    Named(Comment);
    Named(Version);
    Named(PcvTypeRefant);
    Named(EndOfHeader);
    Named(StartOfFrequency);
    Named(StartOfRms);
    Named(EndOfFrequency);
    Named(EndOfRms);
    Named(NorthEastUp);
    OlderMeth();
    LabelOfNumeric("");
  }

  lemma Named(l: Label)
    requires l != GridRow
    ensures LabelOf(LabelText(l)) == l
  {
    LabelOfText(l);
  }

  lemma OlderMeth()
    ensures LabelOf("METH / BY / DATE") == Meth
  {
  }

  lemma TagIs(line: string, label_: string)
    requires Labelled(line, label_)
    ensures Tag(line) == label_
  {
    hide Trim;
    assert RawField(line, 60, 80) == line[60..if |line| < 80 then |line| else 80];
  }

  /** A line's columns are cut at those places, and its body ends before column 61. */
  lemma ColumnsAre(line: string, a: nat, b: nat)
    requires a <= b <= |line|
    ensures RawField(line, a, b) == line[a..b]
    ensures TrimmedField(line, a, b) == Trim(line[a..b])
    ensures Field(line, a, b) == if Trim(line[a..b]) == "" then None else Some(Trim(line[a..b]))
    ensures b == 60 && a == 0 ==> Body(line) == TrimEnd(line[..60])
  {
    hide Trim, TrimEnd;
    assert RawField(line, a, b) == line[a..b];
  }

  /** A number's columns: blank, or what the platform reads once `D` and `d` stand for
      `e`, if that is finite. */
  function Number(pf: Platform, columns: string): Option<F64> {
    if Trim(columns) == "" then None
    else
      match pf.parse(WithE(Trim(columns)))
      case None => None
      case Some(v) => if pf.finite(v) then Some(v) else None
  }

  function WithE(s: string): string {
    if s == "" then ""
    else [if s[0] == 'D' || s[0] == 'd' then 'e' else s[0]] + WithE(s[1..])
  }

  lemma {:induction false} WithEIs(s: string)
    ensures WithE(s) == ReplaceD(s)
  {
    if s != "" {
      WithEIs(s[1..]);
      assert ReplaceD(s) == [ReplaceD(s)[0]] + ReplaceD(s[1..]);
    } else {
      assert ReplaceD("") == "";
    }
  }

  lemma NumberIs(pf: Platform, line: string, a: nat, b: nat)
    requires a <= b <= |line|
    ensures FortranF64(pf, line, a, b) == Number(pf, line[a..b])
    ensures StrictF64(pf, line[a..b]) == Number(pf, line[a..b])
  {
    ColumnsAre(line, a, b);
    var t := Trim(line[a..b]);
    var _ := TrimWithin(line[a..b]);
    TrimTight(t);
    WithEIs(t);
    hide Trim, ReplaceD, WithE, RawField;
  }

  /** A whole number: decimal digits, at most `max`, with an optional plus sign. */
  function WholeNumber(text: string, max: nat): Option<nat> {
    var digits := if text != "" && text[0] == '+' then text[1..] else text;
    if digits == "" || !AllDigits(digits) || Value(digits) > max then None else Some(Value(digits))
  }

  /** A whole number of either sign, in 64 bits. */
  function SignedNumber(text: string): Option<int> {
    if text != "" && text[0] == '-' then
      if |text| > 1 && AllDigits(text[1..]) && Value(text[1..]) <= 9223372036854775808 then Some(0 - Value(text[1..])) else None
    else
      match WholeNumber(text, 9223372036854775807)
      case None => None
      case Some(n) => Some(n)
  }

  lemma SignedIs(text: string)
    ensures ParseI64(text) == SignedNumber(text)
  {
  }

  lemma CountIs(columns: string, max: nat)
    ensures StrictUnsigned(columns, max) == WholeNumber(Trim(columns), max)
    ensures StrictUnsigned(Trim(columns), max) == WholeNumber(Trim(columns), max)
  {
    var _ := TrimWithin(columns);
    TrimTight(Trim(columns));
    hide Trim;
  }

  // ----- identity -----

  predicate SatelliteSerial(serial: string) {
    |serial| == 3 && 'A' <= serial[0] <= 'Z' && '0' <= serial[1] <= '9' && '0' <= serial[2] <= '9'
  }

  /** A block's identity: the type in columns 1-20, the serial number in 21-40, the
      whole of columns 1-60 as its id, and a satellite exactly for a capital letter and
      two digits. */
  lemma IdentityLayout(pf: Platform, n: nat, line: string, s: State)
    requires Labelled(line, "TYPE / SERIAL NO")
    requires s.current.Some? && !s.current.value.identified && TypeSerial !in s.current.value.records
    ensures Step(pf, n, line, s).Ok?
    ensures var b, s' := s.current.value, Step(pf, n, line, s).value;
      s' == s.(current := Some(b.(
        identified := true,
        records := b.records[TypeSerial := TrimEnd(line[..60])],
        antenna := b.antenna.(
          id := Trim(line[0..60]),
          antennaType := Trim(line[0..20]),
          serial := Trim(line[20..40]),
          kind := if SatelliteSerial(Trim(line[20..40])) then Satellite else Receiver))))
  {
    TagIs(line, "TYPE / SERIAL NO");
    Labels();
    ColumnsAre(line, 0, 60);
    ColumnsAre(line, 0, 20);
    ColumnsAre(line, 20, 40);
    hide Tag, LabelOf, Trim, TrimEnd, Body, TrimmedField, RawField, Field;
    IdentityStep(pf, n, line, s);
  }

  lemma IdentityStep(pf: Platform, n: nat, line: string, s: State)
    requires LabelOf(Tag(line)) == TypeSerial && s.current.Some? && !s.current.value.identified
    requires TypeSerial !in s.current.value.records
    ensures var b := s.current.value;
      Step(pf, n, line, s) == Ok(s.(current := Some(b.(
        identified := true,
        records := b.records[TypeSerial := Body(line)],
        antenna := b.antenna.(
          id := TrimmedField(line, 0, 60),
          antennaType := TrimmedField(line, 0, 20),
          serial := TrimmedField(line, 20, 40),
          kind := if SatelliteSerial(TrimmedField(line, 20, 40)) then Satellite else Receiver)))))
  {
    hide Tag, LabelOf, TrimmedField, Body;
  }

  /** In particular a type and a serial number that fit their columns are stored as
      they are. */
  lemma IdentityReadsBack(pf: Platform, n: nat, kind: string, serial: string, rest: string, s: State)
    requires |kind| <= 20 && |serial| <= 20 && |rest| <= 20 && Tight(kind) && Tight(serial)
    requires s.current.Some? && !s.current.value.identified && TypeSerial !in s.current.value.records
    ensures var line := Pad(kind, 20) + Pad(serial, 20) + Pad(rest, 20) + "TYPE / SERIAL NO";
      && Step(pf, n, line, s).Ok?
      && var b := Step(pf, n, line, s).value.current;
         && b.Some? && b.value.identified
         && b.value.antenna.antennaType == kind && b.value.antenna.serial == serial
         && (b.value.antenna.kind == Satellite <==> SatelliteSerial(serial))
  {
    var line := Pad(kind, 20) + Pad(serial, 20) + Pad(rest, 20) + "TYPE / SERIAL NO";
    assert line[0..20] == Pad(kind, 20) && line[20..40] == Pad(serial, 20);
    assert line[60..76] == "TYPE / SERIAL NO" && |line| == 76;
    TrimTight("TYPE / SERIAL NO");
    assert Labelled(line, "TYPE / SERIAL NO");
    TrimPad(kind, 20);
    TrimPad(serial, 20);
    hide Labelled, Step, Trim, TrimEnd, Pad;
    IdentityLayout(pf, n, line, s);
  }

  // ----- dispatch -----

  /** Each label's line is read as that record. */
  lemma Dispatch(pf: Platform, n: nat, line: string, s: State)
    ensures Labelled(line, "START OF ANTENNA") ==> Step(pf, n, line, s) == OpenBlock(n, s)
    ensures Labelled(line, "END OF ANTENNA") ==> Step(pf, n, line, s) == EndBlock(n, s)
    ensures Labelled(line, "METH / BY / # / DATE") ==> Step(pf, n, line, s) == Ok(ReadCalibration(n, line, s))
    ensures Labelled(line, "METH / BY / DATE") ==> Step(pf, n, line, s) == Ok(ReadCalibration(n, line, s))
    ensures Labelled(line, "DAZI") ==> Step(pf, n, line, s) == ReadDazi(pf, n, line, s)
    ensures Labelled(line, "ZEN1 / ZEN2 / DZEN") ==> Step(pf, n, line, s) == ReadZenith(pf, n, line, s)
    ensures Labelled(line, "# OF FREQUENCIES") ==> Step(pf, n, line, s) == ReadFrequencyCount(n, line, s)
    ensures Labelled(line, "SINEX CODE") ==> Step(pf, n, line, s) == ReadSinex(n, line, s)
    ensures Labelled(line, "VALID FROM") ==> Step(pf, n, line, s) == ReadValid(n, line, s, ValidFrom)
    ensures Labelled(line, "VALID UNTIL") ==> Step(pf, n, line, s) == ReadValid(n, line, s, ValidUntil)
  {
    hide Labelled, Tag, LabelOf, OpenBlock, EndBlock, ReadTypeSerial, ReadCalibration, ReadDazi, ReadZenith;
    hide ReadFrequencyCount, ReadSinex, ReadValid, ReadComment, ReadVersion, ReadPcvType, ReadEndOfHeader;
    hide BeginSection, EndSection, ReadPco, ReadRow;
    Labels();
    TagWhenLabelled(line, "START OF ANTENNA");
    TagWhenLabelled(line, "END OF ANTENNA");
    TagWhenLabelled(line, "METH / BY / # / DATE");
    TagWhenLabelled(line, "METH / BY / DATE");
    TagWhenLabelled(line, "DAZI");
    TagWhenLabelled(line, "ZEN1 / ZEN2 / DZEN");
    TagWhenLabelled(line, "# OF FREQUENCIES");
    TagWhenLabelled(line, "SINEX CODE");
    TagWhenLabelled(line, "VALID FROM");
    TagWhenLabelled(line, "VALID UNTIL");
  }

  lemma DispatchMore(pf: Platform, n: nat, line: string, s: State)
    ensures Labelled(line, "COMMENT") ==> Step(pf, n, line, s) == Ok(ReadComment(line, s))
    ensures Labelled(line, "ANTEX VERSION / SYST") ==> Step(pf, n, line, s) == ReadVersion(pf, n, line, s)
    ensures Labelled(line, "PCV TYPE / REFANT") ==> Step(pf, n, line, s) == ReadPcvType(n, line, s)
    ensures Labelled(line, "END OF HEADER") ==> Step(pf, n, line, s) == Ok(ReadEndOfHeader(n, s))
    ensures Labelled(line, "START OF FREQUENCY") ==> Step(pf, n, line, s) == BeginSection(n, line, s, Values)
    ensures Labelled(line, "START OF FREQ RMS") ==> Step(pf, n, line, s) == BeginSection(n, line, s, Rms)
    ensures Labelled(line, "END OF FREQUENCY") ==> Step(pf, n, line, s) == EndSection(n, line, s, Values)
    ensures Labelled(line, "END OF FREQ RMS") ==> Step(pf, n, line, s) == EndSection(n, line, s, Rms)
    ensures Labelled(line, "NORTH / EAST / UP") ==> Step(pf, n, line, s) == ReadPco(pf, n, line, s)
    ensures Labelled(line, "") ==> Step(pf, n, line, s) == ReadRow(pf, n, line, s)
  {
    hide Labelled, Tag, LabelOf, OpenBlock, EndBlock, ReadTypeSerial, ReadCalibration, ReadDazi, ReadZenith;
    hide ReadFrequencyCount, ReadSinex, ReadValid, ReadComment, ReadVersion, ReadPcvType, ReadEndOfHeader;
    hide BeginSection, EndSection, ReadPco, ReadRow;
    Labels();
    TagWhenLabelled(line, "COMMENT");
    TagWhenLabelled(line, "ANTEX VERSION / SYST");
    TagWhenLabelled(line, "PCV TYPE / REFANT");
    TagWhenLabelled(line, "END OF HEADER");
    TagWhenLabelled(line, "START OF FREQUENCY");
    TagWhenLabelled(line, "START OF FREQ RMS");
    TagWhenLabelled(line, "END OF FREQUENCY");
    TagWhenLabelled(line, "END OF FREQ RMS");
    TagWhenLabelled(line, "NORTH / EAST / UP");
    TagWhenLabelled(line, "");
  }

  lemma TagWhenLabelled(line: string, label_: string)
    ensures Labelled(line, label_) ==> Tag(line) == label_
  {
    if Labelled(line, label_) {
      TagIs(line, label_);
    }
  }

  // ----- block records -----

  lemma Unclaimed(records: map<Label, string>, record: Label, line: string, id: Option<string>)
    requires record !in records && |line| >= 60
    ensures ClaimOnce(records, record, line, id) == Ok(First(records[record := TrimEnd(line[..60])]))
  {
    ColumnsAre(line, 0, 60);
    hide TrimEnd, Body;
  }

  /** Method in columns 1-20, agency in 21-40, number of antennas in 41-46, date in
      51-60; an unreadable number is reported and left out. */
  function CalibrationMeans(n: nat, line: string, s: State): Result<State, Error>
    requires |line| >= 60
    requires s.current.Some?
  {
    var b, text := s.current.value, Trim(line[40..46]);
    var count := if text == "" then None else WholeNumber(text, 4294967295);
    var calibration := Calibration(TrimEnd(line[0..20]), TrimEnd(line[20..40]), count, TrimEnd(line[50..60]));
    Ok(s.(
      skips := s.skips + if text != "" && count.None? then [Skip(n, MalformedField(text))] else [],
      current := Some(b.(antenna := b.antenna.(calibrations := b.antenna.calibrations + [calibration])))))
  }

  lemma {:induction false} CalibrationReads(n: nat, line: string, s: State)
    requires |line| >= 60
    requires s.current.Some?
    ensures Ok(ReadCalibration(n, line, s)) == CalibrationMeans(n, line, s)
  {
    ColumnsAre(line, 0, 20);
    ColumnsAre(line, 20, 40);
    ColumnsAre(line, 40, 46);
    ColumnsAre(line, 50, 60);
    hide Trim, TrimEnd, Body, TrimmedField, RawField, Field, Number, FortranF64, StrictF64;
    CountIs(line[40..46], 4294967295);
    hide StrictUnsigned, WholeNumber;
    assert s.skips + [] == s.skips;
  }

  lemma CalibrationLayout(pf: Platform, n: nat, line: string, s: State)
    requires Labelled(line, "METH / BY / # / DATE") || Labelled(line, "METH / BY / DATE")
    requires |line| >= 60
    requires s.current.Some?
    ensures Step(pf, n, line, s) == CalibrationMeans(n, line, s)
  {
    hide Step, ReadCalibration, CalibrationMeans, Labelled;
    Dispatch(pf, n, line, s);
    CalibrationReads(n, line, s);
  }

  /** The angle in columns 3-8, or in 1-8 when the first two are not blank. */
  function DaziMeans(pf: Platform, n: nat, line: string, s: State): Result<State, Error>
    requires |line| >= 60
    requires s.current.Some? && Dazi !in s.current.value.records
  {
    var b, columns := s.current.value, if line[0..2] == "  " then line[2..8] else line[0..8];
    match Number(pf, columns)
    case None => Err(InvalidField(Some(b.antenna.id), Dazi, DaziAngle, Trim(columns)))
    case Some(v) =>
      Ok(s.(current := Some(b.(
        records := b.records[Dazi := TrimEnd(line[..60])], antenna := b.antenna.(dazi := Some(v))))))
  }

  lemma {:induction false} DaziReads(pf: Platform, n: nat, line: string, s: State)
    requires |line| >= 60
    requires s.current.Some? && Dazi !in s.current.value.records
    ensures ReadDazi(pf, n, line, s) == DaziMeans(pf, n, line, s)
  {
    ColumnsAre(line, 0, 60);
    ColumnsAre(line, 0, 2);
    ColumnsAre(line, 2, 8);
    ColumnsAre(line, 0, 8);
    NumberIs(pf, line, 2, 8);
    NumberIs(pf, line, 0, 8);
    Unclaimed(s.current.value.records, Dazi, line, Some(s.current.value.antenna.id));
    hide ClaimOnce;
    hide Trim, TrimEnd, Body, TrimmedField, RawField, Field, Number, FortranF64, StrictF64;
  }

  lemma DaziLayout(pf: Platform, n: nat, line: string, s: State)
    requires Labelled(line, "DAZI")
    requires |line| >= 60
    requires s.current.Some? && Dazi !in s.current.value.records
    ensures Step(pf, n, line, s) == DaziMeans(pf, n, line, s)
  {
    hide Step, ReadDazi, DaziMeans, Labelled;
    Dispatch(pf, n, line, s);
    DaziReads(pf, n, line, s);
  }

  /** A bound of the zenith grid. */
  function Bound(pf: Platform, id: string, name: FieldName, columns: string): Result<F64, Error> {
    match Number(pf, columns)
    case None => Err(InvalidField(Some(id), Zenith, name, Trim(columns)))
    case Some(v) => Ok(v)
  }

  lemma BoundIs(pf: Platform, line: string, b: Block, start: nat, name: FieldName)
    requires start + 6 <= |line|
    ensures ZenithField(pf, line, b, start, name) == Bound(pf, b.antenna.id, name, line[start..start + 6])
  {
    ColumnsAre(line, start, start + 6);
    NumberIs(pf, line, start, start + 6);
    hide Trim, TrimmedField, Number, FortranF64;
  }

  /** ZEN1 in columns 3-8, ZEN2 in 9-14, DZEN in 15-20, each refused by name. */
  function ZenithMeans(pf: Platform, n: nat, line: string, s: State): Result<State, Error>
    requires |line| >= 60
    requires s.current.Some? && Zenith !in s.current.value.records
  {
    var b := s.current.value;
    var start :- Bound(pf, b.antenna.id, Zen1, line[2..8]);
    var end :- Bound(pf, b.antenna.id, Zen2, line[8..14]);
    var step :- Bound(pf, b.antenna.id, Dzen, line[14..20]);
    Ok(s.(current := Some(b.(
      records := b.records[Zenith := TrimEnd(line[..60])],
      antenna := b.antenna.(grid := Some(ZenithGrid(start, end, step)))))))
  }

  lemma {:induction false} ZenithReads(pf: Platform, n: nat, line: string, s: State)
    requires |line| >= 60
    requires s.current.Some? && Zenith !in s.current.value.records
    ensures ReadZenith(pf, n, line, s) == ZenithMeans(pf, n, line, s)
  {
    hide ClaimOnce, ZenithField, Bound, TrimEnd;
    var b := s.current.value;
    BoundIs(pf, line, b, 2, Zen1);
    BoundIs(pf, line, b, 8, Zen2);
    BoundIs(pf, line, b, 14, Dzen);
    Unclaimed(b.records, Zenith, line, Some(b.antenna.id));
    if Bound(pf, b.antenna.id, Zen1, line[2..8]).Err? {
    } else if Bound(pf, b.antenna.id, Zen2, line[8..14]).Err? {
    } else if Bound(pf, b.antenna.id, Dzen, line[14..20]).Err? {
    } else {
    }
  }

  lemma ZenithLayout(pf: Platform, n: nat, line: string, s: State)
    requires Labelled(line, "ZEN1 / ZEN2 / DZEN")
    requires |line| >= 60
    requires s.current.Some? && Zenith !in s.current.value.records
    ensures Step(pf, n, line, s) == ZenithMeans(pf, n, line, s)
  {
    hide Step, ReadZenith, ZenithMeans, Labelled;
    Dispatch(pf, n, line, s);
    ZenithReads(pf, n, line, s);
  }

  /** The count in columns 1-6; an unreadable one is reported and still counts as stated. */
  function CountMeans(n: nat, line: string, s: State): Result<State, Error>
    requires |line| >= 60
    requires s.current.Some? && FrequencyCount !in s.current.value.records
  {
    var b, text := s.current.value, Trim(line[0..6]);
    var count := if text == "" then None else WholeNumber(text, 18446744073709551615);
    Ok(s.(
      skips := s.skips + if count.None? then [Skip(n, MalformedField(text))] else [],
      current := Some(b.(
        records := b.records[FrequencyCount := TrimEnd(line[..60])],
        antenna := b.antenna.(hasFrequencyCount := true),
        declared := if count.Some? then count else b.declared))))
  }

  lemma {:induction false} CountReads(n: nat, line: string, s: State)
    requires |line| >= 60
    requires s.current.Some? && FrequencyCount !in s.current.value.records
    ensures ReadFrequencyCount(n, line, s) == CountMeans(n, line, s)
  {
    ColumnsAre(line, 0, 60);
    ColumnsAre(line, 0, 6);
    Unclaimed(s.current.value.records, FrequencyCount, line, Some(s.current.value.antenna.id));
    hide ClaimOnce;
    hide Trim, TrimEnd, Body, TrimmedField, RawField, Field, Number, FortranF64, StrictF64;
    CountIs(line[0..6], 18446744073709551615);
    hide StrictUnsigned, WholeNumber;
    assert s.skips + [] == s.skips;
  }

  lemma CountLayout(pf: Platform, n: nat, line: string, s: State)
    requires Labelled(line, "# OF FREQUENCIES")
    requires |line| >= 60
    requires s.current.Some? && FrequencyCount !in s.current.value.records
    ensures Step(pf, n, line, s) == CountMeans(n, line, s)
  {
    hide Step, ReadFrequencyCount, CountMeans, Labelled;
    Dispatch(pf, n, line, s);
    CountReads(n, line, s);
  }

  /** The code in columns 1-60; a blank one states nothing. */
  function SinexMeans(n: nat, line: string, s: State): Result<State, Error>
    requires |line| >= 60
    requires s.current.Some? && Sinex !in s.current.value.records
  {
    var b, code := s.current.value, Trim(line[0..60]);
    Ok(s.(current := Some(b.(
      records := b.records[Sinex := TrimEnd(line[..60])],
      antenna := if code == "" then b.antenna else b.antenna.(sinex := Some(code))))))
  }

  lemma {:induction false} SinexReads(n: nat, line: string, s: State)
    requires |line| >= 60
    requires s.current.Some? && Sinex !in s.current.value.records
    ensures ReadSinex(n, line, s) == SinexMeans(n, line, s)
  {
    ColumnsAre(line, 0, 60);
    Unclaimed(s.current.value.records, Sinex, line, Some(s.current.value.antenna.id));
    hide ClaimOnce;
    hide Trim, TrimEnd, Body, TrimmedField, RawField, Field, Number, FortranF64, StrictF64;
  }

  lemma SinexLayout(pf: Platform, n: nat, line: string, s: State)
    requires Labelled(line, "SINEX CODE")
    requires |line| >= 60
    requires s.current.Some? && Sinex !in s.current.value.records
    ensures Step(pf, n, line, s) == SinexMeans(n, line, s)
  {
    hide Step, ReadSinex, SinexMeans, Labelled;
    Dispatch(pf, n, line, s);
    SinexReads(n, line, s);
  }

  /** A comment's text in columns 1-60 belongs to the open block, before or after its
      identity, to the header before its end, or to the place between blocks. */
  function CommentMeans(line: string, s: State): Result<State, Error>
    requires |line| >= 60
  {
    var text := TrimEnd(line[..60]);
    match s.current
    case Some(b) =>
      var a := b.antenna;
      Ok(s.(current := Some(b.(antenna :=
        if b.identified then a.(comments := a.comments + [text])
        else a.(leadingComments := a.leadingComments + [text])))))
    case None =>
      if s.blockSeen || s.header.endOfHeader then
        Ok(s.(outerComments := s.outerComments + [OuterComment(|s.blockOrder|, text)]))
      else Ok(s.(header := s.header.(comments := s.header.comments + [text])))
  }

  lemma {:induction false} CommentReads(line: string, s: State)
    requires |line| >= 60
    ensures Ok(ReadComment(line, s)) == CommentMeans(line, s)
  {
    ColumnsAre(line, 0, 60);
    hide Trim, TrimEnd, Body, TrimmedField, RawField, Field, Number, FortranF64, StrictF64;
  }

  lemma CommentLayout(pf: Platform, n: nat, line: string, s: State)
    requires Labelled(line, "COMMENT")
    requires |line| >= 60
    ensures Step(pf, n, line, s) == CommentMeans(line, s)
  {
    hide Step, ReadComment, CommentMeans, Labelled;
    DispatchMore(pf, n, line, s);
    CommentReads(line, s);
  }

  // ----- header records -----

  /** The version in columns 1-8 and the system in column 21; reported when the header
      was over. */
  function VersionMeans(pf: Platform, n: nat, line: string, s: State): Result<State, Error>
    requires |line| >= 60
    requires Version !in s.headerRecords
  {
    match Number(pf, line[0..8])
    case None => Err(InvalidField(None, Version, VersionNumber, Trim(line[0..8])))
    case Some(v) =>
      Ok(s.(
        skips := s.skips + if s.blockSeen || s.header.endOfHeader then [Skip(n, Inconsistent(MisplacedHeader))] else [],
        headerRecords := s.headerRecords[Version := TrimEnd(line[..60])],
        header := s.header.(version := Some(AntexVersion(v, if line[20] == ' ' then None else Some(line[20]))))))
  }

  lemma {:induction false} VersionReads(pf: Platform, n: nat, line: string, s: State)
    requires |line| >= 60
    requires Version !in s.headerRecords
    ensures ReadVersion(pf, n, line, s) == VersionMeans(pf, n, line, s)
  {
    ColumnsAre(line, 0, 60);
    ColumnsAre(line, 0, 8);
    ColumnsAre(line, 20, 21);
    NumberIs(pf, line, 0, 8);
    Unclaimed(s.headerRecords, Version, line, None);
    hide ClaimOnce;
    hide Trim, TrimEnd, Body, TrimmedField, RawField, Field, Number, FortranF64, StrictF64;
    assert s.skips + [] == s.skips;
  }

  lemma VersionLayout(pf: Platform, n: nat, line: string, s: State)
    requires Labelled(line, "ANTEX VERSION / SYST")
    requires |line| >= 60
    requires Version !in s.headerRecords
    ensures Step(pf, n, line, s) == VersionMeans(pf, n, line, s)
  {
    hide Step, ReadVersion, VersionMeans, Labelled;
    DispatchMore(pf, n, line, s);
    VersionReads(pf, n, line, s);
  }

  /** Absolute or relative in column 1, the reference antenna's type in 21-40 and its
      serial number in 41-60. */
  function PcvTypeMeans(n: nat, line: string, s: State): Result<State, Error>
    requires |line| >= 60
    requires PcvTypeRefant !in s.headerRecords
  {
    if line[0] != 'A' && line[0] != 'R' then Err(InvalidField(None, PcvTypeRefant, PcvTypeFlag, Trim(line[0..1])))
    else
      Ok(s.(
        skips := s.skips + if s.blockSeen || s.header.endOfHeader then [Skip(n, Inconsistent(MisplacedHeader))] else [],
        headerRecords := s.headerRecords[PcvTypeRefant := TrimEnd(line[..60])],
        header := s.header.(pcvType := Some(PcvTypeRecord(
          if line[0] == 'A' then Absolute else Relative, Trim(line[20..40]), Trim(line[40..60]))))))
  }

  lemma FlagIs(line: string)
    requires line != ""
    ensures (line[0..1] == "A" <==> line[0] == 'A') && (line[0..1] == "R" <==> line[0] == 'R')
  {
    assert line[0..1] == [line[0]];
  }

  lemma {:induction false} PcvTypeReads(n: nat, line: string, s: State)
    requires |line| >= 60
    requires PcvTypeRefant !in s.headerRecords
    ensures ReadPcvType(n, line, s) == PcvTypeMeans(n, line, s)
  {
    ColumnsAre(line, 0, 60);
    ColumnsAre(line, 0, 1);
    ColumnsAre(line, 20, 40);
    ColumnsAre(line, 40, 60);
    Unclaimed(s.headerRecords, PcvTypeRefant, line, None);
    FlagIs(line);
    hide ClaimOnce;
    hide Trim, TrimEnd, Body, TrimmedField, RawField, Field, Number, FortranF64, StrictF64;
    assert s.skips + [] == s.skips;
  }

  lemma PcvTypeLayout(pf: Platform, n: nat, line: string, s: State)
    requires Labelled(line, "PCV TYPE / REFANT")
    requires |line| >= 60
    requires PcvTypeRefant !in s.headerRecords
    ensures Step(pf, n, line, s) == PcvTypeMeans(n, line, s)
  {
    hide Step, ReadPcvType, PcvTypeMeans, Labelled;
    DispatchMore(pf, n, line, s);
    PcvTypeReads(n, line, s);
  }

  /** The end of the header, reported when a block came before it. */
  function EndOfHeaderMeans(n: nat, line: string, s: State): Result<State, Error>
    requires |line| >= 60
  {
    Ok(s.(
      header := s.header.(endOfHeader := true),
      skips := s.skips + if s.blockSeen then [Skip(n, Inconsistent(MisplacedHeader))] else []))
  }

  lemma {:induction false} EndOfHeaderReads(n: nat, line: string, s: State)
    requires |line| >= 60
    ensures Ok(ReadEndOfHeader(n, s)) == EndOfHeaderMeans(n, line, s)
  {
    hide Trim, TrimEnd, Body, TrimmedField, RawField, Field, Number, FortranF64, StrictF64;
    assert s.skips + [] == s.skips;
  }

  lemma EndOfHeaderLayout(pf: Platform, n: nat, line: string, s: State)
    requires Labelled(line, "END OF HEADER")
    requires |line| >= 60
    ensures Step(pf, n, line, s) == EndOfHeaderMeans(n, line, s)
  {
    hide Step, ReadEndOfHeader, EndOfHeaderMeans, Labelled;
    DispatchMore(pf, n, line, s);
    EndOfHeaderReads(n, line, s);
  }
}
