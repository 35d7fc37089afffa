/** ANTEX product, the reader's state, and the platform's binary64 operations. */
module AntexTypes {
  import opened Text
  import opened Seconds

  // ----- binary64 -----

  /** A binary64 value, known by its bits. Two values are equal here exactly when
      their bits are, so negative zero and zero differ. */
  datatype F64 = F64(bits: nat)

  /** `partial_cmp(&0.0)`. */
  datatype Sign = Negative | Zero | Positive | Unordered

  /** The binary64 operations the reader and the writer call. */
  datatype Platform = Platform(
    parse: string -> Option<F64>,        // str::parse::<f64>
    text: (F64, nat, nat) -> string,     // format!("{:width.decimals}")
    finite: F64 -> bool,
    sign: F64 -> Sign,
    signBit: F64 -> bool,
    less: (F64, F64) -> bool,
    add: (F64, F64) -> F64,
    sub: (F64, F64) -> F64,
    mul: (F64, F64) -> F64,
    div: (F64, F64) -> F64,
    round: F64 -> F64,
    toUsize: F64 -> nat,
    toI64: F64 -> int,
    ofUsize: nat -> F64,
    ten: F64,
    mPerMm: F64,
    mmPerM: F64)

  predicate IsNumeric(c: char) { IsDigit(c) || c == '.' || c == '-' || c == ' ' }

  predicate NumericText(s: string) {
    (forall i :: 0 <= i < |s| ==> IsNumeric(s[i])) && Trim(s) != ""
  }

  /** The facts about binary64 the round trip rests on. Everything else it needs
      is checked by the writer itself. */
  ghost predicate Lawful(pf: Platform) {
    // A finite value is written with digits, a point, a minus sign and blanks.
    && (forall v, w, d :: pf.finite(v) ==> NumericText(pf.text(v, w, d)))
    // Infinities and NaN are never read back as finite values.
    && (forall v, w, d :: !pf.finite(v) && pf.parse(Trim(pf.text(v, w, d))).Some? ==>
          !pf.finite(pf.parse(Trim(pf.text(v, w, d))).value))
    // A finite product with 1e-3 has a finite factor.
    && (forall v :: pf.finite(pf.mul(v, pf.mPerMm)) ==> pf.finite(v))
    // Only NaN is unordered.
    && (forall v :: pf.finite(v) ==> pf.sign(v) != Unordered)
  }

  // ----- the product -----

  datatype PcvType = Absolute | Relative

  datatype AntexVersion = AntexVersion(version: F64, system: Option<char>)

  datatype PcvTypeRecord = PcvTypeRecord(pcvType: PcvType, referenceType: string, referenceSerial: string)

  datatype Header = Header(
    version: Option<AntexVersion>,
    pcvType: Option<PcvTypeRecord>,
    comments: seq<string>,
    endOfHeader: bool)

  datatype AntennaKind = Receiver | Satellite

  datatype ZenithGrid = ZenithGrid(start: F64, end: F64, step: F64)

  datatype OuterComment = OuterComment(blocksBefore: nat, text: string)

  datatype Calibration = Calibration(method_: string, agency: string, antennas: Option<nat>, date: string)

  datatype PcvGrid = NoAzimuth | Azimuth

  datatype PcvSample = PcvSample(grid: PcvGrid, azimuth: Option<F64>, zenith: F64, value: F64)

  datatype Triple = Triple(north: F64, east: F64, up: F64)

  datatype FrequencyRms = FrequencyRms(pco: Option<Triple>, samples: seq<PcvSample>)

  datatype Frequency = Frequency(freq: string, pco: Triple, samples: seq<PcvSample>, rms: Option<FrequencyRms>)

  datatype DateTime = DateTime(
    year: nat, month: nat, day: nat, hour: nat, minute: nat, second: nat, fraction: SecondFraction)

  datatype Antenna = Antenna(
    id: string,
    kind: AntennaKind,
    antennaType: string,
    serial: string,
    leadingComments: seq<string>,
    calibrations: seq<Calibration>,
    dazi: Option<F64>,
    grid: Option<ZenithGrid>,
    hasFrequencyCount: bool,
    sinex: Option<string>,
    validFrom: Option<DateTime>,
    validUntil: Option<DateTime>,
    comments: seq<string>,
    frequencies: seq<Frequency>)

  datatype Antex = Antex(
    header: Header,
    outerComments: seq<OuterComment>,
    antennas: map<string, Antenna>,
    intervals: map<string, seq<Antenna>>,
    blockOrder: seq<(string, nat)>,
    skips: seq<Skip>)

  // ----- records, skips and errors -----

  /** Record types, told apart by columns 61-80; a grid row has none of them. */
  datatype Label =
    | StartOfAntenna | EndOfAntenna | TypeSerial | Meth | Dazi | Zenith | FrequencyCount
    | Sinex | ValidFrom | ValidUntil | Comment | Version | PcvTypeRefant | EndOfHeader
    | StartOfFrequency | StartOfRms | EndOfFrequency | EndOfRms | NorthEastUp | GridRow

  function LabelText(l: Label): string {
    match l
    case StartOfAntenna => "START OF ANTENNA"
    case EndOfAntenna => "END OF ANTENNA"
    case TypeSerial => "TYPE / SERIAL NO"
    case Meth => "METH / BY / # / DATE"
    case Dazi => "DAZI"
    case Zenith => "ZEN1 / ZEN2 / DZEN"
    case FrequencyCount => "# OF FREQUENCIES"
    case Sinex => "SINEX CODE"
    case ValidFrom => "VALID FROM"
    case ValidUntil => "VALID UNTIL"
    case Comment => "COMMENT"
    case Version => "ANTEX VERSION / SYST"
    case PcvTypeRefant => "PCV TYPE / REFANT"
    case EndOfHeader => "END OF HEADER"
    case StartOfFrequency => "START OF FREQUENCY"
    case StartOfRms => "START OF FREQ RMS"
    case EndOfFrequency => "END OF FREQUENCY"
    case EndOfRms => "END OF FREQ RMS"
    case NorthEastUp => "NORTH / EAST / UP"
    case GridRow => ""
  }

  lemma LabelEnds(l: Label)
    ensures |LabelText(l)| <= 20 && Tight(LabelText(l))
    ensures l != GridRow ==> LabelText(l) != "" && !IsNumeric(LabelText(l)[0])
  {
  }

  predicate Printable(s: string) { forall i :: 0 <= i < |s| ==> ' ' <= s[i] }

  lemma LabelOneLine(l: Label)
    ensures OneLine(LabelText(l))
  {
    LabelPrintable(l);
  }

  lemma LabelPrintable(l: Label)
    ensures Printable(LabelText(l))
  {
    hide Printable;
    PrintableBlock();
    PrintableGrid();
    PrintableHeader();
    PrintableStart();
    PrintableEnd();
  }

  lemma PrintableBlock()
    ensures Printable("START OF ANTENNA") && Printable("END OF ANTENNA") && Printable("TYPE / SERIAL NO")
    ensures Printable("METH / BY / # / DATE")
  {
  }

  lemma PrintableGrid()
    ensures Printable("DAZI") && Printable("ZEN1 / ZEN2 / DZEN") && Printable("# OF FREQUENCIES")
    ensures Printable("SINEX CODE")
  {
  }

  lemma PrintableHeader()
    ensures Printable("VALID FROM") && Printable("VALID UNTIL") && Printable("COMMENT") && Printable("")
    ensures Printable("ANTEX VERSION / SYST")
  {
  }

  lemma PrintableStart()
    ensures Printable("PCV TYPE / REFANT") && Printable("END OF HEADER") && Printable("START OF FREQUENCY")
    ensures Printable("START OF FREQ RMS")
  {
  }

  lemma PrintableEnd()
    ensures Printable("END OF FREQUENCY") && Printable("END OF FREQ RMS") && Printable("NORTH / EAST / UP")
  {
  }

  lemma LabelDistinct(l: Label, m: Label)
    requires l != m
    ensures LabelText(l) != LabelText(m)
  {
  }

  const ALL_LABELS := [
    StartOfAntenna, EndOfAntenna, TypeSerial, Meth, Dazi, Zenith, FrequencyCount, Sinex, ValidFrom,
    ValidUntil, Comment, Version, PcvTypeRefant, EndOfHeader, StartOfFrequency, StartOfRms,
    EndOfFrequency, EndOfRms, NorthEastUp]

  /** The first label of `labels` with that text; any other text heads a grid row. */
  function Lookup(tag: string, labels: seq<Label>): Label {
    if labels == [] then GridRow
    else if tag == LabelText(labels[0]) then labels[0]
    else Lookup(tag, labels[1..])
  }

  /** `step`'s dispatch; the calibration record has an older spelling. */
  function LabelOf(tag: string): Label {
    if tag == "METH / BY / DATE" then Meth else Lookup(tag, ALL_LABELS)
  }

  lemma {:induction false} LookupFinds(l: Label, labels: seq<Label>)
    requires l in labels
    ensures Lookup(LabelText(l), labels) == l
  {
    if l != labels[0] {
      LabelDistinct(l, labels[0]);
      hide LabelText;
      LookupFinds(l, labels[1..]);
    }
  }

  /** Every record type is found from its own text. */
  lemma LabelOfText(l: Label)
    requires l != GridRow
    ensures LabelOf(LabelText(l)) == l
  {
    OlderSpelling(l);
    assert l in ALL_LABELS;
    hide LabelText;
    LookupFinds(l, ALL_LABELS);
  }

  /** The older spelling of the calibration record is no other record's label. */
  lemma OlderSpelling(l: Label)
    ensures LabelText(l) != "METH / BY / DATE"
  {
  }

  lemma {:induction false} LookupNumeric(tag: string, labels: seq<Label>)
    requires GridRow !in labels
    requires tag == "" || IsNumeric(tag[0])
    ensures Lookup(tag, labels) == GridRow
  {
    if labels != [] {
      LabelEnds(labels[0]);
      LookupNumeric(tag, labels[1..]);
    }
  }

  /** Numbers in the label columns never spell a record type. */
  lemma LabelOfNumeric(tag: string)
    requires tag == "" || IsNumeric(tag[0])
    ensures LabelOf(tag) == GridRow
  {
    LookupNumeric(tag, ALL_LABELS);
  }

  datatype Inconsistency =
    | OutsideAntenna | MisplacedHeader | BlockNotClosed | SectionNotClosed | WrongEndRecord
    | EndLabelDiffers | PcoOutsideSection | RmsWithoutFrequency | BlockWithoutType | CountDiffers

  datatype SkipReason =
    | Inconsistent(what: Inconsistency)
    | MalformedField(text: string)
    | UnknownBlock(text: string)

  datatype Skip = Skip(line: nat, reason: SkipReason)

  datatype GridFault = NoGrid | StepNotPositive(index: nat) | PositionFilled(index: nat)

  /** Fields of records that are refused by name. */
  datatype FieldName =
    | VersionNumber | PcvTypeFlag | DaziAngle | Zen1 | Zen2 | Dzen
    | Year | Month | Day | Hour | Minute | Second | North | East | Up

  datatype Error =
    | InvalidField(antennaId: Option<string>, record: Label, field: FieldName, text: string)
    | RepeatedRecord(antennaId: Option<string>, record: Label)
    | DegenerateGrid(id: string, frequency: string, fault: GridFault)
    | MissingPco(id: string, frequency: string)
    | Unwritable

  // ----- the reader's state -----

  datatype Block = Block(antenna: Antenna, identified: bool, records: map<Label, string>, declared: Option<nat>)

  datatype SectionKind = Values | Rms

  datatype Section = Section(
    kind: SectionKind,
    freq: string,
    pco: Option<Triple>,
    pcoBody: Option<string>,
    samples: seq<PcvSample>,
    occupied: set<(Option<F64>, nat)>)

  datatype State = State(
    header: Header,
    headerRecords: map<Label, string>,
    antennas: map<string, Antenna>,
    intervals: map<string, seq<Antenna>>,
    blockOrder: seq<(string, nat)>,
    outerComments: seq<OuterComment>,
    blockSeen: bool,
    current: Option<Block>,
    section: Option<Section>,
    skips: seq<Skip>)

  const BLANK_ANTENNA := Antenna("", Receiver, "", "", [], [], None, None, false, None, None, None, [], [])

  const BLANK_BLOCK := Block(BLANK_ANTENNA, false, map[], None)

  const INITIAL := State(Header(None, None, [], false), map[], map[], map[], [], [], false, None, None, [])
}
