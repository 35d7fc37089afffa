/** What holds after every line of every run of the reader. */
module AntexRuns {
  import opened Text
  import opened AntexTypes
  import opened AntexReader
  import opened AntexWriter
  import opened AntexViews
  import opened AntexProduct

  /** The views were built by retaining `blocks`; comments outside the blocks are
      in file order; and a run without a skip leaves no comment where the writer
      could not restate it. */
  ghost predicate Inv(s: State, blocks: seq<Antenna>) {
    && Views(s.antennas, s.intervals, s.blockOrder) == ViewsOf(blocks)
    && |s.blockOrder| == |blocks|
    && OuterInOrder(s.outerComments, |blocks|)
    && (s.section.Some? ==> s.current.Some?)
    && (s.current.Some? ==> s.blockSeen)
    && (s.skips == [] ==> CleanSoFar(s, blocks))
  }

  ghost predicate OuterInOrder(outer: seq<OuterComment>, blocks: nat) {
    && (forall i :: 0 <= i < |outer| ==> outer[i].blocksBefore <= blocks)
    && forall i, j :: 0 <= i < j < |outer| ==> outer[i].blocksBefore <= outer[j].blocksBefore
  }

  ghost predicate CleanSoFar(s: State, blocks: seq<Antenna>) {
    && (forall i :: 0 <= i < |s.outerComments| ==> s.outerComments[i].blocksBefore != 0 || s.header.endOfHeader)
    && (s.blockSeen && s.current.None? ==> blocks != [])
  }

  /** A step that touches neither the views nor the comments between blocks. */
  ghost predicate Quiet(s: State, s': State) {
    && s'.antennas == s.antennas && s'.intervals == s.intervals && s'.blockOrder == s.blockOrder
    && s'.outerComments == s.outerComments
    && s'.blockSeen == s.blockSeen
    && s'.header.endOfHeader == s.header.endOfHeader
    && (s'.current.Some? <==> s.current.Some?)
    && (s'.section.Some? ==> s.section.Some? || s.current.Some?)
    && s.skips <= s'.skips
  }

  lemma {:induction false} QuietKeeps(s: State, s': State, blocks: seq<Antenna>)
    requires Inv(s, blocks) && Quiet(s, s')
    ensures Inv(s', blocks)
  {
    hide ViewsOf, OuterInOrder;
  }

  // ----- quiet records -----

  lemma {:induction false} VersionQuiet(pf: Platform, n: nat, line: string, s: State)
    requires ReadVersion(pf, n, line, s).Ok?
    ensures Quiet(s, ReadVersion(pf, n, line, s).value)
  {
    hide FortranF64, RawField, Body;
  }

  lemma {:induction false} PcvTypeQuiet(n: nat, line: string, s: State)
    requires ReadPcvType(n, line, s).Ok?
    ensures Quiet(s, ReadPcvType(n, line, s).value)
  {
    hide RawField, TrimmedField, Body, Trim;
  }

  lemma {:induction false} CalibrationQuiet(n: nat, line: string, s: State)
    ensures Quiet(s, ReadCalibration(n, line, s))
  {
    hide RawField, TrimEnd, Field, StrictUnsigned;
  }

  lemma {:induction false} DaziQuiet(pf: Platform, n: nat, line: string, s: State)
    requires ReadDazi(pf, n, line, s).Ok?
    ensures Quiet(s, ReadDazi(pf, n, line, s).value)
  {
    hide RawField, FortranF64, Body;
  }

  lemma {:induction false} ZenithQuiet(pf: Platform, n: nat, line: string, s: State)
    requires ReadZenith(pf, n, line, s).Ok?
    ensures Quiet(s, ReadZenith(pf, n, line, s).value)
  {
    hide RawField, ZenithField, Body;
  }

  lemma {:induction false} CountQuiet(n: nat, line: string, s: State)
    requires ReadFrequencyCount(n, line, s).Ok?
    ensures Quiet(s, ReadFrequencyCount(n, line, s).value)
  {
    hide RawField, StrictUnsigned, Body, TrimmedField, ClaimOnce;
    var r := ReadFrequencyCount(n, line, s).value;
    assert r.section == s.section && r.header == s.header && r.blockSeen == s.blockSeen;
    assert s.skips <= r.skips;
  }

  lemma {:induction false} SinexQuiet(n: nat, line: string, s: State)
    requires ReadSinex(n, line, s).Ok?
    ensures Quiet(s, ReadSinex(n, line, s).value)
  {
    hide TrimmedField, Body;
  }

  lemma {:induction false} ValidQuiet(n: nat, line: string, s: State, record: Label)
    requires record == ValidFrom || record == ValidUntil
    requires ReadValid(n, line, s, record).Ok?
    ensures Quiet(s, ReadValid(n, line, s, record).value)
  {
    hide ReadDate, Body;
  }

  lemma {:induction false} FinalizeSectionQuiet(n: nat, s: State)
    requires FinalizeSection(n, s).Ok?
    ensures Quiet(s, FinalizeSection(n, s).value) && FinalizeSection(n, s).value.section.None?
  {
    hide RmsTarget;
    if s.section.Some? && s.current.Some? {
      match s.section.value.kind {
        case Values =>
        case Rms => assert s.skips <= SkipInconsistent(s, n, RmsWithoutFrequency).skips;
      }
    }
  }

  lemma {:induction false} CloseSectionQuiet(n: nat, s: State)
    requires CloseOpenSection(n, s).Ok?
    ensures Quiet(s, CloseOpenSection(n, s).value) && CloseOpenSection(n, s).value.section.None?
  {
    hide FinalizeSection;
    if s.section.Some? {
      FinalizeSectionQuiet(n, SkipInconsistent(s, n, SectionNotClosed));
    }
  }

  lemma {:induction false} BeginQuiet(n: nat, line: string, s: State, kind: SectionKind)
    requires BeginSection(n, line, s, kind).Ok?
    ensures Quiet(s, BeginSection(n, line, s, kind).value)
  {
    hide TrimmedField, CloseOpenSection;
    if s.current.Some? {
      CloseSectionQuiet(n, s);
    }
  }

  lemma {:induction false} EndQuiet(n: nat, line: string, s: State, kind: SectionKind)
    requires EndSection(n, line, s, kind).Ok?
    ensures Quiet(s, EndSection(n, line, s, kind).value)
  {
    hide TrimmedField, FinalizeSection;
    if s.section.Some? {
      var sec := s.section.value;
      var s1 := if sec.kind != kind then SkipInconsistent(s, n, WrongEndRecord) else s;
      var name := TrimmedField(line, 0, 20);
      var s2 := if name != "" && name != sec.freq then SkipInconsistent(s1, n, EndLabelDiffers) else s1;
      FinalizeSectionQuiet(n, s2);
    }
  }

  lemma {:induction false} PcoQuiet(pf: Platform, n: nat, line: string, s: State)
    requires ReadPco(pf, n, line, s).Ok?
    ensures Quiet(s, ReadPco(pf, n, line, s).value)
  {
    hide PcoComponent, Body;
  }

  lemma {:induction false} AddQuiet(pf: Platform, key: Option<F64>, n: nat, line: string, s: State)
    requires AddPcvValues(pf, key, n, line, s).Ok?
    ensures Quiet(s, AddPcvValues(pf, key, n, line, s).value)
  {
    hide RowValues, Samples, Positions;
  }

  lemma {:induction false} RowQuiet(pf: Platform, n: nat, line: string, s: State)
    requires ReadRow(pf, n, line, s).Ok?
    ensures Quiet(s, ReadRow(pf, n, line, s).value)
  {
    hide AddPcvValues, Trim, Tag, TrimmedField, Field, FortranF64;
    if s.section.Some? {
      if AddPcvValues(pf, None, n, line, s).Ok? {
        AddQuiet(pf, None, n, line, s);
      }
      if FortranF64(pf, line, 0, 8).Some? && AddPcvValues(pf, FortranF64(pf, line, 0, 8), n, line, s).Ok? {
        AddQuiet(pf, FortranF64(pf, line, 0, 8), n, line, s);
      }
    }
  }

  ghost predicate IsQuiet(l: Label) {
    l !in {StartOfAntenna, EndOfAntenna, TypeSerial, Comment, EndOfHeader}
  }

  lemma {:induction false} HandleQuiet(pf: Platform, l: Label, n: nat, line: string, s: State)
    requires IsQuiet(l) && Handle(pf, l, n, line, s).Ok?
    ensures Quiet(s, Handle(pf, l, n, line, s).value)
  {
    hide Quiet, OpenBlock, EndBlock, ReadTypeSerial, ReadCalibration, ReadDazi, ReadZenith, ReadFrequencyCount, ReadSinex,
         ReadValid, ReadComment, ReadVersion, ReadPcvType, ReadEndOfHeader, BeginSection, EndSection, ReadPco, ReadRow;
    match l
    case Meth => CalibrationQuiet(n, line, s);
    case Dazi => DaziQuiet(pf, n, line, s);
    case Zenith => ZenithQuiet(pf, n, line, s);
    case FrequencyCount => CountQuiet(n, line, s);
    case Sinex => SinexQuiet(n, line, s);
    case ValidFrom => ValidQuiet(n, line, s, ValidFrom);
    case ValidUntil => ValidQuiet(n, line, s, ValidUntil);
    case Version => VersionQuiet(pf, n, line, s);
    case PcvTypeRefant => PcvTypeQuiet(n, line, s);
    case StartOfFrequency => BeginQuiet(n, line, s, Values);
    case StartOfRms => BeginQuiet(n, line, s, Rms);
    case EndOfFrequency => EndQuiet(n, line, s, Values);
    case EndOfRms => EndQuiet(n, line, s, Rms);
    case NorthEastUp => PcoQuiet(pf, n, line, s);
    case GridRow => RowQuiet(pf, n, line, s);
  }

  // ----- the other records -----

  lemma {:induction false} CommentKeeps(line: string, s: State, blocks: seq<Antenna>)
    requires Inv(s, blocks)
    ensures Inv(ReadComment(line, s), blocks)
  {
    hide Body, ViewsOf;
    var s' := ReadComment(line, s);
    if s.current.Some? || (!s.blockSeen && !s.header.endOfHeader) {
      QuietKeeps(s, s', blocks);
    } else {
      assert OuterInOrder(s'.outerComments, |blocks|);
    }
  }

  lemma {:induction false} EndOfHeaderKeeps(n: nat, s: State, blocks: seq<Antenna>)
    requires Inv(s, blocks)
    ensures Inv(ReadEndOfHeader(n, s), blocks)
  {
    hide ViewsOf, OuterInOrder;
  }

  lemma {:induction false} TypeSerialKeeps(n: nat, line: string, s: State, blocks: seq<Antenna>)
    requires Inv(s, blocks) && ReadTypeSerial(n, line, s).Ok?
    ensures Inv(ReadTypeSerial(n, line, s).value, blocks)
  {
    hide ViewsOf, OuterInOrder, Identify, Body;
  }

  /** Completing a block retains it, or reports why it has no identity. */
  lemma {:induction false} FinalizeKeeps(n: nat, s: State, blocks: seq<Antenna>) returns (blocks': seq<Antenna>)
    requires Inv(s, blocks) && s.current.Some? && FinalizeAntenna(n, s).Ok?
    ensures Inv(FinalizeAntenna(n, s).value, blocks') && FinalizeAntenna(n, s).value.current.None?
    ensures FinalizeAntenna(n, s).value.blockSeen
  {
    hide CloseOpenSection, ViewsOf;
    CloseSectionQuiet(n, s);
    var s1 := CloseOpenSection(n, s).value;
    QuietKeeps(s, s1, blocks);
    var b := s1.current.value;
    if !b.identified {
      blocks' := blocks;
    } else {
      blocks' := blocks + [b.antenna];
      ViewsPush(blocks, b.antenna);
      assert OuterInOrder(s1.outerComments, |blocks'|);
      assert Views(s1.antennas, s1.intervals, s1.blockOrder) == ViewsOf(blocks);
    }
  }

  lemma {:induction false} CloseKeeps(n: nat, s: State, blocks: seq<Antenna>) returns (blocks': seq<Antenna>)
    requires Inv(s, blocks) && CloseOpenBlock(n, s).Ok?
    ensures Inv(CloseOpenBlock(n, s).value, blocks') && CloseOpenBlock(n, s).value.current.None?
  {
    hide FinalizeAntenna, ViewsOf, OuterInOrder;
    blocks' := blocks;
    if s.current.Some? {
      var s1 := SkipInconsistent(s, n, BlockNotClosed);
      QuietKeeps(s, s1, blocks);
      blocks' := FinalizeKeeps(n, s1, blocks);
    }
  }

  lemma {:induction false} OpenKeeps(n: nat, s: State, blocks: seq<Antenna>) returns (blocks': seq<Antenna>)
    requires Inv(s, blocks) && OpenBlock(n, s).Ok?
    ensures Inv(OpenBlock(n, s).value, blocks')
  {
    hide CloseOpenBlock, ViewsOf, OuterInOrder;
    blocks' := CloseKeeps(n, s, blocks);
  }

  lemma {:induction false} HandleKeeps(pf: Platform, l: Label, n: nat, line: string, s: State, blocks: seq<Antenna>)
    returns (blocks': seq<Antenna>)
    requires Inv(s, blocks) && Handle(pf, l, n, line, s).Ok?
    ensures Inv(Handle(pf, l, n, line, s).value, blocks')
  {
    hide Inv, Quiet, OpenBlock, FinalizeAntenna, ReadTypeSerial, ReadCalibration, ReadDazi, ReadZenith, ReadFrequencyCount,
         ReadSinex, ReadValid, ReadComment, ReadVersion, ReadPcvType, ReadEndOfHeader, BeginSection, EndSection, ReadPco, ReadRow;
    blocks' := blocks;
    if IsQuiet(l) {
      HandleQuiet(pf, l, n, line, s);
      QuietKeeps(s, Handle(pf, l, n, line, s).value, blocks);
    } else {
      match l
      case StartOfAntenna => blocks' := OpenKeeps(n, s, blocks);
      case EndOfAntenna => if s.current.Some? { blocks' := FinalizeKeeps(n, s, blocks); }
      case TypeSerial => TypeSerialKeeps(n, line, s, blocks);
      case Comment => CommentKeeps(line, s, blocks);
      case EndOfHeader => EndOfHeaderKeeps(n, s, blocks);
    }
  }

  // ----- runs -----

  /** The invariant holds after every line of every run. */
  lemma {:induction false} RunKeeps(pf: Platform, n: nat, lines: seq<string>, s: State, blocks: seq<Antenna>)
    returns (blocks': seq<Antenna>)
    requires Inv(s, blocks) && Run(pf, n, lines, s).Ok?
    ensures Inv(Run(pf, n, lines, s).value, blocks')
    decreases |lines|
  {
    hide Inv, Handle, LabelOf, Tag;
    blocks' := blocks;
    if lines != [] {
      var l := LabelOf(Tag(lines[0]));
      var next := HandleKeeps(pf, l, n + 1, lines[0], s, blocks);
      blocks' := RunKeeps(pf, n + 1, lines[1..], Step(pf, n + 1, lines[0], s).value, next);
    }
  }

  /** Every product a parse returns is built by retaining blocks, so the writer's
      check on its views never refuses it; and its outer comments are in file
      order, none past the last block, and none misplaced unless a record was
      skipped. */
  lemma {:induction false} ParsedInv(pf: Platform, text: string) returns (blocks: seq<Antenna>)
    requires Parse(pf, text).Ok?
    ensures var p := Parse(pf, text).value;
            && Built(p, blocks)
            && ViewsFit(p)
            && OuterInOrder(p.outerComments, |p.blockOrder|)
            && (p.skips == [] ==>
                  forall i :: 0 <= i < |p.outerComments| ==> p.outerComments[i].blocksBefore != 0 || p.header.endOfHeader)
  {
    hide Run, Lines, CloseOpenBlock, ViewsOf, OuterInOrder, ViewsFit;
    var lines := Lines(text);
    assert Inv(INITIAL, []) by { InitialInv(); }
    var middle := RunKeeps(pf, 0, lines, INITIAL, []);
    var s := Run(pf, 0, lines, INITIAL).value;
    blocks := CloseKeeps(|lines|, s, middle);
    BuiltViewsFit(Parse(pf, text).value, blocks);
  }

  lemma InitialInv()
    ensures Inv(INITIAL, [])
  {
  }

  /** `parse(encode(product)) == product` for every text, clean or not, whose
      product the writer accepts: the skips are gone and everything else is
      restored, and writing again gives the same text. */
  lemma {:induction false} ParsedRoundTrip(pf: Platform, text: string)
    requires Lawful(pf) && Parse(pf, text).Ok? && Encode(pf, Parse(pf, text).value).Ok?
    ensures var p := Parse(pf, text).value;
            var written := Encode(pf, p).value;
            && Parse(pf, written) == Ok(p.(skips := []))
            && (p.skips == [] ==> Parse(pf, written) == Ok(p))
            && Encode(pf, p.(skips := [])) == Ok(written)
  {
    hide Lawful, Parse, ViewsOf, ProductLines, Joined, ViewsFit, OuterFits, HeaderFits;
    var p := Parse(pf, text).value;
    var blocks := ParsedInv(pf, text);
    WrittenReadsBack(pf, p, blocks);
    SkipsNotWritten(pf, p);
  }

  /** Nothing the writer looks at depends on the skips. */
  lemma {:induction false} SkipsNotWritten(pf: Platform, p: Antex)
    requires BlocksFit(pf, p)
    ensures var q := p.(skips := []);
            && (Writable(pf, q) <==> Writable(pf, p))
            && BlocksFit(pf, q)
            && ProductLines(pf, q) == ProductLines(pf, p)
  {
    hide HeaderFits, ViewsFit, OuterFits, BlocksFit, BlockLines, HeaderLines;
    var q := p.(skips := []);
    ChecksSame(p, q);
    BlocksSame(pf, p, q);
    BlockLinesSame(pf, p, q, 0, p.outerComments);
  }

  lemma {:induction false} ChecksSame(p: Antex, q: Antex)
    requires q == p.(skips := q.skips)
    ensures (ViewsFit(p) <==> ViewsFit(q)) && (OuterFits(p) <==> OuterFits(q))
  {
    hide CountIntervals, EndTrimmedFits;
  }

  lemma {:induction false} BlocksSame(pf: Platform, p: Antex, q: Antex)
    requires q.blockOrder == p.blockOrder && q.intervals == p.intervals
    ensures BlocksFit(pf, p) <==> BlocksFit(pf, q)
  {
    hide AntennaFits;
  }

  lemma {:induction false} BlockLinesSame(pf: Platform, p: Antex, q: Antex, position: nat, outer: seq<OuterComment>)
    requires q.blockOrder == p.blockOrder && q.intervals == p.intervals
    requires BlocksFit(pf, p) && BlocksFit(pf, q) && position <= |p.blockOrder|
    ensures BlockLines(pf, q, position, outer) == BlockLines(pf, p, position, outer)
    decreases |p.blockOrder| - position
  {
    hide AntennaFits, AntennaLines, OuterLines, OuterHere;
    if position < |p.blockOrder| {
      BlockLinesSame(pf, p, q, position + 1, outer[OuterHere(outer, position)..]);
    }
  }
}
