/** The writer's contract: for every product the reader builds and the writer
    accepts, reading the written text gives the product back. */
module AntexProduct {
  import opened Text
  import opened AntexTypes
  import opened AntexReader
  import opened AntexWriter
  import opened AntexRoundTrip
  import opened AntexCleanLines
  import opened AntexViews

  /** Comments still to be written: in file order, none before `position`. */
  ghost predicate Pending(p: Antex, position: nat, outer: seq<OuterComment>) {
    && (forall i :: 0 <= i < |outer| ==>
          && EndTrimmedFits(outer[i].text, LABEL_COLUMN)
          && position <= outer[i].blocksBefore <= |p.blockOrder|
          && (outer[i].blocksBefore != 0 || p.header.endOfHeader))
    && forall i, j :: 0 <= i < j < |outer| ==> outer[i].blocksBefore <= outer[j].blocksBefore
  }

  /** The reader between blocks, with `position` of the blocks retained. */
  ghost predicate Between(p: Antex, blocks: seq<Antenna>, position: nat, outer: seq<OuterComment>, s: State)
    requires position <= |blocks|
  {
    && s.current.None? && s.section.None? && s.skips == []
    && s.header == p.header
    && (s.blockSeen <==> position > 0)
    && Views(s.antennas, s.intervals, s.blockOrder) == ViewsOf(blocks[..position])
    && s.outerComments + outer == p.outerComments
  }

  lemma {:induction false} OuterSorted(p: Antex, i: nat, j: nat)
    requires OuterFits(p) && i <= j < |p.outerComments|
    ensures p.outerComments[i].blocksBefore <= p.outerComments[j].blocksBefore
    decreases j
  {
    if i < j {
      OuterSorted(p, i, j - 1);
    }
  }

  lemma {:induction false} AllPending(p: Antex)
    requires OuterFits(p)
    ensures Pending(p, 0, p.outerComments)
  {
    forall i, j | 0 <= i < j < |p.outerComments|
      ensures p.outerComments[i].blocksBefore <= p.outerComments[j].blocksBefore
    {
      OuterSorted(p, i, j);
    }
  }

  lemma {:induction false} PendingSplit(p: Antex, position: nat, outer: seq<OuterComment>)
    requires Pending(p, position, outer)
    ensures var n := OuterHere(outer, position);
            && Pending(p, position, outer[..n])
            && Pending(p, position + 1, outer[n..])
            && (forall i :: 0 <= i < n ==> outer[i].blocksBefore == position)
    ensures position == |p.blockOrder| ==> OuterHere(outer, position) == |outer|
  {
    OuterHereIs(outer, position);
    var n := OuterHere(outer, position);
    hide EndTrimmedFits, OuterHere;
    var rest := outer[n..];
    forall i | 0 <= i < |rest| ensures position + 1 <= rest[i].blocksBefore {
      assert rest[i] == outer[n + i] && outer[n].blocksBefore <= outer[n + i].blocksBefore;
    }
  }

  /** Comments that stand at this point are read back as they were. */
  lemma {:induction false} RunOuter(pf: Platform, n: nat, p: Antex, blocks: seq<Antenna>, position: nat, here: seq<OuterComment>,
                                    rest: seq<OuterComment>, s: State)
    requires position <= |blocks| && Between(p, blocks, position, here + rest, s) && Pending(p, position, here)
    requires forall i :: 0 <= i < |here| ==> here[i].blocksBefore == position
    ensures Run(pf, n, OuterLines(here), s) == Ok(s.(outerComments := s.outerComments + here))
    ensures Between(p, blocks, position, rest, s.(outerComments := s.outerComments + here))
  {
    hide EndTrimmedFits, Run, CommentLines, ViewsOf;
    OrderLength(blocks[..position]);
    assert |s.blockOrder| == position;
    RunComments(pf, n, Texts(here), s);
    assert OuterOf(position, Texts(here)) == here;
    assert s.outerComments + (here + rest) == s.outerComments + here + rest;
    if here == [] {
      assert Texts(here) == [];
      NoComments(s);
      assert s.outerComments + here == s.outerComments;
    } else {
      assert here[0].blocksBefore == position;
    }
  }

  lemma {:induction false} KeepNext(p: Antex, blocks: seq<Antenna>, position: nat, rest: seq<OuterComment>, s: State)
    requires position < |blocks| && Between(p, blocks, position, rest, s)
    ensures Between(p, blocks, position + 1, rest, Retain(s.(blockSeen := true), blocks[position]))
  {
    assert blocks[..position + 1] == blocks[..position] + [blocks[position]];
    ViewsPush(blocks[..position], blocks[position]);
    hide ViewsOf;
  }

  lemma {:induction false} RunBlocks(pf: Platform, n: nat, p: Antex, blocks: seq<Antenna>, position: nat, outer: seq<OuterComment>, s: State)
    returns (s': State)
    requires Lawful(pf) && Built(p, blocks) && BlocksFit(pf, p) && position <= |blocks| == |p.blockOrder|
    requires Between(p, blocks, position, outer, s) && Pending(p, position, outer)
    ensures Run(pf, n, BlockLines(pf, p, position, outer), s) == Ok(s')
    ensures Between(p, blocks, |blocks|, [], s')
    decreases |blocks| - position
  {
    hide Lawful, Run, AntennaFits, AntennaLines, OuterLines, ViewsOf, Pending, Between, OuterHere, BlockAt;
    var k := OuterHere(outer, position);
    PendingSplit(p, position, outer);
    var here, rest := outer[..k], outer[k..];
    assert outer == here + rest;
    RunOuter(pf, n, p, blocks, position, here, rest, s);
    var s1 := s.(outerComments := s.outerComments + here);
    if position == |blocks| {
      assert here == outer && rest == [];
      s' := s1;
    } else {
      var a := BlockAt(p, position);
      BlockIs(p, blocks, position);
      var first, block := OuterLines(here), AntennaLines(pf, a);
      StillBetween(p, blocks, position, rest, s1);
      RunAntenna(pf, n + |first|, a, s1);
      var s2 := Retain(s1.(blockSeen := true), a);
      KeepNext(p, blocks, position, rest, s1);
      RunThen(pf, n, first, block, s, s1);
      RunThen(pf, n, first + block, BlockLines(pf, p, position + 1, rest), s, s2);
      s' := RunBlocks(pf, n + |first + block|, p, blocks, position + 1, rest, s2);
    }
  }

  lemma StillBetween(p: Antex, blocks: seq<Antenna>, position: nat, outer: seq<OuterComment>, s: State)
    requires position <= |blocks| && Between(p, blocks, position, outer, s)
    ensures s.current.None? && s.section.None?
  {
  }

  lemma {:induction false} BlockIs(p: Antex, blocks: seq<Antenna>, i: nat)
    requires Built(p, blocks) && i < |blocks|
    ensures i < |p.blockOrder| && p.blockOrder[i].0 in p.intervals
    ensures p.blockOrder[i].1 < |p.intervals[p.blockOrder[i].0]|
    ensures BlockAt(p, i) == blocks[i]
  {
    OrderNames(blocks, i);
    hide ViewsOf;
  }

  /** For every product built by retaining blocks, whatever the platform's binary64
      does within its laws: if the writer accepts the product, reading the text it
      writes succeeds without a skip and gives the same product. */
  lemma {:induction false} WrittenReadsBack(pf: Platform, p: Antex, blocks: seq<Antenna>)
    requires Lawful(pf) && Built(p, blocks) && Writable(pf, p)
    ensures Parse(pf, Joined(ProductLines(pf, p))) == Ok(p.(skips := []))
  {
    hide Lawful, Run, HeaderFits, BlocksFit, ViewsFit, HeaderLines, BlockLines, Joined, Lines, ViewsOf, Pending;
    ProductLinesSplit(pf, p);
    OrderLength(blocks);
    AllPending(p);
    var records := RunHeader(pf, p.header);
    var s0 := HeaderState(p.header, records);
    var head, tail := HeaderLines(pf, p.header), BlockLines(pf, p, 0, p.outerComments);
    NoViews(blocks);
    assert [] + p.outerComments == p.outerComments;
    assert Between(p, blocks, 0, p.outerComments, s0);
    var s1 := RunBlocks(pf, |head|, p, blocks, 0, p.outerComments, s0);
    RunThen(pf, 0, head, tail, INITIAL, s0);
    assert blocks[..|blocks|] == blocks;
    assert s1.outerComments + [] == s1.outerComments;
  }

  lemma NoViews(blocks: seq<Antenna>)
    ensures ViewsOf(blocks[..0]) == Views(map[], map[], [])
  {
  }
}
