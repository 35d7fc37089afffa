/** The writer as the program runs it: loops that append to the output, proved
    against the functions of `AntexWriter`. */
module AntexEmitter {
  import opened Text
  import opened AntexTypes
  import opened AntexWriter
  import opened AntexViews

  // ----- grid rows -----

  /** `validate_and_group_pcv_samples`: one pass over the samples. */
  method GroupPcvSamples(pf: Platform, g: ZenithGrid, samples: seq<PcvSample>) returns (groups: Option<Grouping>)
    ensures groups == GroupSamples(pf, g, samples)
  {
    hide SampleOk, Follows, Placed, Tenths, Index;
    if samples != [] && !(StepAccepted(pf, g) && Tenths(pf, g.step) > 0) { return None; }
    var acc, i := NO_GROUPS, 0;
    assert samples[0..] == samples;
    while i < |samples|
      invariant i <= |samples| && GroupSamples(pf, g, samples) == GroupFrom(pf, g, acc, samples[i..])
    {
      var s := samples[i];
      var k := Index(pf, g, s);
      assert samples[i..][0] == s && samples[i..][1..] == samples[i + 1..];
      if !(SampleOk(pf, g, s) && Follows(acc, s, k)) { return None; }
      acc := Placed(pf, acc, s, k);
      i := i + 1;
    }
    return Some(acc);
  }

  method HighestIndex(pf: Platform, g: ZenithGrid, samples: seq<PcvSample>) returns (high: nat)
    ensures high == MaxSampleIndex(pf, g, samples)
  {
    hide Index;
    high := 0;
    var i := |samples|;
    while i > 0
      invariant 0 <= i <= |samples| && high == MaxSampleIndex(pf, g, samples[i..])
    {
      i := i - 1;
      assert samples[i..][0] == samples[i] && samples[i..][1..] == samples[i + 1..];
      var k := Index(pf, g, samples[i]);
      if k > high { high := k; }
    }
    assert samples[0..] == samples;
  }

  /** `pcv_row`: one 8-column field for each index, blank where no sample falls. */
  method RenderRow(pf: Platform, g: ZenithGrid, head: string, samples: seq<PcvSample>) returns (line: string)
    ensures line == PcvRow(pf, g, head, samples)
  {
    hide Index, MmText, Pad, Blanks, GridIndex;
    line := Pad(head, 8);
    var last := GridIndex(pf, g);
    var high := HighestIndex(pf, g, samples);
    if high >= last { last := high; }
    var k, next := 0, 0;
    ghost var start := line;
    assert samples[0..] == samples;
    while k <= last
      invariant k <= last + 1 && next <= |samples|
      invariant line + Cells(pf, g, samples[next..], k, last) == start + Cells(pf, g, samples, 0, last)
    {
      ghost var before := line;
      if next < |samples| && Index(pf, g, samples[next]) == k {
        assert samples[next..][0] == samples[next] && samples[next..][1..] == samples[next + 1..];
        Append3(line, MmText(pf, samples[next].value, 8), Cells(pf, g, samples[next + 1..], k + 1, last));
        line := line + MmText(pf, samples[next].value, 8);
        next := next + 1;
      } else {
        assert next < |samples| ==> samples[next..][0] == samples[next];
        Append3(line, Blanks(8), Cells(pf, g, samples[next..], k + 1, last));
        line := line + Blanks(8);
      }
      k := k + 1;
    }
    assert line + "" == line;
  }

  lemma Append3(a: string, b: string, c: string)
    ensures a + (b + c) == a + b + c
  {
  }

  lemma AppendLines(a: seq<string>, b: seq<string>, c: seq<string>)
    ensures a + (b + c) == a + b + c
  {
  }

  /** The grid rows of one section; none when the samples cannot be written. */
  method EmitRows(pf: Platform, grid: Option<ZenithGrid>, samples: seq<PcvSample>) returns (r: Option<seq<string>>)
    ensures r.Some? <==> RowsFit(pf, grid, samples)
    ensures r.Some? ==> r.value == RowLines(pf, grid, samples)
  {
    hide GroupSamples, PcvRow;
    if samples == [] { return Some([]); }
    if grid.None? { return None; }
    var groups := GroupPcvSamples(pf, grid.value, samples);
    if groups.None? { return None; }
    var out: seq<string> := [];
    if groups.value.noazi != [] {
      var line := RenderRow(pf, grid.value, NOAZI_HEAD, groups.value.noazi);
      out := [line];
    }
    var rows, i := groups.value.rows, 0;
    ghost var first := out;
    assert rows[0..] == rows;
    while i < |rows|
      invariant i <= |rows|
      invariant out + AzimuthLines(pf, grid.value, rows[i..]) == first + AzimuthLines(pf, grid.value, rows)
    {
      assert rows[i..][0] == rows[i] && rows[i..][1..] == rows[i + 1..];
      var line := RenderRow(pf, grid.value, rows[i].head, rows[i].samples);
      AppendLines(out, [line], AzimuthLines(pf, grid.value, rows[i + 1..]));
      out := out + [line];
      i := i + 1;
    }
    assert out + [] == out;
    return Some(out);
  }

  // ----- sections and blocks -----

  method EmitFrequency(pf: Platform, grid: Option<ZenithGrid>, f: Frequency) returns (r: Option<seq<string>>)
    ensures r.Some? <==> FrequencyFits(pf, grid, f)
    ensures r.Some? ==> r.value == FrequencyLines(pf, grid, f)
  {
    hide RowsFit, RowLines, PcoFits, PcoLine, IsFrequencyCode, Labeled;
    if !IsFrequencyCode(f.freq) || !PcoFits(pf, f.pco) { return None; }
    var rows := EmitRows(pf, grid, f.samples);
    if rows.None? { return None; }
    var out := [Labeled("   " + f.freq, StartOfFrequency)] + [PcoLine(pf, f.pco)] + rows.value
      + [Labeled("   " + f.freq, EndOfFrequency)];
    if f.rms.None? {
      assert out + [] == out;
      return Some(out);
    }
    var rms := EmitRms(pf, grid, f.freq, f.rms.value);
    if rms.None? { return None; }
    return Some(out + rms.value);
  }

  method EmitRms(pf: Platform, grid: Option<ZenithGrid>, code: string, rms: FrequencyRms) returns (r: Option<seq<string>>)
    ensures r.Some? <==> RmsFits(pf, grid, rms)
    ensures r.Some? ==> r.value == RmsLines(pf, grid, code, rms)
  {
    hide RowsFit, RowLines, PcoFits, PcoLine, Labeled;
    if rms.pco.Some? && !PcoFits(pf, rms.pco.value) { return None; }
    var rows := EmitRows(pf, grid, rms.samples);
    if rows.None? { return None; }
    var out := [Labeled("   " + code, StartOfRms)] + (if rms.pco.Some? then [PcoLine(pf, rms.pco.value)] else []);
    return Some(out + rows.value + [Labeled("   " + code, EndOfRms)]);
  }

  method EmitSections(pf: Platform, grid: Option<ZenithGrid>, fs: seq<Frequency>) returns (r: Option<seq<string>>)
    ensures r.Some? <==> FrequenciesFit(pf, grid, fs)
    ensures r.Some? ==> r.value == SectionLines(pf, grid, fs)
  {
    hide FrequencyFits, FrequencyLines;
    var out: seq<string> := [];
    var i := 0;
    while i < |fs|
      invariant i <= |fs| && FrequenciesFit(pf, grid, fs[..i]) && out == SectionLines(pf, grid, fs[..i])
    {
      var lines := EmitFrequency(pf, grid, fs[i]);
      if lines.None? { return None; }
      SectionsPush(pf, grid, fs, i);
      out := out + lines.value;
      i := i + 1;
    }
    assert fs[..i] == fs;
    return Some(out);
  }

  lemma SectionsPush(pf: Platform, grid: Option<ZenithGrid>, fs: seq<Frequency>, i: nat)
    requires i < |fs| && FrequenciesFit(pf, grid, fs[..i]) && FrequencyFits(pf, grid, fs[i])
    ensures FrequenciesFit(pf, grid, fs[..i + 1])
    ensures SectionLines(pf, grid, fs[..i + 1]) == SectionLines(pf, grid, fs[..i]) + FrequencyLines(pf, grid, fs[i])
  {
    hide FrequencyFits, FrequencyLines;
    assert fs[..i + 1] == fs[..i] + [fs[i]];
    SectionsAppend(pf, grid, fs[..i], fs[i]);
  }

  lemma {:induction false} SectionsAppend(pf: Platform, grid: Option<ZenithGrid>, fs: seq<Frequency>, f: Frequency)
    requires FrequenciesFit(pf, grid, fs) && FrequencyFits(pf, grid, f)
    ensures FrequenciesFit(pf, grid, fs + [f])
    ensures SectionLines(pf, grid, fs + [f]) == SectionLines(pf, grid, fs) + FrequencyLines(pf, grid, f)
  {
    hide FrequencyFits, FrequencyLines;
    if fs == [] {
      assert [f][1..] == [];
      assert FrequencyLines(pf, grid, f) + [] == FrequencyLines(pf, grid, f);
    } else {
      assert (fs + [f])[1..] == fs[1..] + [f];
      SectionsAppend(pf, grid, fs[1..], f);
    }
  }

  method EmitAntenna(pf: Platform, a: Antenna) returns (r: Option<seq<string>>)
    ensures r.Some? <==> AntennaFits(pf, a)
    ensures r.Some? ==> r.value == AntennaLines(pf, a)
  {
    hide IdentityFits, CommentsFit, RecordsFit, GridCarriesSamples, FrequenciesFit, SectionLines, RecordLines, Labeled;
    if !(IdentityFits(a) && CommentsFit(a.leadingComments) && RecordsFit(pf, a) && GridCarriesSamples(pf, a)) {
      return None;
    }
    var sections := EmitSections(pf, a.grid, a.frequencies);
    if sections.None? { return None; }
    return Some([Labeled("", StartOfAntenna)] + CommentLines(a.leadingComments) + [Labeled(a.id, TypeSerial)]
      + RecordLines(pf, a) + sections.value + [Labeled("", EndOfAntenna)]);
  }

  // ----- the whole product -----

  /** The number of retained blocks, counted id by id in any order. */
  method CountRetained(intervals: map<string, seq<Antenna>>) returns (n: nat)
    ensures n == CountIntervals(intervals, intervals.Keys)
  {
    n := 0;
    var rest := intervals.Keys;
    while rest != {}
      invariant rest <= intervals.Keys
      invariant n + CountIntervals(intervals, rest) == CountIntervals(intervals, intervals.Keys)
      decreases rest
    {
      var id :| id in rest;
      CountPick(intervals, rest, id);
      n := n + |intervals[id]|;
      rest := rest - {id};
    }
  }

  method ValidateViews(p: Antex) returns (ok: bool)
    ensures ok == ViewsFit(p)
  {
    hide LatestAgrees, IntervalsAgree;
    var n := CountRetained(p.intervals);
    return |p.antennas| == |p.intervals| && LatestAgrees(p) && IntervalsAgree(p) && |p.blockOrder| == n;
  }

  /** What is still to be written from block `position` and comment `at` on, once
      every block is accepted. */
  ghost predicate Remaining(pf: Platform, p: Antex, out: seq<string>, position: nat, at: nat)
    requires position <= |p.blockOrder| && at <= |p.outerComments|
  {
    BlocksFit(pf, p) ==> out + BlockLines(pf, p, position, p.outerComments[at..]) == ProductLines(pf, p)
  }

  lemma {:induction false} CommentsAppend(cs: seq<string>, c: string)
    ensures CommentLines(cs + [c]) == CommentLines(cs) + [Labeled(c, Comment)]
  {
    hide Labeled;
    if cs == [] {
      assert CommentLines([c]) == [Labeled(c, Comment)] + CommentLines([]);
    } else {
      assert (cs + [c])[1..] == cs[1..] + [c];
      CommentsAppend(cs[1..], c);
    }
  }

  /** The comments standing before block `position`. */
  method EmitOuter(outer: seq<OuterComment>, position: nat, at: nat) returns (lines: seq<string>, next: nat)
    requires at <= |outer|
    ensures next == at + OuterHere(outer[at..], position) <= |outer|
    ensures lines == OuterLines(outer[at..next])
  {
    hide Labeled, Texts;
    lines, next := [], at;
    ghost var rest := outer[at..];
    OuterHereIs(rest, position);
    NoTexts();
    while next < |outer| && outer[next].blocksBefore == position
      invariant at <= next <= at + OuterHere(rest, position)
      invariant lines == CommentLines(Texts(rest[..next - at]))
    {
      assert rest[next - at] == outer[next];
      TextsPush(rest, next - at);
      CommentsAppend(Texts(rest[..next - at]), outer[next].text);
      lines := lines + [Labeled(outer[next].text, Comment)];
      next := next + 1;
    }
    assert next < |outer| ==> rest[next - at] == outer[next];
    assert outer[at..next] == rest[..next - at];
  }

  lemma NoTexts()
    ensures Texts([]) == []
  {
  }

  lemma TextsPush(outer: seq<OuterComment>, i: nat)
    requires i < |outer|
    ensures Texts(outer[..i + 1]) == Texts(outer[..i]) + [outer[i].text]
  {
  }

  lemma BlockLinesStep(pf: Platform, p: Antex, position: nat, at: nat, next: nat)
    requires BlocksFit(pf, p) && position < |p.blockOrder| && at <= next <= |p.outerComments|
    requires next == at + OuterHere(p.outerComments[at..], position)
    ensures BlockLines(pf, p, position, p.outerComments[at..])
         == OuterLines(p.outerComments[at..next]) + AntennaLines(pf, BlockAt(p, position))
          + BlockLines(pf, p, position + 1, p.outerComments[next..])
  {
    hide OuterLines, AntennaLines, OuterHere;
    var outer, n := p.outerComments[at..], next - at;
    assert outer[..n] == p.outerComments[at..next];
    assert outer[n..] == p.outerComments[next..];
  }

  lemma RemainingStep(pf: Platform, p: Antex, out: seq<string>, position: nat, at: nat, lines: seq<string>, next: nat)
    requires position < |p.blockOrder| && at <= next <= |p.outerComments|
    requires Remaining(pf, p, out, position, at)
    requires next == at + OuterHere(p.outerComments[at..], position)
    requires BlocksFit(pf, p) ==> lines == OuterLines(p.outerComments[at..next]) + AntennaLines(pf, BlockAt(p, position))
    ensures Remaining(pf, p, out + lines, position + 1, next)
  {
    hide OuterLines, AntennaLines, OuterHere, BlockLines, BlocksFit, ProductLines;
    if BlocksFit(pf, p) {
      BlockLinesStep(pf, p, position, at, next);
      AppendLines(out, lines, BlockLines(pf, p, position + 1, p.outerComments[next..]));
    }
  }

  /** `Antex::encode`. */
  method EncodeText(pf: Platform, p: Antex) returns (r: Result<string, Error>)
    ensures r == Encode(pf, p)
  {
    hide ViewsFit, OuterFits, HeaderFits, AntennaFits, AntennaLines, OuterLines, OuterHere, HeaderLines, Joined;
    var ok := ValidateViews(p);
    if !ok || !OuterFits(p) || !HeaderFits(pf, p.header) { return Err(Unwritable); }
    var out := HeaderLines(pf, p.header);
    var at: nat, position: nat := 0, 0;
    assert p.outerComments[0..] == p.outerComments;
    while position < |p.blockOrder|
      invariant position <= |p.blockOrder| && at <= |p.outerComments|
      invariant forall i :: 0 <= i < position ==> BlockFits(pf, p, i)
      invariant Remaining(pf, p, out, position, at)
    {
      var comments, next := EmitOuter(p.outerComments, position, at);
      var (id, index) := p.blockOrder[position];
      if id !in p.intervals || index >= |p.intervals[id]| {
        assert !BlockFits(pf, p, position);
        BlocksFitAt(pf, p);
        return Err(Unwritable);
      }
      var lines := EmitAntenna(pf, p.intervals[id][index]);
      if lines.None? {
        assert !BlockFits(pf, p, position);
        BlocksFitAt(pf, p);
        return Err(Unwritable);
      }
      RemainingStep(pf, p, out, position, at, comments + lines.value, next);
      out := out + (comments + lines.value);
      at, position := next, position + 1;
    }
    BlocksFitAt(pf, p);
    var tail := OuterLines(p.outerComments[at..]);
    return Ok(Joined(out + tail));
  }

  predicate BlockFits(pf: Platform, p: Antex, i: nat)
    requires i < |p.blockOrder|
  {
    && p.blockOrder[i].0 in p.intervals
    && p.blockOrder[i].1 < |p.intervals[p.blockOrder[i].0]|
    && AntennaFits(pf, BlockAt(p, i))
  }

  lemma BlocksFitAt(pf: Platform, p: Antex)
    ensures BlocksFit(pf, p) <==> forall i :: 0 <= i < |p.blockOrder| ==> BlockFits(pf, p, i)
  {
    hide AntennaFits;
    if BlocksFit(pf, p) {
      forall i | 0 <= i < |p.blockOrder| ensures BlockFits(pf, p, i) {
      }
    }
    if forall i :: 0 <= i < |p.blockOrder| ==> BlockFits(pf, p, i) {
      forall i | 0 <= i < |p.blockOrder|
        ensures p.blockOrder[i].0 in p.intervals && p.blockOrder[i].1 < |p.intervals[p.blockOrder[i].0]|
        ensures AntennaFits(pf, BlockAt(p, i))
      {
        assert BlockFits(pf, p, i);
      }
    }
  }
}
