/** PCV grid rows: grouping only partitions the samples, and the rendered rows
    read back as the same samples in the same order. */
module PcvRows {
  import opened Text
  import opened AntexTypes
  import opened AntexReader
  import opened AntexWriter

  // ----- numeric fields read back -----

  lemma ReplaceNothing(s: string)
    requires forall i :: 0 <= i < |s| ==> s[i] != 'D' && s[i] != 'd'
    ensures ReplaceD(s) == s
  {
  }

  lemma {:induction false} NumericTrim(text: string)
    requires NumericText(text)
    ensures Tight(Trim(text)) && forall i :: 0 <= i < |Trim(text)| ==> IsNumeric(Trim(text)[i])
  {
    var at := TrimWithin(text);
  }

  lemma {:induction false} StrictReads(pf: Platform, text: string, v: F64)
    requires NumericText(text) && pf.parse(Trim(text)) == Some(v) && pf.finite(v)
    ensures StrictF64(pf, Trim(text)) == Some(v)
  {
    NumericTrim(text);
    StrictReadsTight(pf, Trim(text), v);
  }

  lemma {:induction false} StrictReadsTight(pf: Platform, t: string, v: F64)
    requires Tight(t) && t != "" && forall i :: 0 <= i < |t| ==> IsNumeric(t[i])
    requires pf.parse(t) == Some(v) && pf.finite(v)
    ensures StrictF64(pf, t) == Some(v)
  {
    TrimTight(t);
    ReplaceNothing(t);
  }

  lemma F6Reads(pf: Platform, v: F64)
    requires Lawful(pf) && FitsF6(pf, v)
    ensures NumericText(pf.text(v, 6, 1)) && StrictF64(pf, Trim(pf.text(v, 6, 1))) == Some(v)
  {
    StrictReads(pf, pf.text(v, 6, 1), v);
  }

  lemma F8Reads(pf: Platform, v: F64)
    requires Lawful(pf) && FitsF8(pf, v)
    ensures NumericText(pf.text(v, 8, 1)) && StrictF64(pf, Trim(pf.text(v, 8, 1))) == Some(v)
  {
    StrictReads(pf, pf.text(v, 8, 1), v);
  }

  /** The millimetres an accepted length is written as. */
  function Millimetres(pf: Platform, v: F64, width: nat): F64
    requires FitsMm(pf, v, width)
  {
    pf.parse(Trim(MmText(pf, v, width))).value
  }

  lemma MmReads(pf: Platform, v: F64, width: nat)
    requires Lawful(pf) && FitsMm(pf, v, width)
    ensures NumericText(MmText(pf, v, width))
    ensures StrictF64(pf, Trim(MmText(pf, v, width))) == Some(Millimetres(pf, v, width))
    ensures pf.mul(Millimetres(pf, v, width), pf.mPerMm) == v
  {
    var parsed := Millimetres(pf, v, width);
    assert pf.finite(parsed);
    assert pf.finite(pf.mul(v, pf.mmPerM));
    StrictReads(pf, MmText(pf, v, width), parsed);
  }

  // ----- grouping -----

  ghost predicate Rising(pf: Platform, g: ZenithGrid, samples: seq<PcvSample>) {
    forall i, j :: 0 <= i < j < |samples| ==> Index(pf, g, samples[i]) < Index(pf, g, samples[j])
  }

  /** Samples of one row, headed `key`, each with a grid position of its own. */
  ghost predicate RowOk(pf: Platform, g: ZenithGrid, key: Option<F64>, samples: seq<PcvSample>) {
    && Rising(pf, g, samples)
    && forall i :: 0 <= i < |samples| ==>
         SampleOk(pf, g, samples[i]) && samples[i].azimuth == key
  }

  ghost predicate Distinct(s: seq<F64>) { forall i, j :: 0 <= i < j < |s| ==> s[i] != s[j] }

  function Flatten(rows: seq<AzimuthSamples>): seq<PcvSample> {
    if rows == [] then [] else Flatten(rows[..|rows| - 1]) + rows[|rows| - 1].samples
  }

  ghost predicate RowsOk(pf: Platform, g: ZenithGrid, rows: seq<AzimuthSamples>, seen: seq<F64>) {
    && |rows| == |seen|
    && Distinct(seen)
    && forall i :: 0 <= i < |rows| ==>
         && rows[i].samples != []
         && FitsF8(pf, seen[i]) && rows[i].head == pf.text(seen[i], 8, 1)
         && RowOk(pf, g, Some(seen[i]), rows[i].samples)
  }

  /** The position the next sample is compared with. */
  ghost predicate CursorOk(pf: Platform, g: ZenithGrid, acc: Grouping) {
    match acc.row
    case NoRow => acc.noazi == [] && acc.rows == []
    case NoAziRow => acc.rows == [] && acc.noazi != [] && acc.last == Index(pf, g, acc.noazi[|acc.noazi| - 1])
    case AzimuthRow(az) =>
      && acc.rows != [] && |acc.seen| == |acc.rows|
      && az == acc.seen[|acc.seen| - 1]
      && var r := acc.rows[|acc.rows| - 1].samples;
         r != [] && acc.last == Index(pf, g, r[|r| - 1])
  }

  ghost predicate GroupOk(pf: Platform, g: ZenithGrid, acc: Grouping, done: seq<PcvSample>) {
    && acc.noazi + Flatten(acc.rows) == done
    && RowOk(pf, g, None, acc.noazi)
    && RowsOk(pf, g, acc.rows, acc.seen)
    && CursorOk(pf, g, acc)
  }

  lemma RowExtends(pf: Platform, g: ZenithGrid, key: Option<F64>, samples: seq<PcvSample>, s: PcvSample)
    requires RowOk(pf, g, key, samples) && SampleOk(pf, g, s) && s.azimuth == key
    requires samples != [] ==> Index(pf, g, samples[|samples| - 1]) < Index(pf, g, s)
    ensures RowOk(pf, g, key, samples + [s])
  {
    var n := |samples|;
    forall i | 0 <= i < n ensures Index(pf, g, samples[i]) < Index(pf, g, s) {
      if i < n - 1 {
        assert Index(pf, g, samples[i]) < Index(pf, g, samples[n - 1]);
      }
    }
  }

  lemma FlattenPush(rows: seq<AzimuthSamples>, r: AzimuthSamples)
    ensures Flatten(rows + [r]) == Flatten(rows) + r.samples
  {
    assert (rows + [r])[..|rows|] == rows;
  }

  lemma {:induction false} PlacedNoazi(pf: Platform, g: ZenithGrid, acc: Grouping, done: seq<PcvSample>, s: PcvSample)
    requires GroupOk(pf, g, acc, done) && s.azimuth.None?
    requires SampleOk(pf, g, s) && Follows(acc, s, Index(pf, g, s))
    ensures GroupOk(pf, g, Placed(pf, acc, s, Index(pf, g, s)), done + [s])
  {
    RowExtends(pf, g, None, acc.noazi, s);
    assert acc.rows == [];
    assert Flatten([]) == [];
  }

  lemma {:induction false} PushFlattens(rows: seq<AzimuthSamples>, s: PcvSample)
    requires rows != []
    ensures Flatten(PushToLast(rows, s)) == Flatten(rows) + [s]
  {
    var n := |rows| - 1;
    var r := rows[n];
    FlattenPush(rows[..n], r.(samples := r.samples + [s]));
    FlattenPush(rows[..n], r);
    assert rows == rows[..n] + [r];
  }

  lemma {:induction false} RowsGrow(pf: Platform, g: ZenithGrid, rows: seq<AzimuthSamples>, seen: seq<F64>, s: PcvSample)
    requires RowsOk(pf, g, rows, seen) && rows != [] && SampleOk(pf, g, s)
    requires s.azimuth == Some(seen[|seen| - 1])
    requires var r := rows[|rows| - 1].samples; Index(pf, g, r[|r| - 1]) < Index(pf, g, s)
    ensures RowsOk(pf, g, PushToLast(rows, s), seen)
  {
    hide SampleOk, FitsF8, RowOk, Distinct;
    RowExtends(pf, g, s.azimuth, rows[|rows| - 1].samples, s);
  }

  lemma {:induction false} PlacedSameRow(pf: Platform, g: ZenithGrid, acc: Grouping, done: seq<PcvSample>, s: PcvSample)
    requires GroupOk(pf, g, acc, done) && s.azimuth.Some? && acc.row == AzimuthRow(s.azimuth.value)
    requires SampleOk(pf, g, s) && Follows(acc, s, Index(pf, g, s))
    ensures GroupOk(pf, g, Placed(pf, acc, s, Index(pf, g, s)), done + [s])
  {
    hide SampleOk, FitsF8, RowOk, Distinct, Flatten;
    PushFlattens(acc.rows, s);
    RowsGrow(pf, g, acc.rows, acc.seen, s);
    assert acc.noazi + (Flatten(acc.rows) + [s]) == acc.noazi + Flatten(acc.rows) + [s];
  }

  lemma {:induction false} RowsAdd(pf: Platform, g: ZenithGrid, rows: seq<AzimuthSamples>, seen: seq<F64>, s: PcvSample)
    requires RowsOk(pf, g, rows, seen) && SampleOk(pf, g, s)
    requires s.azimuth.Some? && s.azimuth.value !in seen
    ensures var az := s.azimuth.value;
            var r := AzimuthSamples(pf.text(az, 8, 1), [s]);
            RowsOk(pf, g, rows + [r], seen + [az]) && Flatten(rows + [r]) == Flatten(rows) + [s]
  {
    assert FitsF8(pf, s.azimuth.value);
    assert RowOk(pf, g, s.azimuth, []);
    hide SampleOk, FitsF8, RowOk, Flatten;
    var az := s.azimuth.value;
    var r := AzimuthSamples(pf.text(az, 8, 1), [s]);
    FlattenPush(rows, r);
    RowExtends(pf, g, s.azimuth, [], s);
    assert [] + [s] == [s];
    assert Distinct(seen + [az]);
  }

  lemma {:induction false} PlacedNewRow(pf: Platform, g: ZenithGrid, acc: Grouping, done: seq<PcvSample>, s: PcvSample)
    requires GroupOk(pf, g, acc, done) && s.azimuth.Some? && acc.row != AzimuthRow(s.azimuth.value)
    requires SampleOk(pf, g, s) && Follows(acc, s, Index(pf, g, s))
    ensures GroupOk(pf, g, Placed(pf, acc, s, Index(pf, g, s)), done + [s])
  {
    hide SampleOk, FitsF8, RowOk, Distinct, Flatten;
    assert acc.row.AzimuthRow? || acc.seen == [];
    RowsAdd(pf, g, acc.rows, acc.seen, s);
    assert acc.noazi + (Flatten(acc.rows) + [s]) == acc.noazi + Flatten(acc.rows) + [s];
  }

  lemma {:induction false} GroupFromOk(pf: Platform, g: ZenithGrid, acc: Grouping, done: seq<PcvSample>, samples: seq<PcvSample>)
    requires GroupOk(pf, g, acc, done) && GroupFrom(pf, g, acc, samples).Some?
    ensures GroupOk(pf, g, GroupFrom(pf, g, acc, samples).value, done + samples)
    decreases |samples|
  {
    hide GroupOk, GroupSample;
    if samples == [] {
      assert done + samples == done;
    } else {
      var s := samples[0];
      var acc' := GroupSample(pf, g, acc, s).value;
      GroupSampleOk(pf, g, acc, done, s);
      GroupFromOk(pf, g, acc', done + [s], samples[1..]);
      assert done + [s] + samples[1..] == done + samples;
    }
  }

  lemma {:induction false} GroupSampleOk(pf: Platform, g: ZenithGrid, acc: Grouping, done: seq<PcvSample>, s: PcvSample)
    requires GroupOk(pf, g, acc, done) && GroupSample(pf, g, acc, s).Some?
    ensures GroupOk(pf, g, GroupSample(pf, g, acc, s).value, done + [s])
  {
    if s.azimuth.None? {
      PlacedNoazi(pf, g, acc, done, s);
    } else if acc.row == AzimuthRow(s.azimuth.value) {
      PlacedSameRow(pf, g, acc, done, s);
    } else {
      PlacedNewRow(pf, g, acc, done, s);
    }
  }

  /** Grouping an accepted list only partitions it: the NOAZI row and the azimuth
      rows concatenate back to the list, indices rise strictly in each row, and no
      azimuth heads two rows. */
  lemma GroupingPartitions(pf: Platform, g: ZenithGrid, samples: seq<PcvSample>)
    requires GroupSamples(pf, g, samples).Some?
    ensures var groups := GroupSamples(pf, g, samples).value;
            && groups.noazi + Flatten(groups.rows) == samples
            && RowOk(pf, g, None, groups.noazi)
            && RowsOk(pf, g, groups.rows, groups.seen)
  {
    assert GroupOk(pf, g, NO_GROUPS, []);
    GroupFromOk(pf, g, NO_GROUPS, [], samples);
    assert [] + samples == samples;
  }

  // ----- one rendered row -----

  /** The values the reader finds in the fields of those samples. */
  function Expected(pf: Platform, g: ZenithGrid, samples: seq<PcvSample>): (r: seq<(nat, F64)>)
    requires forall i :: 0 <= i < |samples| ==> FitsMm(pf, samples[i].value, 8)
    ensures |r| == |samples|
    ensures forall i :: 0 <= i < |r| ==> r[i] == (Index(pf, g, samples[i]), Millimetres(pf, samples[i].value, 8))
  {
    if samples == [] then []
    else [(Index(pf, g, samples[0]), Millimetres(pf, samples[0].value, 8))] + Expected(pf, g, samples[1..])
  }

  /** Samples whose positions lie in `k..last`, rising, and free in the section. */
  ghost predicate Awaiting(pf: Platform, g: ZenithGrid, key: Option<F64>, occupied: set<(Option<F64>, nat)>,
                           samples: seq<PcvSample>, k: nat, last: nat)
  {
    && Rising(pf, g, samples)
    && forall i :: 0 <= i < |samples| ==>
         && FitsMm(pf, samples[i].value, 8)
         && k <= Index(pf, g, samples[i]) <= last
         && (key, Index(pf, g, samples[i])) !in occupied
  }

  lemma {:induction false} FieldOfCell(pre: string, cell: string, rest: string)
    requires |cell| == 8
    ensures Field(pre + cell + rest, |pre|, |pre| + 8) == if Trim(cell) == "" then None else Some(Trim(cell))
  {
    var line := pre + cell + rest;
    assert line[|pre|..|pre| + 8] == cell;
  }

  lemma TrimBlanks(n: nat)
    ensures Trim(Blanks(n)) == ""
  {
    TrimPadded("", n);
    assert "" + Blanks(n) == Blanks(n);
  }

  /** Reading the fields from `k` on finds exactly the samples written there. */
  lemma {:induction false} CellsRead(pf: Platform, g: ZenithGrid, key: Option<F64>, occupied: set<(Option<F64>, nat)>, n: nat,
                                     pre: string, samples: seq<PcvSample>, k: nat, last: nat)
    requires Lawful(pf) && pf.sign(g.step) == Positive
    requires Awaiting(pf, g, key, occupied, samples, k, last)
    requires |pre| == 8 + 8 * k && k <= last + 1
    ensures RowValues(pf, g.step, key, occupied, n, pre + Cells(pf, g, samples, k, last), k)
            == Ok(Row(Expected(pf, g, samples), []))
    decreases last + 1 - k
  {
    hide Lawful, FitsMm;
    var rest := Cells(pf, g, samples, k, last);
    if samples == [] && k > last {
      assert pre + rest == pre;
    } else if samples != [] && Index(pf, g, samples[0]) == k {
      SampleCellRead(pf, g, key, occupied, n, pre, samples, k, last);
    } else {
      BlankCellRead(pf, g, key, occupied, n, pre, samples, k, last);
    }
  }

  /** One field of a row: its value, or nothing when it is blank. */
  lemma {:induction false} RowValuesCell(pf: Platform, step: F64, key: Option<F64>, occupied: set<(Option<F64>, nat)>, n: nat,
                                         pre: string, cell: string, cells: string, k: nat)
    requires |pre| == 8 + 8 * k && |cell| == 8 && pf.sign(step) == Positive && (key, k) !in occupied
    ensures var line := pre + cell + cells;
            var rest := RowValues(pf, step, key, occupied, n, line, k + 1);
            && (Trim(cell) == "" ==> RowValues(pf, step, key, occupied, n, line, k) == rest)
            && (Trim(cell) != "" && StrictF64(pf, Trim(cell)).Some? && rest.Ok? ==>
                  RowValues(pf, step, key, occupied, n, line, k)
                  == Ok(Row([(k, StrictF64(pf, Trim(cell)).value)] + rest.value.values, rest.value.skips)))
  {
    FieldOfCell(pre, cell, cells);
    hide Field, Trim, StrictF64;
  }

  lemma {:induction false} BlankField(pf: Platform, step: F64, key: Option<F64>, occupied: set<(Option<F64>, nat)>, n: nat,
                                      pre: string, cells: string, k: nat)
    requires |pre| == 8 + 8 * k
    ensures var line := pre + Blanks(8) + cells;
            RowValues(pf, step, key, occupied, n, line, k) == RowValues(pf, step, key, occupied, n, line, k + 1)
  {
    FieldOfCell(pre, Blanks(8), cells);
    TrimBlanks(8);
    hide Field, Trim, StrictF64;
  }

  lemma {:induction false} SampleCellRead(pf: Platform, g: ZenithGrid, key: Option<F64>, occupied: set<(Option<F64>, nat)>, n: nat,
                                          pre: string, samples: seq<PcvSample>, k: nat, last: nat)
    requires Lawful(pf) && pf.sign(g.step) == Positive
    requires Awaiting(pf, g, key, occupied, samples, k, last)
    requires |pre| == 8 + 8 * k && k <= last
    requires samples != [] && Index(pf, g, samples[0]) == k
    ensures RowValues(pf, g.step, key, occupied, n, pre + Cells(pf, g, samples, k, last), k)
            == Ok(Row(Expected(pf, g, samples), []))
    decreases last + 1 - k, 0
  {
    var v := samples[0].value;
    var cell := MmText(pf, v, 8);
    AwaitRest(pf, g, key, occupied, samples, k, last);
    MmReads(pf, v, 8);
    assert |cell| == 8;
    hide Lawful, FitsMm, MmText, Trim, StrictF64, RowValues, Awaiting, Index;
    var cells := Cells(pf, g, samples[1..], k + 1, last);
    assert pre + (cell + cells) == pre + cell + cells;
    RowValuesCell(pf, g.step, key, occupied, n, pre, cell, cells, k);
    CellsRead(pf, g, key, occupied, n, pre + cell, samples[1..], k + 1, last);
  }

  lemma {:induction false} AwaitRest(pf: Platform, g: ZenithGrid, key: Option<F64>, occupied: set<(Option<F64>, nat)>,
                                     samples: seq<PcvSample>, k: nat, last: nat)
    requires Awaiting(pf, g, key, occupied, samples, k, last)
    requires samples != [] && Index(pf, g, samples[0]) == k
    ensures FitsMm(pf, samples[0].value, 8) && (key, k) !in occupied
    ensures Awaiting(pf, g, key, occupied, samples[1..], k + 1, last)
  {
    hide FitsMm, Index;
    forall i | 0 <= i < |samples[1..]| ensures k + 1 <= Index(pf, g, samples[1..][i]) {
      assert Index(pf, g, samples[0]) < Index(pf, g, samples[i + 1]);
    }
  }

  lemma {:induction false} AwaitLater(pf: Platform, g: ZenithGrid, key: Option<F64>, occupied: set<(Option<F64>, nat)>,
                                      samples: seq<PcvSample>, k: nat, last: nat)
    requires Awaiting(pf, g, key, occupied, samples, k, last)
    requires samples == [] || Index(pf, g, samples[0]) != k
    ensures Awaiting(pf, g, key, occupied, samples, k + 1, last)
  {
    hide FitsMm, Index;
    forall i | 0 <= i < |samples| ensures k + 1 <= Index(pf, g, samples[i]) {
      if i > 0 {
        assert Index(pf, g, samples[0]) < Index(pf, g, samples[i]);
      }
    }
  }

  lemma {:induction false} BlankCellRead(pf: Platform, g: ZenithGrid, key: Option<F64>, occupied: set<(Option<F64>, nat)>, n: nat,
                                         pre: string, samples: seq<PcvSample>, k: nat, last: nat)
    requires Lawful(pf) && pf.sign(g.step) == Positive
    requires Awaiting(pf, g, key, occupied, samples, k, last)
    requires |pre| == 8 + 8 * k && k <= last
    requires samples == [] || Index(pf, g, samples[0]) != k
    ensures RowValues(pf, g.step, key, occupied, n, pre + Cells(pf, g, samples, k, last), k)
            == Ok(Row(Expected(pf, g, samples), []))
    decreases last + 1 - k, 0
  {
    AwaitLater(pf, g, key, occupied, samples, k, last);
    hide Lawful, FitsMm, Awaiting, RowValues, Trim, StrictF64, Index;
    var cells := Cells(pf, g, samples, k + 1, last);
    assert pre + (Blanks(8) + cells) == pre + Blanks(8) + cells;
    BlankField(pf, g.step, key, occupied, n, pre, cells, k);
    CellsRead(pf, g, key, occupied, n, pre + Blanks(8), samples, k + 1, last);
  }

  /** The positions a row fills. */
  function PositionsOf(pf: Platform, g: ZenithGrid, key: Option<F64>, samples: seq<PcvSample>): set<(Option<F64>, nat)> {
    set i | 0 <= i < |samples| :: (key, Index(pf, g, samples[i]))
  }

  lemma {:induction false} SamplesRestored(pf: Platform, g: ZenithGrid, key: Option<F64>, samples: seq<PcvSample>)
    requires Lawful(pf) && RowOk(pf, g, key, samples) && pf.sign(g.step) == Positive
    ensures Samples(pf, g, key, Expected(pf, g, samples)) == samples
    ensures Positions(key, Expected(pf, g, samples)) == PositionsOf(pf, g, key, samples)
  {
    RowFits(pf, g, key, samples);
    hide Lawful, Index, Millimetres, SampleAt, SampleOk, Samples, Positions, PositionsOf, Rising, FitsMm;
    var values := Expected(pf, g, samples);
    forall i | 0 <= i < |samples|
      ensures SampleAt(pf, g, key, values[i].0, values[i].1) == samples[i]
    {
      SampleRestored(pf, g, samples[i]);
    }
    SamePositions(pf, g, key, samples);
  }

  lemma {:induction false} SamePositions(pf: Platform, g: ZenithGrid, key: Option<F64>, samples: seq<PcvSample>)
    requires RowOk(pf, g, key, samples)
    ensures (forall i :: 0 <= i < |samples| ==> FitsMm(pf, samples[i].value, 8))
         && Positions(key, Expected(pf, g, samples)) == PositionsOf(pf, g, key, samples)
  {
    RowFits(pf, g, key, samples);
    hide Index, Millimetres, SampleOk, Rising, FitsMm;
  }

  lemma {:induction false} SampleRestored(pf: Platform, g: ZenithGrid, s: PcvSample)
    requires Lawful(pf) && SampleOk(pf, g, s) && pf.sign(g.step) == Positive
    ensures SampleAt(pf, g, s.azimuth, Index(pf, g, s), Millimetres(pf, s.value, 8)) == s
  {
    MmReads(pf, s.value, 8);
    hide Lawful, FitsMm, FitsF8;
  }

  /** Reading a rendered row returns the row's samples, in order, and nothing else:
      interior gaps, trailing blanks and samples past ZEN2 included. */
  lemma {:induction false} RowReads(pf: Platform, g: ZenithGrid, key: Option<F64>, head: string, samples: seq<PcvSample>,
                                    occupied: set<(Option<F64>, nat)>, n: nat)
    requires Lawful(pf) && RowOk(pf, g, key, samples) && pf.sign(g.step) == Positive
    requires |head| == 8
    requires PositionsOf(pf, g, key, samples) !! occupied
    ensures RowValues(pf, g.step, key, occupied, n, PcvRow(pf, g, head, samples), 0)
            == Ok(Row(Expected(pf, g, samples), []))
    ensures Samples(pf, g, key, Expected(pf, g, samples)) == samples
    ensures Positions(key, Expected(pf, g, samples)) == PositionsOf(pf, g, key, samples)
  {
    var last := LastIndex(pf, g, samples);
    assert Awaiting(pf, g, key, occupied, samples, 0, last) by {
      forall i | 0 <= i < |samples|
        ensures FitsMm(pf, samples[i].value, 8)
        ensures Index(pf, g, samples[i]) <= last
        ensures (key, Index(pf, g, samples[i])) !in occupied
      {
        assert SampleOk(pf, g, samples[i]);
        assert (key, Index(pf, g, samples[i])) in PositionsOf(pf, g, key, samples);
      }
    }
    hide Lawful, RowOk, Awaiting;
    CellsRead(pf, g, key, occupied, n, head, samples, 0, last);
    SamplesRestored(pf, g, key, samples);
  }

  lemma {:induction false} CellsNumeric(pf: Platform, g: ZenithGrid, samples: seq<PcvSample>, k: nat, last: nat)
    requires Lawful(pf) && forall i :: 0 <= i < |samples| ==> FitsMm(pf, samples[i].value, 8)
    ensures forall i :: 0 <= i < |Cells(pf, g, samples, k, last)| ==> IsNumeric(Cells(pf, g, samples, k, last)[i])
    decreases last + 1 - k
  {
    if k <= last {
      if samples != [] && Index(pf, g, samples[0]) == k {
        MmReads(pf, samples[0].value, 8);
        CellsNumeric(pf, g, samples[1..], k + 1, last);
      } else {
        CellsNumeric(pf, g, samples, k + 1, last);
      }
    }
  }

  /** Numbers in the label columns make the line a grid row. */
  lemma {:induction false} RowIsGridRow(line: string)
    requires forall i :: 60 <= i < |line| ==> IsNumeric(line[i])
    ensures LabelOf(Tag(line)) == GridRow
  {
    var raw := RawField(line, 60, 80);
    var at := TrimWithin(raw);
    assert forall i :: 0 <= i < |raw| ==> raw[i] == line[60 + i];
    LabelOfNumeric(Tag(line));
  }

  lemma {:induction false} TrimNonblank(s: string, i: nat)
    requires i < |s| && !IsSpace(s[i])
    ensures Trim(s) != ""
  {
    TrimStartKeeps(s, i);
    var t := TrimStart(s);
    TrimStartSuffix(s);
    if TrimEnd(t) == "" {
      TrimEndKeeps(t, 0);
    }
  }

  lemma {:induction false} TrimStartKeeps(s: string, i: nat)
    requires i < |s| && !IsSpace(s[i])
    ensures TrimStart(s) != ""
  {
    if IsSpace(s[0]) {
      TrimStartKeeps(s[1..], i - 1);
    }
  }

  lemma {:induction false} TrimEndKeeps(s: string, i: nat)
    requires i < |s| && !IsSpace(s[i])
    ensures TrimEnd(s) != ""
  {
    if IsSpace(s[|s| - 1]) {
      TrimEndKeeps(s[..|s| - 1], i);
    }
  }

  /** A row head the reader takes for `key`. */
  ghost predicate HeadOk(pf: Platform, key: Option<F64>, head: string) {
    && |head| == 8
    && Trim(head) != ""
    && match key
       case None => Trim(head) == "NOAZI"
       case Some(az) => Trim(head) != "NOAZI" && StrictF64(pf, Trim(head)) == Some(az)
  }

  lemma NoaziHead(pf: Platform)
    ensures HeadOk(pf, None, NOAZI_HEAD)
  {
    assert NOAZI_HEAD == Blanks(3) + "NOAZI" + Blanks(0);
    TrimSurrounded(3, "NOAZI", 0);
  }

  lemma {:induction false} AzimuthHead(pf: Platform, az: F64)
    requires Lawful(pf) && FitsF8(pf, az)
    ensures HeadOk(pf, Some(az), pf.text(az, 8, 1))
  {
    F8Reads(pf, az);
    NumericTrim(pf.text(az, 8, 1));
    assert "NOAZI"[0] == 'N';
  }

  /** The state after a row has been placed in the open section. */
  function WithRow(pf: Platform, g: ZenithGrid, key: Option<F64>, samples: seq<PcvSample>, s: State): State
    requires s.section.Some?
  {
    var sec := s.section.value;
    s.(section := Some(sec.(samples := sec.samples + samples,
                            occupied := sec.occupied + PositionsOf(pf, g, key, samples))))
  }

  lemma {:induction false} RowLine(pf: Platform, g: ZenithGrid, key: Option<F64>, head: string, samples: seq<PcvSample>)
    requires Lawful(pf) && HeadOk(pf, key, head) && RowOk(pf, g, key, samples)
    ensures var line := PcvRow(pf, g, head, samples);
            && LabelOf(Tag(line)) == GridRow
            && Trim(line) != ""
            && Field(line, 0, 8) == Some(Trim(head))
  {
    RowFits(pf, g, key, samples);
    RowText(pf, g, head, samples);
    var cells := Cells(pf, g, samples, 0, LastIndex(pf, g, samples));
    assert |head| == 8 && Trim(head) != "";
    hide RowOk, Lawful, Cells, LabelOf, Tag, StrictF64, FitsMm, LastIndex, Field, HeadOk, PcvRow, Trim;
    CellsNumeric(pf, g, samples, 0, LastIndex(pf, g, samples));
    RowIsGridRow(head + cells);
    HeadNonblank(head, cells);
    assert "" + head + cells == head + cells;
    FieldOfCell("", head, cells);
  }

  lemma RowFits(pf: Platform, g: ZenithGrid, key: Option<F64>, samples: seq<PcvSample>)
    requires RowOk(pf, g, key, samples)
    ensures forall i :: 0 <= i < |samples| ==> FitsMm(pf, samples[i].value, 8)
  {
    hide FitsMm, FitsF8, Index, MaxGridIndex, ZenithAt, RawIndex;
  }

  lemma RowText(pf: Platform, g: ZenithGrid, head: string, samples: seq<PcvSample>)
    requires |head| == 8
    ensures PcvRow(pf, g, head, samples) == head + Cells(pf, g, samples, 0, LastIndex(pf, g, samples))
  {
    hide Cells, LastIndex;
    assert Pad(head, 8) == head;
  }

  lemma HeadNonblank(head: string, cells: string)
    requires Trim(head) != ""
    ensures Trim(head + cells) != ""
  {
    var at := TrimWithin(head);
    assert head[at] == Trim(head)[0];
    TrimNonblank(head + cells, at);
  }

  /** A line of numbers inside a section is placed as a row. */
  lemma {:induction false} StepGridRow(pf: Platform, key: Option<F64>, head: string, n: nat, line: string, s: State)
    requires LabelOf(Tag(line)) == GridRow && Trim(line) != "" && s.section.Some?
    requires HeadOk(pf, key, head) && Field(line, 0, 8) == Some(Trim(head))
    ensures Step(pf, n, line, s) == AddPcvValues(pf, key, n, line, s)
  {
    hide LabelOf, Tag, Trim, Field, StrictF64, AddPcvValues;
    hide OpenBlock, EndBlock, ReadTypeSerial, ReadCalibration, ReadDazi, ReadZenith, ReadFrequencyCount, ReadSinex;
    hide ReadValid, ReadComment, ReadVersion, ReadPcvType, ReadEndOfHeader, BeginSection, EndSection, ReadPco;
  }

  /** A row whose values are read is placed as its samples. */
  lemma ReadRowPlaced(pf: Platform, g: ZenithGrid, key: Option<F64>, samples: seq<PcvSample>, values: seq<(nat, F64)>,
                      n: nat, line: string, s: State)
    requires s.section.Some? && s.current.Some? && s.current.value.antenna.grid == Some(g)
    requires RowValues(pf, g.step, key, s.section.value.occupied, n, line, 0) == Ok(Row(values, []))
    requires Samples(pf, g, key, values) == samples && Positions(key, values) == PositionsOf(pf, g, key, samples)
    ensures AddPcvValues(pf, key, n, line, s) == Ok(WithRow(pf, g, key, samples, s))
  {
    hide RowValues, Samples, Positions, PositionsOf;
    assert s.skips + [] == s.skips;
  }

  /** One rendered row is one step of the reader that appends exactly its samples. */
  lemma {:induction false} RowStep(pf: Platform, g: ZenithGrid, key: Option<F64>, head: string, samples: seq<PcvSample>, n: nat, s: State)
    requires Lawful(pf) && RowOk(pf, g, key, samples) && pf.sign(g.step) == Positive
    requires HeadOk(pf, key, head)
    requires s.section.Some? && s.current.Some? && s.current.value.antenna.grid == Some(g)
    requires PositionsOf(pf, g, key, samples) !! s.section.value.occupied
    ensures Step(pf, n, PcvRow(pf, g, head, samples), s) == Ok(WithRow(pf, g, key, samples, s))
  {
    assert |head| == 8;
    hide Step, Lawful, RowOk, PcvRow, LabelOf, Tag, Trim, Field, RowValues, StrictF64, Samples, Positions, PositionsOf, HeadOk;
    hide AddPcvValues, WithRow, Expected;
    RowReads(pf, g, key, head, samples, s.section.value.occupied, n);
    RowLine(pf, g, key, head, samples);
    StepGridRow(pf, key, head, n, PcvRow(pf, g, head, samples), s);
    ReadRowPlaced(pf, g, key, samples, Expected(pf, g, samples), n, PcvRow(pf, g, head, samples), s);
  }
}
