/** When the writer accepts numbers and grid samples: exactly when the reader would
    read them back, stated without the writer's own checks. */
module AntexAcceptanceRows {
  import opened Text
  import opened AntexTypes
  import opened AntexReader
  import opened AntexWriter
  import opened PcvRows
  import L = AntexLayout

  // ----- numbers -----

  /** A text of that many columns which is read as that number. */
  predicate Prints(pf: Platform, text: string, width: nat, v: F64) {
    |text| == width && L.Number(pf, text) == Some(v)
  }

  /** A number with one decimal in six columns, zero or above. */
  predicate StatesF6(pf: Platform, v: F64) {
    Prints(pf, pf.text(v, 6, 1), 6, v) && pf.sign(v) in {Sign.Zero, Sign.Positive}
  }

  /** A number with one decimal in eight columns, of any sign. */
  predicate StatesF8(pf: Platform, v: F64) { Prints(pf, pf.text(v, 8, 1), 8, v) }

  /** A length in millimetres with two decimals, read back as the same meters. */
  ghost predicate StatesLength(pf: Platform, v: F64, width: nat) {
    var mm := pf.mul(v, pf.mmPerM);
    && pf.finite(v) && pf.finite(mm)
    && |pf.text(mm, width, 2)| == width
    && exists read :: L.Number(pf, pf.text(mm, width, 2)) == Some(read) && pf.mul(read, pf.mPerMm) == v
  }

  lemma {:induction false} NumericE(s: string)
    requires forall i :: 0 <= i < |s| ==> IsNumeric(s[i])
    ensures L.WithE(s) == s
  {
    if s != "" {
      assert s == [s[0]] + s[1..];
      NumericE(s[1..]);
    }
  }

  lemma NumericNumber(pf: Platform, text: string, v: F64)
    requires NumericText(text)
    ensures L.Number(pf, text) == Some(v) <==> pf.parse(Trim(text)) == Some(v) && pf.finite(v)
  {
    NumericTrim(text);
    NumericE(Trim(text));
    hide Trim, L.WithE;
  }

  lemma F6Exactly(pf: Platform, v: F64)
    requires Lawful(pf)
    ensures FitsF6(pf, v) <==> StatesF6(pf, v)
  {
    if pf.finite(v) {
      NumericNumber(pf, pf.text(v, 6, 1), v);
    }
    hide Trim, NumericText, L.WithE;
  }

  lemma F8Exactly(pf: Platform, v: F64)
    requires Lawful(pf)
    ensures FitsF8(pf, v) <==> StatesF8(pf, v)
  {
    if pf.finite(v) {
      NumericNumber(pf, pf.text(v, 8, 1), v);
    }
    hide Trim, NumericText, L.WithE;
  }

  lemma LengthExactly(pf: Platform, v: F64, width: nat)
    requires Lawful(pf)
    ensures FitsMm(pf, v, width) <==> StatesLength(pf, v, width)
  {
    var text := MmText(pf, v, width);
    if FitsMm(pf, v, width) {
      MmReads(pf, v, width);
      assert pf.finite(pf.mul(v, pf.mmPerM));
      NumericNumber(pf, text, Millimetres(pf, v, width));
      assert L.Number(pf, text) == Some(Millimetres(pf, v, width));
    }
    if StatesLength(pf, v, width) {
      var read :| L.Number(pf, text) == Some(read) && pf.mul(read, pf.mPerMm) == v;
      NumericNumber(pf, text, read);
    }
  }

  // ----- samples -----

  function InTenths(pf: Platform, v: F64): int { pf.toI64(pf.round(pf.mul(v, pf.ten))) }

  /** Steps from the start of the grid, rounded. */
  function Steps(pf: Platform, g: ZenithGrid, zenith: F64): F64 {
    pf.round(pf.div(pf.sub(zenith, g.start), g.step))
  }

  function Place(pf: Platform, g: ZenithGrid, s: PcvSample): nat { pf.toUsize(Steps(pf, g, s.zenith)) }

  /** The last index whose zenith six columns with one decimal can hold. */
  function LastPlace(pf: Platform, g: ZenithGrid): nat
    requires InTenths(pf, g.step) > 0
  {
    if InTenths(pf, g.start) > 99999 then 0 else (99999 - InTenths(pf, g.start)) / InTenths(pf, g.step)
  }

  /** A sample stands on the grid, where the reader would place its column, and its
      numbers are stated by theirs. */
  ghost predicate SampleStates(pf: Platform, g: ZenithGrid, s: PcvSample)
    requires InTenths(pf, g.step) > 0
  {
    && pf.finite(s.zenith)
    && (pf.sign(s.zenith) == Sign.Positive || (pf.sign(s.zenith) == Sign.Zero && !pf.signBit(s.zenith)))
    && !pf.less(s.zenith, g.start)
    && !pf.less(pf.ofUsize(LastPlace(pf, g)), Steps(pf, g, s.zenith))
    && s.zenith == pf.add(g.start, pf.mul(g.step, pf.ofUsize(Place(pf, g, s))))
    && StatesLength(pf, s.value, 8)
    && match s.azimuth
       case None => s.grid == NoAzimuth
       case Some(azimuth) => s.grid == Azimuth && StatesF8(pf, azimuth)
  }

  /** Samples stand row by row, those without an azimuth first: no row is split, and
      places rise within each. */
  ghost predicate RowByRow(pf: Platform, g: ZenithGrid, samples: seq<PcvSample>) {
    forall i, j :: 0 <= i < j < |samples| ==>
      && (samples[j].azimuth.None? ==> samples[i].azimuth.None?)
      && (samples[i].azimuth == samples[j].azimuth ==>
            && Place(pf, g, samples[i]) < Place(pf, g, samples[j])
            && forall m :: i < m < j ==> samples[m].azimuth == samples[i].azimuth)
  }

  /** Samples need a grid with a positive step. */
  ghost predicate RowsState(pf: Platform, grid: Option<ZenithGrid>, samples: seq<PcvSample>) {
    samples != [] ==>
      && grid.Some?
      && pf.sign(grid.value.step) !in {Sign.Negative, Sign.Zero}
      && InTenths(pf, grid.value.step) > 0
      && (forall i :: 0 <= i < |samples| ==> SampleStates(pf, grid.value, samples[i]))
      && RowByRow(pf, grid.value, samples)
  }

  lemma SampleExactly(pf: Platform, g: ZenithGrid, s: PcvSample)
    requires Lawful(pf) && InTenths(pf, g.step) > 0
    ensures SampleOk(pf, g, s) <==> SampleStates(pf, g, s)
  {
    LengthExactly(pf, s.value, 8);
    if s.azimuth.Some? {
      F8Exactly(pf, s.azimuth.value);
    }
    assert StatesLength(pf, s.value, 8) ==> pf.finite(s.value);
    assert pf.finite(s.zenith) ==> pf.sign(s.zenith) != Unordered;
    assert MaxGridIndex(pf, g) == LastPlace(pf, g);
    hide Lawful, FitsMm, FitsF8, StatesLength, StatesF8, MaxGridIndex, LastPlace;
  }

  /** How the grouping stands after some samples. */
  ghost predicate Follow(pf: Platform, g: ZenithGrid, acc: Grouping, done: seq<PcvSample>) {
    && (forall az :: az in acc.seen <==> exists i :: 0 <= i < |done| && done[i].azimuth == Some(az))
    && if done == [] then acc.row == NoRow
       else
         var s := done[|done| - 1];
         acc.last == Place(pf, g, s) && acc.row == if s.azimuth.None? then NoAziRow else AzimuthRow(s.azimuth.value)
  }

  lemma RowByRowPrefix(pf: Platform, g: ZenithGrid, samples: seq<PcvSample>, n: nat)
    requires n <= |samples| && RowByRow(pf, g, samples)
    ensures RowByRow(pf, g, samples[..n])
  {
    hide Place;
  }

  /** The next sample continues the grouping exactly when the list stays row by row. */
  lemma {:induction false} FollowsExactly(pf: Platform, g: ZenithGrid, acc: Grouping, done: seq<PcvSample>, s: PcvSample)
    requires Follow(pf, g, acc, done) && RowByRow(pf, g, done)
    ensures Follows(acc, s, Index(pf, g, s)) <==> RowByRow(pf, g, done + [s])
  {
    var n, all, k := |done|, done + [s], Index(pf, g, s);
    assert k == Place(pf, g, s);
    hide Place, Index;
    if RowByRow(pf, g, all) {
      if n > 0 {
        assert all[n - 1] == done[n - 1] && all[n] == s;
        if s.azimuth.Some? && s.azimuth.value in acc.seen {
          var i :| 0 <= i < n && done[i].azimuth == s.azimuth;
          assert all[i] == done[i];
          assert all[n - 1].azimuth == all[i].azimuth;
        }
      }
    }
    if Follows(acc, s, k) {
      forall i, j | 0 <= i < j < n + 1
        ensures all[j].azimuth.None? ==> all[i].azimuth.None?
        ensures all[i].azimuth == all[j].azimuth ==> Place(pf, g, all[i]) < Place(pf, g, all[j])
        ensures all[i].azimuth == all[j].azimuth ==> forall m :: i < m < j ==> all[m].azimuth == all[i].azimuth
      {
        if j < n {
          assert all[i] == done[i] && all[j] == done[j];
        } else {
          LastFollows(pf, g, acc, done, s, i);
        }
      }
    }
  }

  lemma {:induction false} LastFollows(pf: Platform, g: ZenithGrid, acc: Grouping, done: seq<PcvSample>, s: PcvSample, i: nat)
    requires Follow(pf, g, acc, done) && RowByRow(pf, g, done) && i < |done|
    requires Follows(acc, s, Place(pf, g, s))
    ensures s.azimuth.None? ==> done[i].azimuth.None?
    ensures done[i].azimuth == s.azimuth ==> Place(pf, g, done[i]) < Place(pf, g, s)
    ensures done[i].azimuth == s.azimuth ==> forall m :: i < m < |done| ==> done[m].azimuth == done[i].azimuth
  {
    hide Place;
    var n := |done|;
    if i < n - 1 {
      assert done[n - 1].azimuth.None? ==> done[i].azimuth.None?;
    }
    if done[i].azimuth == s.azimuth && s.azimuth.Some? {
      assert s.azimuth.value in acc.seen;
    }
  }

  lemma {:induction false} PlacedFollows(pf: Platform, g: ZenithGrid, acc: Grouping, done: seq<PcvSample>, s: PcvSample)
    requires Follow(pf, g, acc, done)
    ensures Follow(pf, g, Placed(pf, acc, s, Index(pf, g, s)), done + [s])
  {
    var all := done + [s];
    assert all[..|done|] == done && all[|done|] == s;
    assert Index(pf, g, s) == Place(pf, g, s);
    hide Place, Index, PushToLast;
    var seen := Placed(pf, acc, s, Index(pf, g, s)).seen;
    forall az ensures az in seen <==> exists i :: 0 <= i < |all| && all[i].azimuth == Some(az) {
      if i :| 0 <= i < |all| && all[i].azimuth == Some(az) {
        if i < |done| {
          assert done[i] == all[i];
        }
      }
      if az in seen {
        if az in acc.seen {
          var i :| 0 <= i < |done| && done[i].azimuth == Some(az);
          assert all[i].azimuth == Some(az);
        } else {
          assert all[|done|].azimuth == Some(az);
        }
      }
    }
  }

  lemma {:induction false} GroupFromExactly(pf: Platform, g: ZenithGrid, acc: Grouping, done: seq<PcvSample>, samples: seq<PcvSample>)
    requires Lawful(pf) && InTenths(pf, g.step) > 0
    requires Follow(pf, g, acc, done) && RowByRow(pf, g, done)
    ensures GroupFrom(pf, g, acc, samples).Some? <==>
      (forall i :: 0 <= i < |samples| ==> SampleStates(pf, g, samples[i])) && RowByRow(pf, g, done + samples)
    decreases |samples|
  {
    hide Lawful, SampleOk, SampleStates, Follow, Follows, Placed, RowByRow;
    if samples == [] {
      assert done + samples == done;
    } else {
      var s := samples[0];
      var k := Index(pf, g, s);
      hide Index;
      SampleExactly(pf, g, s);
      FollowsExactly(pf, g, acc, done, s);
      assert done + samples == done + [s] + samples[1..];
      assert (done + samples)[..|done| + 1] == done + [s];
      if SampleOk(pf, g, s) && Follows(acc, s, k) {
        PlacedFollows(pf, g, acc, done, s);
        GroupFromExactly(pf, g, Placed(pf, acc, s, k), done + [s], samples[1..]);
      } else if RowByRow(pf, g, done + samples) {
        RowByRowPrefix(pf, g, done + samples, |done| + 1);
      }
    }
  }

  /** The writer takes a section's samples exactly when they stand row by row on the
      grid with numbers their columns state. */
  lemma RowsExactly(pf: Platform, grid: Option<ZenithGrid>, samples: seq<PcvSample>)
    requires Lawful(pf)
    ensures RowsFit(pf, grid, samples) <==> RowsState(pf, grid, samples)
  {
    hide Lawful, GroupFrom, SampleStates, RowByRow, Follow, InTenths;
    if samples != [] && grid.Some? && InTenths(pf, grid.value.step) > 0 {
      GroupedFromNothing(pf, grid.value, samples);
    }
    TenthsAre(pf, grid);
    hide Tenths;
  }

  lemma TenthsAre(pf: Platform, grid: Option<ZenithGrid>)
    ensures grid.Some? ==> Tenths(pf, grid.value.step) == InTenths(pf, grid.value.step)
  {
  }

  lemma GroupedFromNothing(pf: Platform, g: ZenithGrid, samples: seq<PcvSample>)
    requires Lawful(pf) && InTenths(pf, g.step) > 0
    ensures GroupFrom(pf, g, NO_GROUPS, samples).Some? <==>
      (forall i :: 0 <= i < |samples| ==> SampleStates(pf, g, samples[i])) && RowByRow(pf, g, samples)
  {
    assert Follow(pf, g, NO_GROUPS, []);
    assert RowByRow(pf, g, []);
    hide Lawful, GroupFrom, SampleStates, RowByRow, Follow, InTenths;
    GroupFromExactly(pf, g, NO_GROUPS, [], samples);
    assert [] + samples == samples;
  }

  // ----- the text of a row -----

  /** The last column of a row: the grid's end, or the last sample when it lies past it. */
  ghost predicate IsLast(pf: Platform, g: ZenithGrid, samples: seq<PcvSample>, last: nat) {
    var start, end, step := InTenths(pf, g.start), InTenths(pf, g.end), InTenths(pf, g.step);
    var declared := if step > 0 && end >= start then (end - start) / step else 0;
    && declared <= last
    && (forall s :: s in samples ==> Place(pf, g, s) <= last)
    && (last == declared || exists s :: s in samples && Place(pf, g, s) == last)
  }

  /** A column holds the millimetres of the sample standing there, or eight blanks. */
  ghost predicate ColumnIs(pf: Platform, g: ZenithGrid, samples: seq<PcvSample>, k: nat, column: string) {
    && (forall s :: s in samples && Place(pf, g, s) == k ==> column == pf.text(pf.mul(s.value, pf.mmPerM), 8, 2))
    && ((forall s :: s in samples ==> Place(pf, g, s) != k) ==> column == "        ")
  }

  lemma {:induction false} MaxIs(pf: Platform, g: ZenithGrid, samples: seq<PcvSample>)
    ensures var m := MaxSampleIndex(pf, g, samples);
      && (forall s :: s in samples ==> Place(pf, g, s) <= m)
      && (m == 0 || exists s :: s in samples && Place(pf, g, s) == m)
  {
    if samples != [] {
      MaxIs(pf, g, samples[1..]);
      assert Index(pf, g, samples[0]) == Place(pf, g, samples[0]);
      hide Index, Place;
      assert forall s :: s in samples <==> s == samples[0] || s in samples[1..];
    }
  }

  lemma LastIs(pf: Platform, g: ZenithGrid, samples: seq<PcvSample>)
    ensures IsLast(pf, g, samples, LastIndex(pf, g, samples))
  {
    MaxIs(pf, g, samples);
    hide Index, Place, MaxSampleIndex;
  }

  lemma EightBlanks()
    ensures Blanks(8) == "        "
  {
  }

  /** Samples whose places rise from `k` on and end by `last`. */
  ghost predicate Ahead(pf: Platform, g: ZenithGrid, samples: seq<PcvSample>, k: nat, last: nat) {
    && Rising(pf, g, samples)
    && forall i :: 0 <= i < |samples| ==> FitsMm(pf, samples[i].value, 8) && k <= Index(pf, g, samples[i]) <= last
  }

  ghost predicate Here(pf: Platform, g: ZenithGrid, samples: seq<PcvSample>, k: nat) {
    samples != [] && Index(pf, g, samples[0]) == k
  }

  ghost function CellHere(pf: Platform, g: ZenithGrid, samples: seq<PcvSample>, k: nat): string {
    if Here(pf, g, samples, k) then MmText(pf, samples[0].value, 8) else Blanks(8)
  }

  ghost function Later(pf: Platform, g: ZenithGrid, samples: seq<PcvSample>, k: nat): seq<PcvSample> {
    if Here(pf, g, samples, k) then samples[1..] else samples
  }

  lemma CellsSplit(pf: Platform, g: ZenithGrid, samples: seq<PcvSample>, k: nat, last: nat)
    requires Ahead(pf, g, samples, k, last) && k <= last
    ensures Cells(pf, g, samples, k, last)
         == CellHere(pf, g, samples, k) + Cells(pf, g, Later(pf, g, samples, k), k + 1, last)
    ensures |CellHere(pf, g, samples, k)| == 8
  {
    if Here(pf, g, samples, k) {
      CellWidth(pf, samples[0].value);
    }
    hide Rising, FitsMm, Index, MmText;
  }

  lemma CellWidth(pf: Platform, v: F64)
    requires FitsMm(pf, v, 8)
    ensures |MmText(pf, v, 8)| == 8
  {
  }

  lemma AheadLater(pf: Platform, g: ZenithGrid, samples: seq<PcvSample>, k: nat, last: nat)
    requires Ahead(pf, g, samples, k, last)
    ensures Ahead(pf, g, Later(pf, g, samples, k), k + 1, last)
  {
    hide Index, FitsMm;
    forall i | 0 < i < |samples| ensures Index(pf, g, samples[0]) < Index(pf, g, samples[i]) {
    }
  }

  lemma CellHereIs(pf: Platform, g: ZenithGrid, samples: seq<PcvSample>, k: nat, last: nat)
    requires Ahead(pf, g, samples, k, last)
    ensures ColumnIs(pf, g, samples, k, CellHere(pf, g, samples, k))
  {
    EightBlanks();
    assert forall s :: Place(pf, g, s) == Index(pf, g, s);
    hide Index, Place, FitsMm, Blanks;
    forall i | 0 < i < |samples| ensures Index(pf, g, samples[i]) != k {
      assert Index(pf, g, samples[0]) < Index(pf, g, samples[i]);
    }
  }

  lemma ColumnLater(pf: Platform, g: ZenithGrid, samples: seq<PcvSample>, k: nat, j: nat, column: string)
    requires k < j && ColumnIs(pf, g, Later(pf, g, samples, k), j, column)
    ensures ColumnIs(pf, g, samples, j, column)
  {
    assert forall s :: Place(pf, g, s) == Index(pf, g, s);
    hide Index, Place;
    if Here(pf, g, samples, k) {
      assert forall s :: s in samples <==> s == samples[0] || s in samples[1..];
    }
  }

  lemma Slices(cell: string, tail: string, at: nat)
    requires |cell| == 8 && at + 8 <= |tail|
    ensures (cell + tail)[0..8] == cell && (cell + tail)[at + 8..at + 16] == tail[at..at + 8]
  {
  }

  lemma {:induction false} CellsAre(pf: Platform, g: ZenithGrid, samples: seq<PcvSample>, k: nat, last: nat, j: nat)
    requires Ahead(pf, g, samples, k, last) && k <= j <= last
    ensures var cells := Cells(pf, g, samples, k, last);
      && |cells| == 8 * (last + 1 - k)
      && ColumnIs(pf, g, samples, j, cells[8 * (j - k)..8 * (j - k) + 8])
    decreases last + 1 - k
  {
    hide Cells, CellHere, Later, Ahead, ColumnIs;
    CellsSplit(pf, g, samples, k, last);
    AheadLater(pf, g, samples, k, last);
    CellHereIs(pf, g, samples, k, last);
    var cell, rest := CellHere(pf, g, samples, k), Later(pf, g, samples, k);
    var tail := Cells(pf, g, rest, k + 1, last);
    if k < last {
      var next := if j == k then k + 1 else j;
      CellsAre(pf, g, rest, k + 1, last, next);
      Slices(cell, tail, 8 * (next - k - 1));
      if j > k {
        ColumnLater(pf, g, samples, k, j, tail[8 * (j - k - 1)..8 * (j - k - 1) + 8]);
      }
    } else {
      NoCells(pf, g, rest, k + 1, last);
      assert cell + tail == cell && cell[0..8] == cell;
    }
  }

  lemma NoCells(pf: Platform, g: ZenithGrid, samples: seq<PcvSample>, k: nat, last: nat)
    requires k > last
    ensures Cells(pf, g, samples, k, last) == ""
  {
  }

  /** A written row: its head in eight columns, then eight columns for each place from
      the first to the last of the declared grid or, past it, of the row's samples. */
  lemma WrittenRow(pf: Platform, g: ZenithGrid, key: Option<F64>, head: string, samples: seq<PcvSample>, last: nat, k: nat)
    requires RowOk(pf, g, key, samples) && |head| == 8
    requires IsLast(pf, g, samples, last) && k <= last
    ensures var line := PcvRow(pf, g, head, samples);
      && |line| == 16 + 8 * last && line[..8] == head
      && ColumnIs(pf, g, samples, k, line[8 + 8 * k..16 + 8 * k])
  {
    RowFits(pf, g, key, samples);
    LastIs(pf, g, samples);
    OneLast(pf, g, samples, last, LastIndex(pf, g, samples));
    RowText(pf, g, head, samples);
    RowAhead(pf, g, key, samples, last);
    hide RowOk, FitsMm, IsLast, LastIndex, Cells, ColumnIs, PcvRow, Ahead;
    var cells := Cells(pf, g, samples, 0, last);
    CellsAre(pf, g, samples, 0, last, k);
    assert (head + cells)[8 + 8 * k..16 + 8 * k] == cells[8 * k..8 * k + 8];
  }

  lemma RowAhead(pf: Platform, g: ZenithGrid, key: Option<F64>, samples: seq<PcvSample>, last: nat)
    requires RowOk(pf, g, key, samples) && IsLast(pf, g, samples, last)
    ensures Ahead(pf, g, samples, 0, last)
  {
    RowFits(pf, g, key, samples);
    assert forall s :: Place(pf, g, s) == Index(pf, g, s);
    hide Index, Place, SampleOk, FitsMm, Rising;
  }

  lemma OneLast(pf: Platform, g: ZenithGrid, samples: seq<PcvSample>, a: nat, b: nat)
    requires IsLast(pf, g, samples, a) && IsLast(pf, g, samples, b)
    ensures a == b
  {
    hide Place, InTenths;
  }
}
