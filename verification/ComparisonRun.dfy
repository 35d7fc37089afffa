/** `compare` over any source of satellite-epoch differences: the report it gives,
    how its parts add up, and what a common clock offset does to it. */
module ComparisonRun {

  import opened Text
  import opened Reals
  import opened Comparison
  import opened Triad

  /** What one satellite and epoch give, when both products cover it. */
  datatype Cell = Cell(orbit: real, radial: real, along: real, cross: real, clock: Option<real>)

  function DiffAt(epoch: nat, c: Cell): Diff { Diff(epoch, c.orbit, c.radial, c.along, c.cross, c.clock, None) }

  function OneDiff(at: (nat, nat) -> Option<Cell>, sat: nat, epoch: nat): seq<Diff> {
    match at(sat, epoch)
    case None => []
    case Some(c) => [DiffAt(epoch, c)]
  }

  /** The differences of one satellite over the first `n` epochs. */
  function DiffsOf(at: (nat, nat) -> Option<Cell>, sat: nat, n: nat): seq<Diff> {
    if n == 0 then [] else DiffsOf(at, sat, n - 1) + OneDiff(at, sat, n - 1)
  }

  function ListsOf(at: (nat, nat) -> Option<Cell>, sats: seq<nat>, n: nat): (r: seq<seq<Diff>>)
    ensures |r| == |sats| && forall i :: 0 <= i < |sats| ==> r[i] == DiffsOf(at, sats[i], n)
  {
    seq(|sats|, i requires 0 <= i < |sats| => DiffsOf(at, sats[i], n))
  }

  function ClockHere(d: Diff, epoch: nat): seq<real> {
    if d.epoch == epoch && d.clock.Some? then [d.clock.value] else []
  }

  function ClocksAt(diffs: seq<Diff>, epoch: nat): seq<real> {
    if diffs == [] then [] else ClocksAt(diffs[..|diffs| - 1], epoch) + ClockHere(diffs[|diffs| - 1], epoch)
  }

  /** The common offset of an epoch. */
  function DatumAt(all: seq<Diff>, epoch: nat): Option<real> { Median(ClocksAt(all, epoch)) }

  function Residual(d: Diff, datum: Option<real>): Diff {
    d.(residual := if d.clock.Some? && datum.Some? then Some(d.clock.value - datum.value) else None)
  }

  /** `enrich`, with the offsets of `all`. */
  function Enriched(diffs: seq<Diff>, all: seq<Diff>): (r: seq<Diff>)
    ensures |r| == |diffs| && forall i :: 0 <= i < |r| ==> r[i] == Residual(diffs[i], DatumAt(all, diffs[i].epoch))
  {
    seq(|diffs|, i requires 0 <= i < |diffs| => Residual(diffs[i], DatumAt(all, diffs[i].epoch)))
  }

  datatype Report = Report(perSatellite: seq<Stats>, overall: Stats, missing: seq<nat>)

  function StatsOf(lists: seq<seq<Diff>>, all: seq<Diff>): (r: seq<Stats>)
    ensures |r| == |lists| && forall i :: 0 <= i < |r| ==> r[i] == Aggregate(Enriched(lists[i], all))
  {
    seq(|lists|, i requires 0 <= i < |lists| => Aggregate(Enriched(lists[i], all)))
  }

  function Overall(lists: seq<seq<Diff>>): Stats { Aggregate(Enriched(Flatten(lists), Flatten(lists))) }

  /** The offset of an epoch, by counting: none without a clock there, and else the
      median of the epoch's clocks. */
  ghost predicate IsDatum(all: seq<Diff>, epoch: nat, datum: Option<real>) {
    match datum
    case None => forall i :: 0 <= i < |all| && all[i].epoch == epoch ==> all[i].clock.None?
    case Some(m) => IsMedian(ClocksAt(all, epoch), m)
  }

  lemma {:induction false} NoClocks(all: seq<Diff>, epoch: nat)
    ensures ClocksAt(all, epoch) == [] <==> forall i :: 0 <= i < |all| && all[i].epoch == epoch ==> all[i].clock.None?
  {
    if all != [] {
      NoClocks(all[..|all| - 1], epoch);
    }
  }

  lemma DatumIs(all: seq<Diff>, epoch: nat)
    ensures IsDatum(all, epoch, DatumAt(all, epoch))
  {
    hide Median, IsMedian, ClocksAt;
    MedianCounts(ClocksAt(all, epoch));
    NoClocks(all, epoch);
  }

  /** An enriched difference keeps its own values; its residual and the epoch's median
      add up to its clock, and it has a residual exactly when it has a clock. */
  lemma EnrichedMeans(diffs: seq<Diff>, all: seq<Diff>, i: nat)
    requires i < |diffs| && diffs[i] in all
    ensures var d, e := diffs[i], Enriched(diffs, all)[i];
      && e == d.(residual := e.residual)
      && (e.residual.Some? <==> d.clock.Some?)
      && (d.clock.Some? ==> IsMedian(ClocksAt(all, d.epoch), d.clock.value - e.residual.value))
  {
    hide DatumAt, IsMedian, ClocksAt;
    DatumIs(all, diffs[i].epoch);
  }

  // ----- the parts add up -----

  lemma EnrichedConcat(a: seq<Diff>, b: seq<Diff>, all: seq<Diff>)
    ensures Enriched(a + b, all) == Enriched(a, all) + Enriched(b, all)
  {
    hide DatumAt, Residual;
  }

  /** Count, squared sums and maxima over all satellites are those of the satellites,
      joined. */
  lemma {:induction false} PartsJoin(lists: seq<seq<Diff>>, all: seq<Diff>)
    ensures Aggregate(Enriched(Flatten(lists), all)) == JoinAll(StatsOf(lists, all))
  {
    hide Aggregate, JoinStats, Enriched;
    if lists == [] {
      NothingEnriched(all);
    } else {
      var n := |lists| - 1;
      PartsJoin(lists[..n], all);
      EnrichedConcat(Flatten(lists[..n]), lists[n], all);
      AggregateConcat(Enriched(Flatten(lists[..n]), all), Enriched(lists[n], all));
      assert StatsOf(lists, all)[..n] == StatsOf(lists[..n], all);
    }
  }

  lemma NothingEnriched(all: seq<Diff>)
    ensures Enriched([], all) == []
  {
  }

  // ----- orbit and components -----

  /** The orbit difference is as long as its three components together. */
  ghost predicate Resolved(orbit: real, radial: real, along: real, cross: real) {
    Times(orbit, orbit) == Times(radial, radial) + Times(along, along) + Times(cross, cross)
  }

  ghost predicate DiffsResolved(diffs: seq<Diff>) {
    forall i :: 0 <= i < |diffs| ==> Resolved(diffs[i].orbit, diffs[i].radial, diffs[i].along, diffs[i].cross)
  }

  ghost predicate StatsResolved(s: Stats) {
    s.orbit.squares == s.radial.squares + s.along.squares + s.cross.squares
  }

  /** The orbit difference of a cell formed from a difference `d`, a position and a
      velocity, given the lengths of `d`, of the position and of the momentum. */
  function TriadCell(d: Vec, r: Vec, v: Vec, lengthD: real, lengthR: real, lengthH: real, clock: Option<real>): Cell {
    var p := Project(d, r, v, lengthR, lengthH);
    Cell(lengthD, p.radial, p.along, p.cross, clock)
  }

  ghost predicate IsTriadCell(c: Cell) {
    exists d, r, v, lengthD, lengthR, lengthH :: FromTriad(c, d, r, v, lengthD, lengthR, lengthH)
  }

  ghost predicate FromTriad(c: Cell, d: Vec, r: Vec, v: Vec, lengthD: real, lengthR: real, lengthH: real) {
    && IsNorm(d, lengthD) && IsNorm(r, lengthR) && IsNorm(Cross(r, v), lengthH) && lengthR > 0.0 && lengthH > 0.0
    && c == TriadCell(d, r, v, lengthD, lengthR, lengthH, c.clock)
  }

  lemma TriadResolves(c: Cell)
    requires IsTriadCell(c)
    ensures Resolved(c.orbit, c.radial, c.along, c.cross)
  {
    hide Times, Project, Dot;
    var d, r, v, lengthD, lengthR, lengthH :| FromTriad(c, d, r, v, lengthD, lengthR, lengthH);
    ProjectionKeepsLength(d, r, v, lengthR, lengthH);
  }

  lemma {:induction false} SquaresResolved(diffs: seq<Diff>)
    requires DiffsResolved(diffs)
    ensures SpreadOf(Column(diffs, OrbitOf)).squares
         == SpreadOf(Column(diffs, RadialOf)).squares + SpreadOf(Column(diffs, AlongOf)).squares
          + SpreadOf(Column(diffs, CrossOf)).squares
  {
    hide Times, Abs;
    if diffs != [] {
      var n := |diffs| - 1;
      SquaresResolved(diffs[..n]);
      assert Resolved(diffs[n].orbit, diffs[n].radial, diffs[n].along, diffs[n].cross);
      ColumnLast(diffs, OrbitOf);
      ColumnLast(diffs, RadialOf);
      ColumnLast(diffs, AlongOf);
      ColumnLast(diffs, CrossOf);
    }
  }

  lemma ColumnLast(diffs: seq<Diff>, of: Diff -> real)
    requires diffs != []
    ensures Column(diffs, of) != [] && Column(diffs, of)[|diffs| - 1] == of(diffs[|diffs| - 1])
    ensures Column(diffs, of)[..|diffs| - 1] == Column(diffs[..|diffs| - 1], of)
  {
  }

  lemma {:induction false} DiffsOfResolved(at: (nat, nat) -> Option<Cell>, sat: nat, n: nat)
    requires forall s, e :: at(s, e).Some? ==> IsTriadCell(at(s, e).value)
    ensures DiffsResolved(DiffsOf(at, sat, n))
  {
    hide Resolved, IsTriadCell;
    if n > 0 {
      DiffsOfResolved(at, sat, n - 1);
      if at(sat, n - 1).Some? {
        TriadResolves(at(sat, n - 1).value);
      }
    }
  }

  lemma {:induction false} FlattenResolved(lists: seq<seq<Diff>>)
    requires forall i :: 0 <= i < |lists| ==> DiffsResolved(lists[i])
    ensures DiffsResolved(Flatten(lists))
  {
    hide Resolved;
    if lists != [] {
      FlattenResolved(lists[..|lists| - 1]);
    }
  }

  lemma EnrichedResolved(diffs: seq<Diff>, all: seq<Diff>)
    requires DiffsResolved(diffs)
    ensures StatsResolved(Aggregate(Enriched(diffs, all)))
  {
    hide DatumAt, SpreadOf, Resolved;
    var e := Enriched(diffs, all);
    forall i | 0 <= i < |e| ensures Resolved(e[i].orbit, e[i].radial, e[i].along, e[i].cross) {
      assert Resolved(diffs[i].orbit, diffs[i].radial, diffs[i].along, diffs[i].cross);
    }
    SquaresResolved(e);
  }

  /** When every cell comes from a position and a velocity that span an orbit, the
      orbit's squared sum is that of the three components together, for each
      satellite and overall. */
  lemma ReportResolved(at: (nat, nat) -> Option<Cell>, sats: seq<nat>, n: nat, i: nat)
    requires i < |sats| && forall s, e :: at(s, e).Some? ==> IsTriadCell(at(s, e).value)
    ensures var lists := ListsOf(at, sats, n);
      StatsResolved(Overall(lists)) && StatsResolved(StatsOf(lists, Flatten(lists))[i])
  {
    hide Aggregate, Enriched, DiffsOf, DiffsResolved, StatsResolved, IsTriadCell, Flatten;
    var lists := ListsOf(at, sats, n);
    forall k | 0 <= k < |sats| ensures DiffsResolved(lists[k]) {
      DiffsOfResolved(at, sats[k], n);
    }
    FlattenResolved(lists);
    EnrichedResolved(Flatten(lists), Flatten(lists));
    EnrichedResolved(lists[i], Flatten(lists));
  }

  // ----- a common clock offset -----

  function ShiftClock(c: Option<real>, offset: real): Option<real> {
    if c.Some? then Some(c.value + offset) else None
  }

  /** Every clock at an epoch moved by that epoch's offset. */
  function Shifted(diffs: seq<Diff>, offset: nat -> real): (r: seq<Diff>)
    ensures |r| == |diffs|
    ensures forall i :: 0 <= i < |r| ==> r[i] == diffs[i].(clock := ShiftClock(diffs[i].clock, offset(diffs[i].epoch)))
  {
    seq(|diffs|, i requires 0 <= i < |diffs| => diffs[i].(clock := ShiftClock(diffs[i].clock, offset(diffs[i].epoch))))
  }

  lemma {:induction false} ClocksShifted(diffs: seq<Diff>, offset: nat -> real, epoch: nat)
    ensures ClocksAt(Shifted(diffs, offset), epoch) == Added(ClocksAt(diffs, epoch), offset(epoch))
  {
    if diffs != [] {
      var n := |diffs| - 1;
      ClocksShifted(diffs[..n], offset, epoch);
      assert Shifted(diffs, offset)[..n] == Shifted(diffs[..n], offset);
      AddedConcat(ClocksAt(diffs[..n], epoch), ClockHere(diffs[n], epoch), offset(epoch));
      OneShifted(diffs[n], offset, epoch);
    }
  }

  lemma OneShifted(d: Diff, offset: nat -> real, epoch: nat)
    ensures ClockHere(d.(clock := ShiftClock(d.clock, offset(d.epoch))), epoch) == Added(ClockHere(d, epoch), offset(epoch))
  {
  }

  lemma AddedConcat(a: seq<real>, b: seq<real>, c: real)
    ensures Added(a + b, c) == Added(a, c) + Added(b, c)
  {
  }

  lemma DatumShifted(all: seq<Diff>, offset: nat -> real, epoch: nat)
    ensures DatumAt(Shifted(all, offset), epoch) == ShiftClock(DatumAt(all, epoch), offset(epoch))
  {
    hide Median;
    ClocksShifted(all, offset, epoch);
    MedianAdded(ClocksAt(all, epoch), offset(epoch));
  }

  /** All statistics but those of the raw clock. */
  function WithoutRawClock(s: Stats): Stats { s.(clock := Spread(0, 0.0, 0.0)) }

  lemma EnrichedShifted(diffs: seq<Diff>, all: seq<Diff>, offset: nat -> real, i: nat)
    requires i < |diffs|
    ensures Enriched(Shifted(diffs, offset), Shifted(all, offset))[i]
         == Enriched(diffs, all)[i].(clock := ShiftClock(diffs[i].clock, offset(diffs[i].epoch)))
  {
    hide DatumAt;
    DatumShifted(all, offset, diffs[i].epoch);
  }

  lemma {:induction false} PresentSame(a: seq<Diff>, b: seq<Diff>, of: Diff -> Option<real>)
    requires |a| == |b| && forall i :: 0 <= i < |a| ==> of(a[i]) == of(b[i])
    ensures Present(a, of) == Present(b, of)
  {
    if a != [] {
      PresentSame(a[..|a| - 1], b[..|b| - 1], of);
    }
  }

  /** Adding a common offset to all clocks of an epoch, for any epochs, leaves every
      statistic but the raw clock's unchanged. */
  lemma OffsetRemoved(diffs: seq<Diff>, all: seq<Diff>, offset: nat -> real)
    ensures WithoutRawClock(Aggregate(Enriched(Shifted(diffs, offset), Shifted(all, offset))))
         == WithoutRawClock(Aggregate(Enriched(diffs, all)))
  {
    hide DatumAt, SpreadOf, Present;
    var a, b := Enriched(Shifted(diffs, offset), Shifted(all, offset)), Enriched(diffs, all);
    forall i | 0 <= i < |diffs|
      ensures a[i].orbit == b[i].orbit && a[i].radial == b[i].radial && a[i].along == b[i].along
      ensures a[i].cross == b[i].cross && ResidualOf(a[i]) == ResidualOf(b[i])
    {
      EnrichedShifted(diffs, all, offset, i);
    }
    PresentSame(a, b, ResidualOf);
    assert Column(a, OrbitOf) == Column(b, OrbitOf);
    assert Column(a, RadialOf) == Column(b, RadialOf);
    assert Column(a, AlongOf) == Column(b, AlongOf);
    assert Column(a, CrossOf) == Column(b, CrossOf);
  }

  /** The same comparison with every clock of an epoch moved by its offset. */
  ghost predicate Offset(at: (nat, nat) -> Option<Cell>, at': (nat, nat) -> Option<Cell>, offset: nat -> real) {
    forall sat, epoch :: at'(sat, epoch) == Moved(at(sat, epoch), offset(epoch))
  }

  function Moved(c: Option<Cell>, offset: real): Option<Cell> {
    if c.Some? then Some(c.value.(clock := ShiftClock(c.value.clock, offset))) else None
  }

  lemma ShiftedConcat(a: seq<Diff>, b: seq<Diff>, offset: nat -> real)
    ensures Shifted(a + b, offset) == Shifted(a, offset) + Shifted(b, offset)
  {
    hide ShiftClock;
  }

  lemma {:induction false} DiffsShifted(at: (nat, nat) -> Option<Cell>, at': (nat, nat) -> Option<Cell>, offset: nat -> real,
                                        sat: nat, n: nat)
    requires Offset(at, at', offset)
    ensures DiffsOf(at', sat, n) == Shifted(DiffsOf(at, sat, n), offset)
  {
    if n > 0 {
      DiffsShifted(at, at', offset, sat, n - 1);
      ShiftedConcat(DiffsOf(at, sat, n - 1), OneDiff(at, sat, n - 1), offset);
      assert OneDiff(at', sat, n - 1) == Shifted(OneDiff(at, sat, n - 1), offset);
    }
  }

  lemma {:induction false} FlattenShifted(lists: seq<seq<Diff>>, lists': seq<seq<Diff>>, offset: nat -> real)
    requires |lists'| == |lists| && forall i :: 0 <= i < |lists| ==> lists'[i] == Shifted(lists[i], offset)
    ensures Flatten(lists') == Shifted(Flatten(lists), offset)
  {
    if lists != [] {
      var n := |lists| - 1;
      FlattenShifted(lists[..n], lists'[..n], offset);
      ShiftedConcat(Flatten(lists[..n]), lists[n], offset);
    }
  }

  /** No statistic of a report but those of the raw clock sees the offsets. */
  lemma ReportKeeps(at: (nat, nat) -> Option<Cell>, at': (nat, nat) -> Option<Cell>, offset: nat -> real,
                    sats: seq<nat>, n: nat, i: nat)
    requires Offset(at, at', offset) && i < |sats|
    ensures var lists, lists' := ListsOf(at, sats, n), ListsOf(at', sats, n);
      && WithoutRawClock(Overall(lists')) == WithoutRawClock(Overall(lists))
      && WithoutRawClock(StatsOf(lists', Flatten(lists'))[i]) == WithoutRawClock(StatsOf(lists, Flatten(lists))[i])
  {
    hide Aggregate, Enriched, WithoutRawClock, Shifted, DiffsOf, Offset;
    var lists, lists' := ListsOf(at, sats, n), ListsOf(at', sats, n);
    forall k | 0 <= k < |sats| ensures lists'[k] == Shifted(lists[k], offset) {
      DiffsShifted(at, at', offset, sats[k], n);
    }
    FlattenShifted(lists, lists', offset);
    OffsetRemoved(Flatten(lists), Flatten(lists), offset);
    OffsetRemoved(lists[i], Flatten(lists), offset);
  }

  // ----- the program -----

  /** One satellite: its differences and how many epochs gave none. */
  method CompareSatellite(at: (nat, nat) -> Option<Cell>, sat: nat, epochs: nat) returns (diffs: seq<Diff>, missing: nat)
    ensures diffs == DiffsOf(at, sat, epochs) && |diffs| + missing == epochs && Within(diffs, epochs)
  {
    diffs, missing := [], 0;
    var i := 0;
    while i < epochs
      invariant i <= epochs && diffs == DiffsOf(at, sat, i) && |diffs| + missing == i
      invariant forall k :: 0 <= k < |diffs| ==> diffs[k].epoch < i
    {
      match at(sat, i) {
        case Some(c) => diffs := diffs + [DiffAt(i, c)];
        case None =>
          assert DiffsOf(at, sat, i + 1) == diffs + [];
          missing := missing + 1;
      }
      i := i + 1;
    }
  }

  /** `clock_datum_by_epoch`: clocks collected epoch by epoch, then their medians. */
  method ClockDatum(all: seq<Diff>, epochs: nat) returns (datum: seq<Option<real>>)
    requires forall i :: 0 <= i < |all| ==> all[i].epoch < epochs
    ensures |datum| == epochs && forall e :: 0 <= e < epochs ==> datum[e] == DatumAt(all, e)
    ensures forall e :: 0 <= e < epochs ==> IsDatum(all, e, datum[e])
  {
    hide Median, IsDatum;
    var buckets: seq<seq<real>> := seq(epochs, _ => []);
    var i := 0;
    while i < |all|
      invariant i <= |all| && |buckets| == epochs
      invariant forall e :: 0 <= e < epochs ==> buckets[e] == ClocksAt(all[..i], e)
    {
      var d := all[i];
      assert all[..i + 1][..i] == all[..i] && all[..i + 1][i] == d;
      if d.clock.Some? {
        buckets := buckets[d.epoch := buckets[d.epoch] + [d.clock.value]];
      }
      i := i + 1;
    }
    assert all[..i] == all;
    hide ClocksAt;
    datum := seq(epochs, e requires 0 <= e < epochs => Median(buckets[e]));
    forall e | 0 <= e < epochs ensures IsDatum(all, e, datum[e]) {
      DatumIs(all, e);
    }
  }

  /** `enrich`, with the offsets in a list. */
  method EnrichDiffs(diffs: seq<Diff>, datum: seq<Option<real>>, ghost all: seq<Diff>) returns (r: seq<Diff>)
    requires forall i :: 0 <= i < |diffs| ==> diffs[i].epoch < |datum|
    requires forall e :: 0 <= e < |datum| ==> datum[e] == DatumAt(all, e)
    ensures r == Enriched(diffs, all)
  {
    hide DatumAt;
    r := seq(|diffs|, i requires 0 <= i < |diffs| => Residual(diffs[i], datum[diffs[i].epoch]));
  }

  ghost predicate Within(diffs: seq<Diff>, epochs: nat) {
    forall k :: 0 <= k < |diffs| ==> diffs[k].epoch < epochs
  }

  lemma WithinBoth(a: seq<Diff>, b: seq<Diff>, epochs: nat)
    requires Within(a, epochs) && Within(b, epochs)
    ensures Within(a + b, epochs)
  {
  }

  /** Every satellite's differences, one list each and all together. */
  method CollectDiffs(at: (nat, nat) -> Option<Cell>, sats: seq<nat>, epochs: nat)
    returns (lists: seq<seq<Diff>>, all: seq<Diff>, missing: seq<nat>)
    ensures lists == ListsOf(at, sats, epochs) && all == Flatten(lists)
    ensures |missing| == |sats| && forall k :: 0 <= k < |sats| ==> |lists[k]| + missing[k] == epochs
    ensures forall k :: 0 <= k < |lists| ==> Within(lists[k], epochs)
    ensures Within(all, epochs)
  {
    hide DiffsOf, Within;
    lists, all, missing := [], [], [];
    WithinNone(epochs);
    var i := 0;
    while i < |sats|
      invariant i <= |sats| && |lists| == |missing| == i && all == Flatten(lists)
      invariant forall k :: 0 <= k < i ==> lists[k] == DiffsOf(at, sats[k], epochs) && |lists[k]| + missing[k] == epochs
      invariant forall k :: 0 <= k < i ==> Within(lists[k], epochs)
      invariant Within(all, epochs)
    {
      var diffs, gone := CompareSatellite(at, sats[i], epochs);
      assert (lists + [diffs])[..i] == lists;
      WithinBoth(all, diffs, epochs);
      lists, missing, all := lists + [diffs], missing + [gone], all + diffs;
      i := i + 1;
    }
    assert lists == ListsOf(at, sats, epochs);
  }

  lemma WithinNone(epochs: nat)
    ensures Within([], epochs)
  {
  }

  /** `compare`: each satellite's count and missing epochs make up all epochs, the
      overall statistics are the satellites' joined, and the rest is as specified. */
  method Compare(at: (nat, nat) -> Option<Cell>, sats: seq<nat>, epochs: nat) returns (r: Report)
    ensures |r.perSatellite| == |r.missing| == |sats|
    ensures forall i :: 0 <= i < |sats| ==> r.perSatellite[i].count + r.missing[i] == epochs
    ensures r.overall == JoinAll(r.perSatellite)
    ensures var lists := ListsOf(at, sats, epochs);
      r.perSatellite == StatsOf(lists, Flatten(lists)) && r.overall == Overall(lists)
  {
    hide Aggregate, JoinStats, DatumAt, JoinAll, DiffsOf, Flatten;
    var lists, all, missing := CollectDiffs(at, sats, epochs);
    var datum := ClockDatum(all, epochs);
    var enriched := EnrichDiffs(all, datum, all);
    var overall := Aggregate(enriched);
    var per: seq<Stats>, j := [], 0;
    while j < |lists|
      invariant j <= |lists| && |per| == j
      invariant forall k :: 0 <= k < j ==> per[k] == Aggregate(Enriched(lists[k], all))
    {
      var one := EnrichDiffs(lists[j], datum, all);
      per := per + [Aggregate(one)];
      j := j + 1;
    }
    assert per == StatsOf(lists, all);
    PartsJoin(lists, all);
    forall k | 0 <= k < |lists| ensures per[k].count == |lists[k]| {
      CountIs(Enriched(lists[k], all));
    }
    return Report(per, overall, missing);
  }

  lemma CountIs(diffs: seq<Diff>)
    ensures Aggregate(diffs).count == |diffs|
  {
  }
}
