/** The broadcast/precise comparison: per-satellite and overall statistics, and the
    per-epoch median clock offset taken out of the clock differences. */
module Comparison {

  import opened Text
  import opened Reals

  // ----- statistics -----

  /** What a root mean square and a maximum are formed from; none of either when
      `count` is zero. */
  datatype Spread = Spread(count: nat, squares: real, highest: real)

  function Push(s: Spread, x: real): Spread {
    Spread(s.count + 1, s.squares + Times(x, x), Max(s.highest, Abs(x)))
  }

  function SpreadOf(values: seq<real>): Spread {
    if values == [] then Spread(0, 0.0, 0.0) else Push(SpreadOf(values[..|values| - 1]), values[|values| - 1])
  }

  lemma SpreadPush(values: seq<real>, x: real)
    ensures SpreadOf(values + [x]) == Push(SpreadOf(values), x)
  {
    assert (values + [x])[..|values|] == values;
  }

  lemma JoinPush(a: Spread, b: Spread, x: real)
    ensures Join(a, Push(b, x)) == Push(Join(a, b), x)
  {
    hide Times, Abs;
  }

  function Join(a: Spread, b: Spread): Spread {
    Spread(a.count + b.count, a.squares + b.squares, Max(a.highest, b.highest))
  }

  lemma {:induction false} SpreadConcat(a: seq<real>, b: seq<real>)
    ensures SpreadOf(a + b) == Join(SpreadOf(a), SpreadOf(b))
  {
    if b == [] {
      assert a + b == a;
      HighestNotNegative(a);
    } else {
      hide SpreadOf, Join, Push;
      var n := |b| - 1;
      var x := b[n];
      assert b == b[..n] + [x] && a + b == a + b[..n] + [x];
      SpreadConcat(a, b[..n]);
      SpreadPush(b[..n], x);
      SpreadPush(a + b[..n], x);
      JoinPush(SpreadOf(a), SpreadOf(b[..n]), x);
    }
  }

  lemma {:induction false} HighestNotNegative(a: seq<real>)
    ensures SpreadOf(a).highest >= 0.0
  {
    if a != [] {
      HighestNotNegative(a[..|a| - 1]);
    }
  }

  /** One compared satellite and epoch. */
  datatype Diff = Diff(epoch: nat, orbit: real, radial: real, along: real, cross: real,
                       clock: Option<real>, residual: Option<real>)

  datatype Stats = Stats(count: nat, orbit: Spread, radial: Spread, along: Spread, cross: Spread, clock: Spread, residual: Spread)

  function Column(diffs: seq<Diff>, of: Diff -> real): (r: seq<real>)
    ensures |r| == |diffs| && forall i :: 0 <= i < |r| ==> r[i] == of(diffs[i])
  {
    seq(|diffs|, i requires 0 <= i < |diffs| => of(diffs[i]))
  }

  /** The values that are present. */
  function Present(diffs: seq<Diff>, of: Diff -> Option<real>): seq<real> {
    if diffs == [] then []
    else
      var n := |diffs| - 1;
      Present(diffs[..n], of) + match of(diffs[n]) case None => [] case Some(v) => [v]
  }

  function OrbitOf(d: Diff): real { d.orbit }
  function RadialOf(d: Diff): real { d.radial }
  function AlongOf(d: Diff): real { d.along }
  function CrossOf(d: Diff): real { d.cross }
  function ClockOf(d: Diff): Option<real> { d.clock }
  function ResidualOf(d: Diff): Option<real> { d.residual }

  /** `aggregate` */
  function Aggregate(diffs: seq<Diff>): Stats {
    Stats(|diffs|, SpreadOf(Column(diffs, OrbitOf)), SpreadOf(Column(diffs, RadialOf)), SpreadOf(Column(diffs, AlongOf)),
      SpreadOf(Column(diffs, CrossOf)), SpreadOf(Present(diffs, ClockOf)), SpreadOf(Present(diffs, ResidualOf)))
  }

  function JoinStats(a: Stats, b: Stats): Stats {
    Stats(a.count + b.count, Join(a.orbit, b.orbit), Join(a.radial, b.radial), Join(a.along, b.along),
      Join(a.cross, b.cross), Join(a.clock, b.clock), Join(a.residual, b.residual))
  }

  lemma {:induction false} PresentConcat(a: seq<Diff>, b: seq<Diff>, of: Diff -> Option<real>)
    ensures Present(a + b, of) == Present(a, of) + Present(b, of)
  {
    if b == [] {
      assert a + b == a;
    } else {
      var n := |b| - 1;
      assert (a + b)[..|a| + n] == a + b[..n];
      PresentConcat(a, b[..n], of);
    }
  }

  lemma ColumnSpread(a: seq<Diff>, b: seq<Diff>, of: Diff -> real)
    ensures SpreadOf(Column(a + b, of)) == Join(SpreadOf(Column(a, of)), SpreadOf(Column(b, of)))
  {
    assert Column(a + b, of) == Column(a, of) + Column(b, of);
    SpreadConcat(Column(a, of), Column(b, of));
  }

  lemma PresentSpread(a: seq<Diff>, b: seq<Diff>, of: Diff -> Option<real>)
    ensures SpreadOf(Present(a + b, of)) == Join(SpreadOf(Present(a, of)), SpreadOf(Present(b, of)))
  {
    PresentConcat(a, b, of);
    SpreadConcat(Present(a, of), Present(b, of));
  }

  lemma AggregateConcat(a: seq<Diff>, b: seq<Diff>)
    ensures Aggregate(a + b) == JoinStats(Aggregate(a), Aggregate(b))
  {
    hide SpreadOf, Join, Column, Present;
    ColumnSpread(a, b, OrbitOf);
    ColumnSpread(a, b, RadialOf);
    ColumnSpread(a, b, AlongOf);
    ColumnSpread(a, b, CrossOf);
    PresentSpread(a, b, ClockOf);
    PresentSpread(a, b, ResidualOf);
  }

  function Flatten(lists: seq<seq<Diff>>): seq<Diff> {
    if lists == [] then [] else Flatten(lists[..|lists| - 1]) + lists[|lists| - 1]
  }

  function JoinAll(stats: seq<Stats>): Stats {
    if stats == [] then Aggregate([]) else JoinStats(JoinAll(stats[..|stats| - 1]), stats[|stats| - 1])
  }

  // ----- median -----

  function Insert(x: real, s: seq<real>): seq<real> {
    if s == [] then [x] else if x <= s[0] then [x] + s else [s[0]] + Insert(x, s[1..])
  }

  function Sort(s: seq<real>): seq<real> { if s == [] then [] else Insert(s[0], Sort(s[1..])) }

  ghost predicate Ordered(s: seq<real>) { forall i, j :: 0 <= i < j < |s| ==> s[i] <= s[j] }

  lemma {:induction false} InsertMembers(x: real, s: seq<real>)
    ensures multiset(Insert(x, s)) == multiset(s) + multiset{x}
  {
    if s != [] && s[0] < x {
      InsertMembers(x, s[1..]);
      assert s == [s[0]] + s[1..];
    }
  }

  lemma {:induction false} InsertOrdered(x: real, s: seq<real>)
    requires Ordered(s)
    ensures Ordered(Insert(x, s))
  {
    if s != [] && s[0] < x {
      var rest := Insert(x, s[1..]);
      InsertOrdered(x, s[1..]);
      InsertMembers(x, s[1..]);
      hide Insert;
      forall i | 0 <= i < |rest| ensures s[0] <= rest[i] {
        InsertedIs(rest, s[1..], x, rest[i]);
      }
    }
  }

  lemma InsertedIs(now: seq<real>, was: seq<real>, x: real, y: real)
    requires multiset(now) == multiset(was) + multiset{x} && y in now
    ensures y == x || y in was
  {
    assert y in multiset(now);
  }

  /** The sorted list is the ordered rearrangement of the values. */
  lemma {:induction false} SortOrdered(s: seq<real>)
    ensures Ordered(Sort(s)) && multiset(Sort(s)) == multiset(s) && |Sort(s)| == |s|
  {
    if s != [] {
      var rest := Sort(s[1..]);
      SortOrdered(s[1..]);
      InsertOrdered(s[0], rest);
      InsertMembers(s[0], rest);
      hide Insert, Ordered;
      assert Sort(s) == Insert(s[0], rest);
      assert s == [s[0]] + s[1..];
      assert |Sort(s)| == |multiset(Sort(s))| == |multiset(s)|;
    }
  }

  function Added(s: seq<real>, c: real): (r: seq<real>)
    ensures |r| == |s| && forall i :: 0 <= i < |s| ==> r[i] == s[i] + c
  {
    seq(|s|, i requires 0 <= i < |s| => s[i] + c)
  }

  lemma {:induction false} InsertAdded(x: real, s: seq<real>, c: real)
    ensures Insert(x + c, Added(s, c)) == Added(Insert(x, s), c)
  {
    if s == [] {
      AddedCons(x, s, c);
    } else if x <= s[0] {
      AddedCons(x, s, c);
    } else {
      InsertAdded(x, s[1..], c);
      AddedCons(s[0], Insert(x, s[1..]), c);
      assert Added(s, c)[1..] == Added(s[1..], c);
    }
  }

  lemma AddedCons(x: real, s: seq<real>, c: real)
    ensures Added([x] + s, c) == [x + c] + Added(s, c)
  {
  }

  lemma {:induction false} SortAdded(s: seq<real>, c: real)
    ensures Sort(Added(s, c)) == Added(Sort(s), c)
  {
    if s != [] {
      SortAdded(s[1..], c);
      assert Added(s, c)[1..] == Added(s[1..], c);
      InsertAdded(s[0], Sort(s[1..]), c);
    }
  }

  /** `median`: the middle value, or the average of the two middle ones. */
  function Median(s: seq<real>): Option<real> {
    SortOrdered(s);
    var sorted, n := Sort(s), |s|;
    if n == 0 then None
    else if n % 2 == 1 then Some(sorted[n / 2])
    else Some((sorted[n / 2 - 1] + sorted[n / 2]) / 2.0)
  }

  lemma MedianAdded(s: seq<real>, c: real)
    ensures Median(Added(s, c)) == match Median(s) case None => None case Some(m) => Some(m + c)
  {
    hide Sort;
    SortAdded(s, c);
    SortOrdered(s);
  }

  // ----- what the statistics and the median are -----

  /** A single value is its own square and magnitude. */
  lemma SpreadSingle(x: real)
    ensures SpreadOf([x]) == Spread(1, Times(x, x), Abs(x))
  {
    hide Times;
    assert [x] == [] + [x];
    SpreadPush([], x);
  }

  /** `highest` is the largest magnitude. */
  lemma {:induction false} HighestIs(values: seq<real>)
    requires values != []
    ensures forall i :: 0 <= i < |values| ==> Abs(values[i]) <= SpreadOf(values).highest
    ensures exists i :: 0 <= i < |values| && Abs(values[i]) == SpreadOf(values).highest
  {
    hide Times, Abs;
    var n := |values| - 1;
    if n == 0 {
      assert values == [values[0]];
      SpreadSingle(values[0]);
    } else {
      HighestIs(values[..n]);
      var k :| 0 <= k < n && Abs(values[..n][k]) == SpreadOf(values[..n]).highest;
      assert values[..n][k] == values[k];
      assert forall i :: 0 <= i < n ==> values[..n][i] == values[i];
    }
  }

  /** An ordered list is determined by its values. */
  lemma {:induction false} OrderedUnique(a: seq<real>, b: seq<real>)
    requires Ordered(a) && Ordered(b) && multiset(a) == multiset(b)
    ensures a == b
    decreases |a|
  {
    assert |a| == |multiset(a)| == |multiset(b)| == |b|;
    if a != [] {
      SameLeast(a, b);
      assert a == [a[0]] + a[1..] && b == [b[0]] + b[1..];
      assert multiset(a[1..]) == multiset(a) - multiset{a[0]};
      assert multiset(b[1..]) == multiset(b) - multiset{b[0]};
      OrderedUnique(a[1..], b[1..]);
    }
  }

  lemma SameLeast(a: seq<real>, b: seq<real>)
    requires a != [] && b != [] && Ordered(a) && Ordered(b) && multiset(a) == multiset(b)
    ensures a[0] == b[0]
  {
    assert a[0] in multiset(b) && b[0] in multiset(a);
    var i :| 0 <= i < |b| && b[i] == a[0];
    var j :| 0 <= j < |a| && a[j] == b[0];
  }

  /** The median does not depend on the order of the values. */
  lemma MedianPermuted(a: seq<real>, b: seq<real>)
    requires multiset(a) == multiset(b)
    ensures Median(a) == Median(b)
  {
    hide Sort;
    assert |a| == |multiset(a)| == |multiset(b)| == |b|;
    SortOrdered(a);
    SortOrdered(b);
    OrderedUnique(Sort(a), Sort(b));
  }

  function Mirrored(s: seq<real>): (r: seq<real>)
    ensures |r| == |s| && forall i :: 0 <= i < |s| ==> r[i] == -s[|s| - 1 - i]
  {
    seq(|s|, i requires 0 <= i < |s| => -s[|s| - 1 - i])
  }

  lemma {:induction false} MirroredMembers(a: seq<real>, b: seq<real>)
    requires multiset(a) == multiset(b)
    ensures multiset(Mirrored(a)) == multiset(Mirrored(b))
  {
    forall x ensures multiset(Mirrored(a))[x] == multiset(Mirrored(b))[x] {
      MirroredCount(a, x);
      MirroredCount(b, x);
    }
  }

  lemma {:induction false} MirroredCount(s: seq<real>, x: real)
    ensures multiset(Mirrored(s))[x] == multiset(s)[-x]
  {
    if s != [] {
      var n := |s| - 1;
      MirroredCount(s[..n], x);
      assert s == s[..n] + [s[n]];
      assert Mirrored(s) == [-s[n]] + Mirrored(s[..n]);
    }
  }

  /** Turning every sign turns the median's: neither middle value is preferred. */
  lemma MedianMirrored(s: seq<real>)
    ensures Median(Mirrored(s)) == match Median(s) case None => None case Some(m) => Some(-m)
  {
    hide Sort;
    SortOrdered(s);
    SortOrdered(Mirrored(s));
    MirroredMembers(s, Sort(s));
    assert Ordered(Mirrored(Sort(s)));
    OrderedUnique(Sort(Mirrored(s)), Mirrored(Sort(s)));
  }

  // ----- the median by counting -----

  /** How many values are at most `x`. */
  function AtMost(s: seq<real>, x: real): (c: nat)
    ensures c <= |s|
  {
    if s == [] then 0 else AtMost(s[1..], x) + if s[0] <= x then 1 else 0
  }

  /** How many are at least `x`. */
  function AtLeast(s: seq<real>, x: real): (c: nat)
    ensures c <= |s|
  {
    if s == [] then 0 else AtLeast(s[1..], x) + if s[0] >= x then 1 else 0
  }

  /** `m` is the median of `s`: a value with at least half of the values, itself
      included, on either side; or half of the sum of two values, at different places,
      with half of the values up to the one and half from the other on, and none
      strictly between. */
  ghost predicate IsMedian(s: seq<real>, m: real) {
    && s != []
    && (|s| % 2 == 1 ==> m in s && 2 * AtMost(s, m) >= |s| + 1 && 2 * AtLeast(s, m) >= |s| + 1)
    && (|s| % 2 == 0 ==> exists i, j :: 0 <= i < |s| && 0 <= j < |s| && i != j && MiddlePair(s, s[i], s[j], m))
  }

  ghost predicate MiddlePair(s: seq<real>, a: real, b: real, m: real) {
    && a <= b && m + m == a + b
    && 2 * AtMost(s, a) >= |s| && 2 * AtLeast(s, b) >= |s|
    && forall x :: x in s ==> !(a < x < b)
  }

  lemma {:induction false} InsertCounts(x: real, s: seq<real>, y: real)
    ensures AtMost(Insert(x, s), y) == AtMost(s, y) + if x <= y then 1 else 0
    ensures AtLeast(Insert(x, s), y) == AtLeast(s, y) + if x >= y then 1 else 0
  {
    if s != [] && s[0] < x {
      InsertCounts(x, s[1..], y);
      assert Insert(x, s)[1..] == Insert(x, s[1..]);
    } else {
      assert Insert(x, s)[1..] == s;
    }
  }

  lemma {:induction false} SortCounts(s: seq<real>, y: real)
    ensures AtMost(Sort(s), y) == AtMost(s, y) && AtLeast(Sort(s), y) == AtLeast(s, y)
  {
    if s != [] {
      SortCounts(s[1..], y);
      InsertCounts(s[0], Sort(s[1..]), y);
    }
  }

  lemma {:induction false} OrderedCounts(s: seq<real>, k: nat, y: real)
    requires Ordered(s) && k <= |s|
    ensures (forall i :: 0 <= i < k ==> s[i] <= y) ==> AtMost(s, y) >= k
    ensures (forall i :: |s| - k <= i < |s| ==> s[i] >= y) ==> AtLeast(s, y) >= k
    decreases |s|
  {
    if s != [] && k > 0 {
      OrderedCounts(s[1..], k - 1, y);
      if k < |s| {
        OrderedCounts(s[1..], k, y);
      }
    }
  }

  /** Two places that hold the same two middle values in the unsorted list. */
  lemma {:induction false} TwoPlaces(s: seq<real>, t: seq<real>, k: nat) returns (i: nat, j: nat)
    requires multiset(s) == multiset(t) && k + 1 < |t|
    ensures i < |s| && j < |s| && i != j && s[i] == t[k] && s[j] == t[k + 1]
  {
    var a, b := t[k], t[k + 1];
    assert a in multiset(t) && b in multiset(t);
    if a != b {
      i :| 0 <= i < |s| && s[i] == a;
      j :| 0 <= j < |s| && s[j] == b;
    } else {
      TwiceIn(t, k);
      i, j := TwoOf(s, a);
    }
  }

  lemma TwiceIn(t: seq<real>, k: nat)
    requires k + 1 < |t| && t[k] == t[k + 1]
    ensures multiset(t)[t[k]] >= 2
  {
    assert t == t[..k] + [t[k], t[k + 1]] + t[k + 2..];
  }

  lemma TwoOf(s: seq<real>, a: real) returns (i: nat, j: nat)
    requires multiset(s)[a] >= 2
    ensures i < |s| && j < |s| && i != j && s[i] == a && s[j] == a
  {
    i :| 0 <= i < |s| && s[i] == a;
    var rest := s[..i] + s[i + 1..];
    assert s == s[..i] + [s[i]] + s[i + 1..];
    assert multiset(s) == multiset(rest) + multiset{a};
    assert a in rest;
    var r :| 0 <= r < |rest| && rest[r] == a;
    j := if r < i then r else r + 1;
  }

  /** In an ordered list everything up to a place is at most its value, and everything
      from it on at least that. */
  lemma OrderedAt(t: seq<real>, k: nat)
    requires Ordered(t) && k < |t|
    ensures AtMost(t, t[k]) >= k + 1 && AtLeast(t, t[k]) >= |t| - k
  {
    OrderedCounts(t, k + 1, t[k]);
    OrderedCounts(t, |t| - k, t[k]);
  }

  lemma SortedAt(s: seq<real>, k: nat)
    requires k < |s|
    ensures |Sort(s)| == |s| && Sort(s)[k] in s
    ensures AtMost(s, Sort(s)[k]) >= k + 1 && AtLeast(s, Sort(s)[k]) >= |s| - k
  {
    hide Sort, Ordered, AtMost, AtLeast;
    SortOrdered(s);
    assert Sort(s)[k] in multiset(Sort(s));
    OrderedAt(Sort(s), k);
    SortCounts(s, Sort(s)[k]);
  }

  lemma {:induction false} MiddleCounts(s: seq<real>)
    requires |s| % 2 == 1
    ensures |Sort(s)| == |s| && IsMedian(s, Sort(s)[|s| / 2])
  {
    hide Sort, AtMost, AtLeast;
    SortedAt(s, |s| / 2);
  }

  lemma {:induction false} MiddlePairCounts(s: seq<real>)
    requires s != [] && |s| % 2 == 0
    ensures |Sort(s)| == |s| && IsMedian(s, (Sort(s)[|s| / 2 - 1] + Sort(s)[|s| / 2]) / 2.0)
  {
    hide Sort, AtMost, AtLeast, Ordered, MiddlePair, IsMedian;
    SortOrdered(s);
    var t, h := Sort(s), |s| / 2;
    var i, j := TwoPlaces(s, t, h - 1);
    SortedPair(s);
    EvenMedian(s, i, j, (t[h - 1] + t[h]) / 2.0);
  }

  lemma SortedPair(s: seq<real>)
    requires s != [] && |s| % 2 == 0
    ensures var t, h := Sort(s), |s| / 2;
      |t| == |s| && MiddlePair(s, t[h - 1], t[h], (t[h - 1] + t[h]) / 2.0)
  {
    hide Sort, AtMost, AtLeast;
    SortOrdered(s);
    SortedAt(s, |s| / 2 - 1);
    SortedAt(s, |s| / 2);
    NoneBetween(s, Sort(s), |s| / 2);
  }

  lemma EvenMedian(s: seq<real>, i: nat, j: nat, m: real)
    requires i < |s| && j < |s| && i != j && |s| % 2 == 0 && MiddlePair(s, s[i], s[j], m)
    ensures IsMedian(s, m)
  {
    hide MiddlePair;
  }

  /** The median is that value, for every nonempty list. */
  lemma {:induction false} MedianCounts(s: seq<real>)
    ensures s == [] ==> Median(s) == None
    ensures s != [] ==> Median(s).Some? && IsMedian(s, Median(s).value)
  {
    hide IsMedian, Sort;
    SortOrdered(s);
    if s != [] {
      if |s| % 2 == 1 {
        MiddleCounts(s);
      } else {
        MiddlePairCounts(s);
      }
    }
  }

  lemma NoneBetween(s: seq<real>, t: seq<real>, h: nat)
    requires multiset(s) == multiset(t) && Ordered(t) && 0 < h < |t|
    ensures forall x :: x in s ==> !(t[h - 1] < x < t[h])
  {
    forall x | x in s ensures !(t[h - 1] < x < t[h]) {
      assert x in multiset(t);
      var k :| 0 <= k < |t| && t[k] == x;
    }
  }

  // ----- single differences -----

  /** The statistics of one difference: each column is its own component, and a clock
      or residual that is absent counts for nothing. */
  lemma AggregateSingle(d: Diff)
    ensures var s := Aggregate([d]);
      && s.count == 1
      && s.orbit == Spread(1, Times(d.orbit, d.orbit), Abs(d.orbit))
      && s.radial == Spread(1, Times(d.radial, d.radial), Abs(d.radial))
      && s.along == Spread(1, Times(d.along, d.along), Abs(d.along))
      && s.cross == Spread(1, Times(d.cross, d.cross), Abs(d.cross))
      && (d.clock.None? ==> s.clock == Spread(0, 0.0, 0.0))
      && (d.clock.Some? ==> s.clock == Spread(1, Times(d.clock.value, d.clock.value), Abs(d.clock.value)))
      && (d.residual.None? ==> s.residual == Spread(0, 0.0, 0.0))
      && (d.residual.Some? ==> s.residual == Spread(1, Times(d.residual.value, d.residual.value), Abs(d.residual.value)))
  {
    hide Times, Abs, SpreadOf;
    ColumnSingle(d, OrbitOf);
    ColumnSingle(d, RadialOf);
    ColumnSingle(d, AlongOf);
    ColumnSingle(d, CrossOf);
    PresentSingle(d, ClockOf);
    PresentSingle(d, ResidualOf);
    NoSpread();
  }

  lemma ColumnSingle(d: Diff, of: Diff -> real)
    ensures SpreadOf(Column([d], of)) == Spread(1, Times(of(d), of(d)), Abs(of(d)))
  {
    hide Times, Abs, SpreadOf;
    assert Column([d], of) == [of(d)];
    SpreadSingle(of(d));
  }

  lemma PresentSingle(d: Diff, of: Diff -> Option<real>)
    ensures Present([d], of) == match of(d) case None => [] case Some(v) => [v]
    ensures of(d).Some? ==> SpreadOf(Present([d], of)) == Spread(1, Times(of(d).value, of(d).value), Abs(of(d).value))
  {
    hide Times, Abs, SpreadOf;
    assert [d][..0] == [];
    if of(d).Some? {
      SpreadSingle(of(d).value);
    }
  }

  lemma NoSpread()
    ensures SpreadOf([]) == Spread(0, 0.0, 0.0)
  {
  }
}
