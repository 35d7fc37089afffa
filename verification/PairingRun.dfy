/** The pairing as the program runs it: maps filled in a loop, one pass over the
    satellites of both bands, and a sort of what was dropped. */
module PairingRun {

  import opened Text
  import opened Combinations
  import opened Pairing

  /** `map_and_duplicates` */
  method MapAndDuplicates(band: seq<Observation>) returns (ranges: map<string, real>, dups: set<string>)
    ensures forall sat :: sat in ranges <==> Count(band, sat) > 0
    ensures forall sat :: sat in ranges ==> ranges[sat] == LastRange(band, sat)
    ensures forall sat :: sat in dups <==> Count(band, sat) > 1
  {
    var counts: map<string, nat> := map[];
    ranges := map[];
    var i := 0;
    while i < |band|
      invariant i <= |band| && counts.Keys == ranges.Keys
      invariant forall sat :: sat in ranges <==> Count(band[..i], sat) > 0
      invariant forall sat :: sat in ranges ==> ranges[sat] == LastRange(band[..i], sat)
      invariant forall sat :: sat in counts ==> counts[sat] == Count(band[..i], sat)
    {
      var o := band[i];
      assert band[..i + 1][..i] == band[..i] && band[..i + 1][i] == o;
      counts := counts[o.sat := (if o.sat in counts then counts[o.sat] else 0) + 1];
      ranges := ranges[o.sat := o.range];
      i := i + 1;
    }
    assert band[..i] == band;
    dups := set sat | sat in counts && counts[sat] > 1;
  }

  // ----- dropped satellites -----

  ghost predicate DistinctDrops(s: seq<Drop>) { forall i, j :: 0 <= i < j < |s| ==> s[i].sat != s[j].sat }

  lemma PushDistinct(s: seq<Drop>, d: Drop)
    requires DistinctDrops(s) && forall x :: x in s ==> DroppedSat(x) != d.sat
    ensures DistinctDrops(s + [d])
  {
    forall i | 0 <= i < |s| ensures s[i].sat != d.sat {
      assert DroppedSat(s[i]) != d.sat;
    }
  }

  /** Adds one drop for each satellite, all for the same reason. */
  method PushDrops(before: seq<Drop>, ids: set<string>, reason: DropReason) returns (dropped: seq<Drop>)
    requires DistinctDrops(before) && forall d :: d in before ==> DroppedSat(d) !in ids
    ensures DistinctDrops(dropped)
    ensures forall d :: d in dropped <==> d in before || (DroppedSat(d) in ids && d.reason == reason)
  {
    dropped := before;
    var rest := ids;
    while rest != {}
      invariant rest <= ids && DistinctDrops(dropped)
      invariant forall d :: d in dropped <==> d in before || (DroppedSat(d) in ids - rest && d.reason == reason)
      decreases rest
    {
      var sat := Least(rest);
      PushDistinct(dropped, Drop(sat, reason));
      dropped := dropped + [Drop(sat, reason)];
      rest := rest - {sat};
    }
  }

  /** Puts a drop in its place among sorted ones. */
  method InsertDrop(sorted: seq<Drop>, d: Drop) returns (r: seq<Drop>)
    requires Rising(sorted, DroppedSat) && forall x :: x in sorted ==> DroppedSat(x) != d.sat
    ensures Rising(r, DroppedSat) && forall x :: x in r <==> x in sorted || x == d
  {
    hide Before;
    var k := 0;
    while k < |sorted| && Before(sorted[k].sat, d.sat)
      invariant k <= |sorted| && forall i :: 0 <= i < k ==> Before(DroppedSat(sorted[i]), d.sat)
    {
      k := k + 1;
    }
    r := sorted[..k] + [d] + sorted[k..];
    forall j | k <= j < |sorted| ensures Before(d.sat, DroppedSat(sorted[j])) {
      assert sorted[k] in sorted;
      assert DroppedSat(sorted[k]) != d.sat;
      BeforeTotal(sorted[k].sat, d.sat);
      BeforeOrder(d.sat, sorted[k].sat, sorted[j].sat);
    }
    assert sorted == sorted[..k] + sorted[k..];
    InsertedRising(sorted, d, k);
  }

  lemma InsertedRising(sorted: seq<Drop>, d: Drop, k: nat)
    requires k <= |sorted| && Rising(sorted, DroppedSat)
    requires forall i :: 0 <= i < k ==> Before(DroppedSat(sorted[i]), d.sat)
    requires forall j :: k <= j < |sorted| ==> Before(d.sat, DroppedSat(sorted[j]))
    ensures Rising(sorted[..k] + [d] + sorted[k..], DroppedSat)
  {
    hide Before;
    var r := sorted[..k] + [d] + sorted[k..];
    forall i, j | 0 <= i < j < |r| ensures Before(DroppedSat(r[i]), DroppedSat(r[j])) {
      assert r[i] == if i < k then sorted[i] else if i == k then d else sorted[i - 1];
      assert r[j] == if j < k then sorted[j] else if j == k then d else sorted[j - 1];
    }
  }

  method SortDrops(s: seq<Drop>) returns (r: seq<Drop>)
    requires DistinctDrops(s)
    ensures Rising(r, DroppedSat) && forall d :: d in r <==> d in s
  {
    r := [];
    var i := 0;
    while i < |s|
      invariant i <= |s| && Rising(r, DroppedSat)
      invariant forall d :: d in r <==> d in s[..i]
    {
      forall x | x in r ensures DroppedSat(x) != s[i].sat {
        assert x in s[..i];
        var j :| 0 <= j < i && s[..i][j] == x;
      }
      r := InsertDrop(r, s[i]);
      assert s[..i + 1] == s[..i] + [s[i]];
      i := i + 1;
    }
    assert s[..i] == s;
  }

  // ----- the pass over both bands -----

  /** What is right about the lists once the satellites outside `rest` are handled. */
  ghost predicate Handled(b: Bands, ids: set<string>, rest: set<string>, combined: seq<Observation>, dropped: seq<Drop>) {
    && Rising(combined, ObservedSat) && DistinctDrops(dropped)
    && (forall o :: o in combined <==>
          ObservedSat(o) in ids - rest && OnceInEach(b, o.sat) && OutcomeOf(b, o.sat) == Range(o.range))
    && (forall d :: d in dropped <==>
          DroppedSat(d) in ids - rest && OnceInEach(b, d.sat) && OutcomeOf(b, d.sat) == Unsupported && d.reason == UnknownSystem)
    && (forall sat :: sat in ids - rest ==> !Faulty(b, sat))
  }

  lemma HandleSkip(b: Bands, ids: set<string>, rest: set<string>, combined: seq<Observation>, dropped: seq<Drop>, sat: string)
    requires Handled(b, ids, rest, combined, dropped) && sat in rest && rest <= ids && !OnceInEach(b, sat)
    ensures Handled(b, ids, rest - {sat}, combined, dropped)
  {
    hide OnceInEach, OutcomeOf, Rising, DistinctDrops;
  }

  lemma HandleRange(b: Bands, ids: set<string>, rest: set<string>, combined: seq<Observation>, dropped: seq<Drop>, sat: string)
    requires Handled(b, ids, rest, combined, dropped) && sat in rest && rest <= ids && OnceInEach(b, sat)
    requires OutcomeOf(b, sat).Range?
    requires forall x, y :: x in ids - rest && y in rest ==> Before(x, y)
    ensures Handled(b, ids, rest - {sat}, combined + [Observation(sat, OutcomeOf(b, sat).range)], dropped)
  {
    hide OnceInEach, OutcomeOf, Before, DistinctDrops;
    var o := Observation(sat, OutcomeOf(b, sat).range);
    var now := combined + [o];
    forall i | 0 <= i < |combined| ensures Before(ObservedSat(combined[i]), sat) {
      assert combined[i] in combined;
    }
    forall x ensures x in now <==>
      ObservedSat(x) in ids - (rest - {sat}) && OnceInEach(b, x.sat) && OutcomeOf(b, x.sat) == Range(x.range)
    {
      assert x in now <==> x in combined || x == o;
      assert x.sat == sat && OutcomeOf(b, sat) == Range(x.range) ==> x == o;
    }
  }

  lemma HandleDrop(b: Bands, ids: set<string>, rest: set<string>, combined: seq<Observation>, dropped: seq<Drop>, sat: string)
    requires Handled(b, ids, rest, combined, dropped) && sat in rest && rest <= ids && OnceInEach(b, sat)
    requires OutcomeOf(b, sat) == Unsupported
    ensures Handled(b, ids, rest - {sat}, combined, dropped + [Drop(sat, UnknownSystem)])
  {
    hide OnceInEach, OutcomeOf, Rising;
    var d := Drop(sat, UnknownSystem);
    PushDistinct(dropped, d);
    hide DistinctDrops;
    forall x ensures x in dropped + [d] <==>
      DroppedSat(x) in ids - (rest - {sat}) && OnceInEach(b, x.sat) && OutcomeOf(b, x.sat) == Unsupported && x.reason == UnknownSystem
    {
      assert x in dropped + [d] <==> x in dropped || x == d;
    }
  }

  /** The satellites named in both bands, in order. */
  method CombineShared(b: Bands, m1: map<string, real>, m2: map<string, real>, dups: set<string>)
    returns (combined: seq<Observation>, dropped: seq<Drop>, fault: Option<CombinationError>)
    requires forall sat :: (sat in m1 <==> Count(b.band1, sat) > 0) && (sat in m2 <==> Count(b.band2, sat) > 0)
    requires forall sat :: sat in m1 ==> m1[sat] == LastRange(b.band1, sat)
    requires forall sat :: sat in m2 ==> m2[sat] == LastRange(b.band2, sat)
    requires forall sat :: sat in dups <==> Count(b.band1, sat) > 1 || Count(b.band2, sat) > 1
    ensures fault.None? ==> NoFault(b) && Handled(b, m1.Keys * m2.Keys, {}, combined, dropped)
    ensures fault.Some? ==> exists sat :: FirstFault(b, sat) && OutcomeOf(b, sat) == Fault(fault.value)
  {
    hide Count, LastRange, Combine, Before, Rising, DistinctDrops, Handled;
    combined, dropped, fault := [], [], None;
    var ids := m1.Keys * m2.Keys;
    var rest := ids;
    NoneHandled(b, ids);
    while rest != {}
      invariant rest <= ids && Handled(b, ids, rest, combined, dropped)
      invariant forall x, y :: x in ids - rest && y in rest ==> Before(x, y)
      decreases rest
    {
      var sat := Least(rest);
      if sat in dups {
        HandleSkip(b, ids, rest, combined, dropped, sat);
      } else {
        var outcome := Combine(b.carriers, b.overrides, sat, m1[sat], m2[sat]);
        assert OnceInEach(b, sat) && outcome == OutcomeOf(b, sat);
        match outcome {
          case Range(range) =>
            HandleRange(b, ids, rest, combined, dropped, sat);
            combined := combined + [Observation(sat, range)];
          case Unsupported =>
            HandleDrop(b, ids, rest, combined, dropped, sat);
            dropped := dropped + [Drop(sat, UnknownSystem)];
          case Fault(e) =>
            FaultIsFirst(b, ids, rest, combined, dropped, sat);
            fault := Some(e);
            return;
        }
      }
      rest := rest - {sat};
    }
    NoFaultLeft(b, ids, combined, dropped);
  }

  lemma NoneHandled(b: Bands, ids: set<string>)
    ensures Handled(b, ids, ids, [], [])
  {
    hide OnceInEach, OutcomeOf;
  }

  lemma FaultIsFirst(b: Bands, ids: set<string>, rest: set<string>, combined: seq<Observation>, dropped: seq<Drop>, sat: string)
    requires Handled(b, ids, rest, combined, dropped) && Faulty(b, sat)
    requires forall other :: OnceInEach(b, other) ==> other in ids
    requires forall x :: x in rest && x != sat ==> Before(sat, x)
    ensures FirstFault(b, sat)
  {
    hide OnceInEach, OutcomeOf, Before, Rising, DistinctDrops;
  }

  lemma NoFaultLeft(b: Bands, ids: set<string>, combined: seq<Observation>, dropped: seq<Drop>)
    requires Handled(b, ids, {}, combined, dropped)
    requires forall other :: OnceInEach(b, other) ==> other in ids
    ensures NoFault(b)
  {
    hide OnceInEach, OutcomeOf, Before, Rising, DistinctDrops;
    assert ids - {} == ids;
  }

  /** `ionosphere_free_pseudoranges` */
  method IonosphereFreePseudoranges(b: Bands)
    returns (r: PairingResult)
    ensures Gives(b, r)
  {
    hide Count, LastRange, Combine, Before, Rising, DistinctDrops, OutcomeOf, Dropped, Combined;
    var m1, dups1 := MapAndDuplicates(b.band1);
    var m2, dups2 := MapAndDuplicates(b.band2);
    var dups := dups1 + dups2;
    var combined, shared, fault := CombineShared(b, m1, m2, dups);
    if fault.Some? {
      return Err(fault.value);
    }
    SharedSats(b, m1.Keys * m2.Keys, combined, shared);
    hide Handled;
    var dropped := PushDrops(shared, m1.Keys - m2.Keys - dups, MissingBand2);
    dropped := PushDrops(dropped, m2.Keys - m1.Keys - dups, MissingBand1);
    dropped := PushDrops(dropped, dups, DuplicateObservation);
    dropped := SortDrops(dropped);
    AllCombined(b, m1.Keys * m2.Keys, combined, shared);
    AllDropped(b, dropped);
    return Ok((combined, dropped));
  }

  lemma SharedSats(b: Bands, ids: set<string>, combined: seq<Observation>, dropped: seq<Drop>)
    requires Handled(b, ids, {}, combined, dropped)
    ensures DistinctDrops(dropped)
    ensures forall d :: d in dropped <==>
      DroppedSat(d) in ids && OnceInEach(b, d.sat) && OutcomeOf(b, d.sat) == Unsupported && d.reason == UnknownSystem
  {
    hide OnceInEach, OutcomeOf, Rising, DistinctDrops;
    assert ids - {} == ids;
  }

  lemma AllCombined(b: Bands, ids: set<string>, combined: seq<Observation>, dropped: seq<Drop>)
    requires Handled(b, ids, {}, combined, dropped) && forall sat :: OnceInEach(b, sat) ==> sat in ids
    ensures Combined(b, combined)
  {
    hide OnceInEach, OutcomeOf, Rising, DistinctDrops;
    assert ids - {} == ids;
    forall o ensures o in combined <==> OnceInEach(b, o.sat) && OutcomeOf(b, o.sat) == Range(o.range) {
      assert ObservedSat(o) == o.sat;
    }
  }

  lemma AllDropped(b: Bands, dropped: seq<Drop>)
    requires Rising(dropped, DroppedSat)
    requires forall d :: d in dropped <==> ReasonOf(b, DroppedSat(d)) == Some(d.reason)
    ensures Dropped(b, dropped)
  {
    hide ReasonOf, Rising;
    forall d ensures d in dropped <==> ReasonOf(b, d.sat) == Some(d.reason) {
      assert DroppedSat(d) == d.sat;
    }
  }
}
