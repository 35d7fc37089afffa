/** Pairing two bands of pseudoranges by satellite
    (`ionosphere_free_pseudoranges`): every satellite is combined or dropped, once,
    for the reason its counts and its carriers dictate. */
module Pairing {

  import opened Text
  import opened Combinations

  datatype Observation = Observation(sat: string, range: real)

  datatype DropReason = MissingBand1 | MissingBand2 | DuplicateObservation | UnknownSystem

  datatype Drop = Drop(sat: string, reason: DropReason)

  // ----- order of names -----

  /** Dictionary order. */
  predicate Before(a: string, b: string) {
    if b == "" then false
    else if a == "" then true
    else if a[0] == b[0] then Before(a[1..], b[1..])
    else a[0] < b[0]
  }

  lemma {:induction false} BeforeTotal(a: string, b: string)
    ensures a == b || Before(a, b) || Before(b, a)
  {
    if a != "" && b != "" && a[0] == b[0] {
      BeforeTotal(a[1..], b[1..]);
      assert a == [a[0]] + a[1..] && b == [b[0]] + b[1..];
    }
  }

  lemma {:induction false} BeforeOrder(a: string, b: string, c: string)
    ensures Before(a, b) && Before(b, c) ==> Before(a, c)
    ensures !Before(a, a)
  {
    if a != "" {
      BeforeOrder(a[1..], if b == "" then "" else b[1..], if c == "" then "" else c[1..]);
    }
  }

  method Least(ids: set<string>) returns (m: string)
    requires ids != {}
    ensures m in ids && forall x :: x in ids && x != m ==> Before(m, x)
  {
    hide Before;
    m :| m in ids;
    var rest := ids - {m};
    while rest != {}
      invariant m in ids && rest <= ids && m !in rest
      invariant forall x :: x in ids && x != m && x !in rest ==> Before(m, x)
      decreases rest
    {
      var y :| y in rest;
      BeforeTotal(m, y);
      if Before(y, m) {
        forall x | x in ids && x != y && x !in rest ensures Before(y, x) {
          BeforeOrder(y, m, x);
        }
        m := y;
      }
      rest := rest - {y};
    }
  }

  // ----- counts -----

  function Count(band: seq<Observation>, sat: string): nat {
    if band == [] then 0
    else Count(band[..|band| - 1], sat) + if band[|band| - 1].sat == sat then 1 else 0
  }

  /** The range stated last for a satellite. */
  function LastRange(band: seq<Observation>, sat: string): real {
    if band == [] then 0.0
    else if band[|band| - 1].sat == sat then band[|band| - 1].range
    else LastRange(band[..|band| - 1], sat)
  }

  lemma {:induction false} CountZero(band: seq<Observation>, sat: string)
    ensures Count(band, sat) == 0 <==> forall i :: 0 <= i < |band| ==> band[i].sat != sat
  {
    if band != [] {
      CountZero(band[..|band| - 1], sat);
    }
  }

  /** A satellite named once has the one range stated for it. */
  lemma {:induction false} OnlyRange(band: seq<Observation>, o: Observation)
    requires o in band && Count(band, o.sat) == 1
    ensures LastRange(band, o.sat) == o.range
  {
    var n := |band| - 1;
    if band[n].sat == o.sat {
      CountZero(band[..n], o.sat);
      assert band == band[..n] + [band[n]];
    } else {
      OnlyRange(band[..n], o);
    }
  }

  lemma {:induction false} LastStated(band: seq<Observation>, sat: string)
    requires Count(band, sat) > 0
    ensures Observation(sat, LastRange(band, sat)) in band
  {
    var n := |band| - 1;
    if band[n].sat != sat {
      LastStated(band[..n], sat);
    }
  }

  // ----- carriers -----

  /** The carrier table: band names, each system's default pair, and frequencies. */
  datatype Carriers = Carriers(
    band: string -> Option<nat>, defaultPair: char -> Option<(nat, nat)>, frequency: (char, nat) -> Option<real>)

  datatype Override = Override(system: char, band1: string, band2: string)

  function FindOverride(system: char, overrides: seq<Override>): Option<Override> {
    if overrides == [] then None
    else if overrides[0].system == system then Some(overrides[0])
    else FindOverride(system, overrides[1..])
  }

  /** `pair_for`: the first override of the system, or its default pair. */
  function PairFor(c: Carriers, system: char, overrides: seq<Override>): Option<(nat, nat)> {
    match FindOverride(system, overrides)
    case None => c.defaultPair(system)
    case Some(o) =>
      match (c.band(o.band1), c.band(o.band2))
      case (Some(a), Some(b)) => Some((a, b))
      case _ => None
  }

  datatype Outcome = Range(range: real) | Unsupported | Fault(error: CombinationError)

  /** `combine_satellite`; an unknown system or band is unsupported. */
  function Combine(c: Carriers, overrides: seq<Override>, sat: string, range1: real, range2: real): Outcome {
    if sat == "" then Unsupported
    else
      match PairFor(c, sat[0], overrides)
      case None => Unsupported
      case Some((a, b)) =>
        match (c.frequency(sat[0], a), c.frequency(sat[0], b))
        case (Some(f1), Some(f2)) =>
          (match IonosphereFree(range1, range2, f1, f2)
           case Ok(range) => Range(range)
           case Err(e) => Fault(e))
        case _ => Unsupported
  }

  // ----- what the result must be -----

  datatype Bands = Bands(band1: seq<Observation>, band2: seq<Observation>, carriers: Carriers, overrides: seq<Override>)

  predicate OnceInEach(b: Bands, sat: string) { Count(b.band1, sat) == 1 && Count(b.band2, sat) == 1 }

  function OutcomeOf(b: Bands, sat: string): Outcome {
    Combine(b.carriers, b.overrides, sat, LastRange(b.band1, sat), LastRange(b.band2, sat))
  }

  function ReasonOf(b: Bands, sat: string): Option<DropReason> {
    var n1, n2 := Count(b.band1, sat), Count(b.band2, sat);
    if n1 > 1 || n2 > 1 then Some(DuplicateObservation)
    else if n1 == 1 && n2 == 0 then Some(MissingBand2)
    else if n1 == 0 && n2 == 1 then Some(MissingBand1)
    else if n1 == 1 && OutcomeOf(b, sat) == Unsupported then Some(UnknownSystem)
    else None
  }

  function ObservedSat(o: Observation): string { o.sat }

  function DroppedSat(d: Drop): string { d.sat }

  /** In strictly rising order of satellite. */
  ghost predicate Rising<T>(s: seq<T>, sat: T -> string) {
    forall i, j :: 0 <= i < j < |s| ==> Before(sat(s[i]), sat(s[j]))
  }

  ghost predicate Combined(b: Bands, combined: seq<Observation>) {
    && Rising(combined, ObservedSat)
    && forall o :: o in combined <==> OnceInEach(b, o.sat) && OutcomeOf(b, o.sat) == Range(o.range)
  }

  ghost predicate Dropped(b: Bands, dropped: seq<Drop>) {
    Rising(dropped, DroppedSat) && forall d :: d in dropped <==> ReasonOf(b, d.sat) == Some(d.reason)
  }

  /** A satellite whose carrier pair cannot be combined at all. */
  predicate Faulty(b: Bands, sat: string) { OnceInEach(b, sat) && OutcomeOf(b, sat).Fault? }

  ghost predicate FirstFault(b: Bands, sat: string) {
    Faulty(b, sat) && forall other :: Faulty(b, other) && other != sat ==> Before(sat, other)
  }

  ghost predicate NoFault(b: Bands) { forall sat :: !Faulty(b, sat) }

  /** Every satellite of either band is in exactly one of the two lists, and once. */
  lemma Partitioned(b: Bands, combined: seq<Observation>, dropped: seq<Drop>, sat: string)
    requires NoFault(b) && Combined(b, combined) && Dropped(b, dropped)
    requires Count(b.band1, sat) + Count(b.band2, sat) > 0
    ensures (exists o :: o in combined && o.sat == sat) <==> !(exists d :: d in dropped && d.sat == sat)
    ensures forall i, j :: 0 <= i < j < |combined| ==> combined[i].sat != combined[j].sat
    ensures forall i, j :: 0 <= i < j < |dropped| ==> dropped[i].sat != dropped[j].sat
  {
    hide Before, Count, Combine, LastRange;
    forall i, j | 0 <= i < j < |combined| ensures combined[i].sat != combined[j].sat {
      BeforeOrder(combined[i].sat, combined[j].sat, combined[i].sat);
    }
    forall i, j | 0 <= i < j < |dropped| ensures dropped[i].sat != dropped[j].sat {
      BeforeOrder(dropped[i].sat, dropped[j].sat, dropped[i].sat);
    }
    assert !Faulty(b, sat);
    match ReasonOf(b, sat) {
      case Some(reason) => assert Drop(sat, reason) in dropped;
      case None =>
        assert OnceInEach(b, sat);
        assert Observation(sat, OutcomeOf(b, sat).range) in combined;
    }
  }

  // ----- the result is determined -----

  lemma {:induction false} RisingUnique<T>(a: seq<T>, b: seq<T>, sat: T -> string)
    requires Rising(a, sat) && Rising(b, sat) && forall x :: x in a <==> x in b
    ensures a == b
    decreases |a|
  {
    hide Before;
    FirstIn(a);
    FirstIn(b);
    if a != [] {
      SameFirst(a, b, sat);
      TailMembers(a, sat);
      TailMembers(b, sat);
      assert Rising(a[1..], sat) && Rising(b[1..], sat);
      RisingUnique(a[1..], b[1..], sat);
      assert a == [a[0]] + a[1..] && b == [b[0]] + b[1..];
    }
  }

  lemma FirstIn<T>(a: seq<T>)
    ensures a != [] ==> a[0] in a
  {
  }

  lemma SameFirst<T>(a: seq<T>, b: seq<T>, sat: T -> string)
    requires a != [] && b != [] && Rising(a, sat) && Rising(b, sat) && forall x :: x in a <==> x in b
    ensures a[0] == b[0]
  {
    hide Before;
    assert a[0] in b && b[0] in a;
    var i :| 0 <= i < |b| && b[i] == a[0];
    var j :| 0 <= j < |a| && a[j] == b[0];
    BeforeOrder(sat(a[0]), sat(b[0]), sat(a[0]));
  }

  lemma TailMembers<T>(a: seq<T>, sat: T -> string)
    requires a != [] && Rising(a, sat)
    ensures forall x :: x in a[1..] <==> x in a && x != a[0]
  {
    hide Before;
    forall k | 0 < k < |a| ensures a[k] != a[0] {
      BeforeOrder(sat(a[0]), sat(a[0]), sat(a[0]));
    }
    forall x | x in a && x != a[0] ensures x in a[1..] {
      var k :| 0 <= k < |a| && a[k] == x;
      assert a[1..][k - 1] == x;
    }
  }

  lemma {:induction false} CountRemove(band: seq<Observation>, i: nat, sat: string)
    requires i < |band|
    ensures Count(band, sat) == Count(band[..i] + band[i + 1..], sat) + if band[i].sat == sat then 1 else 0
  {
    var n := |band| - 1;
    if i == n {
      assert band[..i] + band[i + 1..] == band[..n];
    } else {
      var rest := band[..i] + band[i + 1..];
      assert rest[..|rest| - 1] == band[..n][..i] + band[..n][i + 1..];
      assert rest[|rest| - 1] == band[n];
      CountRemove(band[..n], i, sat);
    }
  }

  lemma {:induction false} CountPermuted(a: seq<Observation>, b: seq<Observation>, sat: string)
    requires multiset(a) == multiset(b)
    ensures Count(a, sat) == Count(b, sat)
    decreases |a|
  {
    assert |a| == |multiset(a)| == |multiset(b)| == |b|;
    if a != [] {
      var n := |a| - 1;
      var i, rest := PullOut(a, b);
      CountPermuted(a[..n], rest, sat);
      CountRemove(b, i, sat);
    }
  }

  /** The last element of one order, taken out of another. */
  lemma PullOut(a: seq<Observation>, b: seq<Observation>) returns (i: nat, rest: seq<Observation>)
    requires a != [] && multiset(a) == multiset(b)
    ensures i < |b| && b[i] == a[|a| - 1] && rest == b[..i] + b[i + 1..]
    ensures multiset(a[..|a| - 1]) == multiset(rest)
  {
    var n := |a| - 1;
    assert a[n] in multiset(b);
    i :| 0 <= i < |b| && b[i] == a[n];
    rest := b[..i] + b[i + 1..];
    PulledMultiset(b, i);
    PulledMultiset(a, n);
    assert a[..n] + a[n + 1..] == a[..n];
    CancelOne(multiset(a[..n]), multiset(rest), a[n]);
  }

  lemma PulledMultiset(b: seq<Observation>, i: nat)
    requires i < |b|
    ensures multiset(b) == multiset(b[..i] + b[i + 1..]) + multiset{b[i]}
  {
    assert b == b[..i] + [b[i]] + b[i + 1..];
  }

  lemma CancelOne(p: multiset<Observation>, q: multiset<Observation>, x: Observation)
    requires p + multiset{x} == q + multiset{x}
    ensures p == q
  {
    forall y ensures p[y] == q[y] {
      assert (p + multiset{x})[y] == (q + multiset{x})[y];
    }
  }

  lemma RangePermuted(a: seq<Observation>, b: seq<Observation>, sat: string)
    requires multiset(a) == multiset(b) && Count(a, sat) == 1
    ensures LastRange(b, sat) == LastRange(a, sat)
  {
    LastStated(a, sat);
    var o := Observation(sat, LastRange(a, sat));
    assert o in multiset(a);
    CountPermuted(a, b, sat);
    OnlyRange(b, o);
  }

  /** The same observations in another order. */
  ghost predicate Reordered(b: Bands, b': Bands) {
    && multiset(b.band1) == multiset(b'.band1) && multiset(b.band2) == multiset(b'.band2)
    && b.carriers == b'.carriers && b.overrides == b'.overrides
  }

  lemma ReorderedSat(b: Bands, b': Bands, sat: string)
    requires Reordered(b, b')
    ensures OnceInEach(b', sat) == OnceInEach(b, sat) && ReasonOf(b', sat) == ReasonOf(b, sat)
    ensures OnceInEach(b, sat) ==> OutcomeOf(b', sat) == OutcomeOf(b, sat)
  {
    hide Combine, Count, LastRange;
    CountPermuted(b.band1, b'.band1, sat);
    CountPermuted(b.band2, b'.band2, sat);
    if OnceInEach(b, sat) {
      RangePermuted(b.band1, b'.band1, sat);
      RangePermuted(b.band2, b'.band2, sat);
    }
  }

  lemma ReorderedCombined(b: Bands, b': Bands, combined: seq<Observation>)
    requires Reordered(b, b') && Combined(b, combined)
    ensures Combined(b', combined)
  {
    hide OnceInEach, OutcomeOf, Rising;
    forall o ensures o in combined <==> OnceInEach(b', o.sat) && OutcomeOf(b', o.sat) == Range(o.range) {
      ReorderedSat(b, b', ObservedSat(o));
    }
  }

  lemma ReorderedDropped(b: Bands, b': Bands, dropped: seq<Drop>)
    requires Reordered(b, b') && Dropped(b, dropped)
    ensures Dropped(b', dropped)
  {
    hide ReasonOf, Rising;
    forall d ensures d in dropped <==> ReasonOf(b', d.sat) == Some(d.reason) {
      ReorderedSat(b, b', DroppedSat(d));
    }
  }

  lemma ReorderedFaulty(b: Bands, b': Bands, sat: string)
    requires Reordered(b, b')
    ensures Faulty(b', sat) == Faulty(b, sat)
  {
    hide OnceInEach, OutcomeOf, ReasonOf;
    ReorderedSat(b, b', sat);
  }

  /** A success stays a success and an error an error. */
  lemma SameSuccess(b: Bands, b': Bands)
    requires Reordered(b, b')
    ensures NoFault(b) <==> NoFault(b')
  {
    hide Faulty;
    forall sat ensures Faulty(b', sat) == Faulty(b, sat) {
      ReorderedFaulty(b, b', sat);
    }
  }

  lemma ReorderedFirst(b: Bands, b': Bands, sat: string)
    requires Reordered(b, b') && FirstFault(b, sat)
    ensures FirstFault(b', sat) && OutcomeOf(b', sat) == OutcomeOf(b, sat)
  {
    ReorderedSat(b, b', sat);
    assert OnceInEach(b, sat);
    hide Faulty, OutcomeOf, Before, OnceInEach, ReasonOf;
    ReorderedFaulty(b, b', sat);
    forall other | Faulty(b', other) && other != sat ensures Before(sat, other) {
      ReorderedFaulty(b, b', other);
    }
  }

  type PairingResult = Result<(seq<Observation>, seq<Drop>), CombinationError>

  /** What the pairing of `b` gives: both lists when no satellite's carriers fail,
      otherwise the error of the first satellite whose do. */
  ghost predicate Gives(b: Bands, r: PairingResult) {
    match r
    case Ok((combined, dropped)) => NoFault(b) && Combined(b, combined) && Dropped(b, dropped)
    case Err(e) => exists sat :: FirstFault(b, sat) && OutcomeOf(b, sat) == Fault(e)
  }

  /** What one order of the bands gives is what every order gives. */
  lemma ReorderingGives(b: Bands, b': Bands, r: PairingResult)
    requires Reordered(b, b') && Gives(b, r)
    ensures Gives(b', r)
  {
    hide NoFault, Combined, Dropped, FirstFault, OutcomeOf, Reordered;
    match r {
      case Ok((combined, dropped)) =>
        SameSuccess(b, b');
        ReorderedCombined(b, b', combined);
        ReorderedDropped(b, b', dropped);
      case Err(e) =>
        var sat :| FirstFault(b, sat) && OutcomeOf(b, sat) == Fault(e);
        ReorderedFirst(b, b', sat);
    }
  }

  /** The bands determine the result. */
  lemma GivesOne(b: Bands, r: PairingResult, q: PairingResult)
    requires Gives(b, r) && Gives(b, q)
    ensures r == q
  {
    hide OutcomeOf, OnceInEach, ReasonOf, Rising, Before;
    match (r, q) {
      case (Ok((c, d)), Ok((c', d'))) =>
        SameLists(b, c, d, c', d');
      case (Err(_), Err(_)) =>
        var sat :| FirstFault(b, sat) && OutcomeOf(b, sat) == Fault(r.error);
        var sat' :| FirstFault(b, sat') && OutcomeOf(b, sat') == Fault(q.error);
        BeforeOrder(sat, sat', sat);
      case (Ok(_), Err(_)) =>
      case (Err(_), Ok(_)) =>
    }
  }

  lemma SameLists(b: Bands, combined: seq<Observation>, dropped: seq<Drop>, combined': seq<Observation>, dropped': seq<Drop>)
    requires Combined(b, combined) && Dropped(b, dropped) && Combined(b, combined') && Dropped(b, dropped')
    ensures combined == combined' && dropped == dropped'
  {
    hide OnceInEach, OutcomeOf, ReasonOf, Rising;
    RisingUnique(combined, combined', ObservedSat);
    RisingUnique(dropped, dropped', DroppedSat);
  }

  /** Reordering either band changes nothing: not whether the pairing succeeds, not
      its lists, and not its error. */
  lemma ReorderingSame(b: Bands, b': Bands, r: PairingResult, r': PairingResult)
    requires Reordered(b, b') && Gives(b, r) && Gives(b', r')
    ensures r == r'
  {
    hide Gives, Reordered;
    ReorderingGives(b, b', r);
    GivesOne(b', r, r');
  }
}
