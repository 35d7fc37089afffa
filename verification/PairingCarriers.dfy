/** What a pairing's result holds, in terms of the observations, the overrides and the
    carrier table alone. */
module PairingCarriers {

  import opened Text
  import opened Reals
  import opened Combinations
  import opened Pairing

  /** Override `i` is the first one of the system. */
  ghost predicate FirstOverride(b: Bands, system: char, i: nat) {
    && i < |b.overrides| && b.overrides[i].system == system
    && forall j :: 0 <= j < i ==> b.overrides[j].system != system
  }

  ghost predicate NoOverride(b: Bands, system: char) {
    forall j :: 0 <= j < |b.overrides| ==> b.overrides[j].system != system
  }

  ghost predicate OverrideGives(b: Bands, system: char, i: nat, band1: nat, band2: nat) {
    && FirstOverride(b, system, i)
    && b.carriers.band(b.overrides[i].band1) == Some(band1) && b.carriers.band(b.overrides[i].band2) == Some(band2)
  }

  /** The two bands of a system, the first one first: those the first override of the
      system names, or without an override its default pair. */
  ghost predicate BandsAre(b: Bands, system: char, band1: nat, band2: nat) {
    || (exists i: nat :: OverrideGives(b, system, i, band1, band2))
    || (NoOverride(b, system) && b.carriers.defaultPair(system) == Some((band1, band2)))
  }

  /** The two carrier frequencies of a satellite. */
  ghost predicate CarriersAre(b: Bands, sat: string, f1: real, f2: real) {
    sat != "" && exists band1, band2 :: BandsCarry(b, sat[0], band1, band2, f1, f2)
  }

  ghost predicate BandsCarry(b: Bands, system: char, band1: nat, band2: nat, f1: real, f2: real) {
    && BandsAre(b, system, band1, band2)
    && b.carriers.frequency(system, band1) == Some(f1) && b.carriers.frequency(system, band2) == Some(f2)
  }

  lemma {:induction false} FoundOverride(overrides: seq<Override>, system: char, b: Bands)
    requires b.overrides == overrides
    ensures match FindOverride(system, overrides)
      case None => NoOverride(b, system)
      case Some(o) => exists i: nat :: FirstOverride(b, system, i) && b.overrides[i] == o
    decreases |overrides|
  {
    if overrides != [] {
      if overrides[0].system == system {
        assert FirstOverride(b, system, 0);
      } else {
        var rest := b.(overrides := overrides[1..]);
        FoundOverride(overrides[1..], system, rest);
        match FindOverride(system, overrides[1..]) {
          case None =>
            forall j | 0 <= j < |overrides| ensures overrides[j].system != system {
              if j > 0 {
                assert overrides[j] == overrides[1..][j - 1];
              }
            }
          case Some(o) =>
            var i: nat :| FirstOverride(rest, system, i) && rest.overrides[i] == o;
            forall j | 0 <= j < i + 1 ensures overrides[j].system != system {
              if j > 0 {
                assert overrides[j] == overrides[1..][j - 1];
              }
            }
            assert FirstOverride(b, system, i + 1) && overrides[i + 1] == o;
        }
      }
    }
  }

  lemma OneFirst(b: Bands, system: char, i: nat, j: nat)
    requires FirstOverride(b, system, i) && FirstOverride(b, system, j)
    ensures i == j
  {
  }

  lemma NoneFirst(b: Bands, system: char)
    requires NoOverride(b, system)
    ensures forall i: nat :: !FirstOverride(b, system, i)
  {
  }

  /** `PairFor` gives those bands, and none exactly when there are none. */
  lemma PairIs(b: Bands, system: char, band1: nat, band2: nat)
    ensures PairFor(b.carriers, system, b.overrides) == Some((band1, band2)) <==> BandsAre(b, system, band1, band2)
  {
    FoundOverride(b.overrides, system, b);
    match FindOverride(system, b.overrides) {
      case None =>
        NoneFirst(b, system);
      case Some(o) =>
        var i: nat :| FirstOverride(b, system, i) && b.overrides[i] == o;
        forall j: nat | FirstOverride(b, system, j) ensures j == i {
          OneFirst(b, system, i, j);
        }
        assert OverrideGives(b, system, i, band1, band2) <==>
          b.carriers.band(o.band1) == Some(band1) && b.carriers.band(o.band2) == Some(band2);
    }
  }

  lemma CarriersOutcome(b: Bands, sat: string, f1: real, f2: real)
    requires CarriersAre(b, sat, f1, f2)
    ensures OutcomeOf(b, sat) == match IonosphereFree(LastRange(b.band1, sat), LastRange(b.band2, sat), f1, f2)
      case Ok(range) => Range(range)
      case Err(e) => Fault(e)
  {
    hide BandsAre, PairFor, LastRange, IonosphereFree, Count;
    var band1, band2 :| BandsCarry(b, sat[0], band1, band2, f1, f2);
    PairIs(b, sat[0], band1, band2);
  }

  lemma CarriersFound(b: Bands, sat: string, band1: nat, band2: nat, f1: real, f2: real)
    requires sat != "" && BandsAre(b, sat[0], band1, band2)
    requires b.carriers.frequency(sat[0], band1) == Some(f1) && b.carriers.frequency(sat[0], band2) == Some(f2)
    ensures CarriersAre(b, sat, f1, f2)
  {
    hide BandsAre;
    assert BandsCarry(b, sat[0], band1, band2, f1, f2);
  }

  lemma NoCarriersOutcome(b: Bands, sat: string)
    requires forall f1, f2 :: !CarriersAre(b, sat, f1, f2)
    ensures OutcomeOf(b, sat) == Unsupported
  {
    hide BandsAre, PairFor, LastRange, IonosphereFree, Count;
    if sat != "" && PairFor(b.carriers, sat[0], b.overrides).Some? {
      var (band1, band2) := PairFor(b.carriers, sat[0], b.overrides).value;
      PairIs(b, sat[0], band1, band2);
      var g1, g2 := b.carriers.frequency(sat[0], band1), b.carriers.frequency(sat[0], band2);
      hide CarriersAre;
      if g1.Some? && g2.Some? {
        CarriersFound(b, sat, band1, band2, g1.value, g2.value);
      }
    }
  }

  /** A satellite named once in each band, on two positive and distinct carriers, whose
      ranges are one range and a delay proportional to 1/f^2, is combined to exactly
      that range. */
  lemma PairedRange(b: Bands, combined: seq<Observation>, dropped: seq<Drop>, sat: string,
                    f1: real, f2: real, rho: real, k: real)
    requires Gives(b, Ok((combined, dropped)))
    requires Count(b.band1, sat) == 1 && Count(b.band2, sat) == 1
    requires CarriersAre(b, sat, f1, f2) && f1 > 0.0 && f2 > 0.0 && f1 != f2
    requires Squared(f1) > 0.0 && Squared(f2) > 0.0
    requires Observation(sat, rho + Over(k, Squared(f1))) in b.band1
    requires Observation(sat, rho + Over(k, Squared(f2))) in b.band2
    ensures Observation(sat, rho) in combined
    ensures forall o :: o in combined && ObservedSat(o) == sat ==> o.range == rho
    ensures forall d :: d in dropped ==> DroppedSat(d) != sat
  {
    OnlyRange(b.band1, Observation(sat, rho + Over(k, Squared(f1))));
    OnlyRange(b.band2, Observation(sat, rho + Over(k, Squared(f2))));
    CarriersOutcome(b, sat, f1, f2);
    DelayCancels(rho, k, f1, f2);
    hide IonosphereFree, LastRange, Combine, Over, Squared, Rising, CarriersAre;
    assert OutcomeOf(b, sat) == Range(rho);
    hide OutcomeOf;
    assert ReasonOf(b, sat) == None;
    hide ReasonOf;
    forall d | d in dropped ensures DroppedSat(d) != sat {
      assert ReasonOf(b, d.sat) == Some(d.reason);
    }
    assert Observation(sat, rho) in combined;
  }

  /** One named once in each band is dropped as unknown exactly when it has no pair of
      carrier frequencies. */
  lemma PairedUnknown(b: Bands, combined: seq<Observation>, dropped: seq<Drop>, sat: string)
    requires Gives(b, Ok((combined, dropped)))
    requires Count(b.band1, sat) == 1 && Count(b.band2, sat) == 1
    ensures Drop(sat, UnknownSystem) in dropped <==> forall f1, f2 :: !CarriersAre(b, sat, f1, f2)
  {
    hide Combine, Rising, LastRange, CarriersAre;
    if forall f1, f2 :: !CarriersAre(b, sat, f1, f2) {
      NoCarriersOutcome(b, sat);
      assert ReasonOf(b, sat) == Some(UnknownSystem);
    } else {
      var f1, f2 :| CarriersAre(b, sat, f1, f2);
      CarriersOutcome(b, sat, f1, f2);
      assert ReasonOf(b, sat) == None;
    }
    var d := Drop(sat, UnknownSystem);
    assert d in dropped <==> ReasonOf(b, d.sat) == Some(d.reason);
  }

  /** The pairing fails exactly when some satellite named once in each band has carriers
      that are equal or not positive. */
  lemma PairingFails(b: Bands)
    ensures !NoFault(b) <==> exists sat, f1, f2 :: BadCarriers(b, sat, f1, f2)
  {
    hide Count, LastRange, CarriersAre, Combine;
    if exists sat, f1, f2 :: BadCarriers(b, sat, f1, f2) {
      var sat, f1, f2 :| BadCarriers(b, sat, f1, f2);
      CarriersOutcome(b, sat, f1, f2);
      assert Faulty(b, sat);
    }
    if !NoFault(b) {
      var sat :| Faulty(b, sat);
      if forall f1, f2 :: !CarriersAre(b, sat, f1, f2) {
        NoCarriersOutcome(b, sat);
      } else {
        var f1, f2 :| CarriersAre(b, sat, f1, f2);
        CarriersOutcome(b, sat, f1, f2);
        assert BadCarriers(b, sat, f1, f2);
      }
    }
  }

  ghost predicate BadCarriers(b: Bands, sat: string, f1: real, f2: real) {
    && Count(b.band1, sat) == 1 && Count(b.band2, sat) == 1
    && CarriersAre(b, sat, f1, f2) && (f1 <= 0.0 || f2 <= 0.0 || f1 == f2)
  }

  // ----- the dropped satellites, the error and the order -----

  ghost predicate Twice(band: seq<Observation>, sat: string) {
    exists i, j :: 0 <= i < j < |band| && band[i].sat == sat && band[j].sat == sat
  }

  ghost predicate Never(band: seq<Observation>, sat: string) { forall i :: 0 <= i < |band| ==> band[i].sat != sat }

  lemma {:induction false} CountTwice(band: seq<Observation>, sat: string)
    ensures Count(band, sat) > 1 <==> Twice(band, sat)
    decreases |band|
  {
    if band != [] {
      var n := |band| - 1;
      var front := band[..n];
      CountTwice(front, sat);
      CountZero(front, sat);
      if Twice(front, sat) {
        var i, j :| 0 <= i < j < |front| && front[i].sat == sat && front[j].sat == sat;
        assert band[i].sat == sat && band[j].sat == sat;
      }
      if Twice(band, sat) {
        var i, j :| 0 <= i < j < |band| && band[i].sat == sat && band[j].sat == sat;
        assert front[i].sat == sat;
        assert j < n ==> front[j].sat == sat;
      }
      if Count(front, sat) > 0 && band[n].sat == sat {
        var i :| 0 <= i < |front| && front[i].sat == sat;
        assert band[i].sat == sat && i < n;
      }
    }
  }

  /** A satellite named twice in a band is dropped as a duplicate, whatever else; one
      named once in one band and never in the other, as missing there. */
  lemma PairedDropped(b: Bands, combined: seq<Observation>, dropped: seq<Drop>, sat: string)
    requires Gives(b, Ok((combined, dropped)))
    ensures Drop(sat, DuplicateObservation) in dropped <==> Twice(b.band1, sat) || Twice(b.band2, sat)
    ensures Drop(sat, MissingBand2) in dropped <==>
      !Never(b.band1, sat) && !Twice(b.band1, sat) && Never(b.band2, sat)
    ensures Drop(sat, MissingBand1) in dropped <==>
      !Never(b.band2, sat) && !Twice(b.band2, sat) && Never(b.band1, sat)
  {
    hide Count, OutcomeOf, Twice;
    CountTwice(b.band1, sat);
    CountTwice(b.band2, sat);
    CountZero(b.band1, sat);
    CountZero(b.band2, sat);
    assert Never(b.band1, sat) <==> Count(b.band1, sat) == 0;
    assert Never(b.band2, sat) <==> Count(b.band2, sat) == 0;
    hide Never;
    forall reason: DropReason ensures Drop(sat, reason) in dropped <==> ReasonOf(b, sat) == Some(reason) {
      var d := Drop(sat, reason);
      assert d in dropped <==> ReasonOf(b, d.sat) == Some(d.reason);
    }
  }

  /** Dictionary order: a proper beginning comes first, and else the first character in
      which the names differ decides. */
  ghost predicate Precedes(a: string, b: string) {
    a < b || exists k: nat :: DiffersAt(a, b, k)
  }

  ghost predicate DiffersAt(a: string, b: string, k: nat) {
    k < |a| && k < |b| && a[..k] == b[..k] && a[k] < b[k]
  }

  lemma StartDecides(a: string, b: string, k: nat)
    requires DiffersAt(a, b, k)
    ensures a[0] <= b[0]
  {
    if k > 0 {
      assert a[..k][0] == b[..k][0];
    }
  }

  lemma {:induction false} BeforeIs(a: string, b: string)
    ensures Before(a, b) <==> Precedes(a, b)
    decreases |a|
  {
    if a != "" && b != "" && a[0] == b[0] {
      var a', b' := a[1..], b[1..];
      BeforeIs(a', b');
      assert a == [a[0]] + a' && b == [b[0]] + b';
      assert a < b <==> a' < b';
      forall k: nat ensures DiffersAt(a', b', k) <==> DiffersAt(a, b, k + 1) {
        if k < |a'| && k < |b'| {
          assert a[..k + 1] == [a[0]] + a'[..k] && b[..k + 1] == [b[0]] + b'[..k];
          assert a[..k + 1][1..] == a'[..k] && b[..k + 1][1..] == b'[..k];
        }
      }
      if k: nat :| DiffersAt(a', b', k) {
        assert DiffersAt(a, b, k + 1);
      }
      if k: nat :| DiffersAt(a, b, k) {
        assert k > 0;
        assert DiffersAt(a', b', k - 1);
      }
    } else if a != "" && b != "" {
      assert a[0] < b[0] ==> DiffersAt(a, b, 0);
      forall k: nat | DiffersAt(a, b, k) ensures a[0] < b[0] {
        StartDecides(a, b, k);
      }
    }
  }

  ghost predicate FirstBad(b: Bands, sat: string, f1: real, f2: real) {
    BadCarriers(b, sat, f1, f2)
    && forall other, g1, g2 :: BadCarriers(b, other, g1, g2) && other != sat ==> Precedes(sat, other)
  }

  /** The error is the one of the first such satellite: a carrier that is not positive,
      or two equal ones. */
  lemma PairingError(b: Bands, e: CombinationError)
    requires Gives(b, Err(e))
    ensures exists sat, f1, f2 ::
      FirstBad(b, sat, f1, f2) && e == if f1 <= 0.0 || f2 <= 0.0 then InvalidFrequency else EqualFrequencies
  {
    hide Count, LastRange, CarriersAre, Combine, Before, Precedes, Times;
    var sat :| FirstFault(b, sat) && OutcomeOf(b, sat) == Fault(e);
    if forall f1, f2 :: !CarriersAre(b, sat, f1, f2) {
      NoCarriersOutcome(b, sat);
    }
    var f1, f2 :| CarriersAre(b, sat, f1, f2);
    CarriersOutcome(b, sat, f1, f2);
    assert BadCarriers(b, sat, f1, f2);
    forall other, g1, g2 | BadCarriers(b, other, g1, g2) && other != sat ensures Precedes(sat, other) {
      CarriersOutcome(b, other, g1, g2);
      assert Faulty(b, other);
      BeforeIs(sat, other);
    }
    assert FirstBad(b, sat, f1, f2);
  }
}
