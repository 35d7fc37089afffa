/** Phase-center interpolation: clamped and linear in zenith, and a blend of the two
    neighbouring azimuth rows that closes across the 360-degree seam. */
module Interpolation {

  import opened Text
  import opened Reals

  const CIRCLE: real := 360.0

  datatype Sample = Sample(zenith: real, value: real)

  datatype AzimuthRow = AzimuthRow(azimuth: real, samples: seq<Sample>)

  // ----- searches -----

  /** The last index whose position is at most `x`. */
  function LastAtMost(xs: seq<real>, x: real): (r: Option<nat>)
    ensures r.Some? ==> r.value < |xs| && xs[r.value] <= x && forall i :: r.value < i < |xs| ==> xs[i] > x
    ensures r.None? ==> forall i :: 0 <= i < |xs| ==> xs[i] > x
  {
    if xs == [] then None
    else if xs[|xs| - 1] <= x then Some(|xs| - 1)
    else LastAtMost(xs[..|xs| - 1], x)
  }

  /** The first index whose position is at least `x`. */
  function FirstAtLeast(xs: seq<real>, x: real): (r: Option<nat>)
    ensures r.Some? ==> r.value < |xs| && xs[r.value] >= x && forall i :: 0 <= i < r.value ==> xs[i] < x
    ensures r.None? ==> forall i :: 0 <= i < |xs| ==> xs[i] < x
  {
    if xs == [] then None
    else if xs[0] >= x then Some(0)
    else
      match FirstAtLeast(xs[1..], x)
      case None => None
      case Some(i) => Some(i + 1)
  }

  ghost predicate Rising(xs: seq<real>) { forall i, j :: 0 <= i < j < |xs| ==> xs[i] < xs[j] }

  /** In a rising list the two searches meet at a node or at neighbours. */
  lemma Neighbours(xs: seq<real>, x: real)
    requires Rising(xs) && LastAtMost(xs, x).Some? && FirstAtLeast(xs, x).Some?
    ensures var i, j := LastAtMost(xs, x).value, FirstAtLeast(xs, x).value;
      (i == j && xs[i] == x) || (j == i + 1 && xs[i] < x < xs[j])
  {
    hide LastAtMost, FirstAtLeast;
    var i, j := LastAtMost(xs, x).value, FirstAtLeast(xs, x).value;
    assert i + 1 < |xs| ==> xs[i + 1] > x;
  }

  lemma AtNode(xs: seq<real>, k: nat)
    requires Rising(xs) && k < |xs|
    ensures LastAtMost(xs, xs[k]) == Some(k) && FirstAtLeast(xs, xs[k]) == Some(k)
  {
    hide LastAtMost, FirstAtLeast;
  }

  // ----- blending -----

  /** `a + (b - a) * t` for the fraction of the way from `low` to `high`. */
  function Blend(a: real, b: real, low: real, high: real, x: real): real
    requires low != high
  {
    a + Times(b - a, Over(x - low, high - low))
  }

  /** `v` lies between `a` and `b`. */
  predicate Between(v: real, a: real, b: real) { (a <= v <= b) || (b <= v <= a) }

  lemma FractionRange(low: real, high: real, x: real)
    requires low < high && low <= x <= high
    ensures 0.0 <= Over(x - low, high - low) <= 1.0
  {
    hide Times, Over;
    OverNotNegative(x - low, high - low);
    OverBound(x - low, high - low, high - low, high - low);
    TimesSigns(1.0, high - low);
    OverOnly(high - low, high - low, 1.0);
  }

  lemma BlendBetween(a: real, b: real, low: real, high: real, x: real)
    requires low < high && low <= x <= high
    ensures Between(Blend(a, b, low, high, x), a, b)
    ensures x == low ==> Blend(a, b, low, high, x) == a
    ensures x == high ==> Blend(a, b, low, high, x) == b
  {
    hide Times, Over;
    var t, d := Over(x - low, high - low), b - a;
    FractionRange(low, high, x);
    TimesSwap(d, t);
    TimesSigns(1.0, d);
    TimesSigns(0.0, d);
    if d >= 0.0 {
      TimesMono(0.0, t, d);
      TimesMono(t, 1.0, d);
    } else {
      TimesMono(0.0, t, -d);
      TimesMono(t, 1.0, -d);
      TimesSigns(t, d);
      TimesSigns(0.0, -d);
      TimesSigns(1.0, -d);
    }
    TimesSigns(0.0, high - low);
    TimesSigns(1.0, high - low);
    OverOnly(0.0, high - low, 0.0);
    OverOnly(high - low, high - low, 1.0);
  }

  // ----- zenith -----

  function Zeniths(s: seq<Sample>): (r: seq<real>)
    ensures |r| == |s| && forall i :: 0 <= i < |s| ==> r[i] == s[i].zenith
  {
    seq(|s|, i requires 0 <= i < |s| => s[i].zenith)
  }

  /** `interpolate_zenith_sorted`; none for an empty grid. */
  function AtZenith(s: seq<Sample>, zenith: real): Option<real> {
    if s == [] then None
    else if zenith <= s[0].zenith then Some(s[0].value)
    else if zenith >= s[|s| - 1].zenith then Some(s[|s| - 1].value)
    else
      match (LastAtMost(Zeniths(s), zenith), FirstAtLeast(Zeniths(s), zenith))
      case (Some(i), Some(j)) =>
        if s[j].zenith == s[i].zenith then Some(s[i].value)
        else Some(Blend(s[i].value, s[j].value, s[i].zenith, s[j].zenith, zenith))
      case _ => None
  }

  /** The pair of samples a zenith is interpolated from: the bracketing neighbours,
      or one end of the grid. */
  ghost predicate Bracket(s: seq<Sample>, zenith: real, i: nat, j: nat) {
    && i <= j < |s| && j <= i + 1
    && (s[i].zenith <= zenith || i == j == 0)
    && (zenith <= s[j].zenith || i == j == |s| - 1)
  }

  lemma BracketInside(s: seq<Sample>, zenith: real, i: nat, j: nat)
    requires Bracket(s, zenith, i, j)
    ensures i < |s| && j < |s|
  {
  }

  /** The interpolated value exists and lies between the two samples it blends. */
  lemma ZenithBetween(s: seq<Sample>, zenith: real) returns (i: nat, j: nat)
    requires s != [] && Rising(Zeniths(s))
    ensures AtZenith(s, zenith).Some? && Bracket(s, zenith, i, j)
    ensures Between(AtZenith(s, zenith).value, s[i].value, s[j].value)
  {
    hide LastAtMost, FirstAtLeast, Blend, Rising;
    if zenith <= s[0].zenith {
      i, j := 0, 0;
    } else if zenith >= s[|s| - 1].zenith {
      i, j := |s| - 1, |s| - 1;
    } else {
      var zs := Zeniths(s);
      assert zs[0] <= zenith <= zs[|zs| - 1];
      Neighbours(zs, zenith);
      i, j := LastAtMost(zs, zenith).value, FirstAtLeast(zs, zenith).value;
      if i < j {
        BlendBetween(s[i].value, s[j].value, s[i].zenith, s[j].zenith, zenith);
      }
    }
  }

  /** At a node the stored value is returned. */
  lemma ZenithAtNode(s: seq<Sample>, k: nat)
    requires Rising(Zeniths(s)) && k < |s|
    ensures AtZenith(s, s[k].zenith) == Some(s[k].value)
  {
    hide LastAtMost, FirstAtLeast, Blend;
    var zs := Zeniths(s);
    assert k > 0 ==> zs[0] < zs[k];
    assert k < |s| - 1 ==> zs[k] < zs[|s| - 1];
    AtNode(zs, k);
  }

  // ----- azimuth -----

  /** The remainder with the sign of the dividend. */
  function RemCircle(a: real): real { a - CIRCLE * (Trunc(a / CIRCLE) as real) }

  /** `normalize_azimuth` */
  function Normal(a: real): real { if RemCircle(a) < 0.0 then RemCircle(a) + CIRCLE else RemCircle(a) }

  /** The one angle in [0, 360) a whole number of turns away. */
  lemma NormalIs(a: real)
    ensures 0.0 <= Normal(a) < CIRCLE
    ensures Normal(a) == a - CIRCLE * ((a / CIRCLE).Floor as real)
  {
    var q := a / CIRCLE;
    assert a == CIRCLE * q;
    TruncIs(q);
    hide Trunc;
  }

  lemma TruncIs(q: real)
    ensures q >= 0.0 || q == q.Floor as real ==> Trunc(q) == q.Floor
    ensures q < 0.0 && q != q.Floor as real ==> Trunc(q) == q.Floor + 1
    ensures q.Floor as real <= q < q.Floor as real + 1.0 && (q >= 0.0 ==> q.Floor >= 0) && (q < 0.0 ==> q.Floor < 0)
  {
  }

  /** Adding full turns changes nothing. */
  lemma NormalPeriodic(a: real, turns: int)
    ensures Normal(a + CIRCLE * (turns as real)) == Normal(a)
  {
    var b := a + CIRCLE * (turns as real);
    NormalIs(a);
    NormalIs(b);
    assert b / CIRCLE == a / CIRCLE + turns as real;
    assert (b / CIRCLE).Floor == (a / CIRCLE).Floor + turns;
  }

  function Azimuths(rows: seq<AzimuthRow>): (r: seq<real>)
    ensures |r| == |rows| && forall i :: 0 <= i < |rows| ==> r[i] == rows[i].azimuth
  {
    seq(|rows|, i requires 0 <= i < |rows| => rows[i].azimuth)
  }

  /** `azimuth_bracket`: the rows at or below and at or above, or the last and the
      first when the azimuth falls in the gap between them. */
  function Brackets(xs: seq<real>, azimuth: real): (r: (nat, nat))
    requires xs != []
    ensures r.0 < |xs| && r.1 < |xs|
  {
    match (LastAtMost(xs, azimuth), FirstAtLeast(xs, azimuth))
    case (Some(i), Some(j)) => (i, j)
    case _ => (|xs| - 1, 0)
  }

  /** `blend_azimuth` */
  function BlendAzimuth(low: real, highDeg: real, azimuth: real, lowValue: real, highValue: real): real {
    var high := if highDeg < low then highDeg + CIRCLE else highDeg;
    var target := if azimuth < low then azimuth + CIRCLE else azimuth;
    if high == low then lowValue else Blend(lowValue, highValue, low, high, target)
  }

  /** `interpolate_azimuth` over rows in rising order of azimuth. */
  function AtAzimuth(rows: seq<AzimuthRow>, azimuth: real, zenith: real): Option<real>
    requires rows != []
  {
    var a := Normal(azimuth);
    var (i, j) := Brackets(Azimuths(rows), a);
    match (AtZenith(rows[i].samples, zenith), AtZenith(rows[j].samples, zenith))
    case (Some(low), Some(high)) => Some(BlendAzimuth(rows[i].azimuth, rows[j].azimuth, a, low, high))
    case _ => None
  }

  ghost predicate RowsOk(rows: seq<AzimuthRow>) {
    && rows != []
    && Rising(Azimuths(rows))
    && forall i :: 0 <= i < |rows| ==>
         0.0 <= rows[i].azimuth <= CIRCLE && rows[i].samples != [] && Rising(Zeniths(rows[i].samples))
  }

  /** The blend of an azimuth's two rows lies between their values, also across the
      seam, and is one of them at that row's azimuth. */
  lemma AzimuthBlends(xs: seq<real>, a: real, lowValue: real, highValue: real)
    requires xs != [] && Rising(xs) && (forall i :: 0 <= i < |xs| ==> 0.0 <= xs[i] <= CIRCLE) && 0.0 <= a < CIRCLE
    ensures var (i, j) := Brackets(xs, a);
      Between(BlendAzimuth(xs[i], xs[j], a, lowValue, highValue), lowValue, highValue)
  {
    hide LastAtMost, FirstAtLeast, Blend;
    var last := |xs| - 1;
    var (i, j) := Brackets(xs, a);
    if LastAtMost(xs, a).Some? && FirstAtLeast(xs, a).Some? {
      Neighbours(xs, a);
      if i < j {
        BlendBetween(lowValue, highValue, xs[i], xs[j], a);
      }
    } else if last > 0 {
      assert xs[0] < xs[last];
      var target := if a < xs[last] then a + CIRCLE else a;
      assert xs[last] <= target <= xs[0] + CIRCLE by {
        assert LastAtMost(xs, a).None? ==> a < xs[0];
        assert FirstAtLeast(xs, a).None? ==> xs[last] < a;
      }
      if xs[last] < xs[0] + CIRCLE {
        BlendBetween(lowValue, highValue, xs[last], xs[0] + CIRCLE, target);
      }
    }
  }

  /** Every interpolated value lies between the zenith values of its two rows. */
  lemma BetweenRows(rows: seq<AzimuthRow>, azimuth: real, zenith: real)
    requires RowsOk(rows)
    ensures AtAzimuth(rows, azimuth, zenith).Some?
    ensures var (i, j) := Brackets(Azimuths(rows), Normal(azimuth));
      && AtZenith(rows[i].samples, zenith).Some? && AtZenith(rows[j].samples, zenith).Some?
      && Between(AtAzimuth(rows, azimuth, zenith).value,
                 AtZenith(rows[i].samples, zenith).value, AtZenith(rows[j].samples, zenith).value)
  {
    hide AtZenith, Normal, Brackets, BlendAzimuth;
    NormalIs(azimuth);
    var a := Normal(azimuth);
    var (i, j) := Brackets(Azimuths(rows), a);
    var _, _ := ZenithBetween(rows[i].samples, zenith);
    var _, _ := ZenithBetween(rows[j].samples, zenith);
    AzimuthBlends(Azimuths(rows), a, AtZenith(rows[i].samples, zenith).value, AtZenith(rows[j].samples, zenith).value);
  }

  /** Every interpolated value lies between the smallest and the largest of the up to
      four samples it blends: two neighbours of its lower row and two of its upper. */
  lemma InterpolatedBetween(rows: seq<AzimuthRow>, azimuth: real, zenith: real)
    returns (k: nat, k': nat, m: nat, m': nat)
    requires RowsOk(rows)
    ensures AtAzimuth(rows, azimuth, zenith).Some?
    ensures var (i, j) := Brackets(Azimuths(rows), Normal(azimuth));
      var low, high := rows[i].samples, rows[j].samples;
      && Bracket(low, zenith, k, k') && Bracket(high, zenith, m, m')
      && Min(Min(low[k].value, low[k'].value), Min(high[m].value, high[m'].value))
         <= AtAzimuth(rows, azimuth, zenith).value
         <= Max(Max(low[k].value, low[k'].value), Max(high[m].value, high[m'].value))
  {
    hide AtZenith, AtAzimuth, Normal, Brackets, Bracket, Rising;
    var (i, j) := Brackets(Azimuths(rows), Normal(azimuth));
    BetweenRows(rows, azimuth, zenith);
    k, k' := ZenithBetween(rows[i].samples, zenith);
    m, m' := ZenithBetween(rows[j].samples, zenith);
    BracketInside(rows[i].samples, zenith, k, k');
    BracketInside(rows[j].samples, zenith, m, m');
  }

  /** Adding full turns to the azimuth changes nothing. */
  lemma InterpolationPeriodic(rows: seq<AzimuthRow>, azimuth: real, zenith: real, turns: int)
    requires rows != []
    ensures AtAzimuth(rows, azimuth + CIRCLE * (turns as real), zenith) == AtAzimuth(rows, azimuth, zenith)
  {
    NormalPeriodic(azimuth, turns);
  }

  /** At a node below 360 degrees the stored value is returned. */
  lemma InterpolationAtNode(rows: seq<AzimuthRow>, k: nat, m: nat)
    requires RowsOk(rows) && k < |rows| && m < |rows[k].samples| && rows[k].azimuth < CIRCLE
    ensures AtAzimuth(rows, rows[k].azimuth, rows[k].samples[m].zenith) == Some(rows[k].samples[m].value)
  {
    hide AtZenith, LastAtMost, FirstAtLeast, Normal;
    NormalInside(rows[k].azimuth);
    AtNode(Azimuths(rows), k);
    ZenithAtNode(rows[k].samples, m);
  }

  lemma NormalInside(a: real)
    requires 0.0 <= a < CIRCLE
    ensures Normal(a) == a
  {
    assert (a / CIRCLE).Floor == 0;
  }

  lemma NormalFull()
    ensures Normal(CIRCLE) == 0.0
  {
    assert CIRCLE / CIRCLE == 1.0;
  }

  /** A row at 360 degrees names the same direction as one at 0. Its node gives its
      own value unless a row at 0 is present, whose value is then returned. */
  lemma InterpolationAtSeam(rows: seq<AzimuthRow>, zenith: real)
    requires RowsOk(rows) && rows[|rows| - 1].azimuth == CIRCLE
    ensures AtAzimuth(rows, CIRCLE, zenith)
         == AtZenith(rows[if rows[0].azimuth == 0.0 then 0 else |rows| - 1].samples, zenith)
  {
    hide AtZenith, Normal, Blend, LastAtMost, FirstAtLeast;
    NormalFull();
    var xs, last := Azimuths(rows), |rows| - 1;
    var _, _ := ZenithBetween(rows[0].samples, zenith);
    var _, _ := ZenithBetween(rows[last].samples, zenith);
    if xs[0] == 0.0 {
      AtNode(xs, 0);
    } else {
      assert forall i :: 0 < i < |xs| ==> xs[0] < xs[i];
      assert LastAtMost(xs, 0.0).None?;
      assert Brackets(xs, 0.0) == (last, 0);
      if last > 0 {
        BlendBetween(AtZenith(rows[last].samples, zenith).value, AtZenith(rows[0].samples, zenith).value,
          CIRCLE, xs[0] + CIRCLE, CIRCLE);
      }
    }
  }

  /** A row's own azimuth and a sample's own zenith give that sample's value unless
      the row stands at 360 degrees beside one at 0 that says otherwise. */
  lemma StoredExactly(rows: seq<AzimuthRow>, k: nat, m: nat)
    requires RowsOk(rows) && k < |rows| && m < |rows[k].samples|
    ensures var node, stored := rows[k].samples[m].zenith, rows[k].samples[m].value;
      AtAzimuth(rows, rows[k].azimuth, node) == Some(stored)
      <==> rows[k].azimuth != CIRCLE || rows[0].azimuth != 0.0 || AtZenith(rows[0].samples, node) == Some(stored)
  {
    hide AtAzimuth, AtZenith;
    if rows[k].azimuth != CIRCLE {
      InterpolationAtNode(rows, k, m);
    } else {
      LastRow(rows, k);
      InterpolationAtSeam(rows, rows[k].samples[m].zenith);
      ZenithAtNode(rows[k].samples, m);
    }
  }

  /** Only the last row can stand at 360 degrees. */
  lemma LastRow(rows: seq<AzimuthRow>, k: nat)
    requires RowsOk(rows) && k < |rows| && rows[k].azimuth == CIRCLE
    ensures k == |rows| - 1
  {
    var xs, last := Azimuths(rows), |rows| - 1;
    assert xs[k] == CIRCLE && xs[last] <= CIRCLE;
  }

  /** Rows at 0 and 360 degrees that state 1 and 2: the stored 2 is never returned. */
  lemma SeamWitness()
    ensures var rows := [AzimuthRow(0.0, [Sample(0.0, 1.0)]), AzimuthRow(CIRCLE, [Sample(0.0, 2.0)])];
      RowsOk(rows) && AtAzimuth(rows, CIRCLE, 0.0) == Some(1.0)
  {
    var rows := [AzimuthRow(0.0, [Sample(0.0, 1.0)]), AzimuthRow(CIRCLE, [Sample(0.0, 2.0)])];
    assert RowsOk(rows);
    hide AtAzimuth;
    InterpolationAtSeam(rows, 0.0);
  }

  // ----- linearity -----

  /** The blend is the point of the line through both ends. */
  lemma BlendOnLine(a: real, b: real, low: real, high: real, x: real)
    requires low < high
    ensures Times(Blend(a, b, low, high, x) - a, high - low) == Times(b - a, x - low)
  {
    hide Times, Over;
    OverTimes(x - low, high - low);
    TimesAssoc(b - a, Over(x - low, high - low), high - low);
  }

  /** Between neighbouring samples the value is exactly linear in zenith. */
  lemma ZenithOnLine(s: seq<Sample>, i: nat, zenith: real)
    requires Rising(Zeniths(s)) && i + 1 < |s| && s[i].zenith <= zenith <= s[i + 1].zenith
    ensures AtZenith(s, zenith).Some?
    ensures Times(AtZenith(s, zenith).value - s[i].value, s[i + 1].zenith - s[i].zenith)
         == Times(s[i + 1].value - s[i].value, zenith - s[i].zenith)
  {
    hide LastAtMost, FirstAtLeast, Blend, Times, AtZenith;
    var zs := Zeniths(s);
    assert zs[i] < zs[i + 1];
    if zenith == s[i].zenith {
      ZenithAtNode(s, i);
      TimesSigns(0.0, s[i + 1].zenith - s[i].zenith);
      TimesSigns(s[i + 1].value - s[i].value, 0.0);
    } else if zenith == s[i + 1].zenith {
      ZenithAtNode(s, i + 1);
    } else {
      InsideGap(zs, i, zenith);
      ZenithInside(s, i, zenith);
      BlendOnLine(s[i].value, s[i + 1].value, s[i].zenith, s[i + 1].zenith, zenith);
    }
  }

  lemma InsideGap(xs: seq<real>, i: nat, x: real)
    requires Rising(xs) && i + 1 < |xs| && xs[i] < x < xs[i + 1]
    ensures LastAtMost(xs, x) == Some(i) && FirstAtLeast(xs, x) == Some(i + 1)
    ensures xs[0] < x < xs[|xs| - 1]
  {
    hide LastAtMost, FirstAtLeast;
    assert i > 0 ==> xs[0] < xs[i];
    assert i + 1 < |xs| - 1 ==> xs[i + 1] < xs[|xs| - 1];
  }

  lemma ZenithInside(s: seq<Sample>, i: nat, zenith: real)
    requires i + 1 < |s| && s[i].zenith < zenith < s[i + 1].zenith && s[0].zenith < zenith < s[|s| - 1].zenith
    requires LastAtMost(Zeniths(s), zenith) == Some(i) && FirstAtLeast(Zeniths(s), zenith) == Some(i + 1)
    ensures AtZenith(s, zenith) == Some(Blend(s[i].value, s[i + 1].value, s[i].zenith, s[i + 1].zenith, zenith))
  {
    hide LastAtMost, FirstAtLeast, Blend;
  }

  /** Across the seam the blend is exactly linear from the last row to the first one
      a full turn later. */
  lemma SeamOnLine(last: real, first: real, azimuth: real, a: real, b: real)
    requires 0.0 <= first < last <= CIRCLE && 0.0 <= azimuth < CIRCLE && (azimuth < first || azimuth > last)
    ensures var target := if azimuth < first then azimuth + CIRCLE else azimuth;
      && last <= target <= first + CIRCLE
      && Times(BlendAzimuth(last, first, azimuth, a, b) - a, first + CIRCLE - last) == Times(b - a, target - last)
  {
    hide Times, Blend;
    if last == first + CIRCLE {
      TimesSigns(0.0, 0.0);
      TimesSigns(b - a, 0.0);
    } else {
      BlendOnLine(a, b, last, first + CIRCLE, if azimuth < last then azimuth + CIRCLE else azimuth);
    }
  }

  /** The zenith value of a row. */
  function RowValue(row: AzimuthRow, zenith: real): real {
    match AtZenith(row.samples, zenith)
    case None => 0.0
    case Some(v) => v
  }

  /** Between neighbouring rows the value is exactly linear in azimuth. */
  lemma InterpolationOnLine(rows: seq<AzimuthRow>, i: nat, azimuth: real, zenith: real)
    requires RowsOk(rows) && i + 1 < |rows| && rows[i].azimuth <= Normal(azimuth) <= rows[i + 1].azimuth
    ensures AtAzimuth(rows, azimuth, zenith).Some?
    ensures Times(AtAzimuth(rows, azimuth, zenith).value - RowValue(rows[i], zenith), rows[i + 1].azimuth - rows[i].azimuth)
         == Times(RowValue(rows[i + 1], zenith) - RowValue(rows[i], zenith), Normal(azimuth) - rows[i].azimuth)
  {
    hide AtZenith, Normal, Blend, LastAtMost, FirstAtLeast, Times;
    var xs, a := Azimuths(rows), Normal(azimuth);
    var low, high := RowValue(rows[i], zenith), RowValue(rows[i + 1], zenith);
    assert xs[i] < xs[i + 1];
    var _, _ := ZenithBetween(rows[i].samples, zenith);
    var _, _ := ZenithBetween(rows[i + 1].samples, zenith);
    if a == xs[i] {
      AtNode(xs, i);
      TimesSigns(0.0, xs[i + 1] - xs[i]);
      TimesSigns(high - low, 0.0);
    } else if a == xs[i + 1] {
      AtNode(xs, i + 1);
    } else {
      InsideGap(xs, i, a);
      BlendOnLine(low, high, xs[i], xs[i + 1], a);
    }
  }

  /** And across the seam from the last row to the first. */
  lemma InterpolationAcrossSeam(rows: seq<AzimuthRow>, azimuth: real, zenith: real)
    requires RowsOk(rows) && |rows| > 1
    requires Normal(azimuth) < rows[0].azimuth || Normal(azimuth) > rows[|rows| - 1].azimuth
    ensures AtAzimuth(rows, azimuth, zenith).Some?
    ensures var first, last := rows[0], rows[|rows| - 1];
      var a := Normal(azimuth);
      var target := if a < first.azimuth then a + CIRCLE else a;
      Times(AtAzimuth(rows, azimuth, zenith).value - RowValue(last, zenith), first.azimuth + CIRCLE - last.azimuth)
      == Times(RowValue(first, zenith) - RowValue(last, zenith), target - last.azimuth)
  {
    NormalIs(azimuth);
    hide AtZenith, Normal, BlendAzimuth, LastAtMost, FirstAtLeast, Times;
    var xs, a, last := Azimuths(rows), Normal(azimuth), |rows| - 1;
    assert xs[0] < xs[last];
    var _, _ := ZenithBetween(rows[0].samples, zenith);
    var _, _ := ZenithBetween(rows[last].samples, zenith);
    OutsideRows(xs, a);
    SeamOnLine(xs[last], xs[0], a, RowValue(rows[last], zenith), RowValue(rows[0], zenith));
  }

  lemma OutsideRows(xs: seq<real>, a: real)
    requires |xs| > 1 && Rising(xs) && (a < xs[0] || a > xs[|xs| - 1])
    ensures Brackets(xs, a) == (|xs| - 1, 0)
  {
    hide LastAtMost, FirstAtLeast;
    assert forall i :: 0 < i < |xs| ==> xs[0] < xs[i];
    assert forall i :: 0 <= i < |xs| - 1 ==> xs[i] < xs[|xs| - 1];
  }
}
