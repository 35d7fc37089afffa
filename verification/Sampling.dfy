/** Regular sampling of a window: the epoch grid (`sample_epochs`, `sample_times`),
    rows laid out over it (`sample`), and split dates advanced along it
    (`compare_window_epochs`). */
module Sampling {

  import opened Text
  import opened Reals

  // ----- the grid -----

  function At(start: real, step: real, k: nat): real { start + Times(step, k as real) }

  /** Begins at `start`, ends exactly at `stop`, rises strictly by at most one step,
      and every time but the last is a whole number of steps from `start`. */
  ghost predicate IsGrid(ts: seq<real>, start: real, stop: real, step: real) {
    && ts != [] && ts[0] == start && ts[|ts| - 1] == stop
    && (forall i :: 0 <= i < |ts| - 1 ==> ts[i] < ts[i + 1] <= ts[i] + step)
    && (forall i :: 0 <= i < |ts| - 1 ==> ts[i] == At(start, step, i))
  }

  lemma AtStep(start: real, step: real, k: nat)
    ensures At(start, step, k + 1) == At(start, step, k) + step && At(start, step, 0) == start
  {
    hide Times;
    TimesSum(step, k as real, 1.0);
    TimesSwap(step, 1.0);
    TimesSigns(1.0, step);
    TimesSigns(step, 0.0);
  }

  /** The grid of a window is determined by its bounds and step. */
  lemma GridUnique(a: seq<real>, b: seq<real>, start: real, stop: real, step: real)
    requires step > 0.0 && IsGrid(a, start, stop, step) && IsGrid(b, start, stop, step)
    ensures a == b
  {
    hide At;
    GridNoLonger(a, b, start, stop, step);
    GridNoLonger(b, a, start, stop, step);
  }

  lemma GridNoLonger(a: seq<real>, b: seq<real>, start: real, stop: real, step: real)
    requires step > 0.0 && IsGrid(a, start, stop, step) && IsGrid(b, start, stop, step)
    ensures |b| <= |a|
  {
    hide At;
    // the end of `a` is at most the point of that index, which `b` would pass by
    var n := |a| - 1;
    AtStep(start, step, if n == 0 then 0 else n - 1);
    assert a[n] <= At(start, step, n);
    if n < |b| - 1 {
      RisesToEnd(b, n, start, stop, step);
    }
  }

  lemma {:induction false} RisesToEnd(b: seq<real>, i: nat, start: real, stop: real, step: real)
    requires IsGrid(b, start, stop, step) && i < |b| - 1
    ensures b[i] < stop
    decreases |b| - i
  {
    if i + 1 < |b| - 1 {
      RisesToEnd(b, i + 1, start, stop, step);
    }
  }

  // ----- the samplers -----

  /** A number of steps that reaches past any distance. */
  lemma EnoughSteps(start: real, stop: real, step: real) returns (n: nat)
    requires step > 0.0 && start <= stop
    ensures At(start, step, n) > stop
  {
    var q := Over(stop - start, step);
    OverNotNegative(stop - start, step);
    OverTimes(stop - start, step);
    n := q.Floor + 1;
    assert q < n as real;
    hide Times, Over;
    TimesLess(q, n as real, step);
    TimesSwap(step, n as real);
  }

  lemma {:induction false} AtRises(start: real, step: real, j: nat, k: nat)
    requires step > 0.0 && j <= k
    ensures At(start, step, j) <= At(start, step, k)
    decreases k
  {
    hide At;
    if j < k {
      AtRises(start, step, j, k - 1);
      AtStep(start, step, k - 1);
    }
  }

  /** The regular part of the grid: the times up to `stop`. */
  ghost predicate Regular(ts: seq<real>, start: real, stop: real, step: real) {
    forall i :: 0 <= i < |ts| ==> ts[i] == At(start, step, i) && ts[i] <= stop
  }

  /** The regular times, snapped to the end, are the grid. */
  lemma SnapIsGrid(ts: seq<real>, start: real, stop: real, step: real)
    requires step > 0.0 && ts != [] && Regular(ts, start, stop, step) && At(start, step, |ts|) > stop
    ensures IsGrid(if ts[|ts| - 1] < stop then ts + [stop] else ts, start, stop, step)
  {
    hide At;
    var last := |ts| - 1;
    AtStep(start, step, last);
    AtStep(start, step, 0);
    forall i | 0 <= i < last ensures ts[i] < ts[i + 1] <= ts[i] + step {
      AtStep(start, step, i);
    }
  }

  datatype SampleError = StepNotPositive | StepTooSmall | Source(code: nat)

  /** `sample_epochs`: refuses a step that is not positive; its check that times rise
      never fails in exact arithmetic. */
  method SampleEpochs(start: real, stop: real, step: real) returns (r: Result<seq<real>, SampleError>)
    ensures r.Ok? <==> step > 0.0
    ensures r.Ok? && start <= stop ==> IsGrid(r.value, start, stop, step)
    ensures r.Ok? && start > stop ==> r.value == []
  {
    hide At;
    if step <= 0.0 { return Err(StepNotPositive); }
    if start > stop { return Ok([]); }
    var epochs: seq<real>, k: nat := [], 0;
    ghost var enough := EnoughSteps(start, stop, step);
    AtStep(start, step, 0);
    while true
      invariant k == |epochs| <= enough && Regular(epochs, start, stop, step)
      invariant k == 0 ==> At(start, step, k) == start
      decreases enough - k
    {
      var epoch := At(start, step, k);
      if epoch > stop { break; }
      if k > 0 {
        AtStep(start, step, k - 1);
      }
      if k > 0 && epoch <= epochs[k - 1] { return Err(StepTooSmall); }
      if k >= enough {
        AtRises(start, step, enough, k);
      }
      epochs := epochs + [epoch];
      k := k + 1;
    }
    SnapIsGrid(epochs, start, stop, step);
    if epochs[|epochs| - 1] < stop { epochs := epochs + [stop]; }
    return Ok(epochs);
  }

  /** `sample_times`, whose step the caller has checked. */
  method SampleTimes(t0: real, t1: real, step: real) returns (out: seq<real>)
    requires step > 0.0
    ensures t0 <= t1 ==> IsGrid(out, t0, t1, step)
    ensures t0 > t1 ==> out == []
  {
    hide At;
    out := [];
    if t0 > t1 { return; }
    var k: nat := 0;
    ghost var enough := EnoughSteps(t0, t1, step);
    AtStep(t0, step, 0);
    while true
      invariant k == |out| <= enough && Regular(out, t0, t1, step)
      invariant k == 0 ==> At(t0, step, k) == t0
      decreases enough - k
    {
      var t := At(t0, step, k);
      if t > t1 { break; }
      if k >= enough {
        AtRises(t0, step, enough, k);
      }
      out := out + [t];
      k := k + 1;
    }
    SnapIsGrid(out, t0, t1, step);
    if out[|out| - 1] < t1 { out := out + [t1]; }
  }

  // ----- rows -----

  datatype State = State(position: (real, real, real), clock: Option<real>)

  /** What a source answers: a state, a gap, or a failure. */
  datatype Answer = Found(state: State) | Gap | Failed(code: nat)

  datatype SampleRow = SampleRow(sat: nat, epoch: real, state: Option<State>)

  /** `sample_one`: a gap is a row without a state, a failure is an error. */
  function SampleOne(source: (nat, real) -> Answer, sat: nat, epoch: real): Result<SampleRow, SampleError> {
    match source(sat, epoch)
    case Found(state) => Ok(SampleRow(sat, epoch, Some(state)))
    case Gap => Ok(SampleRow(sat, epoch, None))
    case Failed(code) => Err(Source(code))
  }

  /** Satellite-major rows: row `s * n + e` is satellite `s` at epoch `e`. */
  ghost predicate Laid(source: (nat, real) -> Answer, sats: seq<nat>, epochs: seq<real>, rows: seq<SampleRow>) {
    && |rows| == |sats| * |epochs|
    && forall s, e :: 0 <= s < |sats| && 0 <= e < |epochs| ==> RowIs(source, sats, epochs, rows, s, e)
  }

  ghost predicate RowIs(source: (nat, real) -> Answer, sats: seq<nat>, epochs: seq<real>, rows: seq<SampleRow>, s: nat, e: nat)
    requires s < |sats| && e < |epochs|
  {
    && s * |epochs| + e < |rows|
    && var row := rows[s * |epochs| + e];
       && row.sat == sats[s] && row.epoch == epochs[e]
       && match source(sats[s], epochs[e])
          case Found(state) => row.state == Some(state)
          case Gap => row.state == None
          case Failed(_) => false
  }

  ghost predicate Fails(source: (nat, real) -> Answer, sats: seq<nat>, epochs: seq<real>) {
    exists s, e :: 0 <= s < |sats| && 0 <= e < |epochs| && source(sats[s], epochs[e]).Failed?
  }

  method SampleSatellite(source: (nat, real) -> Answer, sat: nat, epochs: seq<real>)
    returns (r: Result<seq<SampleRow>, SampleError>)
    ensures r.Ok? ==> |r.value| == |epochs| && forall e :: 0 <= e < |epochs| ==> SampleOne(source, sat, epochs[e]) == Ok(r.value[e])
    ensures r.Err? ==> exists e :: 0 <= e < |epochs| && source(sat, epochs[e]).Failed?
  {
    var rows: seq<SampleRow>, i := [], 0;
    while i < |epochs|
      invariant i <= |epochs| && |rows| == i
      invariant forall e :: 0 <= e < i ==> SampleOne(source, sat, epochs[e]) == Ok(rows[e])
    {
      var row := SampleOne(source, sat, epochs[i]);
      if row.Err? {
        assert source(sat, epochs[i]).Failed?;
        return Err(row.error);
      }
      rows := rows + [row.value];
      i := i + 1;
    }
    return Ok(rows);
  }

  lemma LaidMore(source: (nat, real) -> Answer, sats: seq<nat>, epochs: seq<real>, rows: seq<SampleRow>, k: nat, more: seq<SampleRow>)
    requires k < |sats| && Laid(source, sats[..k], epochs, rows) && |more| == |epochs|
    requires forall e :: 0 <= e < |epochs| ==> SampleOne(source, sats[k], epochs[e]) == Ok(more[e])
    ensures Laid(source, sats[..k + 1], epochs, rows + more)
  {
    var n := |epochs|;
    Lengths(k, n);
    var now, all := sats[..k + 1], rows + more;
    forall s, e | 0 <= s < |now| && 0 <= e < n ensures RowIs(source, now, epochs, all, s, e) {
      if s < k {
        assert RowIs(source, sats[..k], epochs, rows, s, e);
      }
    }
  }

  lemma Lengths(k: nat, n: nat)
    ensures (k + 1) * n == k * n + n
  {
  }

  /** `sample`: no row is lost, and a failing answer is an error. */
  method Sample(source: (nat, real) -> Answer, sats: seq<nat>, start: real, stop: real, step: real)
    returns (r: Result<seq<SampleRow>, SampleError>, ghost epochs: seq<real>)
    ensures step <= 0.0 ==> r.Err?
    ensures step > 0.0 && start > stop ==> epochs == []
    ensures step > 0.0 && start <= stop ==> IsGrid(epochs, start, stop, step)
    ensures step > 0.0 ==> (r.Ok? <==> !Fails(source, sats, epochs))
    ensures r.Ok? ==> Laid(source, sats, epochs, r.value)
  {
    hide IsGrid;
    var times := SampleEpochs(start, stop, step);
    if times.Err? {
      epochs := [];
      return Err(times.error), [];
    }
    epochs := times.value;
    var rows: seq<SampleRow>, k := [], 0;
    while k < |sats|
      invariant k <= |sats| && Laid(source, sats[..k], times.value, rows)
    {
      var more := SampleSatellite(source, sats[k], times.value);
      if more.Err? {
        return Err(more.error), times.value;
      }
      LaidMore(source, sats, times.value, rows, k, more.value);
      rows := rows + more.value;
      k := k + 1;
    }
    assert sats[..k] == sats;
    LaidNeverFails(source, sats, times.value, rows);
    return Ok(rows), times.value;
  }

  lemma LaidNeverFails(source: (nat, real) -> Answer, sats: seq<nat>, epochs: seq<real>, rows: seq<SampleRow>)
    requires Laid(source, sats, epochs, rows)
    ensures !Fails(source, sats, epochs)
  {
    forall s, e | 0 <= s < |sats| && 0 <= e < |epochs| ensures !source(sats[s], epochs[e]).Failed? {
      assert RowIs(source, sats, epochs, rows, s, e);
    }
  }

  // ----- split dates -----

  const DAY: real := 86400.0

  datatype SplitDate = SplitDate(whole: real, fraction: real)

  /** `advance_split` */
  function Advance(start: SplitDate, seconds: real): SplitDate {
    var total := start.fraction + seconds / DAY;
    SplitDate(start.whole + Trunc(total) as real, total - Trunc(total) as real)
  }

  /** Advancing adds exactly the seconds and leaves less than a day's fraction. */
  lemma AdvanceConserves(start: SplitDate, seconds: real)
    ensures var d := Advance(start, seconds);
      d.whole + d.fraction == start.whole + start.fraction + seconds / 86400.0 && -1.0 < d.fraction < 1.0
  {
  }

  datatype EpochInputs = EpochInputs(t: real, precise: SplitDate, plus: SplitDate, minus: SplitDate)

  datatype Window = Window(t0: real, t1: real, start: SplitDate, step: real, half: real)

  function Days(d: SplitDate): real { d.whole + d.fraction }

  predicate FractionOk(d: SplitDate) { -1.0 <= d.fraction <= 1.0 }

  /** `validate_compare_inputs` */
  predicate InputsOk(epochs: seq<EpochInputs>, half: real) {
    && half > 0.0
    && forall i :: 0 <= i < |epochs| ==>
         FractionOk(epochs[i].precise) && FractionOk(epochs[i].plus) && FractionOk(epochs[i].minus)
  }

  function TimesOf(epochs: seq<EpochInputs>): (r: seq<real>)
    ensures |r| == |epochs| && forall i :: 0 <= i < |r| ==> r[i] == epochs[i].t
  {
    seq(|epochs|, i requires 0 <= i < |epochs| => epochs[i].t)
  }

  /** The three precise queries stand at the epoch and half a step either side. */
  ghost predicate Queried(w: Window, e: EpochInputs) {
    && Days(e.precise) == Days(w.start) + (e.t - w.t0) / 86400.0
    && Days(e.plus) == Days(w.start) + (e.t - w.t0 + w.half) / 86400.0
    && Days(e.minus) == Days(w.start) + (e.t - w.t0 - w.half) / 86400.0
  }

  /** `compare_window_epochs`: the same grid as `sample_epochs`, with dates that
      `compare` never refuses. */
  method CompareWindowEpochs(w: Window) returns (r: Result<seq<EpochInputs>, SampleError>)
    ensures r.Ok? <==> w.step > 0.0 && w.half > 0.0
    ensures r.Ok? && w.t0 <= w.t1 ==> IsGrid(TimesOf(r.value), w.t0, w.t1, w.step)
    ensures r.Ok? && w.t0 > w.t1 ==> r.value == []
    ensures r.Ok? ==> InputsOk(r.value, w.half)
    ensures r.Ok? ==> forall i :: 0 <= i < |r.value| ==> Queried(w, r.value[i])
  {
    hide IsGrid, Advance;
    if w.step <= 0.0 || w.half <= 0.0 { return Err(StepNotPositive); }
    var times := SampleTimes(w.t0, w.t1, w.step);
    var epochs: seq<EpochInputs>, i := [], 0;
    while i < |times|
      invariant i <= |times| && |epochs| == i
      invariant forall k :: 0 <= k < i ==> epochs[k].t == times[k] && Queried(w, epochs[k])
      invariant InputsOk(epochs, w.half)
    {
      var dt := times[i] - w.t0;
      AdvanceConserves(w.start, dt);
      AdvanceConserves(w.start, dt + w.half);
      AdvanceConserves(w.start, dt - w.half);
      epochs := epochs + [EpochInputs(times[i], Advance(w.start, dt), Advance(w.start, dt + w.half), Advance(w.start, dt - w.half))];
      i := i + 1;
    }
    assert TimesOf(epochs) == times;
    return Ok(epochs);
  }
}
