/** The replay scheduler (`ReplayTimeline`): wall time buys replay time, and replay
    time is spent on the gaps between epochs, a few frames a tick. */
module Replay {

  import opened Text
  import opened Reals

  const FRAMES_PER_TICK: nat := 8
  const MAX_SPEED: real := 1024.0
  const MIN_SPEED: real := 0.25

  datatype Timeline = Timeline(times: seq<real>, current: Option<nat>, saved: real, speed: real, paused: bool)

  predicate Valid(t: Timeline) {
    && t.times != []
    && (t.current.Some? ==> t.current.value < |t.times|)
    && t.saved >= 0.0
    && t.speed > 0.0
  }

  function Gap(times: seq<real>, i: nat): (g: real)
    requires i + 1 < |times|
    ensures g >= 0.0
  {
    if times[i + 1] - times[i] < 0.0 then 0.0 else times[i + 1] - times[i]
  }

  /** The next frame exists and its gap is paid for. */
  predicate CanStep(t: Timeline) {
    t.current.Some? && t.current.value + 1 < |t.times| && Gap(t.times, t.current.value) <= t.saved
  }

  function StepOnce(t: Timeline): Timeline
    requires CanStep(t)
  {
    t.(current := Some(t.current.value + 1), saved := t.saved - Gap(t.times, t.current.value))
  }

  /** The state after a tick with `room` frames left has shown what is paid for. */
  function Drained(t: Timeline, room: nat): Timeline
    decreases room
  {
    if room == 0 || !CanStep(t) then t else Drained(StepOnce(t), room - 1)
  }

  function Started(t: Timeline): Timeline { if t.current.None? then t.(current := Some(0)) else t }

  function Earned(t: Timeline, wall: real): Timeline { t.(saved := t.saved + Times(wall, t.speed)) }

  /** Frames left in a tick once the first frame of all has been shown. */
  function Room(t: Timeline): nat { if t.current.None? then FRAMES_PER_TICK - 1 else FRAMES_PER_TICK }

  /** `advance_wall_time`. */
  function Tick(t: Timeline, wall: real): Timeline {
    if t.paused then t else Drained(Earned(Started(t), wall), Room(t))
  }

  /** Index of the frame after the last one shown. */
  function Next(t: Timeline): nat { if t.current.None? then 0 else t.current.value + 1 }

  function Range(a: nat, b: nat): (r: seq<nat>)
    ensures a <= b ==> |r| == b - a && forall i :: 0 <= i < |r| ==> r[i] == a + i
  {
    if a >= b then [] else seq(b - a, i requires 0 <= i < b - a => a + i)
  }

  /** What a tick emits: the consecutive frames from the next one on. */
  function Emitted(t: Timeline, wall: real): seq<nat> { Range(Next(t), Next(Tick(t, wall))) }

  lemma RangeJoin(a: nat, b: nat, c: nat)
    requires a <= b <= c
    ensures Range(a, b) + Range(b, c) == Range(a, c)
  {
  }

  // ----- draining -----

  lemma {:induction false} DrainKeeps(t: Timeline, room: nat)
    requires Valid(t)
    ensures var r := Drained(t, room);
      && Valid(r) && r == t.(current := r.current, saved := r.saved)
      && Next(t) <= Next(r) <= Next(t) + room
      && (Next(r) < Next(t) + room ==> !CanStep(r))
      && (t.current.Some? <==> r.current.Some?)
    decreases room
  {
    if room > 0 && CanStep(t) {
      DrainKeeps(StepOnce(t), room - 1);
    }
  }

  /** Gaps of all frames before `i`. */
  function GapsBefore(times: seq<real>, i: nat): real
    requires i < |times|
  {
    if i == 0 then 0.0 else GapsBefore(times, i - 1) + Gap(times, i - 1)
  }

  /** Replay time saved and spent. */
  function Worth(t: Timeline): real
    requires Valid(t)
  {
    t.saved + if t.current.None? then 0.0 else GapsBefore(t.times, t.current.value)
  }

  lemma {:induction false} DrainConserves(t: Timeline, room: nat)
    requires Valid(t)
    ensures Valid(Drained(t, room)) && Worth(Drained(t, room)) == Worth(t)
    decreases room
  {
    if room > 0 && CanStep(t) {
      DrainConserves(StepOnce(t), room - 1);
    }
  }

  /** All frames that are paid for, without a limit. */
  function Settled(t: Timeline): Timeline { Drained(t, |t.times|) }

  lemma {:induction false} DrainMore(t: Timeline, room: nat, more: nat)
    requires Valid(t)
    ensures Drained(Drained(t, room), more) == Drained(t, room + more)
    decreases room
  {
    if room > 0 && CanStep(t) {
      DrainMore(StepOnce(t), room - 1, more);
    } else if room > 0 {
      assert Drained(t, room) == t && Drained(t, more) == t;
    }
  }

  /** Draining past the number of epochs is draining for good. */
  lemma {:induction false} DrainEnough(t: Timeline, room: nat)
    requires Valid(t) && t.current.Some? && room >= |t.times| - Next(t)
    ensures Drained(t, room) == Settled(t)
  {
    var n, m := room, |t.times|;
    DrainKeeps(t, n);
    DrainKeeps(t, m);
    var a, b := Drained(t, n), Drained(t, m);
    if n <= m {
      DrainMore(t, n, m - n);
      StuckStays(a, m - n);
    } else {
      DrainMore(t, m, n - m);
      StuckStays(b, n - m);
    }
  }

  lemma StuckStays(t: Timeline, room: nat)
    requires !CanStep(t)
    ensures Drained(t, room) == t
  {
  }

  lemma SettleDrained(t: Timeline, room: nat)
    requires Valid(t) && t.current.Some?
    ensures Settled(Drained(t, room)) == Settled(t)
  {
    DrainKeeps(t, room);
    DrainMore(t, room, |t.times|);
    DrainEnough(t, room + |t.times|);
  }

  /** Time earned before or after a frame is shown settles to the same state. */
  lemma {:induction false} EarnLater(t: Timeline, room: nat, extra: real)
    requires Valid(t) && t.current.Some? && extra >= 0.0
    ensures Settled(More(Drained(t, room), extra)) == Settled(More(t, extra))
    decreases room
  {
    if room > 0 && CanStep(t) {
      var next := StepOnce(t);
      EarnLater(next, room - 1, extra);
      assert CanStep(More(t, extra)) && StepOnce(More(t, extra)) == More(next, extra);
      assert Drained(More(t, extra), 1) == More(next, extra);
      SettleDrained(More(t, extra), 1);
    }
  }

  function More(t: Timeline, extra: real): Timeline { t.(saved := t.saved + extra) }

  // ----- whole runs -----

  /** A run without steps or pauses. */
  datatype Event = Wall(seconds: real) | Faster | Slower

  function Doubled(speed: real): real { if 2.0 * speed < MAX_SPEED then 2.0 * speed else MAX_SPEED }

  function Halved(speed: real): real { if speed / 2.0 > MIN_SPEED then speed / 2.0 else MIN_SPEED }

  /** Speeding up slows a replay down exactly when it starts above the highest speed,
      and slowing down speeds one up exactly below the lowest. */
  lemma SpeedBounds(speed: real)
    requires speed > 0.0
    ensures Doubled(speed) >= speed <==> speed <= MAX_SPEED
    ensures Halved(speed) <= speed <==> speed >= MIN_SPEED
    ensures speed <= 512.0 ==> Doubled(speed) == speed + speed
    ensures speed >= 512.0 ==> Doubled(speed) == 1024.0
    ensures speed >= 0.5 ==> Halved(speed) + Halved(speed) == speed
    ensures speed <= 0.5 ==> Halved(speed) == 0.25
  {
  }

  function Apply(t: Timeline, e: Event): Timeline {
    match e
    case Wall(seconds) => Tick(t, seconds)
    case Faster => t.(speed := Doubled(t.speed))
    case Slower => t.(speed := Halved(t.speed))
  }

  function Shown(t: Timeline, e: Event): seq<nat> { if e.Wall? then Emitted(t, e.seconds) else [] }

  predicate Events(es: seq<Event>) { forall i :: 0 <= i < |es| && es[i].Wall? ==> es[i].seconds >= 0.0 }

  function RunOf(t: Timeline, es: seq<Event>): Timeline {
    if es == [] then t else Apply(RunOf(t, es[..|es| - 1]), es[|es| - 1])
  }

  function AllShown(t: Timeline, es: seq<Event>): seq<nat> {
    if es == [] then []
    else AllShown(t, es[..|es| - 1]) + Shown(RunOf(t, es[..|es| - 1]), es[|es| - 1])
  }

  /** The speed before event `k`: what the speed changes before it make of the first. */
  function SpeedAt(speed: real, es: seq<Event>, k: nat): real
    requires k <= |es|
  {
    if k == 0 then speed
    else
      var before := SpeedAt(speed, es, k - 1);
      match es[k - 1]
      case Wall(_) => before
      case Faster => Doubled(before)
      case Slower => Halved(before)
  }

  /** Replay time bought: wall time times the speed at the time, over the run. */
  function Bought(speed: real, es: seq<Event>): real {
    if es == [] then 0.0
    else
      var n := |es| - 1;
      Bought(speed, es[..n]) + if es[n].Wall? then Times(es[n].seconds, SpeedAt(speed, es, n)) else 0.0
  }

  // ----- what every run keeps -----

  lemma StartKeeps(t: Timeline, wall: real)
    requires Valid(t) && wall >= 0.0
    ensures Valid(Earned(Started(t), wall)) && Worth(Earned(Started(t), wall)) == Worth(t) + Times(wall, t.speed)
    ensures Next(Started(t)) + Room(t) == Next(t) + FRAMES_PER_TICK
  {
    hide Times;
    TimesSigns(wall, t.speed);
  }

  /** A tick emits at most the cap, keeps the books, and shows fewer than the cap
      only when nothing more is paid for. */
  lemma TickKeeps(t: Timeline, wall: real)
    requires Valid(t) && !t.paused && wall >= 0.0
    ensures var r := Tick(t, wall);
      && Valid(r) && r == t.(current := r.current, saved := r.saved) && r.current.Some?
      && Worth(r) == Worth(t) + Times(wall, t.speed)
      && Next(t) <= Next(r) && |Emitted(t, wall)| <= 8
      && (|Emitted(t, wall)| < 8 ==> !CanStep(r))
  {
    hide Times, Drained, CanStep;
    StartKeeps(t, wall);
    DrainKeeps(Earned(Started(t), wall), Room(t));
    DrainConserves(Earned(Started(t), wall), Room(t));
  }

  /** Over every run the frames shown are consecutive, replay time saved plus the
      gaps crossed is replay time bought, and the speed is what the changes make it. */
  lemma {:induction false} RunKeeps(t: Timeline, es: seq<Event>)
    requires Valid(t) && !t.paused && Events(es)
    ensures var r := RunOf(t, es);
      && Valid(r) && r == t.(current := r.current, saved := r.saved, speed := r.speed)
      && r.speed == SpeedAt(t.speed, es, |es|)
      && Worth(r) == Worth(t) + Bought(t.speed, es)
      && Next(t) <= Next(r) && AllShown(t, es) == Range(Next(t), Next(r))
  {
    hide Times, Tick, CanStep, Range, GapsBefore, Doubled, Halved;
    if es != [] {
      var n := |es| - 1;
      var before := RunOf(t, es[..n]);
      RunKeeps(t, es[..n]);
      SpeedsPositive(before.speed);
      SpeedPrefix(t.speed, es, n, n);
      match es[n] {
        case Wall(seconds) =>
          TickKeeps(before, seconds);
          RangeJoin(Next(t), Next(before), Next(RunOf(t, es)));
        case Faster =>
          assert AllShown(t, es) == AllShown(t, es[..n]) + [];
        case Slower =>
          assert AllShown(t, es) == AllShown(t, es[..n]) + [];
      }
    }
  }

  lemma SpeedsPositive(speed: real)
    ensures speed > 0.0 ==> Doubled(speed) > 0.0 && Halved(speed) > 0.0
  {
  }

  /** The speed before event `k` depends on the events before it only. */
  lemma {:induction false} SpeedPrefix(speed: real, es: seq<Event>, n: nat, k: nat)
    requires k <= n <= |es|
    ensures SpeedAt(speed, es[..n], k) == SpeedAt(speed, es, k)
    decreases k
  {
    if k > 0 {
      SpeedPrefix(speed, es, n, k - 1);
    }
  }

  /** From a fresh timeline the frames shown are 0, 1, 2 and so on. */
  lemma FreshRun(t: Timeline, es: seq<Event>)
    requires Valid(t) && !t.paused && t.current.None? && t.saved == 0.0 && Events(es)
    ensures forall i :: 0 <= i < |AllShown(t, es)| ==> AllShown(t, es)[i] == i
    ensures Valid(RunOf(t, es)) && Worth(RunOf(t, es)) == Bought(t.speed, es)
  {
    RunKeeps(t, es);
  }

  // ----- splitting wall time -----

  lemma {:induction false} DrainAtSpeed(t: Timeline, room: nat, speed: real)
    ensures Drained(t.(speed := speed), room) == Drained(t, room).(speed := speed)
    decreases room
  {
    if room > 0 && CanStep(t) {
      assert StepOnce(t.(speed := speed)) == StepOnce(t).(speed := speed);
      DrainAtSpeed(StepOnce(t), room - 1, speed);
    }
  }

  /** However wall time is split into ticks, with whatever speed changes, what the
      run settles to depends only on the replay time bought. */
  lemma {:induction false} RunSettles(t: Timeline, es: seq<Event>)
    requires Valid(t) && !t.paused && Events(es)
    ensures Settled(Started(RunOf(t, es)))
         == Settled(More(Started(t), Bought(t.speed, es))).(speed := SpeedAt(t.speed, es, |es|))
  {
    hide Times, Drained, CanStep, AllShown, Worth;
    var s := Started(t);
    assert Valid(s) && s.current.Some?;
    if es == [] {
      assert More(s, 0.0) == s;
      DrainAtSpeed(s, |s.times|, t.speed);
    } else {
      var n := |es| - 1;
      var before := RunOf(t, es[..n]);
      RunKeeps(t, es[..n]);
      RunSettles(t, es[..n]);
      SpeedPrefix(t.speed, es, n, n);
      BoughtNotNegative(t.speed, es[..n]);
      hide Started, Settled, Tick, More, Doubled, Halved;
      match es[n] {
        case Wall(seconds) => TickSettles(before, s, Bought(t.speed, es[..n]), seconds);
        case Faster => SpeedSettles(before, Doubled(before.speed));
        case Slower => SpeedSettles(before, Halved(before.speed));
      }
    }
  }

  lemma SpeedSettles(t: Timeline, speed: real)
    ensures Settled(Started(t.(speed := speed))) == Settled(Started(t)).(speed := speed)
  {
    hide Drained;
    DrainAtSpeed(Started(t), |t.times|, speed);
    assert Started(t.(speed := speed)) == Started(t).(speed := speed);
  }

  /** A tick after `before`, which settles as `s` with `bought` more would. */
  lemma TickSettles(before: Timeline, s: Timeline, bought: real, wall: real)
    requires Valid(before) && !before.paused && Valid(s) && s.current.Some? && s.times == before.times
    requires bought >= 0.0 && wall >= 0.0
    requires Settled(Started(before)) == Settled(More(s, bought)).(speed := before.speed)
    ensures Settled(Started(Tick(before, wall)))
         == Settled(More(s, bought + Times(wall, before.speed))).(speed := before.speed)
  {
    hide Times, Drained, CanStep, Worth;
    var b, extra, m := Started(before), Times(wall, before.speed), |s.times|;
    TimesSigns(wall, before.speed);
    StartKeeps(before, wall);
    DrainKeeps(More(b, extra), Room(before));
    SettleDrained(More(b, extra), Room(before));
    EarnLater(b, m, extra);
    EarnLater(More(s, bought), m, extra);
    DrainKeeps(More(s, bought), m);
    var settled := Settled(More(s, bought));
    DrainAtSpeed(More(settled, extra), m, before.speed);
    assert More(settled.(speed := before.speed), extra) == More(settled, extra).(speed := before.speed);
    assert More(More(s, bought), extra) == More(s, bought + extra);
  }

  lemma {:induction false} BoughtNotNegative(speed: real, es: seq<Event>)
    requires speed > 0.0 && Events(es)
    ensures Bought(speed, es) >= 0.0 && SpeedAt(speed, es, |es|) > 0.0
  {
    hide Times;
    if es != [] {
      var n := |es| - 1;
      BoughtNotNegative(speed, es[..n]);
      SpeedPrefix(speed, es, n, n);
      if es[n].Wall? {
        TimesSigns(es[n].seconds, SpeedAt(speed, es, n));
      }
    }
  }

  function ZeroTicks(k: nat): seq<Event> { if k == 0 then [] else ZeroTicks(k - 1) + [Wall(0.0)] }

  /** Zero-length ticks drain what is paid for. */
  lemma {:induction false} ZeroTicksDrain(t: Timeline, k: nat)
    requires Valid(t) && !t.paused && t.current.Some?
    ensures RunOf(t, ZeroTicks(k)) == Drained(t, FRAMES_PER_TICK * k)
  {
    hide Times, Tick;
    if k > 0 {
      ZeroTicksDrain(t, k - 1);
      ZeroTicksLast(t, k);
      var n := FRAMES_PER_TICK * (k - 1);
      DrainKeeps(t, n);
      ZeroTick(Drained(t, n));
      DrainMore(t, n, FRAMES_PER_TICK);
      hide Drained;
    }
  }

  lemma ZeroTicksLast(t: Timeline, k: nat)
    requires k > 0
    ensures RunOf(t, ZeroTicks(k)) == Tick(RunOf(t, ZeroTicks(k - 1)), 0.0)
  {
    hide Tick;
    var zs := ZeroTicks(k);
    assert zs[..|zs| - 1] == ZeroTicks(k - 1) && zs[|zs| - 1] == Wall(0.0);
  }

  lemma ZeroTick(t: Timeline)
    requires !t.paused
    ensures Tick(t, 0.0) == Drained(Started(t), Room(t))
  {
    hide Times, Drained;
    TimesSigns(0.0, t.speed);
    assert Earned(Started(t), 0.0) == Started(t);
  }

  /** The first zero-length tick also shows the first frame, in one of its places. */
  lemma {:induction false} ZeroTicksStart(t: Timeline, k: nat)
    requires Valid(t) && !t.paused && t.current.None? && k > 0
    ensures RunOf(t, ZeroTicks(k)) == Drained(Started(t), FRAMES_PER_TICK * k - 1)
  {
    hide Tick, Times;
    ZeroTicksLast(t, k);
    if k == 1 {
      ZeroTick(t);
    } else {
      ZeroTicksStart(t, k - 1);
      var n := FRAMES_PER_TICK * (k - 1) - 1;
      DrainKeeps(Started(t), n);
      ZeroTick(Drained(Started(t), n));
      DrainMore(Started(t), n, FRAMES_PER_TICK);
      hide Drained;
    }
  }

  /** Enough of them reach the settled state. */
  lemma ZeroTicksSettle(t: Timeline, k: nat)
    requires Valid(t) && !t.paused && FRAMES_PER_TICK * k >= |t.times|
    ensures RunOf(t, ZeroTicks(k)) == Settled(Started(t))
  {
    hide Drained, RunOf;
    if t.current.Some? {
      ZeroTicksDrain(t, k);
      DrainEnough(t, FRAMES_PER_TICK * k);
    } else {
      ZeroTicksStart(t, k);
      DrainEnough(Started(t), FRAMES_PER_TICK * k - 1);
    }
  }

  /** Two runs that buy the same replay time and end at the same speed reach the
      same state once zero-length ticks have drained them. */
  lemma SplitThenDrain(t: Timeline, es: seq<Event>, fs: seq<Event>, k: nat)
    requires Valid(t) && !t.paused && Events(es) && Events(fs)
    requires Bought(t.speed, es) == Bought(t.speed, fs)
    requires SpeedAt(t.speed, es, |es|) == SpeedAt(t.speed, fs, |fs|)
    requires FRAMES_PER_TICK * k >= |t.times|
    ensures RunOf(RunOf(t, es), ZeroTicks(k)) == RunOf(RunOf(t, fs), ZeroTicks(k))
  {
    hide RunOf, Bought, SpeedAt;
    DrainedRun(t, es, k);
    DrainedRun(t, fs, k);
  }

  lemma DrainedRun(t: Timeline, es: seq<Event>, k: nat)
    requires Valid(t) && !t.paused && Events(es) && FRAMES_PER_TICK * k >= |t.times|
    ensures RunOf(RunOf(t, es), ZeroTicks(k))
         == Settled(More(Started(t), Bought(t.speed, es))).(speed := SpeedAt(t.speed, es, |es|))
  {
    hide Drained, Bought, SpeedAt, Worth, AllShown, RunOf, Started, Settled, More;
    RunKeeps(t, es);
    RunSettles(t, es);
    ZeroTicksSettle(RunOf(t, es), k);
  }

  // ----- in terms of the epoch times -----

  /** What reaching epoch `i` from the first costs: every rise between epochs, and
      nothing for a step back. */
  function Climb(times: seq<real>, i: nat): real
    requires i < |times|
  {
    if i == 0 then 0.0
    else Climb(times, i - 1) + if times[i] > times[i - 1] then times[i] - times[i - 1] else 0.0
  }

  ghost predicate NeverBack(times: seq<real>) { forall i :: 0 <= i < |times| - 1 ==> times[i] <= times[i + 1] }

  lemma {:induction false} ClimbIs(times: seq<real>, i: nat)
    requires i < |times|
    ensures GapsBefore(times, i) == Climb(times, i)
    ensures NeverBack(times) ==> Climb(times, i) == times[i] - times[0]
  {
    if i > 0 {
      ClimbIs(times, i - 1);
    }
  }

  /** Over every run from a fresh timeline, saved time and the climb to the frame shown
      are the time bought; for epochs in order that climb is the frame's time less the
      first one's. */
  lemma RunClock(t: Timeline, es: seq<Event>)
    requires Valid(t) && !t.paused && t.current.None? && t.saved == 0.0 && Events(es)
    ensures var r := RunOf(t, es);
      r.current.Some? ==>
        && r.current.value < |t.times|
        && r.saved >= 0.0 && r.saved + Climb(t.times, r.current.value) == Bought(t.speed, es)
        && (NeverBack(t.times) ==> r.saved + (t.times[r.current.value] - t.times[0]) == Bought(t.speed, es))
  {
    hide RunOf, Bought, SpeedAt, AllShown, Climb, GapsBefore;
    RunKeeps(t, es);
    var r := RunOf(t, es);
    if r.current.Some? {
      ClimbIs(t.times, r.current.value);
    }
  }

  /** After a tick with room left, the last frame is shown or saved time falls short of
      the rise to the next epoch. */
  lemma TickShowsAllPaid(t: Timeline, wall: real)
    requires Valid(t) && !t.paused && wall >= 0.0 && |Emitted(t, wall)| < 8
    ensures var r := Tick(t, wall);
      && r.current.Some? && r.current.value < |t.times|
      && (r.current.value == |t.times| - 1 || r.saved < t.times[r.current.value + 1] - t.times[r.current.value])
  {
    hide Tick, Emitted, Worth, Times;
    TickKeeps(t, wall);
  }

  /** A paused tick shows nothing and changes nothing. */
  lemma PausedTick(t: Timeline, wall: real)
    requires t.paused
    ensures Tick(t, wall) == t && Emitted(t, wall) == []
  {
  }
}
