/** The scheduler object, proved against the functions of `Replay`. */
module ReplayTimeline {

  import opened Text
  import opened Reals
  import opened Replay

  class Scheduler {
    const times: seq<real>
    var current: Option<nat>
    var saved: real
    var speed: real
    var paused: bool

    ghost function View(): Timeline
      reads this
    {
      Timeline(times, current, saved, speed, paused)
    }

    /** The object itself; `NewTimeline` makes the checks. */
    constructor (times: seq<real>, speed: real, paused: bool)
      requires speed > 0.0 && times != []
      ensures View() == Timeline(times, None, 0.0, speed, paused) && Valid(View())
    {
      this.times := times;
      current := None;
      saved := 0.0;
      this.speed := speed;
      this.paused := paused;
    }

    method SetPaused(paused: bool)
      modifies this`paused, this`saved
      ensures View() == old(View()).(paused := paused, saved := 0.0)
      ensures old(Valid(View())) ==> Valid(View())
    {
      this.paused := paused;
      saved := 0.0;
    }

    method SpeedUp()
      modifies this`speed
      ensures View() == Apply(old(View()), Faster) && speed <= MAX_SPEED
      ensures old(Valid(View())) ==> Valid(View())
    {
      speed := if 2.0 * speed < MAX_SPEED then 2.0 * speed else MAX_SPEED;
    }

    method SpeedDown()
      modifies this`speed
      ensures View() == Apply(old(View()), Slower) && speed >= MIN_SPEED
      ensures old(Valid(View())) ==> Valid(View())
    {
      speed := if speed / 2.0 > MIN_SPEED then speed / 2.0 else MIN_SPEED;
    }

    /** The next frame, unless the last one is shown. */
    method StepForward() returns (shown: Option<nat>)
      requires Valid(View())
      modifies this`current, this`saved
      ensures Valid(View())
      ensures shown.Some? <==> Next(old(View())) < |times|
      ensures shown.Some? ==> shown.value == Next(old(View())) && View() == old(View()).(current := shown, saved := 0.0)
      ensures shown.None? ==> View() == old(View())
    {
      var next := if current.None? then 0 else current.value + 1;
      if next >= |times| { return None; }
      current := Some(next);
      saved := 0.0;
      return Some(next);
    }

    /** The frame before, unless the first or none is shown. */
    method StepBackward() returns (shown: Option<nat>)
      requires Valid(View())
      modifies this`current, this`saved
      ensures Valid(View())
      ensures shown.Some? <==> Next(old(View())) >= 2
      ensures shown.Some? ==>
        shown.value + 2 == Next(old(View())) && View() == old(View()).(current := shown, saved := 0.0)
      ensures shown.None? ==> View() == old(View())
    {
      if current.None? || current.value == 0 { return None; }
      current := Some(current.value - 1);
      saved := 0.0;
      return current;
    }

    /** A tick of wall time, and the frames it shows. */
    method AdvanceWallTime(wall: real) returns (emitted: seq<nat>)
      requires Valid(View()) && wall >= 0.0
      modifies this`current, this`saved
      ensures View() == Tick(old(View()), wall) && Valid(View())
      ensures emitted == Emitted(old(View()), wall) && |emitted| <= 8
      ensures paused ==> emitted == [] && View() == old(View())
      ensures !paused && |emitted| < 8 ==>
        current.Some? && (current.value == |times| - 1 || saved < times[current.value + 1] - times[current.value])
    {
      hide Times, Drained, Worth, Range;
      emitted := [];
      ghost var before := View();
      RangeBasics(Next(before));
      if paused { return; }
      TickKeeps(before, wall);
      if |Emitted(before, wall)| < 8 {
        TickShowsAllPaid(before, wall);
      }
      TimesSigns(wall, speed);
      if current.None? {
        current := Some(0);
        emitted := [0];
      }
      saved := saved + Times(wall, speed);
      assert View() == Earned(Started(before), wall);
      emitted := ShowPaid(emitted, Next(before));
    }

    /** Shows frames while they are paid for and the tick has room. */
    method ShowPaid(first: seq<nat>, ghost from: nat) returns (emitted: seq<nat>)
      requires Valid(View()) && current.Some? && |first| <= FRAMES_PER_TICK
      requires from <= Next(View()) && first == Range(from, Next(View()))
      modifies this`current, this`saved
      ensures Valid(View()) && View() == Drained(old(View()), FRAMES_PER_TICK - |first|)
      ensures emitted == Range(from, Next(View())) && |emitted| <= FRAMES_PER_TICK
    {
      hide Drained, Range;
      emitted := first;
      ghost var goal := Drained(View(), FRAMES_PER_TICK - |emitted|);
      while |emitted| < FRAMES_PER_TICK
        invariant Valid(View()) && current.Some? && |emitted| <= FRAMES_PER_TICK
        invariant Drained(View(), FRAMES_PER_TICK - |emitted|) == goal
        invariant from <= Next(View()) && emitted == Range(from, Next(View()))
        decreases FRAMES_PER_TICK - |emitted|
      {
        var next := current.value + 1;
        DrainOnce(View(), FRAMES_PER_TICK - |emitted|);
        if next >= |times| { break; }
        var gap := if times[next] - times[current.value] < 0.0 then 0.0 else times[next] - times[current.value];
        if gap > saved { break; }
        RangePush(from, next);
        saved := saved - gap;
        current := Some(next);
        emitted := emitted + [next];
      }
      DrainOnce(View(), FRAMES_PER_TICK - |emitted|);
    }
  }

  /** `ReplayTimeline::new`: refuses a speed that is not positive and an empty
      timeline. */
  method NewTimeline(times: seq<real>, speed: real, paused: bool) returns (r: Option<Scheduler>)
    ensures r.Some? <==> speed > 0.0 && times != []
    ensures r.Some? ==> fresh(r.value) && Valid(r.value.View())
    ensures r.Some? ==> r.value.View() == Timeline(times, None, 0.0, speed, paused)
  {
    if speed <= 0.0 || times == [] { return None; }
    var t := new Scheduler(times, speed, paused);
    return Some(t);
  }

  lemma RangeBasics(a: nat)
    ensures Range(a, a) == [] && Range(0, 1) == [0]
  {
  }

  lemma RangePush(a: nat, b: nat)
    requires a <= b
    ensures Range(a, b) + [b] == Range(a, b + 1)
  {
  }

  lemma DrainOnce(t: Timeline, room: nat)
    ensures Drained(t, room) == if room == 0 || !CanStep(t) then t else Drained(StepOnce(t), room - 1)
  {
  }
}
