/** The playback scheduler of frontend/src/CubeSolver.jsx: the per-frame `tick` rule,
    which moves the player's timestamp toward the end of the current step and, while
    playing, advances the step after a short pause, and the step controls of the page.
    Frame delta and the clock reading are inputs of a tick. */
module Playback {
  import opened Breakpoints

  /** The refs a tick reads and writes: `timestampRef`, `currentStepRef`, `isPlayingRef`
      and `lastFrameTimeRef.currentStepFinishTime`, where 0 means "not set". */
  datatype Frame = Frame(timestamp: real, step: int, playing: bool, finishTime: real)

  /** Closer than this (ms) to the target, the timestamp snaps onto it. */
  const Deadband: real := 10.0

  /** The pause (ms at speed 1) between reaching a step's end and starting the next. */
  const StepPause: real := 200.0

  function Abs(x: real): real
  {
    if x < 0.0 then -x else x
  }

  function Min(a: real, b: real): real
  {
    if a <= b then a else b
  }

  function Max(a: real, b: real): real
  {
    if a >= b then a else b
  }

  /** `Math.sign`. */
  function Sign(x: real): real
  {
    if x > 0.0 then 1.0 else if x < 0.0 then -1.0 else 0.0
  }

  /** The timestamp a step is shown at: 0 for step 0 or before the breakpoints are
      loaded, the end of the step when it has a breakpoint, otherwise the duration. */
  function Target(step: int, stamps: seq<real>, duration: real): real
  {
    if step > 0 && |stamps| > 0 then
      if step - 1 < |stamps| then stamps[step - 1] else duration
    else 0.0
  }

  /** `200 / (speedRef.current || 1)`: a speed of 0 counts as 1. */
  function PauseLimit(speed: real): real
  {
    StepPause / (if speed == 0.0 then 1.0 else speed)
  }

  /** The finish time a playing, settled tick compares against: set to `now` if unset. */
  function FinishTime(f: Frame, now: real): real
  {
    if f.finishTime == 0.0 then now else f.finishTime
  }

  /** The auto-advance part of a tick that has settled on its target: while playing,
      start the pause timer if unset, and once the pause is over go to the next step
      (or stop at the last one); while paused, clear the timer. */
  function AfterArrival(f: Frame, totalSteps: int, speed: real, now: real): Frame
  {
    if f.playing then
      var finish := FinishTime(f, now);
      if now - finish > PauseLimit(speed) then
        if f.step < totalSteps then f.(step := f.step + 1, finishTime := 0.0)
        else f.(playing := false, finishTime := finish)
      else f.(finishTime := finish)
    else f.(finishTime := 0.0)
  }

  /** One tick, as a function of the refs before it: snap within the deadband and
      auto-advance, otherwise move toward the target by at most delta * speed. */
  function AfterTick(f: Frame, stamps: seq<real>, duration: real, totalSteps: int, speed: real,
                     delta: real, now: real): Frame
  {
    var target := Target(f.step, stamps, duration);
    var diff := target - f.timestamp;
    if Abs(diff) < Deadband then AfterArrival(f.(timestamp := target), totalSteps, speed, now)
    else f.(timestamp := f.timestamp + Sign(diff) * Min(Abs(diff), delta * speed), finishTime := 0.0)
  }

  // ---------------------------------------------------------------------------
  // The controls
  // ---------------------------------------------------------------------------

  function AfterTogglePlay(f: Frame): Frame
  {
    f.(playing := !f.playing)
  }

  function AfterStepForward(f: Frame, totalSteps: int): Frame
  {
    f.(step := if f.step + 1 <= totalSteps then f.step + 1 else totalSteps, playing := false)
  }

  function AfterStepBackward(f: Frame): Frame
  {
    f.(step := if f.step - 1 >= 0 then f.step - 1 else 0, playing := false)
  }

  function AfterReset(f: Frame): Frame
  {
    f.(step := 0, playing := false)
  }

  function AfterJumpToEnd(f: Frame, totalSteps: int): Frame
  {
    f.(step := totalSteps, playing := false)
  }

  /** The timeline slider's `parseInt(e.target.value, 10)`, given as an integer. */
  function AfterTimelineChange(f: Frame, value: int): Frame
  {
    f.(step := value, playing := false)
  }

  /** The player state the frame loop and the controls share. */
  class Player {
    var timestamp: real
    var step: int
    var playing: bool
    var finishTime: real
    var stamps: seq<real>
    var duration: real
    var speed: real
    const totalSteps: nat

    /** The state before the breakpoints arrive: all refs at their initial values. */
    constructor (totalSteps: nat)
      ensures this.totalSteps == totalSteps
      ensures Snapshot() == Frame(0.0, 0, false, 0.0)
      ensures stamps == [] && duration == 0.0 && speed == 1.0
      ensures Valid()
    {
      this.totalSteps := totalSteps;
      timestamp := 0.0;
      step := 0;
      playing := false;
      finishTime := 0.0;
      stamps := [];
      duration := 0.0;
      speed := 1.0;
    }

    function Snapshot(): Frame
      reads this
    {
      Frame(timestamp, step, playing, finishTime)
    }

    /** The step is one of 0 .. totalSteps. */
    predicate Valid()
      reads this
    {
      0 <= step <= totalSteps
    }

    /** `setStepTimestamps` and `setDuration` with what the indexer step produced. */
    method Load(b: Schedule)
      modifies this
      ensures stamps == b.stamps && duration == b.duration
      ensures Snapshot() == old(Snapshot()) && speed == old(speed)
      ensures old(Valid()) ==> Valid()
    {
      stamps := b.stamps;
      duration := b.duration;
    }

    /** The speed effect: `speedRef.current = speed`. */
    method SetSpeed(value: real)
      modifies this
      ensures speed == value
      ensures Snapshot() == old(Snapshot()) && stamps == old(stamps) && duration == old(duration)
      ensures old(Valid()) ==> Valid()
    {
      speed := value;
    }

    /** The body of `tick` after the delta is computed. */
    method Tick(delta: real, now: real)
      modifies this
      ensures Snapshot() == AfterTick(old(Snapshot()), stamps, duration, totalSteps, speed, delta, now)
      ensures stamps == old(stamps) && duration == old(duration) && speed == old(speed)
      ensures old(Valid()) ==> Valid()
    {
      ghost var f0 := Snapshot();
      var targetTs := TargetTimestamp();
      var currentTs := timestamp;
      var diff := targetTs - currentTs;
      if Abs(diff) < Deadband {
        if currentTs != targetTs {
          timestamp := targetTs;
        }
        assert Snapshot() == f0.(timestamp := targetTs);
        AutoAdvance(now);
      } else {
        finishTime := 0.0;
        var direction := Sign(diff);
        var stepSize := delta * speed;
        timestamp := currentTs + direction * Min(Abs(diff), stepSize);
        assert timestamp == f0.timestamp + Sign(diff) * Min(Abs(diff), delta * speed);
      }
    }

    /** The target block of `tick`: 0 for step 0 or no breakpoints, else the end of the
        step, or the duration past the last breakpoint. */
    method TargetTimestamp() returns (targetTs: real)
      ensures targetTs == Target(step, stamps, duration)
    {
      targetTs := 0.0;
      if step > 0 && |stamps| > 0 {
        var idx := step - 1;
        if idx < |stamps| {
          targetTs := stamps[idx];
        } else {
          targetTs := duration;
        }
      }
    }

    /** The auto-advance block of `tick`, run once the timestamp is on its target. */
    method AutoAdvance(now: real)
      modifies this
      ensures Snapshot() == AfterArrival(old(Snapshot()), totalSteps, speed, now)
      ensures stamps == old(stamps) && duration == old(duration) && speed == old(speed)
      ensures old(Valid()) ==> Valid()
    {
      if playing {
        if finishTime == 0.0 {
          finishTime := now;
        }
        if now - finishTime > PauseLimit(speed) {
          if step < totalSteps {
            step := step + 1;
            finishTime := 0.0;
          } else {
            playing := false;
          }
        }
      } else {
        finishTime := 0.0;
      }
    }

    method TogglePlay()
      modifies this
      ensures Snapshot() == AfterTogglePlay(old(Snapshot()))
      ensures stamps == old(stamps) && duration == old(duration) && speed == old(speed)
      ensures old(Valid()) ==> Valid()
    {
      playing := !playing;
    }

    method StepForward()
      modifies this
      ensures Snapshot() == AfterStepForward(old(Snapshot()), totalSteps)
      ensures stamps == old(stamps) && duration == old(duration) && speed == old(speed)
      ensures old(Valid()) ==> Valid()
    {
      step := if step + 1 <= totalSteps then step + 1 else totalSteps;
      playing := false;
    }

    method StepBackward()
      modifies this
      ensures Snapshot() == AfterStepBackward(old(Snapshot()))
      ensures stamps == old(stamps) && duration == old(duration) && speed == old(speed)
      ensures old(Valid()) ==> Valid()
    {
      step := if step - 1 >= 0 then step - 1 else 0;
      playing := false;
    }

    method Reset()
      modifies this
      ensures Snapshot() == AfterReset(old(Snapshot()))
      ensures stamps == old(stamps) && duration == old(duration) && speed == old(speed)
      ensures Valid()
    {
      step := 0;
      playing := false;
    }

    method JumpToEnd()
      modifies this
      ensures Snapshot() == AfterJumpToEnd(old(Snapshot()), totalSteps)
      ensures stamps == old(stamps) && duration == old(duration) && speed == old(speed)
      ensures Valid()
    {
      step := totalSteps;
      playing := false;
    }

    /** The slider is bounded by 0 and totalSteps, so any value it reports keeps the
        step in range; the handler itself does not clamp. */
    method TimelineChange(value: int)
      modifies this
      ensures Snapshot() == AfterTimelineChange(old(Snapshot()), value)
      ensures stamps == old(stamps) && duration == old(duration) && speed == old(speed)
      ensures 0 <= value <= totalSteps ==> Valid()
    {
      step := value;
      playing := false;
    }
  }

  // ---------------------------------------------------------------------------
  // Properties of a tick
  // ---------------------------------------------------------------------------

  /** Within the deadband the timestamp lands exactly on the target; outside it, with a
      non-negative delta and speed, it moves toward the target by delta * speed and never
      past it, so the distance to the target never grows. */
  lemma TickApproaches(f: Frame, stamps: seq<real>, duration: real, totalSteps: int, speed: real,
                       delta: real, now: real)
    requires delta >= 0.0 && speed >= 0.0
    ensures var target := Target(f.step, stamps, duration);
      var r := AfterTick(f, stamps, duration, totalSteps, speed, delta, now);
      && (Abs(target - f.timestamp) < Deadband ==> r.timestamp == target)
      && (Abs(target - f.timestamp) >= Deadband ==>
            Abs(target - r.timestamp) == Max(0.0, Abs(target - f.timestamp) - delta * speed))
      && Min(f.timestamp, target) <= r.timestamp <= Max(f.timestamp, target)
      && Abs(target - r.timestamp) <= Abs(target - f.timestamp)
  {
    var target := Target(f.step, stamps, duration);
    var diff := target - f.timestamp;
    var ds := delta * speed;
    assert ds >= 0.0;
    if Abs(diff) >= Deadband {
      var r := AfterTick(f, stamps, duration, totalSteps, speed, delta, now);
      assert r.timestamp == f.timestamp + Sign(diff) * Min(Abs(diff), ds);
      if diff > 0.0 {
        assert r.timestamp == f.timestamp + Min(diff, ds);
      } else {
        assert r.timestamp == f.timestamp - Min(-diff, ds);
      }
    }
  }

  /** A tick changes the step only to advance it by one: exactly when playing, settled
      on the target, past the pause and not yet at the last step. Playing stops exactly
      when those hold at the last step (or beyond it), and a tick never starts playing. */
  lemma TickStep(f: Frame, stamps: seq<real>, duration: real, totalSteps: int, speed: real,
                 delta: real, now: real)
    ensures var settled := Abs(Target(f.step, stamps, duration) - f.timestamp) < Deadband;
      var due := f.playing && settled && now - FinishTime(f, now) > PauseLimit(speed);
      var r := AfterTick(f, stamps, duration, totalSteps, speed, delta, now);
      && (r.step == f.step || r.step == f.step + 1)
      && (r.step == f.step + 1 <==> due && f.step < totalSteps)
      && (f.playing && !r.playing <==> due && f.step >= totalSteps)
      && (r.playing ==> f.playing)
  {
  }

  /** The step stays within 0 .. totalSteps across ticks and every control, the timeline
      given a slider value in that range; every control but play/pause clears playing. */
  lemma StepStaysInRange(f: Frame, stamps: seq<real>, duration: real, totalSteps: int, speed: real,
                         delta: real, now: real, value: int)
    requires 0 <= f.step <= totalSteps
    ensures 0 <= AfterTick(f, stamps, duration, totalSteps, speed, delta, now).step <= totalSteps
    ensures 0 <= AfterTogglePlay(f).step <= totalSteps
    ensures var g := AfterStepForward(f, totalSteps); 0 <= g.step <= totalSteps && !g.playing
    ensures var g := AfterStepBackward(f); 0 <= g.step <= totalSteps && !g.playing
    ensures var g := AfterReset(f); g.step == 0 && !g.playing
    ensures var g := AfterJumpToEnd(f, totalSteps); g.step == totalSteps && !g.playing
    ensures 0 <= value <= totalSteps ==> 0 <= AfterTimelineChange(f, value).step <= totalSteps
  {
    TickStep(f, stamps, duration, totalSteps, speed, delta, now);
  }

  /** Forward then back returns to the step unless at the end; back then forward unless
      at the start. */
  lemma ForwardBackward(f: Frame, totalSteps: int)
    requires 0 <= f.step <= totalSteps
    ensures f.step < totalSteps ==> AfterStepBackward(AfterStepForward(f, totalSteps)).step == f.step
    ensures f.step > 0 ==> AfterStepForward(AfterStepBackward(f), totalSteps).step == f.step
    ensures f.step == totalSteps ==> AfterStepForward(f, totalSteps).step == f.step
    ensures f.step == 0 ==> AfterStepBackward(f).step == 0
  {
  }

  // ---------------------------------------------------------------------------
  // Settling
  // ---------------------------------------------------------------------------

  /** n ticks with the same delta and clock reading. */
  function Ticks(f: Frame, stamps: seq<real>, duration: real, totalSteps: int, speed: real,
                 delta: real, now: real, n: nat): Frame
    decreases n
  {
    if n == 0 then f
    else Ticks(AfterTick(f, stamps, duration, totalSteps, speed, delta, now), stamps, duration, totalSteps,
               speed, delta, now, n - 1)
  }

  /** While paused, the timestamp reaches the target of the current step within n ticks
      once n * delta * speed covers the distance, and the step does not change. */
  lemma {:induction false} PausedSettles(f: Frame, stamps: seq<real>, duration: real, totalSteps: int,
                                         speed: real, delta: real, now: real, n: nat)
    requires !f.playing && delta >= 0.0 && speed >= 0.0
    requires Abs(Target(f.step, stamps, duration) - f.timestamp) <= n as real * (delta * speed)
    ensures var r := Ticks(f, stamps, duration, totalSteps, speed, delta, now, n);
      && r.step == f.step && !r.playing
      && (n > 0 ==> r.timestamp == Target(f.step, stamps, duration))
    decreases n
  {
    if n > 0 {
      var target := Target(f.step, stamps, duration);
      var g := AfterTick(f, stamps, duration, totalSteps, speed, delta, now);
      TickApproaches(f, stamps, duration, totalSteps, speed, delta, now);
      TickStep(f, stamps, duration, totalSteps, speed, delta, now);
      assert g.step == f.step && !g.playing;
      assert Abs(target - g.timestamp) <= (n - 1) as real * (delta * speed) by {
        if Abs(target - f.timestamp) >= Deadband {
          assert Abs(target - g.timestamp) == Max(0.0, Abs(target - f.timestamp) - delta * speed);
          assert n as real * (delta * speed) == (n - 1) as real * (delta * speed) + delta * speed;
        } else {
          assert g.timestamp == target;
          assert (n - 1) as real * (delta * speed) >= 0.0;
        }
      }
      PausedSettles(g, stamps, duration, totalSteps, speed, delta, now, n - 1);
      if n - 1 == 0 {
        if Abs(target - f.timestamp) >= Deadband {
          assert Abs(target - g.timestamp) <= 0.0;
        }
      } else {
        assert Ticks(f, stamps, duration, totalSteps, speed, delta, now, n)
            == Ticks(g, stamps, duration, totalSteps, speed, delta, now, n - 1);
      }
    }
  }

  /** Once settled and playing, a tick after the pause moves to the next step (or stops
      at the last one); a tick within the pause keeps the finish time it started. */
  lemma PlayingAdvances(f: Frame, stamps: seq<real>, duration: real, totalSteps: int, speed: real,
                        delta: real, now: real)
    requires f.playing && Target(f.step, stamps, duration) == f.timestamp
    ensures var r := AfterTick(f, stamps, duration, totalSteps, speed, delta, now);
      && (now - FinishTime(f, now) > PauseLimit(speed) && f.step < totalSteps ==>
            r == Frame(f.timestamp, f.step + 1, true, 0.0))
      && (now - FinishTime(f, now) > PauseLimit(speed) && f.step >= totalSteps ==>
            r.step == f.step && !r.playing)
      && (now - FinishTime(f, now) <= PauseLimit(speed) ==>
            r == Frame(f.timestamp, f.step, true, FinishTime(f, now)))
  {
  }
}
