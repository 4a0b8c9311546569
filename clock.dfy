/**
 * The level countdown clock (class Timer in shipwrecked.py). Only its time accounting is
 * modelled; the "m:ss" text it draws is presentation.
 */
module Clock {
  import opened Wrappers

  /** Seconds each level lasts: the game builds its timer with a limit of 60. */
  const LevelSeconds: real := 60.0

  class Timer {
    /** The limit the reported time is clamped to (the source's `timer` attribute). */
    const limit: real
    var started: bool
    var startTime: Option<real>
    var currentTime: real
    var savedTime: real

    ghost predicate Valid()
      reads this
    {
      && 0.0 <= currentTime <= limit
      && 0.0 <= savedTime <= limit
      && (started ==> startTime.Some?)
    }

    constructor (limit: real)
      requires limit >= 0.0
      ensures Valid() && this.limit == limit
      ensures !started && startTime == None && currentTime == 0.0 && savedTime == 0.0
    {
      this.limit := limit;
      started := false;
      startTime := None;
      currentTime := 0.0;
      savedTime := 0.0;
    }

    /** The clock has run out: the reported time has reached the limit. */
    predicate IsFinished()
      reads this
    {
      currentTime == limit
    }

    /**
     * Relative to an earlier state: the clock is stopped, still reports the time it reported
     * then, and will resume from that time.
     */
    twostate predicate Stopped()
      reads this
    {
      !started && currentTime == old(currentTime) && savedTime == currentTime && startTime == old(startTime)
    }

    /** Stops the clock, keeping the time it last reported as the base to resume from. */
    method Pause()
      requires Valid()
      modifies this`started, this`savedTime
      ensures Valid() && Stopped()
    {
      started := false;
      savedTime := currentTime;
    }

    /** (Re)starts the clock at `now`; unlike a plain toggle it restarts even a running clock. */
    method Start(now: real)
      requires Valid()
      modifies this`started, this`startTime
      ensures Valid() && started && startTime == Some(now)
    {
      started := true;
      startTime := Some(now);
    }

    method Reset()
      requires Valid()
      modifies this`started, this`currentTime, this`savedTime
      ensures Valid() && !started
      ensures currentTime == 0.0 && savedTime == 0.0
      ensures limit > 0.0 ==> !IsFinished()
    {
      savedTime := 0.0;
      currentTime := 0.0;
      started := false;
    }

    /**
     * Recomputes the reported time at `now` and clamps it to the limit. The wall clock
     * never runs backwards, so `now` is not earlier than the last start.
     */
    method Update(now: real)
      requires Valid()
      requires started ==> startTime.value <= now
      modifies this`currentTime
      ensures Valid()
      ensures currentTime <= limit
      ensures started ==> currentTime == Min(now - startTime.value + savedTime, limit)
      ensures !started ==> currentTime == old(currentTime)
      ensures IsFinished() <==>
        (if started then now - startTime.value + savedTime >= limit else old(IsFinished()))
    {
      if started {
        currentTime := now - startTime.value + savedTime;
      }
      if currentTime > limit {
        currentTime := limit;
      }
    }
  }

  function Min(a: real, b: real): (m: real)
    ensures m <= a && m <= b && (m == a || m == b)
  {
    if a <= b then a else b
  }
}
