/**
 * timer.py: a cooperative countdown.  It is inactive until armed, and a
 * caller must poll `Update` with the current tick for it to run out.  The
 * tick (`pygame.time.get_ticks()`) is a parameter.
 */
module Timers {

  class Timer {
    const duration: int
    var active: bool
    var startTime: int

    /** An inactive timer has no start time. */
    ghost predicate Valid()
      reads this
    {
      !active ==> startTime == 0
    }

    constructor (duration: int)
      ensures this.duration == duration
      ensures !active && startTime == 0
      ensures Valid()
    {
      this.duration := duration;
      active := false;
      startTime := 0;
    }

    /** `activat`: arms the timer at tick `now`. */
    method Activate(now: int)
      modifies this
      ensures active && startTime == now
      ensures Valid()
    {
      active := true;
      startTime := now;
    }

    /** `deActivat`. */
    method Deactivate()
      modifies this
      ensures !active && startTime == 0
      ensures Valid()
    {
      active := false;
      startTime := 0;
    }

    /** Runs the timer out once `duration` ticks have passed since it was armed. */
    method Update(now: int)
      requires Valid()
      modifies this
      ensures Valid()
      ensures now - old(startTime) >= duration ==> !active && startTime == 0
      ensures now - old(startTime) < duration ==> active == old(active) && startTime == old(startTime)
      ensures !old(active) ==> !active && startTime == 0
    {
      if now - startTime >= duration {
        Deactivate();
      }
    }
  }
}
