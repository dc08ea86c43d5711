/**
The kernel's tests on wrapping tick counts (rtos/source/tasks.c): time outs that are checked
again and again, and delays until an absolute time.
*/
module TimeOuts {
  import opened Config

  // ----- xTaskCheckForTimeOut()

  /** TimeOut_t */
  datatype TimeOut = TimeOut(overflowCount: int, timeOnEntering: int)

  /** Whether the time is up, the time left, and the new time out state. */
  datatype Verdict = Verdict(timedOut: bool, wait: int, state: TimeOut)

  /** vTaskSetTimeOutState() at absolute time now. */
  function SetAt(now: int): TimeOut {
    TimeOut(Epoch(now), Wrap(now))
  }

  /** xTaskCheckForTimeOut() when the number of overflows and the tick count are as given. */
  function Check(t: TimeOut, wait: int, overflows: int, tick: int): Verdict {
    var elapsed := Wrap(tick - t.timeOnEntering);
    if wait == MAX_DELAY then Verdict(false, wait, t)
    else if overflows != t.overflowCount && tick >= t.timeOnEntering then Verdict(true, 0, t)
    else if elapsed < wait then Verdict(false, wait - elapsed, TimeOut(overflows, tick))
    else Verdict(true, 0, t)
  }

  function CheckAt(t: TimeOut, wait: int, now: int): Verdict {
    Check(t, wait, Epoch(now), Wrap(now))
  }

  lemma ElapsedShows(since: int, now: int)
    ensures Wrap(Wrap(now) - Wrap(since)) == Wrap(now - since)
  {
    WrapDefined(since);
    WrapDefined(now);
    WrapShift(now - since, Epoch(now) - Epoch(since));
  }

  /**
  A check is right except exactly in this case: at least one whole wrap of the tick count has
  passed, the tick count shows less than it did on entry, and what is left of the elapsed time
  beyond whole wraps is shorter than the wait.
  */
  lemma CheckExact(since: int, now: int, wait: int)
    requires 0 <= wait < MAX_DELAY && since <= now
    ensures (CheckAt(SetAt(since), wait, now).timedOut <==> now - since >= wait) <==>
            !(now - since >= TICK_MODULUS && Wrap(now) < Wrap(since) && Wrap(now - since) < wait)
  {
    WrapDefined(since);
    WrapDefined(now);
    WrapDefined(now - since);
    ElapsedShows(since, now);
    WithinOneWrap(since, now);
  }

  /**
  It does go wrong: of a wait of 2^32 - 2 ticks that began at tick 5, a check 2 * 2^32 - 3 ticks
  later says that it is not over.
  */
  lemma CheckMissesTimeOut()
    ensures var since, now, wait := 5, 2 * TICK_MODULUS + 2, TICK_MODULUS - 2;
            && 0 <= wait < MAX_DELAY && now - since >= wait
            && CheckAt(SetAt(since), wait, now) == Verdict(false, 1, SetAt(now))
  {
  }

  lemma WithinOneWrap(since: int, now: int)
    requires since <= now
    ensures now - since < TICK_MODULUS <==> Wrap(now - since) == now - since
    ensures Epoch(now) != Epoch(since) && Wrap(now) >= Wrap(since) ==> now - since >= TICK_MODULUS
    ensures Epoch(now) == Epoch(since) ==> now - since < TICK_MODULUS
  {
    WrapDefined(since);
    WrapDefined(now);
    WrapDefined(now - since);
  }

  /** Within one wrap a check is right, and what is left is what was asked for less what has passed. */
  lemma CheckWithinOneWrap(since: int, now: int, wait: int)
    requires 0 <= wait < MAX_DELAY && since <= now < since + TICK_MODULUS
    ensures var v := CheckAt(SetAt(since), wait, now);
            && (v.timedOut <==> now - since >= wait)
            && (if v.timedOut then v.wait == 0 else v.wait == wait - (now - since) && v.state == SetAt(now))
  {
    ElapsedShows(since, now);
    WithinOneWrap(since, now);
  }

  /** A wait of portMAX_DELAY never times out. */
  lemma MaxDelayNeverTimesOut(t: TimeOut, now: int)
    ensures CheckAt(t, MAX_DELAY, now) == Verdict(false, MAX_DELAY, t)
  {
  }

  /** Checking again and again, at the given times, until the time is up. */
  function Checks(t: TimeOut, wait: int, times: seq<int>): Verdict
    decreases |times|
  {
    if times == [] then Verdict(false, wait, t)
    else
      var v := CheckAt(t, wait, times[0]);
      if v.timedOut then v else Checks(v.state, v.wait, times[1..])
  }

  /** Time goes on, by less than a wrap from each check to the next. */
  predicate Spaced(since: int, times: seq<int>)
    decreases |times|
  {
    times == [] || (since <= times[0] < since + TICK_MODULUS && Spaced(times[0], times[1..]))
  }

  function LastOf(since: int, times: seq<int>): int {
    if times == [] then since else times[|times| - 1]
  }

  /**
  Over repeated checks, however long in all: the time left and the time passed since the start
  always add up to the wait first asked for, and the time is reported up exactly when it is.
  */
  lemma {:induction false} ChecksExact(since: int, wait: int, times: seq<int>)
    requires 0 < wait < MAX_DELAY && Spaced(since, times)
    ensures var v, last := Checks(SetAt(since), wait, times), LastOf(since, times);
            && (v.timedOut <==> last - since >= wait)
            && (!v.timedOut ==> v.wait + (last - since) == wait && v.state == SetAt(last))
            && since <= last
    decreases |times|
  {
    if times != [] {
      CheckWithinOneWrap(since, times[0], wait);
      SpacedGrows(times[0], times[1..]);
      var v := CheckAt(SetAt(since), wait, times[0]);
      assert LastOf(times[0], times[1..]) == LastOf(since, times);
      if !v.timedOut {
        ChecksExact(times[0], v.wait, times[1..]);
      }
    }
  }

  lemma {:induction false} SpacedGrows(since: int, times: seq<int>)
    requires Spaced(since, times)
    ensures since <= LastOf(since, times)
    decreases |times|
  {
    if times != [] {
      SpacedGrows(times[0], times[1..]);
      assert LastOf(times[0], times[1..]) == LastOf(since, times);
    }
  }

  // ----- xTaskDelayUntil()

  /** Whether to delay, given the previous wake time, the tick count and the increment. */
  function ShouldDelay(previous: int, tick: int, increment: int): bool {
    var wake := Wrap(previous + increment);
    if tick < previous then wake < previous && wake > tick
    else wake < previous || wake > tick
  }

  /** Called within one wrap of the previous wake time: it delays iff the new wake time is still ahead. */
  lemma DelayUntilExact(previous: int, now: int, increment: int)
    requires 0 < increment < TICK_MODULUS && previous <= now < previous + TICK_MODULUS
    ensures ShouldDelay(Wrap(previous), Wrap(now), increment) <==> previous + increment > now
    ensures ShouldDelay(Wrap(previous), Wrap(now), increment) ==>
              Wrap(Wrap(Wrap(previous) + increment) - Wrap(now)) == previous + increment - now
  {
    var wake := previous + increment;
    WrapDefined(previous);
    WrapDefined(now);
    WrapDefined(wake);
    WrapSum(previous, increment);
    ElapsedShows(now, wake);
    if wake > now {
      WithinOneWrap(now, wake);
    }
  }

  /** Called later still, it is wrong exactly when what is left beyond whole wraps is short of the increment. */
  lemma DelayUntilLate(previous: int, now: int, increment: int)
    requires 0 < increment < TICK_MODULUS && previous <= now
    ensures (ShouldDelay(Wrap(previous), Wrap(now), increment) <==> previous + increment > now) <==>
            !(now - previous >= TICK_MODULUS && Wrap(now - previous) < increment)
  {
    var k := Epoch(now - previous);
    var latest := previous + k * TICK_MODULUS;
    WrapDefined(now - previous);
    WrapShift(latest, k);
    WrapShift(latest + increment, k);
    WrapSum(previous, increment);
    WrapSum(latest, increment);
    DelayUntilExact(latest, now, increment);
  }

  /** It does go wrong: a task that is due at tick 5 and called at tick 2^32 delays for 5 ticks more. */
  lemma DelayUntilDelaysLate()
    ensures var previous, now, increment := 0, TICK_MODULUS, 5;
            && previous + increment <= now && ShouldDelay(Wrap(previous), Wrap(now), increment)
            && Wrap(Wrap(Wrap(previous) + increment) - Wrap(now)) == 5
  {
  }

  /** The times a periodic task wakes at, one call of xTaskDelayUntil() after another. */
  function Wakes(previous: int, increment: int, n: nat): int {
    if n == 0 then previous else Wrap(Wakes(previous, increment, n - 1) + increment)
  }

  /** No drift: the n-th wake time shows start + n * increment, however late the calls were made. */
  lemma {:induction false} NoDrift(start: int, increment: int, n: nat)
    ensures Wakes(Wrap(start), increment, n) == Wrap(start + n * increment)
  {
    if n > 0 {
      NoDrift(start, increment, n - 1);
      WrapSum(start + (n - 1) * increment, increment);
      assert (n - 1) * increment + increment == n * increment;
    }
  }

  // ----- The code

  class Clock {
    var tickCount: int
    var numOfOverflows: int
    var delayAborted: bool    // ucDelayAborted of the running task

    /** In absolute time. */
    ghost function Now(): int
      reads this
    {
      numOfOverflows * TICK_MODULUS + tickCount
    }

    ghost predicate Valid()
      reads this
    {
      0 <= tickCount < TICK_MODULUS
    }

    lemma NowShows()
      requires Valid()
      ensures Epoch(Now()) == numOfOverflows && Wrap(Now()) == tickCount
    {
    }

    /** vTaskSetTimeOutState() */
    method SetTimeOutState() returns (t: TimeOut)
      requires Valid()
      ensures t == SetAt(Now())
    {
      NowShows();
      t := TimeOut(numOfOverflows, tickCount);
    }

    /** xTaskCheckForTimeOut(): an aborted delay counts as a time out, once, and leaves the wait alone. */
    method CheckForTimeOut(t: TimeOut, ticksToWait: int) returns (timedOut: bool, wait: int, t': TimeOut)
      requires Valid()
      modifies this`delayAborted
      ensures !delayAborted
      ensures Verdict(timedOut, wait, t') ==
              if old(delayAborted) then Verdict(true, ticksToWait, t) else CheckAt(t, ticksToWait, Now())
    {
      NowShows();
      hide Epoch, Wrap;
      var elapsed := Wrap(tickCount - t.timeOnEntering);
      wait, t' := ticksToWait, t;
      if delayAborted {
        delayAborted := false;
        timedOut := true;
      } else if ticksToWait == MAX_DELAY {
        timedOut := false;
      } else if numOfOverflows != t.overflowCount && tickCount >= t.timeOnEntering {
        timedOut := true;
        wait := 0;
      } else if elapsed < ticksToWait {
        wait := ticksToWait - elapsed;
        t' := SetTimeOutState();
        timedOut := false;
      } else {
        wait := 0;
        timedOut := true;
      }
    }

    /** xTaskDelayUntil(): returns the ticks to block for, if any, and the new previous wake time. */
    method DelayUntil(previousWakeTime: int, increment: int, ghost previous: int) returns (block: Option<int>, next: int)
      requires Valid() && 0 < increment < TICK_MODULUS && previousWakeTime == Wrap(previous)
      ensures next == Wrap(previous + increment)
      ensures block == if ShouldDelay(previousWakeTime, tickCount, increment) then Some(Wrap(next - tickCount)) else None
      ensures previous <= Now() < previous + TICK_MODULUS ==>
                block == if previous + increment > Now() then Some(previous + increment - Now()) else None
    {
      NowShows();
      if previous <= Now() < previous + TICK_MODULUS {
        DelayUntilExact(previous, Now(), increment);
      }
      WrapSum(previous, increment);
      hide Epoch, Wrap, Now;
      var timeToWake := Wrap(previousWakeTime + increment);
      var shouldDelay := false;
      if tickCount < previousWakeTime {
        if timeToWake < previousWakeTime && timeToWake > tickCount {
          shouldDelay := true;
        }
      } else if timeToWake < previousWakeTime || timeToWake > tickCount {
        shouldDelay := true;
      }
      next := timeToWake;
      block := if shouldDelay then Some(Wrap(timeToWake - tickCount)) else None;
    }
  }
}
