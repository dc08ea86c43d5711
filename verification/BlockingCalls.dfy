/**
Calls that wait with a time out, such as xQueueReceive() (rtos/source/queue.c:1502-1641): each
turn of their loop checks the time out (rtos/source/tasks.c:5534-5600) with the scheduler
suspended, and blocks for what is left of the wait if there is still nothing to be had.  Between
two checks the scheduler goes through any run of kernel calls and interrupts.
*/
module BlockingCalls {
  import opened Config
  import opened KernelState
  import opened KernelMeaning
  import opened KernelRefinement
  import opened KernelRuns
  import opened TimeOuts

  /** What goes on before a check, and whether the call then has to block. */
  datatype Turn = Turn(before: seq<Op>, blocks: bool)

  /** A call since its last check: what is left of the wait, and whether it has timed out or blocked. */
  datatype Call = Call(state: State, timeOut: TimeOut, left: int, timedOut: bool, blocked: bool)

  /** The first turn finds nothing and records the time. */
  function Begun(s: State, wait: int): Call {
    Call(s, SetAt(Now(s)), wait, false, false)
  }

  ghost predicate Sound(c: Call, idle: Task) {
    Inv(c.state) && IdleReady(c.state, idle) && (!c.timedOut ==> 0 < c.left <= MAX_DELAY)
  }

  predicate Runs(s: State, who: Task) {
    s.current == who && who in s.place && s.place[who].ReadyList?
  }

  /** The task gets to run again within one wrap of its last check, and nobody aborts its wait. */
  ghost predicate Turns(c: Call, turn: Turn, who: Task, idle: Task)
    requires Sound(c, idle)
  {
    && !c.timedOut && who != idle && Legal(c.state, turn.before, idle) && AbortDelayOp(who) !in turn.before
    && var s := After(c.state, turn.before, idle);
       Runs(s, who) && Now(s) < Now(c.state) + TICK_MODULUS
  }

  lemma CheckLeaves(t: TimeOut, wait: int, now: int)
    requires 0 < wait <= MAX_DELAY
    ensures var v := CheckAt(t, wait, now); !v.timedOut ==> 0 < v.wait <= wait
  {
  }

  lemma RunKeeps(s: State, ops: seq<Op>, idle: Task)
    requires Inv(s) && IdleReady(s, idle) && Legal(s, ops, idle)
    ensures var s' := After(s, ops, idle); Inv(s') && IdleReady(s', idle) && Now(s) <= Now(s')
  {
    hide Inv, IdleReady, Legal, After, RunSteps, StatusOf;
    RunRefines(s, ops, idle);
    NowAndPended(s, ops, idle);
  }

  lemma NowAndPended(s: State, ops: seq<Op>, idle: Task)
    requires Inv(s) && IdleReady(s, idle) && Legal(s, ops, idle)
    ensures Now(s) <= Now(After(s, ops, idle))
  {
    hide Core, DelaysAhead, After, RunSteps, Legal, KernelMeaning.Run, StatusOf, IdleReady;
    RunRefines(s, ops, idle);
    MeaningIsConsistent(s);
    TicksConserved(MeaningOf(s), RunSteps(s, ops, idle));
  }

  /** One turn: check, and block for what is left unless the time is up. */
  ghost function Turned(c: Call, turn: Turn, who: Task, idle: Task): (c': Call)
    requires Sound(c, idle) && Turns(c, turn, who, idle)
    ensures Sound(c', idle)
  {
    var s := After(c.state, turn.before, idle);
    var v := CheckAt(c.timeOut, c.left, Now(s));
    RunKeeps(c.state, turn.before, idle);
    if v.timedOut then Call(s, v.state, v.wait, true, false)
    else
      CheckLeaves(c.timeOut, c.left, Now(s));
      if !turn.blocks then Call(s, v.state, v.wait, false, false)
      else
        PerformKeeps(s, BlockOp(v.wait, true, true), idle);
        Call(Perform(s, BlockOp(v.wait, true, true), idle), v.state, v.wait, false, true)
  }

  ghost predicate Possible(c: Call, turns: seq<Turn>, who: Task, idle: Task)
    requires Sound(c, idle)
    decreases |turns|
  {
    turns == [] || (Turns(c, turns[0], who, idle) && Possible(Turned(c, turns[0], who, idle), turns[1..], who, idle))
  }

  ghost function AfterTurns(c: Call, turns: seq<Turn>, who: Task, idle: Task): (c': Call)
    requires Sound(c, idle) && Possible(c, turns, who, idle)
    ensures Sound(c', idle)
    decreases |turns|
  {
    if turns == [] then c else AfterTurns(Turned(c, turns[0], who, idle), turns[1..], who, idle)
  }

  /**
  A call that began at `start` has timed out only if its time is up; until then what is left
  reaches to the deadline it began with, and if it is blocked, it is blocked until then.  A call
  that waits for ever never times out and is woken by no tick.
  */
  ghost predicate OnTime(c: Call, who: Task, start: int, wait: int) {
    start <= Now(c.state) &&
    if wait == MAX_DELAY then
      !c.timedOut && c.left == MAX_DELAY && (c.blocked ==> who in c.state.tasks && StatusOf(c.state, who) == Waiting)
    else if c.timedOut then
      start + wait <= Now(c.state)
    else
      && 0 < c.left == start + wait - Now(c.state) && c.timeOut == SetAt(Now(c.state))
      && (c.blocked ==> who in c.state.tasks && StatusOf(c.state, who) == Delayed(start + wait))
  }

  lemma BlocksUntil(s: State, wait: Tick, who: Task, idle: Task)
    requires Inv(s) && IdleReady(s, idle) && Runs(s, who) && who != idle && wait > 0
    ensures var s' := Perform(s, BlockOp(wait, true, true), idle);
            && Now(s') == Now(s) && who in s'.tasks
            && StatusOf(s', who) == if wait == MAX_DELAY then Waiting else Delayed(Now(s) + wait)
  {
    hide Core, DelaysAhead, WellPlaced, EventsConsistent, StatusOf, Blocked, IdleReady, Inv, Now;
    Basics(s);
    BlockedStatus(s, wait, true, true, who);
    BlockedCounters(s, wait, true, true);
  }

  lemma TurnKeepsTime(c: Call, turn: Turn, who: Task, idle: Task, start: int, wait: int)
    requires Sound(c, idle) && Turns(c, turn, who, idle) && 0 < wait <= MAX_DELAY && OnTime(c, who, start, wait)
    ensures OnTime(Turned(c, turn, who, idle), who, start, wait)
  {
    hide Inv, IdleReady, Legal, After, StatusOf, Perform, Now, CheckAt, SetAt;
    var s := After(c.state, turn.before, idle);
    RunKeeps(c.state, turn.before, idle);
    if wait == MAX_DELAY {
      MaxDelayNeverTimesOut(c.timeOut, Now(s));
    } else {
      CheckWithinOneWrap(Now(c.state), Now(s), c.left);
    }
    var v := CheckAt(c.timeOut, c.left, Now(s));
    if !v.timedOut {
      BlocksUntil(s, v.wait, who, idle);
    }
  }

  /** However often a call is woken for nothing and blocks again, its deadline stays the one it began with. */
  lemma {:induction false} TurnsKeepTime(c: Call, turns: seq<Turn>, who: Task, idle: Task, start: int, wait: int)
    requires Sound(c, idle) && Possible(c, turns, who, idle) && 0 < wait <= MAX_DELAY && OnTime(c, who, start, wait)
    ensures OnTime(AfterTurns(c, turns, who, idle), who, start, wait)
    decreases |turns|
  {
    hide Sound, Turns, Turned, OnTime;
    if turns != [] {
      TurnKeepsTime(c, turns[0], who, idle, start, wait);
      TurnsKeepTime(Turned(c, turns[0], who, idle), turns[1..], who, idle, start, wait);
    }
  }

  /**
  A call begins with a wait.  After any number of turns, with any legal run of the scheduler in
  between, it has timed out only if that wait is over, and each time it blocks it blocks until then.
  */
  lemma KeepsItsDeadline(s: State, wait: int, turns: seq<Turn>, who: Task, idle: Task)
    requires Inv(s) && IdleReady(s, idle) && 0 < wait <= MAX_DELAY && Possible(Begun(s, wait), turns, who, idle)
    ensures OnTime(AfterTurns(Begun(s, wait), turns, who, idle), who, Now(s), wait)
  {
    assert OnTime(Begun(s, wait), who, Now(s), wait);
    hide OnTime, Inv, IdleReady, Possible, AfterTurns;
    TurnsKeepTime(Begun(s, wait), turns, who, idle, Now(s), wait);
  }

  /**
  A call asks at time Now(s) for a wait.  After any number of turns and of wake-ups that found
  nothing, it blocks once more; whatever run follows that does not itself touch the task, the task
  is ready again exactly if the wait, counted from the start of the call, is over, and that is
  exactly when the check it makes next will tell it to give up.
  */
  lemma ReturnsAtItsDeadline(s: State, wait: int, turns: seq<Turn>, ops: seq<Op>, who: Task, idle: Task)
    requires Inv(s) && IdleReady(s, idle) && 0 < wait < MAX_DELAY && Possible(Begun(s, wait), turns, who, idle)
    requires var c := AfterTurns(Begun(s, wait), turns, who, idle);
             c.blocked && !c.timedOut && Legal(c.state, ops, idle) && LeavesAlone(who, RunSteps(c.state, ops, idle))
    ensures var c := AfterTurns(Begun(s, wait), turns, who, idle);
            var s' := After(c.state, ops, idle);
            && who in s'.tasks
            && StatusOf(s', who) == (if Now(s) + wait <= Now(s') then Ready else Delayed(Now(s) + wait))
            && (Now(s') < Now(c.state) + TICK_MODULUS ==>
                  (CheckAt(c.timeOut, c.left, Now(s')).timedOut <==> Now(s) + wait <= Now(s')))
  {
    hide Inv, IdleReady, Possible, AfterTurns, Legal, After, RunSteps, LeavesAlone, StatusOf, Now, CheckAt, SetAt;
    KeepsItsDeadline(s, wait, turns, who, idle);
    var c := AfterTurns(Begun(s, wait), turns, who, idle);
    RunKeeps(c.state, ops, idle);
    WokenAtDeadline(c.state, ops, idle, who, Now(s) + wait);
    var s' := After(c.state, ops, idle);
    if Now(s') < Now(c.state) + TICK_MODULUS {
      CheckWithinOneWrap(Now(c.state), Now(s'), c.left);
    }
  }
}
