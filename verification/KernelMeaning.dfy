/**
The meaning of the scheduler (rtos/source/tasks.c) as a machine over absolute time, and the
properties of every run of that machine.
*/
module KernelMeaning {
  import opened Config
  import opened KernelState

  /** `now` is the last tick processed, `pended` the ticks that have come but are not processed. */
  datatype Meaning = Meaning(now: int, pended: int, depth: int, status: map<Task, Status>)

  datatype Step =
    | TickInterrupt
    | SuspendAll
    | ResumeAll
    | Block(t: Task, wait: int)
    | SetStatus(t: Task, status: Status)   // woken, suspended, resumed, created or deleted by a call
    | Forget(t: Task)

  function MeaningOf(s: State): Meaning {
    Meaning(Now(s), s.pendedTicks, s.schedulerSuspended, map t | t in s.tasks :: StatusOf(s, t))
  }

  /** n ticks processed. */
  function Advance(a: Meaning, n: int): Meaning {
    if n <= 0 then a
    else a.(now := a.now + n, status := map t | t in a.status :: Expired(a.status[t], a.now + n))
  }

  function Apply(a: Meaning, step: Step): Meaning {
    match step
    case TickInterrupt => if a.depth == 0 then Advance(a, 1) else a.(pended := a.pended + 1)
    case SuspendAll => a.(depth := a.depth + 1)
    case ResumeAll =>
      if a.depth == 1 then Advance(a.(depth := 0, pended := 0), a.pended) else a.(depth := a.depth - 1)
    case Block(t, wait) => a.(status := a.status[t := Delayed(a.now + wait)])
    case SetStatus(t, st) => a.(status := a.status[t := st])
    case Forget(t) => a.(status := a.status - {t})
  }

  /** Some tasks gone for good. */
  function ForgetAll(a: Meaning, ts: seq<Task>): Meaning
    decreases |ts|
  {
    if ts == [] then a else ForgetAll(Apply(a, Forget(ts[0])), ts[1..])
  }

  function Run(a: Meaning, steps: seq<Step>): Meaning
    decreases |steps|
  {
    if steps == [] then a else Run(Apply(a, steps[0]), steps[1..])
  }

  /** Every resume matches a suspend. */
  predicate Balanced(depth: int, steps: seq<Step>)
    decreases |steps|
  {
    steps == [] ||
    match steps[0]
    case SuspendAll => Balanced(depth + 1, steps[1..])
    case ResumeAll => depth > 0 && Balanced(depth - 1, steps[1..])
    case _ => Balanced(depth, steps[1..])
  }

  function TickInterrupts(steps: seq<Step>): nat {
    if steps == [] then 0 else (if steps[0].TickInterrupt? then 1 else 0) + TickInterrupts(steps[1..])
  }

  predicate LeavesAlone(t: Task, steps: seq<Step>) {
    steps == [] ||
    (!((steps[0].Block? || steps[0].SetStatus? || steps[0].Forget?) && steps[0].t == t) && LeavesAlone(t, steps[1..]))
  }

  ghost predicate Consistent(a: Meaning) {
    a.pended >= 0 && a.depth >= 0 && (a.depth == 0 ==> a.pended == 0)
  }

  /**
  No tick is lost: over any run, processed and pended ticks together grow by exactly the number
  of tick interrupts, and none is pended once the scheduler is no longer suspended.
  */
  lemma {:induction false} TicksConserved(a: Meaning, steps: seq<Step>)
    requires Consistent(a) && Balanced(a.depth, steps)
    ensures var b := Run(a, steps);
            && b.now + b.pended == a.now + a.pended + TickInterrupts(steps)
            && a.now <= b.now && Consistent(b)
    decreases |steps|
  {
    if steps != [] {
      TicksConserved(Apply(a, steps[0]), steps[1..]);
    }
  }

  /**
  A delayed task that nothing else touches is delayed exactly until its deadline is processed,
  whatever other tasks do and however often the scheduler is suspended on the way.
  */
  lemma {:induction false} WokenExactlyAtDeadline(a: Meaning, steps: seq<Step>, t: Task, deadline: int)
    requires Consistent(a) && Balanced(a.depth, steps) && LeavesAlone(t, steps)
    requires t in a.status && a.status[t] == Delayed(deadline) && a.now < deadline
    ensures var b := Run(a, steps);
            t in b.status && b.status[t] == if deadline <= b.now then Ready else Delayed(deadline)
    decreases |steps|
  {
    if steps != [] {
      var a1 := Apply(a, steps[0]);
      TicksConserved(a, steps[..1]);
      assert Run(a, steps[..1]) == a1;
      if a1.status[t] == Ready {
        StaysReady(a1, steps[1..], t);
        TicksConserved(a1, steps[1..]);
      } else {
        WokenExactlyAtDeadline(a1, steps[1..], t, deadline);
      }
    }
  }

  lemma {:induction false} StaysReady(a: Meaning, steps: seq<Step>, t: Task)
    requires LeavesAlone(t, steps) && t in a.status && a.status[t] == Ready
    ensures t in Run(a, steps).status && Run(a, steps).status[t] == Ready
    decreases |steps|
  {
    if steps != [] {
      StaysReady(Apply(a, steps[0]), steps[1..], t);
    }
  }

  /**
  A task that blocks for d ticks while the scheduler is suspended with p ticks pended is ready
  again, once the scheduler is running, exactly if at least d ticks have come in all.
  */
  lemma BlockedForItsTicks(a: Meaning, t: Task, d: int, steps: seq<Step>)
    requires Consistent(a) && Balanced(a.depth, steps) && LeavesAlone(t, steps) && 0 < d
    requires Run(Apply(a, Block(t, d)), steps).depth == 0
    ensures var b := Run(Apply(a, Block(t, d)), steps);
            t in b.status && (b.status[t] == Ready <==> a.pended + TickInterrupts(steps) >= d)
  {
    var a1 := Apply(a, Block(t, d));
    TicksConserved(a1, steps);
    WokenExactlyAtDeadline(a1, steps, t, a.now + d);
  }
}
