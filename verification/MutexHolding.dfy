/**
Who holds a mutex, and at what priority (rtos/source/queue.c with rtos/source/tasks.c), told from
the steps of a run alone: by counting takes and gives, and by what each step may change.
*/
module MutexHolding {
  import opened Config
  import opened Lists
  import opened Mutexes

  /** The task that runs after these steps, if c ran before them. */
  function RunningAfter(c: Task, steps: seq<Step>): Task
    decreases |steps|
  {
    if steps == [] then c else RunningAfter(if steps[0].SwitchTo? then steps[0].t else c, steps[1..])
  }

  /** How often task t made this step, if c ran first. */
  function Times(c: Task, steps: seq<Step>, step: Step, t: Task): nat
    decreases |steps|
  {
    if steps == [] then 0
    else
      (if steps[0] == step && c == t then 1 else 0)
      + Times(if steps[0].SwitchTo? then steps[0].t else c, steps[1..], step, t)
  }

  /**
  The gives that t still owes, if it owed n: a recursive mutex is taken again by its holder, any other
  is not.
  */
  function Owed(n: int, recursive: bool, c: Task, steps: seq<Step>, m: int, t: Task): int {
    n + (if recursive then Times(c, steps, Take(m), t) else 0) - Times(c, steps, Give(m), t)
  }

  /** t holds mutex m, and owes n gives. */
  ghost predicate HeldFor(s: State, m: int, t: Task, n: int) {
    && IsMutex(s, m) && s.mutexes[m].holder == Some(t) && s.mutexes[m].count == 0 && n > 0
    && (if s.mutexes[m].recursive then s.mutexes[m].calls == n else n == 1)
  }

  predicate Free(s: State, m: int) {
    IsMutex(s, m) && s.mutexes[m].holder == None && s.mutexes[m].count == 1
  }

  lemma StepOwes(s: State, step: Step, m: int, t: Task, n: int)
    requires Accounted(s) && Enabled(s, step) && HeldFor(s, m, t, n)
    ensures var s' := Apply(s, step);
            && s'.current == RunningAfter(s.current, [step])
            && IsMutex(s', m) && s'.mutexes[m].recursive == s.mutexes[m].recursive
            && var n' := Owed(n, s.mutexes[m].recursive, s.current, [step], m, t);
               if n' > 0 then HeldFor(s', m, t, n') else n' == 0 && Free(s', m)
  {
    hide TcbsValid;
    assert [step][1..] == [];
    assert forall x :: Times(s.current, [step], x, t) == if step == x && s.current == t then 1 else 0;
    assert RunningAfter(s.current, [step]) == Apply(s, step).current;
    hide Times, RunningAfter, Dropped, InsertPos, Splice;
  }

  lemma TimesFirst(c: Task, steps: seq<Step>, x: Step, t: Task)
    requires steps != []
    ensures Times(c, steps, x, t) == Times(c, [steps[0]], x, t) + Times(RunningAfter(c, [steps[0]]), steps[1..], x, t)
  {
    assert [steps[0]][1..] == [];
    assert Times(c, [steps[0]], x, t) == if steps[0] == x && c == t then 1 else 0;
  }

  lemma OwedFirst(n: int, recursive: bool, c: Task, steps: seq<Step>, m: int, t: Task)
    requires steps != []
    ensures Owed(n, recursive, c, steps, m, t) ==
            Owed(Owed(n, recursive, c, [steps[0]], m, t), recursive, RunningAfter(c, [steps[0]]), steps[1..], m, t)
  {
    TimesFirst(c, steps, Take(m), t);
    TimesFirst(c, steps, Give(m), t);
  }

  lemma {:induction false} OwesRun(s: State, steps: seq<Step>, m: int, t: Task, n: int)
    requires Accounted(s) && Possible(s, steps) && HeldFor(s, m, t, n)
    requires forall k :: 0 <= k < |steps| ==> Owed(n, s.mutexes[m].recursive, s.current, steps[..k], m, t) > 0
    ensures var o := Owed(n, s.mutexes[m].recursive, s.current, steps, m, t);
            if o > 0 then HeldFor(Run(s, steps), m, t, o) else o == 0 && Free(Run(s, steps), m)
    decreases |steps|
  {
    hide Accounted, Enabled, Apply, Free;
    if steps != [] {
      var r, c := s.mutexes[m].recursive, s.current;
      StepOwes(s, steps[0], m, t, n);
      StepAccounted(s, steps[0]);
      OwedFirst(n, r, c, steps, m, t);
      var s1, n1 := Apply(s, steps[0]), Owed(n, r, c, [steps[0]], m, t);
      if |steps| > 1 {
        assert steps[..1] == [steps[0]];
        hide Owed, RunningAfter;
        forall k | 0 <= k < |steps| - 1
          ensures Owed(n1, r, s1.current, steps[1..][..k], m, t) > 0
        {
          assert steps[..k + 1][0] == steps[0] && steps[..k + 1][1..] == steps[1..][..k];
          OwedFirst(n, r, c, steps[..k + 1], m, t);
        }
        OwesRun(s1, steps[1..], m, t, n1);
      } else {
        assert steps == [steps[0]];
        assert steps[1..] == [];
      }
    }
  }

  /**
  Nested takes are counted: the task that takes a free mutex holds it, whatever other tasks do, until
  it has given it as often as it took it, and then the mutex is free.  The takes and gives are those
  the task makes in the run.
  */
  lemma HeldUntilGivenBack(s: State, steps: seq<Step>, m: int)
    requires Accounted(s) && Free(s, m) && Possible(s, [Take(m)] + steps)
    requires forall k :: 0 <= k < |steps| ==> Owed(1, s.mutexes[m].recursive, s.current, steps[..k], m, s.current) > 0
    ensures var e, o := Run(s, [Take(m)] + steps), Owed(1, s.mutexes[m].recursive, s.current, steps, m, s.current);
            && IsMutex(e, m) && o >= 0
            && e.mutexes[m].holder == (if o > 0 then Some(s.current) else None)
            && e.mutexes[m].count == (if o > 0 then 0 else 1)
  {
    var all := [Take(m)] + steps;
    assert all[1..] == steps;
    var s1 := Apply(s, Take(m));
    TakeAccounted(s, m);
    assert HeldFor(s1, m, s.current, 1) && s1.current == s.current && s1.mutexes[m].recursive == s.mutexes[m].recursive;
    hide Accounted, Owed, Apply;
    OwesRun(s1, steps, m, s.current, 1);
  }

  /** A free mutex stays free until a task takes it. */
  lemma {:induction false} FreeUntilTaken(s: State, steps: seq<Step>, m: int)
    requires Accounted(s) && Free(s, m) && Possible(s, steps) && Take(m) !in steps
    ensures Free(Run(s, steps), m)
    decreases |steps|
  {
    if steps != [] {
      assert steps[0] in steps;
      StepFree(s, steps[0], m);
      hide Accounted, Apply, Enabled, Free;
      StepAccounted(s, steps[0]);
      FreeUntilTaken(Apply(s, steps[0]), steps[1..], m);
    }
  }

  lemma StepFree(s: State, step: Step, m: int)
    requires Accounted(s) && Enabled(s, step) && Free(s, m) && step != Take(m)
    ensures Free(Apply(s, step), m)
  {
    hide TcbsValid, Dropped, InsertPos, Splice;
  }

  // ----- What each step does to priorities

  function Max(a: int, b: int): int {
    if a < b then b else a
  }

  /** The priority at which the first task that waits for the mutex is listed. */
  function Shown(s: State, m: int): int
    requires IsMutex(s, m) && s.mutexes[m].waiting != []
  {
    MAX_PRIORITIES - Get(s.tcb, s.mutexes[m].waiting[0]).itemValue
  }

  /**
  A task's priority changes in four ways only: a task that comes to wait lifts the holder to its own
  priority; giving back the last mutex held returns to the base priority; when a waiter has timed out,
  a holder of one mutex keeps what the first remaining waiter shows, but not less than its base; and
  vTaskPrioritySet() sets it, but takes nothing away that is inherited.
  */
  lemma PriorityAfter(s: State, step: Step, t: Task)
    requires Accounted(s) && Enabled(s, step) && t in s.tcb
    ensures t in Apply(s, step).tcb
    ensures var x, p := s.tcb[t], Apply(s, step).tcb[t].priority;
            match step
            case Wait(m) => p == if s.mutexes[m].holder == Some(t) then Max(x.priority, Prio(s.tcb, s.current)) else x.priority
            case Give(m) =>
              p == if t == s.current && s.mutexes[m].holder == Some(t) && x.held == 1 && s.mutexes[m].calls <= 1 then x.base
                   else x.priority
            case AfterTimeout(m) =>
              p == if s.mutexes[m].holder != Some(t) || x.held > 1 then x.priority
                   else if s.mutexes[m].waiting == [] then x.base
                   else Max(x.base, Shown(s, m))
            case SetPriority(u, q) =>
              p == if t != u || q == x.base then x.priority
                   else if x.priority == x.base then q
                   else Max(x.priority, q)
            case _ => p == x.priority
    ensures Apply(s, step).tcb[t].base == if step.SetPriority? && step.t == t then step.p else s.tcb[t].base
  {
    if step.AfterTimeout? && s.mutexes[step.m].holder.Some? {
      HoldsAtLeastOne(s.mutexes, step.m, s.mutexes[step.m].holder.value);
    }
    hide Dropped, InsertPos, Splice;
  }

  // ----- What each step does to those that wait

  /** The give that makes the mutex free: the last that its holder owes. */
  predicate Frees(s: State, m: int) {
    IsMutex(s, m) && s.mutexes[m].holder == Some(s.current) && !(s.mutexes[m].recursive && s.mutexes[m].calls > 1)
  }

  /** The task that the step wakes to take mutex m. */
  predicate IsWoken(s: State, step: Step, m: int, t: Task) {
    step == Give(m) && Frees(s, m) && s.mutexes[m].waiting != [] && t == s.mutexes[m].waiting[0]
  }

  /** t is to wait for mutex m after the step. */
  predicate WaitsOn(s: State, step: Step, m: int, t: Task)
    requires IsMutex(s, m)
  {
    match step
    case Wait(n) => t in s.mutexes[m].waiting || (m == n && t == s.current)
    case Give(n) => t in s.mutexes[m].waiting && !IsWoken(s, step, m, t)
    case TimedOut(u, n) => t in s.mutexes[m].waiting && !(m == n && t == u)
    case Suspend(u) => t in s.mutexes[m].waiting && t != u
    case Delete(u) => t in s.mutexes[m].waiting && t != u
    case _ => t in s.mutexes[m].waiting
  }

  /**
  A task waits for a mutex from the wait on until it is woken, times out, is suspended or is deleted;
  the one that is woken is the first in the list, and it is ready and about to take the mutex.
  */
  lemma WaitersAfter(s: State, step: Step, m: int, t: Task)
    requires Accounted(s) && Enabled(s, step) && IsMutex(s, m) && Distinct(s.mutexes[m].waiting)
    ensures IsMutex(Apply(s, step), m)
    ensures t in Apply(s, step).mutexes[m].waiting <==> WaitsOn(s, step, m, t)
    ensures IsWoken(s, step, m, t) ==>
              t in Apply(s, step).ready && t in Apply(s, step).retry && Apply(s, step).retry[t] == m
  {
    hide Accounted, Distinct, Dropped, InsertPos, Splice, Disinherited, Inherited, Drops, ItemValues, Enabled, Prio, Get,
         PrioritySet, DisinheritedAfterTimeout, HighestWaiting;
    var q := s.mutexes[m].waiting;
    match step
    case Wait(n) => if IsMutex(s, n) { JoinsList(s, n, m, t); }
    case TimedOut(u, n) => DroppedMembers(q, u);
    case Suspend(u) => DroppedMembers(q, u);
    case Delete(u) => DroppedMembers(q, u);
    case Give(n) => if q != [] { HeadLeaves(q, t); }
    case _ =>
  }

  lemma JoinsList(s: State, n: int, m: int, t: Task)
    requires IsMutex(s, n) && IsMutex(s, m)
    ensures IsMutex(Waited(s, n), m)
    ensures t in Waited(s, n).mutexes[m].waiting <==> t in s.mutexes[m].waiting || (m == n && t == s.current)
  {
    var tcb, r := Waited(s, n).tcb, s.mutexes[n].waiting;
    SpliceMembers(r, InsertPos(ItemValues(tcb, r), Get(tcb, s.current).itemValue), s.current);
    hide Splice, InsertPos, ItemValues;
  }

  lemma HeadLeaves(q: seq<Task>, t: Task)
    requires Distinct(q) && q != []
    ensures t in q[1..] <==> t in q && t != q[0]
  {
    DistinctIndices(q);
    assert q == [q[0]] + q[1..];
  }
}
