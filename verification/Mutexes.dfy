/** Mutexes and priority inheritance (rtos/source/tasks.c with rtos/source/queue.c). */
module Mutexes {
  import opened Config
  import opened Lists

  // The steps are the critical sections of the running task, waiters that leave on a timeout, and
  // context switches.  Two families of results: what holds in every run, and what holds when
  // tasks keep to a discipline; and for each clause of the discipline a run that shows what happens
  // without it.

  /** The fields of a task control block that matter here; itemValue is that of the event list item. */
  datatype Tcb = Tcb(base: int, priority: int, held: int, itemValue: int)

  /** calls is uxRecursiveCallCount. */
  datatype Mutex = Mutex(recursive: bool, count: int, holder: Option<Task>, calls: int, waiting: seq<Task>)

  /** `retry` maps a task woken by a give to the mutex it will now try to take. */
  datatype State = State(tcb: map<Task, Tcb>, mutexes: seq<Mutex>, ready: set<Task>, current: Task,
                         mustYield: bool, retry: map<Task, int>)

  function Get(tcb: map<Task, Tcb>, t: Task): Tcb {
    if t in tcb then tcb[t] else Tcb(0, 0, 0, MAX_PRIORITIES)
  }

  function Prio(tcb: map<Task, Tcb>, t: Task): int {
    Get(tcb, t).priority
  }

  // ----- What happens to the holder

  function WithPriority(x: Tcb, p: int): Tcb {
    x.(priority := p, itemValue := MAX_PRIORITIES - p)
  }

  /** xTaskPriorityInherit(), called by a task of priority p. */
  function Inherited(x: Tcb, p: int): Tcb {
    if x.priority < p then WithPriority(x, p) else x
  }

  /** xTaskPriorityDisinherit() */
  function Disinherited(x: Tcb): Tcb {
    var y := x.(held := x.held - 1);
    if Drops(x) then WithPriority(y, y.base) else y
  }

  /** The result of xTaskPriorityDisinherit(): its priority is lowered. */
  predicate Drops(x: Tcb) {
    x.priority != x.base && x.held == 1
  }

  /** vTaskPriorityDisinheritAfterTimeout() */
  function DisinheritedAfterTimeout(x: Tcb, highestWaiting: int): Tcb {
    var p := if x.base < highestWaiting then highestWaiting else x.base;
    if x.priority != p && x.held == 1 then WithPriority(x, p) else x
  }

  /** vTaskPrioritySet() */
  function PrioritySet(x: Tcb, p: int): Tcb {
    if x.base == p then x
    else Tcb(p, if x.base == x.priority || p > x.priority then p else x.priority, x.held, MAX_PRIORITIES - p)
  }

  function ItemValues(tcb: map<Task, Tcb>, s: seq<Task>): (v: seq<int>)
    ensures |v| == |s|
  {
    seq(|s|, i requires 0 <= i < |s| => Get(tcb, s[i]).itemValue)
  }

  /** prvGetDisinheritPriorityAfterTimeout() */
  function HighestWaiting(tcb: map<Task, Tcb>, x: Mutex): int {
    if x.waiting == [] then 0 else MAX_PRIORITIES - Get(tcb, x.waiting[0]).itemValue
  }

  // ----- The steps

  datatype Step =
    | Take(m: int)          // the critical section of xQueueSemaphoreTake() or xQueueTakeMutexRecursive()
    | Wait(m: int)          // inherit and join the event list, the mutex being held
    | Give(m: int)
    | TimedOut(t: Task, m: int)  // or its delay is aborted
    | AfterTimeout(m: int)  // what the task that timed out does, if inheritance had occurred
    | SetPriority(t: Task, p: int)
    | SwitchTo(t: Task)
    | Block                 // the running task waits for something else
    | Unblock(t: Task)      // a task stops doing so, is resumed, or is new
    | Suspend(t: Task)      // vTaskSuspend()
    | Delete(t: Task)       // vTaskDelete(); its control block stays in the map, as a record

  /**
  The running task can make this step.  It runs on although a context switch is due only if it
  has suspended the scheduler.
  */
  predicate CurrentCan(s: State, step: Step) {
    s.current in s.ready && (s.current in s.retry ==> step == Take(s.retry[s.current]))
  }

  predicate IsMutex(s: State, m: int) {
    0 <= m < |s.mutexes|
  }

  predicate Enabled(s: State, step: Step) {
    match step
    case Take(m) => IsMutex(s, m) && CurrentCan(s, step)
    case Wait(m) =>
      IsMutex(s, m) && CurrentCan(s, step) && !s.mustYield && s.mutexes[m].count == 0
      && (s.mutexes[m].recursive ==> s.mutexes[m].holder != Some(s.current))
    case Give(m) =>
      IsMutex(s, m) && CurrentCan(s, step)
      && (s.mutexes[m].holder == Some(s.current) || s.mutexes[m].count > 0 || s.mutexes[m].recursive)
    case TimedOut(t, m) => IsMutex(s, m) && t in s.mutexes[m].waiting
    case AfterTimeout(m) => IsMutex(s, m) && CurrentCan(s, step) && s.mutexes[m].holder != Some(s.current)
    case SetPriority(t, p) => CurrentCan(s, step) && t in s.tcb && 0 <= p < MAX_PRIORITIES
    case SwitchTo(t) => t in s.ready && Highest(s.tcb, s.ready, t)
    case Block => CurrentCan(s, step) && !s.mustYield
    case Unblock(t) => t in s.tcb && t !in s.ready && forall m :: 0 <= m < |s.mutexes| ==> t !in s.mutexes[m].waiting
    case Suspend(t) => CurrentCan(s, step) && t in s.tcb
    case Delete(t) => CurrentCan(s, step) && t in s.tcb
  }

  predicate Highest(tcb: map<Task, Tcb>, ready: set<Task>, t: Task) {
    forall u :: u in ready ==> Prio(tcb, u) <= Prio(tcb, t)
  }

  function Apply(s: State, step: Step): State {
    match step
    case Take(m) => if IsMutex(s, m) then Taken(s, m) else s
    case Wait(m) => if IsMutex(s, m) then Waited(s, m) else s
    case Give(m) => if IsMutex(s, m) then Given(s, m) else s
    case TimedOut(t, m) =>
      if IsMutex(s, m) then
        s.(mutexes := s.mutexes[m := s.mutexes[m].(waiting := Dropped(s.mutexes[m].waiting, t))],
           ready := s.ready + {t}, mustYield := s.mustYield || Prio(s.tcb, t) > Prio(s.tcb, s.current))
      else s
    case AfterTimeout(m) =>
      if IsMutex(s, m) && s.mutexes[m].holder.Some? then
        var h := s.mutexes[m].holder.value;
        s.(tcb := s.tcb[h := DisinheritedAfterTimeout(Get(s.tcb, h), HighestWaiting(s.tcb, s.mutexes[m]))])
      else s
    case SetPriority(t, p) =>
      var x := Get(s.tcb, t);
      s.(tcb := s.tcb[t := PrioritySet(x, p)],
         mustYield := s.mustYield || (if p > x.base then t != s.current && p > Prio(s.tcb, s.current) else p < x.base && t == s.current))
    case SwitchTo(t) => s.(current := t, mustYield := false)
    case Block => s.(ready := s.ready - {s.current}, mustYield := true)
    case Unblock(t) => s.(ready := s.ready + {t}, mustYield := s.mustYield || Prio(s.tcb, t) > Prio(s.tcb, s.current))
    case Suspend(t) => Removed(s, t)
    case Delete(t) => Removed(s, t)
  }

  function WithoutWaiter(ms: seq<Mutex>, t: Task): (r: seq<Mutex>)
    ensures |r| == |ms|
  {
    seq(|ms|, i requires 0 <= i < |ms| => ms[i].(waiting := Dropped(ms[i].waiting, t)))
  }

  /** A task leaves the ready tasks and the event list it waits in, wherever it had got to. */
  function Removed(s: State, t: Task): State {
    s.(mutexes := WithoutWaiter(s.mutexes, t), ready := s.ready - {t}, retry := s.retry - {t},
       mustYield := s.mustYield || t == s.current)
  }

  function Taken(s: State, m: int): State
    requires IsMutex(s, m)
  {
    var x, c := s.mutexes[m], s.current;
    var s1 := s.(retry := s.retry - {c});
    if x.count > 0 then
      s1.(mutexes := s.mutexes[m := x.(count := x.count - 1, holder := Some(c), calls := if x.recursive then 1 else 0)],
          tcb := s.tcb[c := Get(s.tcb, c).(held := Get(s.tcb, c).held + 1)])
    else if x.recursive && x.holder == Some(c) then
      s1.(mutexes := s.mutexes[m := x.(calls := x.calls + 1)])
    else s1
  }

  function Waited(s: State, m: int): State
    requires IsMutex(s, m)
  {
    var x, c := s.mutexes[m], s.current;
    var tcb := if x.holder.Some? then s.tcb[x.holder.value := Inherited(Get(s.tcb, x.holder.value), Prio(s.tcb, c))] else s.tcb;
    var k := InsertPos(ItemValues(tcb, x.waiting), Get(tcb, c).itemValue);
    s.(tcb := tcb, mutexes := s.mutexes[m := x.(waiting := Splice(x.waiting, k, c))],
       ready := s.ready - {c}, mustYield := true)
  }

  function Given(s: State, m: int): State
    requires IsMutex(s, m)
  {
    var x, c := s.mutexes[m], s.current;
    if x.holder != Some(c) then s
    else if x.recursive && x.calls > 1 then s.(mutexes := s.mutexes[m := x.(calls := x.calls - 1)])
    else
      var tcb := s.tcb[c := Disinherited(Get(s.tcb, c))];
      var x' := x.(count := x.count + 1, holder := None, calls := 0);
      if x.waiting == [] then
        s.(tcb := tcb, mutexes := s.mutexes[m := x'], mustYield := s.mustYield || Drops(Get(s.tcb, c)))
      else
        var w := x.waiting[0];
        s.(tcb := tcb, mutexes := s.mutexes[m := x'.(waiting := x.waiting[1..])],
           ready := s.ready + {w}, retry := s.retry[w := m],
           mustYield := s.mustYield || Prio(tcb, w) > Prio(tcb, c))
  }

  // ----- What holds in every run

  /** How many mutexes name t as their holder. */
  function Holds(ms: seq<Mutex>, t: Task): nat {
    if ms == [] then 0 else (if ms[0].holder == Some(t) then 1 else 0) + Holds(ms[1..], t)
  }

  ghost predicate MutexValid(x: Mutex, tcb: map<Task, Tcb>) {
    && 0 <= x.count <= 1 && (x.count == 1 <==> x.holder == None)
    && (x.holder.Some? ==> x.holder.value in tcb)
    && (forall t :: t in x.waiting ==> t in tcb)
    && (if x.recursive then x.calls >= 0 && (x.calls > 0 <==> x.holder.Some?) else x.calls == 0)
  }

  predicate TcbValid(x: Tcb) {
    && 0 <= x.base <= x.priority < MAX_PRIORITIES && 0 <= x.held
    && (x.held == 0 ==> x.priority == x.base)
    && 1 <= x.itemValue <= MAX_PRIORITIES
  }

  ghost predicate TcbsValid(tcb: map<Task, Tcb>, ms: seq<Mutex>) {
    forall t :: t in tcb ==> TcbValid(tcb[t]) && tcb[t].held == Holds(ms, t)
  }

  ghost predicate MutexesValid(tcb: map<Task, Tcb>, ms: seq<Mutex>) {
    forall m :: 0 <= m < |ms| ==> MutexValid(ms[m], tcb)
  }

  /** Priorities and hold counts are in order. */
  ghost predicate Accounted(s: State) {
    && MutexesValid(s.tcb, s.mutexes) && TcbsValid(s.tcb, s.mutexes)
    && s.current in s.tcb && forall t :: t in s.ready ==> t in s.tcb
  }

  lemma {:induction false} HoldsAfterUpdate(ms: seq<Mutex>, m: int, x: Mutex, t: Task)
    requires 0 <= m < |ms|
    ensures Holds(ms[m := x], t) ==
            Holds(ms, t) - (if ms[m].holder == Some(t) then 1 else 0) + (if x.holder == Some(t) then 1 else 0)
  {
    if m > 0 {
      HoldsAfterUpdate(ms[1..], m - 1, x, t);
      assert ms[m := x][1..] == ms[1..][m - 1 := x];
    } else {
      assert ms[m := x][1..] == ms[1..];
    }
  }

  lemma {:induction false} HoldsAtLeastOne(ms: seq<Mutex>, m: int, t: Task)
    requires 0 <= m < |ms| && ms[m].holder == Some(t)
    ensures Holds(ms, t) >= 1
    ensures Holds(ms, t) == 1 ==> forall i :: 0 <= i < |ms| && ms[i].holder == Some(t) ==> i == m
  {
    if m > 0 {
      HoldsAtLeastOne(ms[1..], m - 1, t);
      if Holds(ms, t) == 1 {
        forall i | 0 <= i < |ms| && ms[i].holder == Some(t)
          ensures i == m
        {
          assert i > 0 ==> ms[1..][i - 1] == ms[i];
        }
      }
    } else if Holds(ms, t) == 1 {
      forall i | 0 < i < |ms|
        ensures ms[i].holder != Some(t)
      {
        if ms[i].holder == Some(t) {
          assert ms[1..][i - 1] == ms[i];
          HoldsAtLeastOne(ms[1..], i - 1, t);
        }
      }
    }
  }

  lemma UpdateKeepsHolders(ms: seq<Mutex>, m: int, x: Mutex)
    requires 0 <= m < |ms| && x.holder == ms[m].holder
    ensures forall t :: Holds(ms[m := x], t) == Holds(ms, t)
  {
    forall t {
      HoldsAfterUpdate(ms, m, x, t);
    }
  }

  lemma TakeAccounted(s: State, m: int)
    requires Accounted(s) && Enabled(s, Take(m))
    ensures Accounted(Apply(s, Take(m)))
  {
    var s' := Taken(s, m);
    forall t {
      HoldsAfterUpdate(s.mutexes, m, s'.mutexes[m], t);
    }
    assert s'.mutexes == s.mutexes[m := s'.mutexes[m]];
  }

  lemma GiveAccounted(s: State, m: int)
    requires Accounted(s) && Enabled(s, Give(m))
    ensures Accounted(Apply(s, Give(m)))
  {
    var s' := Given(s, m);
    forall t {
      HoldsAfterUpdate(s.mutexes, m, s'.mutexes[m], t);
    }
    assert s'.mutexes == s.mutexes[m := s'.mutexes[m]];
    if s.mutexes[m].holder == Some(s.current) {
      HoldsAtLeastOne(s.mutexes, m, s.current);
    }
    if s.mutexes[m].waiting != [] {
      var w := s.mutexes[m].waiting[0];
      assert w in s.mutexes[m].waiting;
    }
  }

  lemma WaitAccounted(s: State, m: int)
    requires Accounted(s) && Enabled(s, Wait(m))
    ensures Accounted(Apply(s, Wait(m)))
  {
    var s' := Waited(s, m);
    var x := s.mutexes[m];
    UpdateKeepsHolders(s.mutexes, m, s'.mutexes[m]);
    assert s'.mutexes == s.mutexes[m := s'.mutexes[m]];
    var k := InsertPos(ItemValues(s'.tcb, x.waiting), Get(s'.tcb, s.current).itemValue);
    SpliceMembers(x.waiting, k, s.current);
    if x.holder.Some? {
      HoldsAtLeastOne(s.mutexes, m, x.holder.value);
    }
  }

  lemma SpliceMembers(s: seq<Task>, k: nat, t: Task)
    requires k <= |s|
    ensures forall u :: u in Splice(s, k, t) <==> u == t || u in s
  {
    assert s == s[..k] + s[k..];
  }

  lemma TimedOutAccounted(s: State, t: Task, m: int)
    requires Accounted(s) && Enabled(s, TimedOut(t, m))
    ensures Accounted(Apply(s, TimedOut(t, m)))
  {
    var s' := Apply(s, TimedOut(t, m));
    UpdateKeepsHolders(s.mutexes, m, s'.mutexes[m]);
    assert s'.mutexes == s.mutexes[m := s'.mutexes[m]];
  }

  lemma AfterTimeoutAccounted(s: State, m: int)
    requires Accounted(s) && Enabled(s, AfterTimeout(m))
    ensures Accounted(Apply(s, AfterTimeout(m)))
  {
    var x := s.mutexes[m];
    if x.waiting != [] {
      var w := x.waiting[0];
      assert w in x.waiting;
    }
  }

  lemma {:induction false} SameHolders(ms: seq<Mutex>, ms': seq<Mutex>, t: Task)
    requires |ms'| == |ms| && forall i :: 0 <= i < |ms| ==> ms'[i].holder == ms[i].holder
    ensures Holds(ms', t) == Holds(ms, t)
  {
    if ms != [] {
      SameHolders(ms[1..], ms'[1..], t);
    }
  }

  lemma RemovedAccounted(s: State, t: Task)
    requires Accounted(s)
    ensures Accounted(Removed(s, t))
  {
    var ms' := WithoutWaiter(s.mutexes, t);
    forall u {
      SameHolders(s.mutexes, ms', u);
    }
    forall m | 0 <= m < |ms'|
      ensures MutexValid(ms'[m], s.tcb)
    {
      DroppedSubset(s.mutexes[m].waiting, t);
    }
  }

  lemma DroppedSubset(s: seq<Task>, t: Task)
    ensures forall u :: u in Dropped(s, t) ==> u in s
  {
  }

  lemma StepAccounted(s: State, step: Step)
    requires Accounted(s) && Enabled(s, step)
    ensures Accounted(Apply(s, step))
  {
    match step
    case Take(m) => TakeAccounted(s, m);
    case Wait(m) => WaitAccounted(s, m);
    case Give(m) => GiveAccounted(s, m);
    case TimedOut(t, m) => TimedOutAccounted(s, t, m);
    case AfterTimeout(m) => AfterTimeoutAccounted(s, m);
    case Suspend(t) => RemovedAccounted(s, t);
    case Delete(t) => RemovedAccounted(s, t);
    case _ =>
  }

  function Run(s: State, steps: seq<Step>): State
    decreases |steps|
  {
    if steps == [] then s else Run(Apply(s, steps[0]), steps[1..])
  }

  predicate Possible(s: State, steps: seq<Step>)
    decreases |steps|
  {
    steps == [] || (Enabled(s, steps[0]) && Possible(Apply(s, steps[0]), steps[1..]))
  }

  /**
  In every run: no task runs below its base priority, its count of mutexes held is the number
  of mutexes that name it, and a task that holds none runs at its base priority.
  */
  lemma {:induction false} RunAccounted(s: State, steps: seq<Step>)
    requires Accounted(s) && Possible(s, steps)
    ensures Accounted(Run(s, steps))
    decreases |steps|
  {
    hide Accounted, Enabled, Apply;
    if steps != [] {
      StepAccounted(s, steps[0]);
      RunAccounted(Apply(s, steps[0]), steps[1..]);
    }
  }

  // ----- What holds when tasks keep to a discipline

  predicate Above(tcb: map<Task, Tcb>, h: Task, waiting: seq<Task>) {
    forall w :: w in waiting ==> Prio(tcb, w) <= Prio(tcb, h)
  }

  /** No holder runs below a task that waits for one of its mutexes. */
  ghost predicate HoldersAbove(tcb: map<Task, Tcb>, ms: seq<Mutex>) {
    forall m :: 0 <= m < |ms| && ms[m].holder.Some? ==> Above(tcb, ms[m].holder.value, ms[m].waiting)
  }

  /** While a mutex is free, a woken task that outranks all that still wait is about to take it. */
  ghost predicate WokenAbove(tcb: map<Task, Tcb>, ms: seq<Mutex>, retry: map<Task, int>) {
    forall m :: 0 <= m < |ms| && ms[m].count > 0 && ms[m].waiting != [] ==>
      exists w :: w in retry && retry[w] == m && Above(tcb, w, ms[m].waiting)
  }

  /** The running task is one of highest priority, unless a context switch is due. */
  ghost predicate RunsHighest(s: State) {
    !s.mustYield ==> s.current in s.ready && Highest(s.tcb, s.ready, s.current)
  }

  ghost predicate WaitersListed(ms: seq<Mutex>, ready: set<Task>, retry: map<Task, int>) {
    && (forall m :: 0 <= m < |ms| ==> Distinct(ms[m].waiting))
    && (forall m, w {:trigger w in ms[m].waiting} :: 0 <= m < |ms| && w in ms[m].waiting ==> w !in ready && w !in retry)
    && (forall m, n, w {:trigger w in ms[m].waiting, w in ms[n].waiting} ::
          0 <= m < |ms| && 0 <= n < |ms| && w in ms[m].waiting && w in ms[n].waiting ==> m == n)
  }

  ghost predicate RetriersReady(ready: set<Task>, retry: map<Task, int>) {
    forall t :: t in retry ==> t in ready
  }

  /**
  The event list item never shows more than the priority, and shows it unless it is inherited: then
  it may show a base priority set by hand.
  */
  ghost predicate ValuesMatch(tcb: map<Task, Tcb>) {
    forall t :: t in tcb ==>
      && MAX_PRIORITIES - tcb[t].itemValue <= tcb[t].priority
      && (tcb[t].priority == tcb[t].base ==> tcb[t].itemValue == MAX_PRIORITIES - tcb[t].priority)
  }

  /** The highest first. */
  ghost predicate InOrder(tcb: map<Task, Tcb>, q: seq<Task>) {
    forall i, j :: 0 <= i < j < |q| ==> Prio(tcb, q[i]) >= Prio(tcb, q[j])
  }

  ghost predicate ListsInOrder(tcb: map<Task, Tcb>, ms: seq<Mutex>) {
    forall m :: 0 <= m < |ms| ==> InOrder(tcb, ms[m].waiting)
  }

  ghost predicate Arranged(s: State) {
    && ValuesMatch(s.tcb)
    && WaitersListed(s.mutexes, s.ready, s.retry) && RetriersReady(s.ready, s.retry)
    && ListsInOrder(s.tcb, s.mutexes)
  }

  ghost predicate Protected(s: State) {
    && Accounted(s) && Arranged(s)
    && RunsHighest(s) && WokenAbove(s.tcb, s.mutexes, s.retry) && HoldersAbove(s.tcb, s.mutexes)
  }

  /**
  The give that goes wrong: the running task drops to its base priority, below another ready
  task, but because a task waits for the mutex, and that task is no higher than the base
  priority, the code looks no further and asks for no context switch.
  */
  predicate Undercut(s: State, m: int) {
    && !s.mustYield && IsMutex(s, m) && s.mutexes[m].holder == Some(s.current)
    && !(s.mutexes[m].recursive && s.mutexes[m].calls > 1)
    && var x := Get(s.tcb, s.current);
       && Drops(x) && s.mutexes[m].waiting != [] && Prio(s.tcb, s.mutexes[m].waiting[0]) <= x.base
       && exists u :: u in s.ready && u != s.current && Prio(s.tcb, u) > x.base
  }

  /**
  A take that goes wrong: of a free mutex that a higher task waits for, by a task that runs on
  although a context switch is due, because it has suspended the scheduler.
  */
  predicate Jumps(s: State, m: int) {
    s.mustYield && IsMutex(s, m) && s.mutexes[m].count > 0 && !Above(s.tcb, s.current, s.mutexes[m].waiting)
  }

  /**
  A suspension or deletion that goes wrong: of the task that was woken to take a mutex, which is
  free, while others still wait and no other task that was woken for it is as high as they are.
  */
  predicate Robs(s: State, t: Task) {
    t in s.retry && var m := s.retry[t];
    && IsMutex(s, m) && s.mutexes[m].count > 0 && s.mutexes[m].waiting != []
    && forall w :: w in s.retry && s.retry[w] == m && w != t ==> !Above(s.tcb, w, s.mutexes[m].waiting)
  }

  /** At priority p task t would come before a task that it is queued behind, or behind one that it is before. */
  predicate OutOfTurn(tcb: map<Task, Tcb>, q: seq<Task>, t: Task, p: int) {
    exists i, k :: 0 <= i < |q| && 0 <= k < |q| && q[k] == t && ((i < k && Prio(tcb, q[i]) < p) || (k < i && Prio(tcb, q[i]) > p))
  }

  /** Task t, which waits for m, would come above the holder, or above all tasks woken to take m. */
  predicate Overtakes(s: State, m: int, t: Task, p: int)
    requires IsMutex(s, m)
  {
    var x := s.mutexes[m];
    if x.holder.Some? then x.holder != Some(t) && Prio(s.tcb, x.holder.value) < p
    else forall w :: w in s.retry && s.retry[w] == m ==> Prio(s.tcb, w) < p
  }

  /** Task t, which holds m or was woken to take it, would come below a task that waits, as no other woken task does. */
  predicate Lags(s: State, m: int, t: Task, p: int)
    requires IsMutex(s, m)
  {
    var x := s.mutexes[m];
    && (exists v :: v in x.waiting && v != t && Prio(s.tcb, v) > p)
    && (x.holder == None ==> forall w :: w in s.retry && s.retry[w] == m && w != t ==> !Above(s.tcb, w, x.waiting))
  }

  /**
  A new priority p of task t that goes wrong for mutex m: t waits for it, and comes out of turn, or
  above the task it waits for; or t holds it or is about to take it, and comes below a task that waits.
  */
  predicate Upsets(s: State, m: int, t: Task, p: int)
    requires IsMutex(s, m)
  {
    var x := s.mutexes[m];
    || (t in x.waiting && (OutOfTurn(s.tcb, x.waiting, t, p) || Overtakes(s, m, t, p)))
    || ((x.holder == Some(t) || (x.holder == None && t in s.retry && s.retry[t] == m)) && Lags(s, m, t, p))
  }

  predicate Unsettles(s: State, t: Task, p: int) {
    exists m :: 0 <= m < |s.mutexes| && Upsets(s, m, t, p)
  }

  /** The priority that the holder of m has once the running task waits for it. */
  function LentPriority(s: State, m: int): int
    requires IsMutex(s, m) && s.mutexes[m].holder.Some?
  {
    Inherited(Get(s.tcb, s.mutexes[m].holder.value), Prio(s.tcb, s.current)).priority
  }

  /** A wait that goes wrong: the holder, itself waiting, is raised out of turn or above the task it waits for. */
  predicate Overburdens(s: State, m: int) {
    IsMutex(s, m) && s.mutexes[m].holder.Some? && Unsettles(s, s.mutexes[m].holder.value, LentPriority(s, m))
  }

  /**
  A wait that goes wrong: the place of the running task in the event list, which goes by the items
  of the list and not by priorities, is behind a lower task or before a higher one.
  */
  predicate Misfiled(s: State, m: int) {
    IsMutex(s, m) && var s' := Waited(s, m);
    OutOfTurn(s'.tcb, s'.mutexes[m].waiting, s.current, Prio(s'.tcb, s.current))
  }

  /** What the task that timed out does goes wrong: the holder falls too low, or out of turn where it waits itself. */
  predicate LetsDown(s: State, m: int) {
    IsMutex(s, m) && s.mutexes[m].holder.Some? &&
    var h := s.mutexes[m].holder.value;
    Unsettles(s, h, DisinheritedAfterTimeout(Get(s.tcb, h), HighestWaiting(s.tcb, s.mutexes[m])).priority)
  }

  /**
  No give undercuts and no take jumps the queue; no wait overburdens a holder or is misfiled; no
  priority that is set by hand, or falls after a time-out, unsettles a mutex; and no suspension or
  deletion robs one of its next holder.
  */
  predicate Disciplined(s: State, step: Step) {
    match step
    case Take(m) => !Jumps(s, m)
    case Wait(m) => !Overburdens(s, m) && !Misfiled(s, m)
    case Give(m) => !Undercut(s, m)
    case AfterTimeout(m) => !LetsDown(s, m)
    case SetPriority(t, p) => !Unsettles(s, t, PrioritySet(Get(s.tcb, t), p).priority)
    case Suspend(t) => !Robs(s, t)
    case Delete(t) => !Robs(s, t)
    case _ => true
  }

  /** Waiters stay in order while the priorities of those that wait stay. */
  lemma OrderFrame(tcb: map<Task, Tcb>, tcb': map<Task, Tcb>, ms: seq<Mutex>)
    requires ListsInOrder(tcb, ms)
    requires forall m, w {:trigger w in ms[m].waiting} :: 0 <= m < |ms| && w in ms[m].waiting ==> Prio(tcb, w) == Prio(tcb', w)
    ensures ListsInOrder(tcb', ms)
  {
    hide Prio;
    forall m, i, j | 0 <= m < |ms| && 0 <= i < j < |ms[m].waiting|
      ensures Prio(tcb', ms[m].waiting[i]) >= Prio(tcb', ms[m].waiting[j])
    {
      var q := ms[m].waiting;
      var a, b := q[i], q[j];
      assert InOrder(tcb, q) && a in q && b in q;
    }
  }

  /** In an ordered list the head is of highest priority. */
  lemma HeadAbove(tcb: map<Task, Tcb>, q: seq<Task>)
    requires q != [] && InOrder(tcb, q)
    ensures Above(tcb, q[0], q)
  {
    hide Prio;
  }

  // ----- Take

  /** With the mutex free, the running task outranks whoever still waits for it. */
  lemma TakerAbove(s: State, m: int)
    requires Protected(s) && Enabled(s, Take(m)) && s.mutexes[m].count > 0 && !Jumps(s, m)
    ensures Above(s.tcb, s.current, s.mutexes[m].waiting)
  {
    hide Accounted, Arranged, HoldersAbove;
    if s.mutexes[m].waiting != [] && !s.mustYield {
      var w :| w in s.retry && s.retry[w] == m && Above(s.tcb, w, s.mutexes[m].waiting);
      assert Prio(s.tcb, w) <= Prio(s.tcb, s.current) by {
        RetryIsReady(s, w);
      }
    }
  }

  lemma RetryIsReady(s: State, w: Task)
    requires Arranged(s) && w in s.retry
    ensures w in s.ready
  {
  }

  /** What a take does to each part of the state. */
  lemma TakeForm(s: State, m: int)
    requires Accounted(s) && Enabled(s, Take(m))
    ensures var s' := Taken(s, m);
            && s'.ready == s.ready && s'.current == s.current && s'.mustYield == s.mustYield
            && s'.retry == s.retry - {s.current} && |s'.mutexes| == |s.mutexes|
            && (forall n :: 0 <= n < |s.mutexes| ==> s'.mutexes[n].waiting == s.mutexes[n].waiting)
            && (forall n :: 0 <= n < |s.mutexes| && n != m ==> s'.mutexes[n] == s.mutexes[n])
            && s'.mutexes[m].count == 0
            && (s'.mutexes[m].holder == if s.mutexes[m].count > 0 then Some(s.current) else s.mutexes[m].holder)
            && s'.tcb.Keys == s.tcb.Keys
            && (forall t :: t in s.tcb && t != s.current ==> s'.tcb[t] == s.tcb[t])
            && s'.tcb[s.current] == s.tcb[s.current].(held := s'.tcb[s.current].held)
  {
  }

  lemma TakeArranged(s: State, s': State, m: int)
    requires Accounted(s) && Arranged(s) && Enabled(s, Take(m)) && s' == Taken(s, m)
    ensures Arranged(s')
  {
    TakeForm(s, m);
    hide InOrder, Taken, Accounted;
    OrderFrame(s.tcb, s'.tcb, s'.mutexes);
  }

  lemma TakeOrdered(s: State, s': State, m: int)
    requires Protected(s) && Enabled(s, Take(m)) && !Jumps(s, m) && s' == Taken(s, m)
    ensures RunsHighest(s') && WokenAbove(s'.tcb, s'.mutexes, s'.retry) && HoldersAbove(s'.tcb, s'.mutexes)
  {
    TakeForm(s, m);
    if s.mutexes[m].count > 0 {
      TakerAbove(s, m);
    }
    hide Taken, Accounted, Arranged;
    assert forall t :: Prio(s'.tcb, t) == Prio(s.tcb, t);
    hide Prio;
    forall n | 0 <= n < |s'.mutexes| && s'.mutexes[n].count > 0 && s'.mutexes[n].waiting != []
      ensures exists w :: w in s'.retry && s'.retry[w] == n && Above(s'.tcb, w, s'.mutexes[n].waiting)
    {
      var w :| w in s.retry && s.retry[w] == n && Above(s.tcb, w, s.mutexes[n].waiting);
      assert w in s'.retry && Above(s'.tcb, w, s'.mutexes[n].waiting);
    }
  }

  /** Whether holders are still above their waiters after a take: exactly when it jumps no queue. */
  lemma TakeHoldersAbove(s: State, m: int)
    requires Protected(s) && Enabled(s, Take(m))
    ensures HoldersAbove(Taken(s, m).tcb, Taken(s, m).mutexes) <==> !Jumps(s, m)
  {
    if Jumps(s, m) {
      TakeForm(s, m);
      var s' := Taken(s, m);
      assert forall t :: Prio(s'.tcb, t) == Prio(s.tcb, t);
      assert !Above(s'.tcb, s.current, s'.mutexes[m].waiting);
    } else {
      TakeOrdered(s, Taken(s, m), m);
    }
  }

  lemma TakeKeeps(s: State, m: int)
    requires Protected(s) && Enabled(s, Take(m)) && Disciplined(s, Take(m))
    ensures Protected(Apply(s, Take(m)))
  {
    TakeAccounted(s, m);
    TakeArranged(s, Taken(s, m), m);
    TakeOrdered(s, Taken(s, m), m);
    hide Accounted, Arranged, Taken, RunsHighest, WokenAbove, HoldersAbove;
  }

  // ----- One task has a new priority

  /** The tcb map differs only at task h. */
  ghost predicate OnlyAt(tcb: map<Task, Tcb>, tcb': map<Task, Tcb>, h: Task, x: Tcb) {
    && tcb'.Keys == tcb.Keys && h in tcb && tcb'[h] == x
    && forall t :: t in tcb && t != h ==> tcb'[t] == tcb[t]
  }

  lemma OutOfTurnAt(tcb: map<Task, Tcb>, q: seq<Task>, t: Task, p: int, k: int)
    requires Distinct(q) && 0 <= k < |q| && q[k] == t
    ensures OutOfTurn(tcb, q, t, p) <==>
            !(forall i :: 0 <= i < |q| ==> (i < k ==> Prio(tcb, q[i]) >= p) && (k < i ==> Prio(tcb, q[i]) <= p))
  {
    DistinctIndices(q);
    hide Prio, Distinct;
    if OutOfTurn(tcb, q, t, p) {
      var i, j :| 0 <= i < |q| && 0 <= j < |q| && q[j] == t && ((i < j && Prio(tcb, q[i]) < p) || (j < i && Prio(tcb, q[i]) > p));
      assert j == k;
    } else {
      forall i | 0 <= i < |q|
        ensures (i < k ==> Prio(tcb, q[i]) >= p) && (k < i ==> Prio(tcb, q[i]) <= p)
      {
        assert q[k] == t && q[i] == q[i];
      }
    }
  }

  /** The order of one event list afterwards. */
  lemma RepricedOrder(tcb: map<Task, Tcb>, tcb': map<Task, Tcb>, q: seq<Task>, t: Task)
    requires Distinct(q) && InOrder(tcb, q) && forall u :: u != t ==> Prio(tcb', u) == Prio(tcb, u)
    ensures InOrder(tcb', q) <==> !(t in q && OutOfTurn(tcb, q, t, Prio(tcb', t)))
  {
    DistinctIndices(q);
    hide Prio, OutOfTurn, Distinct;
    if t in q {
      var k := PositionOf(q, t);
      OutOfTurnAt(tcb, q, t, Prio(tcb', t), k);
      assert forall i :: 0 <= i < |q| && i != k ==> Prio(tcb', q[i]) == Prio(tcb, q[i]);
    } else {
      assert forall i :: 0 <= i < |q| ==> Prio(tcb', q[i]) == Prio(tcb, q[i]);
    }
  }

  /** The holder of one mutex afterwards. */
  lemma RepricedHolder(s: State, tcb': map<Task, Tcb>, m: int, t: Task)
    requires IsMutex(s, m) && s.mutexes[m].holder.Some? && Above(s.tcb, s.mutexes[m].holder.value, s.mutexes[m].waiting)
    requires forall u :: u != t ==> Prio(tcb', u) == Prio(s.tcb, u)
    ensures Above(tcb', s.mutexes[m].holder.value, s.mutexes[m].waiting) &&
            !(t in s.mutexes[m].waiting && OutOfTurn(s.tcb, s.mutexes[m].waiting, t, Prio(tcb', t)))
            <==> !Upsets(s, m, t, Prio(tcb', t))
  {
    hide Prio, OutOfTurn;
  }

  /** The tasks woken for one free mutex afterwards. */
  lemma RepricedWoken(s: State, tcb': map<Task, Tcb>, m: int, t: Task, w0: Task)
    requires IsMutex(s, m) && s.mutexes[m].holder == None && forall u :: u != t ==> Prio(tcb', u) == Prio(s.tcb, u)
    requires forall w :: w in s.mutexes[m].waiting ==> w !in s.retry
    requires w0 in s.retry && s.retry[w0] == m && Above(s.tcb, w0, s.mutexes[m].waiting)
    ensures (exists w :: w in s.retry && s.retry[w] == m && Above(tcb', w, s.mutexes[m].waiting)) &&
            !(t in s.mutexes[m].waiting && OutOfTurn(s.tcb, s.mutexes[m].waiting, t, Prio(tcb', t)))
            <==> !Upsets(s, m, t, Prio(tcb', t))
  {
    var q := s.mutexes[m].waiting;
    hide Prio, OutOfTurn;
    if t in q {
      if w :| w in s.retry && s.retry[w] == m && Prio(s.tcb, w) >= Prio(tcb', t) {
        var v := if Prio(s.tcb, w0) >= Prio(tcb', t) then w0 else w;
        assert Above(tcb', v, q);
      }
    } else if w0 != t {
      assert Above(tcb', w0, q);
    } else {
      assert Above(tcb', t, q) <==> !exists v :: v in q && Prio(s.tcb, v) > Prio(tcb', t);
      assert forall w :: w != t ==> (Above(tcb', w, q) <==> Above(s.tcb, w, q));
    }
  }

  /** What the discipline is for, of one mutex. */
  ghost predicate Settled(s: State, m: int)
    requires IsMutex(s, m)
  {
    var x := s.mutexes[m];
    && InOrder(s.tcb, x.waiting)
    && (x.holder.Some? ==> Above(s.tcb, x.holder.value, x.waiting))
    && (x.count > 0 && x.waiting != [] ==> exists w :: w in s.retry && s.retry[w] == m && Above(s.tcb, w, x.waiting))
  }

  lemma SettledAll(s: State)
    ensures (forall m :: 0 <= m < |s.mutexes| ==> Settled(s, m)) <==>
            ListsInOrder(s.tcb, s.mutexes) && HoldersAbove(s.tcb, s.mutexes) && WokenAbove(s.tcb, s.mutexes, s.retry)
  {
    hide InOrder, Above;
    if ListsInOrder(s.tcb, s.mutexes) && HoldersAbove(s.tcb, s.mutexes) && WokenAbove(s.tcb, s.mutexes, s.retry) {
    } else if forall m :: 0 <= m < |s.mutexes| ==> Settled(s, m) {
      forall m | 0 <= m < |s.mutexes|
        ensures InOrder(s.tcb, s.mutexes[m].waiting)
        ensures s.mutexes[m].holder.Some? ==> Above(s.tcb, s.mutexes[m].holder.value, s.mutexes[m].waiting)
        ensures s.mutexes[m].count > 0 && s.mutexes[m].waiting != [] ==>
                  exists w :: w in s.retry && s.retry[w] == m && Above(s.tcb, w, s.mutexes[m].waiting)
      {
        assert Settled(s, m);
      }
    }
  }

  lemma RepricedSettled(s: State, s': State, m: int, t: Task)
    requires Protected(s) && s' == s.(tcb := s'.tcb, mustYield := s'.mustYield) && IsMutex(s, m) && IsMutex(s', m)
    requires forall u :: u != t ==> Prio(s'.tcb, u) == Prio(s.tcb, u)
    ensures Settled(s', m) <==> !Upsets(s, m, t, Prio(s'.tcb, t))
  {
    var x := s.mutexes[m];
    assert MutexValid(x, s.tcb);
    assert Distinct(x.waiting) && InOrder(s.tcb, x.waiting);
    assert forall w :: w in x.waiting ==> w !in s.retry;
    hide Accounted, Arranged, RunsHighest, OutOfTurn, Prio, InOrder, Distinct;
    RepricedOrder(s.tcb, s'.tcb, x.waiting, t);
    if x.holder.Some? {
      assert Above(s.tcb, x.holder.value, x.waiting);
      RepricedHolder(s, s'.tcb, m, t);
      hide Protected, Above, Upsets;
    } else if x.waiting != [] {
      var w0 :| w0 in s.retry && s.retry[w0] == m && Above(s.tcb, w0, x.waiting);
      RepricedWoken(s, s'.tcb, m, t, w0);
      hide Protected, Above, Upsets;
    }
  }

  /** A new priority of one task keeps what the discipline is for exactly if it unsettles no mutex. */
  lemma RepricedExact(s: State, s': State, t: Task)
    requires Protected(s) && s' == s.(tcb := s'.tcb, mustYield := s'.mustYield) && t in s'.tcb
    requires OnlyAt(s.tcb, s'.tcb, t, s'.tcb[t]) && Accounted(s') && ValuesMatch(s'.tcb) && RunsHighest(s')
    ensures Protected(s') <==> !Unsettles(s, t, Prio(s'.tcb, t))
  {
    forall m | 0 <= m < |s.mutexes|
      ensures Settled(s', m) <==> !Upsets(s, m, t, Prio(s'.tcb, t))
    {
      assert forall u :: u != t ==> Prio(s'.tcb, u) == Prio(s.tcb, u);
      RepricedSettled(s, s', m, t);
    }
    hide Accounted, Prio, Upsets, ValuesMatch, WaitersListed, RetriersReady, RunsHighest, Settled;
    SettledAll(s');
  }

  // ----- Wait

  lemma WaitForm(s: State, m: int)
    requires Accounted(s) && Enabled(s, Wait(m))
    ensures var s', x := Waited(s, m), s.mutexes[m];
            && x.holder.Some? && x.holder.value in s.tcb && Holds(s.mutexes, x.holder.value) >= 1
            && OnlyAt(s.tcb, s'.tcb, x.holder.value, Inherited(s.tcb[x.holder.value], Prio(s.tcb, s.current)))
            && s'.ready == s.ready - {s.current} && s'.mustYield && s'.retry == s.retry
            && s'.mutexes == s.mutexes[m := s'.mutexes[m]] && s'.mutexes[m] == x.(waiting := s'.mutexes[m].waiting)
            && s'.mutexes[m].waiting ==
               Splice(x.waiting, InsertPos(ItemValues(s'.tcb, x.waiting), Get(s'.tcb, s.current).itemValue), s.current)
            && (forall u :: u in s'.mutexes[m].waiting <==> u == s.current || u in x.waiting)
            && (Distinct(x.waiting) && s.current !in x.waiting ==> Distinct(s'.mutexes[m].waiting))
  {
    var x := s.mutexes[m];
    HoldsAtLeastOne(s.mutexes, m, x.holder.value);
    var s' := Waited(s, m);
    var k := InsertPos(ItemValues(s'.tcb, x.waiting), Get(s'.tcb, s.current).itemValue);
    SpliceMembers(x.waiting, k, s.current);
    if Distinct(x.waiting) && s.current !in x.waiting {
      InsertMembers(Ring(x.waiting, 0), k, s.current);
    }
  }

  /** The holder has inherited, and the running task has not joined the event list yet. */
  function Lent(s: State, m: int): State
    requires IsMutex(s, m)
  {
    s.(tcb := Waited(s, m).tcb, mustYield := true)
  }

  lemma LentForm(s: State, m: int)
    requires Accounted(s) && Enabled(s, Wait(m))
    ensures var s1, h := Lent(s, m), s.mutexes[m].holder;
            && h.Some? && h.value in s.tcb && s1 == s.(tcb := s1.tcb, mustYield := true) && s1.tcb == Waited(s, m).tcb
            && OnlyAt(s.tcb, s1.tcb, h.value, s1.tcb[h.value]) && Prio(s1.tcb, h.value) == LentPriority(s, m)
            && Prio(s1.tcb, h.value) >= Prio(s1.tcb, s.current)
            && (Arranged(s) ==> ValuesMatch(s1.tcb)) && Accounted(s1)
  {
    WaitForm(s, m);
    hide Waited, WaitersListed, ListsInOrder;
  }

  lemma SpliceInOrder(tcb: map<Task, Tcb>, q: seq<Task>, k: nat, c: Task)
    requires k <= |q| && c !in q && Distinct(Splice(q, k, c))
    ensures InOrder(tcb, Splice(q, k, c)) <==> InOrder(tcb, q) && !OutOfTurn(tcb, Splice(q, k, c), c, Prio(tcb, c))
  {
    hide OutOfTurn, InOrder, Distinct, Prio;
    JoinedInOrder(tcb, q, Splice(q, k, c), k, c);
  }

  lemma JoinedInOrder(tcb: map<Task, Tcb>, q: seq<Task>, r: seq<Task>, k: nat, c: Task)
    requires Distinct(r) && k <= |q| && |r| == |q| + 1 && r[k] == c
    requires forall i :: 0 <= i < |q| ==> q[i] == r[if i < k then i else i + 1]
    ensures InOrder(tcb, r) <==> InOrder(tcb, q) && !OutOfTurn(tcb, r, c, Prio(tcb, c))
  {
    hide OutOfTurn, InOrder, Distinct, Prio, Descending;
    OutOfTurnAt(tcb, r, c, Prio(tcb, c), k);
    var v, w := Priorities(tcb, q), Priorities(tcb, r);
    hide Priorities;
    DescendingPriorities(tcb, q);
    DescendingPriorities(tcb, r);
    InsertDescending(v, w, k);
  }

  lemma DescendingPriorities(tcb: map<Task, Tcb>, q: seq<Task>)
    ensures InOrder(tcb, q) <==> Descending(Priorities(tcb, q))
  {
    hide Prio;
    var v := Priorities(tcb, q);
    hide Priorities;
    if InOrder(tcb, q) {
      forall i, j | 0 <= i < j < |v|
        ensures v[i] >= v[j]
      {
        assert Prio(tcb, q[i]) >= Prio(tcb, q[j]);
      }
    } else {
      var i, j :| 0 <= i < j < |q| && Prio(tcb, q[i]) < Prio(tcb, q[j]);
      assert v[i] < v[j];
    }
  }

  function Priorities(tcb: map<Task, Tcb>, q: seq<Task>): (v: seq<int>)
    ensures |v| == |q| && forall i :: 0 <= i < |q| ==> v[i] == Prio(tcb, q[i])
  {
    seq(|q|, i requires 0 <= i < |q| => Prio(tcb, q[i]))
  }

  ghost predicate Descending(v: seq<int>) {
    forall i, j :: 0 <= i < j < |v| ==> v[i] >= v[j]
  }

  lemma InsertDescending(v: seq<int>, w: seq<int>, k: nat)
    requires |w| == |v| + 1 && k <= |v| && forall i :: 0 <= i < |v| ==> v[i] == w[if i < k then i else i + 1]
    ensures Descending(w) <==> Descending(v) && forall i :: 0 <= i < |w| ==> (i < k ==> w[i] >= w[k]) && (k < i ==> w[i] <= w[k])
  {
    if Descending(w) {
      forall i, j | 0 <= i < j < |v|
        ensures v[i] >= v[j]
      {
        assert w[if i < k then i else i + 1] >= w[if j < k then j else j + 1];
      }
    } else {
      var i, j :| 0 <= i < j < |w| && w[i] < w[j];
      if i != k && j != k {
        assert w[i] == v[if i < k then i else i - 1] && w[j] == v[if j < k then j else j - 1];
      }
    }
  }

  /** What joining the event list changes, once the holder has inherited. */
  lemma JoinForm(s: State, m: int)
    requires Protected(s) && Enabled(s, Wait(m))
    ensures var s1, s' := Lent(s, m), Waited(s, m);
            && s'.tcb == s1.tcb && s'.retry == s1.retry && s'.mustYield && s1.mustYield && s'.ready == s.ready - {s.current}
            && s'.mutexes == s.mutexes[m := s'.mutexes[m]] && s'.mutexes[m] == s.mutexes[m].(waiting := s'.mutexes[m].waiting)
            && (forall u :: u in s'.mutexes[m].waiting <==> u == s.current || u in s.mutexes[m].waiting)
            && s.current !in s.retry && s.mutexes[m].count == 0
            && (forall n :: 0 <= n < |s.mutexes| ==> s.current !in s.mutexes[n].waiting)
            && Distinct(s'.mutexes[m].waiting)
            && (InOrder(s'.tcb, s'.mutexes[m].waiting) <==> InOrder(s1.tcb, s.mutexes[m].waiting) && !Misfiled(s, m))
  {
    WaitForm(s, m);
    var s', q := Waited(s, m), s.mutexes[m].waiting;
    var k := InsertPos(ItemValues(s'.tcb, q), Get(s'.tcb, s.current).itemValue);
    assert s.current !in q;
    assert s'.mutexes[m].waiting == Splice(q, k, s.current);
    assert Misfiled(s, m) <==> OutOfTurn(s'.tcb, Splice(q, k, s.current), s.current, Prio(s'.tcb, s.current));
    hide Waited, Accounted, ListsInOrder, InOrder, OutOfTurn, Misfiled, ItemValues, InsertPos, Prio, WokenAbove, HoldersAbove;
    SpliceInOrder(s'.tcb, q, k, s.current);
  }

  lemma JoinArranged(s: State, m: int)
    requires Protected(s) && Enabled(s, Wait(m))
    ensures var s' := Waited(s, m);
            WaitersListed(s'.mutexes, s'.ready, s'.retry) && RetriersReady(s'.ready, s'.retry) && RunsHighest(s')
  {
    JoinForm(s, m);
    var s' := Waited(s, m);
    assert WaitersListed(s.mutexes, s.ready, s.retry) && RetriersReady(s.ready, s.retry) && s.current in s.ready;
    hide Waited, Lent, InOrder, Misfiled, Distinct, Protected, Enabled, Accounted, WaitersListed;
    JoinListed(s.mutexes, s'.mutexes, m, s.current, s.ready, s.retry);
  }

  lemma JoinListed(ms: seq<Mutex>, ms': seq<Mutex>, m: int, c: Task, ready: set<Task>, retry: map<Task, int>)
    requires WaitersListed(ms, ready, retry) && c in ready && c !in retry && 0 <= m < |ms| == |ms'| && ms' == ms[m := ms'[m]]
    requires (forall u :: u in ms'[m].waiting <==> u == c || u in ms[m].waiting) && Distinct(ms'[m].waiting)
    ensures WaitersListed(ms', ready - {c}, retry)
  {
    hide Distinct;
    forall n | 0 <= n < |ms|
      ensures forall u :: u in ms'[n].waiting <==> u in ms[n].waiting || (n == m && u == c)
      ensures Distinct(ms'[n].waiting)
    {
      assert n != m ==> ms'[n] == ms[n];
    }
  }

  /** Before and after joining, mutex by mutex. */
  lemma JoinHolders(s: State, m: int)
    requires Protected(s) && Enabled(s, Wait(m))
    ensures var s1, s' := Lent(s, m), Waited(s, m);
            HoldersAbove(s'.tcb, s'.mutexes) <==> HoldersAbove(s1.tcb, s.mutexes)
  {
    JoinForm(s, m);
    LentForm(s, m);
    var s1, s', h := Lent(s, m), Waited(s, m), s.mutexes[m].holder.value;
    hide Waited, Lent, Accounted, Arranged, InOrder, Misfiled, Prio, RunsHighest, WokenAbove, LentPriority, Distinct, Protected;
    assert Above(s'.tcb, h, s'.mutexes[m].waiting) <==> Above(s1.tcb, h, s.mutexes[m].waiting);
    hide Above;
    HoldersExcept(s'.tcb, s.mutexes, s'.mutexes, m);
  }

  lemma HoldersExcept(tcb: map<Task, Tcb>, ms: seq<Mutex>, ms': seq<Mutex>, m: int)
    requires 0 <= m < |ms| == |ms'| && ms' == ms[m := ms'[m]] && ms[m].holder.Some? && ms'[m].holder == ms[m].holder
    requires Above(tcb, ms[m].holder.value, ms'[m].waiting) <==> Above(tcb, ms[m].holder.value, ms[m].waiting)
    ensures HoldersAbove(tcb, ms') <==> HoldersAbove(tcb, ms)
  {
    hide Above;
    assert forall n :: 0 <= n < |ms| && n != m ==> ms'[n] == ms[n];
  }

  lemma JoinWoken(s: State, m: int)
    requires Protected(s) && Enabled(s, Wait(m))
    ensures var s1, s' := Lent(s, m), Waited(s, m);
            WokenAbove(s'.tcb, s'.mutexes, s'.retry) <==> WokenAbove(s1.tcb, s.mutexes, s.retry)
  {
    JoinForm(s, m);
    var s1, s' := Lent(s, m), Waited(s, m);
    assert s1.retry == s.retry;
    hide Waited, Lent, Accounted, Arranged, InOrder, Misfiled, Prio, RunsHighest, HoldersAbove, Distinct, Above;
    assert forall n :: 0 <= n < |s.mutexes| && n != m ==> s'.mutexes[n] == s.mutexes[n];
    assert s'.mutexes[m].count == s.mutexes[m].count == 0;
    hide Protected;
  }

  lemma JoinInOrder(s: State, m: int)
    requires Protected(s) && Enabled(s, Wait(m))
    ensures var s1, s' := Lent(s, m), Waited(s, m);
            ListsInOrder(s'.tcb, s'.mutexes) <==> ListsInOrder(s1.tcb, s.mutexes) && !Misfiled(s, m)
  {
    JoinForm(s, m);
    var s1, s' := Lent(s, m), Waited(s, m);
    hide Waited, Lent, Accounted, Arranged, InOrder, Misfiled, Prio, RunsHighest, HoldersAbove, WokenAbove, Distinct, Protected;
    assert forall n :: 0 <= n < |s.mutexes| && n != m ==> s'.mutexes[n] == s.mutexes[n];
  }

  /** A wait keeps what the discipline is for exactly if it overburdens no holder and is not misfiled. */
  lemma WaitExact(s: State, m: int)
    requires Protected(s) && Enabled(s, Wait(m))
    ensures Protected(Apply(s, Wait(m))) <==> !Overburdens(s, m) && !Misfiled(s, m)
  {
    WaitAccounted(s, m);
    LentForm(s, m);
    JoinArranged(s, m);
    JoinHolders(s, m);
    JoinWoken(s, m);
    JoinInOrder(s, m);
    var s1 := Lent(s, m);
    assert s1.retry == s.retry && s1.ready == s.ready && s1.mutexes == s.mutexes && RunsHighest(s1);
    hide Waited, Lent, Accounted, WaitersListed, RetriersReady, ListsInOrder, ValuesMatch, WokenAbove, HoldersAbove, RunsHighest,
         Misfiled, Unsettles, LentPriority;
    RepricedExact(s, s1, s.mutexes[m].holder.value);
  }

  /** The holder of m, which the running task is about to wait for, waits itself, for a lower task. */
  predicate NotLentOn(s: State, m: int) {
    && IsMutex(s, m) && s.mutexes[m].holder.Some?
    && exists n :: 0 <= n < |s.mutexes| && s.mutexes[m].holder.value in s.mutexes[n].waiting && s.mutexes[n].holder.Some?
                   && s.mutexes[n].holder != s.mutexes[m].holder && Prio(s.tcb, s.mutexes[n].holder.value) < Prio(s.tcb, s.current)
  }

  /**
  Whether holders are still above their waiters after a wait: exactly when the holder does not
  wait itself for a task that is lower than the running one.
  */
  lemma WaitHoldersAbove(s: State, m: int)
    requires Protected(s) && Enabled(s, Wait(m))
    ensures HoldersAbove(Waited(s, m).tcb, Waited(s, m).mutexes) <==> !NotLentOn(s, m)
  {
    JoinHolders(s, m);
    LentForm(s, m);
    var s1, h := Lent(s, m), s.mutexes[m].holder.value;
    assert LentPriority(s, m) == if Prio(s.tcb, h) < Prio(s.tcb, s.current) then Prio(s.tcb, s.current) else Prio(s.tcb, h);
    hide Waited, Lent, Accounted, WokenAbove, RunsHighest, Misfiled, Arranged, LentPriority;
    assert forall t :: t != h ==> Prio(s1.tcb, t) == Prio(s.tcb, t);
    hide Prio;
    LentHoldersAbove(s, s1.tcb, m);
  }

  lemma LentHoldersAbove(s: State, tcb': map<Task, Tcb>, m: int)
    requires IsMutex(s, m) && s.mutexes[m].holder.Some? && HoldersAbove(s.tcb, s.mutexes)
    requires forall t :: t != s.mutexes[m].holder.value ==> Prio(tcb', t) == Prio(s.tcb, t)
    requires var h := s.mutexes[m].holder.value;
             Prio(tcb', h) == if Prio(s.tcb, h) < Prio(s.tcb, s.current) then Prio(s.tcb, s.current) else Prio(s.tcb, h)
    ensures HoldersAbove(tcb', s.mutexes) <==> !NotLentOn(s, m)
  {
    hide Prio;
    var h := s.mutexes[m].holder.value;
    if NotLentOn(s, m) {
      var n :| 0 <= n < |s.mutexes| && h in s.mutexes[n].waiting && s.mutexes[n].holder.Some?
               && s.mutexes[n].holder != Some(h) && Prio(s.tcb, s.mutexes[n].holder.value) < Prio(s.tcb, s.current);
      assert !Above(tcb', s.mutexes[n].holder.value, s.mutexes[n].waiting);
    } else {
      forall n | 0 <= n < |s.mutexes| && s.mutexes[n].holder.Some?
        ensures Above(tcb', s.mutexes[n].holder.value, s.mutexes[n].waiting)
      {
        assert Above(s.tcb, s.mutexes[n].holder.value, s.mutexes[n].waiting);
      }
    }
  }

  // ----- Give

  /** The give that returns the mutex, rather than one of several recursive calls. */
  predicate Returns(s: State, m: int) {
    IsMutex(s, m) && s.mutexes[m].holder == Some(s.current) && !(s.mutexes[m].recursive && s.mutexes[m].calls > 1)
  }

  lemma GiveForm(s: State, m: int)
    requires Accounted(s) && Enabled(s, Give(m)) && Returns(s, m)
    ensures var s', x, c := Given(s, m), s.mutexes[m], s.current;
            && c in s.tcb && OnlyAt(s.tcb, s'.tcb, c, Disinherited(s.tcb[c])) && s'.current == c
            && s'.mutexes == s.mutexes[m := s'.mutexes[m]]
            && s'.mutexes[m].holder == None && s'.mutexes[m].count == 1
            && s'.mutexes[m].waiting == (if x.waiting == [] then [] else x.waiting[1..])
            && s'.ready == (if x.waiting == [] then s.ready else s.ready + {x.waiting[0]})
            && s'.retry == (if x.waiting == [] then s.retry else s.retry[x.waiting[0] := m])
            && (s'.mustYield <==> s.mustYield || if x.waiting == [] then Drops(s.tcb[c])
                                                 else Prio(s'.tcb, x.waiting[0]) > Prio(s'.tcb, c))
            && (Drops(s.tcb[c]) ==> forall n :: 0 <= n < |s.mutexes| && s.mutexes[n].holder == Some(c) ==> n == m)
            && (forall w :: w in s'.mutexes[m].waiting ==> w in x.waiting)
  {
    HoldsAtLeastOne(s.mutexes, m, s.current);
  }

  lemma GiveInOrder(s: State, s': State, m: int)
    requires Accounted(s) && Arranged(s) && Enabled(s, Give(m)) && Returns(s, m) && s' == Given(s, m)
    ensures ListsInOrder(s'.tcb, s'.mutexes)
  {
    GiveForm(s, m);
    hide Given, Accounted, Disinherited;
    assert forall n :: 0 <= n < |s.mutexes| ==> InOrder(s.tcb, s.mutexes[n].waiting);
    assert forall n :: 0 <= n < |s.mutexes| && n != m ==> s'.mutexes[n] == s.mutexes[n];
    assert InOrder(s.tcb, s'.mutexes[m].waiting);
    assert ListsInOrder(s.tcb, s'.mutexes);
    hide InOrder;
    OrderFrame(s.tcb, s'.tcb, s'.mutexes);
  }

  lemma GiveListed(s: State, s': State, m: int)
    requires Accounted(s) && Arranged(s) && Enabled(s, Give(m)) && Returns(s, m) && s' == Given(s, m)
    ensures WaitersListed(s'.mutexes, s'.ready, s'.retry)
  {
    hide ListsInOrder, ValuesMatch, RetriersReady, Given, MutexesValid, Disinherited, Prio;
    GiveForm(s, m);
    var q := s.mutexes[m].waiting;
    if q != [] {
      var w := q[0];
      assert w in q;
    }
  }

  lemma GiveArranged(s: State, s': State, m: int)
    requires Accounted(s) && Arranged(s) && Enabled(s, Give(m)) && Returns(s, m) && s' == Given(s, m)
    ensures Arranged(s')
  {
    GiveInOrder(s, s', m);
    GiveListed(s, s', m);
    hide ListsInOrder, Given, Accounted;
    GiveForm(s, m);
    var q := s.mutexes[m].waiting;
    if q != [] {
      var w := q[0];
      assert w in q;
    }
    hide WaitersListed;
  }

  /**
  Whether the running task is still one of highest priority, or asked for a context switch,
  after it gave a mutex back: exactly when the give does not undercut.
  */
  lemma GiveRunsHighest(s: State, m: int)
    requires Accounted(s) && Arranged(s) && RunsHighest(s) && Enabled(s, Give(m)) && Returns(s, m)
    ensures RunsHighest(Given(s, m)) <==> !Undercut(s, m)
  {
    GiveForm(s, m);
    var s', x, c := Given(s, m), s.mutexes[m], s.current;
    if x.waiting != [] {
      var w := x.waiting[0];
      assert w in x.waiting;
      assert w != c && Prio(s'.tcb, w) == Prio(s.tcb, w);
    }
    hide Given, Arranged, MutexesValid;
    assert forall t :: t != c ==> Prio(s'.tcb, t) == Prio(s.tcb, t);
    if Undercut(s, m) {
      var u :| u in s.ready && u != c && Prio(s.tcb, u) > s.tcb[c].base;
      assert u in s'.ready && Prio(s'.tcb, u) > Prio(s'.tcb, c);
    }
  }

  /** What a give leaves alone, and whom it wakes. */
  lemma GiveFacts(s: State, s': State, m: int)
    requires Protected(s) && Enabled(s, Give(m)) && Returns(s, m) && s' == Given(s, m)
    ensures var c, q := s.current, s.mutexes[m].waiting;
            && c in s.tcb && c !in s.retry && (forall t :: t != c ==> Prio(s'.tcb, t) == Prio(s.tcb, t))
            && (!Drops(s.tcb[c]) ==> Prio(s'.tcb, c) == Prio(s.tcb, c))
            && (Drops(s.tcb[c]) ==> forall n :: 0 <= n < |s.mutexes| && s.mutexes[n].holder == Some(c) ==> n == m)
            && s'.mutexes == s.mutexes[m := s'.mutexes[m]] && s'.mutexes[m].holder == None && s'.mutexes[m].count == 1
            && s'.mutexes[m].waiting == (if q == [] then [] else q[1..])
            && s'.retry == (if q == [] then s.retry else s.retry[q[0] := m])
            && (q != [] ==> q[0] != c && q[0] !in s.retry && Above(s.tcb, q[0], q))
            && forall n, w {:trigger w in s.mutexes[n].waiting} :: 0 <= n < |s.mutexes| && w in s.mutexes[n].waiting ==> w != c
  {
    GiveForm(s, m);
    var c, q := s.current, s.mutexes[m].waiting;
    assert c !in s.retry;
    if q != [] {
      var h := q[0];
      assert h in q;
      HeadAbove(s.tcb, q);
    }
    hide Given, Accounted, RunsHighest, InOrder, WokenAbove, HoldersAbove, ValuesMatch;
  }

  lemma GiveHoldersAbove(s: State, s': State, m: int)
    requires Protected(s) && Enabled(s, Give(m)) && Returns(s, m) && s' == Given(s, m)
    ensures HoldersAbove(s'.tcb, s'.mutexes)
  {
    GiveFacts(s, s', m);
    hide Given, Accounted, Arranged, RunsHighest, WokenAbove, Prio, Drops, Enabled, Returns;
    forall n | 0 <= n < |s'.mutexes| && s'.mutexes[n].holder.Some?
      ensures Above(s'.tcb, s'.mutexes[n].holder.value, s'.mutexes[n].waiting)
    {
      assert n != m && s'.mutexes[n] == s.mutexes[n];
      assert Above(s.tcb, s.mutexes[n].holder.value, s.mutexes[n].waiting);
    }
  }

  lemma GiveWokenAbove(s: State, s': State, m: int)
    requires Protected(s) && Enabled(s, Give(m)) && Returns(s, m) && s' == Given(s, m)
    ensures WokenAbove(s'.tcb, s'.mutexes, s'.retry)
  {
    GiveFacts(s, s', m);
    var c, q := s.current, s.mutexes[m].waiting;
    hide Given, Accounted, Arranged, RunsHighest, HoldersAbove, Prio, Drops, Enabled, Returns;
    forall n | 0 <= n < |s'.mutexes| && s'.mutexes[n].count > 0 && s'.mutexes[n].waiting != []
      ensures exists w :: w in s'.retry && s'.retry[w] == n && Above(s'.tcb, w, s'.mutexes[n].waiting)
    {
      if n == m {
        assert q[0] in s'.retry && Above(s'.tcb, q[0], s'.mutexes[n].waiting);
      } else {
        var w :| w in s.retry && s.retry[w] == n && Above(s.tcb, w, s.mutexes[n].waiting);
        assert w in s'.retry && s'.retry[w] == n && Above(s'.tcb, w, s'.mutexes[n].waiting);
      }
    }
  }

  /** A give that only counts down, or that fails, leaves all that matters alone. */
  lemma GiveNothing(s: State, m: int)
    requires Protected(s) && Enabled(s, Give(m)) && !Returns(s, m)
    ensures Protected(Given(s, m))
  {
    GiveAccounted(s, m);
    var s' := Given(s, m);
    assert s'.mutexes == s.mutexes || s'.mutexes == s.mutexes[m := s.mutexes[m].(calls := s.mutexes[m].calls - 1)];
    assert forall n :: 0 <= n < |s.mutexes| ==>
      s'.mutexes[n].waiting == s.mutexes[n].waiting && s'.mutexes[n].holder == s.mutexes[n].holder
      && s'.mutexes[n].count == s.mutexes[n].count;
    hide Accounted, InOrder, Given;
  }

  lemma GiveKeeps(s: State, m: int)
    requires Protected(s) && Enabled(s, Give(m)) && Disciplined(s, Give(m))
    ensures Protected(Apply(s, Give(m)))
  {
    hide Accounted, Arranged, Given, RunsHighest, WokenAbove, HoldersAbove;
    if Returns(s, m) {
      GiveAccounted(s, m);
      GiveArranged(s, Given(s, m), m);
      GiveRunsHighest(s, m);
      GiveHoldersAbove(s, Given(s, m), m);
      GiveWokenAbove(s, Given(s, m), m);
    } else {
      GiveNothing(s, m);
    }
  }

  // ----- Waiters that leave, and the rest

  lemma DroppedInOrder(tcb: map<Task, Tcb>, q: seq<Task>, t: Task)
    requires InOrder(tcb, q)
    ensures InOrder(tcb, Dropped(q, t))
  {
    if t in q {
      var k := PositionOf(q, t);
      hide InOrder, Prio;
      LeftAt(q, k);
      LeftInOrder(tcb, q, q[..k] + q[k + 1..], k);
    }
  }

  lemma LeftAt(q: seq<Task>, k: nat)
    requires k < |q|
    ensures var r := q[..k] + q[k + 1..]; forall i :: 0 <= i < |r| ==> r[i] == q[if i < k then i else i + 1]
  {
  }

  lemma LeftInOrder(tcb: map<Task, Tcb>, q: seq<Task>, r: seq<Task>, k: nat)
    requires InOrder(tcb, q) && |r| == |q| - 1 && forall i :: 0 <= i < |r| ==> r[i] == q[if i < k then i else i + 1]
    ensures InOrder(tcb, r)
  {
    hide Prio;
    forall i, j | 0 <= i < j < |r|
      ensures Prio(tcb, r[i]) >= Prio(tcb, r[j])
    {
      assert Prio(tcb, q[if i < k then i else i + 1]) >= Prio(tcb, q[if j < k then j else j + 1]);
    }
  }

  lemma TimedOutForm(s: State, t: Task, m: int)
    requires Accounted(s) && Arranged(s) && Enabled(s, TimedOut(t, m))
    ensures var s' := Apply(s, TimedOut(t, m));
            && s' == s.(mutexes := s.mutexes[m := s'.mutexes[m]], ready := s.ready + {t}, mustYield := s'.mustYield)
            && s'.mutexes[m] == s.mutexes[m].(waiting := s'.mutexes[m].waiting)
            && (s'.mustYield <==> s.mustYield || Prio(s.tcb, t) > Prio(s.tcb, s.current))
            && Distinct(s'.mutexes[m].waiting) && InOrder(s.tcb, s'.mutexes[m].waiting)
            && (forall u :: u in s'.mutexes[m].waiting <==> u in s.mutexes[m].waiting && u != t)
  {
    DroppedMembers(s.mutexes[m].waiting, t);
    DroppedInOrder(s.tcb, s.mutexes[m].waiting, t);
  }

  lemma TimedOutArranged(s: State, s': State, t: Task, m: int)
    requires Accounted(s) && Arranged(s) && Enabled(s, TimedOut(t, m)) && s' == Apply(s, TimedOut(t, m))
    ensures Arranged(s')
  {
    TimedOutForm(s, t, m);
    hide Accounted, InOrder, Apply, ValuesMatch, Prio, Distinct;
    assert forall n :: 0 <= n < |s.mutexes| && n != m ==> s'.mutexes[n] == s.mutexes[n];
    assert ListsInOrder(s'.tcb, s'.mutexes);
    hide ListsInOrder;
  }

  lemma TimedOutOrdered(s: State, s': State, t: Task, m: int)
    requires Protected(s) && Enabled(s, TimedOut(t, m)) && s' == Apply(s, TimedOut(t, m))
    ensures RunsHighest(s') && WokenAbove(s'.tcb, s'.mutexes, s'.retry) && HoldersAbove(s'.tcb, s'.mutexes)
  {
    TimedOutForm(s, t, m);
    hide Accounted, Arranged, Apply, Prio;
    forall n | 0 <= n < |s'.mutexes| && s'.mutexes[n].count > 0 && s'.mutexes[n].waiting != []
      ensures exists w :: w in s'.retry && s'.retry[w] == n && Above(s'.tcb, w, s'.mutexes[n].waiting)
    {
      var x := s'.mutexes[n].waiting[0];
      assert x in s'.mutexes[n].waiting && x in s.mutexes[n].waiting;
      var w :| w in s.retry && s.retry[w] == n && Above(s.tcb, w, s.mutexes[n].waiting);
      assert w in s'.retry && Above(s'.tcb, w, s'.mutexes[n].waiting);
    }
  }

  lemma TimedOutKeeps(s: State, t: Task, m: int)
    requires Protected(s) && Enabled(s, TimedOut(t, m))
    ensures Protected(Apply(s, TimedOut(t, m)))
  {
    hide Accounted, Arranged, RunsHighest, WokenAbove, HoldersAbove;
    TimedOutAccounted(s, t, m);
    TimedOutArranged(s, Apply(s, TimedOut(t, m)), t, m);
    TimedOutOrdered(s, Apply(s, TimedOut(t, m)), t, m);
  }

  /**
  The holder of one mutex falls back to what its waiters still need, never higher than before: to
  what the item of the first of them shows.
  */
  lemma AfterTimeoutForm(s: State, m: int)
    requires Protected(s) && Enabled(s, AfterTimeout(m)) && s.mutexes[m].holder.Some?
    ensures var s', h, q := Apply(s, AfterTimeout(m)), s.mutexes[m].holder.value, s.mutexes[m].waiting;
            && h in s.tcb && OnlyAt(s.tcb, s'.tcb, h, s'.tcb[h]) && s' == s.(tcb := s'.tcb)
            && s'.tcb[h].held == s.tcb[h].held >= 1 && ValuesMatch(s'.tcb)
            && Prio(s'.tcb, h) == DisinheritedAfterTimeout(Get(s.tcb, h), HighestWaiting(s.tcb, s.mutexes[m])).priority
            && Prio(s'.tcb, h) <= Prio(s.tcb, h)
            && (q != [] && HighestWaiting(s.tcb, s.mutexes[m]) == Prio(s.tcb, q[0]) ==> Above(s'.tcb, h, q))
            && (Prio(s'.tcb, h) != Prio(s.tcb, h) ==>
                  forall n :: 0 <= n < |s.mutexes| && s.mutexes[n].holder == Some(h) ==> n == m)
  {
    var h, q := s.mutexes[m].holder.value, s.mutexes[m].waiting;
    HoldsAtLeastOne(s.mutexes, m, h);
    var s' := Apply(s, AfterTimeout(m));
    if q != [] {
      HeadAbove(s.tcb, q);
      var w := q[0];
      assert w in q && w in s.tcb && Prio(s.tcb, w) <= Prio(s.tcb, h);
    }
    hide InOrder, WokenAbove, RunsHighest, WaitersListed;
    assert Above(s.tcb, h, q);
  }

  lemma AfterTimeoutRunsHighest(s: State, s': State, m: int)
    requires Protected(s) && Enabled(s, AfterTimeout(m)) && s.mutexes[m].holder.Some? && s' == Apply(s, AfterTimeout(m))
    ensures RunsHighest(s')
  {
    AfterTimeoutForm(s, m);
    hide Apply, Accounted, Arranged, WokenAbove, HoldersAbove;
  }

  /** What a task that timed out does keeps what the discipline is for exactly if it lets no holder down. */
  lemma AfterTimeoutExact(s: State, m: int)
    requires Protected(s) && Enabled(s, AfterTimeout(m))
    ensures Protected(Apply(s, AfterTimeout(m))) <==> !LetsDown(s, m)
  {
    if s.mutexes[m].holder.Some? {
      var s' := Apply(s, AfterTimeout(m));
      AfterTimeoutAccounted(s, m);
      AfterTimeoutForm(s, m);
      AfterTimeoutRunsHighest(s, s', m);
      hide Accounted, Arranged, RunsHighest, WokenAbove, HoldersAbove, Apply, Protected, Unsettles;
      RepricedExact(s, s', s.mutexes[m].holder.value);
    } else {
      assert Apply(s, AfterTimeout(m)) == s;
    }
  }

  lemma RemovedForm(s: State, t: Task, m: int)
    requires Arranged(s) && 0 <= m < |s.mutexes|
    ensures var x' := Removed(s, t).mutexes[m];
            && x' == s.mutexes[m].(waiting := x'.waiting)
            && Distinct(x'.waiting) && InOrder(s.tcb, x'.waiting)
            && (forall u :: u in x'.waiting <==> u in s.mutexes[m].waiting && u != t)
            && (t !in s.mutexes[m].waiting ==> x'.waiting == s.mutexes[m].waiting)
  {
    DroppedMembers(s.mutexes[m].waiting, t);
    DroppedInOrder(s.tcb, s.mutexes[m].waiting, t);
  }

  lemma RemovedArranged(s: State, s': State, t: Task)
    requires Accounted(s) && Arranged(s) && s' == Removed(s, t)
    ensures Arranged(s')
  {
    forall m | 0 <= m < |s.mutexes|
      ensures s'.mutexes[m] == s.mutexes[m].(waiting := s'.mutexes[m].waiting)
      ensures Distinct(s'.mutexes[m].waiting) && InOrder(s.tcb, s'.mutexes[m].waiting)
      ensures forall u :: u in s'.mutexes[m].waiting <==> u in s.mutexes[m].waiting && u != t
    {
      RemovedForm(s, t, m);
    }
    hide Accounted, InOrder, WithoutWaiter, ValuesMatch;
  }

  /**
  Whether each free mutex with waiters still has a woken task above them, after a suspension or
  deletion: exactly when that robs no mutex.
  */
  lemma RemovedWokenAbove(s: State, t: Task)
    requires Protected(s)
    ensures var s' := Removed(s, t); WokenAbove(s'.tcb, s'.mutexes, s'.retry) <==> !Robs(s, t)
  {
    var s' := Removed(s, t);
    forall m | 0 <= m < |s.mutexes|
      ensures s'.mutexes[m] == s.mutexes[m].(waiting := s'.mutexes[m].waiting)
      ensures forall u :: u in s'.mutexes[m].waiting <==> u in s.mutexes[m].waiting && u != t
      ensures t in s.retry ==> s'.mutexes[m].waiting == s.mutexes[m].waiting
    {
      RemovedForm(s, t, m);
    }
    hide Accounted, Arranged, WithoutWaiter, HoldersAbove, RunsHighest, Prio;
    if !Robs(s, t) {
      forall n | 0 <= n < |s'.mutexes| && s'.mutexes[n].count > 0 && s'.mutexes[n].waiting != []
        ensures exists w :: w in s'.retry && s'.retry[w] == n && Above(s'.tcb, w, s'.mutexes[n].waiting)
      {
        var x := s'.mutexes[n].waiting[0];
        assert x in s'.mutexes[n].waiting && x in s.mutexes[n].waiting;
        var w :| w in s.retry && s.retry[w] == n && Above(s.tcb, w, s.mutexes[n].waiting);
        if w == t {
          var v :| v in s.retry && s.retry[v] == n && v != t && Above(s.tcb, v, s.mutexes[n].waiting);
          assert v in s'.retry && Above(s'.tcb, v, s'.mutexes[n].waiting);
        } else {
          assert w in s'.retry && Above(s'.tcb, w, s'.mutexes[n].waiting);
        }
      }
    }
  }

  lemma RemovedOrdered(s: State, s': State, t: Task)
    requires Protected(s) && s' == Removed(s, t)
    ensures RunsHighest(s') && HoldersAbove(s'.tcb, s'.mutexes)
  {
    forall m | 0 <= m < |s.mutexes|
      ensures s'.mutexes[m] == s.mutexes[m].(waiting := s'.mutexes[m].waiting)
      ensures forall u :: u in s'.mutexes[m].waiting <==> u in s.mutexes[m].waiting && u != t
    {
      RemovedForm(s, t, m);
    }
    hide Accounted, Arranged, WithoutWaiter, WokenAbove, Prio;
  }

  lemma RemovedKeeps(s: State, t: Task)
    requires Protected(s) && !Robs(s, t)
    ensures Protected(Removed(s, t))
  {
    RemovedAccounted(s, t);
    RemovedArranged(s, Removed(s, t), t);
    RemovedWokenAbove(s, t);
    RemovedOrdered(s, Removed(s, t), t);
    hide Accounted, Arranged, Removed, RunsHighest, WokenAbove, HoldersAbove;
  }

  /** Context switches, and waiting for something other than a mutex. */
  lemma OtherKeeps(s: State, step: Step)
    requires Protected(s) && Enabled(s, step) && (step.SwitchTo? || step.Block? || step.Unblock?)
    ensures Protected(Apply(s, step))
  {
    StepAccounted(s, step);
    hide Accounted, ListsInOrder, WokenAbove, HoldersAbove;
  }

  lemma SuspendKeeps(s: State, t: Task)
    requires Protected(s) && !Robs(s, t)
    ensures Protected(Apply(s, Suspend(t))) && Protected(Apply(s, Delete(t)))
  {
    hide Protected, Removed;
    RemovedKeeps(s, t);
  }

  // ----- Priorities set by hand

  lemma SetForm(s: State, t: Task, p: int)
    requires Accounted(s) && Enabled(s, SetPriority(t, p))
    ensures var s' := Apply(s, SetPriority(t, p));
            && OnlyAt(s.tcb, s'.tcb, t, PrioritySet(s.tcb[t], p)) && s' == s.(tcb := s'.tcb, mustYield := s'.mustYield)
            && Prio(s'.tcb, t) == PrioritySet(Get(s.tcb, t), p).priority
            && (ValuesMatch(s.tcb) ==> ValuesMatch(s'.tcb))
  {
  }

  lemma SetRunsHighest(s: State, t: Task, p: int)
    requires Protected(s) && Enabled(s, SetPriority(t, p))
    ensures RunsHighest(Apply(s, SetPriority(t, p)))
  {
    hide Arranged, WokenAbove, HoldersAbove, MutexesValid;
  }

  /** Setting a priority by hand keeps what the discipline is for exactly if it unsettles no mutex. */
  lemma SetPriorityExact(s: State, t: Task, p: int)
    requires Protected(s) && Enabled(s, SetPriority(t, p))
    ensures Protected(Apply(s, SetPriority(t, p))) <==> !Unsettles(s, t, PrioritySet(Get(s.tcb, t), p).priority)
  {
    StepAccounted(s, SetPriority(t, p));
    SetRunsHighest(s, t, p);
    SetForm(s, t, p);
    hide Accounted, RunsHighest, WokenAbove, HoldersAbove, Apply, Unsettles, ListsInOrder, WaitersListed, RetriersReady, ValuesMatch;
    RepricedExact(s, Apply(s, SetPriority(t, p)), t);
  }

  lemma StepKeeps(s: State, step: Step)
    requires Protected(s) && Enabled(s, step) && Disciplined(s, step)
    ensures Protected(Apply(s, step))
  {
    hide Protected, Apply;
    match step
    case Take(m) => TakeKeeps(s, m);
    case Wait(m) => WaitExact(s, m);
    case Give(m) => GiveKeeps(s, m);
    case TimedOut(t, m) => TimedOutKeeps(s, t, m);
    case AfterTimeout(m) => AfterTimeoutExact(s, m);
    case SetPriority(t, p) => SetPriorityExact(s, t, p);
    case Suspend(t) => SuspendKeeps(s, t);
    case Delete(t) => SuspendKeeps(s, t);
    case _ => OtherKeeps(s, step);
  }

  predicate DisciplinedRun(s: State, steps: seq<Step>)
    decreases |steps|
  {
    steps == [] || (Disciplined(s, steps[0]) && DisciplinedRun(Apply(s, steps[0]), steps[1..]))
  }

  lemma {:induction false} RunKeeps(s: State, steps: seq<Step>)
    requires Protected(s) && Possible(s, steps) && DisciplinedRun(s, steps)
    ensures Protected(Run(s, steps))
    decreases |steps|
  {
    hide Protected, Enabled, Apply, Disciplined;
    if steps != [] {
      StepKeeps(s, steps[0]);
      RunKeeps(Apply(s, steps[0]), steps[1..]);
    }
  }

  /** No mutex is held and no task waits for one; a context switch starts the first task. */
  ghost predicate Initial(s: State) {
    && s.mustYield && s.retry == map[] && s.current in s.tcb && s.ready <= s.tcb.Keys
    && (forall t :: t in s.tcb ==>
          var x := s.tcb[t];
          0 <= x.base < MAX_PRIORITIES && x.priority == x.base && x.held == 0 && x.itemValue == MAX_PRIORITIES - x.base)
    && (forall m :: 0 <= m < |s.mutexes| ==> s.mutexes[m] == Mutex(s.mutexes[m].recursive, 1, None, 0, []))
  }

  lemma {:induction false} NobodyHolds(ms: seq<Mutex>, t: Task)
    requires forall m :: 0 <= m < |ms| ==> ms[m].holder == None
    ensures Holds(ms, t) == 0
  {
    if ms != [] {
      NobodyHolds(ms[1..], t);
    }
  }

  lemma InitialIsProtected(s: State)
    requires Initial(s)
    ensures Protected(s)
  {
    forall t {
      NobodyHolds(s.mutexes, t);
    }
  }

  /**
  Bounded priority inversion: in every disciplined run, a task that holds a mutex runs at least
  at the priority of every task that waits for it, also after waiters have timed out.
  */
  lemma HolderOutranksWaiters(s: State, steps: seq<Step>, m: int, w: Task)
    requires Initial(s) && Possible(s, steps) && DisciplinedRun(s, steps)
    ensures var e := Run(s, steps);
            0 <= m < |e.mutexes| && e.mutexes[m].holder.Some? && w in e.mutexes[m].waiting ==>
              e.mutexes[m].holder.value in e.tcb && w in e.tcb
              && e.tcb[e.mutexes[m].holder.value].priority >= e.tcb[w].priority
  {
    InitialIsProtected(s);
    RunKeeps(s, steps);
  }

  // ----- Runs without nested waits

  /** The same discipline for tasks that wait for a mutex only while they hold none. */
  predicate Flat(s: State, step: Step) {
    match step
    case Take(m) => !Jumps(s, m)
    case Wait(m) => Get(s.tcb, s.current).held == 0
    case Give(m) => !Undercut(s, m)
    case SetPriority(t, p) => !Unsettles(s, t, PrioritySet(Get(s.tcb, t), p).priority)
    case Suspend(t) => !Robs(s, t)
    case Delete(t) => !Robs(s, t)
    case _ => true
  }

  predicate FlatRun(s: State, steps: seq<Step>)
    decreases |steps|
  {
    steps == [] || (Flat(s, steps[0]) && FlatRun(Apply(s, steps[0]), steps[1..]))
  }

  ghost predicate WaitersHoldNone(s: State) {
    && (forall m, w {:trigger w in s.mutexes[m].waiting} :: 0 <= m < |s.mutexes| && w in s.mutexes[m].waiting ==>
          Get(s.tcb, w).held == 0)
    && forall t :: t in s.retry ==> Get(s.tcb, t).held == 0
  }

  /** Raising a task that does not wait unsettles nothing. */
  lemma RaisedSettles(s: State, h: Task, p: int)
    requires Protected(s) && p >= Prio(s.tcb, h)
    requires forall m :: 0 <= m < |s.mutexes| ==> h !in s.mutexes[m].waiting
    ensures !Unsettles(s, h, p)
  {
    forall m | 0 <= m < |s.mutexes|
      ensures !Upsets(s, m, h, p)
    {
      var x := s.mutexes[m];
      assert MutexValid(x, s.tcb);
      hide Accounted, Arranged, RunsHighest, Prio, OutOfTurn;
      if x.holder == Some(h) {
        assert Above(s.tcb, h, x.waiting);
      } else if x.holder == None && x.waiting != [] {
        var w :| w in s.retry && s.retry[w] == m && Above(s.tcb, w, x.waiting);
      }
    }
  }

  lemma FlatWait(s: State, m: int)
    requires Protected(s) && WaitersHoldNone(s) && Enabled(s, Wait(m)) && Flat(s, Wait(m))
    ensures !Overburdens(s, m) && !Misfiled(s, m)
  {
    WaitForm(s, m);
    var h := s.mutexes[m].holder.value;
    assert Get(s.tcb, h).held >= 1;
    assert LentPriority(s, m) >= Prio(s.tcb, h);
    hide Waited, Unsettles, Misfiled, RunsHighest, WokenAbove, HoldersAbove, LentPriority, MutexesValid, ListsInOrder, ValuesMatch;
    RaisedSettles(s, h, LentPriority(s, m));
    WellFiled(s, m);
  }

  /** Where the items show the priorities, the place they lead to is the right one. */
  lemma WellFiledAt(tcb: map<Task, Tcb>, q: seq<Task>, c: Task)
    requires InOrder(tcb, q) && c !in q && Get(tcb, c).itemValue == MAX_PRIORITIES - Prio(tcb, c)
    requires forall u :: u in q ==> Get(tcb, u).itemValue == MAX_PRIORITIES - Prio(tcb, u)
    requires Distinct(Splice(q, InsertPos(ItemValues(tcb, q), Get(tcb, c).itemValue), c))
    ensures !OutOfTurn(tcb, Splice(q, InsertPos(ItemValues(tcb, q), Get(tcb, c).itemValue), c), c, Prio(tcb, c))
  {
    var v, x := ItemValues(tcb, q), Get(tcb, c).itemValue;
    forall i | 0 <= i < |q|
      ensures v[i] == MAX_PRIORITIES - Prio(tcb, q[i])
    {
      var u := q[i];
      assert u in q;
    }
    var k := InsertPos(v, x);
    var r := Splice(q, k, c);
    SplicedAt(q, k, c);
    assert Sorted(v);
    hide Prio, ItemValues, OutOfTurn, InsertPos, Distinct, Splice, InOrder;
    InsertPosUnique(v, x, k);
    InsertKeepsSorted(v, x);
    hide Sorted;
    assert forall i :: k <= i < |q| ==> Prio(tcb, q[i]) <= Prio(tcb, c);
    assert forall i :: 0 <= i < k ==> Prio(tcb, q[i]) >= Prio(tcb, c);
    OutOfTurnAt(tcb, r, c, Prio(tcb, c), k);
    InTurn(tcb, q, r, k, Prio(tcb, c));
  }

  lemma InTurn(tcb: map<Task, Tcb>, q: seq<Task>, r: seq<Task>, k: nat, p: int)
    requires k <= |q| && |r| == |q| + 1 && forall i :: 0 <= i < |r| && i != k ==> r[i] == q[if i < k then i else i - 1]
    requires forall i :: k <= i < |q| ==> Prio(tcb, q[i]) <= p
    requires forall i :: 0 <= i < k ==> Prio(tcb, q[i]) >= p
    ensures forall i :: 0 <= i < |r| ==> (i < k ==> Prio(tcb, r[i]) >= p) && (k < i ==> Prio(tcb, r[i]) <= p)
  {
    hide Prio;
  }

  lemma SplicedAt(q: seq<Task>, k: nat, c: Task)
    requires k <= |q|
    ensures var r := Splice(q, k, c);
            |r| == |q| + 1 && r[k] == c && forall i :: 0 <= i < |r| && i != k ==> r[i] == q[if i < k then i else i - 1]
  {
  }

  lemma WellFiled(s: State, m: int)
    requires Protected(s) && WaitersHoldNone(s) && Enabled(s, Wait(m)) && Get(s.tcb, s.current).held == 0
    ensures !Misfiled(s, m)
  {
    JoinForm(s, m);
    WaitForm(s, m);
    ItemsShow(s, m);
    var tcb', q, c := Waited(s, m).tcb, s.mutexes[m].waiting, s.current;
    assert Misfiled(s, m) ==> OutOfTurn(tcb', Waited(s, m).mutexes[m].waiting, c, Prio(tcb', c));
    assert Waited(s, m).mutexes[m].waiting == Splice(q, InsertPos(ItemValues(tcb', q), Get(tcb', c).itemValue), c);
    hide Waited, Protected, WaitersHoldNone, Misfiled, Prio, ItemValues, OutOfTurn, InsertPos, Distinct, InOrder, Enabled, Splice;
    WellFiledAt(tcb', q, c);
  }

  lemma ItemsShow(s: State, m: int)
    requires Protected(s) && WaitersHoldNone(s) && Enabled(s, Wait(m)) && Get(s.tcb, s.current).held == 0
    ensures var tcb', q, c := Waited(s, m).tcb, s.mutexes[m].waiting, s.current;
            && InOrder(tcb', q) && c !in q && Get(tcb', c).itemValue == MAX_PRIORITIES - Prio(tcb', c)
            && forall u :: u in q ==> Get(tcb', u).itemValue == MAX_PRIORITIES - Prio(tcb', u)
  {
    WaitForm(s, m);
    var tcb', q, c, h := Waited(s, m).tcb, s.mutexes[m].waiting, s.current, s.mutexes[m].holder.value;
    assert c != h && Get(s.tcb, h).held >= 1;
    hide Waited, WokenAbove, HoldersAbove, RunsHighest, Inherited, Splice, InsertPos, ItemValues, Distinct;
    forall u | u in q
      ensures Get(tcb', u) == Get(s.tcb, u) && Get(tcb', u).itemValue == MAX_PRIORITIES - Prio(tcb', u)
    {
    }
    assert InOrder(s.tcb, q);
    OrderFrame(s.tcb, tcb', [s.mutexes[m]]);
    assert [s.mutexes[m]][0].waiting == q;
  }

  lemma FlatAfterTimeout(s: State, m: int)
    requires Protected(s) && WaitersHoldNone(s) && Enabled(s, AfterTimeout(m))
    ensures !LetsDown(s, m)
  {
    if s.mutexes[m].holder.Some? {
      AfterTimeoutForm(s, m);
      var h, q := s.mutexes[m].holder.value, s.mutexes[m].waiting;
      var p := DisinheritedAfterTimeout(Get(s.tcb, h), HighestWaiting(s.tcb, s.mutexes[m])).priority;
      assert forall n :: 0 <= n < |s.mutexes| ==> h !in s.mutexes[n].waiting;
      assert h !in s.retry;
      if q != [] {
        var w := q[0];
        assert w in q && w in s.tcb && s.tcb[w].held == 0;
      }
      var s' := Apply(s, AfterTimeout(m));
      assert q == [] || Above(s'.tcb, h, q);
      assert forall u :: u != h ==> Prio(s'.tcb, u) == Prio(s.tcb, u);
      hide Apply, Accounted, Arranged, DisinheritedAfterTimeout, HighestWaiting, RunsHighest, WokenAbove, OutOfTurn, Prio;
      forall n | 0 <= n < |s.mutexes|
        ensures !Upsets(s, n, h, p)
      {
        if s.mutexes[n].holder == Some(h) {
          assert Above(s.tcb, h, s.mutexes[n].waiting);
        }
      }
    }
  }

  lemma FlatStep(s: State, step: Step)
    requires Protected(s) && WaitersHoldNone(s) && Enabled(s, step) && Flat(s, step)
    ensures Disciplined(s, step)
  {
    hide Protected, WaitersHoldNone, Overburdens, Misfiled, LetsDown, Jumps, Undercut, Unsettles, Robs, Enabled;
    match step
    case Wait(m) => FlatWait(s, m);
    case AfterTimeout(m) => FlatAfterTimeout(s, m);
    case _ =>
  }

  lemma FlatStepKeeps(s: State, step: Step)
    requires Protected(s) && WaitersHoldNone(s) && Enabled(s, step) && Flat(s, step)
    ensures WaitersHoldNone(Apply(s, step))
  {
    match step
    case Take(m) => TakeHoldNone(s, m);
    case Wait(m) => WaitHoldNone(s, m);
    case Give(m) => GiveHoldNone(s, m);
    case TimedOut(t, m) => TimedOutHoldNone(s, t, m);
    case AfterTimeout(m) => OtherHoldNone(s, step);
    case SetPriority(t, p) => OtherHoldNone(s, step);
    case Suspend(t) => RemovedHoldNone(s, t);
    case Delete(t) => RemovedHoldNone(s, t);
    case _ => OtherHoldNone(s, step);
  }

  lemma TakeHoldNone(s: State, m: int)
    requires Protected(s) && WaitersHoldNone(s) && Enabled(s, Take(m))
    ensures WaitersHoldNone(Apply(s, Take(m)))
  {
    TakeForm(s, m);
    assert forall n, w {:trigger w in s.mutexes[n].waiting} :: 0 <= n < |s.mutexes| && w in s.mutexes[n].waiting ==> w != s.current;
    hide Taken, Protected;
  }

  lemma WaitHoldNone(s: State, m: int)
    requires Protected(s) && WaitersHoldNone(s) && Enabled(s, Wait(m)) && Get(s.tcb, s.current).held == 0
    ensures WaitersHoldNone(Apply(s, Wait(m)))
  {
    WaitForm(s, m);
    var h := s.mutexes[m].holder.value;
    assert forall t :: Get(Waited(s, m).tcb, t).held == Get(s.tcb, t).held;
    hide Waited, Protected, Inherited, Splice, InsertPos, ItemValues, Distinct, Holds;
  }

  lemma GiveHoldNone(s: State, m: int)
    requires Protected(s) && WaitersHoldNone(s) && Enabled(s, Give(m))
    ensures WaitersHoldNone(Apply(s, Give(m)))
  {
    if Returns(s, m) {
      GiveForm(s, m);
      var q := s.mutexes[m].waiting;
      if q != [] {
        var w := q[0];
        assert w in q;
      }
      assert forall n, w {:trigger w in s.mutexes[n].waiting} :: 0 <= n < |s.mutexes| && w in s.mutexes[n].waiting ==> w != s.current;
      assert s.current !in s.retry;
      hide Given, Protected, Disinherited, Drops, Prio;
    } else {
      GiveNothingMore(s, m);
      hide Given, Protected, Returns;
    }
  }

  lemma GiveNothingMore(s: State, m: int)
    requires Accounted(s) && Enabled(s, Give(m)) && !Returns(s, m)
    ensures var s' := Given(s, m);
            && s'.tcb == s.tcb && s'.retry == s.retry && |s'.mutexes| == |s.mutexes|
            && forall n :: 0 <= n < |s.mutexes| ==> s'.mutexes[n].waiting == s.mutexes[n].waiting
  {
  }

  lemma TimedOutHoldNone(s: State, t: Task, m: int)
    requires Protected(s) && WaitersHoldNone(s) && Enabled(s, TimedOut(t, m))
    ensures WaitersHoldNone(Apply(s, TimedOut(t, m)))
  {
    TimedOutForm(s, t, m);
    hide Protected, Apply, Prio;
  }

  lemma OtherHoldNone(s: State, step: Step)
    requires Protected(s) && WaitersHoldNone(s) && Enabled(s, step)
    requires !step.Take? && !step.Wait? && !step.Give? && !step.TimedOut? && !step.Suspend? && !step.Delete?
    ensures WaitersHoldNone(Apply(s, step))
  {
    var s' := Apply(s, step);
    assert s'.mutexes == s.mutexes && s'.retry == s.retry;
    assert forall t :: t in s.tcb ==> t in s'.tcb && s'.tcb[t].held == s.tcb[t].held;
    assert Accounted(s);
    hide Protected, Apply, Enabled, Accounted;
  }

  lemma RemovedHoldNone(s: State, t: Task)
    requires WaitersHoldNone(s)
    ensures WaitersHoldNone(Removed(s, t))
  {
    forall m, w | 0 <= m < |s.mutexes| && w in Removed(s, t).mutexes[m].waiting
      ensures Get(s.tcb, w).held == 0
    {
      DroppedSubset(s.mutexes[m].waiting, t);
      assert w in s.mutexes[m].waiting;
    }
  }

  lemma {:induction false} FlatRunKeeps(s: State, steps: seq<Step>)
    requires Protected(s) && WaitersHoldNone(s) && Possible(s, steps) && FlatRun(s, steps)
    ensures DisciplinedRun(s, steps)
    decreases |steps|
  {
    hide Protected, WaitersHoldNone, Enabled, Apply, Disciplined, Flat;
    if steps != [] {
      FlatStep(s, steps[0]);
      StepKeeps(s, steps[0]);
      FlatStepKeeps(s, steps[0]);
      FlatRunKeeps(Apply(s, steps[0]), steps[1..]);
    }
  }

  /** While tasks wait for a mutex only when they hold none, no wait and no time-out is against the discipline. */
  lemma FlatRunIsDisciplined(s: State, steps: seq<Step>)
    requires Initial(s) && Possible(s, steps) && FlatRun(s, steps)
    ensures DisciplinedRun(s, steps)
  {
    InitialIsProtected(s);
    assert WaitersHoldNone(s);
    FlatRunKeeps(s, steps);
  }

  // ----- The code

  class MutexControl {
    var tcb: map<Task, Tcb>
    var mutexes: seq<Mutex>
    var current: Task
    var mustYield: bool
    ghost var ready: set<Task>
    ghost var retry: map<Task, int>

    ghost function St(): State
      reads this
    {
      State(tcb, mutexes, ready, current, mustYield, retry)
    }

    /** xTaskPriorityInherit(): returns whether the holder now runs at an inherited priority because of this task. */
    method PriorityInherit(holder: Option<Task>) returns (inherited: bool)
      requires current in tcb && (holder.Some? ==> holder.value in tcb)
      modifies this`tcb
      ensures tcb == if holder.Some? then old(tcb)[holder.value := Inherited(old(tcb)[holder.value], old(Prio(tcb, current)))]
                     else old(tcb)
      ensures inherited <==> holder.Some? && old(tcb[holder.value].base < Prio(tcb, current) || tcb[holder.value].priority < Prio(tcb, current))
    {
      inherited := false;
      if holder.Some? {
        var h, p := holder.value, tcb[current].priority;
        if tcb[h].priority < p {
          tcb := tcb[h := tcb[h].(itemValue := MAX_PRIORITIES - p, priority := p)];
          inherited := true;
        } else if tcb[h].base < p {
          inherited := true;
        }
      }
    }

    /** xTaskPriorityDisinherit() by the running task, which holds a mutex. */
    method PriorityDisinherit() returns (dropped: bool)
      requires current in tcb && tcb[current].held > 0
      modifies this`tcb
      ensures tcb == old(tcb)[current := Disinherited(old(tcb)[current])]
      ensures dropped <==> Drops(old(tcb)[current])
    {
      var c := current;
      tcb := tcb[c := tcb[c].(held := tcb[c].held - 1)];
      dropped := false;
      if tcb[c].priority != tcb[c].base {
        if tcb[c].held == 0 {
          tcb := tcb[c := tcb[c].(priority := tcb[c].base, itemValue := MAX_PRIORITIES - tcb[c].base)];
          dropped := true;
        }
      }
    }

    /** vTaskPriorityDisinheritAfterTimeout() */
    method PriorityDisinheritAfterTimeout(holder: Option<Task>, highestWaiting: int)
      requires holder.Some? ==> holder.value in tcb && tcb[holder.value].held > 0
      modifies this`tcb
      ensures tcb == if holder.Some? then
                       old(tcb)[holder.value := DisinheritedAfterTimeout(old(tcb)[holder.value], highestWaiting)]
                     else old(tcb)
    {
      if holder.Some? {
        var h := holder.value;
        var p := if tcb[h].base < highestWaiting then highestWaiting else tcb[h].base;
        if tcb[h].priority != p {
          if tcb[h].held == 1 {
            tcb := tcb[h := tcb[h].(priority := p, itemValue := MAX_PRIORITIES - p)];
          }
        }
      }
    }

    /** The critical section of xQueueSemaphoreTake() on a mutex, and xQueueTakeMutexRecursive(). */
    method TryTake(m: nat) returns (taken: bool)
      requires Accounted(St()) && Enabled(St(), Take(m))
      modifies this
      ensures Accounted(St()) && St() == Apply(old(St()), Take(m))
      ensures taken <==> old(mutexes[m].count > 0 || (mutexes[m].recursive && mutexes[m].holder == Some(current)))
      ensures taken ==> mutexes[m].holder == Some(current)
    {
      TakeAccounted(St(), m);
      var x, c := mutexes[m], current;
      hide Accounted;
      retry := retry - {c};
      taken := false;
      if x.recursive && x.holder == Some(c) {
        mutexes := mutexes[m := x.(calls := x.calls + 1)];
        taken := true;
      } else if x.count > 0 {
        tcb := tcb[c := tcb[c].(held := tcb[c].held + 1)];
        mutexes := mutexes[m := x.(count := x.count - 1, holder := Some(c), calls := if x.recursive then 1 else 0)];
        taken := true;
      }
    }

    /** What xQueueSemaphoreTake() does before the running task waits. */
    method WaitFor(m: nat) returns (inherited: bool)
      requires Accounted(St()) && Enabled(St(), Wait(m))
      modifies this
      ensures Accounted(St()) && St() == Apply(old(St()), Wait(m))
    {
      WaitAccounted(St(), m);
      var x, c := mutexes[m], current;
      hide Accounted;
      inherited := PriorityInherit(x.holder);
      var k := InsertPos(ItemValues(tcb, x.waiting), tcb[c].itemValue);
      mutexes := mutexes[m := x.(waiting := Splice(x.waiting, k, c))];
      ready, mustYield := ready - {c}, true;
    }

    /** xQueueGenericSend() on a mutex, and xQueueGiveMutexRecursive(). */
    method GiveBack(m: nat) returns (ok: bool)
      requires Accounted(St()) && Enabled(St(), Give(m))
      modifies this
      ensures Accounted(St()) && St() == Apply(old(St()), Give(m))
      ensures ok <==> old(mutexes[m].holder == Some(current))
    {
      GiveAccounted(St(), m);
      var x, c := mutexes[m], current;
      ok := x.holder == Some(c);
      if ok {
        HoldsAtLeastOne(mutexes, m, c);
        if x.recursive && x.calls > 1 {
          hide Accounted;
          mutexes := mutexes[m := x.(calls := x.calls - 1)];
        } else {
          hide Accounted;
          ReturnMutex(m);
        }
      }
    }

    /** prvCopyDataToQueue() on a mutex, and waking the task that waits for it. */
    method ReturnMutex(m: nat)
      requires m < |mutexes| && current in tcb && tcb[current].held > 0 && Returns(St(), m)
      requires forall t :: t in mutexes[m].waiting ==> t in tcb
      modifies this
      ensures St() == Given(old(St()), m)
    {
      var x := mutexes[m];
      var yieldRequired := PriorityDisinherit();
      var x' := x.(count := x.count + 1, holder := None, calls := 0);
      if x.waiting != [] {
        var w := x.waiting[0];
        assert w in x.waiting;
        mutexes := mutexes[m := x'.(waiting := x.waiting[1..])];
        ready, retry := ready + {w}, retry[w := m];
        if tcb[w].priority > tcb[current].priority {
          mustYield := true;
        }
      } else {
        mutexes := mutexes[m := x'];
        if yieldRequired {
          mustYield := true;
        }
      }
    }

    /** What vTaskSuspend() and vTaskDelete() do to the ready tasks and the event lists. */
    method RemoveTask(t: Task)
      requires Accounted(St()) && Enabled(St(), Suspend(t))
      modifies this
      ensures Accounted(St()) && St() == Apply(old(St()), Suspend(t)) == Apply(old(St()), Delete(t))
    {
      RemovedAccounted(St(), t);
      hide Accounted, WithoutWaiter;
      ready, retry := ready - {t}, retry - {t};
      mutexes := WithoutWaiter(mutexes, t);
      if t == current {
        mustYield := true;
      }
    }

    /** vTaskPrioritySet() */
    method PrioritySet(t: Task, p: int)
      requires Accounted(St()) && Enabled(St(), SetPriority(t, p))
      modifies this
      ensures Accounted(St()) && St() == Apply(old(St()), SetPriority(t, p))
    {
      StepAccounted(St(), SetPriority(t, p));
      hide Accounted;
      var x := tcb[t];
      if x.base != p {
        var yieldRequired := false;
        if p > x.base {
          if t != current && p > tcb[current].priority {
            yieldRequired := true;
          }
        } else if t == current {
          yieldRequired := true;
        }
        if x.base == x.priority || p > x.priority {
          x := x.(priority := p);
        }
        tcb := tcb[t := x.(base := p, itemValue := MAX_PRIORITIES - p)];
        if yieldRequired {
          mustYield := true;
        }
      } else {
        assert tcb == tcb[t := tcb[t]];
      }
    }
  }
}
