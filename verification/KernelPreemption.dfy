/**
Preemption (rtos/source/tasks.c): when a call or an interrupt of the kernel asks for a context
switch.

What is stated here speaks of the ready lists before and after a call, whatever loop moved the tasks.
It comes to one invariant of every run: while the scheduler is not suspended, either a context
switch has been asked for, or no ready task outranks the running one.
*/
module KernelPreemption {
  import opened Config
  import opened Lists
  import opened KernelState
  import opened KernelMeaning
  import opened KernelRefinement
  import opened KernelRuns

  /** The state list item of the task is in a ready list. */
  predicate InReady(s: State, t: Task) {
    t in s.tasks && t in s.place && s.place[t].ReadyList?
  }

  /** From s to s', t came into a ready list, and outranks the running task. */
  predicate CameAbove(s: State, s': State, t: Task) {
    InReady(s', t) && !InReady(s, t) && PriorityOf(s', t) > PriorityOf(s', s'.current)
  }

  ghost predicate SomeCameAbove(s: State, s': State) {
    exists t :: CameAbove(s, s', t)
  }

  /** More than one task is in the ready list of the running task's priority. */
  predicate Shared(s: State) {
    |Items(s, ReadyList(PriorityOf(s, s.current)))| > 1
  }

  // ----- One tick

  lemma ReadyIsInReady(s: State, t: Task)
    requires Core(s) && s.pendingReady == [] && t in s.tasks
    ensures StatusOf(s, t) == Ready <==> InReady(s, t)
  {
    hide ListsAgree, ReadyByPriority, DelaysSorted;
  }

  lemma WokenIsCame(s: State, s': State)
    requires Core(s) && s.pendingReady == [] && Core(s') && s'.pendingReady == [] && s'.tasks == s.tasks
    ensures WokenAbove(s, s') <==> SomeCameAbove(s, s')
  {
    hide Core, StatusOf, PriorityOf;
    forall t | t in s.tasks
      ensures StatusOf(s, t) == Ready <==> InReady(s, t)
      ensures StatusOf(s', t) == Ready <==> InReady(s', t)
    {
      ReadyIsInReady(s, t);
      ReadyIsInReady(s', t);
    }
    forall t
      ensures CameAbove(s, s', t) <==>
              t in s.tasks && StatusOf(s, t) != Ready && StatusOf(s', t) == Ready && PriorityOf(s', t) > PriorityOf(s', s'.current)
    {
      assert InReady(s', t) ==> t in s.tasks;
    }
    hide InReady;
    if t :| CameAbove(s, s', t) {
      assert WokenAbove(s, s');
    }
    if t :| t in s.tasks && StatusOf(s, t) != Ready && StatusOf(s', t) == Ready && PriorityOf(s', t) > PriorityOf(s', s'.current) {
      assert CameAbove(s, s', t);
    }
  }

  /** What a processed tick answers. */
  lemma TickAsks(s: State)
    requires Core(s) && DelaysAhead(s) && s.pendingReady == []
    ensures var s' := IncrementTick(s);
            SwitchRequired(s, s') <==> s.yieldPending || Shared(s') || SomeCameAbove(s, s')
  {
    hide Core, DelaysAhead, IncrementTick, WokenAbove;
    TickKeeps(s);
    WokenIsCame(s, IncrementTick(s));
  }

  // ----- Ready lists grow over ticks

  /** Nobody leaves a ready list, and priorities and the running task stay. */
  ghost predicate Grows(s: State, s': State) {
    && s'.tasks == s.tasks && s'.priority == s.priority && s'.current == s.current
    && forall t :: InReady(s, t) ==> InReady(s', t)
  }

  lemma SharedByTwo(s: State)
    requires Core(s)
    ensures Shared(s) <==> exists t, u :: t != u && InReady(s, t) && InReady(s, u)
                             && PriorityOf(s, t) == PriorityOf(s, u) == PriorityOf(s, s.current)
  {
    var p := s.priority[s.current];
    var l := ReadyList(p);
    assert l in s.lists;
    var items := s.lists[l].items;
    DistinctIndices(items);
    forall t
      ensures t in items <==> InReady(s, t) && PriorityOf(s, t) == p
    {
      assert t in s.lists[l].items <==> t in s.place && s.place[t] == l;
    }
    if |items| > 1 {
      assert items[0] in items && items[1] in items && items[0] != items[1];
    }
    hide Core;
    if t, u :| t != u && InReady(s, t) && InReady(s, u)
               && PriorityOf(s, t) == PriorityOf(s, u) == PriorityOf(s, s.current) {
      assert t in items && u in items;
    }
  }

  lemma SharedGrows(s: State, s': State)
    requires Core(s) && Core(s') && Grows(s, s')
    ensures Shared(s) ==> Shared(s')
  {
    hide Core, Shared;
    SharedByTwo(s);
    SharedByTwo(s');
    if t, u :| t != u && InReady(s, t) && InReady(s, u)
               && PriorityOf(s, t) == PriorityOf(s, u) == PriorityOf(s, s.current) {
      assert PriorityOf(s', t) == PriorityOf(s', u) == PriorityOf(s', s'.current);
    }
  }

  lemma CameInTwo(s: State, s1: State, s2: State)
    requires Grows(s, s1) && Grows(s1, s2)
    ensures Grows(s, s2)
    ensures SomeCameAbove(s, s2) <==> SomeCameAbove(s, s1) || SomeCameAbove(s1, s2)
  {
    hide InReady;
    if t :| CameAbove(s, s1, t) {
      assert CameAbove(s, s2, t);
    }
    if t :| CameAbove(s1, s2, t) {
      assert CameAbove(s, s2, t);
    }
    if t :| CameAbove(s, s2, t) {
      assert CameAbove(s, s1, t) || CameAbove(s1, s2, t);
    }
  }

  lemma TickGrows(s: State)
    requires Core(s) && DelaysAhead(s) && s.pendingReady == []
    ensures Grows(s, IncrementTick(s))
  {
    TickKeeps(s);
    hide Core, DelaysAhead, IncrementTick;
    forall t | InReady(s, t)
      ensures InReady(IncrementTick(s), t)
    {
      TickStays(s, t);
    }
  }

  /** The pending yield changes none of this. */
  lemma YieldAside(s: State, s': State, b: bool)
    ensures Grows(s.(yieldPending := b), s') == Grows(s, s') && Grows(s, s'.(yieldPending := b)) == Grows(s, s')
    ensures SomeCameAbove(s.(yieldPending := b), s') <==> SomeCameAbove(s, s')
    ensures SomeCameAbove(s, s'.(yieldPending := b)) <==> SomeCameAbove(s, s')
    ensures Shared(s'.(yieldPending := b)) == Shared(s')
  {
    assert forall t :: InReady(s.(yieldPending := b), t) == InReady(s, t);
    assert forall t :: InReady(s'.(yieldPending := b), t) == InReady(s', t);
    assert forall t :: CameAbove(s.(yieldPending := b), s', t) == CameAbove(s, s', t);
    assert forall t :: CameAbove(s, s'.(yieldPending := b), t) == CameAbove(s, s', t);
  }

  /**
  The replay of pended ticks leaves a yield pending exactly if one was pending, or the replay brought
  a task above the running one, or left the running task's priority shared.
  */
  lemma {:induction false} ReplayAsks(s: State, n: nat)
    requires Core(s) && DelaysAhead(s) && s.pendingReady == []
    ensures var s' := Replay(s, n);
            && Grows(s, s')
            && (s'.yieldPending <==> s.yieldPending || SomeCameAbove(s, s') || (n > 0 && Shared(s')))
    decreases n
  {
    hide Core, DelaysAhead, IncrementTick, SwitchRequired, InReady, Shared, PriorityOf;
    if n == 0 {
      assert forall t :: !CameAbove(s, s, t);
    } else {
      TickKeeps(s);
      TickGrows(s);
      TickAsks(s);
      var m := IncrementTick(s);
      var b := SwitchRequired(s, m);
      YieldKeeps(m, b);
      var s1 := m.(yieldPending := b);
      YieldAside(s, m, b);
      ReplayAsks(s1, n - 1);
      var s' := Replay(s1, n - 1);
      ReplayKeeps(s1, n - 1);
      SharedGrows(s1, s');
      hide Replay, Grows, SomeCameAbove;
      ReplayOnce(s, n);
      CameInTwo(s, s1, s');
      if n == 1 {
        assert s' == s1 by { ReplayNone(s1); }
        assert !SomeCameAbove(s1, s1) by { NoneCame(s1); }
      }
    }
  }

  lemma ReplayOnce(s: State, n: nat)
    requires Core(s) && DelaysAhead(s) && s.pendingReady == [] && n > 0
    ensures var m := IncrementTick(s);
            var s1 := m.(yieldPending := SwitchRequired(s, m));
            Core(s1) && DelaysAhead(s1) && s1.pendingReady == [] && Replay(s, n) == Replay(s1, n - 1)
  {
    TickKeeps(s);
    hide Core, DelaysAhead, IncrementTick, SwitchRequired;
    YieldKeeps(IncrementTick(s), SwitchRequired(s, IncrementTick(s)));
  }

  lemma ReplayNone(s: State)
    requires Core(s) && DelaysAhead(s) && s.pendingReady == []
    ensures Replay(s, 0) == s
  {
  }

  lemma NoneCame(s: State)
    ensures !SomeCameAbove(s, s)
  {
    assert forall t :: !CameAbove(s, s, t);
  }

  // ----- Resuming the scheduler

  /** Emptying the pending ready list: the tasks on it are those that come into ready lists. */
  lemma {:induction false} PendingAsks(s: State)
    requires Core(s)
    ensures DrainPending(s).yieldPending <==>
            s.yieldPending || exists t :: t in s.pendingReady && PriorityOf(s, t) > PriorityOf(s, s.current)
    decreases |s.pendingReady|
  {
    hide Core, MakeReady;
    if s.pendingReady != [] {
      FirstPendingUnfolds(s);
      var h, m := s.pendingReady[0], FirstPendingMoved(s);
      FirstPendingFrame(s);
      PendingAsks(m);
      assert forall t :: t in s.pendingReady <==> t == h || t in m.pendingReady;
    }
  }

  lemma FirstPendingFrame(s: State)
    requires Core(s) && s.pendingReady != []
    ensures var m := FirstPendingMoved(s); m.priority == s.priority && m.current == s.current && m.tasks == s.tasks
  {
    assert s.pendingReady[0] in s.pendingReady;
    hide ListsAgree, ReadyByPriority, DelaysSorted, Rest;
  }

  lemma PendingCame(s: State, s': State)
    requires Core(s) && PendingMoved(s, s')
    ensures Grows(s, s')
    ensures SomeCameAbove(s, s') <==> exists t :: t in s.pendingReady && PriorityOf(s, t) > PriorityOf(s, s.current)
  {
    hide ListsAgree, ReadyByPriority, DelaysSorted;
    forall t
      ensures CameAbove(s, s', t) <==> t in s.pendingReady && PriorityOf(s, t) > PriorityOf(s, s.current)
    {
      assert t in s.pendingReady ==> t in s.tasks;
    }
  }

  lemma UnpendedAsks(s: State)
    requires Core(s)
    ensures var s' := Unpended(s);
            Grows(s, s') && (s'.yieldPending <==> s.yieldPending || SomeCameAbove(s, s'))
  {
    hide Core, DrainPending;
    if s.pendingReady == [] {
      NoneCame(s);
    } else {
      PendingAsks(s);
      DrainPendingEffect(s);
      PendingCame(s, DrainPending(s));
      NextAside(s, DrainPending(s));
    }
  }

  lemma NextAside(s: State, s': State)
    ensures Grows(s, ResetNext(s')) == Grows(s, s') && SomeCameAbove(s, ResetNext(s')) == SomeCameAbove(s, s')
  {
    var r := ResetNext(s');
    assert forall t :: InReady(r, t) == InReady(s', t) && CameAbove(s, r, t) == CameAbove(s, s', t);
  }

  /** Neither the depth of the suspension nor the number of pended ticks matters. */
  lemma CountersAside(s: State, s': State, depth: nat, n: nat)
    ensures var r := s.(schedulerSuspended := depth);
            Grows(r, s') == Grows(s, s') && SomeCameAbove(r, s') == SomeCameAbove(s, s')
    ensures var r := s'.(pendedTicks := n);
            Grows(s, r) == Grows(s, s') && SomeCameAbove(s, r) == SomeCameAbove(s, s') && Shared(r) == Shared(s')
  {
    assert forall t :: InReady(s.(schedulerSuspended := depth), t) == InReady(s, t);
    assert forall t :: InReady(s'.(pendedTicks := n), t) == InReady(s', t);
    assert forall t :: CameAbove(s.(schedulerSuspended := depth), s', t) == CameAbove(s, s', t);
    assert forall t :: CameAbove(s, s'.(pendedTicks := n), t) == CameAbove(s, s', t);
  }

  /**
  When the scheduler runs again, a yield is pending exactly if one was, or a task above the running
  one came into a ready list, or ticks were replayed and the running task's priority is shared.
  */
  lemma ResumeAsks(s: State)
    requires Inv(s) && s.schedulerSuspended > 0
    ensures var s' := Resumed(s);
            && Grows(s, s')
            && (s.schedulerSuspended == 1 ==>
                  (s'.yieldPending <==> s.yieldPending || SomeCameAbove(s, s') || (s.pendedTicks > 0 && Shared(s'))))
            && (s.schedulerSuspended > 1 ==> s'.yieldPending == s.yieldPending)
  {
    var s1 := s.(schedulerSuspended := s.schedulerSuspended - 1);
    ResumedUnfolds(s);
    hide Inv, Core, DelaysAhead, Unpended, Replay, Grows, SomeCameAbove, Shared, Resumed;
    if s1.schedulerSuspended == 0 {
      var u := Unpended(s1);
      UnpendedAsks(s1);
      ReplayAsks(u, s1.pendedTicks);
      var r := Replay(u, s1.pendedTicks);
      CameInTwo(s1, u, r);
      CountersAside(s, r, s1.schedulerSuspended, 0);
      CountersAside(s, r.(pendedTicks := 0), s1.schedulerSuspended, 0);
      CountersAside(s1, r, 0, 0);
    } else {
      assert Grows(s, s1) by {
        GrowsToItself(s, s1.schedulerSuspended);
      }
    }
  }

  lemma GrowsToItself(s: State, depth: nat)
    ensures Grows(s, s.(schedulerSuspended := depth))
  {
    assert forall t :: InReady(s.(schedulerSuspended := depth), t) == InReady(s, t);
  }

  // ----- Waking a single task

  /** An event readies its task at once, or holds it behind those held already; either way the yield pends. */
  lemma EventAsks(s: State, t: Task)
    requires WellPlaced(s) && t in s.tasks && t in s.event && ReadyList(s.priority[t]) in s.lists
    ensures var s' := EventGiven(s, t);
            && (s'.yieldPending <==> s.yieldPending || PriorityOf(s, t) > PriorityOf(s, s.current))
            && s'.schedulerSuspended == s.schedulerSuspended
            && (if s.schedulerSuspended == 0 then InReady(s', t) else s'.pendingReady == s.pendingReady + [t])
  {
    hide ListsAgree, Rest, Without;
  }

  /** Nothing is held while the scheduler runs, so a suspension in which nothing happened ends as it began. */
  lemma NothingHeld(s: State)
    requires Inv(s) && s.schedulerSuspended > 0
    requires s.schedulerSuspended == 1 ==> s.pendingReady == [] && s.pendedTicks == 0
    ensures Resumed(s) == s.(schedulerSuspended := s.schedulerSuspended - 1)
  {
    ResumedUnfolds(s);
    var s1 := s.(schedulerSuspended := s.schedulerSuspended - 1);
    if s.schedulerSuspended == 1 {
      assert Unpended(s1) == s1;
      ReplayNone(s1);
    }
  }

  /** xTaskAbortDelay() leaves a yield pending exactly if one was, or the task it woke is above the running one. */
  lemma AbortAsks(s: State, t: Task)
    requires Inv(s) && t in s.tasks && ReadyList(s.priority[t]) in s.lists
    ensures var s' := DelayAborted(s, t);
            && (s'.yieldPending <==> s.yieldPending || (IsBlocked(s, t) && PriorityOf(s, t) > PriorityOf(s, s.current)))
            && (IsBlocked(s, t) ==> InReady(s', t))
            && s'.schedulerSuspended == s.schedulerSuspended && s'.pendedTicks == s.pendedTicks
            && (s.pendingReady == [] ==> s'.pendingReady == [])
  {
    hide ListsAgree, Rest, Without, IsBlocked;
  }

  /** The whole of xTaskAbortDelay(): suspend the scheduler, ready the task if it is blocked, resume. */
  lemma AbortedInside(s: State, t: Task)
    requires Inv(s) && t in s.tasks
    ensures var s1 := s.(schedulerSuspended := s.schedulerSuspended + 1);
            && Inv(s1) && WellPlaced(s1) && ReadyList(s1.priority[t]) in s1.lists && IsBlocked(s1, t) == IsBlocked(s, t)
            && var s2 := DelayAborted(s1, t);
               && Inv(s2) && s2.schedulerSuspended > 0 && (!IsBlocked(s, t) ==> s2 == s1)
               && var s' := Resumed(s2);
                  && (s'.yieldPending <==> s.yieldPending || (IsBlocked(s, t) && PriorityOf(s, t) > PriorityOf(s, s.current)))
                  && (IsBlocked(s, t) ==> InReady(s', t))
  {
    var s1 := s.(schedulerSuspended := s.schedulerSuspended + 1);
    DepthKeeps(s, s1.schedulerSuspended);
    ListsExist(s1, t);
    DelayAbortedKeeps(s1, t);
    AbortAsks(s1, t);
    CountersStatus(s, s1.schedulerSuspended, 0, t);
    assert !IsBlocked(s1, t) ==> DelayAborted(s1, t) == s1;
    hide Core, DelaysAhead, StatusOf, DelayAborted, Resumed;
    NothingHeld(DelayAborted(s1, t));
  }

  // ----- Every run

  /** The running task is ready, and no ready task outranks it. */
  ghost predicate Highest(s: State) {
    InReady(s, s.current) && forall t :: InReady(s, t) ==> PriorityOf(s, t) <= PriorityOf(s, s.current)
  }

  /**
  The operation, from s to s', asks for a context switch: by a yield of its own, or by the answer it
  gives to a caller that is to yield.
  */
  ghost predicate Asks(s: State, op: Op, s': State) {
    match op
    case TickOp => s.schedulerSuspended == 0 && (s.yieldPending || Shared(s') || SomeCameAbove(s, s'))
    case SuspendAllOp => false
    case ResumeAllOp => s'.schedulerSuspended == 0 && s'.yieldPending
    case BlockOp(_, _, _) => true
    case EventOp(t) => OutranksCurrent(s, t)
    case AbortDelayOp(t) => false
    case UnorderedEventOp(t) => false
    case SuspendOp(t) => t == s.current
    case ResumeOp(t) => t != s.current && IsSuspended(s, t) && OutranksCurrent(s, t)
    case ResumeFromISROp(t) => IsSuspended(s, t) && s.schedulerSuspended == 0 && OutranksCurrent(s, t)
    case CreateOp(t, p) => p > PriorityOf(s, s.current)
    case DeleteOp(t) => t == s.current
    case CleanUpOp(t) => false
    case SetPriorityOp(t, p) =>
      if t == s.current then p < PriorityOf(s, t) else p > PriorityOf(s, t) && p > PriorityOf(s, s.current)
    case SwitchOp => false
  }

  /** Has a context switch been asked for since the last one was made? */
  ghost predicate AskedAfter(s: State, ops: seq<Op>, idle: Task, asked: bool)
    requires Inv(s) && IdleReady(s, idle) && Legal(s, ops, idle)
    decreases |ops|
  {
    if ops == [] then asked
    else
      PerformKeeps(s, ops[0], idle);
      var s1 := Perform(s, ops[0], idle);
      AskedAfter(s1, ops[1..], idle, !ops[0].SwitchOp? && (asked || Asks(s, ops[0], s1)))
  }

  /** A switch has been asked for, or none is needed, or the scheduler is suspended with a yield pending. */
  ghost predicate Answered(s: State, asked: bool) {
    asked || Highest(s) || (s.schedulerSuspended > 0 && s.yieldPending)
  }

  /** What an operation that does not ask for a switch has to leave alone. */
  ghost predicate Unasking(s: State, s': State) {
    && (Highest(s) ==> Highest(s') || (s'.schedulerSuspended > 0 && s'.yieldPending))
    && (s.schedulerSuspended > 0 && s.yieldPending ==> s'.schedulerSuspended > 0 && s'.yieldPending)
  }

  /** All ready tasks but t were ready before, and t is not above the running task. */
  lemma StillHighest(s: State, s': State, t: Task)
    requires Highest(s) && s'.current == s.current && InReady(s', s.current)
    requires forall u :: u != t && InReady(s', u) ==> InReady(s, u) && PriorityOf(s', u) == PriorityOf(s, u)
    requires PriorityOf(s', s.current) >= PriorityOf(s, s.current)
    requires InReady(s', t) ==> PriorityOf(s', t) <= PriorityOf(s', s.current)
    ensures Highest(s')
  {
    hide InReady, PriorityOf;
  }

  /** No ready list gains a task, and the running task stays where it is. */
  lemma LeavesHighest(s: State, s': State)
    requires s'.current == s.current && (InReady(s, s.current) ==> InReady(s', s.current))
    requires forall u :: InReady(s', u) ==> InReady(s, u)
    requires forall u :: InReady(s', u) ==> PriorityOf(s', u) == PriorityOf(s, u)
    ensures Highest(s) ==> Highest(s')
  {
    hide InReady, PriorityOf;
    assert Highest(s) ==> PriorityOf(s', s.current) == PriorityOf(s, s.current);
  }

  lemma MakeReadyHighest(s: State, t: Task, b: bool)
    requires WellPlaced(s) && t in s.tasks && ReadyList(s.priority[t]) in s.lists && !OutranksCurrent(s, t)
    ensures Highest(s) ==> Highest(MakeReady(s, t).(yieldPending := b))
  {
    hide ListsAgree, Rest, Highest;
    var s' := MakeReady(s, t).(yieldPending := b);
    assert InReady(s', t) && PriorityOf(s', t) == PriorityOf(s, t);
    assert Highest(s) ==> InReady(s, s.current) by {
      HighestIsReady(s);
    }
    assert forall u :: u != t ==> InReady(s', u) == InReady(s, u) && PriorityOf(s', u) == PriorityOf(s, u);
    hide InReady, MakeReady;
    if Highest(s) {
      StillHighest(s, s', t);
    }
  }

  lemma HighestIsReady(s: State)
    ensures Highest(s) ==> InReady(s, s.current)
  {
  }

  lemma TickUnasking(s: State)
    requires Inv(s) && s.schedulerSuspended == 0
    ensures var s' := IncrementTick(s); Asks(s, TickOp, s') || Unasking(s, s')
  {
    TickGrows(s);
    TickKeeps(s);
    hide Core, DelaysAhead, IncrementTick, Shared;
    GrowsHighest(s, IncrementTick(s));
  }

  /** If nobody came above the running task, it is as high as it was. */
  lemma GrowsHighest(s: State, s': State)
    requires Grows(s, s')
    ensures Highest(s) ==> SomeCameAbove(s, s') || Highest(s')
  {
    hide InReady;
    if Highest(s) && !Highest(s') {
      assert InReady(s', s'.current);
      var t :| InReady(s', t) && PriorityOf(s', t) > PriorityOf(s', s'.current);
      assert CameAbove(s, s', t);
    }
  }

  lemma ResumeUnasking(s: State)
    requires Inv(s) && s.schedulerSuspended > 0
    ensures var s' := Resumed(s); Asks(s, ResumeAllOp, s') || Unasking(s, s')
  {
    ResumeAsks(s);
    ResumeKeeps(s);
    hide Inv, Now, Resumed, Shared, Highest, SomeCameAbove, Grows, Asks, Unasking;
    var s' := Resumed(s);
    if s.schedulerSuspended > 1 {
      ResumedPartly(s);
      SameHighest(s, s.schedulerSuspended - 1);
      assert Unasking(s, s') by {
        SameUnasking(s, s');
      }
    } else {
      GrowsHighest(s, s');
      ResumedAnswers(s, s');
    }
  }

  lemma SameUnasking(s: State, s': State)
    requires Highest(s') == Highest(s) && s'.yieldPending == s.yieldPending && s'.schedulerSuspended > 0
    ensures Unasking(s, s')
  {
  }

  lemma ResumedAnswers(s: State, s': State)
    requires Highest(s) ==> SomeCameAbove(s, s') || Highest(s')
    requires s.yieldPending || SomeCameAbove(s, s') ==> s'.yieldPending
    requires s'.schedulerSuspended == 0
    ensures Asks(s, ResumeAllOp, s') || Unasking(s, s')
  {
    hide Highest, SomeCameAbove;
  }

  lemma ResumedPartly(s: State)
    requires Inv(s) && s.schedulerSuspended > 1
    ensures Resumed(s) == s.(schedulerSuspended := s.schedulerSuspended - 1)
  {
  }

  lemma SameHighest(s: State, depth: nat)
    ensures Highest(s.(schedulerSuspended := depth)) == Highest(s)
  {
    assert forall t :: InReady(s.(schedulerSuspended := depth), t) == InReady(s, t);
  }

  lemma MadeReadyUnasking(s: State, t: Task)
    requires WellPlaced(s) && t in s.tasks && ReadyList(s.priority[t]) in s.lists
    ensures var s' := MakeReady(s, t).(yieldPending := s.yieldPending || OutranksCurrent(s, t));
            (OutranksCurrent(s, t) && s.schedulerSuspended == 0) || Unasking(s, s')
    ensures OutranksCurrent(s, t) || Unasking(s, MakeReady(s, t))
  {
    ReadyCounters(s, t);
    if !OutranksCurrent(s, t) {
      MakeReadyHighest(s, t, s.yieldPending);
    }
    hide ListsAgree, MakeReady, Highest, OutranksCurrent;
  }

  /** The pending ready list is no ready list. */
  lemma PendingUnasking(s: State, t: Task, b: bool)
    requires t in s.event && (s.yieldPending ==> b)
    ensures Unasking(s, s.(event := s.event[t := PendingReadyList], pendingReady := s.pendingReady + [t], yieldPending := b))
  {
    var s' := s.(event := s.event[t := PendingReadyList], pendingReady := s.pendingReady + [t], yieldPending := b);
    assert forall u :: InReady(s', u) == InReady(s, u);
  }

  lemma EventUnasking(s: State, t: Task)
    requires WellPlaced(s) && t in s.tasks && t in s.event && ReadyList(s.priority[t]) in s.lists
    ensures var s' := EventGiven(s, t); Asks(s, EventOp(t), s') || Unasking(s, s')
  {
    hide WellPlaced, MakeReady, Highest, OutranksCurrent, Unasking;
    if s.schedulerSuspended == 0 {
      MadeReadyUnasking(s, t);
    } else {
      PendingUnasking(s, t, s.yieldPending || OutranksCurrent(s, t));
    }
  }

  lemma AbortUnasking(s: State, t: Task)
    requires WellPlaced(s) && t in s.tasks && ReadyList(s.priority[t]) in s.lists && s.schedulerSuspended > 0
    ensures Unasking(s, DelayAborted(s, t))
  {
    hide WellPlaced, MakeReady, Highest, OutranksCurrent, IsBlocked;
    if IsBlocked(s, t) {
      MadeReadyUnasking(s, t);
    }
  }

  lemma ResumeTaskUnasking(s: State, t: Task)
    requires WellPlaced(s) && t in s.tasks && ReadyList(s.priority[t]) in s.lists
    ensures var s' := TaskResumed(s, t); Asks(s, ResumeOp(t), s') || Unasking(s, s')
    ensures var s' := TaskResumedFromISR(s, t); t in s.event ==> Asks(s, ResumeFromISROp(t), s') || Unasking(s, s')
  {
    hide WellPlaced, MakeReady, Highest, OutranksCurrent, IsSuspended;
    MadeReadyUnasking(s, t);
    if t in s.event && s.schedulerSuspended > 0 {
      PendingUnasking(s, t, s.yieldPending);
    }
  }

  lemma SuspendUnasking(s: State, t: Task)
    requires WellPlaced(s) && t in s.tasks && SuspendedList in s.lists
    ensures var s' := TaskSuspended(s, t); Asks(s, SuspendOp(t), s') || Unasking(s, s')
  {
    var s' := TaskSuspended(s, t);
    assert forall u :: InReady(s', u) <==> InReady(s, u) && u != t by {
      hide ListsAgree, Rest, Without;
    }
    assert s'.priority == s.priority && s'.current == s.current && s'.yieldPending == s.yieldPending
           && s'.schedulerSuspended == s.schedulerSuspended by {
      hide ListsAgree, Rest, Without;
    }
    hide InReady, TaskSuspended, WellPlaced, Highest;
    if t != s.current {
      LeavesHighest(s, s');
    }
  }

  lemma DeleteUnasking(s: State, t: Task)
    requires WellPlaced(s) && t in s.tasks && TerminationList in s.lists
    ensures var s' := TaskDeleted(s, t); Asks(s, DeleteOp(t), s') || Unasking(s, s')
    ensures t != s.current ==> Unasking(s, Forgotten(s, t))
  {
    if t != s.current {
      ForgetUnasking(s, t);
      hide Forgotten, Highest;
      SameNext(s, Forgotten(s, t));
    }
  }

  lemma SameNext(s: State, s': State)
    requires Unasking(s, s')
    ensures Unasking(s, ResetNext(s'))
  {
    assert forall u :: InReady(ResetNext(s'), u) == InReady(s', u);
  }

  lemma ForgetUnasking(s: State, t: Task)
    requires WellPlaced(s) && t in s.tasks && t != s.current
    ensures Unasking(s, Forgotten(s, t))
  {
    var s' := Forgotten(s, t);
    assert forall u :: InReady(s', u) <==> InReady(s, u) && u != t by {
      hide ListsAgree, Without;
    }
    assert forall u :: u != t ==> PriorityOf(s', u) == PriorityOf(s, u) by {
      hide ListsAgree, Without;
    }
    assert s'.current == s.current && s'.yieldPending == s.yieldPending && s'.schedulerSuspended == s.schedulerSuspended;
    hide InReady, Forgotten, WellPlaced, PriorityOf, Highest;
    LeavesHighest(s, s');
  }

  lemma CreateUnasking(s: State, t: Task, p: int)
    requires s.place.Keys == s.priority.Keys == s.tasks && t !in s.tasks && s.current in s.tasks
    requires ReadyList(p) in s.lists && s.lists[ReadyList(p)].idx <= |s.lists[ReadyList(p)].items|
    ensures var s' := Created(s, t, p); Asks(s, CreateOp(t, p), s') || Unasking(s, s')
  {
    var s' := Created(s, t, p);
    assert forall u :: u != t ==> InReady(s', u) == InReady(s, u) && PriorityOf(s', u) == PriorityOf(s, u);
    assert PriorityOf(s', t) == p && s'.current == s.current && s'.yieldPending == s.yieldPending
           && s'.schedulerSuspended == s.schedulerSuspended;
    hide InReady, Created, PriorityOf;
    if p <= PriorityOf(s, s.current) && Highest(s) {
      StillHighest(s, s', t);
    }
  }

  lemma PriorityPlaces(s: State, t: Task, p: int)
    requires Core(s) && t in s.tasks && 0 <= p < MAX_PRIORITIES && ReadyList(p) in s.lists
    ensures var s' := PriorityChanged(s, t, p);
            && s'.current == s.current && s'.yieldPending == s.yieldPending && s'.schedulerSuspended == s.schedulerSuspended
            && s'.tasks == s.tasks && s'.priority == s.priority[t := p]
            && forall u :: InReady(s', u) == InReady(s, u)
  {
    hide ListsAgree, DelaysSorted, EventsConsistent, Rest, Without;
  }

  lemma PriorityUnasking(s: State, t: Task, p: int)
    requires Core(s) && t in s.tasks && 0 <= p < MAX_PRIORITIES && ReadyList(p) in s.lists
    ensures var s' := PriorityChanged(s, t, p); Asks(s, SetPriorityOp(t, p), s') || Unasking(s, s')
  {
    PriorityPlaces(s, t, p);
    var s' := PriorityChanged(s, t, p);
    assert s.priority.Keys == s.tasks && s.current in s.tasks;
    assert forall u :: u != t ==> PriorityOf(s', u) == PriorityOf(s, u);
    assert PriorityOf(s', t) == p;
    hide InReady, Core, PriorityChanged, PriorityOf;
    if !Asks(s, SetPriorityOp(t, p), s') && Highest(s) {
      if t == s.current {
        assert Highest(s');
      } else {
        assert InReady(s, t) ==> PriorityOf(s, t) <= PriorityOf(s, s.current);
        StillHighest(s, s', t);
      }
    }
  }

  /** After a context switch the task that runs is one that no ready task outranks. */
  lemma SwitchAnswers(s: State)
    requires Inv(s) && exists t :: t in s.tasks && s.place[t].ReadyList?
    ensures Answered(Switched(s), false)
  {
    if s.schedulerSuspended == 0 {
      SwitchedKeeps(s);
      SwitchedToHighest(s);
      SwitchedFrame(s);
      var s' := Switched(s);
      hide Core, DelaysAhead, StatusOf, Switched, TopReady, PriorityOf;
      assert Core(s');
      forall t | InReady(s', t)
        ensures PriorityOf(s', t) <= PriorityOf(s', s'.current)
      {
        ReadyIsInReady(s', t);
        PrioritiesSame(s, s', t);
        PrioritiesSame(s, s', s'.current);
      }
      ReadyIsInReady(s', s'.current);
    }
  }

  lemma PrioritiesSame(s: State, s': State, t: Task)
    requires s'.priority == s.priority
    ensures PriorityOf(s', t) == PriorityOf(s, t)
  {
  }

  lemma StepAnswers(s: State, op: Op, idle: Task)
    requires Inv(s) && IdleReady(s, idle) && Enabled(s, op, idle)
    ensures var s' := Perform(s, op, idle);
            if op.SwitchOp? then Answered(s', false) else Asks(s, op, s') || Unasking(s, s')
  {
    hide Inv, Core, DelaysAhead, WellPlaced, EventsConsistent, IncrementTick, Resumed, Blocked, EventGiven, DelayAborted,
         TaskSuspended, TaskResumed, TaskResumedFromISR, TaskDeleted, Forgotten, PriorityChanged, MakeReady, Created, Switched,
         Highest, Asks, Unasking, Answered, OutranksCurrent;
    Basics(s);
    match op
    case TickOp =>
      if s.schedulerSuspended == 0 {
        TickUnasking(s);
      } else {
        PendedUnasking(s);
      }
    case SuspendAllOp => DepthUnasking(s);
    case ResumeAllOp => ResumeUnasking(s);
    case BlockOp(wait, indefinite, onEvent) => BlockAsks(s, op, Perform(s, op, idle));
    case EventOp(t) => ListsExist(s, t); EventUnasking(s, t);
    case AbortDelayOp(t) => ListsExist(s, t); AbortUnasking(s, t);
    case UnorderedEventOp(t) => ListsExist(s, t); MadeReadyUnasking(s, t);
    case SuspendOp(t) => ListsExist(s, t); SuspendUnasking(s, t);
    case ResumeOp(t) => ListsExist(s, t); ResumeTaskUnasking(s, t);
    case ResumeFromISROp(t) => ListsExist(s, t); ResumeTaskUnasking(s, t);
    case CreateOp(t, p) => CreatedUnfolds(s, t, p); CreateUnasking(s, t, p);
    case DeleteOp(t) => ListsExist(s, t); DeleteUnasking(s, t);
    case CleanUpOp(t) => ForgetUnasking(s, t);
    case SetPriorityOp(t, p) => PriorityUnasking(s, t, p);
    case SwitchOp => SomeReadyThere(s, idle); SwitchAnswers(s);
  }

  lemma PendedUnasking(s: State)
    ensures Unasking(s, s.(pendedTicks := s.pendedTicks + 1))
  {
    var s' := s.(pendedTicks := s.pendedTicks + 1);
    assert forall t :: InReady(s', t) == InReady(s, t);
    assert forall t :: PriorityOf(s', t) == PriorityOf(s, t);
  }

  lemma DepthUnasking(s: State)
    ensures Unasking(s, s.(schedulerSuspended := s.schedulerSuspended + 1))
  {
    var s' := s.(schedulerSuspended := s.schedulerSuspended + 1);
    assert forall t :: InReady(s', t) == InReady(s, t);
    assert forall t :: PriorityOf(s', t) == PriorityOf(s, t);
  }

  lemma BlockAsks(s: State, op: Op, s': State)
    requires op.BlockOp?
    ensures Asks(s, op, s')
  {
  }

  lemma AnsweredStep(s: State, s': State, op: Op, asked: bool)
    requires Answered(s, asked)
    requires if op.SwitchOp? then Answered(s', false) else Asks(s, op, s') || Unasking(s, s')
    ensures Answered(s', !op.SwitchOp? && (asked || Asks(s, op, s')))
  {
    hide Highest, Asks;
  }

  /**
  Preemption, over any run from the start: while the scheduler is not suspended, either a context
  switch has been asked for since the last one, or the running task is ready and no ready task
  outranks it.
  */
  lemma {:induction false} PreemptionHolds(s: State, ops: seq<Op>, idle: Task, asked: bool)
    requires Inv(s) && IdleReady(s, idle) && Legal(s, ops, idle) && Answered(s, asked)
    ensures var s' := After(s, ops, idle);
            Inv(s') && Answered(s', AskedAfter(s, ops, idle, asked))
    decreases |ops|
  {
    hide Inv, IdleReady, Perform, Enabled, Answered, Asks, StatusOf;
    if ops != [] {
      PerformKeeps(s, ops[0], idle);
      StepAnswers(s, ops[0], idle);
      var s1 := Perform(s, ops[0], idle);
      AnsweredStep(s, s1, ops[0], asked);
      PreemptionHolds(s1, ops[1..], idle, !ops[0].SwitchOp? && (asked || Asks(s, ops[0], s1)));
    }
  }

  /** The same, from the start, in words of the ready lists alone. */
  lemma HighestRuns(made: seq<NewTask>, ops: seq<Op>, idle: Task)
    requires made != [] && AllNew(made) && idle in TasksOf(made)
    ensures var s := Started(made);
            && IdleReady(s, idle)
            && (Legal(s, ops, idle) ==>
                  var s', asked := After(s, ops, idle), AskedAfter(s, ops, idle, false);
                  s'.schedulerSuspended == 0 && !asked ==>
                    && InReady(s', s'.current)
                    && forall t :: InReady(s', t) ==> PriorityOf(s', t) <= PriorityOf(s', s'.current))
  {
    StartedIsLegal(made, idle);
    var s := Started(made);
    assert Answered(s, false) by {
      ReadyStart(s);
    }
    hide Inv, Started, Legal, After, AskedAfter, InReady, PriorityOf, IdleReady;
    if Legal(s, ops, idle) {
      PreemptionHolds(s, ops, idle, false);
    }
  }

  lemma ReadyStart(s: State)
    requires AllReady(s)
    ensures Highest(s)
  {
  }

  // ----- What no other operation does

  predicate SamePriorities(s: State, s': State) {
    s'.priority == s.priority && s'.current == s.current
  }

  lemma MovesKeepPriorities(s: State, u: Task)
    requires WellPlaced(s) && u in s.tasks && ReadyList(s.priority[u]) in s.lists
    ensures SamePriorities(s, MakeReady(s, u)) && SamePriorities(s, EventGiven(s, u)) && SamePriorities(s, DelayAborted(s, u))
    ensures SamePriorities(s, TaskResumed(s, u)) && SamePriorities(s, TaskResumedFromISR(s, u))
  {
    hide ListsAgree, Rest, Without, IsBlocked, IsSuspended, OutranksCurrent;
  }

  lemma BlockKeepsPriorities(s: State, wait: Tick, indefinite: bool, onEvent: bool)
    requires WellPlaced(s) && s.current in s.tasks && 0 <= s.cur < 2
    ensures SamePriorities(s, Blocked(s, wait, indefinite, onEvent))
  {
    DelayListsExist(s);
    hide ListsAgree, Rest, Without, Wrap;
  }

  /** What an operation may change of the priorities and of which task runs. */
  ghost predicate OnlyItsOwn(s: State, op: Op, s': State) {
    && (s'.current != s.current ==> op.SwitchOp? && s.schedulerSuspended == 0)
    && forall t :: t in s.tasks && t in s'.tasks ==>
         PriorityOf(s', t) == if op.SetPriorityOp? && op.t == t then op.p else PriorityOf(s, t)
  }

  lemma SameIsOwn(s: State, op: Op, s': State)
    requires SamePriorities(s, s') && !op.SetPriorityOp?
    ensures OnlyItsOwn(s, op, s')
  {
  }

  lemma LeavingKeepsPriorities(s: State, op: Op, u: Task)
    requires WellPlaced(s) && u in s.tasks && SuspendedList in s.lists && TerminationList in s.lists
    requires !op.SetPriorityOp?
    ensures OnlyItsOwn(s, op, TaskSuspended(s, u)) && OnlyItsOwn(s, op, TaskDeleted(s, u)) && OnlyItsOwn(s, op, Forgotten(s, u))
  {
    LeavingFrame(s, u);
    hide WellPlaced, TaskSuspended, TaskDeleted, Forgotten;
  }

  lemma LeavingFrame(s: State, u: Task)
    requires WellPlaced(s) && u in s.tasks && SuspendedList in s.lists && TerminationList in s.lists
    ensures SamePriorities(s, TaskSuspended(s, u))
    ensures var s' := Forgotten(s, u);
            s'.priority == s.priority - {u} && s'.current == s.current && s'.tasks == s.tasks - {u}
    ensures var s' := TaskDeleted(s, u);
            s'.current == s.current && (s'.priority == s.priority || (s'.priority == s.priority - {u} && s'.tasks == s.tasks - {u}))
  {
    hide ListsAgree, Rest, Without, Dropped;
  }

  lemma CreateKeepsPriorities(s: State, op: Op, u: Task, p: int)
    requires u !in s.tasks && !op.SetPriorityOp? && s.priority.Keys == s.tasks
    requires ReadyList(p) in s.lists && s.lists[ReadyList(p)].idx <= |s.lists[ReadyList(p)].items|
    ensures OnlyItsOwn(s, op, Created(s, u, p))
  {
  }

  lemma SwitchKeepsPriorities(s: State, op: Op)
    requires Core(s) && (exists t :: t in s.tasks && s.place[t].ReadyList?) && op.SwitchOp?
    ensures OnlyItsOwn(s, op, Switched(s))
  {
    SwitchedFrame(s);
    SuspendedSwitch(s);
    hide Core, Switched;
  }

  lemma PriorityKeepsPriorities(s: State, op: Op)
    requires Inv(s) && op.SetPriorityOp? && op.t in s.tasks && 0 <= op.p < MAX_PRIORITIES
    ensures WellPlaced(s) && ReadyList(op.p) in s.lists && OnlyItsOwn(s, op, PriorityChanged(s, op.t, op.p))
  {
    PriorityChangedKeeps(s, op.t, op.p);
    PriorityPlaces(s, op.t, op.p);
    assert s.priority.Keys == s.tasks && WellPlaced(s);
    hide Inv, Core, WellPlaced, PriorityChanged;
  }

  /** Only a context switch changes which task runs, and only a change of priority a task's priority. */
  lemma OnlySwitchesSwitch(s: State, op: Op, idle: Task)
    requires Inv(s) && IdleReady(s, idle) && Enabled(s, op, idle)
    ensures OnlyItsOwn(s, op, Perform(s, op, idle))
  {
    if op.TickOp? && s.schedulerSuspended == 0 {
      TickKeeps(s);
    } else if op.ResumeAllOp? {
      ResumeAsks(s);
    }
    hide Inv, Core, DelaysAhead, WellPlaced, EventsConsistent, IncrementTick, Resumed, Blocked, EventGiven, DelayAborted,
         TaskResumed, TaskResumedFromISR, PriorityChanged, MakeReady, Switched, Created, TaskSuspended, TaskDeleted,
         Forgotten, OutranksCurrent, OnlyItsOwn, Now, SomeCameAbove, Shared;
    Basics(s);
    var s' := Perform(s, op, idle);
    match op
    case BlockOp(wait, indefinite, onEvent) => BlockKeepsPriorities(s, wait, indefinite, onEvent); SameIsOwn(s, op, s');
    case EventOp(u) => ListsExist(s, u); MovesKeepPriorities(s, u); SameIsOwn(s, op, s');
    case AbortDelayOp(u) => ListsExist(s, u); MovesKeepPriorities(s, u); SameIsOwn(s, op, s');
    case UnorderedEventOp(u) => ListsExist(s, u); MovesKeepPriorities(s, u); SameIsOwn(s, op, s');
    case ResumeOp(u) => ListsExist(s, u); MovesKeepPriorities(s, u); SameIsOwn(s, op, s');
    case ResumeFromISROp(u) => ListsExist(s, u); MovesKeepPriorities(s, u); SameIsOwn(s, op, s');
    case CreateOp(u, p) => CreatedUnfolds(s, u, p); CreateKeepsPriorities(s, op, u, p);
    case SetPriorityOp(u, p) => PriorityKeepsPriorities(s, op);
    case SwitchOp => SomeReadyThere(s, idle); SwitchKeepsPriorities(s, op);
    case SuspendOp(u) => LeavingKeepsPriorities(s, op, u);
    case DeleteOp(u) => LeavingKeepsPriorities(s, op, u);
    case CleanUpOp(u) => LeavingKeepsPriorities(s, op, u);
    case _ => SameIsOwn(s, op, s');
  }

  lemma SuspendedSwitch(s: State)
    requires Core(s) && exists t :: t in s.tasks && s.place[t].ReadyList?
    ensures s.schedulerSuspended != 0 ==> Switched(s) == s.(yieldPending := true)
  {
  }
}
