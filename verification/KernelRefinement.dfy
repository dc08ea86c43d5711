/**
Each operation on the kernel's representation (rtos/source/tasks.c) performs one step of the
machine over absolute time.

The lemmas named ...Meaning say which step.  Those named ...Unfolds collect what one method of the
scheduler class, or one turn of one of its loops, needs to know about the functions it is proved
against; the methods themselves then work with these functions as they stand.
*/
module KernelRefinement {
  import opened Config
  import opened Lists
  import opened KernelState
  import opened KernelMeaning

  /** Two meanings are equal if they agree on every task. */
  lemma SameMeaning(a: Meaning, b: Meaning)
    requires a.now == b.now && a.pended == b.pended && a.depth == b.depth && a.status.Keys == b.status.Keys
    requires forall u :: u in a.status ==> a.status[u] == b.status[u]
    ensures a == b
  {
    assert a.status.Keys == b.status.Keys && (forall u :: u in a.status ==> a.status[u] == b.status[u]) ==> a.status == b.status;
  }

  lemma MeaningIsConsistent(s: State)
    requires Inv(s)
    ensures Consistent(MeaningOf(s))
  {
  }

  lemma TickMeaning(s: State)
    requires Inv(s) && s.schedulerSuspended == 0
    ensures Inv(IncrementTick(s))
    ensures MeaningOf(IncrementTick(s)) == Apply(MeaningOf(s), TickInterrupt)
  {
    TickKeeps(s);
    hide Core, DelaysAhead, IncrementTick, StatusOf;
    forall u | u in s.tasks
      ensures StatusOf(IncrementTick(s), u) == Expired(StatusOf(s, u), Now(s) + 1)
    {
      TickRefines(s, u);
    }
    SameMeaning(MeaningOf(IncrementTick(s)), Apply(MeaningOf(s), TickInterrupt));
  }

  /** s' is s with some tasks more made ready and nothing else changed about any status. */
  ghost predicate MoreReady(s: State, s': State) {
    && s'.tasks == s.tasks && s'.priority == s.priority && s'.current == s.current
    && forall u :: u in s.tasks ==> StatusOf(s', u) == StatusOf(s, u) || StatusOf(s', u) == Ready
  }

  lemma WokenAboveStep(a: State, s: State, h: Task)
    requires WellPlaced(s) && h in s.tasks && ReadyList(s.priority[h]) in s.lists
    requires MoreReady(a, s) && StatusOf(s, h) != Ready
    ensures MoreReady(a, MakeReady(s, h))
    ensures WokenAbove(a, MakeReady(s, h)) <==> WokenAbove(a, s) || OutranksCurrent(s, h)
  {
    var m := MakeReady(s, h);
    assert m.tasks == s.tasks && m.priority == s.priority && m.current == s.current;
    hide ListsAgree, MakeReady, StatusOf;
    forall u | u in s.tasks
      ensures StatusOf(m, u) == if u == h then Ready else StatusOf(s, u)
    {
      MakeReadyStatus(s, h, u);
    }
    if WokenAbove(a, s) {
      var u :| u in a.tasks && StatusOf(a, u) != Ready && StatusOf(s, u) == Ready && PriorityOf(s, u) > PriorityOf(s, s.current);
      assert StatusOf(m, u) == Ready && PriorityOf(m, u) > PriorityOf(m, m.current);
    }
    if OutranksCurrent(s, h) {
      assert StatusOf(m, h) == Ready && PriorityOf(m, h) > PriorityOf(m, m.current);
    }
  }

  /** No task of the current list is due. */
  ghost predicate NothingDue(s: State) {
    var d := Items(s, DelayList(s.cur));
    d == [] || s.tickCount < WakeOf(s.wake, d[0])
  }

  /** One turn of the loop that unblocks tasks. */
  lemma DrainUnfolds(s: State)
    requires Core(s) && s.pendingReady == []
    ensures DelayList(s.cur) in s.lists && s.current in s.tasks && s.priority.Keys == s.tasks
    ensures NothingDue(s) ==> Drain(s) == ResetNext(s)
    ensures !NothingDue(s) ==>
              && s.lists[DelayList(s.cur)].items != []
              && var t := s.lists[DelayList(s.cur)].items[0];
              && t in s.tasks && WellPlaced(s) && EventsConsistent(s)
              && ReadyList(s.priority[t]) in s.lists && s.priority[t] >= 0 && StatusOf(s, t) != Ready
              && Core(MakeReady(s, t)) && MakeReady(s, t).pendingReady == [] && Drain(s) == Drain(MakeReady(s, t))
              && |Items(MakeReady(s, t), DelayList(s.cur))| < |Items(s, DelayList(s.cur))|
  {
    DelayListsExist(s);
    if !NothingDue(s) {
      var t := Items(s, DelayList(s.cur))[0];
      HeadIsPlaced(s);
      WakingHeadShortens(s);
      ListsExist(s, t);
      MakeReadyKeeps(s, t);
    }
  }

  lemma ReadyListsExist(s: State)
    requires Core(s)
    ensures s.current in s.priority && ReadyList(s.priority[s.current]) in s.lists
  {
  }

  lemma MoreReadyStart(s: State)
    ensures MoreReady(s, s) && !WokenAbove(s, s)
  {
  }

  lemma ResetNextWokenAbove(a: State, s: State)
    ensures WokenAbove(a, ResetNext(s)) <==> WokenAbove(a, s)
  {
    assert forall u :: StatusOf(ResetNext(s), u) == StatusOf(s, u);
  }

  lemma TaskListsExist(s: State, t: Task)
    requires Core(s) && t in s.tasks
    ensures t in s.priority && t in s.event && t in s.place && s.current in s.priority && WellPlaced(s) && EventsConsistent(s)
    ensures ReadyList(s.priority[t]) in s.lists && s.priority[t] >= 0
  {
    ListsExist(s, t);
  }

  lemma ReadyCounters(s: State, t: Task)
    requires WellPlaced(s) && t in s.tasks && ReadyList(s.priority[t]) in s.lists
    ensures MakeReady(s, t).schedulerSuspended == s.schedulerSuspended && MakeReady(s, t).yieldPending == s.yieldPending
  {
  }

  lemma SuspendedIsReadable(s: State, t: Task)
    requires Core(s) && t in s.tasks
    ensures SuspendedList in s.lists && WellPlaced(s) && EventsConsistent(s)
    ensures CoreButNext(ToEnd(s, t, SuspendedList))
  {
    ListsExist(s, t);
    RestIsValid(s, t, SuspendedList);
    RelocateKeepsCore(s, t, SuspendedList, Rest(s, t, SuspendedList).EndPos());
    hide Core;
    CoreIsCoreButNext(ToEnd(s, t, SuspendedList));
  }

  /** What changing a priority needs, and that it changes no status. */
  lemma PriorityChangedReady(s: State, t: Task, p: int)
    requires Core(s) && t in s.tasks && 0 <= p < MAX_PRIORITIES
    ensures t in s.place && t in s.priority && ReadyList(p) in s.lists && WellPlaced(s)
    ensures MeaningOf(PriorityChanged(s, t, p)) == MeaningOf(s)
    ensures s.place[t] == ReadyList(s.priority[t]) ==>
              WellPlaced(s.(priority := s.priority[t := p])) && EventsConsistent(s.(priority := s.priority[t := p]))
    ensures PriorityChanged(s, t, p).priority == s.priority[t := p]
  {
    assert ReadyList(p) in s.lists;
    if s.event[t] != PendingReadyList {
      hide ListsAgree, DelaysSorted, MeaningOf, ReadyByPriority;
      PriorityChangedMeaning(s, t, p);
    } else {
      hide ListsAgree, DelaysSorted, MeaningOf, ReadyByPriority;
      PrioritiesNoMeaning(s, s.priority[t := p]);
    }
  }

  lemma EveryPriority(s: State)
    requires Inv(s)
    ensures s.priority.Keys == s.tasks
  {
  }

  lemma SwitchedFrame(s: State)
    requires Core(s) && exists t :: t in s.tasks && s.place[t].ReadyList?
    ensures var s' := Switched(s);
            && s'.tasks == s.tasks && s'.priority == s.priority && Now(s') == Now(s)
            && s'.pendedTicks == s.pendedTicks && s'.schedulerSuspended == s.schedulerSuspended
  {
    hide ListsAgree, ReadyAgree, Sorted, EventsAgree, TopReady;
  }

  lemma SwitchedMeaning(s: State)
    requires Inv(s) && exists t :: t in s.tasks && s.place[t].ReadyList?
    ensures MeaningOf(Switched(s)) == MeaningOf(s) && Switched(s).priority == s.priority
  {
    SwitchedKeeps(s);
    SwitchedFrame(s);
    hide Core, DelaysAhead, StatusOf, TopReady, Switched;
    SameMeaning(MeaningOf(Switched(s)), MeaningOf(s));
  }

  lemma HeadHasWakeTime(s: State)
    requires CoreButNext(s)
    ensures DelayList(s.cur) in s.lists
    ensures s.lists[DelayList(s.cur)].items != [] ==> s.lists[DelayList(s.cur)].items[0] in s.wake
  {
    DelayListsExist(s);
    var d := s.lists[DelayList(s.cur)].items;
    if d != [] {
      assert d[0] in s.lists[DelayList(s.cur)].items;
    }
  }

  lemma EitherListCanBeCurrent(s: State)
    requires CoreButNext(s)
    ensures CoreButNext(s.(cur := if s.cur == 0 then 1 else 0, numOfOverflows := s.numOfOverflows + 1))
  {
    hide ListsAgree, ReadyAgree, EventsAgree, Sorted;
  }

  lemma CoreIsCoreButNext(s: State)
    requires Core(s)
    ensures CoreButNext(s)
  {
    hide ListsAgree, ReadyAgree, EventsAgree, Sorted;
  }

  lemma CoreWithAnyTick(s: State, t: Tick)
    requires Core(s)
    ensures CoreButNext(s.(tickCount := t))
  {
    hide ListsAgree, ReadyAgree, EventsAgree, Sorted;
  }

  lemma DepthOfMeaning(s: State)
    ensures MeaningOf(s).depth == s.schedulerSuspended && MeaningOf(s).pended == s.pendedTicks
  {
  }

  lemma PendedMeaning(s: State, n: nat)
    ensures MeaningOf(s.(pendedTicks := n)) == MeaningOf(s).(pended := n)
  {
    assert forall u :: StatusOf(s.(pendedTicks := n), u) == StatusOf(s, u);
  }

  /** The tick itself changes no status, so what the loop woke is what the whole tick woke. */
  lemma TickWokenAbove(s: State)
    requires Core(s) && DelaysAhead(s) && Core(Advanced(s))
    ensures Advanced(s).yieldPending == s.yieldPending && Advanced(s).pendingReady == s.pendingReady
    ensures forall s' :: WokenAbove(Advanced(s), s') <==> WokenAbove(s, s')
    ensures !WokenAbove(s, Advanced(s))
  {
    AdvancedForm(s);
    hide Core, DelaysAhead, StatusOf;
    forall u | u in s.tasks
      ensures StatusOf(Advanced(s), u) == StatusOf(s, u)
    {
      AdvancedStatus(s, u);
    }
  }

  lemma ResumeKeeps(s: State)
    requires Inv(s) && s.schedulerSuspended > 0
    ensures Inv(Resumed(s)) && Resumed(s).tasks == s.tasks
    ensures Resumed(s).schedulerSuspended == s.schedulerSuspended - 1
    ensures if s.schedulerSuspended == 1 then Now(Resumed(s)) == Now(s) + s.pendedTicks && Resumed(s).pendedTicks == 0
            else Now(Resumed(s)) == Now(s) && Resumed(s).pendedTicks == s.pendedTicks
  {
    var s1 := s.(schedulerSuspended := s.schedulerSuspended - 1);
    DepthKeeps(s, s1.schedulerSuspended);
    hide Core, DelaysAhead, Unpended, Replay;
    if s1.schedulerSuspended == 0 {
      UnpendedKeeps(s1);
      ReplayKeeps(Unpended(s1), s1.pendedTicks);
      PendedKeeps(Replay(Unpended(s1), s1.pendedTicks), 0);
    }
  }

  lemma DepthKeeps(s: State, depth: nat)
    requires Core(s) && DelaysAhead(s)
    ensures Core(s.(schedulerSuspended := depth)) && DelaysAhead(s.(schedulerSuspended := depth))
  {
    hide ListsAgree, ReadyAgree, EventsAgree, Sorted;
  }

  lemma DepthMeaning(s: State, depth: nat)
    ensures MeaningOf(s.(schedulerSuspended := depth)) == MeaningOf(s).(depth := depth)
  {
    assert forall u :: StatusOf(s.(schedulerSuspended := depth), u) == StatusOf(s, u);
  }

  lemma FirstPendingUnfolds(s: State)
    requires Core(s) && s.pendingReady != []
    ensures var h := s.pendingReady[0];
            && h in s.tasks && WellPlaced(s) && EventsConsistent(s) && s.priority.Keys == s.tasks
            && s.current in s.tasks && ReadyList(s.priority[h]) in s.lists && s.priority[h] >= 0
            && Core(FirstPendingMoved(s)) && DrainPending(FirstPendingMoved(s)) == DrainPending(s)
            && FirstPendingMoved(s).pendingReady == s.pendingReady[1..]
            && FirstPendingMoved(s) == MakeReady(s, h).(yieldPending := s.yieldPending || s.priority[h] > s.priority[s.current])
  {
    assert s.pendingReady[0] in s.pendingReady;
    FirstPendingKeepsCore(s);
    ListsExist(s, s.pendingReady[0]);
  }

  lemma ResumedUnfolds(s: State)
    requires Core(s) && DelaysAhead(s) && s.schedulerSuspended > 0
    ensures var s1 := s.(schedulerSuspended := s.schedulerSuspended - 1);
            && Core(s1) && DelaysAhead(s1)
            && Core(Unpended(s1)) && DelaysAhead(Unpended(s1)) && Unpended(s1).pendingReady == []
            && Unpended(s1).pendedTicks == s1.pendedTicks
            && Resumed(s) == (if s1.schedulerSuspended > 0 then s1
                              else Replay(Unpended(s1), s1.pendedTicks).(pendedTicks := 0))
            && (s1.schedulerSuspended == 0 ==> Replay(Unpended(s1), s1.pendedTicks).schedulerSuspended == 0)
  {
    var s1 := s.(schedulerSuspended := s.schedulerSuspended - 1);
    DepthKeeps(s, s1.schedulerSuspended);
    UnpendedKeeps(s1);
    hide Core, DelaysAhead, Unpended, Replay;
    ReplayKeeps(Unpended(s1), s1.pendedTicks);
  }

  lemma DelayListsExistHere(s: State)
    requires Core(s)
    ensures DelayList(s.cur) in s.lists && DelayList(1 - s.cur) in s.lists
  {
    DelayListsExist(s);
  }

  lemma DelayCurrentUnfolds(s: State, wait: Tick)
    requires Core(s) && s.place[s.current].ReadyList?
    ensures var w := Wrap(s.tickCount + wait);
            var s1 := s.(wake := s.wake[s.current := w]);
            && CoreButNext(s1) && WellPlaced(s1) && 0 <= s.cur < 2 && s.current in s.tasks
            && DelayList(s.cur) in s.lists && DelayList(1 - s.cur) in s.lists
            && KernelState.DelayCurrent(s, wait) ==
               if w < s.tickCount then ToDelayList(s1, s.current, 1 - s.cur)
               else ToDelayList(s1, s.current, s.cur).(nextTaskUnblockTime :=
                      if w < s.nextTaskUnblockTime then w else s.nextTaskUnblockTime)
  {
    hide Wrap, ListsAgree, ReadyAgree, EventsAgree, Sorted, ToDelayList;
    SetWakeKeeps(s, s.current, Wrap(s.tickCount + wait));
    DelayListsExistHere(s);
  }

  lemma NonePendingUnfolds(s: State)
    requires Core(s) && s.pendingReady == []
    ensures DrainPending(s) == s
  {
  }

  lemma SwitchRequiredIncludesYield(s: State, s': State)
    ensures s.yieldPending ==> SwitchRequired(s, s')
  {
  }

  /** The suspension depth and the pended ticks are no part of a status. */
  lemma CountersStatus(s: State, depth: nat, n: nat, u: Task)
    ensures StatusOf(s.(schedulerSuspended := depth), u) == StatusOf(s, u)
    ensures StatusOf(s.(pendedTicks := n), u) == StatusOf(s, u)
  {
  }

  lemma PendedKeeps(s: State, n: nat)
    requires Core(s) && DelaysAhead(s)
    ensures Core(s.(pendedTicks := n)) && DelaysAhead(s.(pendedTicks := n))
  {
    hide ListsAgree, ReadyAgree, EventsAgree, Sorted;
  }

  lemma ResumeStatus(s: State, u: Task)
    requires Inv(s) && s.schedulerSuspended > 0 && u in s.tasks
    ensures StatusOf(Resumed(s), u) ==
            if s.schedulerSuspended == 1 && s.pendedTicks > 0 then Expired(StatusOf(s, u), Now(s) + s.pendedTicks)
            else StatusOf(s, u)
  {
    var s1 := s.(schedulerSuspended := s.schedulerSuspended - 1);
    DepthKeeps(s, s1.schedulerSuspended);
    CountersStatus(s, s1.schedulerSuspended, 0, u);
    hide Core, DelaysAhead, Unpended, Replay, StatusOf;
    if s1.schedulerSuspended == 0 {
      UnpendedKeeps(s1);
      UnpendedStatus(s1, u);
      ReplayRefines(Unpended(s1), s1.pendedTicks, u);
      CountersStatus(Replay(Unpended(s1), s1.pendedTicks), 0, 0, u);
    }
  }

  lemma ResumeMeaning(s: State)
    requires Inv(s) && s.schedulerSuspended > 0
    ensures MeaningOf(Resumed(s)) == Apply(MeaningOf(s), ResumeAll)
  {
    hide Core, DelaysAhead, Resumed, StatusOf;
    ResumeKeeps(s);
    forall u | u in s.tasks
      ensures StatusOf(Resumed(s), u) ==
              if s.schedulerSuspended == 1 && s.pendedTicks > 0 then Expired(StatusOf(s, u), Now(s) + s.pendedTicks)
              else StatusOf(s, u)
    {
      ResumeStatus(s, u);
    }
    SameMeaning(MeaningOf(Resumed(s)), Apply(MeaningOf(s), ResumeAll));
  }

  /** Exactly when blocking keeps the invariant: unless for no ticks just before the tick count wraps. */
  lemma BlockKeeps(s: State, wait: Tick, indefinite: bool, onEvent: bool)
    requires Inv(s) && s.place[s.current].ReadyList?
    ensures Core(Blocked(s, wait, indefinite, onEvent))
    ensures Inv(Blocked(s, wait, indefinite, onEvent)) <==> !(wait == 0 && s.tickCount == MAX_DELAY)
  {
    BlockedKeepsCore(s, wait, indefinite, onEvent);
    BlockedAhead(s, wait, indefinite, onEvent);
    BlockedForm(s, wait, indefinite, onEvent);
    hide Core, ListsAgree, DelaysAhead, Blocked;
  }

  /** A change to one task's status only. */
  lemma OneStatusChanged(s: State, s': State, t: Task, st: Status)
    requires t in s.tasks && s'.tasks == s.tasks && Now(s') == Now(s)
    requires s'.pendedTicks == s.pendedTicks && s'.schedulerSuspended == s.schedulerSuspended
    requires forall u :: u in s.tasks ==> StatusOf(s', u) == if u == t then st else StatusOf(s, u)
    ensures MeaningOf(s') == Apply(MeaningOf(s), SetStatus(t, st))
  {
    hide StatusOf;
    SameMeaning(MeaningOf(s'), Apply(MeaningOf(s), SetStatus(t, st)));
  }

  lemma BlockedCounters(s: State, wait: Tick, indefinite: bool, onEvent: bool)
    requires WellPlaced(s) && s.current in s.tasks && 0 <= s.cur < 2
    ensures var s' := Blocked(s, wait, indefinite, onEvent);
            && s'.tasks == s.tasks && Now(s') == Now(s)
            && s'.pendedTicks == s.pendedTicks && s'.schedulerSuspended == s.schedulerSuspended
  {
    BlockedForm(s, wait, indefinite, onEvent);
    hide ListsAgree, Blocked;
  }

  /** What becomes of the task that blocks. */
  function BlockStep(s: State, wait: int, indefinite: bool): Step {
    if wait == MAX_DELAY && indefinite then SetStatus(s.current, Waiting) else Block(s.current, wait)
  }

  lemma BlockStepMeaning(s: State, s': State, wait: int, indefinite: bool)
    requires s.current in s.tasks && s'.tasks == s.tasks && Now(s') == Now(s)
    requires s'.pendedTicks == s.pendedTicks && s'.schedulerSuspended == s.schedulerSuspended
    requires forall u :: u in s.tasks ==>
               StatusOf(s', u) == if u != s.current then StatusOf(s, u)
                                  else if wait == MAX_DELAY && indefinite then Waiting else Delayed(Now(s) + wait)
    ensures MeaningOf(s') == Apply(MeaningOf(s), BlockStep(s, wait, indefinite))
  {
    hide StatusOf;
    OneStatusChanged(s, s', s.current, if wait == MAX_DELAY && indefinite then Waiting else Delayed(Now(s) + wait));
  }

  lemma BlockMeaning(s: State, wait: Tick, indefinite: bool, onEvent: bool)
    requires WellPlaced(s) && s.current in s.tasks && 0 <= s.cur < 2 && s.tickCount < TICK_MODULUS
    requires indefinite ==> onEvent
    ensures MeaningOf(Blocked(s, wait, indefinite, onEvent)) == Apply(MeaningOf(s), BlockStep(s, wait, indefinite))
  {
    BlockedCounters(s, wait, indefinite, onEvent);
    hide Blocked, StatusOf, WellPlaced, MeaningOf, Apply, BlockStep, Now;
    var s' := Blocked(s, wait, indefinite, onEvent);
    forall u | u in s.tasks
      ensures StatusOf(s', u) == if u != s.current then StatusOf(s, u)
                                 else if wait == MAX_DELAY && indefinite then Waiting else Delayed(Now(s) + wait)
    {
      BlockedStatus(s, wait, indefinite, onEvent, u);
    }
    BlockStepMeaning(s, s', wait, indefinite);
  }

  lemma MadeReadyMeaning(s: State, t: Task, b: bool)
    requires WellPlaced(s) && t in s.tasks && ReadyList(s.priority[t]) in s.lists
    ensures MeaningOf(MakeReady(s, t).(yieldPending := b)) == Apply(MeaningOf(s), SetStatus(t, Ready))
    ensures MeaningOf(MakeReady(s, t)) == Apply(MeaningOf(s), SetStatus(t, Ready))
  {
    hide ListsAgree;
    forall u | u in s.tasks
      ensures StatusOf(MakeReady(s, t), u) == if u == t then Ready else StatusOf(s, u)
    {
      MakeReadyStatus(s, t, u);
    }
    OneStatusChanged(s, MakeReady(s, t), t, Ready);
    OneStatusChanged(s, MakeReady(s, t).(yieldPending := b), t, Ready);
  }

  lemma PendingMeaning(s: State, t: Task, b: bool)
    requires s.place.Keys == s.wake.Keys == s.event.Keys == s.tasks && t in s.tasks
    ensures MeaningOf(s.(event := s.event[t := PendingReadyList], pendingReady := s.pendingReady + [t], yieldPending := b)) ==
            Apply(MeaningOf(s), SetStatus(t, Ready))
  {
    OneStatusChanged(s, s.(event := s.event[t := PendingReadyList], pendingReady := s.pendingReady + [t], yieldPending := b),
      t, Ready);
  }

  /** An event makes the task ready whether or not the scheduler is suspended. */
  lemma EventGivenMeaning(s: State, t: Task)
    requires WellPlaced(s) && t in s.tasks && ReadyList(s.priority[t]) in s.lists
    ensures MeaningOf(EventGiven(s, t)) == Apply(MeaningOf(s), SetStatus(t, Ready))
  {
    hide ListsAgree, MakeReady;
    var b := s.yieldPending || OutranksCurrent(s, t);
    if s.schedulerSuspended == 0 {
      MadeReadyMeaning(s, t, b);
    } else {
      PendingMeaning(s, t, b);
    }
  }

  lemma TaskSuspendedMeaning(s: State, t: Task)
    requires WellPlaced(s) && t in s.tasks && SuspendedList in s.lists
    ensures MeaningOf(TaskSuspended(s, t)) == Apply(MeaningOf(s), SetStatus(t, Suspended))
  {
    hide ListsAgree;
    forall u | u in s.tasks
      ensures StatusOf(TaskSuspended(s, t), u) == if u == t then Suspended else StatusOf(s, u)
    {
      TaskSuspendedStatus(s, t, u);
    }
    OneStatusChanged(s, TaskSuspended(s, t), t, Suspended);
  }

  lemma CreatedMeaning(s: State, t: Task, p: int)
    requires WellPlaced(s) && t !in s.tasks && ReadyList(p) in s.lists && s.lists[ReadyList(p)].Valid()
    ensures MeaningOf(Created(s, t, p)) == Apply(MeaningOf(s), SetStatus(t, Ready))
  {
    hide ListsAgree;
    SameMeaning(MeaningOf(Created(s, t, p)), Apply(MeaningOf(s), SetStatus(t, Ready)));
  }

  /** Moving an item, one list at a time. */
  lemma RelocateUnfolds(s: State, t: Task, l: Place)
    requires WellPlaced(s) && EventsConsistent(s) && t in s.tasks && l in s.lists
    ensures t in s.place && t in s.event && t in s.wake && s.place[t] in s.lists && t in s.lists[s.place[t]].items
    ensures t in s.pendingReady <==> s.event[t] == PendingReadyList
    ensures var lists := s.lists[s.place[t] := Without(s.lists[s.place[t]], t)];
            && lists[l] == Rest(s, t, l) && lists[l].Valid()
            && (forall k :: 0 <= k <= |lists[l].items| ==>
                  Relocate(s, t, l, k) == s.(place := s.place[t := l], event := s.event[t := NoList],
                                            pendingReady := Dropped(s.pendingReady, t),
                                            lists := lists[l := lists[l].InsertAt(k, t)]))
  {
    RestIsValid(s, t, l);
    assert s.place[t] in s.lists && t in s.lists[s.place[t]].items;
    hide ListsAgree;
  }

  lemma MakeReadyWithYield(s: State, t: Task, b: bool)
    requires WellPlaced(s) && t in s.tasks && ReadyList(s.priority[t]) in s.lists
    ensures WellPlaced(s.(yieldPending := b))
    ensures MakeReady(s.(yieldPending := b), t) == MakeReady(s, t).(yieldPending := b)
  {
    hide ListsAgree;
  }

  lemma ResumedFromISRUnfolds(s: State, t: Task)
    requires Inv(s) && t in s.tasks
    ensures t in s.priority && t in s.event && t in s.place && s.current in s.priority && WellPlaced(s) && EventsConsistent(s)
    ensures ReadyList(s.priority[t]) in s.lists && s.priority[t] >= 0
    ensures var s' := TaskResumedFromISR(s, t);
            && Inv(s')
            && MeaningOf(s') == if IsSuspended(s, t) then Apply(MeaningOf(s), SetStatus(t, Ready)) else MeaningOf(s)
  {
    TaskListsExist(s, t);
    TaskResumedFromISRKeeps(s, t);
    hide Core, ListsAgree, EventsConsistent, DelaysAhead, MakeReady, MeaningOf, Apply;
    if IsSuspended(s, t) {
      if s.schedulerSuspended == 0 {
        MadeReadyMeaning(s, t, s.yieldPending || OutranksCurrent(s, t));
      } else {
        PendingMeaning(s, t, s.yieldPending);
      }
    }
  }

  lemma EventGivenUnfolds(s: State, t: Task)
    requires Inv(s) && t in s.tasks && s.event[t] == EventList
    ensures t in s.priority && t in s.event && s.current in s.priority && WellPlaced(s) && EventsConsistent(s)
    ensures ReadyList(s.priority[t]) in s.lists && s.priority[t] >= 0
    ensures Inv(EventGiven(s, t)) && MeaningOf(EventGiven(s, t)) == Apply(MeaningOf(s), SetStatus(t, Ready))
  {
    TaskListsExist(s, t);
    EventGivenKeeps(s, t);
    EventGivenMeaning(s, t);
  }

  lemma TaskResumedUnfolds(s: State, t: Task)
    requires Inv(s) && t in s.tasks
    ensures t in s.priority && t in s.event && t in s.place && WellPlaced(s) && EventsConsistent(s)
    ensures ReadyList(s.priority[t]) in s.lists && s.priority[t] >= 0
    ensures var s' := TaskResumed(s, t);
            && Inv(s')
            && MeaningOf(s') == if t != s.current && IsSuspended(s, t) then Apply(MeaningOf(s), SetStatus(t, Ready))
                                else MeaningOf(s)
  {
    TaskListsExist(s, t);
    TaskResumedKeeps(s, t);
    hide Core, ListsAgree, EventsConsistent, DelaysAhead, MakeReady, MeaningOf, Apply;
    MadeReadyMeaning(s, t, s.yieldPending);
  }

  lemma AbortUnfolds(s: State, t: Task)
    requires Inv(s) && t in s.tasks && IsBlocked(s, t)
    ensures t in s.priority && s.current in s.priority && WellPlaced(s) && EventsConsistent(s)
    ensures ReadyList(s.priority[t]) in s.lists && s.priority[t] >= 0
    ensures var m := MakeReady(s, t);
            var s' := m.(yieldPending := m.yieldPending || OutranksCurrent(s, t));
            && m.schedulerSuspended == s.schedulerSuspended && m.yieldPending == s.yieldPending
            && Inv(s') && MeaningOf(s') == Apply(MeaningOf(s), SetStatus(t, Ready))
  {
    TaskListsExist(s, t);
    DelayAbortedKeeps(s, t);
    ReadyCounters(s, t);
    hide Core, ListsAgree, EventsConsistent, DelaysAhead, MakeReady, MeaningOf, Apply;
    MadeReadyMeaning(s, t, s.yieldPending || OutranksCurrent(s, t));
  }

  lemma TopListsExist(s: State)
    requires Core(s)
    ensures 0 <= s.topReadyPriority < MAX_PRIORITIES
    ensures forall p :: 0 <= p < MAX_PRIORITIES ==> ReadyList(p) in s.lists
  {
  }

  lemma CreatedUnfolds(s: State, t: Task, p: int)
    requires Inv(s) && t !in s.tasks && 0 <= p < MAX_PRIORITIES
    ensures ReadyList(p) in s.lists && s.lists[ReadyList(p)].idx <= |s.lists[ReadyList(p)].items|
    ensures Inv(Created(s, t, p)) && MeaningOf(Created(s, t, p)) == Apply(MeaningOf(s), SetStatus(t, Ready))
  {
    CreatedKeeps(s, t, p);
    hide ListsAgree, ReadyAgree, EventsAgree, Sorted, DelaysAhead, MeaningOf, Apply;
    CreatedMeaning(s, t, p);
  }

  lemma TaskDeletedStatus(s: State, t: Task, u: Task)
    requires WellPlaced(s) && t in s.tasks && TerminationList in s.lists && u in s.tasks
    ensures u != t ==> StatusOf(TaskDeleted(s, t), u) == StatusOf(s, u)
    ensures u == t == s.current ==> StatusOf(TaskDeleted(s, t), u) == Deleted
  {
    hide ListsAgree, Without;
  }

  lemma TaskDeletedMeaning(s: State, t: Task)
    requires WellPlaced(s) && t in s.tasks && TerminationList in s.lists
    ensures MeaningOf(TaskDeleted(s, t)) == Apply(MeaningOf(s), if t == s.current then SetStatus(t, Deleted) else Forget(t))
  {
    var s' := TaskDeleted(s, t);
    TaskDeletedCounters(s, t);
    hide ListsAgree, TaskDeleted, StatusOf;
    forall u | u in s.tasks
      ensures u != t ==> StatusOf(s', u) == StatusOf(s, u)
      ensures u == t == s.current ==> StatusOf(s', u) == Deleted
    {
      TaskDeletedStatus(s, t, u);
    }
    SameMeaning(MeaningOf(s'), Apply(MeaningOf(s), if t == s.current then SetStatus(t, Deleted) else Forget(t)));
  }

  lemma TaskDeletedCounters(s: State, t: Task)
    requires WellPlaced(s) && t in s.tasks && TerminationList in s.lists
    ensures var s' := TaskDeleted(s, t);
            && Now(s') == Now(s) && s'.pendedTicks == s.pendedTicks && s'.schedulerSuspended == s.schedulerSuspended
            && s'.tasks == if t == s.current then s.tasks else s.tasks - {t}
  {
    hide ListsAgree, Without;
  }

  lemma ForgottenMeaning(s: State, t: Task)
    requires WellPlaced(s) && t in s.tasks
    ensures MeaningOf(Forgotten(s, t)) == Apply(MeaningOf(s), Forget(t))
  {
    hide ListsAgree, Without, Dropped;
    forall u | u in s.tasks && u != t
      ensures StatusOf(Forgotten(s, t), u) == StatusOf(s, u)
    {
    }
    hide StatusOf;
    SameMeaning(MeaningOf(Forgotten(s, t)), Apply(MeaningOf(s), Forget(t)));
  }

  lemma ForgottenUnfolds(s: State, t: Task)
    requires WellPlaced(s) && EventsConsistent(s) && t in s.tasks
    ensures t in s.place && t in s.event && s.place[t] in s.lists && t in s.lists[s.place[t]].items
    ensures Forgotten(s, t) ==
            s.(tasks := s.tasks - {t},
               priority := s.priority - {t}, wake := s.wake - {t}, place := s.place - {t}, event := s.event - {t},
               pendingReady := if s.event[t] == PendingReadyList then Dropped(s.pendingReady, t) else s.pendingReady,
               lists := s.lists[s.place[t] := Without(s.lists[s.place[t]], t)])
  {
    hide Without;
  }

  /** One turn of the loop that frees deleted tasks. */
  lemma DeletedUnfolds(s: State)
    requires Inv(s) && TerminationList in s.lists && s.lists[TerminationList].items != []
    requires s.current in s.place && s.place[s.current] != TerminationList
    ensures var t := s.lists[TerminationList].items[0];
            && t in s.tasks && WellPlaced(s) && EventsConsistent(s)
            && var s' := Forgotten(s, t);
               && Inv(s') && s'.current == s.current && MeaningOf(s') == Apply(MeaningOf(s), Forget(t))
               && s.current in s'.place && s'.place[s.current] != TerminationList
               && TerminationList in s'.lists && s'.lists[TerminationList].items == s.lists[TerminationList].items[1..]
  {
    TerminationHead(s);
    var t := s.lists[TerminationList].items[0];
    ForgottenKeeps(s, t);
    hide Core, DelaysAhead, ListsAgree, EventsConsistent, MeaningOf, Apply;
    ForgottenMeaning(s, t);
  }

  lemma TaskDeletedUnfolds(s: State, t: Task)
    requires Inv(s) && t in s.tasks
    ensures TerminationList in s.lists && WellPlaced(s) && EventsConsistent(s)
    ensures Inv(TaskDeleted(s, t)) && TaskDeleted(s, t).tasks == if t == s.current then s.tasks else s.tasks - {t}
    ensures MeaningOf(TaskDeleted(s, t)) == Apply(MeaningOf(s), if t == s.current then SetStatus(t, Deleted) else Forget(t))
    ensures t != s.current ==> CoreButNext(Forgotten(s, t))
  {
    ListsExist(s, t);
    TaskDeletedKeeps(s, t);
    TaskDeletedMeaning(s, t);
    TaskDeletedCounters(s, t);
    if t != s.current {
      ForgottenKeepsWellPlaced(s, t);
      ForgottenKeepsSorted(s, t, 0);
      ForgottenKeepsSorted(s, t, 1);
      ForgottenKeepsRest(s, t);
      hide Core;
      CoreIsCoreButNext(Forgotten(s, t));
    }
  }

  lemma PrioritiesNoMeaning(s: State, priority: map<Task, int>)
    ensures MeaningOf(s.(priority := priority)) == MeaningOf(s)
  {
    assert forall u :: StatusOf(s.(priority := priority), u) == StatusOf(s, u);
  }

  lemma PriorityChangedMeaning(s: State, t: Task, p: int)
    requires WellPlaced(s) && t in s.tasks && ReadyList(p) in s.lists && s.event[t] != PendingReadyList
    ensures MeaningOf(PriorityChanged(s, t, p)) == MeaningOf(s)
  {
    var s1 := s.(priority := s.priority[t := p]);
    PrioritiesNoMeaning(s, s1.priority);
    if s.place[t] == ReadyList(s.priority[t]) {
      assert StatusOf(s, t) == Ready;
      hide ListsAgree, MakeReady, StatusOf;
      MadeReadyMeaning(s1, t, s.yieldPending);
      assert MeaningOf(s).status[t := Ready] == MeaningOf(s).status;
    }
  }
}
