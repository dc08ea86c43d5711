/**
The scheduler as the kernel has it: file-level variables changed in place by every call.
Each method keeps the invariant and performs one step of the machine over absolute time.
*/
module Kernel {
  import opened Config
  import opened Lists
  import opened KernelState
  import opened KernelMeaning
  import opened KernelRefinement
  import opened KernelPreemption
  import opened KernelSharing

  class Scheduler {
    ghost var tasks: set<Task>
    var tickCount: nat
    var numOfOverflows: nat
    var pendedTicks: nat
    var nextTaskUnblockTime: int
    var schedulerSuspended: nat
    var yieldPending: bool
    var topReadyPriority: nat
    var current: Task
    var cur: int
    var priority: map<Task, int>
    var wake: map<Task, int>
    var place: map<Task, Place>
    var event: map<Task, EventPlace>
    var lists: map<Place, Ring<Task>>
    var pendingReady: seq<Task>

    ghost function St(): State
      reads this
    {
      State(tasks, tickCount, numOfOverflows, pendedTicks, nextTaskUnblockTime, schedulerSuspended, yieldPending,
            topReadyPriority, current, cur, priority, wake, place, event, lists, pendingReady)
    }

    ghost predicate Valid()
      reads this
    {
      Inv(St())
    }

    ghost function Meaning(): Meaning
      reads this
    {
      MeaningOf(St())
    }

    /** Take t's event item from its list, if in one, and its state item to the end of list l. */
    method MoveToEnd(t: Task, l: Place)
      requires WellPlaced(St()) && EventsConsistent(St()) && t in tasks && l in lists
      modifies this`event, this`pendingReady, this`place, this`lists
      ensures St() == ToEnd(old(St()), t, l)
    {
      hide WellPlaced, EventsConsistent, Relocate, Rest, Without;
      RelocateUnfolds(St(), t, l);
      if event[t] == PendingReadyList {
        pendingReady := Dropped(pendingReady, t);
      }
      var remaining := lists[place[t] := Without(lists[place[t]], t)];
      lists := remaining[l := remaining[l].InsertEnd(t)];
      place, event := place[t := l], event[t := NoList];
    }

    /** prvAddTaskToReadyList(), once t has been taken off the lists it was in. */
    method AddToReadyList(t: Task)
      requires WellPlaced(St()) && EventsConsistent(St()) && t in tasks && ReadyList(priority[t]) in lists && priority[t] >= 0
      modifies this`event, this`pendingReady, this`place, this`lists, this`topReadyPriority
      ensures St() == MakeReady(old(St()), t)
    {
      if priority[t] > topReadyPriority {
        topReadyPriority := priority[t];
      }
      MoveToEnd(t, ReadyList(priority[t]));
    }

    /** prvResetNextTaskUnblockTime() */
    method ResetNextTaskUnblockTime()
      requires CoreButNext(St())
      modifies this`nextTaskUnblockTime
      ensures St() == ResetNext(old(St()))
    {
      HeadHasWakeTime(St());
      hide CoreButNext;
      var d := lists[DelayList(cur)].items;
      if d == [] {
        nextTaskUnblockTime := MAX_DELAY;
      } else {
        nextTaskUnblockTime := wake[d[0]];
      }
    }

    /** taskSWITCH_DELAYED_LISTS() */
    method SwitchDelayedLists()
      requires CoreButNext(St())
      modifies this`cur, this`numOfOverflows, this`nextTaskUnblockTime
      ensures St() == SwitchLists(old(St()))
    {
      hide CoreButNext, ResetNext;
      EitherListCanBeCurrent(St());
      cur := if cur == 0 then 1 else 0;
      numOfOverflows := numOfOverflows + 1;
      ResetNextTaskUnblockTime();
    }

    /** xTaskIncrementTick() */
    method IncrementTick() returns (switchRequired: bool)
      requires Valid()
      modifies this
      ensures Valid() && Meaning() == Apply(old(Meaning()), TickInterrupt)
      ensures switchRequired <==>
              old(schedulerSuspended) == 0 && (old(yieldPending) || Shared(St()) || SomeCameAbove(old(St()), St()))
    {
      hide Core, DelaysAhead, SwitchRequired, StatusOf, MeaningOf, KernelState.IncrementTick, Shared, SomeCameAbove;
      if schedulerSuspended != 0 {
        PendedKeeps(St(), pendedTicks + 1);
        PendedMeaning(St(), pendedTicks + 1);
        DepthOfMeaning(St());
        pendedTicks := pendedTicks + 1;
        switchRequired := false;
      } else {
        TickKeeps(St());
        TickMeaning(St());
        TickAsks(St());
        switchRequired := ProcessTick();
      }
    }

    /** xTaskIncrementTick() while the scheduler is not suspended. */
    method ProcessTick() returns (switchRequired: bool)
      requires Core(St()) && DelaysAhead(St()) && pendingReady == []
      modifies this
      ensures St() == KernelState.IncrementTick(old(St()))
      ensures switchRequired <==> SwitchRequired(old(St()), St())
    {
      ghost var s := St();
      AdvancedKeepsCore(s);
      TickWokenAbove(s);
      TickKeeps(s);
      ReadyListsExist(KernelState.IncrementTick(s));
      hide Core, DelaysAhead, WokenAbove, Drain, Advanced;
      AdvanceTickCount();
      switchRequired := false;
      if tickCount >= nextTaskUnblockTime {
        switchRequired := WakeDueTasks();
      }
      assert St() == KernelState.IncrementTick(s);
      hide KernelState.IncrementTick;
      if |lists[ReadyList(priority[current])].items| > 1 {
        switchRequired := true;
      }
      if yieldPending {
        switchRequired := true;
      }
    }

    /** The start of the tick: count it, and switch the delayed lists if the count wraps. */
    method AdvanceTickCount()
      requires Core(St()) && DelaysAhead(St())
      modifies this`tickCount, this`cur, this`numOfOverflows, this`nextTaskUnblockTime
      ensures St() == Advanced(old(St()))
    {
      hide Wrap, SwitchLists, Core, DelaysAhead, CoreButNext;
      CoreWithAnyTick(St(), Wrap(tickCount + 1));
      tickCount := Wrap(tickCount + 1);
      if tickCount == 0 {
        SwitchDelayedLists();
      }
    }

    /** Is the head of the current list still to wait?  If so, its wake time is the next unblock time. */
    method HeadMustWait() returns (stop: bool)
      requires Core(St())
      modifies this`nextTaskUnblockTime
      ensures stop <==> NothingDue(old(St()))
      ensures St() == if stop then ResetNext(old(St())) else old(St())
    {
      CoreIsCoreButNext(St());
      HeadHasWakeTime(St());
      hide Core;
      var d := lists[DelayList(cur)].items;
      stop := true;
      if d == [] {
        nextTaskUnblockTime := MAX_DELAY;
      } else if tickCount < wake[d[0]] {
        nextTaskUnblockTime := wake[d[0]];
      } else {
        stop := false;
      }
    }

    /** The loop that unblocks tasks in the order of their wake times. */
    method WakeDueTasks() returns (outranked: bool)
      requires Core(St()) && pendingReady == []
      modifies this
      ensures St() == Drain(old(St()))
      ensures outranked <==> WokenAbove(old(St()), St())
    {
      hide Core, Drain, MoreReady, WokenAbove, NothingDue, MakeReady, ResetNext, StatusOf;
      ghost var a := St();
      MoreReadyStart(a);
      outranked := false;
      while true
        invariant Core(St()) && pendingReady == [] && Drain(St()) == Drain(a)
        invariant MoreReady(a, St()) && (outranked <==> WokenAbove(a, St()))
        decreases |Items(St(), DelayList(cur))|
      {
        DrainUnfolds(St());
        ResetNextWokenAbove(a, St());
        var stop := HeadMustWait();
        if stop {
          break;
        }
        var t := lists[DelayList(cur)].items[0];
        WokenAboveStep(a, St(), t);
        if priority[t] > priority[current] {
          outranked := true;
        }
        AddToReadyList(t);
      }
    }

    /** vTaskSuspendAll() */
    method SuspendAll()
      requires Valid()
      modifies this`schedulerSuspended
      ensures Valid() && Meaning() == Apply(old(Meaning()), Step.SuspendAll)
      ensures schedulerSuspended == old(schedulerSuspended) + 1
    {
      hide Core, DelaysAhead, StatusOf, MeaningOf;
      DepthKeeps(St(), schedulerSuspended + 1);
      DepthMeaning(St(), schedulerSuspended + 1);
      DepthOfMeaning(St());
      schedulerSuspended := schedulerSuspended + 1;
    }

    /** xTaskResumeAll(): returns whether it yielded. */
    method ResumeAll() returns (alreadyYielded: bool)
      requires Valid() && schedulerSuspended > 0
      modifies this
      ensures Valid() && Meaning() == Apply(old(Meaning()), Step.ResumeAll)
      ensures St() == Resumed(old(St()))
      ensures alreadyYielded <==> schedulerSuspended == 0 && yieldPending
      ensures schedulerSuspended == old(schedulerSuspended) - 1
      ensures yieldPending <==>
              || old(yieldPending)
              || (schedulerSuspended == 0 &&
                    (SomeCameAbove(old(St()), St()) || (old(pendedTicks) > 0 && Shared(St()))))
    {
      ghost var s := St();
      ResumeKeeps(s);
      ResumeMeaning(s);
      ResumeAsks(s);
      hide Core, DelaysAhead, Resumed, MeaningOf, Apply, Shared, SomeCameAbove, Grows;
      alreadyYielded := Resume();
    }

    /** The critical section of xTaskResumeAll(). */
    method Resume() returns (alreadyYielded: bool)
      requires Core(St()) && DelaysAhead(St()) && schedulerSuspended > 0
      modifies this
      ensures St() == Resumed(old(St()))
      ensures alreadyYielded <==> schedulerSuspended == 0 && yieldPending
    {
      ResumedUnfolds(St());
      hide Core, DelaysAhead, Unpended, Replay, Resumed;
      schedulerSuspended := schedulerSuspended - 1;
      alreadyYielded := false;
      if schedulerSuspended == 0 {
        MovePendingReady();
        ReplayTicks(pendedTicks);
        pendedTicks := 0;
        alreadyYielded := yieldPending;
      }
    }

    /** The first loop of xTaskResumeAll(): tasks made ready by interrupts join the ready lists. */
    method MovePendingReady()
      requires Core(St())
      modifies this
      ensures St() == Unpended(old(St()))
      ensures yieldPending <==> old(yieldPending) || SomeCameAbove(old(St()), St())
    {
      ghost var s := St();
      var moved := false;
      hide Core, DrainPending, MakeReady, ResetNext, CoreButNext, SomeCameAbove, Grows;
      while pendingReady != []
        invariant Core(St()) && DrainPending(St()) == DrainPending(s)
        invariant moved ==> s.pendingReady != []
        invariant !moved ==> St() == s
        decreases |pendingReady|
      {
        FirstPendingUnfolds(St());
        var t := pendingReady[0];
        AddToReadyList(t);
        if priority[t] > priority[current] {
          yieldPending := true;
        }
        moved := true;
      }
      NonePendingUnfolds(St());
      CoreIsCoreButNext(St());
      if moved {
        ResetNextTaskUnblockTime();
      }
      assert St() == Unpended(s);
      UnpendedAsks(s);
    }

    /** The second loop of xTaskResumeAll(): the ticks that came while the scheduler was suspended. */
    method ReplayTicks(n: nat)
      requires Core(St()) && DelaysAhead(St()) && pendingReady == []
      modifies this
      ensures St() == Replay(old(St()), n)
      ensures yieldPending <==> old(yieldPending) || SomeCameAbove(old(St()), St()) || (n > 0 && Shared(St()))
    {
      ghost var s := St();
      var left := n;
      hide Core, DelaysAhead, KernelState.IncrementTick, SwitchRequired, SomeCameAbove, Grows, Shared;
      while left > 0
        invariant Core(St()) && DelaysAhead(St()) && pendingReady == []
        invariant Replay(St(), left) == Replay(s, n)
      {
        ghost var before := St();
        TickKeeps(before);
        YieldKeeps(KernelState.IncrementTick(before), SwitchRequired(before, KernelState.IncrementTick(before)));
        SwitchRequiredIncludesYield(before, KernelState.IncrementTick(before));
        var switchRequired := ProcessTick();
        if switchRequired {
          yieldPending := true;
        }
        left := left - 1;
      }
      assert St() == Replay(s, n);
      ReplayAsks(s, n);
    }

    /** prvAddCurrentTaskToDelayedList(), after the event list insertion of vTaskPlaceOnEventList() if onEvent. */
    method BlockCurrent(wait: Tick, indefinite: bool, onEvent: bool)
      requires Valid() && place[current].ReadyList? && (indefinite ==> onEvent)
      modifies this
      ensures Core(St()) && Meaning() == Apply(old(Meaning()), BlockStep(old(St()), wait, indefinite))
      ensures Valid() <==> !(wait == 0 && old(tickCount) == MAX_DELAY)
    {
      ghost var s := St();
      BlockKeeps(s, wait, indefinite, onEvent);
      BlockMeaning(s, wait, indefinite, onEvent);
      hide Core, DelaysAhead, MeaningOf, Apply, BlockStep, Blocked;
      AddCurrentTaskToDelayedList(wait, indefinite, onEvent);
    }

    method AddCurrentTaskToDelayedList(wait: Tick, indefinite: bool, onEvent: bool)
      requires Core(St()) && place[current].ReadyList?
      modifies this
      ensures St() == Blocked(old(St()), wait, indefinite, onEvent)
    {
      ListsExist(St(), current);
      CoreIsCoreButNext(St());
      if wait == MAX_DELAY && indefinite {
        hide CoreButNext, KernelState.DelayCurrent, ToEnd;
        MoveToEnd(current, SuspendedList);
      } else {
        hide CoreButNext, KernelState.DelayCurrent, ToEnd;
        DelayCurrent(wait);
      }
      event := event[current := if onEvent then EventList else NoList];
    }

    /** Filing the running task in the delay list its wake time belongs to. */
    method DelayCurrent(wait: Tick)
      requires Core(St()) && place[current].ReadyList?
      modifies this
      ensures St() == KernelState.DelayCurrent(old(St()), wait)
    {
      hide Wrap, Core, CoreButNext, WellPlaced, ToDelayList, KernelState.DelayCurrent;
      DelayCurrentUnfolds(St(), wait);
      var timeToWake := Wrap(tickCount + wait);
      wake := wake[current := timeToWake];
      if timeToWake < tickCount {
        InsertByWakeTime(current, 1 - cur);
      } else {
        InsertByWakeTime(current, cur);
        if timeToWake < nextTaskUnblockTime {
          nextTaskUnblockTime := timeToWake;
        }
      }
    }

    /** uxListRemove() and vListInsert() of a state list item. */
    method InsertByWakeTime(t: Task, k: int)
      requires CoreButNext(St()) && t in tasks && DelayList(k) in lists
      modifies this`event, this`pendingReady, this`place, this`lists
      ensures St() == ToDelayList(old(St()), t, k)
    {
      hide WellPlaced, EventsConsistent, Relocate, Rest, Without, InsertPos, WakeTimes;
      RelocateUnfolds(St(), t, DelayList(k));
      if event[t] == PendingReadyList {
        pendingReady := Dropped(pendingReady, t);
      }
      var remaining := lists[place[t] := Without(lists[place[t]], t)];
      var r := remaining[DelayList(k)];
      lists := remaining[DelayList(k) := r.InsertAt(InsertPos(WakeTimes(wake, r.items), wake[t]), t)];
      place, event := place[t := DelayList(k)], event[t := NoList];
    }

    /** xTaskRemoveFromEventList(), for the task t at the head of an event list. */
    method RemoveFromEventList(t: Task) returns (outranks: bool)
      requires Valid() && t in tasks && event[t] == EventList
      modifies this
      ensures Valid() && Meaning() == Apply(old(Meaning()), SetStatus(t, Ready))
      ensures outranks <==> old(PriorityOf(St(), t) > PriorityOf(St(), current))
      ensures yieldPending <==> old(yieldPending) || outranks
      ensures if schedulerSuspended == 0 then InReady(St(), t) else pendingReady == old(pendingReady) + [t]
    {
      EventGivenUnfolds(St(), t);
      EventAsks(St(), t);
      hide Core, ListsAgree, EventsAgree, DelaysAhead, MeaningOf, Apply, EventGiven, InReady, PriorityOf;
      outranks := GiveEvent(t);
    }

    /** The event item of t leaves its list; t is readied, or held while the scheduler is suspended. */
    method GiveEvent(t: Task) returns (outranks: bool)
      requires WellPlaced(St()) && EventsConsistent(St()) && t in tasks && current in tasks
      requires priority[t] >= 0 && ReadyList(priority[t]) in lists
      modifies this
      ensures St() == EventGiven(old(St()), t)
      ensures outranks <==> old(PriorityOf(St(), t) > PriorityOf(St(), current))
    {
      hide ListsAgree, EventsAgree, MakeReady;
      outranks := priority[t] > priority[current];
      if schedulerSuspended == 0 {
        AddToReadyList(t);
      } else {
        event := event[t := PendingReadyList];
        pendingReady := pendingReady + [t];
      }
      if outranks {
        yieldPending := true;
      }
    }

    /** eTaskGetState(t) == eBlocked */
    method GetStateIsBlocked(t: Task) returns (b: bool)
      requires Valid() && t in tasks
      ensures b <==> IsBlocked(St(), t)
    {
      hide ListsAgree, ReadyByPriority, DelaysSorted, EventsConsistent, DelaysAhead;
      b := t != current && event[t] != PendingReadyList
           && (place[t].DelayList? || (place[t] == SuspendedList && event[t] != NoList));
    }

    /** xTaskAbortDelay() */
    method AbortDelay(t: Task) returns (ok: bool)
      requires Valid() && t in tasks
      modifies this
      ensures Valid() && ok == old(IsBlocked(St(), t))
      ensures var a := Apply(old(Meaning()), Step.SuspendAll);
              Meaning() == Apply(if ok then Apply(a, SetStatus(t, Ready)) else a, Step.ResumeAll)
      ensures yieldPending <==> old(yieldPending) || (ok && old(PriorityOf(St(), t) > PriorityOf(St(), current)))
      ensures ok ==> InReady(St(), t)
    {
      hide Core, DelaysAhead, MeaningOf, Apply, Resumed, StatusOf, InReady, PriorityOf, IsBlocked, DelayAborted, SomeCameAbove,
           Shared;
      ghost var s := St();
      AbortedInside(s, t);
      SuspendAll();
      assert St() == s.(schedulerSuspended := s.schedulerSuspended + 1);
      ok := AbortBlocked(t);
      var _ := ResumeAll();
    }

    /** What xTaskAbortDelay() does while it holds the scheduler. */
    method AbortBlocked(t: Task) returns (ok: bool)
      requires Valid() && t in tasks
      modifies this
      ensures Valid() && ok == old(IsBlocked(St(), t))
      ensures Meaning() == if ok then Apply(old(Meaning()), SetStatus(t, Ready)) else old(Meaning())
      ensures WellPlaced(old(St())) && ReadyList(old(priority[t])) in old(lists)
      ensures St() == DelayAborted(old(St()), t)
    {
      TaskListsExist(St(), t);
      hide Core, ListsAgree, EventsAgree, DelaysAhead, MakeReady, MeaningOf, Apply, StatusOf, IsBlocked;
      ok := GetStateIsBlocked(t);
      if ok {
        MakeBlockedReady(t);
      }
    }

    method MakeBlockedReady(t: Task)
      requires Valid() && t in tasks && IsBlocked(St(), t)
      modifies this
      ensures Valid() && Meaning() == Apply(old(Meaning()), SetStatus(t, Ready))
      ensures St() == DelayAborted(old(St()), t)
    {
      hide Core, ListsAgree, EventsAgree, DelaysAhead, MakeReady, MeaningOf, Apply, StatusOf, IsBlocked;
      AbortUnfolds(St(), t);
      if priority[t] > priority[current] {
        AddToReadyList(t);
        yieldPending := true;
      } else {
        AddToReadyList(t);
      }
    }

    /** vTaskSuspend(); a task that suspends itself may not have suspended the scheduler. */
    method SuspendTask(t: Task)
      requires Valid() && t in tasks && (t == current ==> schedulerSuspended == 0)
      modifies this
      ensures Valid() && Meaning() == Apply(old(Meaning()), SetStatus(t, Suspended))
    {
      TaskSuspendedKeeps(St(), t);
      TaskSuspendedMeaning(St(), t);
      SuspendedIsReadable(St(), t);
      hide Core, CoreButNext, ListsAgree, DelaysAhead, ToEnd, ResetNext, MeaningOf;
      MoveToEnd(t, SuspendedList);
      ResetNextTaskUnblockTime();
    }

    /** vTaskResume() */
    method ResumeTask(t: Task)
      requires Valid() && t in tasks
      modifies this
      ensures Valid()
      ensures Meaning() == if t != old(current) && old(IsSuspended(St(), t)) then Apply(old(Meaning()), SetStatus(t, Ready))
                           else old(Meaning())
    {
      hide Core, ListsAgree, EventsAgree, DelaysAhead, MakeReady, MeaningOf, Apply;
      TaskResumedUnfolds(St(), t);
      if t != current && place[t] == SuspendedList && event[t] == NoList {
        AddToReadyList(t);
      }
    }

    /** xTaskResumeFromISR() */
    method ResumeFromISR(t: Task) returns (yieldRequired: bool)
      requires Valid() && t in tasks
      modifies this
      ensures Valid()
      ensures Meaning() == if old(IsSuspended(St(), t)) then Apply(old(Meaning()), SetStatus(t, Ready)) else old(Meaning())
      ensures yieldRequired <==> old(IsSuspended(St(), t) && schedulerSuspended == 0 && OutranksCurrent(St(), t))
      ensures yieldPending <==> old(yieldPending) || yieldRequired
    {
      hide Core, ListsAgree, EventsAgree, DelaysAhead, MakeReady, MeaningOf, Apply;
      ResumedFromISRUnfolds(St(), t);
      MakeReadyWithYield(St(), t, true);
      yieldRequired := false;
      if place[t] == SuspendedList && event[t] == NoList {
        if schedulerSuspended == 0 {
          if priority[t] > priority[current] {
            yieldRequired := true;
            yieldPending := true;
          }
          AddToReadyList(t);
        } else {
          event := event[t := PendingReadyList];
          pendingReady := pendingReady + [t];
        }
      }
    }

    /** prvAddNewTaskToReadyList(), once the scheduler is running. */
    method CreateTask(t: Task, p: nat)
      requires Valid() && t !in tasks && p < MAX_PRIORITIES
      modifies this
      ensures Valid() && Meaning() == Apply(old(Meaning()), SetStatus(t, Ready))
      ensures tasks == old(tasks) + {t} && priority[t] == p
    {
      hide Core, DelaysAhead, MeaningOf, Apply, Inv;
      CreatedUnfolds(St(), t, p);
      AddNewTask(t, p);
    }

    /** Filling in a new task's control block and adding it to its ready list. */
    method AddNewTask(t: Task, p: nat)
      requires ReadyList(p) in lists && lists[ReadyList(p)].idx <= |lists[ReadyList(p)].items|
      modifies this
      ensures St() == Created(old(St()), t, p)
    {
      InitialiseTask(t, p, ReadyList(p));
      InsertNewTask(t, p, ReadyList(p));
    }

    /** prvInitialiseNewTask() */
    method InitialiseTask(t: Task, p: nat, l: Place)
      modifies this`tasks, this`priority, this`wake, this`place, this`event
      ensures St() == old(St()).(tasks := old(tasks) + {t}, priority := old(priority)[t := p], wake := old(wake)[t := 0],
                                 place := old(place)[t := l], event := old(event)[t := NoList])
    {
      tasks, priority, wake, place, event := tasks + {t}, priority[t := p], wake[t := 0], place[t := l], event[t := NoList];
    }

    method InsertNewTask(t: Task, p: nat, l: Place)
      requires l in lists && lists[l].idx <= |lists[l].items|
      modifies this`lists, this`topReadyPriority
      ensures St() == old(St()).(lists := old(lists)[l := old(lists)[l].InsertEnd(t)],
                                 topReadyPriority := if p > old(topReadyPriority) then p else old(topReadyPriority))
    {
      topReadyPriority := if p > topReadyPriority then p else topReadyPriority;
      lists := lists[l := lists[l].InsertEnd(t)];
    }

    /** vTaskDelete(): the running task is left for the idle task to clean up. */
    method DeleteTask(t: Task)
      requires Valid() && t in tasks
      modifies this
      ensures Valid()
      ensures Meaning() == Apply(old(Meaning()), if t == old(current) then SetStatus(t, Deleted) else Forget(t))
      ensures tasks == if t == old(current) then old(tasks) else old(tasks) - {t}
    {
      TaskDeletedUnfolds(St(), t);
      hide Core, CoreButNext, ListsAgree, DelaysAhead, ToEnd, ResetNext, MeaningOf, Forgotten, Apply, EventsConsistent;
      if t == current {
        MoveToEnd(t, TerminationList);
      } else {
        ForgetTask(t);
        ResetNextTaskUnblockTime();
      }
    }

    /** prvCheckTasksWaitingTermination(), called by the idle task. */
    method CheckTasksWaitingTermination()
      requires Valid() && current in place && place[current] != TerminationList
      requires TerminationList in lists
      modifies this
      ensures Valid() && current == old(current)
      ensures Meaning() == ForgetAll(old(Meaning()), old(lists)[TerminationList].items)
    {
      hide Core, DelaysAhead, ListsAgree, EventsConsistent, MeaningOf, Apply, Forgotten;
      while lists[TerminationList].items != []
        invariant Valid() && TerminationList in lists && current == old(current)
        invariant current in place && place[current] != TerminationList
        invariant ForgetAll(Meaning(), lists[TerminationList].items) == ForgetAll(old(Meaning()), old(lists)[TerminationList].items)
        decreases |lists[TerminationList].items|
      {
        var t := lists[TerminationList].items[0];
        DeletedUnfolds(St());
        ForgetTask(t);
      }
    }

    /** A task that is not running leaves every list and the kernel's records. */
    method ForgetTask(t: Task)
      requires WellPlaced(St()) && EventsConsistent(St()) && t in tasks
      modifies this`tasks, this`priority, this`wake, this`event, this`pendingReady, this`place, this`lists
      ensures St() == Forgotten(old(St()), t)
    {
      ForgottenUnfolds(St(), t);
      hide WellPlaced, EventsConsistent, Without, Dropped, Forgotten;
      LeaveLists(t);
      FreeControlBlock(t);
    }

    method LeaveLists(t: Task)
      requires t in place && t in event && place[t] in lists && t in lists[place[t]].items
      modifies this`pendingReady, this`lists
      ensures var s := old(St());
              St() == s.(pendingReady := if s.event[t] == PendingReadyList then Dropped(s.pendingReady, t) else s.pendingReady,
                         lists := s.lists[s.place[t] := Without(s.lists[s.place[t]], t)])
    {
      hide Without, Dropped;
      if event[t] == PendingReadyList {
        pendingReady := Dropped(pendingReady, t);
      }
      lists := lists[place[t] := Without(lists[place[t]], t)];
    }

    /** prvDeleteTCB() */
    method FreeControlBlock(t: Task)
      modifies this`tasks, this`priority, this`wake, this`event, this`place
      ensures var s := old(St());
              St() == s.(tasks := s.tasks - {t}, priority := s.priority - {t}, wake := s.wake - {t},
                         place := s.place - {t}, event := s.event - {t})
    {
      tasks, priority, wake, place, event := tasks - {t}, priority - {t}, wake - {t}, place - {t}, event - {t};
    }

    /** The change of the priority in use made by vTaskPrioritySet() and priority inheritance. */
    method ChangePriority(t: Task, p: nat)
      requires Valid() && t in tasks && p < MAX_PRIORITIES
      modifies this
      ensures Valid() && Meaning() == old(Meaning()) && priority == old(priority)[t := p]
    {
      PriorityChangedKeeps(St(), t, p);
      PriorityChangedReady(St(), t, p);
      hide Core, ListsAgree, EventsConsistent, DelaysAhead, MakeReady, MeaningOf;
      var inReadyList := place[t] == ReadyList(priority[t]);
      priority := priority[t := p];
      if inReadyList {
        AddToReadyList(t);
      }
    }

    /** vTaskSwitchContext() */
    method SwitchContext()
      requires Valid() && exists t :: t in tasks && place[t].ReadyList?
      modifies this
      ensures Valid() && Meaning() == old(Meaning()) && priority == old(priority)
      ensures if schedulerSuspended != 0 then yieldPending && current == old(current)
              else current in tasks && Meaning().status[current] == Ready
                   && forall t :: t in tasks && Meaning().status[t] == Ready ==> priority[t] <= priority[current]
      ensures schedulerSuspended == 0 ==> TurnTaken(old(St()), St(), PriorityOf(St(), current))
    {
      hide Core, DelaysAhead, StatusOf, TopReady, TurnTaken;
      ghost var s := St();
      EveryPriority(s);
      SwitchedKeeps(s);
      if schedulerSuspended != 0 {
        yieldPending := true;
      } else {
        SwitchedToHighest(s);
        SwitchedTakesTurn(s);
        SelectionIsMaximal(s);
        SelectHighestPriorityTask();
      }
      SwitchedMeaning(s);
    }

    /** The loop of taskSELECT_HIGHEST_PRIORITY_TASK(). */
    method FindTopPriority() returns (top: nat)
      requires Core(St()) && exists t :: t in tasks && place[t].ReadyList?
      ensures top == TopReady(St(), topReadyPriority)
    {
      SelectionIsMaximal(St());
      TopListsExist(St());
      hide Core;
      top := topReadyPriority;
      while lists[ReadyList(top)].items == []
        invariant top < MAX_PRIORITIES && TopReady(St(), top) == TopReady(St(), topReadyPriority)
        decreases top
      {
        assert top > 0;
        top := top - 1;
      }
    }

    /** taskSELECT_HIGHEST_PRIORITY_TASK() */
    method SelectHighestPriorityTask()
      requires Core(St()) && schedulerSuspended == 0 && exists t :: t in tasks && place[t].ReadyList?
      modifies this
      ensures St() == Switched(old(St()))
    {
      hide Core, TopReady;
      SelectionIsMaximal(St());
      var top := FindTopPriority();
      yieldPending := false;
      var r := lists[ReadyList(top)].Next();
      lists := lists[ReadyList(top) := r];
      current := r.Current();
      topReadyPriority := top;
    }
  }
}
