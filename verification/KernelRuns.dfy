/**
Whole runs of the scheduler (rtos/source/tasks.c): any sequence of kernel calls and tick
interrupts, from the state the scheduler starts in, on the modular representation itself.

An operation is enabled when its caller keeps to what the kernel asks of it.  The only thing asked
of the application as a whole is that it leaves the idle task alone, which must always be ready.
*/
module KernelRuns {
  import opened Config
  import opened Lists
  import opened KernelState
  import opened KernelMeaning
  import opened KernelRefinement

  datatype Op =
    | TickOp
    | SuspendAllOp
    | ResumeAllOp
    | BlockOp(wait: Tick, indefinite: bool, onEvent: bool)
    | EventOp(t: Task)
    | AbortDelayOp(t: Task)         // the critical part of xTaskAbortDelay()
    | UnorderedEventOp(t: Task)     // vTaskRemoveFromUnorderedEventList(), inside a suspension of the scheduler
    | SuspendOp(t: Task)
    | ResumeOp(t: Task)
    | ResumeFromISROp(t: Task)
    | CreateOp(t: Task, p: int)
    | DeleteOp(t: Task)
    | CleanUpOp(t: Task)            // prvCheckTasksWaitingTermination(), for one task
    | SetPriorityOp(t: Task, p: int)
    | SwitchOp

  /** The idle task never blocks and is never suspended or deleted: it is in a ready list. */
  ghost predicate IdleReady(s: State, idle: Task) {
    idle in s.tasks && idle in s.place && s.place[idle].ReadyList?
  }

  /** What the kernel demands of the caller of each call. */
  ghost predicate Enabled(s: State, op: Op, idle: Task) {
    match op
    case TickOp => true
    case SuspendAllOp => true
    case ResumeAllOp => s.schedulerSuspended > 0
    case BlockOp(wait, indefinite, onEvent) =>
      && s.current != idle && s.current in s.place && s.place[s.current].ReadyList?
      && (indefinite ==> onEvent) && !(wait == 0 && s.tickCount == MAX_DELAY)
    case EventOp(t) => t in s.tasks && t in s.event && s.event[t] == EventList
    case AbortDelayOp(t) => t in s.tasks && s.schedulerSuspended > 0
    case UnorderedEventOp(t) =>
      t in s.tasks && t in s.event && s.event[t] == EventList && t != s.current && s.schedulerSuspended > 0
    case SuspendOp(t) => t in s.tasks && t != idle
    case ResumeOp(t) => t in s.tasks
    case ResumeFromISROp(t) => t in s.tasks
    case CreateOp(t, p) => t !in s.tasks && 0 <= p < MAX_PRIORITIES
    case DeleteOp(t) => t in s.tasks && t != idle
    case CleanUpOp(t) => t in s.tasks && t != s.current && t in s.place && s.place[t] == TerminationList
    case SetPriorityOp(t, p) => t in s.tasks && 0 <= p < MAX_PRIORITIES
    case SwitchOp => true
  }

  ghost function Perform(s: State, op: Op, idle: Task): State
    requires Inv(s) && IdleReady(s, idle) && Enabled(s, op, idle)
  {
    match op
    case TickOp => if s.schedulerSuspended == 0 then IncrementTick(s) else s.(pendedTicks := s.pendedTicks + 1)
    case SuspendAllOp => s.(schedulerSuspended := s.schedulerSuspended + 1)
    case ResumeAllOp => Resumed(s)
    case BlockOp(wait, indefinite, onEvent) => Blocked(s, wait, indefinite, onEvent)
    case EventOp(t) => ListsExist(s, t); EventGiven(s, t)
    case AbortDelayOp(t) => ListsExist(s, t); DelayAborted(s, t)
    case UnorderedEventOp(t) =>
      ListsExist(s, t); MakeReady(s, t).(yieldPending := s.yieldPending || OutranksCurrent(s, t))
    case SuspendOp(t) => ListsExist(s, t); TaskSuspended(s, t)
    case ResumeOp(t) => ListsExist(s, t); TaskResumed(s, t)
    case ResumeFromISROp(t) => ListsExist(s, t); TaskResumedFromISR(s, t)
    case CreateOp(t, p) => CreatedUnfolds(s, t, p); Created(s, t, p)
    case DeleteOp(t) => ListsExist(s, t); TaskDeleted(s, t)
    case CleanUpOp(t) => Forgotten(s, t)
    case SetPriorityOp(t, p) => PriorityChangedKeeps(s, t, p); PriorityChanged(s, t, p)
    case SwitchOp => Switched(s)
  }

  /** The steps of absolute time that an operation is. */
  ghost function StepsOf(s: State, op: Op): seq<Step> {
    match op
    case TickOp => [TickInterrupt]
    case SuspendAllOp => [SuspendAll]
    case ResumeAllOp => [ResumeAll]
    case BlockOp(wait, indefinite, _) => [BlockStep(s, wait, indefinite)]
    case EventOp(t) => [SetStatus(t, Ready)]
    case AbortDelayOp(t) => if IsBlocked(s, t) then [SetStatus(t, Ready)] else []
    case UnorderedEventOp(t) => [SetStatus(t, Ready)]
    case SuspendOp(t) => [SetStatus(t, Suspended)]
    case ResumeOp(t) => if t != s.current && IsSuspended(s, t) then [SetStatus(t, Ready)] else []
    case ResumeFromISROp(t) => if IsSuspended(s, t) then [SetStatus(t, Ready)] else []
    case CreateOp(t, _) => [SetStatus(t, Ready)]
    case DeleteOp(t) => [if t == s.current then SetStatus(t, Deleted) else Forget(t)]
    case CleanUpOp(t) => [Forget(t)]
    case SetPriorityOp(_, _) => []
    case SwitchOp => []
  }

  // ----- A ready task that nothing takes away stays in a ready list

  ghost predicate StaysReady(s: State, s': State, t: Task) {
    t in s.tasks && t in s.place && s.place[t].ReadyList? ==> t in s'.tasks && t in s'.place && s'.place[t].ReadyList?
  }

  lemma AdvancedPlaces(s: State)
    requires s.tickCount < TICK_MODULUS && 0 <= s.cur < 2
    ensures Advanced(s).place == s.place && Advanced(s).tasks == s.tasks
  {
    AdvancedForm(s);
  }

  lemma DrainedStays(a: State, s': State, t: Task)
    requires a.place.Keys == a.wake.Keys == a.event.Keys == a.priority.Keys == a.tasks && DrainedTo(a, s')
    ensures StaysReady(a, s', t)
  {
    if t in a.tasks {
      assert DrainedTask(a, s', t);
    }
  }

  lemma TickStays(s: State, t: Task)
    requires Core(s) && DelaysAhead(s) && s.pendingReady == []
    ensures StaysReady(s, IncrementTick(s), t)
  {
    TickDrains(s);
    AdvancedPlaces(s);
    hide IncrementTick, Advanced, DelaysAhead, DrainedTo, ListsAgree, ReadyByPriority, EventsConsistent;
    DrainedStays(Advanced(s), IncrementTick(s), t);
  }

  lemma {:induction false} ReplayStays(s: State, n: nat, t: Task)
    requires Core(s) && DelaysAhead(s) && s.pendingReady == []
    ensures StaysReady(s, Replay(s, n), t)
    decreases n
  {
    hide Core, DelaysAhead, IncrementTick, SwitchRequired;
    if n > 0 {
      TickKeeps(s);
      TickStays(s, t);
      var s' := IncrementTick(s);
      YieldKeeps(s', SwitchRequired(s, s'));
      ReplayStays(s'.(yieldPending := SwitchRequired(s, s')), n - 1, t);
    }
  }

  lemma UnpendedStays(s: State, t: Task)
    requires Core(s)
    ensures StaysReady(s, Unpended(s), t)
  {
    hide ListsAgree, ReadyByPriority, DelaysSorted, EventsConsistent, DrainPending;
    if s.pendingReady != [] {
      DrainPendingEffect(s);
    }
  }

  lemma ResumedStays(s: State, t: Task)
    requires Inv(s) && s.schedulerSuspended > 0
    ensures StaysReady(s, Resumed(s), t)
  {
    var s1 := s.(schedulerSuspended := s.schedulerSuspended - 1);
    DepthKeeps(s, s1.schedulerSuspended);
    hide Core, DelaysAhead, Unpended, Replay;
    if s1.schedulerSuspended == 0 {
      UnpendedKeeps(s1);
      UnpendedStays(s1, t);
      ReplayStays(Unpended(s1), s1.pendedTicks, t);
    }
  }

  // ----- One operation

  /** What one operation is to keep and to mean. */
  ghost predicate Performed(s: State, op: Op, idle: Task, s': State) {
    Inv(s') && IdleReady(s', idle) && MeaningOf(s') == Run(MeaningOf(s), StepsOf(s, op))
  }

  lemma OneStep(a: Meaning, step: Step)
    ensures Run(a, [step]) == Apply(a, step) && Run(a, []) == a
  {
    assert Run(Apply(a, step), [step][1..]) == Apply(a, step);
  }

  lemma TickPerformed(s: State, idle: Task)
    requires Inv(s) && IdleReady(s, idle)
    ensures Performed(s, TickOp, idle, if s.schedulerSuspended == 0 then IncrementTick(s)
                                       else s.(pendedTicks := s.pendedTicks + 1))
  {
    OneStep(MeaningOf(s), TickInterrupt);
    if s.schedulerSuspended == 0 {
      TickMeaning(s);
      TickStays(s, idle);
      hide Core, DelaysAhead, IncrementTick, MeaningOf, Run;
      TickKeeps(s);
    } else {
      PendedKeeps(s, s.pendedTicks + 1);
      PendedMeaning(s, s.pendedTicks + 1);
      hide Core, DelaysAhead, IncrementTick, MeaningOf, Run;
    }
  }

  lemma SuspendAllPerformed(s: State, idle: Task)
    requires Inv(s) && IdleReady(s, idle)
    ensures Performed(s, SuspendAllOp, idle, s.(schedulerSuspended := s.schedulerSuspended + 1))
  {
    OneStep(MeaningOf(s), SuspendAll);
    DepthKeeps(s, s.schedulerSuspended + 1);
    DepthMeaning(s, s.schedulerSuspended + 1);
    hide Core, DelaysAhead, MeaningOf, Run;
  }

  lemma ResumeAllPerformed(s: State, idle: Task)
    requires Inv(s) && IdleReady(s, idle) && s.schedulerSuspended > 0
    ensures Performed(s, ResumeAllOp, idle, Resumed(s))
  {
    OneStep(MeaningOf(s), ResumeAll);
    ResumeKeeps(s);
    ResumedStays(s, idle);
    ResumeMeaning(s);
    hide Inv, MeaningOf, Run, Resumed;
  }

  /** What the invariant gives each operation. */
  lemma Basics(s: State)
    requires Inv(s)
    ensures Core(s) && DelaysAhead(s) && WellPlaced(s) && EventsConsistent(s)
    ensures s.current in s.tasks && 0 <= s.cur < 2 && s.tickCount < TICK_MODULUS
    ensures s.place.Keys == s.priority.Keys == s.event.Keys == s.wake.Keys == s.tasks
    ensures SuspendedList in s.lists && TerminationList in s.lists
    ensures forall t :: t in s.tasks ==> 0 <= s.priority[t] < MAX_PRIORITIES
    ensures forall p :: 0 <= p < MAX_PRIORITIES ==> ReadyList(p) in s.lists
  {
  }

  /** An operation that is one step. */
  lemma OneStepPerformed(s: State, op: Op, idle: Task, s': State, step: Step)
    requires Inv(s') && IdleReady(s', idle) && StepsOf(s, op) == [step] && MeaningOf(s') == Apply(MeaningOf(s), step)
    ensures Performed(s, op, idle, s')
  {
    hide Inv, IdleReady, MeaningOf, Apply, Run, StepsOf;
    OneStep(MeaningOf(s), step);
  }

  /** An operation that does not change what any task is doing. */
  lemma NoStepPerformed(s: State, op: Op, idle: Task, s': State)
    requires Inv(s') && IdleReady(s', idle) && StepsOf(s, op) == [] && MeaningOf(s') == MeaningOf(s)
    ensures Performed(s, op, idle, s')
  {
    hide Inv, IdleReady, MeaningOf, Apply, Run, StepsOf;
    OneStep(MeaningOf(s), TickInterrupt);
  }

  lemma MakeReadyStays(s: State, t: Task, b: bool, u: Task)
    requires WellPlaced(s) && t in s.tasks && ReadyList(s.priority[t]) in s.lists && IdleReady(s, u)
    ensures IdleReady(MakeReady(s, t), u) && IdleReady(MakeReady(s, t).(yieldPending := b), u)
  {
    hide ListsAgree;
  }

  lemma PendingStays(s: State, t: Task, b: bool, u: Task)
    requires t in s.tasks && IdleReady(s, u)
    ensures IdleReady(s.(event := s.event[t := PendingReadyList], pendingReady := s.pendingReady + [t], yieldPending := b), u)
  {
  }

  lemma BlockedStays(s: State, wait: Tick, indefinite: bool, onEvent: bool, u: Task)
    requires WellPlaced(s) && s.current in s.tasks && 0 <= s.cur < 2 && IdleReady(s, u) && u != s.current
    ensures IdleReady(Blocked(s, wait, indefinite, onEvent), u)
  {
    BlockedForm(s, wait, indefinite, onEvent);
    hide Blocked, WellPlaced;
  }

  lemma BlockPerformed(s: State, idle: Task, wait: Tick, indefinite: bool, onEvent: bool)
    requires Inv(s) && IdleReady(s, idle) && Enabled(s, BlockOp(wait, indefinite, onEvent), idle)
    ensures WellPlaced(s) && s.current in s.tasks && 0 <= s.cur < 2
    ensures Performed(s, BlockOp(wait, indefinite, onEvent), idle, Blocked(s, wait, indefinite, onEvent))
  {
    hide Inv, Core, DelaysAhead, WellPlaced, EventsConsistent, IdleReady, MeaningOf, Blocked, Apply, BlockStep, Performed;
    Basics(s);
    BlockKeeps(s, wait, indefinite, onEvent);
    BlockMeaning(s, wait, indefinite, onEvent);
    BlockedStays(s, wait, indefinite, onEvent, idle);
    OneStepPerformed(s, BlockOp(wait, indefinite, onEvent), idle, Blocked(s, wait, indefinite, onEvent),
      BlockStep(s, wait, indefinite));
  }

  lemma EventPerformed(s: State, idle: Task, t: Task)
    requires Inv(s) && IdleReady(s, idle) && Enabled(s, EventOp(t), idle)
    ensures WellPlaced(s) && ReadyList(s.priority[t]) in s.lists && Performed(s, EventOp(t), idle, EventGiven(s, t))
  {
    hide Inv, Core, DelaysAhead, WellPlaced, EventsConsistent, IdleReady, MeaningOf, Apply, Performed, MakeReady,
         OutranksCurrent;
    Basics(s);
    EventGivenUnfolds(s, t);
    var b := s.yieldPending || OutranksCurrent(s, t);
    MakeReadyStays(s, t, b, idle);
    PendingStays(s, t, b, idle);
    OneStepPerformed(s, EventOp(t), idle, EventGiven(s, t), SetStatus(t, Ready));
  }

  lemma AbortPerformed(s: State, idle: Task, t: Task)
    requires Inv(s) && IdleReady(s, idle) && t in s.tasks
    ensures WellPlaced(s) && ReadyList(s.priority[t]) in s.lists && Performed(s, AbortDelayOp(t), idle, DelayAborted(s, t))
  {
    hide Inv, Core, DelaysAhead, WellPlaced, EventsConsistent, IdleReady, MeaningOf, Apply, Performed, MakeReady,
         OutranksCurrent, IsBlocked;
    Basics(s);
    if IsBlocked(s, t) {
      AbortUnfolds(s, t);
      MakeReadyStays(s, t, s.yieldPending || OutranksCurrent(s, t), idle);
      OneStepPerformed(s, AbortDelayOp(t), idle, DelayAborted(s, t), SetStatus(t, Ready));
    } else {
      NoStepPerformed(s, AbortDelayOp(t), idle, DelayAborted(s, t));
    }
  }

  lemma WaiterIsBlocked(s: State, t: Task)
    requires Inv(s) && t in s.tasks && s.event[t] == EventList && t != s.current
    ensures IsBlocked(s, t)
  {
    hide ListsAgree, ReadyByPriority, DelaysSorted, DelaysAhead;
  }

  lemma UnorderedEventPerformed(s: State, idle: Task, t: Task)
    requires Inv(s) && IdleReady(s, idle) && Enabled(s, UnorderedEventOp(t), idle)
    ensures WellPlaced(s) && ReadyList(s.priority[t]) in s.lists
    ensures Performed(s, UnorderedEventOp(t), idle, MakeReady(s, t).(yieldPending := s.yieldPending || OutranksCurrent(s, t)))
  {
    WaiterIsBlocked(s, t);
    hide Inv, Core, DelaysAhead, WellPlaced, EventsConsistent, IdleReady, MeaningOf, Apply, Performed, MakeReady,
         OutranksCurrent, IsBlocked;
    Basics(s);
    AbortUnfolds(s, t);
    var b := s.yieldPending || OutranksCurrent(s, t);
    MakeReadyStays(s, t, b, idle);
    OneStepPerformed(s, UnorderedEventOp(t), idle, MakeReady(s, t).(yieldPending := b), SetStatus(t, Ready));
  }

  lemma SuspendedStays(s: State, t: Task, u: Task)
    requires WellPlaced(s) && t in s.tasks && SuspendedList in s.lists && IdleReady(s, u) && u != t
    ensures IdleReady(TaskSuspended(s, t), u)
  {
    hide ListsAgree;
  }

  lemma SuspendPerformed(s: State, idle: Task, t: Task)
    requires Inv(s) && IdleReady(s, idle) && t in s.tasks && t != idle
    ensures WellPlaced(s) && SuspendedList in s.lists && Performed(s, SuspendOp(t), idle, TaskSuspended(s, t))
  {
    hide Inv, Core, DelaysAhead, WellPlaced, EventsConsistent, IdleReady, MeaningOf, Apply, Performed, TaskSuspended;
    Basics(s);
    TaskSuspendedKeeps(s, t);
    TaskSuspendedMeaning(s, t);
    SuspendedStays(s, t, idle);
    OneStepPerformed(s, SuspendOp(t), idle, TaskSuspended(s, t), SetStatus(t, Suspended));
  }

  lemma ResumePerformed(s: State, idle: Task, t: Task)
    requires Inv(s) && IdleReady(s, idle) && t in s.tasks
    ensures WellPlaced(s) && ReadyList(s.priority[t]) in s.lists && Performed(s, ResumeOp(t), idle, TaskResumed(s, t))
  {
    hide Inv, Core, DelaysAhead, WellPlaced, EventsConsistent, IdleReady, MeaningOf, Apply, Performed, MakeReady, IsSuspended;
    Basics(s);
    TaskResumedUnfolds(s, t);
    if t != s.current && IsSuspended(s, t) {
      MakeReadyStays(s, t, true, idle);
      OneStepPerformed(s, ResumeOp(t), idle, TaskResumed(s, t), SetStatus(t, Ready));
    } else {
      NoStepPerformed(s, ResumeOp(t), idle, TaskResumed(s, t));
    }
  }

  lemma ResumeFromISRPerformed(s: State, idle: Task, t: Task)
    requires Inv(s) && IdleReady(s, idle) && t in s.tasks
    ensures WellPlaced(s) && ReadyList(s.priority[t]) in s.lists
    ensures Performed(s, ResumeFromISROp(t), idle, TaskResumedFromISR(s, t))
  {
    hide Inv, Core, DelaysAhead, WellPlaced, EventsConsistent, IdleReady, MeaningOf, Apply, Performed, MakeReady, IsSuspended,
         OutranksCurrent;
    Basics(s);
    ResumedFromISRUnfolds(s, t);
    if IsSuspended(s, t) {
      MakeReadyStays(s, t, s.yieldPending || OutranksCurrent(s, t), idle);
      PendingStays(s, t, s.yieldPending, idle);
      OneStepPerformed(s, ResumeFromISROp(t), idle, TaskResumedFromISR(s, t), SetStatus(t, Ready));
    } else {
      NoStepPerformed(s, ResumeFromISROp(t), idle, TaskResumedFromISR(s, t));
    }
  }

  lemma CreatePerformed(s: State, idle: Task, t: Task, p: int)
    requires Inv(s) && IdleReady(s, idle) && t !in s.tasks && 0 <= p < MAX_PRIORITIES
    ensures ReadyList(p) in s.lists && s.lists[ReadyList(p)].idx <= |s.lists[ReadyList(p)].items|
    ensures Performed(s, CreateOp(t, p), idle, Created(s, t, p))
  {
    hide Inv, MeaningOf, Apply, Performed;
    CreatedUnfolds(s, t, p);
    assert IdleReady(Created(s, t, p), idle);
    hide Created, IdleReady;
    OneStepPerformed(s, CreateOp(t, p), idle, Created(s, t, p), SetStatus(t, Ready));
  }

  lemma DeletedStays(s: State, t: Task, u: Task)
    requires WellPlaced(s) && t in s.tasks && TerminationList in s.lists && IdleReady(s, u) && u != t
    ensures IdleReady(TaskDeleted(s, t), u)
  {
    hide ListsAgree, Without, Dropped;
  }

  lemma DeletePerformed(s: State, idle: Task, t: Task)
    requires Inv(s) && IdleReady(s, idle) && t in s.tasks && t != idle
    ensures WellPlaced(s) && TerminationList in s.lists && Performed(s, DeleteOp(t), idle, TaskDeleted(s, t))
  {
    hide Inv, Core, DelaysAhead, WellPlaced, EventsConsistent, IdleReady, MeaningOf, Apply, Performed, TaskDeleted,
         CoreButNext, Forgotten;
    Basics(s);
    TaskDeletedUnfolds(s, t);
    DeletedStays(s, t, idle);
    OneStepPerformed(s, DeleteOp(t), idle, TaskDeleted(s, t), if t == s.current then SetStatus(t, Deleted) else Forget(t));
  }

  lemma CleanUpPerformed(s: State, idle: Task, t: Task)
    requires Inv(s) && IdleReady(s, idle) && Enabled(s, CleanUpOp(t), idle)
    ensures WellPlaced(s) && Performed(s, CleanUpOp(t), idle, Forgotten(s, t))
  {
    ForgottenStays(s, t, idle);
    hide Inv, Core, DelaysAhead, WellPlaced, EventsConsistent, IdleReady, MeaningOf, Apply, Performed, Forgotten;
    Basics(s);
    ForgottenKeeps(s, t);
    ForgottenMeaning(s, t);
    OneStepPerformed(s, CleanUpOp(t), idle, Forgotten(s, t), Forget(t));
  }

  lemma ForgottenStays(s: State, t: Task, u: Task)
    requires WellPlaced(s) && t in s.tasks && s.place[t] == TerminationList && IdleReady(s, u)
    ensures IdleReady(Forgotten(s, t), u)
  {
    hide ListsAgree, Without, Dropped;
  }

  lemma PriorityStays(s: State, t: Task, p: int, u: Task)
    requires WellPlaced(s) && t in s.tasks && ReadyList(p) in s.lists && IdleReady(s, u)
    ensures IdleReady(PriorityChanged(s, t, p), u)
  {
    hide ListsAgree;
  }

  lemma SetPriorityPerformed(s: State, idle: Task, t: Task, p: int)
    requires Inv(s) && IdleReady(s, idle) && t in s.tasks && 0 <= p < MAX_PRIORITIES
    ensures WellPlaced(s) && ReadyList(p) in s.lists && Performed(s, SetPriorityOp(t, p), idle, PriorityChanged(s, t, p))
  {
    hide Inv, Core, DelaysAhead, WellPlaced, EventsConsistent, IdleReady, MeaningOf, Apply, Performed, PriorityChanged;
    Basics(s);
    PriorityChangedKeeps(s, t, p);
    PriorityChangedReady(s, t, p);
    PriorityStays(s, t, p, idle);
    NoStepPerformed(s, SetPriorityOp(t, p), idle, PriorityChanged(s, t, p));
  }

  lemma SomeReady(s: State, idle: Task)
    requires IdleReady(s, idle) && s.place.Keys == s.tasks
    ensures exists t :: t in s.tasks && s.place[t].ReadyList?
  {
  }

  lemma SwitchedStays(s: State, u: Task)
    requires Core(s) && (exists t :: t in s.tasks && s.place[t].ReadyList?) && IdleReady(s, u)
    ensures IdleReady(Switched(s), u)
  {
    SelectionIsMaximal(s);
    hide Core, TopReady;
  }

  lemma SwitchPerformed(s: State, idle: Task)
    requires Inv(s) && IdleReady(s, idle)
    ensures Core(s) && s.place.Keys == s.tasks && (exists t :: t in s.tasks && s.place[t].ReadyList?)
    ensures Performed(s, SwitchOp, idle, Switched(s))
  {
    hide Inv, Core, DelaysAhead, WellPlaced, EventsConsistent, IdleReady, MeaningOf, Apply, Performed, Switched;
    Basics(s);
    SomeReady(s, idle);
    SwitchedKeeps(s);
    SwitchedMeaning(s);
    SwitchedStays(s, idle);
    NoStepPerformed(s, SwitchOp, idle, Switched(s));
  }

  lemma PerformKeeps(s: State, op: Op, idle: Task)
    requires Inv(s) && IdleReady(s, idle) && Enabled(s, op, idle)
    ensures Performed(s, op, idle, Perform(s, op, idle))
  {
    hide Inv, Core, DelaysAhead, WellPlaced, EventsConsistent, IdleReady, MeaningOf, Performed, StepsOf, IncrementTick, Resumed,
         Blocked, EventGiven, DelayAborted, TaskSuspended, TaskResumed, TaskResumedFromISR, Created, TaskDeleted,
         Forgotten, PriorityChanged, Switched;
    match op
    case TickOp => TickPerformed(s, idle);
    case SuspendAllOp => SuspendAllPerformed(s, idle);
    case ResumeAllOp => ResumeAllPerformed(s, idle);
    case BlockOp(wait, indefinite, onEvent) => BlockPerformed(s, idle, wait, indefinite, onEvent);
    case EventOp(t) => EventPerformed(s, idle, t);
    case AbortDelayOp(t) => AbortPerformed(s, idle, t);
    case UnorderedEventOp(t) => UnorderedEventPerformed(s, idle, t);
    case SuspendOp(t) => SuspendPerformed(s, idle, t);
    case ResumeOp(t) => ResumePerformed(s, idle, t);
    case ResumeFromISROp(t) => ResumeFromISRPerformed(s, idle, t);
    case CreateOp(t, p) => CreatePerformed(s, idle, t, p);
    case DeleteOp(t) => DeletePerformed(s, idle, t);
    case CleanUpOp(t) => CleanUpPerformed(s, idle, t);
    case SetPriorityOp(t, p) => SetPriorityPerformed(s, idle, t, p);
    case SwitchOp => SwitchPerformed(s, idle);
  }

  // ----- Runs

  /** Every call of the run is made when the kernel allows it. */
  ghost predicate Legal(s: State, ops: seq<Op>, idle: Task)
    requires Inv(s) && IdleReady(s, idle)
    decreases |ops|
  {
    ops == [] ||
    (Enabled(s, ops[0], idle) && (PerformKeeps(s, ops[0], idle); Legal(Perform(s, ops[0], idle), ops[1..], idle)))
  }

  ghost function After(s: State, ops: seq<Op>, idle: Task): State
    requires Inv(s) && IdleReady(s, idle) && Legal(s, ops, idle)
    decreases |ops|
  {
    if ops == [] then s
    else PerformKeeps(s, ops[0], idle); After(Perform(s, ops[0], idle), ops[1..], idle)
  }

  ghost function RunSteps(s: State, ops: seq<Op>, idle: Task): seq<Step>
    requires Inv(s) && IdleReady(s, idle) && Legal(s, ops, idle)
    decreases |ops|
  {
    if ops == [] then []
    else PerformKeeps(s, ops[0], idle); StepsOf(s, ops[0]) + RunSteps(Perform(s, ops[0], idle), ops[1..], idle)
  }

  function Ticks(ops: seq<Op>): nat {
    if ops == [] then 0 else (if ops[0].TickOp? then 1 else 0) + Ticks(ops[1..])
  }

  lemma OneStepFirst(a: Meaning, first: seq<Step>, rest: seq<Step>)
    requires |first| <= 1 && (first == [ResumeAll] ==> a.depth > 0) && Balanced(Run(a, first).depth, rest)
    ensures Run(a, first + rest) == Run(Run(a, first), rest) && Balanced(a.depth, first + rest)
    ensures TickInterrupts(first + rest) == (if first == [TickInterrupt] then 1 else 0) + TickInterrupts(rest)
  {
    hide Apply;
    if first == [] {
      assert first + rest == rest;
    } else {
      OneStep(a, first[0]);
      ApplyDepth(a, first[0]);
      assert first == [first[0]] && (first + rest)[1..] == rest;
    }
  }

  lemma ApplyDepth(a: Meaning, step: Step)
    ensures Apply(a, step).depth == if step.SuspendAll? then a.depth + 1 else if step.ResumeAll? then a.depth - 1 else a.depth
  {
  }

  lemma FewSteps(s: State, op: Op)
    ensures |StepsOf(s, op)| <= 1
    ensures StepsOf(s, op) == [ResumeAll] <==> op.ResumeAllOp?
    ensures StepsOf(s, op) == [TickInterrupt] <==> op.TickOp?
  {
    hide IsBlocked, IsSuspended;
  }

  lemma FirstOp(s: State, ops: seq<Op>, idle: Task)
    requires Inv(s) && IdleReady(s, idle) && ops != [] && Legal(s, ops, idle)
    ensures Enabled(s, ops[0], idle) && (ops[0].ResumeAllOp? ==> MeaningOf(s).depth > 0)
    ensures var s1 := Perform(s, ops[0], idle);
            && Inv(s1) && IdleReady(s1, idle) && Legal(s1, ops[1..], idle)
            && MeaningOf(s1) == Run(MeaningOf(s), StepsOf(s, ops[0]))
            && After(s, ops, idle) == After(s1, ops[1..], idle)
            && RunSteps(s, ops, idle) == StepsOf(s, ops[0]) + RunSteps(s1, ops[1..], idle)
  {
    hide Inv, IdleReady, Perform, StepsOf, StatusOf, Run;
    PerformKeeps(s, ops[0], idle);
  }

  /**
  Any run of kernel calls and interrupts keeps the invariant and is, for what it does to the
  tasks, the run of the simple machine over absolute time.
  */
  lemma {:induction false} RunRefines(s: State, ops: seq<Op>, idle: Task)
    requires Inv(s) && IdleReady(s, idle) && Legal(s, ops, idle)
    ensures var s', steps := After(s, ops, idle), RunSteps(s, ops, idle);
            && Inv(s') && IdleReady(s', idle)
            && MeaningOf(s') == Run(MeaningOf(s), steps) && Balanced(MeaningOf(s).depth, steps)
            && TickInterrupts(steps) == Ticks(ops)
    decreases |ops|
  {
    hide Inv, IdleReady, Perform, StepsOf, MeaningOf, Enabled;
    if ops == [] {
      OneStep(MeaningOf(s), TickInterrupt);
    } else {
      FirstOp(s, ops, idle);
      var s1 := Perform(s, ops[0], idle);
      RunRefines(s1, ops[1..], idle);
      FewSteps(s, ops[0]);
      hide After, RunSteps, Legal, Run, Balanced;
      OneStepFirst(MeaningOf(s), StepsOf(s, ops[0]), RunSteps(s1, ops[1..], idle));
    }
  }

  /** The properties every reachable state has. */
  lemma EveryTickCounted(s: State, ops: seq<Op>, idle: Task)
    requires Inv(s) && IdleReady(s, idle) && Legal(s, ops, idle)
    ensures var s' := After(s, ops, idle);
            && Now(s') + s'.pendedTicks == Now(s) + s.pendedTicks + Ticks(ops)
            && (s'.schedulerSuspended == 0 ==> s'.pendedTicks == 0)
            && SumOfLengths(s', AllPlaces()) == |s'.tasks|
            && (s'.tickCount == MAX_DELAY ==> Items(s', DelayList(s'.cur)) == [])
  {
    hide Core, DelaysAhead, After, RunSteps, Legal, Run, StatusOf, IdleReady, AllPlaces, SumOfLengths;
    RunRefines(s, ops, idle);
    MeaningIsConsistent(s);
    TicksConserved(MeaningOf(s), RunSteps(s, ops, idle));
    var s' := After(s, ops, idle);
    LengthsAddUp(s');
    if s'.tickCount == MAX_DELAY {
      CurrentListEmptyAtWrap(s');
    }
  }

  /**
  A task delayed to a deadline is, after any run that does not itself touch it, ready exactly if
  the deadline has been processed: through wraps of the tick count, suspensions of the scheduler,
  and whatever becomes of the other tasks.
  */
  lemma WokenAtDeadline(s: State, ops: seq<Op>, idle: Task, t: Task, deadline: int)
    requires Inv(s) && IdleReady(s, idle) && Legal(s, ops, idle)
    requires t in s.tasks && StatusOf(s, t) == Delayed(deadline) && Now(s) < deadline
    requires LeavesAlone(t, RunSteps(s, ops, idle))
    ensures var s' := After(s, ops, idle);
            t in s'.tasks && StatusOf(s', t) == if deadline <= Now(s') then Ready else Delayed(deadline)
  {
    hide Core, DelaysAhead, After, RunSteps, Legal, Run, StatusOf, IdleReady, Inv, LeavesAlone;
    RunRefines(s, ops, idle);
    MeaningIsConsistent(s);
    WokenExactlyAtDeadline(MeaningOf(s), RunSteps(s, ops, idle), t, deadline);
    assert MeaningOf(After(s, ops, idle)).status.Keys == After(s, ops, idle).tasks;
  }

  /**
  The running task blocks for `wait` ticks, with or without an event to wait for: after any run
  that does not itself touch it, it is ready exactly if that many ticks have been processed.
  */
  lemma BlockedForItsTime(s: State, ops: seq<Op>, idle: Task)
    requires Inv(s) && IdleReady(s, idle) && ops != [] && ops[0].BlockOp? && Legal(s, ops, idle)
    requires ops[0].wait > 0 && !(ops[0].wait == MAX_DELAY && ops[0].indefinite)
    requires RunSteps(s, ops, idle) != [] && LeavesAlone(s.current, RunSteps(s, ops, idle)[1..])
    ensures var s', t, deadline := After(s, ops, idle), s.current, Now(s) + ops[0].wait;
            t in s'.tasks && StatusOf(s', t) == if deadline <= Now(s') then Ready else Delayed(deadline)
  {
    hide Core, DelaysAhead, After, RunSteps, Legal, Run, StatusOf, IdleReady, Inv, LeavesAlone, MeaningOf, Blocked, WellPlaced;
    Basics(s);
    var wait, indefinite, onEvent := ops[0].wait, ops[0].indefinite, ops[0].onEvent;
    FirstOp(s, ops, idle);
    BlockedStatus(s, wait, indefinite, onEvent, s.current);
    BlockedCounters(s, wait, indefinite, onEvent);
    var s1 := Blocked(s, wait, indefinite, onEvent);
    assert RunSteps(s, ops, idle)[1..] == RunSteps(s1, ops[1..], idle);
    WokenAtDeadline(s1, ops[1..], idle, s.current, Now(s) + wait);
  }

  /** Whatever has happened before, a context switch runs a ready task that no ready task outranks. */
  lemma SwitchRunsHighest(s: State, ops: seq<Op>, idle: Task)
    requires Inv(s) && IdleReady(s, idle) && Legal(s, ops, idle) && After(s, ops, idle).schedulerSuspended == 0
    ensures var s' := After(s, ops, idle);
            && Inv(s') && IdleReady(s', idle)
            && var c := Perform(s', SwitchOp, idle).current;
            && c in s'.tasks && StatusOf(s', c) == Ready
            && forall t :: t in s'.tasks && StatusOf(s', t) == Ready ==> PriorityOf(s', t) <= PriorityOf(s', c)
  {
    hide Core, DelaysAhead, After, RunSteps, Legal, Run, StatusOf, Switched;
    RunRefines(s, ops, idle);
    var s' := After(s, ops, idle);
    SomeReadyThere(s', idle);
    SwitchedToHighest(s');
  }

  lemma SomeReadyThere(s: State, idle: Task)
    requires Inv(s) && IdleReady(s, idle)
    ensures s.place.Keys == s.tasks && exists t :: t in s.tasks && s.place[t].ReadyList?
  {
    Basics(s);
    hide Inv, Core, WellPlaced, EventsConsistent, DelaysAhead;
    SomeReady(s, idle);
  }

  // ----- The start

  datatype NewTask = NewTask(t: Task, p: int)

  ghost function EmptyLists(): map<Place, Ring<Task>> {
    map l | l in AllPlaces() :: EmptyRing()
  }

  /** prvInitialiseTaskLists(), and the first task made. */
  ghost function FirstTask(t: Task, p: int): State
    requires 0 <= p < MAX_PRIORITIES
  {
    State({t}, 0, 0, 0, MAX_DELAY, 0, false, p, t, 0, map[t := p], map[t := 0], map[t := ReadyList(p)],
          map[t := NoList], EmptyLists()[ReadyList(p) := Ring([t], 0)], [])
  }

  /** prvAddNewTaskToReadyList() before the scheduler runs: a task as high as any so far is to run first. */
  ghost function CreatedEarly(s: State, t: Task, p: int): State
    requires ReadyList(p) in s.lists && s.lists[ReadyList(p)].idx <= |s.lists[ReadyList(p)].items|
  {
    Created(s, t, p).(current := if PriorityOf(s, s.current) <= p then t else s.current)
  }

  predicate AllNew(made: seq<NewTask>) {
    made == [] ||
    (AllNew(made[..|made| - 1]) && 0 <= made[|made| - 1].p < MAX_PRIORITIES && made[|made| - 1].t !in TasksOf(made[..|made| - 1]))
  }

  function TasksOf(made: seq<NewTask>): set<Task> {
    if made == [] then {} else TasksOf(made[..|made| - 1]) + {made[|made| - 1].t}
  }

  /** All tasks are in ready lists, and none outranks the one that is to run. */
  ghost predicate AllReady(s: State) {
    && s.place.Keys == s.priority.Keys == s.tasks && s.current in s.tasks
    && forall t :: t in s.tasks ==> s.place[t].ReadyList? && s.priority[t] <= s.priority[s.current]
  }

  predicate Unstarted(s: State) {
    Now(s) == 0 && s.schedulerSuspended == 0 && s.nextTaskUnblockTime == MAX_DELAY
  }

  /** The scheduler as vTaskStartScheduler() starts it, after these tasks have been made, the idle task among them. */
  ghost function Started(made: seq<NewTask>): (s: State)
    requires made != [] && AllNew(made)
    ensures Inv(s) && AllReady(s) && Unstarted(s) && s.tasks == TasksOf(made)
    decreases |made|
  {
    var before, last := made[..|made| - 1], made[|made| - 1];
    if before == [] then
      FirstTaskKeeps(last.t, last.p);
      FirstTask(last.t, last.p)
    else
      CreatedEarlyKeeps(Started(before), last.t, last.p);
      CreatedEarly(Started(before), last.t, last.p)
  }

  lemma CreatedEarlyKeeps(s: State, t: Task, p: int)
    requires Inv(s) && AllReady(s) && t !in s.tasks && 0 <= p < MAX_PRIORITIES && Unstarted(s)
    ensures ReadyList(p) in s.lists && s.lists[ReadyList(p)].idx <= |s.lists[ReadyList(p)].items|
    ensures var s' := CreatedEarly(s, t, p);
            Inv(s') && AllReady(s') && Unstarted(s') && s'.tasks == s.tasks + {t}
  {
    hide Inv, Created, MeaningOf, Apply;
    CreatedUnfolds(s, t, p);
    CreatedFields(s, t, p);
    var c := Created(s, t, p);
    RunsFirst(c, if PriorityOf(s, s.current) <= p then t else s.current);
  }

  lemma CreatedFields(s: State, t: Task, p: int)
    requires ReadyList(p) in s.lists && s.lists[ReadyList(p)].idx <= |s.lists[ReadyList(p)].items|
    ensures var c := Created(s, t, p);
            && c.place == s.place[t := ReadyList(p)] && c.priority == s.priority[t := p] && c.tasks == s.tasks + {t}
            && c.current == s.current && (Unstarted(s) ==> Unstarted(c))
  {
  }

  lemma RunsFirst(s: State, t: Task)
    requires Inv(s) && t in s.tasks
    ensures Inv(s.(current := t))
  {
    hide ListsAgree, ReadyAgree, EventsAgree, Sorted;
  }

  lemma FirstTaskLists(t: Task, p: int)
    requires 0 <= p < MAX_PRIORITIES
    ensures var s := FirstTask(t, p);
            && ListsAgree(s.place, s.lists)
            && ReadyList(p) in s.lists && Items(s, DelayList(0)) == [] && Items(s, DelayList(1)) == []
  {
    AllPlacesAreLists();
    hide AllPlaces;
    DistinctIndices([t]);
  }

  lemma FirstTaskKeeps(t: Task, p: int)
    requires 0 <= p < MAX_PRIORITIES
    ensures var s := FirstTask(t, p); Inv(s) && AllReady(s) && Unstarted(s) && s.tasks == {t}
  {
    FirstTaskLists(t, p);
    hide ListsAgree, AllPlaces, EmptyLists, Items;
  }

  /** Every start allows every run, and the first task to run is one of highest priority. */
  lemma StartedIsLegal(made: seq<NewTask>, idle: Task)
    requires made != [] && AllNew(made) && idle in TasksOf(made)
    ensures var s := Started(made);
            && Inv(s) && IdleReady(s, idle) && Now(s) == 0
            && forall t :: t in s.tasks ==> StatusOf(s, t) == Ready && PriorityOf(s, t) <= PriorityOf(s, s.current)
  {
    Basics(Started(made));
    hide Inv, Started, ListsAgree;
  }

  // ----- What happens when a task blocks for no ticks just before the tick count wraps

  function TickOps(n: nat): seq<Op> {
    seq(n, i => TickOp)
  }

  /** Ticks while no task is delayed: only the tick count changes. */
  lemma QuietTick(s: State)
    requires Inv(s) && s.schedulerSuspended == 0 && s.tickCount < MAX_DELAY && s.nextTaskUnblockTime == MAX_DELAY
    requires Items(s, DelayList(s.cur)) == []
    ensures IncrementTick(s) == s.(tickCount := s.tickCount + 1)
  {
    AdvancedForm(s);
    var a := s.(tickCount := s.tickCount + 1);
    if a.tickCount >= MAX_DELAY {
      assert Items(a, DelayList(a.cur)) == [];
      TickKeepsCore(s, s.tickCount + 1);
      assert Drain(a) == ResetNext(a) == a;
    }
  }

  lemma {:induction false} QuietTicks(s: State, n: nat, idle: Task)
    requires Inv(s) && IdleReady(s, idle) && s.schedulerSuspended == 0 && s.nextTaskUnblockTime == MAX_DELAY
    requires s.tickCount + n <= MAX_DELAY && Items(s, DelayList(s.cur)) == []
    ensures Legal(s, TickOps(n), idle) && After(s, TickOps(n), idle) == s.(tickCount := s.tickCount + n)
    decreases n
  {
    hide Inv, IdleReady, Items, IncrementTick;
    if n > 0 {
      QuietTick(s);
      PerformKeeps(s, TickOp, idle);
      assert TickOps(n)[0] == TickOp && TickOps(n)[1..] == TickOps(n - 1);
      var s1 := s.(tickCount := s.tickCount + 1);
      assert Perform(s, TickOp, idle) == s1;
      SameItems(s, s1);
      QuietTicks(s1, n - 1, idle);
    }
  }

  lemma SameItems(s: State, s': State)
    requires s'.lists == s.lists && s'.cur == s.cur
    ensures Items(s', DelayList(s'.cur)) == Items(s, DelayList(s.cur))
  {
  }

  lemma NobodyDelayed(s: State)
    requires Inv(s) && AllReady(s)
    ensures 0 <= s.cur < 2 && Items(s, DelayList(s.cur)) == []
  {
    var items := Items(s, DelayList(s.cur));
    assert items != [] ==> items[0] in items;
    forall t
      ensures t !in items
    {
    }
  }

  /** An idle task, and a task of priority 1 that runs. */
  function Two(): seq<NewTask> {
    [NewTask(1, 1), NewTask(0, 0)]
  }

  lemma TwoStart()
    ensures AllNew(Two()) && TasksOf(Two()) == {0, 1} && Started(Two()).current == 1
  {
    var made := Two();
    assert made[..1] == [NewTask(1, 1)] && [NewTask(1, 1)][..0] == [];
    assert TasksOf([]) == {} && TasksOf([NewTask(1, 1)]) == {1};
    var s := Started(made);
    assert PriorityOf(s, 1) >= 0;
  }

  /**
  A block of no ticks, by a task that runs alone until the tick count is about to wrap, leaves the
  task in the current delay list: the next tick finds it there, against the assertion of the switch.
  */
  lemma ZeroWaitAtWrap()
    ensures AllNew(Two()) && Legal(Started(Two()), TickOps(MAX_DELAY), 0)
    ensures var s := After(Started(Two()), TickOps(MAX_DELAY), 0);
            && Inv(s) && s.tickCount == MAX_DELAY && s.current == 1 && 1 in s.tasks && s.place[1].ReadyList?
            && var b := Blocked(s, 0, false, false);
               b.tickCount == MAX_DELAY && 1 in b.place && b.place[1] == DelayList(b.cur) && !Inv(b)
  {
    TwoTick();
    hide Inv, Started, Blocked, Legal, After, TickOps;
    ZeroWaitStays(After(Started(Two()), TickOps(MAX_DELAY), 0));
  }

  lemma ZeroWaitStays(s: State)
    requires Inv(s) && s.place[s.current].ReadyList? && s.tickCount == MAX_DELAY
    ensures s.current in s.tasks && 0 <= s.cur < 2 && WellPlaced(s)
    ensures var b := Blocked(s, 0, false, false);
            b.tickCount == MAX_DELAY && s.current in b.place && b.place[s.current] == DelayList(b.cur) && !Inv(b)
  {
    Basics(s);
    assert Wrap(MAX_DELAY + 0) == MAX_DELAY;
    hide Inv, Core, WellPlaced, EventsConsistent, DelaysAhead, Blocked, Wrap;
    BlockKeeps(s, 0, false, false);
    BlockedForm(s, 0, false, false);
  }

  /** Task 1 alone, up to the last tick. */
  lemma TwoTick()
    ensures AllNew(Two()) && Legal(Started(Two()), TickOps(MAX_DELAY), 0)
    ensures var s := After(Started(Two()), TickOps(MAX_DELAY), 0);
            Inv(s) && s.tickCount == MAX_DELAY && s.current == 1 && 1 in s.tasks && 1 in s.place && s.place[1].ReadyList?
  {
    TwoStart();
    var s0 := Started(Two());
    StartedIsLegal(Two(), 0);
    NobodyDelayed(s0);
    assert s0.place[1].ReadyList? && s0.tickCount == 0;
    hide Inv, Started, IdleReady, Items, Two, AllReady;
    QuietTicks(s0, MAX_DELAY, 0);
    RunRefines(s0, TickOps(MAX_DELAY), 0);
  }
}
