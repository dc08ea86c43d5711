/**
What each operation of the scheduler (rtos/source/tasks.c) does to the tasks on event lists: a
task stays on its list until it is made ready, and keeps what it is doing until then.
*/
module KernelEvents {
  import opened Config
  import opened Lists
  import opened KernelState
  import opened KernelMeaning
  import opened KernelRefinement
  import opened KernelRuns

  /** The event list item of the task is in the list of some object. */
  predicate Asleep(s: State, t: Task) {
    t in s.tasks && t in s.event && s.event[t] == EventList
  }

  /** A task on an event list is blocked, and its deadline, if it has one, is not over. */
  lemma AsleepIsBlocked(s: State, t: Task)
    requires Inv(s) && Asleep(s, t)
    ensures StatusOf(s, t) == Waiting || (StatusOf(s, t).Delayed? && Now(s) <= StatusOf(s, t).deadline)
  {
    Basics(s);
    hide ListsAgree, ReadyByPriority, DelaysSorted;
  }

  /** The deadline of the task, if it has one, has not come. */
  predicate InTime(s: State, t: Task) {
    StatusOf(s, t).Delayed? ==> Now(s) < StatusOf(s, t).deadline
  }

  predicate IsReady(s: State, t: Task) {
    t in s.tasks && t in s.event && t in s.place && s.event[t] == NoList && s.place[t].ReadyList?
  }

  /** A task that was on an event list still is, or has been made ready. */
  predicate StillOrReady(s: State, s': State, t: Task) {
    Asleep(s, t) ==> Asleep(s', t) || IsReady(s', t)
  }

  /** The operation is about this task; to abort its delay only wakes it, as a time-out does. */
  predicate Touches(s: State, op: Op, t: Task) {
    match op
    case BlockOp(_, _, _) => s.current == t
    case EventOp(u) => u == t
    case UnorderedEventOp(u) => u == t
    case SuspendOp(u) => u == t
    case DeleteOp(u) => u == t
    case CleanUpOp(u) => u == t
    case _ => false
  }

  // ----- Ticks

  lemma DrainedStill(a: State, s': State, t: Task)
    requires a.place.Keys == a.wake.Keys == a.event.Keys == a.priority.Keys == a.tasks && DrainedTo(a, s')
    ensures StillOrReady(a, s', t)
  {
    if t in a.tasks {
      assert DrainedTask(a, s', t);
    }
  }

  lemma AdvancedEvents(s: State)
    requires s.tickCount < TICK_MODULUS && 0 <= s.cur < 2
    ensures Advanced(s).event == s.event && Advanced(s).tasks == s.tasks
  {
    AdvancedForm(s);
  }

  lemma TickStill(s: State, t: Task)
    requires Core(s) && DelaysAhead(s) && s.pendingReady == []
    ensures StillOrReady(s, IncrementTick(s), t)
  {
    TickDrains(s);
    AdvancedEvents(s);
    hide IncrementTick, Advanced, DelaysAhead, DrainedTo, ListsAgree, ReadyByPriority, EventsConsistent;
    DrainedStill(Advanced(s), IncrementTick(s), t);
  }

  /** A task in a ready list stays in one over ticks, and is on no event list. */
  lemma ReadyIsReady(s: State, t: Task)
    requires Core(s) && t in s.tasks && t in s.place && s.place[t].ReadyList?
    ensures IsReady(s, t)
  {
    hide ListsAgree, ReadyByPriority, DelaysSorted;
  }

  lemma {:induction false} ReplayStill(s: State, n: nat, t: Task)
    requires Core(s) && DelaysAhead(s) && s.pendingReady == []
    ensures StillOrReady(s, Replay(s, n), t)
    decreases n
  {
    hide Core, DelaysAhead, IncrementTick, SwitchRequired;
    if n > 0 {
      TickKeeps(s);
      TickStill(s, t);
      var s' := IncrementTick(s);
      var s1 := s'.(yieldPending := SwitchRequired(s, s'));
      YieldKeeps(s', SwitchRequired(s, s'));
      if Asleep(s1, t) {
        ReplayStill(s1, n - 1, t);
      } else if IsReady(s1, t) {
        ReplayStays(s1, n - 1, t);
        ReplayKeeps(s1, n - 1);
        ReadyIsReady(Replay(s1, n - 1), t);
      }
    }
  }

  lemma ThenReplay(s: State, s1: State, n: nat, t: Task)
    requires Core(s1) && DelaysAhead(s1) && s1.pendingReady == [] && StillOrReady(s, s1, t)
    ensures StillOrReady(s, Replay(s1, n), t)
  {
    hide Core, DelaysAhead, Replay;
    if Asleep(s1, t) {
      ReplayStill(s1, n, t);
    } else if IsReady(s1, t) {
      ReplayStays(s1, n, t);
      ReplayKeeps(s1, n);
      ReadyIsReady(Replay(s1, n), t);
    }
  }

  lemma UnpendedStill(s: State, t: Task)
    requires Core(s)
    ensures StillOrReady(s, Unpended(s), t)
  {
    hide ListsAgree, ReadyByPriority, DelaysSorted, EventsConsistent, DrainPending;
    if s.pendingReady != [] {
      DrainPendingEffect(s);
    }
  }

  lemma ResumedStill(s: State, t: Task)
    requires Inv(s) && s.schedulerSuspended > 0
    ensures StillOrReady(s, Resumed(s), t)
  {
    var s1 := s.(schedulerSuspended := s.schedulerSuspended - 1);
    DepthKeeps(s, s1.schedulerSuspended);
    hide Core, DelaysAhead, Unpended, Replay;
    if s1.schedulerSuspended == 0 {
      UnpendedKeeps(s1);
      UnpendedStill(s1, t);
      ThenReplay(s, Unpended(s1), s1.pendedTicks, t);
    }
  }

  // ----- Operations on one task

  /** What is the same of every other task. */
  predicate OnlyTask(s: State, s': State, u: Task) {
    forall t :: t != u && t in s.tasks && t in s.event ==> t in s'.tasks && t in s'.event && s'.event[t] == s.event[t]
  }

  lemma OneTaskOps(s: State, u: Task)
    requires Inv(s) && u in s.tasks && WellPlaced(s) && ReadyList(s.priority[u]) in s.lists
    ensures OnlyTask(s, MakeReady(s, u), u) && OnlyTask(s, EventGiven(s, u), u) && OnlyTask(s, DelayAborted(s, u), u)
  {
    hide Inv, ListsAgree, Rest, Without, Dropped, IsBlocked, OutranksCurrent;
  }

  lemma AbortWakes(s: State, t: Task)
    requires Inv(s) && t in s.tasks && WellPlaced(s) && ReadyList(s.priority[t]) in s.lists
    ensures StillOrReady(s, DelayAborted(s, t), t)
  {
    hide Inv, ListsAgree, Rest, Without, Dropped, IsBlocked, OutranksCurrent;
  }

  lemma OneTaskLeaves(s: State, u: Task)
    requires Inv(s) && u in s.tasks && WellPlaced(s) && SuspendedList in s.lists && TerminationList in s.lists
    ensures OnlyTask(s, TaskSuspended(s, u), u) && OnlyTask(s, TaskDeleted(s, u), u) && OnlyTask(s, Forgotten(s, u), u)
  {
    hide Inv, ListsAgree, Rest, Without, Dropped, IsBlocked, OutranksCurrent;
  }

  /** A task that is resumed was suspended, and so on no event list. */
  lemma ResumeOps(s: State, u: Task, t: Task)
    requires Inv(s) && u in s.tasks && WellPlaced(s) && ReadyList(s.priority[u]) in s.lists && Asleep(s, t)
    ensures Asleep(TaskResumed(s, u), t) && Asleep(TaskResumedFromISR(s, u), t)
  {
    hide Inv, ListsAgree, Rest, Without, Dropped, OutranksCurrent;
  }

  lemma PriorityOp(s: State, u: Task, p: int, t: Task)
    requires Inv(s) && u in s.tasks && WellPlaced(s) && ReadyList(p) in s.lists && Asleep(s, t)
    ensures Asleep(PriorityChanged(s, u, p), t)
  {
    hide ListsAgree, Rest, Without, Dropped, DelaysAhead, DelaysSorted;
  }

  lemma BlockOps(s: State, wait: Tick, indefinite: bool, onEvent: bool)
    requires WellPlaced(s) && s.current in s.tasks && 0 <= s.cur < 2
    ensures var s' := Blocked(s, wait, indefinite, onEvent);
            OnlyTask(s, s', s.current) && (onEvent ==> Asleep(s', s.current)) && s'.current == s.current
  {
    BlockedForm(s, wait, indefinite, onEvent);
    hide Blocked, ListsAgree;
  }

  // ----- Any operation

  lemma OpSpares(s: State, op: Op, idle: Task, t: Task)
    requires Inv(s) && IdleReady(s, idle) && Enabled(s, op, idle) && !Touches(s, op, t) && Asleep(s, t)
    ensures StillOrReady(s, Perform(s, op, idle), t)
  {
    hide Core, DelaysAhead, WellPlaced, EventsConsistent, IncrementTick, Resumed, Blocked, EventGiven, DelayAborted,
         TaskSuspended, TaskResumed, TaskResumedFromISR, TaskDeleted, Forgotten, PriorityChanged, MakeReady;
    Basics(s);
    match op
    case TickOp => if s.schedulerSuspended == 0 { TickStill(s, t); }
    case SuspendAllOp =>
    case ResumeAllOp => ResumedStill(s, t);
    case BlockOp(wait, indefinite, onEvent) => BlockOps(s, wait, indefinite, onEvent);
    case EventOp(u) => ListsExist(s, u); OneTaskOps(s, u);
    case AbortDelayOp(u) => ListsExist(s, u); OneTaskOps(s, u); AbortWakes(s, t);
    case UnorderedEventOp(u) => ListsExist(s, u); OneTaskOps(s, u);
    case SuspendOp(u) => ListsExist(s, u); OneTaskLeaves(s, u);
    case ResumeOp(u) => ListsExist(s, u); ResumeOps(s, u, t);
    case ResumeFromISROp(u) => ListsExist(s, u); ResumeOps(s, u, t);
    case CreateOp(u, p) => CreatedUnfolds(s, u, p);
    case DeleteOp(u) => ListsExist(s, u); OneTaskLeaves(s, u);
    case CleanUpOp(u) => ListsExist(s, u); OneTaskLeaves(s, u);
    case SetPriorityOp(u, p) => PriorityOp(s, u, p, t);
    case SwitchOp => SomeReadyThere(s, idle);
  }

  /** The one step of absolute time that an operation is, if any, is not about a task that it does not touch. */
  lemma StepSpares(s: State, op: Op, idle: Task, t: Task)
    requires Inv(s) && IdleReady(s, idle) && Enabled(s, op, idle) && !Touches(s, op, t) && t in s.tasks
    ensures |StepsOf(s, op)| <= 1
    ensures StepsOf(s, op) != [] ==>
              var step := StepsOf(s, op)[0];
              (step.Block? || step.SetStatus? || step.Forget?) && step.t == t ==> step == SetStatus(t, Ready)
  {
    Basics(s);
    hide Inv, Core, IsBlocked;
  }

  lemma StatusInMeaning(s: State, t: Task)
    ensures t in MeaningOf(s).status <==> t in s.tasks
    ensures t in s.tasks ==> MeaningOf(s).status[t] == StatusOf(s, t)
  {
  }

  lemma NowInMeaning(s: State)
    ensures MeaningOf(s).now == Now(s)
  {
  }

  lemma StatusAfterStep(a: Meaning, steps: seq<Step>, t: Task)
    requires t in a.status && |steps| <= 1
    requires steps != [] && (steps[0].Block? || steps[0].SetStatus? || steps[0].Forget?) && steps[0].t == t ==>
               steps[0] == SetStatus(t, Ready)
    ensures var b := Run(a, steps); t in b.status && (b.status[t] == a.status[t] || b.status[t] == Ready)
    ensures var b := Run(a, steps);
            b.status[t] == a.status[t] && a.status[t].Delayed? && a.now < a.status[t].deadline ==> b.now < a.status[t].deadline
  {
    if steps == [] {
      OneStep(a, TickInterrupt);
    } else {
      assert steps == [steps[0]];
      OneStep(a, steps[0]);
    }
  }

  lemma StatusAfter(s: State, op: Op, idle: Task, t: Task)
    requires Inv(s) && IdleReady(s, idle) && Enabled(s, op, idle) && !Touches(s, op, t) && t in s.tasks
    ensures var s' := Perform(s, op, idle);
            && t in s'.tasks && (StatusOf(s', t) == StatusOf(s, t) || StatusOf(s', t) == Ready)
            && (StatusOf(s', t) == StatusOf(s, t) && InTime(s, t) ==> InTime(s', t))
  {
    NowInMeaning(s);
    NowInMeaning(Perform(s, op, idle));
    hide Inv, IdleReady, Enabled, Perform, StepsOf, MeaningOf, StatusOf, Touches, Asleep, Run, Apply, Now;
    PerformKeeps(s, op, idle);
    StepSpares(s, op, idle, t);
    StatusInMeaning(s, t);
    StatusAfterStep(MeaningOf(s), StepsOf(s, op), t);
    StatusInMeaning(Perform(s, op, idle), t);
  }

  /** A task on an event list keeps its deadline while it stays there, and is ready when it does not. */
  lemma AsleepAfter(s: State, op: Op, idle: Task, t: Task)
    requires Inv(s) && IdleReady(s, idle) && Enabled(s, op, idle) && !Touches(s, op, t) && Asleep(s, t)
    ensures var s' := Perform(s, op, idle);
            && t in s'.tasks && StatusOf(s', t) == (if Asleep(s', t) then StatusOf(s, t) else Ready)
  {
    var s' := Perform(s, op, idle);
    StatusAfter(s, op, idle, t);
    OpSpares(s, op, idle, t);
    PerformKeeps(s, op, idle);
    if Asleep(s', t) {
      AsleepIsBlocked(s', t);
    } else {
      assert StatusOf(s', t) == Ready;
    }
    hide Inv, Perform;
  }
}
