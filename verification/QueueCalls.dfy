/**
The calls of a queue on the scheduler: the steps of QueueLocks.dfy (rtos/source/queue.c) together with the
operations of KernelRuns.dfy (rtos/source/tasks.c) that they make.  Everything else that goes on in
the system, ticks, interrupts and the calls of other tasks on other objects, comes in between.
*/
module QueueCalls {
  import opened Config
  import opened Lists
  import opened KernelState
  import opened KernelMeaning
  import opened KernelRefinement
  import opened KernelRuns
  import opened KernelEvents
  import Q = QueueLocks

  datatype Move =
    | Call(step: Q.Step, wait: Tick)   // a step of a call on the queue; `wait` is for Place
    | Other(op: Op)

  predicate Waits(q: Q.Queue, t: Task) {
    t in q.receivers.waiting || t in q.senders.waiting
  }

  predicate Woken(q: Q.Queue, t: Task) {
    t in q.receivers.woken || t in q.senders.woken
  }

  predicate Runs(s: State, t: Task) {
    s.current == t && t in s.place && s.place[t].ReadyList?
  }

  // ----- What a step of the queue asks of the scheduler

  function First(ws: seq<Task>, n: int): (r: seq<Task>)
    ensures |r| <= |ws| && r == ws[..|r|]
  {
    if n <= 0 then [] else ws[..if n < |ws| then n else |ws|]
  }

  /** The tasks that the step takes off an event list with xTaskRemoveFromEventList(). */
  function Woke(q: Q.Queue, step: Q.Step): seq<Task> {
    match step
    case Send(t, overwrite) => if Q.HasRoom(q, overwrite) then First(q.receivers.waiting, 1) else []
    case Receive(t) => if q.items > 0 then First(q.senders.waiting, 1) else []
    case Peek(t) => if q.items > 0 then First(q.receivers.waiting, 1) else []
    case SendFromISR(overwrite) =>
      if Q.HasRoom(q, overwrite) && q.receivers.lock == Q.UNLOCKED then First(q.receivers.waiting, 1) else []
    case ReceiveFromISR => if q.items > 0 && q.senders.lock == Q.UNLOCKED then First(q.senders.waiting, 1) else []
    case UnlockTx => First(q.receivers.waiting, q.receivers.lock)
    case UnlockRx => First(q.senders.waiting, q.senders.lock)
    case Reset => First(q.senders.waiting, 1)
    case _ => []
  }

  function Wakes(ws: seq<Task>): seq<Op> {
    if ws == [] then [] else [EventOp(ws[0])] + Wakes(ws[1..])
  }

  function Ops(q: Q.Queue, m: Move): seq<Op> {
    match m
    case Other(op) => [op]
    case Call(step, wait) =>
      Wakes(Woke(q, step)) +
      match step
      case LockQueue(_, _) => [SuspendAllOp]
      case Place => [BlockOp(wait, true, true)]
      case UnlockRx => [ResumeAllOp]
      case _ => []
  }

  // ----- What the scheduler does to the queue

  /** A task is made, suspended or deleted. */
  function Moved(q: Q.Queue, m: Move): Q.Queue {
    match m
    case Call(step, _) => Q.Apply(q, step)
    case Other(CreateOp(t, p)) => Q.Apply(q, Q.Create(t, p))
    case Other(SuspendOp(t)) => Q.Apply(q, Q.Suspend(t))
    case Other(DeleteOp(t)) => Q.Apply(q, Q.Delete(t))
    case _ => q
  }

  function Left(ws: seq<Task>, s: State): seq<Task> {
    if ws == [] then [] else (if Asleep(s, ws[0]) then [] else [ws[0]]) + Left(ws[1..], s)
  }

  function Unlisted(q: Q.Queue, ts: seq<Task>): Q.Queue
    decreases |ts|
  {
    if ts == [] then q else Unlisted(Q.Apply(q, Q.Unlist(ts[0])), ts[1..])
  }

  /** Tasks whose time is up, or whose delay was aborted, are off the event lists. */
  function Settled(q: Q.Queue, s: State): Q.Queue {
    Unlisted(q, Left(q.receivers.waiting, s) + Left(q.senders.waiting, s))
  }

  // ----- When a move can be made

  /** Who makes which step, and that a task that was woken looks at the queue before it waits for anything else. */
  ghost predicate CanMove(q: Q.Queue, s: State, m: Move, idle: Task) {
    match m
    case Call(step, wait) =>
      && Q.Enabled(q, step) && Q.Disciplined(q, step)
      && (match step
          case Send(t, _) => Runs(s, t)
          case Receive(t) => Runs(s, t)
          case Peek(t) => Runs(s, t)
          case LockQueue(t, _) => Runs(s, t) && t != idle && s.schedulerSuspended == 0
          case Place => wait > 0
          case Unlist(t) => false
          case Create(t, p) => false
          case Suspend(t) => false
          case Delete(t) => false
          case _ => true)
    case Other(op) =>
      && Enabled(s, op, idle)
      && (q.phase.Idle? || op.TickOp? || op.EventOp? || op.ResumeFromISROp? || op.SwitchOp?)
      && (match op
          case BlockOp(_, _, _) => !Woken(q, s.current)
          case EventOp(t) => !Waits(q, t)
          case UnorderedEventOp(t) => !Waits(q, t)
          case SuspendOp(t) => Q.Disciplined(q, Q.Suspend(t))
          case DeleteOp(t) => Q.Disciplined(q, Q.Delete(t))
          case _ => true)
  }

  // ----- The queue and the scheduler agree

  /**
  A task that waits at the queue is on an event list of the scheduler, and its time is not up; one that was woken is ready;
  while the queue is locked the scheduler is suspended, and the task that locked it runs.
  */
  ghost predicate Coupled(q: Q.Queue, s: State, idle: Task) {
    && (forall t :: t in q.tasks ==> t in s.tasks && StatusOf(s, t) != Deleted)
    && (forall t :: Waits(q, t) ==> Asleep(s, t) && InTime(s, t))
    && (forall t :: Woken(q, t) ==> t in s.tasks && StatusOf(s, t) == Ready)
    && (forall t :: t in q.receivers.waiting ==> t !in q.senders.waiting)
    && (!q.phase.Idle? ==> s.schedulerSuspended > 0)
    && (q.phase.Locked? || q.phase.Placing? ==> Runs(s, q.phase.t) && q.phase.t != idle)
  }

  ghost predicate Joined(q: Q.Queue, s: State, idle: Task) {
    Q.Inv(q) && Inv(s) && IdleReady(s, idle) && Coupled(q, s, idle)
  }

  // ----- Settling

  lemma {:induction false} LeftMembers(ws: seq<Task>, s: State)
    ensures forall t :: t in Left(ws, s) <==> t in ws && !Asleep(s, t)
  {
    hide Asleep;
    if ws != [] {
      LeftMembers(ws[1..], s);
    }
  }

  lemma {:induction false} UnlistedKeeps(q: Q.Queue, ts: seq<Task>)
    requires Q.Inv(q)
    ensures var q' := Unlisted(q, ts);
            && Q.Inv(q') && q' == q.(receivers := q'.receivers, senders := q'.senders)
            && q'.receivers == q.receivers.(waiting := q'.receivers.waiting)
            && q'.senders == q.senders.(waiting := q'.senders.waiting)
            && (forall t :: t in q'.receivers.waiting <==> t in q.receivers.waiting && t !in ts)
            && (forall t :: t in q'.senders.waiting <==> t in q.senders.waiting && t !in ts)
    decreases |ts|
  {
    if ts != [] {
      Q.UnlistKeeps(q, ts[0]);
      DroppedMembers(q.receivers.waiting, ts[0]);
      DroppedMembers(q.senders.waiting, ts[0]);
      hide Q.Inv, Dropped;
      UnlistedKeeps(Q.Apply(q, Q.Unlist(ts[0])), ts[1..]);
    }
  }

  lemma SettledKeeps(q: Q.Queue, s: State)
    requires Q.Inv(q)
    ensures var q' := Settled(q, s);
            && Q.Inv(q') && q' == q.(receivers := q'.receivers, senders := q'.senders)
            && q'.receivers == q.receivers.(waiting := q'.receivers.waiting)
            && q'.senders == q.senders.(waiting := q'.senders.waiting)
            && (forall t :: t in q'.receivers.waiting <==> t in q.receivers.waiting && Asleep(s, t))
            && (forall t :: t in q'.senders.waiting <==> t in q.senders.waiting && Asleep(s, t))
  {
    var ts := Left(q.receivers.waiting, s) + Left(q.senders.waiting, s);
    hide Q.Inv, Asleep;
    LeftMembers(q.receivers.waiting, s);
    LeftMembers(q.senders.waiting, s);
    UnlistedKeeps(q, ts);
  }

  // ----- Several operations of the scheduler

  lemma {:induction false} LegalAppend(s: State, a: seq<Op>, b: seq<Op>, idle: Task)
    requires Inv(s) && IdleReady(s, idle) && Legal(s, a, idle)
    ensures Inv(After(s, a, idle)) && IdleReady(After(s, a, idle), idle)
    ensures Legal(After(s, a, idle), b, idle) ==>
              Legal(s, a + b, idle) && After(s, a + b, idle) == After(After(s, a, idle), b, idle)
    decreases |a|
  {
    hide Inv, IdleReady, Enabled, Perform, MeaningOf, StepsOf;
    if a == [] {
      assert a + b == b;
    } else {
      FirstOp(s, a, idle);
      assert (a + b)[0] == a[0] && (a + b)[1..] == a[1..] + b;
      LegalAppend(Perform(s, a[0], idle), a[1..], b, idle);
    }
  }

  lemma OneOp(s: State, op: Op, idle: Task)
    requires Inv(s) && IdleReady(s, idle) && Enabled(s, op, idle)
    ensures Legal(s, [op], idle) && After(s, [op], idle) == Perform(s, op, idle)
    ensures Inv(Perform(s, op, idle)) && IdleReady(Perform(s, op, idle), idle)
  {
    PerformKeeps(s, op, idle);
    hide Inv, IdleReady, Enabled, Perform, MeaningOf, StepsOf;
    assert [op][1..] == [];
  }

  /** What operations that are not about a task leave of it. */
  ghost predicate Spared(s: State, s': State, t: Task) {
    && (t in s.tasks ==> t in s'.tasks && (StatusOf(s', t) == StatusOf(s, t) || StatusOf(s', t) == Ready))
    && (Asleep(s, t) ==> StatusOf(s', t) == if Asleep(s', t) then StatusOf(s, t) else Ready)
    && (t in s.tasks && StatusOf(s', t) == StatusOf(s, t) && InTime(s, t) ==> InTime(s', t))
  }

  lemma OpSparesTask(s: State, op: Op, idle: Task, t: Task)
    requires Inv(s) && IdleReady(s, idle) && Enabled(s, op, idle) && !Touches(s, op, t)
    ensures Spared(s, Perform(s, op, idle), t)
  {
    hide Inv, IdleReady, Enabled, Perform, StatusOf, Touches;
    if t in s.tasks {
      StatusAfter(s, op, idle, t);
    }
    if Asleep(s, t) {
      AsleepAfter(s, op, idle, t);
    }
  }

  lemma SparedTwice(s: State, s1: State, s': State, t: Task)
    requires Spared(s, s1, t) && Spared(s1, s', t) && Inv(s')
    ensures Spared(s, s', t)
  {
    if Asleep(s', t) {
      AsleepIsBlocked(s', t);
    }
    hide StatusOf, Inv;
  }

  // ----- Tasks taken off event lists, one after the other

  /** Nothing else changes of the running task and of the others. */
  ghost predicate Beside(s: State, s': State, ws: seq<Task>) {
    && s'.current == s.current && s'.schedulerSuspended == s.schedulerSuspended && s'.tasks == s.tasks
    && forall t :: t in s.tasks && t !in ws ==>
         && (t in s.event <==> t in s'.event) && (t in s.event ==> s'.event[t] == s.event[t])
         && (t in s.place <==> t in s'.place) && (t in s.place ==> s'.place[t] == s.place[t])
  }

  lemma EventBeside(s: State, u: Task, idle: Task)
    requires Inv(s) && IdleReady(s, idle) && Asleep(s, u)
    ensures Enabled(s, EventOp(u), idle)
    ensures var s' := Perform(s, EventOp(u), idle);
            Beside(s, s', [u]) && Inv(s') && IdleReady(s', idle) && u in s'.tasks && StatusOf(s', u) == Ready
  {
    PerformKeeps(s, EventOp(u), idle);
    ListsExist(s, u);
    Basics(s);
    var s' := Perform(s, EventOp(u), idle);
    EventOnly(s, u);
    EventStatus(s, s', u);
    hide Inv, IdleReady, Perform, StatusOf, MeaningOf, StepsOf, EventGiven;
  }

  lemma EventOnly(s: State, u: Task)
    requires WellPlaced(s) && u in s.tasks && ReadyList(s.priority[u]) in s.lists
    ensures Beside(s, EventGiven(s, u), [u])
  {
    hide ListsAgree, Rest, Without, Dropped, OutranksCurrent;
  }

  lemma EventStatus(s: State, s': State, u: Task)
    requires MeaningOf(s') == Run(MeaningOf(s), [SetStatus(u, Ready)]) && u in s.tasks
    ensures u in s'.tasks && StatusOf(s', u) == Ready
  {
    OneStep(MeaningOf(s), SetStatus(u, Ready));
    StatusInMeaning(s', u);
    hide StatusOf, MeaningOf;
  }

  lemma {:induction false} WakesEffect(s: State, ws: seq<Task>, idle: Task)
    requires Inv(s) && IdleReady(s, idle) && Distinct(ws) && forall w :: w in ws ==> Asleep(s, w)
    ensures Legal(s, Wakes(ws), idle)
    ensures var s' := After(s, Wakes(ws), idle);
            && Inv(s') && IdleReady(s', idle) && Beside(s, s', ws)
            && (forall t :: t !in ws ==> Spared(s, s', t))
            && (forall w :: w in ws ==> w in s'.tasks && StatusOf(s', w) == Ready)
    decreases |ws|
  {
    hide Inv, IdleReady, Enabled, Perform, StatusOf, MeaningOf, StepsOf;
    if ws != [] {
      var u, rest := ws[0], ws[1..];
      assert u in ws;
      EventBeside(s, u, idle);
      var s1 := Perform(s, EventOp(u), idle);
      assert Wakes(ws)[0] == EventOp(u) && Wakes(ws)[1..] == Wakes(rest);
      forall w | w in rest
        ensures Asleep(s1, w)
      {
        assert w in ws && w != u;
      }
      WakesEffect(s1, rest, idle);
      var s' := After(s1, Wakes(rest), idle);
      assert After(s, Wakes(ws), idle) == s';
      assert forall t :: t in ws <==> t == u || t in rest;
      hide Asleep, Wakes, Legal, After, Beside, Distinct;
      forall t | t !in ws
        ensures Spared(s, s', t)
      {
        OpSparesTask(s, EventOp(u), idle, t);
        SparedTwice(s, s1, s', t);
      }
      BesideTwice(s, s1, s', u, rest, ws);
      ReadySpared(s1, s', u);
    }
  }

  lemma ReadySpared(s: State, s': State, u: Task)
    requires u in s.tasks && StatusOf(s, u) == Ready && Spared(s, s', u)
    ensures u in s'.tasks && StatusOf(s', u) == Ready
  {
    hide StatusOf;
  }

  lemma BesideTwice(s: State, s1: State, s': State, u: Task, rest: seq<Task>, ws: seq<Task>)
    requires Beside(s, s1, [u]) && Beside(s1, s', rest) && forall t :: t in ws <==> t == u || t in rest
    ensures Beside(s, s', ws)
  {
  }

  // ----- The calls

  predicate IsCall(step: Q.Step) {
    !step.Unlist? && !step.Create? && !step.Suspend? && !step.Delete?
  }

  lemma {:induction false} SplitMembers(ws: seq<Task>, n: nat)
    requires Distinct(ws) && n <= |ws|
    ensures Distinct(ws[..n]) && forall t :: t in ws[n..] <==> t in ws && t !in ws[..n]
  {
    DistinctIndices(ws);
    DistinctIndices(ws[..n]);
    hide Distinct;
    assert ws == ws[..n] + ws[n..];
    forall t | t in ws[n..]
      ensures t !in ws[..n]
    {
      var j :| n <= j < |ws| && ws[j] == t;
    }
  }

  /** One side of the queue after the tasks ws have been woken. */
  ghost predicate Wakened(h: Q.Half, h': Q.Half, ws: seq<Task>) {
    && (forall t :: t in h'.waiting <==> t in h.waiting && t !in ws)
    && (forall t :: t in h'.woken ==> t in h.woken || t in ws)
  }

  /** The side whose first n tasks are woken. */
  lemma WokenSide(h: Q.Half, h': Q.Half, n: int, tasks: set<Task>, priority: map<Task, int>)
    requires Q.HalfValid(h, tasks, priority)
    requires var m := Q.WakeMany(h, if n > 0 then n else 0); h'.waiting == m.waiting && h'.woken <= m.woken
    ensures var ws := First(h.waiting, n); Distinct(ws) && (forall w :: w in ws ==> w in h.waiting) && Wakened(h, h', ws)
  {
    var ws := First(h.waiting, n);
    SplitMembers(h.waiting, |ws|);
    Q.WakeManyKeeps(h, if n > 0 then n else 0, tasks, priority);
    hide Distinct, Q.HalfValid, Q.WakeMany;
    assert forall w :: w in ws ==> w in h.waiting[..|ws|];
  }

  /** The other side. */
  lemma OtherSide(h: Q.Half, h': Q.Half, ws: seq<Task>)
    requires h'.waiting == h.waiting && h'.woken <= h.woken && forall w :: w in ws ==> w !in h.waiting
    ensures Wakened(h, h', ws)
  {
  }

  lemma WakeOneIsMany(h: Q.Half)
    ensures Q.WakeMany(h, 1) == Q.WakeOne(h)
  {
    assert Q.WakeMany(Q.WakeOne(h), 0) == Q.WakeOne(h);
  }

  /** A step that wakes receivers. */
  lemma ReceiversWoken(q: Q.Queue, q': Q.Queue, n: int)
    requires Q.Inv(q) && forall t :: t in q.receivers.waiting ==> t !in q.senders.waiting
    requires var m := Q.WakeMany(q.receivers, if n > 0 then n else 0);
             q'.receivers.waiting == m.waiting && q'.receivers.woken <= m.woken
    requires q'.senders.waiting == q.senders.waiting && q'.senders.woken <= q.senders.woken
    ensures var ws := First(q.receivers.waiting, n);
            && Distinct(ws) && (forall w :: w in ws ==> Waits(q, w))
            && Wakened(q.receivers, q'.receivers, ws) && Wakened(q.senders, q'.senders, ws)
  {
    WokenSide(q.receivers, q'.receivers, n, q.tasks, q.priority);
    hide Q.HalfValid, Distinct, First, Q.WakeMany;
    OtherSide(q.senders, q'.senders, First(q.receivers.waiting, n));
  }

  /** A step that wakes senders. */
  lemma SendersWoken(q: Q.Queue, q': Q.Queue, n: int)
    requires Q.Inv(q) && forall t :: t in q.receivers.waiting ==> t !in q.senders.waiting
    requires var m := Q.WakeMany(q.senders, if n > 0 then n else 0);
             q'.senders.waiting == m.waiting && q'.senders.woken <= m.woken
    requires q'.receivers.waiting == q.receivers.waiting && q'.receivers.woken <= q.receivers.woken
    ensures var ws := First(q.senders.waiting, n);
            && Distinct(ws) && (forall w :: w in ws ==> Waits(q, w))
            && Wakened(q.receivers, q'.receivers, ws) && Wakened(q.senders, q'.senders, ws)
  {
    WokenSide(q.senders, q'.senders, n, q.tasks, q.priority);
    hide Q.HalfValid, Distinct, First, Q.WakeMany;
    OtherSide(q.receivers, q'.receivers, First(q.senders.waiting, n));
  }

  /** A step that wakes nobody. */
  lemma NobodyWoken(q: Q.Queue, q': Q.Queue)
    requires q'.receivers.waiting == q.receivers.waiting && q'.receivers.woken <= q.receivers.woken
    requires q'.senders.waiting == q.senders.waiting && q'.senders.woken <= q.senders.woken
    ensures Wakened(q.receivers, q'.receivers, []) && Wakened(q.senders, q'.senders, [])
  {
  }

  /** The two sides of the queue after a step of a call, other than that which joins an event list. */
  lemma CallMembers(q: Q.Queue, step: Q.Step)
    requires Q.Inv(q) && Q.Enabled(q, step) && IsCall(step) && !step.Place?
    requires forall t :: t in q.receivers.waiting ==> t !in q.senders.waiting
    ensures var q', ws := Q.Apply(q, step), Woke(q, step);
            && Distinct(ws) && (forall w :: w in ws ==> Waits(q, w)) && q'.tasks == q.tasks
            && Wakened(q.receivers, q'.receivers, ws) && Wakened(q.senders, q'.senders, ws)
  {
    var q' := Q.Apply(q, step);
    WakeOneIsMany(q.receivers);
    WakeOneIsMany(q.senders);
    hide Q.Inv, Wakened, First, Waits, Q.WakeMany;
    match step
    case Send(t, overwrite) => if Q.HasRoom(q, overwrite) { ReceiversWoken(q, q', 1); } else { NobodyWoken(q, q'); }
    case Receive(t) => if q.items > 0 { SendersWoken(q, q', 1); } else { NobodyWoken(q, q'); }
    case Peek(t) =>
      PeekHalf(q.receivers, t);
      if q.items > 0 { ReceiversWoken(q, q', 1); } else { NobodyWoken(q, q'); }
    case SendFromISR(overwrite) =>
      if Q.HasRoom(q, overwrite) && q.receivers.lock == Q.UNLOCKED { ReceiversWoken(q, q', 1); } else { NobodyWoken(q, q'); }
    case ReceiveFromISR =>
      if q.items > 0 && q.senders.lock == Q.UNLOCKED { SendersWoken(q, q', 1); } else { NobodyWoken(q, q'); }
    case UnlockTx => ReceiversWoken(q, q', q.receivers.lock);
    case UnlockRx => SendersWoken(q, q', q.senders.lock);
    case Reset =>
      ResetSide(q.senders);
      SendersWoken(q, q', 1);
    case _ => NobodyWoken(q, q');
  }

  lemma PeekHalf(h: Q.Half, t: Task)
    ensures var h' := Q.WakeOne(Q.Rechecked(h, t)); h'.waiting == Q.WakeOne(h).waiting && h'.woken <= Q.WakeOne(h).woken
  {
  }

  lemma ResetSide(h: Q.Half)
    ensures var h' := Q.WakeOne(h.(lock := Q.UNLOCKED)); h'.waiting == Q.WakeOne(h).waiting && h'.woken == Q.WakeOne(h).woken
  {
  }

  /** The two sides after a task has joined an event list. */
  lemma PlaceMembers(q: Q.Queue)
    requires Q.Inv(q) && q.phase.Placing?
    ensures var q', t := Q.Apply(q, Q.Place), q.phase.t;
            && q'.tasks == q.tasks && t in q.tasks && q'.phase == Q.UnlockingTx && !Waits(q, t)
            && (forall u :: Woken(q', u) ==> Woken(q, u))
            && (forall u :: u in q'.receivers.waiting <==> u in q.receivers.waiting || (q.phase.side.Receiving? && u == t))
            && (forall u :: u in q'.senders.waiting <==> u in q.senders.waiting || (q.phase.side.Sending? && u == t))
  {
    Q.PlacedKeeps(Q.HalfOf(q, q.phase.side), q.phase.t, q.tasks, q.priority);
    PlacedWoken(Q.HalfOf(q, q.phase.side), q.phase.t, q.priority);
    hide Q.HalfValid, Q.Placed;
  }

  lemma PlacedWoken(h: Q.Half, t: Task, priority: map<Task, int>)
    ensures Q.Placed(h, t, priority).woken == h.woken
  {
  }

  lemma WokeWait(q: Q.Queue, step: Q.Step)
    requires Q.Inv(q) && Q.Enabled(q, step) && IsCall(step) && forall t :: t in q.receivers.waiting ==> t !in q.senders.waiting
    ensures Distinct(Woke(q, step)) && forall w :: w in Woke(q, step) ==> Waits(q, w)
  {
    if !step.Place? {
      CallMembers(q, step);
    }
  }

  /** What the operations of a call do in the scheduler. */
  lemma CallRuns(q: Q.Queue, s: State, step: Q.Step, wait: Tick, idle: Task)
    requires Joined(q, s, idle) && CanMove(q, s, Call(step, wait), idle)
    ensures Legal(s, Ops(q, Call(step, wait)), idle)
    ensures var s', ws := After(s, Ops(q, Call(step, wait)), idle), Woke(q, step);
            && Inv(s') && IdleReady(s', idle)
            && (forall t :: t !in ws && !(step.Place? && t == s.current) ==> Spared(s, s', t))
            && (forall w :: w in ws ==> w in s'.tasks && StatusOf(s', w) == Ready)
            && (step.Place? ==> Asleep(s', s.current) && InTime(s', s.current))
            && (!step.UnlockRx? ==> s'.schedulerSuspended == s.schedulerSuspended + (if step.LockQueue? then 1 else 0))
            && (!step.UnlockRx? && !step.Place? ==> forall t :: Runs(s, t) ==> Runs(s', t))
  {
    hide Q.Inv, Inv, IdleReady, Coupled, Woke, Q.Enabled, Q.Disciplined, StatusOf, Distinct, CanMove, Joined, Legal, After, Asleep,
         Spared, Runs;
    CallReady(q, s, step, wait, idle);
    var ws := Woke(q, step);
    assert Inv(s) && IdleReady(s, idle) by {
      JoinedParts(q, s, idle);
    }
    WakesEffect(s, ws, idle);
    var s1 := After(s, Wakes(ws), idle);
    var tail := match step case LockQueue(_, _) => [SuspendAllOp] case Place => [BlockOp(wait, true, true)]
                case UnlockRx => [ResumeAllOp] case _ => [];
    assert Ops(q, Call(step, wait)) == Wakes(ws) + tail;
    TailRuns(s, s1, ws, tail, idle);
    LegalAppend(s, Wakes(ws), tail, idle);
  }

  lemma JoinedParts(q: Q.Queue, s: State, idle: Task)
    requires Joined(q, s, idle)
    ensures Q.Inv(q) && Inv(s) && IdleReady(s, idle) && Coupled(q, s, idle)
  {
    hide Q.Inv, Inv, IdleReady, Coupled;
  }

  /** The step wakes tasks that are asleep, and what it then does is allowed. */
  lemma CallReady(q: Q.Queue, s: State, step: Q.Step, wait: Tick, idle: Task)
    requires Joined(q, s, idle) && CanMove(q, s, Call(step, wait), idle)
    ensures Distinct(Woke(q, step)) && forall w :: w in Woke(q, step) ==> Asleep(s, w)
    ensures forall t :: Runs(s, t) ==> t !in Woke(q, step) && t in s.tasks
    ensures step.Place? ==> Runs(s, s.current) && s.current != idle && wait > 0 && q.phase.Placing? && q.phase.t == s.current
    ensures step.UnlockRx? ==> s.schedulerSuspended > 0
  {
    WokeWait(q, step);
    assert forall w :: w in Woke(q, step) ==> Asleep(s, w);
    RunningIsAwake(s);
    hide Inv, Q.Inv, Distinct, StatusOf, Woke, Asleep, Q.Disciplined;
  }

  /** After the tasks have been woken: at most one more operation. */
  lemma TailRuns(s: State, s1: State, ws: seq<Task>, tail: seq<Op>, idle: Task)
    requires Inv(s1) && IdleReady(s1, idle) && Beside(s, s1, ws) && forall t :: Runs(s, t) ==> t !in ws && t in s.tasks
    requires forall t :: t !in ws ==> Spared(s, s1, t)
    requires forall w :: w in ws ==> w in s1.tasks && StatusOf(s1, w) == Ready
    requires || tail == [] || tail == [SuspendAllOp] || (tail == [ResumeAllOp] && s.schedulerSuspended > 0)
             || (exists wait: Tick :: tail == [BlockOp(wait, true, true)] && wait > 0 && Runs(s, s.current) && s.current != idle)
    ensures Legal(s1, tail, idle)
    ensures var s', blocks := After(s1, tail, idle), tail != [] && tail[0].BlockOp?;
            && Inv(s') && IdleReady(s', idle)
            && (forall t :: t !in ws && !(blocks && t == s.current) ==> Spared(s, s', t))
            && (forall w :: w in ws ==> w in s'.tasks && StatusOf(s', w) == Ready)
            && (blocks ==> Asleep(s', s.current) && InTime(s', s.current))
            && (tail != [ResumeAllOp] ==> s'.schedulerSuspended == s.schedulerSuspended + (if tail == [SuspendAllOp] then 1 else 0))
            && (tail != [ResumeAllOp] && !blocks ==> forall t :: Runs(s, t) ==> Runs(s', t))
  {
    hide Inv, IdleReady, StatusOf, Perform;
    if tail != [] {
      var op := tail[0];
      assert tail == [op];
      TailEnabled(s, s1, ws, op, idle);
      OneOp(s1, op, idle);
      var s' := Perform(s1, op, idle);
      TailOp(s1, op, idle);
      hide Legal, After, Enabled, Beside, Asleep;
      forall t | t !in ws && !(op.BlockOp? && t == s.current)
        ensures Spared(s, s', t)
      {
        OpSparesTask(s1, op, idle, t);
        SparedTwice(s, s1, s', t);
      }
      forall w | w in ws
        ensures w in s'.tasks && StatusOf(s', w) == Ready
      {
        OpSparesTask(s1, op, idle, w);
        ReadySpared(s1, s', w);
      }
    }
  }

  lemma TailEnabled(s: State, s1: State, ws: seq<Task>, op: Op, idle: Task)
    requires Beside(s, s1, ws) && forall t :: Runs(s, t) ==> t !in ws && t in s.tasks
    requires || op == SuspendAllOp || (op == ResumeAllOp && s.schedulerSuspended > 0)
             || (op.BlockOp? && op.onEvent && op.wait > 0 && Runs(s, s.current) && s.current != idle)
    ensures Enabled(s1, op, idle) && s1.current == s.current && s1.schedulerSuspended == s.schedulerSuspended
    ensures forall t :: Runs(s, t) ==> Runs(s1, t)
    ensures forall t :: Touches(s1, op, t) ==> op.BlockOp? && t == s.current
  {
  }

  lemma TailOp(s: State, op: Op, idle: Task)
    requires Inv(s) && IdleReady(s, idle) && Enabled(s, op, idle)
    requires op == SuspendAllOp || op == ResumeAllOp || (op.BlockOp? && op.onEvent && op.wait > 0)
    ensures var s' := Perform(s, op, idle);
            && (op.BlockOp? ==> Asleep(s', s.current) && InTime(s', s.current) && s'.schedulerSuspended == s.schedulerSuspended)
            && (op == SuspendAllOp ==> s'.schedulerSuspended == s.schedulerSuspended + 1 && forall t :: Runs(s, t) ==> Runs(s', t))
  {
    Basics(s);
    hide Inv, IdleReady, Core, DelaysAhead, WellPlaced, EventsConsistent, Blocked, Resumed, StatusOf, Now;
    if op.BlockOp? {
      BlockedStatus(s, op.wait, op.indefinite, op.onEvent, s.current);
      BlockOps(s, op.wait, op.indefinite, op.onEvent);
      BlockedCounters(s, op.wait, op.indefinite, op.onEvent);
    }
  }

  lemma RunningIsAwake(s: State)
    requires Inv(s)
    ensures s.current in s.tasks
    ensures s.current in s.place && s.place[s.current].ReadyList? ==> !Asleep(s, s.current)
    ensures forall t :: Asleep(s, t) && t in s.place ==> !s.place[t].ReadyList?
  {
    hide ListsAgree, ReadyByPriority, DelaysSorted, DelaysAhead;
  }

  // ----- Every move keeps queue and scheduler in agreement

  lemma CoupledAfter(q: Q.Queue, s: State, idle: Task)
    requires Q.Inv(q) && Inv(s) && IdleReady(s, idle)
    requires forall t :: t in q.tasks ==> t in s.tasks && StatusOf(s, t) != Deleted
    requires forall t :: Woken(q, t) ==> t in s.tasks && StatusOf(s, t) == Ready
    requires forall t :: t in q.receivers.waiting ==> t !in q.senders.waiting
    requires forall t :: Waits(q, t) && Asleep(s, t) ==> InTime(s, t)
    requires !q.phase.Idle? ==> s.schedulerSuspended > 0
    requires q.phase.Locked? || q.phase.Placing? ==> Runs(s, q.phase.t) && q.phase.t != idle
    ensures Joined(Settled(q, s), s, idle)
  {
    hide Q.Inv, Inv, IdleReady, StatusOf, Settled, Runs, Asleep, InTime;
    SettledKeeps(q, s);
  }

  /** What has become of the tasks, from what the operations have done to them. */
  lemma TasksFrom(q: Q.Queue, q': Q.Queue, s: State, s': State, ws: seq<Task>)
    requires q'.tasks == q.tasks && forall t :: t in q.tasks ==> t in s.tasks && StatusOf(s, t) != Deleted
    requires forall t :: t !in ws && t in q.tasks ==> Spared(s, s', t) || (Asleep(s', t) && !Woken(q, t))
    requires Inv(s') && forall w :: w in ws ==> w in s'.tasks && StatusOf(s', w) == Ready
    requires forall t :: Woken(q, t) ==> t in q.tasks && StatusOf(s, t) == Ready
    requires forall t :: Woken(q', t) ==> Woken(q, t) || t in ws
    ensures forall t :: t in q'.tasks ==> t in s'.tasks && StatusOf(s', t) != Deleted
    ensures forall t :: Woken(q', t) ==> t in s'.tasks && StatusOf(s', t) == Ready
  {
    hide Inv, StatusOf, Woken;
    forall t | t in q.tasks
      ensures t in s'.tasks && StatusOf(s', t) != Deleted
    {
      if t !in ws && !Spared(s, s', t) {
        AsleepIsBlocked(s', t);
      }
    }
  }

  lemma WokenAreTasks(q: Q.Queue)
    requires Q.Inv(q)
    ensures forall t :: Woken(q, t) ==> t in q.tasks
    ensures forall t :: q.phase.Placing? && t == q.phase.t ==> !Woken(q, t)
  {
  }

  lemma CoupledParts(q: Q.Queue, s: State, idle: Task)
    requires Joined(q, s, idle)
    ensures forall t :: t in q.tasks ==> t in s.tasks && StatusOf(s, t) != Deleted
    ensures forall t :: Woken(q, t) ==> t in s.tasks && StatusOf(s, t) == Ready
    ensures forall t :: t in q.receivers.waiting ==> t !in q.senders.waiting
    ensures forall t :: Waits(q, t) ==> Asleep(s, t) && InTime(s, t)
  {
    hide Q.Inv, Inv, IdleReady, StatusOf, Asleep, Waits, Woken, Runs, InTime;
  }

  lemma CallSides(q: Q.Queue, step: Q.Step)
    requires Q.Inv(q) && Q.Enabled(q, step) && IsCall(step) && forall t :: t in q.receivers.waiting ==> t !in q.senders.waiting
    ensures var q' := Q.Apply(q, step);
            && q'.tasks == q.tasks && (forall t :: Woken(q', t) ==> Woken(q, t) || t in Woke(q, step))
            && (forall t :: t in q'.receivers.waiting ==> t !in q'.senders.waiting)
  {
    if step.Place? {
      PlaceMembers(q);
    } else {
      CallMembers(q, step);
    }
    hide Q.Inv, Q.Apply, Q.Enabled, Woke, Distinct;
  }

  lemma CallTasks(q: Q.Queue, s: State, step: Q.Step, wait: Tick, idle: Task)
    requires Joined(q, s, idle) && CanMove(q, s, Call(step, wait), idle) && Legal(s, Ops(q, Call(step, wait)), idle)
    requires Q.Enabled(q, step) && IsCall(step)
    ensures var s', q' := After(s, Ops(q, Call(step, wait)), idle), Q.Apply(q, step);
            && q'.tasks == q.tasks && (forall t :: t in q.tasks ==> t in s'.tasks && StatusOf(s', t) != Deleted)
            && (forall t :: Woken(q', t) ==> t in s'.tasks && StatusOf(s', t) == Ready)
            && (forall t :: t in q'.receivers.waiting ==> t !in q'.senders.waiting)
  {
    hide Q.Inv, Inv, IdleReady, StatusOf, Legal, After, Ops, Woke, Q.Apply, Q.Enabled, Runs, Coupled, CanMove, Waits, Woken, Asleep,
         Spared, Joined;
    JoinedParts(q, s, idle);
    CoupledParts(q, s, idle);
    CallReady(q, s, step, wait, idle);
    CallRuns(q, s, step, wait, idle);
    CallSides(q, step);
    WokenAreTasks(q);
    TasksFrom(q, Q.Apply(q, step), s, After(s, Ops(q, Call(step, wait)), idle), Woke(q, step));
  }

  /** Who waits after a step and is still asleep has not run out of time. */
  lemma CallInTime(q: Q.Queue, s: State, step: Q.Step, wait: Tick, idle: Task, t: Task)
    requires Joined(q, s, idle) && CanMove(q, s, Call(step, wait), idle) && Legal(s, Ops(q, Call(step, wait)), idle)
    requires Q.Enabled(q, step) && IsCall(step)
    requires var s' := After(s, Ops(q, Call(step, wait)), idle); Waits(Q.Apply(q, step), t) && Asleep(s', t)
    ensures InTime(After(s, Ops(q, Call(step, wait)), idle), t)
  {
    CallReady(q, s, step, wait, idle);
    assert Waits(q, t) || (step.Place? && t == s.current) by {
      JoinedParts(q, s, idle);
      CoupledParts(q, s, idle);
      if step.Place? {
        PlaceMembers(q);
      } else {
        CallMembers(q, step);
      }
      hide Q.Inv, Inv, Q.Apply, Q.Enabled, StatusOf, Distinct, CanMove, Joined, Legal, Coupled, Woke;
    }
    hide Q.Inv, Inv, IdleReady, StatusOf, Legal, After, Ops, Woke, Q.Apply, Q.Enabled, Runs, Coupled, CanMove, Waits, Woken, Joined, InTime;
    CoupledParts(q, s, idle);
    CallRuns(q, s, step, wait, idle);
    var s' := After(s, Ops(q, Call(step, wait)), idle);
    if t in Woke(q, step) {
      AsleepIsBlocked(s', t);
    }
  }

  /** The phase of the queue after a step. */
  lemma PhaseAfter(q: Q.Queue, step: Q.Step)
    requires Q.Enabled(q, step) && IsCall(step)
    ensures var p, p' := q.phase, Q.Apply(q, step).phase;
            && (!p'.Idle? ==> !step.UnlockRx? && (step.LockQueue? || !p.Idle?))
            && (p'.Locked? || p'.Placing? ==>
                  !step.Place? && (if step.LockQueue? then p'.t == step.t else (p.Locked? || p.Placing?) && p'.t == p.t))
  {
    hide Q.WakeMany, Q.WakeOne, Q.Placed;
  }

  /** The phase of the queue, and the task that locked it. */
  lemma CallPhase(q: Q.Queue, s: State, step: Q.Step, wait: Tick, idle: Task)
    requires Joined(q, s, idle) && CanMove(q, s, Call(step, wait), idle) && Legal(s, Ops(q, Call(step, wait)), idle)
    requires Q.Enabled(q, step) && IsCall(step)
    ensures var s', q' := After(s, Ops(q, Call(step, wait)), idle), Q.Apply(q, step);
            && (!q'.phase.Idle? ==> s'.schedulerSuspended > 0)
            && (q'.phase.Locked? || q'.phase.Placing? ==> Runs(s', q'.phase.t) && q'.phase.t != idle)
  {
    PhaseAfter(q, step);
    LockerRuns(q, s, step, wait, idle);
    hide Q.Inv, Inv, IdleReady, StatusOf, Legal, After, Ops, Woke, Runs, Spared, Joined, CanMove, Q.Enabled, Q.Apply, Coupled;
    CallRuns(q, s, step, wait, idle);
  }

  lemma LockerRuns(q: Q.Queue, s: State, step: Q.Step, wait: Tick, idle: Task)
    requires Joined(q, s, idle) && CanMove(q, s, Call(step, wait), idle)
    ensures Q.Enabled(q, step) && IsCall(step)
    ensures !q.phase.Idle? ==> s.schedulerSuspended > 0
    ensures q.phase.Locked? || q.phase.Placing? ==> Runs(s, q.phase.t) && q.phase.t != idle
    ensures step.LockQueue? ==> Runs(s, step.t) && step.t != idle
  {
    hide Q.Inv, Inv, IdleReady, StatusOf, Asleep, Waits, Woken, Runs, Q.Enabled, Q.Disciplined;
  }

  lemma CallKeeps(q: Q.Queue, s: State, step: Q.Step, wait: Tick, idle: Task)
    requires Joined(q, s, idle) && CanMove(q, s, Call(step, wait), idle)
    ensures Legal(s, Ops(q, Call(step, wait)), idle)
    ensures var s' := After(s, Ops(q, Call(step, wait)), idle); Joined(Settled(Q.Apply(q, step), s'), s', idle)
  {
    assert Q.Disciplined(q, step);
    LockerRuns(q, s, step, wait, idle);
    hide Q.Inv, Inv, IdleReady, StatusOf, Legal, After, Ops, Runs, Coupled, Settled, Q.Apply, Q.Enabled, Q.Disciplined, CanMove, Joined,
         Woken, Spared, Asleep, Woke, Waits, InTime;
    JoinedParts(q, s, idle);
    CallRuns(q, s, step, wait, idle);
    CallTasks(q, s, step, wait, idle);
    CallPhase(q, s, step, wait, idle);
    Q.StepKeeps(q, step);
    forall t | Waits(Q.Apply(q, step), t) && Asleep(After(s, Ops(q, Call(step, wait)), idle), t) {
      CallInTime(q, s, step, wait, idle, t);
    }
    CoupledAfter(Q.Apply(q, step), After(s, Ops(q, Call(step, wait)), idle), idle);
  }

  // ----- Other operations

  /** The task that an operation is about, if it is still there, is not deleted. */
  lemma TouchedStatus(s: State, op: Op, idle: Task, t: Task)
    requires Inv(s) && IdleReady(s, idle) && Enabled(s, op, idle) && t in s.tasks && Touches(s, op, t)
    requires !op.DeleteOp? && !op.CleanUpOp?
    ensures t in Perform(s, op, idle).tasks && StatusOf(Perform(s, op, idle), t) != Deleted
  {
    TouchedStep(s, op, t);
    var s', steps := Perform(s, op, idle), StepsOf(s, op);
    hide Inv, IdleReady, Enabled, Perform, StepsOf, MeaningOf, StatusOf, Touches, Run;
    PerformKeeps(s, op, idle);
    OneStep(MeaningOf(s), steps[0]);
    assert steps == [steps[0]];
    AboutStatus(MeaningOf(s), steps[0]);
    StatusInMeaning(s', t);
  }

  lemma AboutStatus(a: Meaning, step: Step)
    requires step.Block? || (step.SetStatus? && step.status != Deleted)
    ensures step.t in Apply(a, step).status && Apply(a, step).status[step.t] != Deleted
  {
  }

  lemma TouchedStep(s: State, op: Op, t: Task)
    requires Touches(s, op, t) && !op.DeleteOp? && !op.CleanUpOp?
    ensures var steps := StepsOf(s, op);
            |steps| == 1 && (steps[0].Block? || (steps[0].SetStatus? && steps[0].status != Deleted)) && steps[0].t == t
  {
    hide IsBlocked, IsSuspended;
  }

  lemma CreatedStatus(s: State, t: Task, p: int, idle: Task)
    requires Inv(s) && IdleReady(s, idle) && Enabled(s, CreateOp(t, p), idle)
    ensures var s' := Perform(s, CreateOp(t, p), idle); t in s'.tasks && StatusOf(s', t) == Ready
  {
    assert StepsOf(s, CreateOp(t, p)) == [SetStatus(t, Ready)];
    hide Inv, IdleReady, Perform, MeaningOf, StatusOf, StepsOf, Enabled;
    PerformKeeps(s, CreateOp(t, p), idle);
    OneStep(MeaningOf(s), SetStatus(t, Ready));
    StatusInMeaning(Perform(s, CreateOp(t, p), idle), t);
  }

  lemma TerminatedStatus(s: State, t: Task)
    requires Inv(s) && t in s.place && t in s.tasks && s.place[t] == TerminationList
    ensures StatusOf(s, t) == Deleted
  {
    hide ListsAgree, ReadyByPriority, DelaysSorted, DelaysAhead;
  }

  /** While the scheduler is suspended the running task stays what it is. */
  lemma LockedOps(s: State, op: Op, idle: Task)
    requires Inv(s) && IdleReady(s, idle) && Enabled(s, op, idle) && s.schedulerSuspended > 0
    requires op.TickOp? || op.EventOp? || op.ResumeFromISROp? || op.SwitchOp?
    ensures var s' := Perform(s, op, idle);
            s'.schedulerSuspended == s.schedulerSuspended && s'.current == s.current && s'.place == s.place
  {
    Basics(s);
    hide Core, DelaysAhead, WellPlaced, EventsConsistent, IncrementTick, MakeReady, OutranksCurrent;
    match op
    case TickOp =>
    case EventOp(t) => ListsExist(s, t);
    case ResumeFromISROp(t) => ListsExist(s, t);
    case SwitchOp => SomeReadyThere(s, idle);
  }

  /** The queue after a task has been made, suspended or deleted. */
  lemma MovedParts(q: Q.Queue, s: State, op: Op, idle: Task)
    requires Joined(q, s, idle) && CanMove(q, s, Other(op), idle)
    ensures var q' := Moved(q, Other(op));
            && Q.Inv(q') && q'.phase == q.phase && q'.items == q.items
            && (forall t :: t in q'.tasks ==> t in q.tasks || (op.CreateOp? && op.t == t))
            && (op.DeleteOp? ==> op.t !in q'.tasks)
            && (forall t :: t in q'.receivers.waiting <==> t in q.receivers.waiting && !((op.SuspendOp? || op.DeleteOp?) && op.t == t))
            && (forall t :: t in q'.senders.waiting <==> t in q.senders.waiting && !((op.SuspendOp? || op.DeleteOp?) && op.t == t))
            && (forall t :: t in q'.receivers.woken <==> t in q.receivers.woken && !((op.SuspendOp? || op.DeleteOp?) && op.t == t))
            && (forall t :: t in q'.senders.woken <==> t in q.senders.woken && !((op.SuspendOp? || op.DeleteOp?) && op.t == t))
  {
    hide Inv, IdleReady, StatusOf, Asleep, Waits, Woken, Runs;
    assert Q.Inv(q);
    match op
    case CreateOp(t, p) =>
      assert t !in q.tasks && q.phase.Idle?;
      hide Coupled, Q.Inv;
      Q.StepKeeps(q, Q.Create(t, p));
    case SuspendOp(t) =>
      assert q.phase.Idle?;
      GoneParts(q, t);
      hide Coupled, Q.Inv, Q.Disciplined;
      Q.StepKeeps(q, Q.Suspend(t));
    case DeleteOp(t) =>
      assert q.phase.Idle?;
      GoneParts(q, t);
      hide Coupled, Q.Inv, Q.Disciplined;
      Q.StepKeeps(q, Q.Delete(t));
    case _ =>
  }

  lemma GoneParts(q: Q.Queue, t: Task)
    requires Q.Inv(q)
    ensures forall u :: u in Q.Gone(q.receivers, t).waiting <==> u in q.receivers.waiting && u != t
    ensures forall u :: u in Q.Gone(q.senders, t).waiting <==> u in q.senders.waiting && u != t
    ensures forall u :: u in Q.Gone(q.receivers, t).woken <==> u in q.receivers.woken && u != t
    ensures forall u :: u in Q.Gone(q.senders, t).woken <==> u in q.senders.woken && u != t
  {
    DroppedMembers(q.receivers.waiting, t);
    DroppedMembers(q.senders.waiting, t);
  }

  lemma OtherTask(q: Q.Queue, s: State, op: Op, idle: Task, t: Task)
    requires Joined(q, s, idle) && CanMove(q, s, Other(op), idle) && Enabled(s, op, idle) && Inv(s) && IdleReady(s, idle)
    requires t in Moved(q, Other(op)).tasks
    ensures t in Perform(s, op, idle).tasks && StatusOf(Perform(s, op, idle), t) != Deleted
  {
    hide Inv, IdleReady, Perform, Moved, StatusOf, Coupled, CanMove, Joined, Woken, Waits, Asleep, Runs;
    MovedParts(q, s, op, idle);
    CoupledParts(q, s, idle);
    if op.CreateOp? && op.t == t {
      CreatedStatus(s, t, op.p, idle);
    } else if Touches(s, op, t) {
      if op.CleanUpOp? {
        TerminatedStatus(s, t);
      }
      TouchedStatus(s, op, idle, t);
    } else {
      OpSparesTask(s, op, idle, t);
    }
  }

  lemma OtherWoken(q: Q.Queue, s: State, op: Op, idle: Task, t: Task)
    requires Joined(q, s, idle) && CanMove(q, s, Other(op), idle) && Enabled(s, op, idle) && Inv(s) && IdleReady(s, idle)
    requires Woken(Moved(q, Other(op)), t)
    ensures t in Perform(s, op, idle).tasks && StatusOf(Perform(s, op, idle), t) == Ready
  {
    MovedParts(q, s, op, idle);
    assert Woken(q, t) && !((op.SuspendOp? || op.DeleteOp?) && op.t == t);
    assert op.BlockOp? ==> !Woken(q, s.current);
    hide Inv, IdleReady, Perform, Moved, StatusOf, Coupled, CanMove, Joined, Woken, Waits, Runs;
    CoupledParts(q, s, idle);
    if Asleep(s, t) {
      AsleepIsBlocked(s, t);
    }
    if op == CleanUpOp(t) {
      TerminatedStatus(s, t);
    }
    assert !Touches(s, op, t);
    OpSparesTask(s, op, idle, t);
  }

  lemma OtherInTime(q: Q.Queue, s: State, op: Op, idle: Task, t: Task)
    requires Joined(q, s, idle) && CanMove(q, s, Other(op), idle) && Enabled(s, op, idle) && Inv(s) && IdleReady(s, idle)
    requires Waits(Moved(q, Other(op)), t) && Asleep(Perform(s, op, idle), t)
    ensures InTime(Perform(s, op, idle), t)
  {
    MovedParts(q, s, op, idle);
    assert Waits(q, t) && !((op.SuspendOp? || op.DeleteOp?) && op.t == t);
    CoupledParts(q, s, idle);
    RunningIsAwake(s);
    AsleepIsBlocked(s, t);
    if op == CleanUpOp(t) {
      TerminatedStatus(s, t);
    }
    assert !Touches(s, op, t);
    hide Inv, IdleReady, Perform, Moved, StatusOf, Coupled, CanMove, Joined, Woken, Waits, Runs, Q.Inv, InTime, Touches;
    OpSparesTask(s, op, idle, t);
  }

  lemma OtherTasks(q: Q.Queue, s: State, op: Op, idle: Task)
    requires Joined(q, s, idle) && CanMove(q, s, Other(op), idle) && Enabled(s, op, idle) && Inv(s) && IdleReady(s, idle)
    ensures var s', q' := Perform(s, op, idle), Moved(q, Other(op));
            && (forall t :: t in q'.tasks ==> t in s'.tasks && StatusOf(s', t) != Deleted)
            && (forall t :: Woken(q', t) ==> t in s'.tasks && StatusOf(s', t) == Ready)
  {
    hide Inv, IdleReady, Perform, Moved, StatusOf, CanMove, Joined, Woken, Enabled;
    forall t | t in Moved(q, Other(op)).tasks {
      OtherTask(q, s, op, idle, t);
    }
    forall t | Woken(Moved(q, Other(op)), t) {
      OtherWoken(q, s, op, idle, t);
    }
  }

  lemma OtherPhase(q: Q.Queue, s: State, op: Op, idle: Task)
    requires Joined(q, s, idle) && CanMove(q, s, Other(op), idle)
    ensures Enabled(s, op, idle) && Inv(s) && IdleReady(s, idle)
    ensures var s' := Perform(s, op, idle);
            && (!q.phase.Idle? ==> s'.schedulerSuspended > 0)
            && (q.phase.Locked? || q.phase.Placing? ==> Runs(s', q.phase.t) && q.phase.t != idle)
  {
    JoinedParts(q, s, idle);
    hide Q.Inv, Inv, IdleReady, Perform, StatusOf, Asleep, InTime, Waits, Woken;
    if !q.phase.Idle? {
      LockedOps(s, op, idle);
    }
  }

  lemma OtherMoveKeeps(q: Q.Queue, s: State, op: Op, idle: Task)
    requires Joined(q, s, idle) && CanMove(q, s, Other(op), idle)
    ensures Legal(s, [op], idle)
    ensures var s' := After(s, [op], idle); Joined(Settled(Moved(q, Other(op)), s'), s', idle)
  {
    hide Q.Inv, Inv, IdleReady, Perform, Moved, Settled, Legal, After, StatusOf, Enabled, Coupled, Joined, CanMove, Runs, InTime, Asleep,
         Waits, Woken;
    OtherPhase(q, s, op, idle);
    MovedParts(q, s, op, idle);
    OtherTasks(q, s, op, idle);
    OneOp(s, op, idle);
    CoupledParts(q, s, idle);
    var s', q' := Perform(s, op, idle), Moved(q, Other(op));
    forall t | Waits(q', t) && Asleep(s', t) {
      OtherInTime(q, s, op, idle, t);
    }
    CoupledAfter(q', s', idle);
  }

  // ----- Whole runs

  lemma MoveKeeps(q: Q.Queue, s: State, m: Move, idle: Task)
    requires Joined(q, s, idle) && CanMove(q, s, m, idle)
    ensures Legal(s, Ops(q, m), idle)
    ensures var s' := After(s, Ops(q, m), idle); Joined(Settled(Moved(q, m), s'), s', idle)
  {
    hide Joined, CanMove, Settled, Legal, After;
    match m
    case Call(step, wait) => CallKeeps(q, s, step, wait, idle);
    case Other(op) => OtherMoveKeeps(q, s, op, idle);
  }

  datatype System = System(q: Q.Queue, s: State)

  ghost function Next(x: System, m: Move, idle: Task): (x': System)
    requires Joined(x.q, x.s, idle) && CanMove(x.q, x.s, m, idle)
    ensures Joined(x'.q, x'.s, idle)
  {
    MoveKeeps(x.q, x.s, m, idle);
    var s' := After(x.s, Ops(x.q, m), idle);
    System(Settled(Moved(x.q, m), s'), s')
  }

  ghost predicate Possible(x: System, moves: seq<Move>, idle: Task)
    requires Joined(x.q, x.s, idle)
    decreases |moves|
  {
    moves == [] || (CanMove(x.q, x.s, moves[0], idle) && Possible(Next(x, moves[0], idle), moves[1..], idle))
  }

  /** Any run of calls on the queue, from tasks and interrupts, and of anything else that goes on. */
  ghost function AfterMoves(x: System, moves: seq<Move>, idle: Task): (x': System)
    requires Joined(x.q, x.s, idle) && Possible(x, moves, idle)
    ensures Joined(x'.q, x'.s, idle)
    decreases |moves|
  {
    if moves == [] then x else AfterMoves(Next(x, moves[0], idle), moves[1..], idle)
  }

  /** The scheduler has started, and a queue has been made. */
  lemma StartJoined(made: seq<NewTask>, idle: Task, length: int, priority: map<Task, int>)
    requires made != [] && AllNew(made) && idle in TasksOf(made) && length >= 1
    requires forall t :: t in TasksOf(made) ==> t in priority
    ensures Joined(Q.Created(length, TasksOf(made), priority), Started(made), idle)
  {
    hide Inv, IdleReady, Started, StatusOf, PriorityOf;
    StartedIsLegal(made, idle);
    Q.CreatedValid(length, TasksOf(made), priority);
    hide Q.Inv;
  }

  // ----- What a waiting task can rely on

  /**
  Whenever the queue is not locked: while a task waits for a unit of something, an item or a free
  slot, every unit there is has a task that was woken for it and that is ready, and the tasks that
  wait are blocked with their time not over.
  */
  lemma EveryUnitHasATaker(x: System, side: Q.Side, idle: Task, t: Task)
    requires Joined(x.q, x.s, idle) && t in Q.HalfOf(x.q, side).waiting
    ensures x.q.phase.Idle? ==> Q.UnitsOf(x.q, side) <= |Q.HalfOf(x.q, side).woken|
    ensures forall w :: w in Q.HalfOf(x.q, side).woken ==> w in x.s.tasks && StatusOf(x.s, w) == Ready
    ensures StatusOf(x.s, t) == Waiting || (StatusOf(x.s, t).Delayed? && Now(x.s) < StatusOf(x.s, t).deadline)
  {
    assert Waits(x.q, t);
    assert InTime(x.s, t);
    assert forall w :: w in Q.HalfOf(x.q, side).woken ==> Woken(x.q, w);
    AsleepIsBlocked(x.s, t);
    hide Inv, IdleReady, StatusOf, Asleep, Runs, Q.HalfValid;
  }

  /** A send, or a receive, that finds a task waiting on the other side makes it ready at once. */
  lemma HeadIsWoken(x: System, m: Move, idle: Task, w: Task)
    requires Joined(x.q, x.s, idle) && CanMove(x.q, x.s, m, idle) && m.Call? && w in Woke(x.q, m.step)
    ensures var x' := Next(x, m, idle);
            w in x'.s.tasks && StatusOf(x'.s, w) == Ready && !Waits(x'.q, w)
  {
    hide Joined, CanMove, StatusOf, Legal, After, Settled, Moved, Woke, Waits, Spared;
    CallRuns(x.q, x.s, m.step, m.wait, idle);
    var x' := Next(x, m, idle);
    ReadyDoesNotWait(x', w, idle);
  }

  lemma ReadyDoesNotWait(x: System, t: Task, idle: Task)
    requires Joined(x.q, x.s, idle) && t in x.s.tasks && StatusOf(x.s, t) == Ready
    ensures !Waits(x.q, t) && !Asleep(x.s, t)
  {
    JoinedParts(x.q, x.s, idle);
    CoupledParts(x.q, x.s, idle);
    if Asleep(x.s, t) {
      AsleepIsBlocked(x.s, t);
    }
    hide Q.Inv, Inv, IdleReady, StatusOf, Asleep, Runs, Waits, Coupled;
  }

  /** Nobody suspends or deletes the task, and it does not block, on the queue or anywhere else. */
  predicate LeavesBe(x: System, m: Move, t: Task) {
    match m
    case Call(step, _) => !(step.Place? && x.s.current == t)
    case Other(op) => op != SuspendOp(t) && op != DeleteOp(t) && !(op.BlockOp? && x.s.current == t)
  }

  ghost predicate LeftBe(x: System, moves: seq<Move>, t: Task, idle: Task)
    requires Joined(x.q, x.s, idle) && Possible(x, moves, idle)
    decreases |moves|
  {
    moves == [] || (LeavesBe(x, moves[0], t) && LeftBe(Next(x, moves[0], idle), moves[1..], t, idle))
  }

  /** An operation that leaves a task be is not about it, if the task waits at the queue or is ready. */
  lemma NotAbout(x: System, op: Op, t: Task, idle: Task)
    requires Joined(x.q, x.s, idle) && CanMove(x.q, x.s, Other(op), idle) && LeavesBe(x, Other(op), t) && t in x.s.tasks
    requires Waits(x.q, t) || StatusOf(x.s, t) == Ready
    ensures Enabled(x.s, op, idle) && !Touches(x.s, op, t) && Inv(x.s) && IdleReady(x.s, idle)
  {
    JoinedParts(x.q, x.s, idle);
    CoupledParts(x.q, x.s, idle);
    RunningIsAwake(x.s);
    if Asleep(x.s, t) {
      AsleepIsBlocked(x.s, t);
    }
    if op == CleanUpOp(t) {
      TerminatedStatus(x.s, t);
    }
    hide Q.Inv, Inv, IdleReady, StatusOf, Runs, Waits, Coupled;
  }

  /** What a move leaves of a task that waits at the queue or is ready. */
  lemma MoveSpares(x: System, m: Move, t: Task, idle: Task)
    requires Joined(x.q, x.s, idle) && CanMove(x.q, x.s, m, idle) && LeavesBe(x, m, t) && t in x.s.tasks
    requires Waits(x.q, t) || StatusOf(x.s, t) == Ready
    ensures var s' := Next(x, m, idle).s;
            Spared(x.s, s', t) || (t in s'.tasks && StatusOf(s', t) == Ready)
  {
    hide Joined, CanMove, StatusOf, Legal, After, Settled, Moved, Woke, Waits, Spared, Perform, Enabled, Touches, Inv, IdleReady;
    match m
    case Call(step, wait) => CallRuns(x.q, x.s, step, wait, idle);
    case Other(op) =>
      NotAbout(x, op, t, idle);
      OneOp(x.s, op, idle);
      OpSparesTask(x.s, op, idle, t);
  }

  /** A task leaves its event list only when the scheduler takes it off. */
  lemma StaysListed(x: System, m: Move, t: Task, side: Q.Side, idle: Task)
    requires Joined(x.q, x.s, idle) && CanMove(x.q, x.s, m, idle) && LeavesBe(x, m, t)
    requires t in Q.HalfOf(x.q, side).waiting && Asleep(Next(x, m, idle).s, t)
    ensures t in Q.HalfOf(Next(x, m, idle).q, side).waiting
  {
    JoinedParts(x.q, x.s, idle);
    MovedListed(x, m, t, side, idle);
    var s' := Next(x, m, idle).s;
    var q1 := Moved(x.q, m);
    assert Q.Inv(q1) by {
      MovedInv(x, m, idle);
    }
    hide Joined, CanMove, StatusOf, Legal, After, Settled, Moved, Woke, Asleep, Inv, IdleReady, Q.Inv;
    SettledKeeps(q1, s');
  }

  lemma MovedInv(x: System, m: Move, idle: Task)
    requires Joined(x.q, x.s, idle) && CanMove(x.q, x.s, m, idle)
    ensures Q.Inv(Moved(x.q, m))
  {
    match m
    case Call(step, wait) =>
      assert Q.Disciplined(x.q, step) && Q.Enabled(x.q, step) && Q.Inv(x.q);
      hide Q.Inv, Joined, CanMove, Q.Apply, Q.Enabled, Q.Disciplined;
      Q.StepKeeps(x.q, step);
    case Other(op) => MovedParts(x.q, x.s, op, idle);
  }

  lemma MovedListed(x: System, m: Move, t: Task, side: Q.Side, idle: Task)
    requires Joined(x.q, x.s, idle) && CanMove(x.q, x.s, m, idle) && LeavesBe(x, m, t)
    requires t in Q.HalfOf(x.q, side).waiting && Asleep(Next(x, m, idle).s, t)
    ensures t in Q.HalfOf(Moved(x.q, m), side).waiting
  {
    JoinedParts(x.q, x.s, idle);
    CoupledParts(x.q, x.s, idle);
    match m
    case Call(step, wait) =>
      if t in Woke(x.q, step) {
        HeadIsWoken(x, m, idle, t);
        ReadyDoesNotWait(Next(x, m, idle), t, idle);
        assert false;
      }
      LockerRuns(x.q, x.s, step, wait, idle);
      hide Joined, CanMove, StatusOf, Next, Inv, IdleReady, Coupled, Asleep, Woke, Waits;
      if step.Place? {
        PlaceMembers(x.q);
      } else {
        CallMembers(x.q, step);
      }
    case Other(op) =>
      MovedParts(x.q, x.s, op, idle);
  }

  /** One move: a waiting task waits on with the deadline it has, or is ready; a ready one stays ready. */
  lemma MoveReaches(x: System, m: Move, t: Task, side: Q.Side, idle: Task)
    requires Joined(x.q, x.s, idle) && CanMove(x.q, x.s, m, idle) && LeavesBe(x, m, t) && t in x.s.tasks
    requires t in Q.HalfOf(x.q, side).waiting || StatusOf(x.s, t) == Ready
    ensures var x' := Next(x, m, idle);
            && t in x'.s.tasks
            && (StatusOf(x'.s, t) == Ready
                || (t in Q.HalfOf(x.q, side).waiting && t in Q.HalfOf(x'.q, side).waiting && StatusOf(x'.s, t) == StatusOf(x.s, t)))
  {
    assert t in Q.HalfOf(x.q, side).waiting ==> Waits(x.q, t);
    hide Joined, CanMove, StatusOf, Next, Asleep, LeavesBe, Waits;
    CoupledParts(x.q, x.s, idle);
    MoveSpares(x, m, t, idle);
    var s' := Next(x, m, idle).s;
    if StatusOf(s', t) != Ready {
      assert Asleep(x.s, t) && Asleep(s', t);
      StaysListed(x, m, t, side, idle);
    }
  }

  lemma {:induction false} RunReaches(x: System, moves: seq<Move>, t: Task, side: Q.Side, idle: Task)
    requires Joined(x.q, x.s, idle) && Possible(x, moves, idle) && LeftBe(x, moves, t, idle) && t in x.s.tasks
    requires t in Q.HalfOf(x.q, side).waiting || StatusOf(x.s, t) == Ready
    ensures var e := AfterMoves(x, moves, idle);
            && t in e.s.tasks
            && (StatusOf(e.s, t) == Ready
                || (t in Q.HalfOf(x.q, side).waiting && t in Q.HalfOf(e.q, side).waiting && StatusOf(e.s, t) == StatusOf(x.s, t)))
    decreases |moves|
  {
    hide Joined, CanMove, Next, StatusOf, LeavesBe;
    if moves != [] {
      MoveReaches(x, moves[0], t, side, idle);
      RunReaches(Next(x, moves[0], idle), moves[1..], t, side, idle);
    }
  }

  /**
  A task waits at the queue, for an item or for a free slot, until a deadline or for ever.  Whatever goes
  on, as long as nobody suspends or deletes it: it is ready once the deadline is over, and before that as soon
  as there is a unit for which no other task of its side has been woken.  Until then it waits on.
  */
  lemma UnitReachesWaiter(x: System, moves: seq<Move>, t: Task, side: Q.Side, idle: Task)
    requires Joined(x.q, x.s, idle) && Possible(x, moves, idle) && LeftBe(x, moves, t, idle)
    requires t in Q.HalfOf(x.q, side).waiting
    ensures var e := AfterMoves(x, moves, idle);
            && t in x.s.tasks && t in e.s.tasks && (StatusOf(x.s, t) == Waiting || StatusOf(x.s, t).Delayed?)
            && (StatusOf(e.s, t) == Ready || (t in Q.HalfOf(e.q, side).waiting && StatusOf(e.s, t) == StatusOf(x.s, t)))
            && (StatusOf(x.s, t).Delayed? && StatusOf(x.s, t).deadline <= Now(e.s) ==> StatusOf(e.s, t) == Ready)
            && (e.q.phase.Idle? && Q.UnitsOf(e.q, side) > |Q.HalfOf(e.q, side).woken| ==> StatusOf(e.s, t) == Ready)
  {
    EveryUnitHasATaker(x, side, idle, t);
    assert Waits(x.q, t);
    hide Joined, StatusOf, Now, Waits, AfterMoves, Possible, LeftBe;
    CoupledParts(x.q, x.s, idle);
    RunReaches(x, moves, t, side, idle);
    var e := AfterMoves(x, moves, idle);
    if t in Q.HalfOf(e.q, side).waiting {
      EveryUnitHasATaker(e, side, idle, t);
    }
  }
}
