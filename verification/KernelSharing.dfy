/**
Which of several ready tasks of highest priority runs (rtos/source/tasks.c): a context switch takes
the first task in the walk of their ready list and puts it last.
*/
module KernelSharing {
  import opened Config
  import opened Lists
  import opened KernelState
  import opened KernelRefinement
  import opened KernelRuns
  import opened KernelPreemption

  /** The tasks of a ready list in the order in which they will run. */
  function Turns(s: State, p: int): seq<Task> {
    if ReadyList(p) in s.lists && s.lists[ReadyList(p)].idx <= |s.lists[ReadyList(p)].items| then s.lists[ReadyList(p)].Walk()
    else []
  }

  /** From s to s', the task whose turn it is in ready list p is chosen to run. */
  ghost predicate TurnTaken(s: State, s': State, p: int) {
    && Turns(s, p) != []
    && s'.current == Turns(s, p)[0]
    && Turns(s', p) == Turns(s, p)[1..] + [s'.current]
    && !s'.yieldPending
    && ReadyList(p) in s'.lists
    && s' == s.(yieldPending := false, current := s'.current, topReadyPriority := s'.topReadyPriority,
                lists := s.lists[ReadyList(p) := s'.lists[ReadyList(p)]])
  }

  /** A context switch steps the walk index of one ready list, and of no other. */
  lemma SwitchedSteps(s: State)
    requires Inv(s) && s.schedulerSuspended == 0 && exists t :: t in s.tasks && s.place[t].ReadyList?
    ensures var s' := Switched(s);
            var l := ReadyList(PriorityOf(s', s'.current));
            && l in s.lists && s.lists[l].Valid() && s.lists[l].items != []
            && s' == s.(yieldPending := false, current := s.lists[l].Next().Current(), topReadyPriority := s'.topReadyPriority,
                        lists := s.lists[l := s.lists[l].Next()])
  {
    SelectionIsMaximal(s);
    SwitchedKeepsCore(s);
    var s' := Switched(s);
    var p := TopReady(s, s.topReadyPriority);
    assert s'.priority == s.priority && s'.place == s.place;
    assert s.place[s'.current] == ReadyList(p) && s.priority[s'.current] == p;
    hide Core, DelaysAhead, TopReady;
  }

  lemma SwitchedTakesTurn(s: State)
    requires Inv(s) && s.schedulerSuspended == 0 && exists t :: t in s.tasks && s.place[t].ReadyList?
    ensures var s' := Switched(s); TurnTaken(s, s', PriorityOf(s', s'.current))
  {
    SwitchedSteps(s);
    hide Inv, Switched;
    var s' := Switched(s);
    NextIsFirstInWalk(s.lists[ReadyList(PriorityOf(s', s'.current))]);
  }

  /**
  A task made ready is to run after all that were ready at its priority, but for the one at the walk
  index, which is the running task if it has that priority.
  */
  lemma MakeReadyJoinsLast(s: State, t: Task)
    requires WellPlaced(s) && t in s.tasks && ReadyList(s.priority[t]) in s.lists && s.place[t] != ReadyList(s.priority[t])
    ensures var s', l := MakeReady(s, t), ReadyList(s.priority[t]);
            var w := Turns(s, s.priority[t]);
            && Turns(s', s.priority[t]) == (if s.lists[l].idx == 0 then w + [t] else w[..|w| - 1] + [t, w[|w| - 1]])
            && forall q :: q != s.priority[t] && ReadyList(q) != s.place[t] ==> Turns(s', q) == Turns(s, q)
  {
    MadeReadyLists(s, t);
    hide WellPlaced, MakeReady;
    InsertEndIsLastInWalk(s.lists[ReadyList(s.priority[t])], t);
  }

  /** The one list that a task joins, and the one that it leaves. */
  lemma MadeReadyLists(s: State, t: Task)
    requires WellPlaced(s) && t in s.tasks && ReadyList(s.priority[t]) in s.lists && s.place[t] != ReadyList(s.priority[t])
    ensures var s', l := MakeReady(s, t), ReadyList(s.priority[t]);
            && s.lists[l].idx <= |s.lists[l].items| && l in s'.lists && s'.lists[l] == s.lists[l].InsertEnd(t)
            && s'.lists.Keys == s.lists.Keys
            && forall h :: h in s.lists && h != l && h != s.place[t] ==> s'.lists[h] == s.lists[h]
  {
    RestIsValid(s, t, ReadyList(s.priority[t]));
    hide ListsAgree, Without;
  }

  // ----- Equal shares while the ready list does not change

  /**
  While p is the priority of the highest ready tasks, the scheduler is not suspended, and nothing but
  context switches changes the ready list of p.
  */
  ghost predicate Alone(s: State, ops: seq<Op>, idle: Task, p: int)
    requires Inv(s) && IdleReady(s, idle) && Legal(s, ops, idle)
    decreases |ops|
  {
    && Turns(s, p) != [] && s.schedulerSuspended == 0
    && (forall t :: InReady(s, t) ==> PriorityOf(s, t) <= p)
    && (ops == [] ||
        (PerformKeeps(s, ops[0], idle);
         var s1 := Perform(s, ops[0], idle);
         && (!ops[0].SwitchOp? ==> Turns(s1, p) == Turns(s, p))
         && Alone(s1, ops[1..], idle, p)))
  }

  /** The tasks chosen by the context switches of a run, in order. */
  ghost function Chosen(s: State, ops: seq<Op>, idle: Task): seq<Task>
    requires Inv(s) && IdleReady(s, idle) && Legal(s, ops, idle)
    decreases |ops|
  {
    if ops == [] then []
    else
      PerformKeeps(s, ops[0], idle);
      var s1 := Perform(s, ops[0], idle);
      (if ops[0].SwitchOp? && s.schedulerSuspended == 0 then [s1.current] else []) + Chosen(s1, ops[1..], idle)
  }

  lemma TurnsAreReady(s: State, p: int, t: Task)
    requires Core(s)
    ensures t in Turns(s, p) <==> InReady(s, t) && PriorityOf(s, t) == p
  {
    var l := ReadyList(p);
    if l in s.lists {
      assert s.lists[l].Valid();
      assert t in s.lists[l].items <==> t in s.place && s.place[t] == l;
      assert t in s.lists[l].Walk() <==> t in s.lists[l].items;
    }
    hide ListsAgree, DelaysSorted, EventsConsistent;
    assert InReady(s, t) ==> s.place[t] in s.lists;
  }

  /** A context switch takes the next turn of the highest ready list. */
  lemma SwitchTakesTurn(s: State, idle: Task, p: int)
    requires Inv(s) && IdleReady(s, idle) && s.schedulerSuspended == 0
    requires Turns(s, p) != [] && forall t :: InReady(s, t) ==> PriorityOf(s, t) <= p
    ensures TurnTaken(s, Perform(s, SwitchOp, idle), p)
  {
    SomeReadyThere(s, idle);
    SwitchedTakesTurn(s);
    SwitchAnswers(s);
    hide Inv, Core, Switched, Turns, TurnTaken, Answered;
    HighestTurn(s, Switched(s), p);
  }

  /** The turn taken is one of the highest ready list. */
  lemma HighestTurn(s: State, s': State, p: int)
    requires Core(s) && Answered(s', false) && s.schedulerSuspended == 0
    requires TurnTaken(s, s', PriorityOf(s', s'.current))
    requires Turns(s, p) != [] && forall t :: InReady(s, t) ==> PriorityOf(s, t) <= p
    ensures PriorityOf(s', s'.current) == p
  {
    hide Core, Turns;
    var u := Turns(s, p)[0];
    assert u in Turns(s, p) && s'.current in Turns(s, PriorityOf(s', s'.current));
    TurnsAreReady(s, p, u);
    TurnsAreReady(s, PriorityOf(s', s'.current), s'.current);
    assert InReady(s', u) && PriorityOf(s', u) == p;
  }

  /** Each task of w once, in order, and then in every later round the same tasks in the same order. */
  ghost predicate InTurn(w: seq<Task>, chosen: seq<Task>) {
    && Distinct(w) && w != []
    && forall k {:trigger chosen[k]} :: 0 <= k < |chosen| ==> chosen[k] == if k < |w| then w[k] else chosen[k - |w|]
  }

  lemma NextInTurn(w: seq<Task>, rest: seq<Task>)
    requires Distinct(w) && w != [] && InTurn(w[1..] + [w[0]], rest)
    ensures InTurn(w, [w[0]] + rest)
  {
    var w1, chosen := w[1..] + [w[0]], [w[0]] + rest;
    forall k | 0 < k < |chosen|
      ensures chosen[k] == if k < |w| then w[k] else chosen[k - |w|]
    {
      assert chosen[k] == rest[k - 1];
      if k < |w| {
        assert w1[k - 1] == w[k];
      } else if k == |w| {
        assert w1[k - 1] == w[0];
      } else {
        assert chosen[k - |w|] == rest[k - 1 - |w|];
      }
    }
  }

  /**
  Equal shares: as long as the tasks that share the highest priority stay the same, whatever else
  happens between the context switches, they run in turn.
  */
  lemma {:induction false} EqualShares(s: State, ops: seq<Op>, idle: Task, p: int)
    requires Inv(s) && IdleReady(s, idle) && Legal(s, ops, idle) && Alone(s, ops, idle, p)
    ensures InTurn(Turns(s, p), Chosen(s, ops, idle))
    decreases |ops|
  {
    TurnsDistinct(s, p);
    if ops == [] {
      hide Inv, IdleReady, Turns, Distinct;
    } else {
      hide *;
      AloneStep(s, ops, idle, p);
      var s1 := Perform(s, ops[0], idle);
      EqualShares(s1, ops[1..], idle, p);
      if ops[0].SwitchOp? {
        NextInTurn(Turns(s, p), Chosen(s1, ops[1..], idle));
      } else {
        assert [] + Chosen(s1, ops[1..], idle) == Chosen(s1, ops[1..], idle);
      }
    }
  }

  /** The first operation of such a run. */
  lemma AloneStep(s: State, ops: seq<Op>, idle: Task, p: int)
    requires Inv(s) && IdleReady(s, idle) && Legal(s, ops, idle) && Alone(s, ops, idle, p) && ops != []
    ensures Enabled(s, ops[0], idle)
    ensures var s1 := Perform(s, ops[0], idle);
            && Inv(s1) && IdleReady(s1, idle) && Legal(s1, ops[1..], idle) && Alone(s1, ops[1..], idle, p)
            && var w, w1 := Turns(s, p), Turns(s1, p);
               && w != [] && w1 == (if ops[0].SwitchOp? then w[1..] + [w[0]] else w)
               && Chosen(s, ops, idle) == (if ops[0].SwitchOp? then [w[0]] else []) + Chosen(s1, ops[1..], idle)
  {
    hide Inv, IdleReady, Perform, Enabled, Turns, InReady, PriorityOf;
    PerformKeeps(s, ops[0], idle);
    if ops[0].SwitchOp? {
      SwitchTakesTurn(s, idle, p);
    }
  }

  lemma TurnsDistinct(s: State, p: int)
    requires Inv(s)
    ensures Distinct(Turns(s, p))
  {
    if ReadyList(p) in s.lists {
      assert s.lists[ReadyList(p)].Valid();
      hide Inv, Core;
      DistinctIndices(s.lists[ReadyList(p)].items);
      DistinctIndices(Turns(s, p));
    }
  }

  // ----- No ready task of the highest priority waits for ever

  /**
  In r' task t is as near to its turn as in r.  While the walk index has not passed the end of the
  list since it passed t, what counts is how far the index is from the end; after that, how far it is
  from t.
  */
  ghost predicate AsNear(r: Ring<Task>, r': Ring<Task>, t: Task) {
    && r.Valid() && r'.Valid() && t in r.items && t in r'.items
    && var k, k' := PositionOf(r.items, t), PositionOf(r'.items, t);
       if k < r.idx then k' < r'.idx && |r'.items| - r'.idx <= |r.items| - r.idx
       else r'.idx <= k' && k' - r'.idx <= k - r.idx
  }

  /** A task that joins the list is put just before the walk index, and so is no nearer than t. */
  lemma JoinedAsNear(r: Ring<Task>, x: Task, t: Task)
    requires r.Valid() && x !in r.items && t in r.items
    ensures AsNear(r, r.InsertEnd(x), t)
  {
    var k, at := PositionOf(r.items, t), r.EndPos();
    InsertMembers(r, at, x);
    var r' := r.InsertEnd(x);
    PositionIs(r'.items, t, if k < at then k else k + 1);
  }

  lemma LeftAsNear(r: Ring<Task>, x: Task, t: Task)
    requires r.Valid() && x in r.items && t in r.items && x != t
    ensures AsNear(r, Without(r, x), t)
  {
    WithoutMembers(r, x);
    var k, at := PositionOf(r.items, t), PositionOf(r.items, x);
    PositionIs(Without(r, x).items, t, if k < at then k else k - 1);
  }

  /** t stays in its ready list, as near to its turn as it was. */
  ghost predicate TurnKept(s: State, s': State, t: Task) {
    InReady(s, t) ==>
      && InReady(s', t) && s'.place[t] == s.place[t] && s.place[t] in s.lists && s.place[t] in s'.lists
      && AsNear(s.lists[s.place[t]], s'.lists[s.place[t]], t)
  }

  lemma TurnKeptTwice(s: State, s1: State, s2: State, t: Task)
    requires TurnKept(s, s1, t) && TurnKept(s1, s2, t)
    ensures TurnKept(s, s2, t)
  {
    hide InReady;
  }

  /** Nothing happened to the ready lists. */
  lemma SameLists(s: State, s': State, t: Task)
    requires WellPlaced(s) && s'.tasks == s.tasks && s'.place == s.place && s'.lists == s.lists
    ensures TurnKept(s, s', t)
  {
    if InReady(s, t) {
      assert t in s.lists[s.place[t]].items;
    }
  }

  /** Another task u moves, to a list that is no ready list or to the end of one. */
  lemma RelocatedTurn(s: State, u: Task, l: Place, k: nat, t: Task)
    requires WellPlaced(s) && u in s.tasks && l in s.lists && k <= |Rest(s, u, l).items|
    requires u != t && (l.ReadyList? ==> k == Rest(s, u, l).EndPos())
    ensures TurnKept(s, Relocate(s, u, l, k), t)
  {
    if InReady(s, t) {
      var h := s.place[t];
      assert t in s.lists[h].items;
      RestIsValid(s, u, h);
      var r := s.lists[h];
      assert AsNear(r, Rest(s, u, h), t) by {
        if h == s.place[u] {
          LeftAsNear(r, u, t);
        }
      }
      var s' := Relocate(s, u, l, k);
      assert InReady(s', t) && s'.place[t] == h;
      if h == l {
        JoinedAsNear(Rest(s, u, h), u, t);
        assert s'.lists[h] == Rest(s, u, h).InsertEnd(u);
      } else {
        assert s'.lists[h] == Rest(s, u, h);
      }
    }
  }

  lemma MakeReadyTurn(s: State, u: Task, t: Task)
    requires WellPlaced(s) && u in s.tasks && ReadyList(s.priority[u]) in s.lists && u != t
    ensures TurnKept(s, MakeReady(s, u), t)
  {
    var l := ReadyList(s.priority[u]);
    RestIsValid(s, u, l);
    RelocatedTurn(s, u, l, Rest(s, u, l).EndPos(), t);
  }

  lemma PlacedPart(s: State)
    requires Core(s)
    ensures WellPlaced(s)
  {
  }

  lemma {:induction false} DrainTurn(s: State, t: Task)
    requires Core(s) && s.pendingReady == []
    ensures TurnKept(s, Drain(s), t)
    decreases |Items(s, DelayList(s.cur))|
  {
    hide Core, Drain, MakeReady, InReady, ResetNext;
    DrainUnfolds(s);
    if NothingDue(s) {
      PlacedPart(s);
      NextTurn(s, t);
    } else {
      var h := s.lists[DelayList(s.cur)].items[0];
      var m := MakeReady(s, h);
      MakeReadyPlaces(s, h);
      DrainTurn(m, t);
      HeadNotReady(s);
      if h != t {
        MakeReadyTurn(s, h, t);
        TurnKeptTwice(s, m, Drain(m), t);
      }
    }
  }

  lemma NextTurn(s: State, t: Task)
    requires WellPlaced(s)
    ensures TurnKept(s, ResetNext(s), t)
  {
    hide ListsAgree;
    SameLists(s, ResetNext(s), t);
  }

  lemma HeadNotReady(s: State)
    requires Core(s) && Items(s, DelayList(s.cur)) != []
    ensures !InReady(s, Items(s, DelayList(s.cur))[0])
  {
    HeadIsPlaced(s);
  }

  lemma AdvancedTurn(s: State, t: Task)
    requires Core(s) && DelaysAhead(s)
    ensures TurnKept(s, Advanced(s), t)
  {
    AdvancedForm(s);
    hide ListsAgree, ReadyByPriority, DelaysAhead, EventsConsistent, Advanced;
    SameLists(s, Advanced(s), t);
  }

  lemma TickTurn(s: State, t: Task)
    requires Core(s) && DelaysAhead(s) && s.pendingReady == []
    ensures TurnKept(s, IncrementTick(s), t)
  {
    AdvancedTurn(s, t);
    TickDrains(s);
    hide Core, DelaysAhead, Advanced, Drain, InReady, DrainedTo, TurnKept;
    var a := Advanced(s);
    if a.tickCount >= a.nextTaskUnblockTime {
      DrainTurn(a, t);
      TurnKeptTwice(s, a, Drain(a), t);
    }
  }

  lemma SameTurn(s: State, t: Task)
    requires Core(s)
    ensures TurnKept(s, s, t)
  {
    hide ListsAgree, ReadyByPriority, DelaysSorted, EventsConsistent;
    SameLists(s, s, t);
  }

  lemma {:induction false} PendingTurn(s: State, t: Task)
    requires Core(s)
    ensures TurnKept(s, DrainPending(s), t)
    decreases |s.pendingReady|
  {
    if s.pendingReady == [] {
      SameTurn(s, t);
    } else {
      PendingNotReady(s);
      hide Core, DrainPending, MakeReady, InReady;
      FirstPendingUnfolds(s);
      var h := s.pendingReady[0];
      var m := FirstPendingMoved(s);
      PendingTurn(m, t);
      if h != t {
        MakeReadyTurn(s, h, t);
        YieldTurn(s, MakeReady(s, h), m.yieldPending, t);
        TurnKeptTwice(s, m, DrainPending(m), t);
      }
    }
  }

  lemma PendingNotReady(s: State)
    requires Core(s) && s.pendingReady != []
    ensures !InReady(s, s.pendingReady[0])
  {
    assert s.pendingReady[0] in s.pendingReady;
    hide ListsAgree, ReadyByPriority, DelaysSorted;
  }

  lemma YieldTurn(s: State, s': State, b: bool, t: Task)
    requires TurnKept(s, s', t)
    ensures TurnKept(s, s'.(yieldPending := b), t)
  {
    hide AsNear;
  }

  lemma CountersTurn(s: State, s': State, n: nat, t: Task)
    requires TurnKept(s, s', t)
    ensures TurnKept(s, s'.(pendedTicks := n), t)
  {
    hide AsNear;
  }

  lemma {:induction false} ReplayTurn(s: State, n: nat, t: Task)
    requires Core(s) && DelaysAhead(s) && s.pendingReady == []
    ensures TurnKept(s, Replay(s, n), t)
    decreases n
  {
    hide Core, DelaysAhead, IncrementTick, SwitchRequired, TurnKept, Replay;
    if n == 0 {
      ReplayNone(s);
      SameTurn(s, t);
    } else {
      ReplayOnce(s, n);
      TickTurn(s, t);
      var m := IncrementTick(s);
      var s1 := m.(yieldPending := SwitchRequired(s, m));
      YieldTurn(s, m, s1.yieldPending, t);
      ReplayTurn(s1, n - 1, t);
      TurnKeptTwice(s, s1, Replay(s1, n - 1), t);
    }
  }

  lemma UnpendedTurn(s: State, t: Task)
    requires Core(s)
    ensures TurnKept(s, Unpended(s), t)
  {
    PendingTurn(s, t);
    DrainPendingEffect(s);
    if s.pendingReady == [] {
      NonePendingUnfolds(s);
    } else {
      hide Core, DrainPending, TurnKept, ResetNext;
      NextTurn(DrainPending(s), t);
      TurnKeptTwice(s, DrainPending(s), ResetNext(DrainPending(s)), t);
    }
  }

  lemma ResumedTurn(s: State, t: Task)
    requires Inv(s) && s.schedulerSuspended > 0
    ensures TurnKept(s, Resumed(s), t)
  {
    var s1 := s.(schedulerSuspended := s.schedulerSuspended - 1);
    SameLists(s, s1, t) by {
      hide ListsAgree;
    }
    ResumedUnfolds(s);
    hide Inv, Core, DelaysAhead, Unpended, Replay, TurnKept, Resumed;
    if s1.schedulerSuspended == 0 {
      var u := Unpended(s1);
      UnpendedTurn(s1, t);
      ReplayTurn(u, s1.pendedTicks, t);
      TurnKeptTwice(s, s1, u, t);
      TurnKeptTwice(s, u, Replay(u, s1.pendedTicks), t);
      CountersTurn(s, Replay(u, s1.pendedTicks), 0, t);
    }
  }

  // ----- Each operation

  /** The operation takes t out of its ready list, or puts it elsewhere in one. */
  predicate Disturbs(s: State, op: Op, t: Task) {
    match op
    case BlockOp(_, _, _) => s.current == t
    case SuspendOp(u) => u == t
    case DeleteOp(u) => u == t
    case SetPriorityOp(u, _) => u == t
    case _ => false
  }

  lemma MadeReadyTurn(s: State, u: Task, b: bool, t: Task)
    requires WellPlaced(s) && u in s.tasks && ReadyList(s.priority[u]) in s.lists && !InReady(s, u)
    ensures TurnKept(s, MakeReady(s, u).(yieldPending := b), t) && TurnKept(s, MakeReady(s, u), t)
  {
    hide WellPlaced, MakeReady, InReady, AsNear;
    if t != u {
      MakeReadyTurn(s, u, t);
      YieldTurn(s, MakeReady(s, u), b, t);
    }
  }

  lemma HeldTurn(s: State, u: Task, b: bool, t: Task)
    requires WellPlaced(s) && u in s.event
    ensures TurnKept(s, s.(event := s.event[u := PendingReadyList], pendingReady := s.pendingReady + [u], yieldPending := b), t)
    ensures TurnKept(s, s.(event := s.event[u := PendingReadyList], pendingReady := s.pendingReady + [u]), t)
  {
    hide ListsAgree;
    SameLists(s, s.(event := s.event[u := PendingReadyList], pendingReady := s.pendingReady + [u], yieldPending := b), t);
    SameLists(s, s.(event := s.event[u := PendingReadyList], pendingReady := s.pendingReady + [u]), t);
  }

  /** A task that waits for an event, is blocked or is suspended is in no ready list. */
  lemma WaiterNotReady(s: State, u: Task)
    requires Inv(s) && u in s.tasks
    ensures s.event[u] == EventList || IsBlocked(s, u) || IsSuspended(s, u) ==> !InReady(s, u)
  {
    hide ListsAgree, ReadyByPriority, DelaysSorted, DelaysAhead;
  }

  lemma WakingTurn(s: State, u: Task, t: Task)
    requires Inv(s) && u in s.tasks && WellPlaced(s) && ReadyList(s.priority[u]) in s.lists && u in s.event
    ensures s.event[u] == EventList ==>
              && TurnKept(s, EventGiven(s, u), t)
              && TurnKept(s, MakeReady(s, u).(yieldPending := s.yieldPending || OutranksCurrent(s, u)), t)
    ensures TurnKept(s, DelayAborted(s, u), t)
    ensures TurnKept(s, TaskResumed(s, u), t) && TurnKept(s, TaskResumedFromISR(s, u), t)
  {
    WaiterNotReady(s, u);
    SameTurn(s, t);
    hide Inv, WellPlaced, MakeReady, InReady, OutranksCurrent, IsBlocked, IsSuspended, TurnKept;
    HeldTurn(s, u, s.yieldPending || OutranksCurrent(s, u), t);
    if !InReady(s, u) {
      MadeReadyTurn(s, u, s.yieldPending || OutranksCurrent(s, u), t);
    }
  }

  lemma LeavingTurn(s: State, u: Task, t: Task)
    requires WellPlaced(s) && u in s.tasks && u != t && SuspendedList in s.lists && TerminationList in s.lists
    ensures TurnKept(s, TaskSuspended(s, u), t) && TurnKept(s, TaskDeleted(s, u), t) && TurnKept(s, Forgotten(s, u), t)
  {
    RestIsValid(s, u, SuspendedList);
    RestIsValid(s, u, TerminationList);
    var k, m := Rest(s, u, SuspendedList).EndPos(), Rest(s, u, TerminationList).EndPos();
    RelocatedTurn(s, u, SuspendedList, k, t);
    RelocatedTurn(s, u, TerminationList, m, t);
    RelocateKeepsWellPlaced(s, u, SuspendedList, k);
    ForgottenTurn(s, u, t);
    ForgottenKeepsWellPlaced(s, u);
    hide WellPlaced, Rest, Relocate, Forgotten, ResetNext, TurnKept;
    NextTurn(ToEnd(s, u, SuspendedList), t);
    NextTurn(Forgotten(s, u), t);
    TurnKeptTwice(s, ToEnd(s, u, SuspendedList), ResetNext(ToEnd(s, u, SuspendedList)), t);
    TurnKeptTwice(s, Forgotten(s, u), ResetNext(Forgotten(s, u)), t);
  }

  lemma ForgottenTurn(s: State, u: Task, t: Task)
    requires WellPlaced(s) && u in s.tasks && u != t
    ensures TurnKept(s, Forgotten(s, u), t)
  {
    if InReady(s, t) {
      var h := s.place[t];
      assert t in s.lists[h].items;
      if h == s.place[u] {
        LeftAsNear(s.lists[h], u, t);
      }
      assert Forgotten(s, u).lists[h] == Rest(s, u, h);
    }
  }

  lemma CreatedTurn(s: State, u: Task, p: int, t: Task)
    requires WellPlaced(s) && u !in s.tasks && ReadyList(p) in s.lists
    requires s.lists[ReadyList(p)].idx <= |s.lists[ReadyList(p)].items|
    ensures TurnKept(s, Created(s, u, p), t)
  {
    if InReady(s, t) {
      var h := s.place[t];
      assert t in s.lists[h].items && u !in s.lists[h].items;
      if h == ReadyList(p) {
        JoinedAsNear(s.lists[h], u, t);
      }
    }
  }

  lemma PriorityTurn(s: State, u: Task, p: int, t: Task)
    requires WellPlaced(s) && u in s.tasks && ReadyList(p) in s.lists && u != t
    ensures TurnKept(s, PriorityChanged(s, u, p), t)
  {
    var s1 := s.(priority := s.priority[u := p]);
    assert WellPlaced(s1) && TurnKept(s, s1, t) by {
      SameLists(s, s1, t);
    }
    hide ListsAgree, MakeReady, TurnKept;
    if s.place[u] == ReadyList(s.priority[u]) {
      MakeReadyTurn(s1, u, t);
      TurnKeptTwice(s, s1, MakeReady(s1, u), t);
    }
  }

  lemma BlockedTurn(s: State, wait: Tick, indefinite: bool, onEvent: bool, t: Task)
    requires WellPlaced(s) && s.current in s.tasks && 0 <= s.cur < 2 && s.current != t
    ensures TurnKept(s, Blocked(s, wait, indefinite, onEvent), t)
  {
    hide WellPlaced, DelayCurrent, TurnKept, ToEnd;
    var e := if onEvent then EventList else NoList;
    if wait == MAX_DELAY && indefinite {
      ToSuspendedTurn(s, t);
      var m := ToEnd(s, s.current, SuspendedList);
      EventTurn(s, m, m.event[s.current := e], m.nextTaskUnblockTime, t);
    } else {
      DelayCurrentTurn(s, wait, t);
      var m := DelayCurrent(s, wait);
      EventTurn(s, m, m.event[s.current := e], m.nextTaskUnblockTime, t);
    }
  }

  lemma EventTurn(s: State, s': State, event: map<Task, EventPlace>, next: int, t: Task)
    requires TurnKept(s, s', t)
    ensures TurnKept(s, s'.(event := event), t) && TurnKept(s, s'.(nextTaskUnblockTime := next), t)
  {
    hide AsNear;
  }

  lemma ToSuspendedTurn(s: State, t: Task)
    requires WellPlaced(s) && s.current in s.tasks && s.current != t
    ensures SuspendedList in s.lists && TurnKept(s, ToEnd(s, s.current, SuspendedList), t)
  {
    RestIsValid(s, s.current, SuspendedList);
    RelocatedTurn(s, s.current, SuspendedList, Rest(s, s.current, SuspendedList).EndPos(), t);
  }

  lemma DelayCurrentTurn(s: State, wait: Tick, t: Task)
    requires WellPlaced(s) && s.current in s.tasks && 0 <= s.cur < 2 && s.current != t
    ensures TurnKept(s, DelayCurrent(s, wait), t)
  {
    hide WellPlaced, ToDelayList, TurnKept, Wrap, DelayCurrent;
    DelayListsExist(s);
    var w := Wrap(s.tickCount + wait);
    var k := if w < s.tickCount then 1 - s.cur else s.cur;
    DelayedTurn(s, w, k, t);
    DelayCurrentIs(s, wait);
    var m := ToDelayList(s.(wake := s.wake[s.current := w]), s.current, k);
    EventTurn(s, m, m.event, DelayCurrent(s, wait).nextTaskUnblockTime, t);
  }

  lemma DelayCurrentIs(s: State, wait: Tick)
    requires WellPlaced(s) && s.current in s.tasks && 0 <= s.cur < 2
    ensures var w := Wrap(s.tickCount + wait);
            var k := if w < s.tickCount then 1 - s.cur else s.cur;
            var s1 := s.(wake := s.wake[s.current := w]);
            && WellPlaced(s1) && DelayList(k) in s.lists
            && var s' := DelayCurrent(s, wait);
               s' == ToDelayList(s1, s.current, k).(nextTaskUnblockTime := s'.nextTaskUnblockTime)
  {
    hide ToDelayList, Wrap;
    DelayListsExist(s);
    assert WellPlaced(s.(wake := s.wake[s.current := Wrap(s.tickCount + wait)]));
    hide WellPlaced;
  }

  lemma DelayedTurn(s: State, w: int, k: int, t: Task)
    requires WellPlaced(s) && s.current in s.tasks && DelayList(k) in s.lists && s.current != t
    ensures WellPlaced(s.(wake := s.wake[s.current := w]))
    ensures TurnKept(s, ToDelayList(s.(wake := s.wake[s.current := w]), s.current, k), t)
  {
    var s1 := s.(wake := s.wake[s.current := w]);
    assert WellPlaced(s1);
    SameLists(s, s1, t);
    var r := Rest(s1, s.current, DelayList(k));
    var at := InsertPos(WakeTimes(s1.wake, r.items), s1.wake[s.current]);
    RelocatedTurn(s1, s.current, DelayList(k), at, t);
    hide WellPlaced, Relocate, TurnKept, Rest;
    TurnKeptTwice(s, s1, ToDelayList(s1, s.current, k), t);
  }

  predicate Wakes(op: Op) {
    op.EventOp? || op.AbortDelayOp? || op.UnorderedEventOp? || op.ResumeOp? || op.ResumeFromISROp?
  }

  lemma WakeKeepsTurn(s: State, op: Op, idle: Task, t: Task)
    requires Inv(s) && IdleReady(s, idle) && Enabled(s, op, idle) && Wakes(op)
    ensures TurnKept(s, Perform(s, op, idle), t)
  {
    hide Inv, Core, DelaysAhead, WellPlaced, EventsConsistent, IncrementTick, Resumed, Blocked, EventGiven, DelayAborted,
         TaskSuspended, TaskResumed, TaskResumedFromISR, TaskDeleted, Forgotten, PriorityChanged, MakeReady, Created,
         TurnKept, OutranksCurrent, IdleReady;
    Basics(s);
    ListsExist(s, op.t);
    WakingTurn(s, op.t, t);
  }

  /** Only a context switch, or an operation on t itself, can put off the turn of t. */
  lemma OpKeepsTurn(s: State, op: Op, idle: Task, t: Task)
    requires Inv(s) && IdleReady(s, idle) && Enabled(s, op, idle) && !op.SwitchOp? && !Disturbs(s, op, t)
    ensures TurnKept(s, Perform(s, op, idle), t)
  {
    assert s.schedulerSuspended == 0 ==> s.pendingReady == [];
    hide Inv, Core, DelaysAhead, WellPlaced, EventsConsistent, IncrementTick, Resumed, Blocked, EventGiven, DelayAborted,
         TaskSuspended, TaskResumed, TaskResumedFromISR, TaskDeleted, Forgotten, PriorityChanged, MakeReady, Created,
         TurnKept, OutranksCurrent, IdleReady;
    Basics(s);
    match op
    case TickOp =>
      if s.schedulerSuspended == 0 {
        TickTurn(s, t);
      } else {
        SameLists(s, Perform(s, op, idle), t);
      }
    case SuspendAllOp => SameLists(s, Perform(s, op, idle), t);
    case ResumeAllOp => ResumedTurn(s, t);
    case BlockOp(wait, indefinite, onEvent) => BlockedTurn(s, wait, indefinite, onEvent, t);
    case SuspendOp(u) => LeavingTurn(s, u, t);
    case CreateOp(u, p) => CreatedUnfolds(s, u, p); CreatedTurn(s, u, p, t);
    case DeleteOp(u) => LeavingTurn(s, u, t);
    case CleanUpOp(u) => CleanUpTurn(s, u, t);
    case SetPriorityOp(u, p) => PriorityTurn(s, u, p, t);
    case _ => WakeKeepsTurn(s, op, idle, t);
  }

  /** A deleted task is in no ready list. */
  lemma CleanUpTurn(s: State, u: Task, t: Task)
    requires WellPlaced(s) && u in s.tasks && s.place[u] == TerminationList && SuspendedList in s.lists
    ensures TurnKept(s, Forgotten(s, u), t)
  {
    if u != t {
      ForgottenTurn(s, u, t);
    }
  }

  // ----- Every run

  /** A bound on the turns that others take before t, in a list of at most n tasks. */
  ghost function WaitOf(r: Ring<Task>, t: Task, n: int): int
    requires t in r.items
  {
    var k := PositionOf(r.items, t);
    if k < r.idx then |r.items| - r.idx + n else k - r.idx
  }

  lemma NextNearer(r: Ring<Task>, t: Task, n: int)
    requires r.Valid() && t in r.items && |r.items| <= n && r.Next().Current() != t
    ensures 0 <= WaitOf(r.Next(), t, n) < WaitOf(r, t, n)
  {
  }

  lemma WaitBounded(r: Ring<Task>, t: Task, n: int)
    requires r.Valid() && t in r.items && |r.items| <= n
    ensures 0 <= WaitOf(r, t, n) < 2 * n
  {
  }

  /** Nothing takes t out of its ready list, and that list never has more than n tasks. */
  ghost predicate Undisturbed(s: State, ops: seq<Op>, idle: Task, t: Task, n: int)
    requires Inv(s) && IdleReady(s, idle) && Legal(s, ops, idle)
    decreases |ops|
  {
    && |Turns(s, PriorityOf(s, t))| <= n
    && (ops == [] ||
        (PerformKeeps(s, ops[0], idle);
         !Disturbs(s, ops[0], t) && Undisturbed(Perform(s, ops[0], idle), ops[1..], idle, t, n)))
  }

  /** How many of the context switches of a run chose a task of priority p. */
  ghost function TurnsAt(s: State, ops: seq<Op>, idle: Task, p: int): nat
    requires Inv(s) && IdleReady(s, idle) && Legal(s, ops, idle)
    decreases |ops|
  {
    if ops == [] then 0
    else
      PerformKeeps(s, ops[0], idle);
      var s1 := Perform(s, ops[0], idle);
      (if ops[0].SwitchOp? && s.schedulerSuspended == 0 && PriorityOf(s1, s1.current) == p then 1 else 0)
      + TurnsAt(s1, ops[1..], idle, p)
  }

  /** The list that t waits in. */
  lemma WaitingList(s: State, t: Task)
    requires Core(s) && InReady(s, t)
    ensures s.place[t] == ReadyList(PriorityOf(s, t)) && s.place[t] in s.lists
    ensures s.lists[s.place[t]].Valid() && t in s.lists[s.place[t]].items
    ensures |s.lists[s.place[t]].items| == |Turns(s, PriorityOf(s, t))|
  {
    assert t in s.lists[s.place[t]].items;
    hide ListsAgree, DelaysSorted, EventsConsistent;
  }

  /** What one operation does to how long t has still to wait. */
  ghost predicate Nearer(s: State, s': State, t: Task, n: int, turn: bool) {
    && InReady(s, t) && InReady(s', t) && s'.place[t] == s.place[t] && s.place[t] in s.lists && s.place[t] in s'.lists
    && t in s.lists[s.place[t]].items && t in s'.lists[s.place[t]].items
    && WaitOf(s'.lists[s.place[t]], t, n) + (if turn then 1 else 0) <= WaitOf(s.lists[s.place[t]], t, n)
  }

  lemma KeptIsNearer(s: State, s': State, t: Task, n: int)
    requires InReady(s, t) && TurnKept(s, s', t)
    requires s.place[t] in s.lists && |s.lists[s.place[t]].items| <= n
    ensures Nearer(s, s', t, n, false)
  {
    hide InReady;
  }

  lemma SwitchIsNearer(s: State, idle: Task, t: Task, n: int)
    requires Inv(s) && IdleReady(s, idle) && InReady(s, t) && s.place[t] in s.lists && |s.lists[s.place[t]].items| <= n
    requires var s' := Perform(s, SwitchOp, idle); s.schedulerSuspended == 0 ==> s'.current != t
    ensures var s' := Perform(s, SwitchOp, idle);
            Nearer(s, s', t, n, s.schedulerSuspended == 0 && PriorityOf(s', s'.current) == PriorityOf(s, t))
  {
    WaitingList(s, t);
    SomeReadyThere(s, idle);
    if s.schedulerSuspended == 0 {
      SwitchedSteps(s);
      var s' := Switched(s);
      hide Inv, Core, Switched, WaitOf;
      var l := ReadyList(PriorityOf(s', s'.current));
      if l == s.place[t] {
        NextNearer(s.lists[l], t, n);
      }
    }
  }

  /** The turn of priority p that an operation is. */
  ghost predicate IsTurn(s: State, op: Op, s1: State, p: int) {
    op.SwitchOp? && s.schedulerSuspended == 0 && PriorityOf(s1, s1.current) == p
  }

  lemma UndisturbedStep(s: State, ops: seq<Op>, idle: Task, t: Task, n: int)
    requires Inv(s) && IdleReady(s, idle) && Legal(s, ops, idle) && ops != []
    requires InReady(s, t) && Undisturbed(s, ops, idle, t, n) && t !in Chosen(s, ops, idle)
    ensures Enabled(s, ops[0], idle)
    ensures var s1, p := Perform(s, ops[0], idle), PriorityOf(s, t);
            && Inv(s1) && IdleReady(s1, idle) && Legal(s1, ops[1..], idle) && Undisturbed(s1, ops[1..], idle, t, n)
            && t !in Chosen(s1, ops[1..], idle)
            && TurnsAt(s, ops, idle, p) == (if IsTurn(s, ops[0], s1, p) then 1 else 0) + TurnsAt(s1, ops[1..], idle, p)
            && (ops[0].SwitchOp? && s.schedulerSuspended == 0 ==> s1.current != t)
            && !Disturbs(s, ops[0], t) && |Turns(s, p)| <= n
  {
    hide Inv, IdleReady, Perform, Enabled, Turns, InReady, PriorityOf;
    PerformKeeps(s, ops[0], idle);
  }

  lemma StepIsNearer(s: State, op: Op, idle: Task, t: Task, n: int)
    requires Inv(s) && IdleReady(s, idle) && Enabled(s, op, idle) && Inv(Perform(s, op, idle))
    requires InReady(s, t) && !Disturbs(s, op, t) && |Turns(s, PriorityOf(s, t))| <= n
    requires op.SwitchOp? && s.schedulerSuspended == 0 ==> Perform(s, op, idle).current != t
    ensures var s1 := Perform(s, op, idle);
            Nearer(s, s1, t, n, IsTurn(s, op, s1, PriorityOf(s, t))) && PriorityOf(s1, t) == PriorityOf(s, t)
  {
    assert Core(s) && Core(Perform(s, op, idle));
    hide *;
    WaitingList(s, t);
    var s1 := Perform(s, op, idle);
    if op.SwitchOp? {
      SwitchIsNearer(s, idle, t, n);
      TurnMeans(s, op, s1, PriorityOf(s, t));
    } else {
      OpKeepsTurn(s, op, idle, t);
      KeptIsNearer(s, s1, t, n);
      TurnMeans(s, op, s1, PriorityOf(s, t));
    }
    NearerMeans(s, s1, t, n, IsTurn(s, op, s1, PriorityOf(s, t)));
    WaitingList(s1, t);
  }

  lemma TurnMeans(s: State, op: Op, s1: State, p: int)
    ensures IsTurn(s, op, s1, p) <==> op.SwitchOp? && s.schedulerSuspended == 0 && PriorityOf(s1, s1.current) == p
  {
  }

  lemma NearerMeans(s: State, s': State, t: Task, n: int, turn: bool)
    requires Nearer(s, s', t, n, turn)
    ensures InReady(s, t) && InReady(s', t) && s'.place[t] == s.place[t]
  {
  }

  lemma {:induction false} WaitAtMost(s: State, ops: seq<Op>, idle: Task, t: Task, n: int)
    requires Inv(s) && IdleReady(s, idle) && Legal(s, ops, idle)
    requires InReady(s, t) && Undisturbed(s, ops, idle, t, n) && t !in Chosen(s, ops, idle)
    ensures s.place[t] in s.lists && t in s.lists[s.place[t]].items && s.lists[s.place[t]].Valid()
    ensures |s.lists[s.place[t]].items| <= n
    ensures TurnsAt(s, ops, idle, PriorityOf(s, t)) <= WaitOf(s.lists[s.place[t]], t, n)
    decreases |ops|
  {
    assert Core(s);
    WaitingList(s, t);
    assert |Turns(s, PriorityOf(s, t))| <= n;
    WaitBounded(s.lists[s.place[t]], t, n);
    if ops == [] {
      hide Inv, Core, InReady, Turns, WaitOf;
    } else {
      hide *;
      UndisturbedStep(s, ops, idle, t, n);
      StepIsNearer(s, ops[0], idle, t, n);
      var s1, p := Perform(s, ops[0], idle), PriorityOf(s, t);
      var turn := IsTurn(s, ops[0], s1, p);
      NearerMeans(s, s1, t, n, turn);
      WaitAtMost(s1, ops[1..], idle, t, n);
      NearerWait(s, s1, t, n, turn);
    }
  }

  lemma NearerWait(s: State, s': State, t: Task, n: int, turn: bool)
    requires Nearer(s, s', t, n, turn)
    ensures s.place[t] in s.lists && s.place[t] in s'.lists
    ensures t in s.lists[s.place[t]].items && t in s'.lists[s.place[t]].items
    ensures WaitOf(s'.lists[s.place[t]], t, n) + (if turn then 1 else 0) <= WaitOf(s.lists[s.place[t]], t, n)
  {
  }

  /**
  No starvation: a task that stays in its ready list is chosen before 2 * n context switches have
  chosen tasks of its priority, if the list never has more than n of them, whoever else comes and goes.
  */
  lemma NoStarvation(s: State, ops: seq<Op>, idle: Task, t: Task, n: int)
    requires Inv(s) && IdleReady(s, idle) && Legal(s, ops, idle) && InReady(s, t) && Undisturbed(s, ops, idle, t, n)
    ensures TurnsAt(s, ops, idle, PriorityOf(s, t)) >= 2 * n ==> t in Chosen(s, ops, idle)
  {
    if t !in Chosen(s, ops, idle) {
      assert t in s.place;
      hide *;
      WaitAtMost(s, ops, idle, t, n);
      WaitBounded(s.lists[s.place[t]], t, n);
    }
  }
}
