/**
Kernel time and scheduling (rtos/source/tasks.c, single core).

The kernel keeps wake times modulo 2^32 in two sorted lists that change roles when the tick
count wraps, caches the next unblock time, and pends ticks while the scheduler is suspended.
`State` is that representation. What it means is `Status`: each task is ready, or delayed
until an absolute, unbounded tick, or waiting for ever, suspended or deleted. Every operation
is proved to keep `Inv` and to have its simple effect on the statuses.
*/
module KernelState {
  import opened Config
  import opened Lists

  /** The lists that can hold the state list item of a task. */
  datatype Place = ReadyList(p: int) | DelayList(k: int) | SuspendedList | TerminationList

  /** The lists that can hold the event list item of a task. */
  datatype EventPlace = NoList | EventList | PendingReadyList

  datatype Status = Ready | Delayed(deadline: int) | Waiting | Suspended | Deleted

  datatype State = State(
    tasks: set<Task>,
    tickCount: nat,
    numOfOverflows: nat,
    pendedTicks: nat,
    nextTaskUnblockTime: int,
    schedulerSuspended: nat,
    yieldPending: bool,
    topReadyPriority: nat,
    current: Task,
    cur: int,                          // pxDelayedTaskList is DelayList(cur), the overflow list is the other
    priority: map<Task, int>,
    wake: map<Task, int>,              // xItemValue of the state list item
    place: map<Task, Place>,           // pxContainer of the state list item
    event: map<Task, EventPlace>,      // pxContainer of the event list item
    lists: map<Place, Ring<Task>>,
    pendingReady: seq<Task>)

  predicate IsList(l: Place) {
    match l
    case ReadyList(p) => 0 <= p < MAX_PRIORITIES
    case DelayList(k) => 0 <= k < 2
    case _ => true
  }

  /** The absolute tick that has been processed. */
  function Now(s: State): nat {
    s.numOfOverflows * TICK_MODULUS + s.tickCount
  }

  function StatusOf(s: State, t: Task): Status {
    if t !in s.place || t !in s.event || t !in s.wake then Deleted
    else if s.event[t] == PendingReadyList then Ready
    else match s.place[t]
      case ReadyList(_) => Ready
      case DelayList(k) => Delayed((if k == s.cur then s.numOfOverflows else s.numOfOverflows + 1) * TICK_MODULUS + s.wake[t])
      case SuspendedList => if s.event[t] == EventList then Waiting else Suspended
      case TerminationList => Deleted
  }

  function Items(s: State, l: Place): seq<Task> {
    if l in s.lists then s.lists[l].items else []
  }

  function PriorityOf(s: State, t: Task): int {
    if t in s.priority then s.priority[t] else 0
  }

  function WakeOf(wake: map<Task, int>, t: Task): int {
    if t in wake then wake[t] else 0
  }

  function WakeTimes(wake: map<Task, int>, items: seq<Task>): (v: seq<int>)
    ensures |v| == |items|
  {
    seq(|items|, i requires 0 <= i < |items| => WakeOf(wake, items[i]))
  }

  // ----- The invariant, in four parts

  /** A list contains exactly the tasks whose container it is. */
  ghost predicate ListsAgree(place: map<Task, Place>, lists: map<Place, Ring<Task>>) {
    && (forall l :: l in lists <==> IsList(l))
    && (forall l :: l in lists ==> lists[l].Valid())
    && (forall t :: t in place ==> place[t] in lists)
    && (forall l, t {:trigger t in lists[l].items} :: l in lists ==>
          (t in lists[l].items <==> t in place && place[t] == l))
  }

  /** Every task's state list item is in exactly one list, the one its container names. */
  ghost predicate WellPlaced(s: State) {
    && s.place.Keys == s.priority.Keys == s.wake.Keys == s.event.Keys == s.tasks
    && ListsAgree(s.place, s.lists)
  }

  ghost predicate ReadyAgree(place: map<Task, Place>, priority: map<Task, int>, top: int) {
    forall t :: t in place && t in priority ==>
      0 <= priority[t] < MAX_PRIORITIES && (place[t].ReadyList? ==> place[t].p == priority[t] <= top)
  }

  /** A ready task is in the list of its priority, and none is above topReadyPriority. */
  ghost predicate ReadyByPriority(s: State) {
    s.topReadyPriority < MAX_PRIORITIES && ReadyAgree(s.place, s.priority, s.topReadyPriority)
  }

  ghost predicate DelayListSorted(s: State, k: int) {
    Sorted(WakeTimes(s.wake, Items(s, DelayList(k))))
  }

  /** Wake times in the current list are of this epoch and not before the cached next unblock time. */
  ghost predicate DelaysSorted(s: State) {
    && 0 <= s.cur < 2
    && s.tickCount < TICK_MODULUS
    && 0 <= s.nextTaskUnblockTime < TICK_MODULUS
    && DelayListSorted(s, 0)
    && DelayListSorted(s, 1)
    && forall t :: t in s.place && t in s.wake && s.place[t] == DelayList(s.cur) ==>
         s.nextTaskUnblockTime <= s.wake[t] < TICK_MODULUS
  }

  /**
  A task in the current list is still to be woken in this epoch; one in the overflow list is to
  be woken in the next epoch, less than a full turn of the tick count from now.
  */
  ghost predicate DelaysAhead(s: State) {
    forall t :: t in s.place && t in s.wake && s.place[t].DelayList? ==>
      if s.place[t].k == s.cur then s.tickCount < s.wake[t] || s.tickCount == s.wake[t] < MAX_DELAY
      else 0 <= s.wake[t] < s.tickCount
  }

  ghost predicate EventsAgree(pendingReady: seq<Task>, event: map<Task, EventPlace>, place: map<Task, Place>) {
    && Distinct(pendingReady)
    && (forall t :: t in pendingReady <==> t in event && event[t] == PendingReadyList)
    && (forall t :: t in event && t in place && event[t] != NoList ==>
          place[t].DelayList? || place[t].SuspendedList?)
  }

  /** Only a task that is blocked or suspended is on an event list or the pending ready list. */
  ghost predicate EventsConsistent(s: State) {
    EventsAgree(s.pendingReady, s.event, s.place)
  }

  ghost predicate Core(s: State) {
    WellPlaced(s) && ReadyByPriority(s) && DelaysSorted(s) && EventsConsistent(s) && s.current in s.tasks
  }

  ghost predicate Inv(s: State) {
    && Core(s) && DelaysAhead(s)
    && (s.schedulerSuspended == 0 ==> s.pendingReady == [] && s.pendedTicks == 0)
  }

  // ----- Moving a state list item from the list it is in to another

  /** List l once t's state list item has been taken out of the list it is in. */
  ghost function Rest(s: State, t: Task, l: Place): Ring<Task>
    requires WellPlaced(s) && t in s.tasks && l in s.lists
  {
    if l == s.place[t] then Without(s.lists[l], t) else s.lists[l]
  }

  /**
  Take t's event list item out of whatever list holds it, and its state list item out of the
  list it is in; put the latter at position k of list l.
  */
  ghost function Relocate(s: State, t: Task, l: Place, k: nat): State
    requires WellPlaced(s) && t in s.tasks && l in s.lists && k <= |Rest(s, t, l).items|
  {
    s.(place := s.place[t := l],
       event := s.event[t := NoList],
       pendingReady := Dropped(s.pendingReady, t),
       lists := s.lists[s.place[t] := Without(s.lists[s.place[t]], t)][l := Rest(s, t, l).InsertAt(k, t)])
  }

  ghost function ToEnd(s: State, t: Task, l: Place): State
    requires WellPlaced(s) && t in s.tasks && l in s.lists
  {
    RestIsValid(s, t, l);
    Relocate(s, t, l, Rest(s, t, l).EndPos())
  }

  /** prvAddTaskToReadyList() */
  ghost function MakeReady(s: State, t: Task): State
    requires WellPlaced(s) && t in s.tasks && ReadyList(s.priority[t]) in s.lists
  {
    var p := s.priority[t];
    ToEnd(s, t, ReadyList(p)).(topReadyPriority := if p > s.topReadyPriority then p else s.topReadyPriority)
  }

  /** vListInsert() of t, whose wake time has been set, into a delay list. */
  ghost function ToDelayList(s: State, t: Task, k: int): State
    requires WellPlaced(s) && t in s.tasks && DelayList(k) in s.lists
  {
    var r := Rest(s, t, DelayList(k));
    Relocate(s, t, DelayList(k), InsertPos(WakeTimes(s.wake, r.items), s.wake[t]))
  }

  lemma RestIsValid(s: State, t: Task, l: Place)
    requires WellPlaced(s) && t in s.tasks && l in s.lists
    ensures Rest(s, t, l).Valid()
    ensures forall u :: u in Rest(s, t, l).items <==> u in s.place && s.place[u] == l && u != t
  {
    if l == s.place[t] {
      WithoutMembers(s.lists[l], t);
    }
  }

  /** Who is in list l' after a move. */
  lemma RelocateMembers(s: State, t: Task, l: Place, k: nat, l': Place, u: Task)
    requires WellPlaced(s) && t in s.tasks && l in s.lists && k <= |Rest(s, t, l).items| && l' in s.lists
    ensures var r := Relocate(s, t, l, k).lists[l'];
            r.Valid() && (u in r.items <==> if u == t then l' == l else u in s.place && s.place[u] == l')
  {
    RestIsValid(s, t, l');
    if l' == l {
      InsertMembers(Rest(s, t, l), k, t);
    }
  }

  lemma RelocateKeepsWellPlaced(s: State, t: Task, l: Place, k: nat)
    requires WellPlaced(s) && t in s.tasks && l in s.lists && k <= |Rest(s, t, l).items|
    ensures WellPlaced(Relocate(s, t, l, k))
  {
    var s' := Relocate(s, t, l, k);
    assert s'.place.Keys == s.tasks && s'.lists.Keys == s.lists.Keys;
    forall l', u {:trigger u in s'.lists[l'].items} | l' in s.lists
      ensures u in s'.lists[l'].items <==> u in s'.place && s'.place[u] == l'
    {
      RelocateMembers(s, t, l, k, l', u);
    }
    forall l' | l' in s.lists
      ensures s'.lists[l'].Valid()
    {
      RelocateMembers(s, t, l, k, l', t);
    }
  }

  lemma RelocateKeepsEvents(s: State, t: Task, l: Place, k: nat)
    requires WellPlaced(s) && t in s.tasks && l in s.lists && k <= |Rest(s, t, l).items|
    requires EventsConsistent(s)
    ensures EventsConsistent(Relocate(s, t, l, k))
  {
    DroppedMembers(s.pendingReady, t);
  }

  // ----- Sorted delay lists

  lemma SubsequenceSorted(wake: map<Task, int>, items: seq<Task>, k: nat)
    requires k < |items| && Sorted(WakeTimes(wake, items))
    ensures Sorted(WakeTimes(wake, items[..k] + items[k + 1..]))
  {
    var v, items' := WakeTimes(wake, items), items[..k] + items[k + 1..];
    var v' := WakeTimes(wake, items');
    forall i, j | 0 <= i < j < |v'|
      ensures v'[i] <= v'[j]
    {
      assert v'[i] == if i < k then v[i] else v[i + 1];
      assert v'[j] == if j < k then v[j] else v[j + 1];
    }
  }

  lemma RestSorted(s: State, t: Task, k: int)
    requires WellPlaced(s) && t in s.tasks && DelayList(k) in s.lists && DelayListSorted(s, k)
    ensures Sorted(WakeTimes(s.wake, Rest(s, t, DelayList(k)).items))
  {
    var l := DelayList(k);
    if l == s.place[t] {
      SubsequenceSorted(s.wake, s.lists[l].items, PositionOf(s.lists[l].items, t));
    }
  }

  /** A move to another list leaves delay list m sorted. */
  lemma RelocateKeepsSorted(s: State, t: Task, l: Place, k: nat, m: nat)
    requires WellPlaced(s) && t in s.tasks && l in s.lists && k <= |Rest(s, t, l).items|
    requires l != DelayList(m) && DelayList(m) in s.lists && DelayListSorted(s, m)
    ensures DelayListSorted(Relocate(s, t, l, k), m)
  {
    RestSorted(s, t, m);
    assert Relocate(s, t, l, k).lists[DelayList(m)] == Rest(s, t, DelayList(m));
  }

  lemma ToDelayListSorted(s: State, t: Task, k: int)
    requires WellPlaced(s) && t in s.tasks && DelayList(k) in s.lists
    requires Sorted(WakeTimes(s.wake, Rest(s, t, DelayList(k)).items))
    ensures DelayListSorted(ToDelayList(s, t, k), k)
  {
    var r := Rest(s, t, DelayList(k));
    var vals, v := WakeTimes(s.wake, r.items), s.wake[t];
    var at := InsertPos(vals, v);
    InsertKeepsSorted(vals, v);
    var items' := Splice(r.items, at, t);
    assert ToDelayList(s, t, k).lists[DelayList(k)].items == items';
    assert WakeTimes(s.wake, items') == Splice(vals, at, v);
  }

  // ----- Moving a task to a list other than a delay list keeps the rest of the invariant

  lemma RelocateKeepsDelays(s: State, t: Task, l: Place, k: nat)
    requires WellPlaced(s) && t in s.tasks && l in s.lists && k <= |Rest(s, t, l).items|
    requires !l.DelayList? && DelaysSorted(s)
    ensures DelaysSorted(Relocate(s, t, l, k))
  {
    RelocateKeepsSorted(s, t, l, k, 0);
    RelocateKeepsSorted(s, t, l, k, 1);
  }

  lemma RelocateKeepsCore(s: State, t: Task, l: Place, k: nat)
    requires Core(s) && t in s.tasks && l in s.lists && k <= |Rest(s, t, l).items|
    requires l.SuspendedList? || l.TerminationList?
    ensures Core(Relocate(s, t, l, k))
  {
    RelocateKeepsWellPlaced(s, t, l, k);
    RelocateKeepsEvents(s, t, l, k);
    RelocateKeepsDelays(s, t, l, k);
  }

  /** The core invariant but for which ready list t is in. */
  ghost predicate CoreButReady(s: State, t: Task) {
    && WellPlaced(s) && DelaysSorted(s) && EventsConsistent(s) && s.current in s.tasks && s.topReadyPriority < MAX_PRIORITIES
    && ReadyAgree(s.place - {t}, s.priority, s.topReadyPriority)
    && t in s.tasks && 0 <= s.priority[t] < MAX_PRIORITIES
  }

  lemma MakeReadyKeepsReady(s: State, t: Task)
    requires CoreButReady(s, t)
    ensures ReadyAgree(MakeReady(s, t).place, s.priority, MakeReady(s, t).topReadyPriority)
    ensures MakeReady(s, t).topReadyPriority < MAX_PRIORITIES
  {
    hide DelaysSorted, EventsConsistent, Rest;
    var s' := MakeReady(s, t);
    forall u | u in s'.place && u in s.priority
      ensures 0 <= s.priority[u] < MAX_PRIORITIES
      ensures s'.place[u].ReadyList? ==> s'.place[u].p == s.priority[u] <= s'.topReadyPriority
    {
      assert u != t ==> u in s.place - {t};
    }
  }

  lemma MakeReadyMoves(s: State, t: Task)
    requires CoreButReady(s, t)
    ensures Core(MakeReady(s, t))
  {
    var l := ReadyList(s.priority[t]);
    RestIsValid(s, t, l);
    MakeReadyKeepsReady(s, t);
    hide ListsAgree, DelaysSorted, EventsConsistent, ReadyAgree, Rest;
    var k := Rest(s, t, l).EndPos();
    RelocateKeepsWellPlaced(s, t, l, k);
    RelocateKeepsEvents(s, t, l, k);
    RelocateKeepsDelays(s, t, l, k);
    RaiseTop(Relocate(s, t, l, k), MakeReady(s, t).topReadyPriority);
  }

  lemma MakeReadyKeepsCore(s: State, t: Task)
    requires Core(s) && t in s.tasks
    ensures Core(MakeReady(s, t))
  {
    MakeReadyMoves(s, t) by {
      hide ListsAgree, DelaysSorted, EventsConsistent;
    }
  }

  /** Recording a higher top priority needs nothing else to change. */
  lemma RaiseTop(s: State, top: int)
    requires WellPlaced(s) && EventsConsistent(s) && DelaysSorted(s) && s.current in s.tasks
    requires 0 <= top < MAX_PRIORITIES && ReadyAgree(s.place, s.priority, top)
    ensures Core(s.(topReadyPriority := top))
  {
    hide ListsAgree, ReadyAgree, EventsAgree, Sorted;
  }

  // ----- The tick

  /** prvResetNextTaskUnblockTime() */
  ghost function ResetNext(s: State): State {
    var d := Items(s, DelayList(s.cur));
    s.(nextTaskUnblockTime := if d == [] then MAX_DELAY else WakeOf(s.wake, d[0]))
  }

  /** The loop of xTaskIncrementTick() that wakes the tasks whose time has come. */
  ghost function Drain(s: State): State
    requires Core(s)
    decreases |Items(s, DelayList(s.cur))|
  {
    var d := Items(s, DelayList(s.cur));
    if d == [] || s.tickCount < WakeOf(s.wake, d[0]) then ResetNext(s)
    else
      WakingHeadShortens(s);
      MakeReadyKeepsCore(s, d[0]);
      Drain(MakeReady(s, d[0]))
  }

  /** taskSWITCH_DELAYED_LISTS() */
  ghost function SwitchLists(s: State): State {
    ResetNext(s.(cur := if s.cur == 0 then 1 else 0, numOfOverflows := s.numOfOverflows + 1))
  }

  /** The tick count after one more tick, before any task is woken. */
  ghost function Advanced(s: State): State {
    var s' := s.(tickCount := Wrap(s.tickCount + 1));
    if s'.tickCount == 0 then SwitchLists(s') else s'
  }

  /** xTaskIncrementTick() while the scheduler is not suspended. */
  ghost function IncrementTick(s: State): State
    requires Core(s) && DelaysAhead(s)
  {
    AdvancedKeepsCore(s);
    var s' := Advanced(s);
    if s'.tickCount >= s'.nextTaskUnblockTime then Drain(s') else s'
  }

  lemma SortedHead(wake: map<Task, int>, d: seq<Task>, u: Task)
    requires u in d && Sorted(WakeTimes(wake, d))
    ensures WakeOf(wake, d[0]) <= WakeOf(wake, u)
  {
    var i :| 0 <= i < |d| && d[i] == u;
    var v := WakeTimes(wake, d);
    assert v[0] == WakeOf(wake, d[0]) && v[i] == WakeOf(wake, u);
  }

  /** The head of the current list is blocked, and is the first to be woken. */
  lemma HeadIsPlaced(s: State)
    requires Core(s) && Items(s, DelayList(s.cur)) != []
    ensures var h := Items(s, DelayList(s.cur))[0];
            && h in s.tasks && s.place[h] == DelayList(s.cur)
            && forall u :: u in s.tasks && s.place[u] == DelayList(s.cur) ==> s.wake[h] <= s.wake[u]
  {
    var l := DelayList(s.cur);
    var d := s.lists[l].items;
    assert d[0] in d;
    forall u | u in s.tasks && s.place[u] == l
      ensures s.wake[d[0]] <= s.wake[u]
    {
      assert u in s.lists[l].items;
      SortedHead(s.wake, d, u);
    }
  }

  lemma WakingHeadShortens(s: State)
    requires Core(s) && Items(s, DelayList(s.cur)) != []
    ensures var h := Items(s, DelayList(s.cur))[0];
            && h in s.tasks
            && |Items(MakeReady(s, h), DelayList(s.cur))| < |Items(s, DelayList(s.cur))|
  {
    HeadIsPlaced(s);
    var l := DelayList(s.cur);
    var h := Items(s, l)[0];
    assert MakeReady(s, h).lists[l] == Rest(s, h, l);
  }

  /** The current list is empty when the tick count wraps, so the switch assertion cannot fail. */
  lemma CurrentListEmptyAtWrap(s: State)
    requires Core(s) && DelaysAhead(s) && s.tickCount == MAX_DELAY
    ensures Items(s, DelayList(s.cur)) == []
    ensures forall t :: t in s.tasks ==> s.place[t] != DelayList(s.cur)
  {
    var l := DelayList(s.cur);
    if Items(s, l) != [] {
      HeadIsPlaced(s);
    }
    forall t | t in s.tasks
      ensures s.place[t] != l
    {
      assert t in s.lists[l].items <==> s.place[t] == l;
    }
  }

  lemma ResetNextKeepsCore(s: State)
    requires WellPlaced(s) && ReadyByPriority(s) && EventsConsistent(s) && s.current in s.tasks
    requires 0 <= s.cur < 2 && s.tickCount < TICK_MODULUS && DelayListSorted(s, 0) && DelayListSorted(s, 1)
    requires forall t :: t in s.place && t in s.wake && s.place[t] == DelayList(s.cur) ==> 0 <= s.wake[t] < TICK_MODULUS
    ensures Core(ResetNext(s))
  {
    var s0 := s.(nextTaskUnblockTime := 0);
    if Items(s, DelayList(s.cur)) != [] {
      HeadIsPlaced(s0);
    } else {
      forall t | t in s.tasks
        ensures s.place[t] != DelayList(s.cur)
      {
        assert t in s.lists[DelayList(s.cur)].items <==> s.place[t] == DelayList(s.cur);
      }
    }
  }

  /** The next unblock time is the earliest wake time of the current list, if there is one. */
  lemma ResetNextExact(s: State)
    requires Core(s)
    ensures var next := ResetNext(s).nextTaskUnblockTime;
            && (forall t :: t in s.tasks && s.place[t] == DelayList(s.cur) ==> next <= s.wake[t])
            && ((exists t :: t in s.tasks && s.place[t] == DelayList(s.cur) && s.wake[t] == next)
                || (next == MAX_DELAY && forall t :: t in s.tasks ==> s.place[t] != DelayList(s.cur)))
  {
    if Items(s, DelayList(s.cur)) != [] {
      HeadIsPlaced(s);
    } else {
      forall t | t in s.tasks
        ensures s.place[t] != DelayList(s.cur)
      {
        assert t in s.lists[DelayList(s.cur)].items <==> s.place[t] == DelayList(s.cur);
      }
    }
  }

  lemma TickKeepsCore(s: State, t: Tick)
    requires Core(s)
    ensures Core(s.(tickCount := t))
  {
  }

  /** What the increment does, by cases. */
  lemma AdvancedForm(s: State)
    requires s.tickCount < TICK_MODULUS && 0 <= s.cur < 2
    ensures Advanced(s) == if s.tickCount == MAX_DELAY then SwitchLists(s.(tickCount := 0))
                           else s.(tickCount := s.tickCount + 1)
  {
    WrapSuccessor(s.tickCount);
  }

  lemma SwitchKeepsCore(s: State)
    requires Core(s) && DelaysAhead(s) && s.tickCount == MAX_DELAY
    ensures Core(SwitchLists(s.(tickCount := 0)))
  {
    CurrentListEmptyAtWrap(s);
    var s' := s.(tickCount := 0, cur := if s.cur == 0 then 1 else 0, numOfOverflows := s.numOfOverflows + 1);
    assert WellPlaced(s') && ReadyByPriority(s') && EventsConsistent(s');
    assert DelayListSorted(s', 0) && DelayListSorted(s', 1);
    ResetNextKeepsCore(s');
  }

  lemma SwitchStatus(s: State, u: Task)
    requires Core(s) && DelaysAhead(s) && s.tickCount == MAX_DELAY && u in s.tasks
    ensures StatusOf(SwitchLists(s.(tickCount := 0)), u) == StatusOf(s, u)
  {
    CurrentListEmptyAtWrap(s);
  }

  /** Tasks in the overflow list are due in the next epoch, less than a turn from now. */
  ghost predicate OverflowAhead(s: State) {
    forall t :: t in s.place && t in s.wake && s.place[t].DelayList? && s.place[t].k != s.cur ==> 0 <= s.wake[t] < s.tickCount
  }

  /** A tick before any task is woken: one more tick of absolute time, every status the same. */
  lemma AdvancedKeepsCore(s: State)
    requires Core(s) && DelaysAhead(s)
    ensures Core(Advanced(s)) && Now(Advanced(s)) == Now(s) + 1
  {
    AdvancedForm(s);
    if s.tickCount == MAX_DELAY {
      SwitchKeepsCore(s);
    } else {
      TickKeepsCore(s, s.tickCount + 1);
    }
  }

  lemma AdvancedStatus(s: State, u: Task)
    requires Core(s) && DelaysAhead(s) && u in s.tasks
    ensures StatusOf(Advanced(s), u) == StatusOf(s, u)
  {
    AdvancedForm(s);
    if s.tickCount == MAX_DELAY {
      SwitchStatus(s, u);
    }
  }

  lemma AdvancedOverflow(s: State)
    requires Core(s) && DelaysAhead(s)
    ensures OverflowAhead(Advanced(s))
  {
    AdvancedForm(s);
    if s.tickCount == MAX_DELAY {
      CurrentListEmptyAtWrap(s);
    }
  }

  ghost predicate SameButPlaces(s: State, s': State) {
    && s' == s.(place := s'.place, event := s'.event, lists := s'.lists,
                topReadyPriority := s'.topReadyPriority, nextTaskUnblockTime := s'.nextTaskUnblockTime)
  }

  predicate Due(s: State, u: Task)
    requires u in s.place && u in s.wake
  {
    s.place[u] == DelayList(s.cur) && s.wake[u] <= s.tickCount
  }

  /** u has been made ready if it was due, and left alone if not. */
  ghost predicate DrainedTask(s: State, s': State, u: Task)
    requires u in s.place && u in s.wake && u in s.event && u in s.priority
  {
    && u in s'.place && u in s'.event
    && s'.place[u] == (if Due(s, u) then ReadyList(s.priority[u]) else s.place[u])
    && s'.event[u] == (if Due(s, u) then NoList else s.event[u])
  }

  /** s' is s after every task of the current list that is due has been made ready. */
  ghost predicate DrainedTo(s: State, s': State)
    requires s.place.Keys == s.wake.Keys == s.event.Keys == s.priority.Keys == s.tasks
  {
    SameButPlaces(s, s') && forall u :: u in s.tasks ==> DrainedTask(s, s', u)
  }

  lemma ResetNextDrains(s: State)
    requires Core(s)
    requires var d := Items(s, DelayList(s.cur)); d == [] || s.tickCount < WakeOf(s.wake, d[0])
    ensures Core(ResetNext(s)) && DrainedTo(s, ResetNext(s))
  {
    ResetNextKeepsCore(s);
    if Items(s, DelayList(s.cur)) != [] {
      HeadIsPlaced(s);
    } else {
      forall u | u in s.tasks
        ensures s.place[u] != DelayList(s.cur)
      {
        assert u in s.lists[DelayList(s.cur)].items <==> s.place[u] == DelayList(s.cur);
      }
    }
  }

  lemma MakeReadyPlaces(s: State, t: Task)
    requires WellPlaced(s) && t in s.tasks && ReadyList(s.priority[t]) in s.lists && s.pendingReady == []
    ensures SameButPlaces(s, MakeReady(s, t))
    ensures MakeReady(s, t).place == s.place[t := ReadyList(s.priority[t])]
    ensures MakeReady(s, t).event == s.event[t := NoList]
  {
    hide ListsAgree;
  }

  lemma DrainStep(s: State, h: Task, s': State)
    requires Core(s) && s.pendingReady == [] && h in s.tasks && Due(s, h) && ReadyList(s.priority[h]) in s.lists
    requires WellPlaced(MakeReady(s, h)) && DrainedTo(MakeReady(s, h), s')
    ensures DrainedTo(s, s')
  {
    hide ListsAgree, ReadyByPriority, DelaysSorted, EventsConsistent, MakeReady;
    MakeReadyPlaces(s, h);
    var m := MakeReady(s, h);
    forall u | u in s.tasks
      ensures DrainedTask(s, s', u)
    {
      assert DrainedTask(m, s', u);
    }
  }

  lemma {:induction false} DrainEffect(s: State)
    requires Core(s) && s.pendingReady == []
    ensures Core(Drain(s)) && DrainedTo(s, Drain(s))
    decreases |Items(s, DelayList(s.cur))|
  {
    var d := Items(s, DelayList(s.cur));
    if d == [] || s.tickCount < WakeOf(s.wake, d[0]) {
      ResetNextDrains(s);
    } else {
      HeadIsPlaced(s);
      WakingHeadShortens(s);
      MakeReadyKeepsCore(s, d[0]);
      var m := MakeReady(s, d[0]);
      DrainEffect(m);
      DrainStep(s, d[0], Drain(m));
    }
  }

  function Expired(st: Status, now: int): Status {
    if st.Delayed? && st.deadline <= now then Ready else st
  }

  /** The state before and after draining, of one tick. */
  lemma TickDrains(s: State)
    requires Core(s) && DelaysAhead(s) && s.pendingReady == []
    ensures Core(Advanced(s)) && Advanced(s).pendingReady == []
    ensures Core(IncrementTick(s)) && DrainedTo(Advanced(s), IncrementTick(s))
  {
    AdvancedKeepsCore(s);
    var a := Advanced(s);
    if a.tickCount >= a.nextTaskUnblockTime {
      DrainEffect(a);
    }
  }

  lemma DrainedAhead(a: State, s': State)
    requires Core(a) && OverflowAhead(a) && DrainedTo(a, s')
    ensures DelaysAhead(s')
  {
    forall u | u in s'.place && u in s'.wake && s'.place[u].DelayList?
      ensures if s'.place[u].k == s'.cur then s'.tickCount < s'.wake[u] else 0 <= s'.wake[u] < s'.tickCount
    {
      assert u in a.tasks ==> DrainedTask(a, s', u);
    }
  }

  /** One processed tick keeps the invariant and moves absolute time on by one. */
  lemma TickKeeps(s: State)
    requires Core(s) && DelaysAhead(s) && s.pendingReady == []
    ensures var s' := IncrementTick(s);
            && Core(s') && DelaysAhead(s')
            && Now(s') == Now(s) + 1
            && s' == s.(tickCount := s'.tickCount, numOfOverflows := s'.numOfOverflows, cur := s'.cur,
                        place := s'.place, event := s'.event, lists := s'.lists,
                        topReadyPriority := s'.topReadyPriority, nextTaskUnblockTime := s'.nextTaskUnblockTime)
  {
    TickDrains(s);
    AdvancedKeepsCore(s);
    AdvancedOverflow(s);
    DrainedAhead(Advanced(s), IncrementTick(s));
  }

  /**
  One processed tick, for every task: it becomes ready if its deadline is not after the new
  time, and its status does not change otherwise.
  */
  lemma TickRefines(s: State, u: Task)
    requires Core(s) && DelaysAhead(s) && s.pendingReady == [] && u in s.tasks
    ensures Core(IncrementTick(s))
    ensures StatusOf(IncrementTick(s), u) == Expired(StatusOf(s, u), Now(s) + 1)
  {
    TickDrains(s);
    AdvancedKeepsCore(s);
    AdvancedOverflow(s);
    AdvancedStatus(s, u);
    DrainedStatus(Advanced(s), IncrementTick(s), u);
  }

  lemma DrainedStatus(a: State, s': State, u: Task)
    requires u in a.place && u in a.wake && u in a.event && u in a.priority && a.event[u] != PendingReadyList
    requires a.tickCount < TICK_MODULUS && s'.event.Keys == a.event.Keys
    requires a.place[u].DelayList? ==> 0 <= a.wake[u] < if a.place[u].k == a.cur then TICK_MODULUS else a.tickCount
    requires SameButPlaces(a, s') && DrainedTask(a, s', u)
    ensures StatusOf(s', u) == Expired(StatusOf(a, u), Now(a))
  {
  }

  // ----- Resuming the scheduler

  /** From s to s', some task that outranks the running task became ready. */
  ghost predicate WokenAbove(s: State, s': State) {
    exists u :: u in s.tasks && StatusOf(s, u) != Ready && StatusOf(s', u) == Ready
                && PriorityOf(s', u) > PriorityOf(s', s'.current)
  }

  /** What xTaskIncrementTick() returns: s before the tick, s' after it. */
  ghost predicate SwitchRequired(s: State, s': State) {
    || s.yieldPending
    || |Items(s', ReadyList(PriorityOf(s', s'.current)))| > 1
    || WokenAbove(s, s')
  }

  /** One turn of the loop that moves tasks out of the pending ready list. */
  ghost function FirstPendingMoved(s: State): State
    requires Core(s) && s.pendingReady != []
  {
    var h := s.pendingReady[0];
    assert h in s.pendingReady;
    MakeReady(s, h).(yieldPending := s.yieldPending || s.priority[h] > s.priority[s.current])
  }

  ghost function DrainPending(s: State): State
    requires Core(s)
    decreases |s.pendingReady|
  {
    if s.pendingReady == [] then s
    else
      FirstPendingKeepsCore(s);
      DrainPending(FirstPendingMoved(s))
  }

  /** The replay of the ticks that came while the scheduler was suspended. */
  ghost function Replay(s: State, n: nat): State
    requires Core(s) && DelaysAhead(s) && s.pendingReady == []
    decreases n
  {
    if n == 0 then s
    else
      TickKeeps(s);
      var s' := IncrementTick(s);
      Replay(s'.(yieldPending := SwitchRequired(s, s')), n - 1)
  }

  /** The pending ready list emptied, and the next unblock time reset if that did anything. */
  ghost function Unpended(s: State): State
    requires Core(s)
  {
    if s.pendingReady == [] then s else ResetNext(DrainPending(s))
  }

  /** xTaskResumeAll() */
  ghost function Resumed(s: State): State
    requires Core(s) && DelaysAhead(s) && s.schedulerSuspended > 0
  {
    var s1 := s.(schedulerSuspended := s.schedulerSuspended - 1);
    if s1.schedulerSuspended > 0 then s1
    else
      UnpendedKeeps(s1);
      Replay(Unpended(s1), s1.pendedTicks).(pendedTicks := 0)
  }

  lemma FirstPendingKeepsCore(s: State)
    requires Core(s) && s.pendingReady != []
    ensures Core(FirstPendingMoved(s))
    ensures FirstPendingMoved(s).pendingReady == s.pendingReady[1..]
  {
    var h := s.pendingReady[0];
    assert h in s.pendingReady;
    MakeReadyKeepsCore(s, h);
    hide ListsAgree, ReadyByPriority, DelaysSorted, EventsConsistent;
    assert Core(MakeReady(s, h));
    hide Core;
    YieldKeeps(MakeReady(s, h), FirstPendingMoved(s).yieldPending);
  }

  /** Emptying the pending ready list changes no status: those tasks were ready already. */
  ghost predicate PendingMoved(s: State, s': State)
    requires s.place.Keys == s.wake.Keys == s.event.Keys == s.priority.Keys == s.tasks
  {
    && s'.pendingReady == []
    && s' == s.(place := s'.place, event := s'.event, lists := s'.lists, pendingReady := [],
                topReadyPriority := s'.topReadyPriority, yieldPending := s'.yieldPending)
    && forall u :: u in s.tasks ==>
         && u in s'.place && u in s'.event && s'.event[u] != PendingReadyList
         && s'.place[u] == (if s.event[u] == PendingReadyList then ReadyList(s.priority[u]) else s.place[u])
         && (s.event[u] != PendingReadyList ==> s'.event[u] == s.event[u])
  }

  lemma FirstPendingEffect(s: State, s': State)
    requires Core(s) && s.pendingReady != [] && Core(FirstPendingMoved(s)) && PendingMoved(FirstPendingMoved(s), s')
    ensures PendingMoved(s, s')
  {
    assert s.pendingReady[0] in s.pendingReady;
  }

  lemma {:induction false} DrainPendingEffect(s: State)
    requires Core(s)
    ensures Core(DrainPending(s)) && PendingMoved(s, DrainPending(s))
    decreases |s.pendingReady|
  {
    if s.pendingReady == [] {
      assert forall u :: u in s.tasks ==> s.event[u] != PendingReadyList;
    } else {
      FirstPendingKeepsCore(s);
      DrainPendingEffect(FirstPendingMoved(s));
      FirstPendingEffect(s, DrainPending(FirstPendingMoved(s)));
    }
  }

  lemma PendingMovedAhead(s: State, s': State)
    requires Core(s) && DelaysAhead(s) && PendingMoved(s, s')
    ensures DelaysAhead(s')
  {
  }

  lemma ResetNextKeeps(s: State)
    requires Core(s)
    ensures Core(ResetNext(s))
    ensures DelaysAhead(s) ==> DelaysAhead(ResetNext(s))
  {
    ResetNextKeepsCore(s);
  }

  /** What stays the same when the pending ready list is emptied. */
  lemma UnpendedKeeps(s: State)
    requires Core(s) && DelaysAhead(s)
    ensures Core(Unpended(s)) && DelaysAhead(Unpended(s)) && Unpended(s).pendingReady == []
    ensures Now(Unpended(s)) == Now(s) && Unpended(s).tasks == s.tasks
    ensures Unpended(s).pendedTicks == s.pendedTicks && Unpended(s).schedulerSuspended == s.schedulerSuspended
  {
    hide Core, DelaysAhead, DrainPending;
    if s.pendingReady != [] {
      DrainPendingEffect(s);
      PendingMovedAhead(s, DrainPending(s));
      ResetNextKeeps(DrainPending(s));
    }
  }

  lemma PendingMovedStatus(s: State, s': State, u: Task)
    requires s.place.Keys == s.wake.Keys == s.event.Keys == s.priority.Keys == s.tasks && u in s.tasks
    requires PendingMoved(s, s')
    ensures StatusOf(ResetNext(s'), u) == StatusOf(s, u)
  {
  }

  lemma UnpendedStatus(s: State, u: Task)
    requires Core(s) && u in s.tasks
    ensures StatusOf(Unpended(s), u) == StatusOf(s, u)
  {
    hide ListsAgree, ReadyByPriority, DelaysSorted, EventsConsistent, DrainPending;
    if s.pendingReady != [] {
      DrainPendingEffect(s);
      PendingMovedStatus(s, DrainPending(s), u);
    }
  }

  lemma YieldKeeps(s: State, b: bool)
    requires Core(s)
    ensures Core(s.(yieldPending := b))
    ensures DelaysAhead(s) ==> DelaysAhead(s.(yieldPending := b))
  {
  }

  lemma {:induction false} ReplayKeeps(s: State, n: nat)
    requires Core(s) && DelaysAhead(s) && s.pendingReady == []
    ensures var s' := Replay(s, n);
            && Core(s') && DelaysAhead(s') && s'.pendingReady == []
            && Now(s') == Now(s) + n && s'.tasks == s.tasks && s'.schedulerSuspended == s.schedulerSuspended
    decreases n
  {
    hide Core, DelaysAhead, IncrementTick, SwitchRequired;
    if n > 0 {
      TickKeeps(s);
      var s' := IncrementTick(s);
      YieldKeeps(s', SwitchRequired(s, s'));
      ReplayKeeps(s'.(yieldPending := SwitchRequired(s, s')), n - 1);
    }
  }

  lemma {:induction false} ReplayRefines(s: State, n: nat, u: Task)
    requires Core(s) && DelaysAhead(s) && s.pendingReady == [] && u in s.tasks
    ensures StatusOf(Replay(s, n), u) == if n == 0 then StatusOf(s, u) else Expired(StatusOf(s, u), Now(s) + n)
    decreases n
  {
    hide Core, DelaysAhead, IncrementTick, SwitchRequired;
    if n > 0 {
      TickKeeps(s);
      TickRefines(s, u);
      var s' := IncrementTick(s);
      var b := SwitchRequired(s, s');
      YieldKeeps(s', b);
      assert StatusOf(s'.(yieldPending := b), u) == StatusOf(s', u);
      ReplayRefines(s'.(yieldPending := b), n - 1, u);
    }
  }

  // ----- Blocking

  /** prvAddCurrentTaskToDelayedList() for a wait that can end by time. */
  ghost function DelayCurrent(s: State, wait: Tick): State
    requires WellPlaced(s) && s.current in s.tasks && 0 <= s.cur < 2
  {
    var w := Wrap(s.tickCount + wait);
    var s1 := s.(wake := s.wake[s.current := w]);
    if w < s.tickCount then
      ToDelayList(s1, s.current, 1 - s.cur)
    else
      ToDelayList(s1, s.current, s.cur).(nextTaskUnblockTime :=
        if w < s.nextTaskUnblockTime then w else s.nextTaskUnblockTime)
  }

  /** The running task blocks: on an event list if onEvent, for ever if indefinite and wait is portMAX_DELAY. */
  ghost function Blocked(s: State, wait: Tick, indefinite: bool, onEvent: bool): State
    requires WellPlaced(s) && s.current in s.tasks && 0 <= s.cur < 2
  {
    var s1 := if wait == MAX_DELAY && indefinite then ToEnd(s, s.current, SuspendedList) else DelayCurrent(s, wait);
    s1.(event := s1.event[s.current := if onEvent then EventList else NoList])
  }

  /** Modular wake times are exact: the absolute deadline lies in this epoch or the next. */
  lemma WakeTimeExact(s: State, wait: Tick)
    requires s.tickCount < TICK_MODULUS
    ensures var w := Wrap(s.tickCount + wait);
            Now(s) + wait == (if w < s.tickCount then s.numOfOverflows + 1 else s.numOfOverflows) * TICK_MODULUS + w
    ensures wait > 0 && Wrap(s.tickCount + wait) >= s.tickCount ==> Wrap(s.tickCount + wait) > s.tickCount
  {
  }

  lemma OtherWakeTimes(wake: map<Task, int>, t: Task, w: int, items: seq<Task>)
    requires t !in items
    ensures WakeTimes(wake[t := w], items) == WakeTimes(wake, items)
  {
  }

  /** Everything of the core invariant that does not mention the next unblock time. */
  ghost predicate CoreButNext(s: State) {
    && WellPlaced(s) && ReadyByPriority(s) && EventsConsistent(s) && s.current in s.tasks
    && 0 <= s.cur < 2 && s.tickCount < TICK_MODULUS && DelayListSorted(s, 0) && DelayListSorted(s, 1)
  }

  lemma SetWakeKeepsSorted(s: State, t: Task, w: int, k: nat)
    requires WellPlaced(s) && t in s.tasks && s.place[t].ReadyList? && 0 <= k < 2 && DelayListSorted(s, k)
    ensures DelayListSorted(s.(wake := s.wake[t := w]), k)
  {
    assert t !in s.lists[DelayList(k)].items;
    OtherWakeTimes(s.wake, t, w, s.lists[DelayList(k)].items);
  }

  lemma SetWakeKeeps(s: State, t: Task, w: int)
    requires Core(s) && t in s.tasks && s.place[t].ReadyList?
    ensures CoreButNext(s.(wake := s.wake[t := w]))
  {
    SetWakeKeepsSorted(s, t, w, 0);
    SetWakeKeepsSorted(s, t, w, 1);
    hide ListsAgree, ReadyAgree, EventsAgree, DelayListSorted;
  }

  lemma RelocateKeepsReady(s: State, t: Task, l: Place, k: nat)
    requires WellPlaced(s) && t in s.tasks && l in s.lists && k <= |Rest(s, t, l).items|
    requires !l.ReadyList? && ReadyByPriority(s)
    ensures ReadyByPriority(Relocate(s, t, l, k))
  {
    hide ListsAgree;
  }

  lemma ToDelayListKeeps(s: State, t: Task, k: int)
    requires CoreButNext(s) && t in s.tasks && t in s.wake
    requires 0 <= k < 2 && DelayList(k) in s.lists && DelayList(1 - k) in s.lists
    ensures CoreButNext(ToDelayList(s, t, k))
  {
    hide WellPlaced, ReadyByPriority, EventsConsistent, DelayListSorted, Rest;
    var l := DelayList(k);
    var at := InsertPos(WakeTimes(s.wake, Rest(s, t, l).items), s.wake[t]);
    RelocateKeepsWellPlaced(s, t, l, at);
    RelocateKeepsEvents(s, t, l, at);
    RelocateKeepsReady(s, t, l, at);
    RestSorted(s, t, k);
    ToDelayListSorted(s, t, k);
    RelocateKeepsSorted(s, t, l, at, 1 - k);
  }

  lemma DelayListsExist(s: State)
    requires WellPlaced(s)
    ensures DelayList(0) in s.lists && DelayList(1) in s.lists
  {
  }

  ghost predicate NextBefore(place: map<Task, Place>, wake: map<Task, int>, cur: int, next: int) {
    forall t :: t in place && t in wake && place[t] == DelayList(cur) ==> next <= wake[t] < TICK_MODULUS
  }

  lemma CoreWithNext(s: State, next: Tick)
    requires CoreButNext(s) && NextBefore(s.place, s.wake, s.cur, next)
    ensures Core(s.(nextTaskUnblockTime := next))
  {
    hide ListsAgree, ReadyAgree, EventsAgree, Sorted;
  }

  lemma DelayCurrentKeeps(s: State, wait: Tick)
    requires WellPlaced(s) && s.current in s.tasks && s.current in s.wake && 0 <= s.cur < 2
    requires 0 <= s.nextTaskUnblockTime < TICK_MODULUS && DelayList(0) in s.lists && DelayList(1) in s.lists
    requires CoreButNext(s.(wake := s.wake[s.current := Wrap(s.tickCount + wait)]))
    requires NextBefore(s.place, s.wake, s.cur, s.nextTaskUnblockTime)
    ensures Core(DelayCurrent(s, wait))
  {
    hide CoreButNext, Core, WellPlaced, ToDelayList, Wrap;
    var t, w := s.current, Wrap(s.tickCount + wait);
    var s1 := s.(wake := s.wake[t := w]);
    WellPlacedPart(s1);
    var k := if w < s.tickCount then 1 - s.cur else s.cur;
    ToDelayListKeeps(s1, t, k);
    ToDelayListFrame(s1, t, k);
    var m := ToDelayList(s1, t, k);
    var next := if w < s.tickCount || s.nextTaskUnblockTime <= w then s.nextTaskUnblockTime else w;
    assert DelayCurrent(s, wait) == m.(nextTaskUnblockTime := next);
    hide DelayCurrent;
    CoreWithNext(m, next);
  }

  lemma ToDelayListFrame(s: State, t: Task, k: int)
    requires WellPlaced(s) && t in s.tasks && DelayList(k) in s.lists
    ensures var m := ToDelayList(s, t, k);
            && m.place == s.place[t := DelayList(k)] && m.wake == s.wake && m.cur == s.cur
            && m.nextTaskUnblockTime == s.nextTaskUnblockTime
  {
    hide ListsAgree;
  }

  lemma WellPlacedPart(s: State)
    requires CoreButNext(s)
    ensures WellPlaced(s)
  {
  }

  lemma DelayCurrentKeepsCore(s: State, wait: Tick)
    requires Core(s) && s.place[s.current].ReadyList?
    ensures Core(DelayCurrent(s, wait))
  {
    DelayListsExist(s);
    SetWakeKeeps(s, s.current, Wrap(s.tickCount + wait));
    hide ListsAgree, ReadyAgree, EventsAgree, Sorted, DelayCurrent, CoreButNext;
    DelayCurrentKeeps(s, wait);
  }

  lemma SetEventKeepsCore(s: State, t: Task, onEvent: bool)
    requires Core(s) && t in s.tasks && s.event[t] == NoList && (s.place[t].DelayList? || s.place[t].SuspendedList?)
    ensures Core(s.(event := s.event[t := if onEvent then EventList else NoList]))
  {
    hide ListsAgree, ReadyAgree, Sorted;
  }

  lemma BlockedKeepsCore(s: State, wait: Tick, indefinite: bool, onEvent: bool)
    requires Core(s) && s.place[s.current].ReadyList?
    ensures Core(Blocked(s, wait, indefinite, onEvent))
  {
    var t := s.current;
    if wait == MAX_DELAY && indefinite {
      RestIsValid(s, t, SuspendedList);
      RelocateKeepsCore(s, t, SuspendedList, Rest(s, t, SuspendedList).EndPos());
      hide Core;
      SetEventKeepsCore(ToEnd(s, t, SuspendedList), t, onEvent);
    } else {
      DelayCurrentKeepsCore(s, wait);
      hide Core;
      SetEventKeepsCore(DelayCurrent(s, wait), t, onEvent);
    }
  }

  /** Where blocking leaves the running task's list items. */
  ghost predicate BlockedTo(s: State, s': State, l: Place, w: int, e: EventPlace) {
    && s'.place == s.place[s.current := l] && s'.event == s.event[s.current := e] && s'.wake == s.wake[s.current := w]
    && s'.tasks == s.tasks && s'.tickCount == s.tickCount && s'.numOfOverflows == s.numOfOverflows && s'.cur == s.cur
    && s'.current == s.current && s'.pendedTicks == s.pendedTicks && s'.schedulerSuspended == s.schedulerSuspended
    && s'.pendingReady == Dropped(s.pendingReady, s.current)
  }

  /** Moving an item changes nothing else. */
  lemma RelocateFrame(s: State, s': State, t: Task, l: Place, k: nat)
    requires WellPlaced(s) && t in s.tasks && l in s.lists && k <= |Rest(s, t, l).items| && s' == Relocate(s, t, l, k)
    ensures s' == s.(place := s.place[t := l], event := s.event[t := NoList], pendingReady := Dropped(s.pendingReady, t),
                     lists := s'.lists)
  {
    hide ListsAgree, Rest, Without;
  }

  lemma DelayCurrentForm(s: State, wait: Tick)
    requires WellPlaced(s) && s.current in s.tasks && 0 <= s.cur < 2
    ensures var w, s' := Wrap(s.tickCount + wait), DelayCurrent(s, wait);
            BlockedTo(s, s', DelayList(if w < s.tickCount then 1 - s.cur else s.cur), w, NoList)
  {
    hide Wrap, ToDelayList, ListsAgree;
    var t, w := s.current, Wrap(s.tickCount + wait);
    DelayListsExist(s);
    ToDelayListForm(s.(wake := s.wake[t := w]), t, if w < s.tickCount then 1 - s.cur else s.cur);
  }

  lemma ToDelayListForm(s: State, t: Task, k: int)
    requires WellPlaced(s) && t in s.tasks && DelayList(k) in s.lists
    ensures var s' := ToDelayList(s, t, k);
            s' == s.(place := s.place[t := DelayList(k)], event := s.event[t := NoList],
                     pendingReady := Dropped(s.pendingReady, t), lists := s'.lists)
  {
    hide ListsAgree;
    RelocateFrame(s, ToDelayList(s, t, k), t, DelayList(k), InsertPos(WakeTimes(s.wake, Rest(s, t, DelayList(k)).items), s.wake[t]));
  }

  lemma BlockedForm(s: State, wait: Tick, indefinite: bool, onEvent: bool)
    requires WellPlaced(s) && s.current in s.tasks && 0 <= s.cur < 2
    ensures var w, s' := Wrap(s.tickCount + wait), Blocked(s, wait, indefinite, onEvent);
            var e := if onEvent then EventList else NoList;
            if wait == MAX_DELAY && indefinite then BlockedTo(s, s', SuspendedList, s.wake[s.current], e)
            else BlockedTo(s, s', DelayList(if w < s.tickCount then 1 - s.cur else s.cur), w, e)
  {
    DelayListsExist(s);
    DelayCurrentForm(s, wait);
    hide DelayCurrent, Relocate;
    RestIsValid(s, s.current, SuspendedList);
    RelocateFrame(s, ToEnd(s, s.current, SuspendedList), s.current, SuspendedList, Rest(s, s.current, SuspendedList).EndPos());
  }

  lemma BlockedToStatus(s: State, s': State, l: Place, w: int, e: EventPlace, u: Task)
    requires BlockedTo(s, s', l, w, e) && e != PendingReadyList && !l.ReadyList? && !l.TerminationList?
    requires s.place.Keys == s.wake.Keys == s.event.Keys == s.tasks && u in s.tasks && s.current in s.tasks
    ensures StatusOf(s', u) ==
            if u != s.current then StatusOf(s, u)
            else if l.SuspendedList? then (if e == EventList then Waiting else Suspended)
            else Delayed((if l.k == s.cur then s.numOfOverflows else s.numOfOverflows + 1) * TICK_MODULUS + w)
  {
  }

  /** The statuses after the running task has blocked. */
  lemma BlockedStatus(s: State, wait: Tick, indefinite: bool, onEvent: bool, u: Task)
    requires WellPlaced(s) && s.current in s.tasks && 0 <= s.cur < 2 && s.tickCount < TICK_MODULUS && u in s.tasks
    ensures StatusOf(Blocked(s, wait, indefinite, onEvent), u) ==
            if u != s.current then StatusOf(s, u)
            else if wait == MAX_DELAY && indefinite then (if onEvent then Waiting else Suspended)
            else Delayed(Now(s) + wait)
  {
    BlockedForm(s, wait, indefinite, onEvent);
    WakeTimeExact(s, wait);
    hide Blocked, ListsAgree, StatusOf, BlockedTo, Wrap, Now;
    var w, e := Wrap(s.tickCount + wait), if onEvent then EventList else NoList;
    if wait == MAX_DELAY && indefinite {
      BlockedToStatus(s, Blocked(s, wait, indefinite, onEvent), SuspendedList, s.wake[s.current], e, u);
    } else {
      var l := DelayList(if w < s.tickCount then 1 - s.cur else s.cur);
      BlockedToStatus(s, Blocked(s, wait, indefinite, onEvent), l, w, e, u);
    }
  }

  /**
  Exactly when blocking keeps wake times ahead of the tick count: a wait of no ticks is harmless
  unless the tick count is about to wrap, when it would leave the task in the list to be switched.
  */
  lemma BlockedAhead(s: State, wait: Tick, indefinite: bool, onEvent: bool)
    requires WellPlaced(s) && s.current in s.tasks && 0 <= s.cur < 2 && s.tickCount < TICK_MODULUS && DelaysAhead(s)
    ensures DelaysAhead(Blocked(s, wait, indefinite, onEvent)) <==> !(wait == 0 && s.tickCount == MAX_DELAY)
  {
    BlockedForm(s, wait, indefinite, onEvent);
    WakeTimeExact(s, wait);
    hide Blocked, ListsAgree;
    var s' := Blocked(s, wait, indefinite, onEvent);
    if wait == 0 && s.tickCount == MAX_DELAY {
      assert s'.place[s.current] == DelayList(s'.cur);
    }
  }

  // ----- Waking, suspending and resuming single tasks

  predicate OutranksCurrent(s: State, t: Task) {
    PriorityOf(s, t) > PriorityOf(s, s.current)
  }

  /** xTaskRemoveFromEventList() for the task t at the head of the event list. */
  ghost function EventGiven(s: State, t: Task): State
    requires WellPlaced(s) && t in s.tasks && ReadyList(s.priority[t]) in s.lists
  {
    var s1 := if s.schedulerSuspended == 0 then MakeReady(s, t)
              else s.(event := s.event[t := PendingReadyList], pendingReady := s.pendingReady + [t]);
    s1.(yieldPending := s.yieldPending || OutranksCurrent(s, t))
  }

  /** eTaskGetState() says eBlocked. */
  predicate IsBlocked(s: State, t: Task) {
    t != s.current && (StatusOf(s, t).Delayed? || StatusOf(s, t) == Waiting)
  }

  /** prvTaskIsTaskSuspended() */
  predicate IsSuspended(s: State, t: Task) {
    t in s.place && t in s.event && s.place[t] == SuspendedList && s.event[t] == NoList
  }

  /** The critical part of xTaskAbortDelay(), inside its own scheduler suspension. */
  ghost function DelayAborted(s: State, t: Task): State
    requires WellPlaced(s) && t in s.tasks && ReadyList(s.priority[t]) in s.lists
  {
    if IsBlocked(s, t) then MakeReady(s, t).(yieldPending := s.yieldPending || OutranksCurrent(s, t)) else s
  }

  /** vTaskSuspend() */
  ghost function TaskSuspended(s: State, t: Task): State
    requires WellPlaced(s) && t in s.tasks && SuspendedList in s.lists
  {
    ResetNext(ToEnd(s, t, SuspendedList))
  }

  /** vTaskResume() */
  ghost function TaskResumed(s: State, t: Task): State
    requires WellPlaced(s) && t in s.tasks && ReadyList(s.priority[t]) in s.lists
  {
    if t != s.current && IsSuspended(s, t) then MakeReady(s, t) else s
  }

  /** xTaskResumeFromISR() */
  ghost function TaskResumedFromISR(s: State, t: Task): State
    requires WellPlaced(s) && t in s.tasks && ReadyList(s.priority[t]) in s.lists
  {
    if !IsSuspended(s, t) then s
    else if s.schedulerSuspended == 0 then MakeReady(s, t).(yieldPending := s.yieldPending || OutranksCurrent(s, t))
    else s.(event := s.event[t := PendingReadyList], pendingReady := s.pendingReady + [t])
  }

  lemma MakeReadyAhead(s: State, t: Task)
    requires WellPlaced(s) && t in s.tasks && ReadyList(s.priority[t]) in s.lists
    ensures DelaysAhead(s) ==> DelaysAhead(MakeReady(s, t))
    ensures s.pendingReady == [] ==> MakeReady(s, t).pendingReady == []
  {
    hide ListsAgree;
  }

  lemma MakeReadyKeeps(s: State, t: Task)
    requires Core(s) && t in s.tasks
    ensures Core(MakeReady(s, t))
    ensures DelaysAhead(s) ==> DelaysAhead(MakeReady(s, t))
    ensures s.pendingReady == [] ==> MakeReady(s, t).pendingReady == []
  {
    MakeReadyKeepsCore(s, t);
    MakeReadyAhead(s, t);
  }

  lemma MakeReadyStatus(s: State, t: Task, u: Task)
    requires WellPlaced(s) && t in s.tasks && ReadyList(s.priority[t]) in s.lists && u in s.tasks
    ensures StatusOf(MakeReady(s, t), u) == if u == t then Ready else StatusOf(s, u)
  {
    hide ListsAgree;
  }

  /** Holding a blocked or suspended task on the pending ready list. */
  lemma PendingKeeps(s: State, t: Task)
    requires Core(s) && t in s.tasks && s.event[t] != PendingReadyList
    requires s.place[t].DelayList? || s.place[t].SuspendedList?
    ensures var s' := s.(event := s.event[t := PendingReadyList], pendingReady := s.pendingReady + [t]);
            Core(s') && (DelaysAhead(s) ==> DelaysAhead(s'))
  {
    hide ListsAgree, ReadyAgree, Sorted;
    assert t !in s.pendingReady;
    DistinctIndices(s.pendingReady);
    DistinctIndices(s.pendingReady + [t]);
  }

  lemma ListsExist(s: State, t: Task)
    requires Core(s) && t in s.tasks
    ensures ReadyList(s.priority[t]) in s.lists && SuspendedList in s.lists && TerminationList in s.lists
  {
  }

  lemma EventGivenKeeps(s: State, t: Task)
    requires Inv(s) && t in s.tasks && s.event[t] == EventList
    ensures ReadyList(s.priority[t]) in s.lists && Inv(EventGiven(s, t))
  {
    ListsExist(s, t);
    if s.schedulerSuspended == 0 {
      MakeReadyKeeps(s, t);
      hide Core, DelaysAhead;
      YieldKeeps(MakeReady(s, t), s.yieldPending || OutranksCurrent(s, t));
    } else {
      PendingKeeps(s, t);
      hide Core, DelaysAhead;
      YieldKeeps(s.(event := s.event[t := PendingReadyList], pendingReady := s.pendingReady + [t]),
        s.yieldPending || OutranksCurrent(s, t));
    }
  }

  lemma DelayAbortedKeeps(s: State, t: Task)
    requires Inv(s) && t in s.tasks
    ensures ReadyList(s.priority[t]) in s.lists && Inv(DelayAborted(s, t))
  {
    ListsExist(s, t);
    if IsBlocked(s, t) {
      MakeReadyKeeps(s, t);
      hide Core, DelaysAhead;
      YieldKeeps(MakeReady(s, t), s.yieldPending || OutranksCurrent(s, t));
    }
  }

  lemma TaskSuspendedKeeps(s: State, t: Task)
    requires Inv(s) && t in s.tasks
    ensures SuspendedList in s.lists && Inv(TaskSuspended(s, t))
  {
    ListsExist(s, t);
    RestIsValid(s, t, SuspendedList);
    var s1 := ToEnd(s, t, SuspendedList);
    RelocateKeepsCore(s, t, SuspendedList, Rest(s, t, SuspendedList).EndPos());
    assert DelaysAhead(s1) by {
      hide ListsAgree, ReadyByPriority, DelaysSorted, EventsConsistent;
    }
    hide Core, DelaysAhead;
    ResetNextKeeps(s1);
  }

  lemma TaskSuspendedStatus(s: State, t: Task, u: Task)
    requires WellPlaced(s) && t in s.tasks && SuspendedList in s.lists && u in s.tasks
    ensures StatusOf(TaskSuspended(s, t), u) == if u == t then Suspended else StatusOf(s, u)
  {
    hide ListsAgree;
  }

  lemma TaskResumedKeeps(s: State, t: Task)
    requires Inv(s) && t in s.tasks
    ensures ReadyList(s.priority[t]) in s.lists && Inv(TaskResumed(s, t))
  {
    ListsExist(s, t);
    MakeReadyKeeps(s, t);
    hide Core, DelaysAhead;
  }

  lemma TaskResumedFromISRKeeps(s: State, t: Task)
    requires Inv(s) && t in s.tasks
    ensures ReadyList(s.priority[t]) in s.lists && Inv(TaskResumedFromISR(s, t))
  {
    ListsExist(s, t);
    if IsSuspended(s, t) {
      if s.schedulerSuspended == 0 {
        MakeReadyKeeps(s, t);
        hide Core, DelaysAhead;
        YieldKeeps(MakeReady(s, t), s.yieldPending || OutranksCurrent(s, t));
      } else {
        PendingKeeps(s, t);
        hide Core, DelaysAhead;
      }
    }
  }

  // ----- Creating and deleting tasks, changing priorities

  /** prvAddNewTaskToReadyList() while the scheduler runs. */
  ghost function Created(s: State, t: Task, p: int): State
    requires ReadyList(p) in s.lists && s.lists[ReadyList(p)].idx <= |s.lists[ReadyList(p)].items|
  {
    s.(tasks := s.tasks + {t},
       priority := s.priority[t := p], wake := s.wake[t := 0],
       place := s.place[t := ReadyList(p)], event := s.event[t := NoList],
       lists := s.lists[ReadyList(p) := s.lists[ReadyList(p)].InsertEnd(t)],
       topReadyPriority := if p > s.topReadyPriority then p else s.topReadyPriority)
  }

  /** vTaskDelete(): the running task waits for the idle task to clean it up; any other is gone at once. */
  ghost function TaskDeleted(s: State, t: Task): State
    requires WellPlaced(s) && t in s.tasks && TerminationList in s.lists
  {
    if t == s.current then ToEnd(s, t, TerminationList) else ResetNext(Forgotten(s, t))
  }

  /** Every trace of task t removed. */
  ghost function Forgotten(s: State, t: Task): State
    requires WellPlaced(s) && t in s.tasks
  {
    s.(tasks := s.tasks - {t},
       priority := s.priority - {t}, wake := s.wake - {t}, place := s.place - {t}, event := s.event - {t},
       pendingReady := Dropped(s.pendingReady, t),
       lists := s.lists[s.place[t] := Without(s.lists[s.place[t]], t)])
  }

  /** The part of vTaskPrioritySet() and of priority inheritance that changes the priority in use. */
  ghost function PriorityChanged(s: State, t: Task, p: int): State
    requires WellPlaced(s) && t in s.tasks && ReadyList(p) in s.lists
  {
    var s1 := s.(priority := s.priority[t := p]);
    if s.place[t] == ReadyList(s.priority[t]) then MakeReady(s1, t) else s1
  }

  lemma CreatedKeepsWellPlaced(s: State, t: Task, p: int)
    requires WellPlaced(s) && t !in s.tasks && 0 <= p < MAX_PRIORITIES
    ensures ReadyList(p) in s.lists && s.lists[ReadyList(p)].Valid()
    ensures WellPlaced(Created(s, t, p))
  {
    var l := ReadyList(p);
    assert l in s.lists && t !in s.lists[l].items;
    InsertMembers(s.lists[l], s.lists[l].EndPos(), t);
    AddedAgree(s.place, s.lists, t, l, s.lists[l].InsertEnd(t));
    hide ListsAgree;
  }

  /** A list may grow by a task that was in none. */
  lemma AddedAgree(place: map<Task, Place>, lists: map<Place, Ring<Task>>, t: Task, l: Place, r: Ring<Task>)
    requires ListsAgree(place, lists) && t !in place && l in lists && r.Valid()
    requires forall u :: u in r.items <==> u == t || u in lists[l].items
    ensures ListsAgree(place[t := l], lists[l := r])
  {
  }

  lemma CreatedKeepsRest(s: State, t: Task, p: int)
    requires Core(s) && t !in s.tasks && 0 <= p < MAX_PRIORITIES && ReadyList(p) in s.lists && s.lists[ReadyList(p)].Valid()
    requires WellPlaced(Created(s, t, p)) && DelayListSorted(Created(s, t, p), 0) && DelayListSorted(Created(s, t, p), 1)
    ensures Core(Created(s, t, p)) && (DelaysAhead(s) ==> DelaysAhead(Created(s, t, p)))
  {
    hide ListsAgree, DelayListSorted;
  }

  lemma CreatedKeeps(s: State, t: Task, p: int)
    requires Inv(s) && t !in s.tasks && 0 <= p < MAX_PRIORITIES
    ensures ReadyList(p) in s.lists && s.lists[ReadyList(p)].Valid()
    ensures Inv(Created(s, t, p))
  {
    hide ListsAgree, ReadyAgree, EventsAgree, Sorted;
    CreatedKeepsWellPlaced(s, t, p);
    CreatedKeepsSorted(s, t, p, 0);
    CreatedKeepsSorted(s, t, p, 1);
    CreatedKeepsRest(s, t, p);
  }

  lemma CreatedKeepsSorted(s: State, t: Task, p: nat, k: nat)
    requires WellPlaced(s) && t !in s.tasks && ReadyList(p) in s.lists && 0 <= k < 2 && DelayListSorted(s, k)
    ensures DelayListSorted(Created(s, t, p), k)
  {
    assert t !in s.lists[DelayList(k)].items;
    OtherWakeTimes(s.wake, t, 0, s.lists[DelayList(k)].items);
  }

  lemma PriorityChangedKeeps(s: State, t: Task, p: int)
    requires Inv(s) && t in s.tasks && 0 <= p < MAX_PRIORITIES
    ensures ReadyList(p) in s.lists && Inv(PriorityChanged(s, t, p))
  {
    var s1 := s.(priority := s.priority[t := p]);
    PriorityChangedCore(s, t, p);
    assert ReadyList(p) in s.lists;
    if s.place[t] == ReadyList(s.priority[t]) {
      hide Core, CoreButReady, ListsAgree;
      MakeReadyMoves(s1, t);
      MakeReadyAhead(s1, t);
    } else {
      hide ListsAgree, Sorted;
    }
  }

  lemma PriorityChangedCore(s: State, t: Task, p: int)
    requires Core(s) && t in s.tasks && 0 <= p < MAX_PRIORITIES
    ensures CoreButReady(s.(priority := s.priority[t := p]), t)
  {
    hide ListsAgree, Sorted, EventsAgree;
  }

  lemma ForgottenMembers(s: State, t: Task, l: Place, u: Task)
    requires WellPlaced(s) && t in s.tasks && l in s.lists
    ensures var r := Forgotten(s, t).lists[l];
            r.Valid() && (u in r.items <==> u in s.place && s.place[u] == l && u != t)
  {
    RestIsValid(s, t, l);
  }

  lemma ForgottenKeepsWellPlaced(s: State, t: Task)
    requires WellPlaced(s) && t in s.tasks
    ensures WellPlaced(Forgotten(s, t))
  {
    var s' := Forgotten(s, t);
    forall l, u {:trigger u in s'.lists[l].items} | l in s.lists
      ensures u in s'.lists[l].items <==> u in s'.place && s'.place[u] == l
    {
      ForgottenMembers(s, t, l, u);
    }
    forall l | l in s.lists
      ensures s'.lists[l].Valid()
    {
      ForgottenMembers(s, t, l, t);
    }
  }

  lemma ForgottenKeepsSorted(s: State, t: Task, k: nat)
    requires WellPlaced(s) && t in s.tasks && 0 <= k < 2 && DelayListSorted(s, k)
    ensures DelayListSorted(Forgotten(s, t), k)
  {
    var l := DelayList(k);
    assert l in s.lists;
    RestSorted(s, t, k);
    var items := Rest(s, t, l).items;
    RestIsValid(s, t, l);
    assert Forgotten(s, t).lists[l].items == items;
    assert WakeTimes(s.wake - {t}, items) == WakeTimes(s.wake, items);
  }

  lemma ForgottenKeepsEvents(s: State, t: Task)
    requires WellPlaced(s) && EventsConsistent(s) && t in s.tasks
    ensures EventsConsistent(Forgotten(s, t))
  {
    DroppedMembers(s.pendingReady, t);
    hide ListsAgree;
  }

  lemma ForgottenKeepsRest(s: State, t: Task)
    requires Core(s) && t in s.tasks && t != s.current
    requires WellPlaced(Forgotten(s, t)) && DelayListSorted(Forgotten(s, t), 0) && DelayListSorted(Forgotten(s, t), 1)
    ensures Core(Forgotten(s, t)) && (DelaysAhead(s) ==> DelaysAhead(Forgotten(s, t)))
  {
    ForgottenKeepsEvents(s, t);
    hide ListsAgree, DelayListSorted, EventsConsistent, Dropped;
  }

  lemma TaskDeletedKeeps(s: State, t: Task)
    requires Inv(s) && t in s.tasks
    ensures TerminationList in s.lists && Inv(TaskDeleted(s, t))
  {
    ListsExist(s, t);
    if t == s.current {
      RestIsValid(s, t, TerminationList);
      RelocateKeepsCore(s, t, TerminationList, Rest(s, t, TerminationList).EndPos());
      hide ListsAgree, ReadyByPriority, DelaysSorted, EventsConsistent;
    } else {
      ForgottenKeepsWellPlaced(s, t);
      ForgottenKeepsSorted(s, t, 0);
      ForgottenKeepsSorted(s, t, 1);
      hide ListsAgree, ReadyAgree, EventsAgree, Sorted;
      ForgottenKeepsRest(s, t);
      hide Core, DelaysAhead;
      ResetNextKeeps(Forgotten(s, t));
    }
  }

  /** The idle task frees a task that deleted itself: it is in the termination list only. */
  lemma ForgottenKeeps(s: State, t: Task)
    requires Inv(s) && t in s.tasks && s.place[t] == TerminationList && t != s.current
    ensures Inv(Forgotten(s, t)) && Forgotten(s, t).current == s.current
  {
    ForgottenKeepsWellPlaced(s, t);
    ForgottenKeepsSorted(s, t, 0);
    ForgottenKeepsSorted(s, t, 1);
    ForgottenPending(s, t);
    hide ListsAgree, ReadyAgree, EventsAgree, Sorted;
    ForgottenKeepsRest(s, t);
    hide Core, DelaysAhead;
  }

  lemma ForgottenPending(s: State, t: Task)
    requires Core(s) && t in s.tasks && s.place[t] == TerminationList
    ensures Forgotten(s, t).pendingReady == s.pendingReady
  {
    hide ListsAgree, ReadyByPriority, DelaysSorted, Without;
  }

  /** The head of the termination list, and the list without it. */
  lemma TerminationHead(s: State)
    requires Core(s)
    ensures TerminationList in s.lists
    ensures s.lists[TerminationList].items != [] ==>
              var t := s.lists[TerminationList].items[0];
              && t in s.tasks && s.place[t] == TerminationList
              && Forgotten(s, t).lists[TerminationList].items == s.lists[TerminationList].items[1..]
  {
    assert TerminationList in s.lists;
    var items := s.lists[TerminationList].items;
    if items != [] {
      var t := items[0];
      assert t in items;
      assert PositionOf(items, t) == 0;
      assert items[..0] + items[1..] == items[1..];
    }
  }

  // ----- Choosing the task to run

  /** The search loop of taskSELECT_HIGHEST_PRIORITY_TASK(). */
  function TopReady(s: State, top: nat): (p: nat) {
    if Items(s, ReadyList(top)) != [] || top == 0 then top else TopReady(s, top - 1)
  }

  /** vTaskSwitchContext() */
  ghost function Switched(s: State): State
    requires Core(s) && exists t :: t in s.tasks && s.place[t].ReadyList?
  {
    if s.schedulerSuspended != 0 then s.(yieldPending := true)
    else
      SelectionIsMaximal(s);
      var p := TopReady(s, s.topReadyPriority);
      var r := s.lists[ReadyList(p)].Next();
      s.(yieldPending := false, lists := s.lists[ReadyList(p) := r], current := r.Current(), topReadyPriority := p)
  }

  lemma {:induction false} TopReadyFinds(s: State, top: nat, t: Task)
    requires Core(s) && top < MAX_PRIORITIES
    requires t in s.tasks && s.place[t].ReadyList? && s.priority[t] <= top
    ensures s.priority[t] <= TopReady(s, top) <= top
    ensures Items(s, ReadyList(TopReady(s, top))) != []
  {
    if s.priority[t] == top {
      assert t in s.lists[ReadyList(top)].items;
    } else if Items(s, ReadyList(top)) == [] {
      TopReadyFinds(s, top - 1, t);
    }
  }

  /** The search ends at a list that is not empty, and no ready task has a higher priority. */
  lemma SelectionIsMaximal(s: State)
    requires Core(s) && exists t :: t in s.tasks && s.place[t].ReadyList?
    ensures var p := TopReady(s, s.topReadyPriority);
            && ReadyList(p) in s.lists && s.lists[ReadyList(p)].items != [] && s.lists[ReadyList(p)].Valid()
            && forall t :: t in s.tasks && s.place[t].ReadyList? ==> s.priority[t] <= p
  {
    forall t | t in s.tasks && s.place[t].ReadyList?
      ensures s.priority[t] <= TopReady(s, s.topReadyPriority) <= s.topReadyPriority
      ensures Items(s, ReadyList(TopReady(s, s.topReadyPriority))) != []
    {
      TopReadyFinds(s, s.topReadyPriority, t);
    }
  }

  lemma SteppedKeepsWellPlaced(s: State, l: Place)
    requires WellPlaced(s) && l in s.lists && s.lists[l].items != []
    ensures WellPlaced(s.(lists := s.lists[l := s.lists[l].Next()]))
    ensures s.lists[l].Next().Current() in s.place && s.place[s.lists[l].Next().Current()] == l
  {
    var c := s.lists[l].Next().Current();
    assert c in s.lists[l].items <==> c in s.place && s.place[c] == l;
  }

  /** Core does not depend on the walk index of a ready list, nor on which task is running. */
  lemma SelectKeepsCore(s: State, p: int, lists: map<Place, Ring<Task>>, c: Task)
    requires Core(s) && 0 <= p < MAX_PRIORITIES && ListsAgree(s.place, lists) && c in s.tasks
    requires forall t :: t in s.place && s.place[t].ReadyList? ==> s.place[t].p <= p
    requires forall k :: DelayList(k) in lists ==> DelayList(k) in s.lists && lists[DelayList(k)] == s.lists[DelayList(k)]
    ensures Core(s.(yieldPending := false, lists := lists, current := c, topReadyPriority := p))
  {
    DelayListsExist(s);
    assert DelayList(0) in lists && DelayList(1) in lists;
    hide ListsAgree, EventsAgree, Sorted;
  }

  lemma SwitchedKeepsCore(s: State)
    requires Core(s) && (exists t :: t in s.tasks && s.place[t].ReadyList?) && s.schedulerSuspended == 0
    ensures Core(Switched(s)) && Switched(s).current in s.tasks
    ensures s.place[Switched(s).current] == ReadyList(TopReady(s, s.topReadyPriority))
  {
    SelectionIsMaximal(s);
    var p := TopReady(s, s.topReadyPriority);
    SteppedKeepsWellPlaced(s, ReadyList(p));
    assert 0 <= p < MAX_PRIORITIES;
    hide ListsAgree, ReadyAgree, EventsAgree, DelaysSorted, TopReady;
    var r := s.lists[ReadyList(p)].Next();
    SelectKeepsCore(s, p, s.lists[ReadyList(p) := r], r.Current());
  }

  /** A context switch runs a ready task that no ready task outranks, and changes no status. */
  lemma SwitchedKeeps(s: State)
    requires Inv(s) && exists t :: t in s.tasks && s.place[t].ReadyList?
    ensures Inv(Switched(s))
    ensures forall u :: u in s.tasks ==> StatusOf(Switched(s), u) == StatusOf(s, u)
  {
    hide ListsAgree, ReadyAgree, EventsAgree, Sorted, TopReady;
    if s.schedulerSuspended == 0 {
      SwitchedKeepsCore(s);
    }
  }

  lemma SwitchedToHighest(s: State)
    requires Inv(s) && s.schedulerSuspended == 0 && exists t :: t in s.tasks && s.place[t].ReadyList?
    ensures var c := Switched(s).current;
            && c in s.tasks && StatusOf(s, c) == Ready
            && forall t :: t in s.tasks && StatusOf(s, t) == Ready ==> PriorityOf(s, t) <= PriorityOf(s, c)
  {
    SelectionIsMaximal(s);
    SwitchedKeepsCore(s);
    hide ListsAgree, Sorted, TopReady;
  }

  // ----- Every task counted once

  function AllPlaces(): seq<Place> {
    seq(MAX_PRIORITIES, i => ReadyList(i)) + [DelayList(0), DelayList(1), SuspendedList, TerminationList]
  }

  /** listCURRENT_LIST_LENGTH() summed over some lists. */
  function SumOfLengths(s: State, ps: seq<Place>): nat {
    if ps == [] then 0 else |Items(s, ps[0])| + SumOfLengths(s, ps[1..])
  }

  lemma {:induction false} DistinctCount<T>(q: seq<T>)
    requires Distinct(q)
    ensures |set x | x in q| == |q|
  {
    if q != [] {
      DistinctCount(q[1..]);
      assert (set x | x in q) == {q[0]} + set x | x in q[1..];
    }
  }

  ghost function TasksIn(s: State, ps: seq<Place>): set<Task> {
    set t | t in s.place && s.place[t] in ps
  }

  lemma OneListCounts(s: State, l: Place)
    requires WellPlaced(s) && l in s.lists
    ensures |Items(s, l)| == |TasksIn(s, [l])|
  {
    DistinctCount(s.lists[l].items);
    var here := set t | t in s.lists[l].items;
    forall t
      ensures t in here <==> t in TasksIn(s, [l])
    {
      assert t in s.lists[l].items <==> t in s.place && s.place[t] == l;
    }
    assert TasksIn(s, [l]) == here;
  }

  lemma {:induction false} SumCountsTasks(s: State, ps: seq<Place>)
    requires WellPlaced(s) && Distinct(ps) && forall l :: l in ps ==> l in s.lists
    ensures SumOfLengths(s, ps) == |TasksIn(s, ps)|
  {
    if ps == [] {
      assert TasksIn(s, ps) == {};
    } else {
      OneListCounts(s, ps[0]);
      hide ListsAgree, Items;
      assert forall l :: l in ps[1..] ==> l in ps;
      SumCountsTasks(s, ps[1..]);
      var here, rest := TasksIn(s, [ps[0]]), TasksIn(s, ps[1..]);
      assert TasksIn(s, ps) == here + rest && here !! rest;
    }
  }

  lemma AllPlacesAreLists()
    ensures Distinct(AllPlaces())
    ensures forall l :: l in AllPlaces() <==> IsList(l)
  {
    var ps := AllPlaces();
    DistinctIndices(ps);
    forall l | IsList(l)
      ensures l in ps
    {
      match l
      case ReadyList(p) => assert ps[p] == l;
      case DelayList(k) => assert ps[MAX_PRIORITIES + k] == l;
      case SuspendedList => assert ps[MAX_PRIORITIES + 2] == l;
      case TerminationList => assert ps[MAX_PRIORITIES + 3] == l;
    }
  }

  /** The lengths of all state lists add up to the number of tasks. */
  lemma LengthsAddUp(s: State)
    requires Core(s)
    ensures SumOfLengths(s, AllPlaces()) == |s.tasks|
  {
    hide ReadyByPriority, DelaysSorted, EventsConsistent, AllPlaces;
    AllPlacesAreLists();
    SumCountsTasks(s, AllPlaces());
    forall t
      ensures t in s.tasks <==> t in TasksIn(s, AllPlaces())
    {
      assert t in s.place ==> s.place[t] in s.lists;
    }
    assert TasksIn(s, AllPlaces()) == s.tasks;
  }
}
