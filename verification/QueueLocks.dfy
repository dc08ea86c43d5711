/** How tasks block on a queue and are woken (rtos/source/queue.c), as interleaved steps. */
module QueueLocks {
  import opened Config
  import opened Lists

  // A step is one critical section of a task or one interrupt.  A task that will block suspends
  // the scheduler and locks the queue, so between its steps only interrupts run; while the queue
  // is locked an interrupt leaves the event lists alone and counts what it did instead.  The
  // claim is that no wakeup is lost by this, in any interleaving.

  const UNLOCKED := -1

  /**
  One side of a queue: the tasks that wait for units of something (items for receivers, free
  slots for senders), the count of units that came while the queue was locked, and the tasks
  that were taken off the event list but have not yet looked at the queue again.
  */
  datatype Half = Half(waiting: seq<Task>, lock: int, woken: set<Task>)

  datatype Side = Receiving | Sending

  /** Where the task that holds the lock, if any, is in its code. */
  datatype Phase =
    | Idle
    | Locked(t: Task, side: Side)    // the queue is locked, nothing checked yet
    | Placing(t: Task, side: Side)   // it was found empty (or full): t is about to join the event list
    | UnlockingTx
    | UnlockingRx

  /** `receivers.lock` is cTxLock (items sent); `senders.lock` is cRxLock (items received). */
  datatype Queue = Queue(length: int, items: int, receivers: Half, senders: Half,
                         phase: Phase, tasks: set<Task>, priority: map<Task, int>)

  function Free(q: Queue): int {
    q.length - q.items
  }

  function HalfOf(q: Queue, side: Side): Half {
    if side.Receiving? then q.receivers else q.senders
  }

  function UnitsOf(q: Queue, side: Side): int {
    if side.Receiving? then q.items else Free(q)
  }

  // ----- What happens to one side

  /** The head of the event list, the longest waiting task of the highest priority, is woken. */
  function WakeOne(h: Half): Half {
    if h.waiting == [] then h else h.(waiting := h.waiting[1..], woken := h.woken + {h.waiting[0]})
  }

  function WakeMany(h: Half, n: nat): Half
    decreases n
  {
    if n == 0 then h else WakeMany(WakeOne(h), n - 1)
  }

  /** A unit arrives from an interrupt: prvIncrementQueueTxLock() or prvIncrementQueueRxLock() if locked. */
  function Posted(h: Half, cap: int): Half {
    if h.lock == UNLOCKED then WakeOne(h)
    else if h.lock < cap then h.(lock := h.lock + 1)
    else h
  }

  function Lock(h: Half): Half {
    if h.lock == UNLOCKED then h.(lock := 0) else h
  }

  /** One critical section of prvUnlockQueue(). */
  function Unlocked(h: Half): Half {
    WakeMany(h, if h.lock > 0 then h.lock else 0).(lock := UNLOCKED)
  }

  /** The task looks at the queue again. */
  function Rechecked(h: Half, t: Task): Half {
    h.(woken := h.woken - {t})
  }

  /** The task no longer waits, nor will it look at the queue again unless it is resumed. */
  function Gone(h: Half, t: Task): Half {
    h.(waiting := Dropped(h.waiting, t), woken := h.woken - {t})
  }

  /** The event list item values: the highest priority has the lowest value. */
  function Ranks(priority: map<Task, int>, s: seq<Task>): (v: seq<int>)
    ensures |v| == |s|
  {
    seq(|s|, i requires 0 <= i < |s| => Rank(priority, s[i]))
  }

  function Rank(priority: map<Task, int>, t: Task): int {
    MAX_PRIORITIES - if t in priority then priority[t] else 0
  }

  /** vTaskPlaceOnEventList() */
  function Placed(h: Half, t: Task, priority: map<Task, int>): Half {
    h.(waiting := Splice(h.waiting, InsertPos(Ranks(priority, h.waiting), Rank(priority, t)), t))
  }

  // ----- The steps

  datatype Step =
    | Send(t: Task, overwrite: bool)
    | Receive(t: Task)
    | Peek(t: Task)
    | SendFromISR(overwrite: bool)
    | ReceiveFromISR
    | LockQueue(t: Task, side: Side)
    | Check(timedOut: bool)          // xTaskCheckForTimeOut() and, if there is time left, prvIsQueueEmpty() or prvIsQueueFull()
    | Place
    | UnlockTx
    | UnlockRx
    | Unlist(t: Task)                // a time-out or an aborted delay
    | Create(t: Task, p: int)
    | Suspend(t: Task)               // of a task that waits, or was woken and has not looked yet, or neither
    | Delete(t: Task)                // likewise
    | Reset                          // xQueueGenericReset()

  predicate Enabled(q: Queue, step: Step) {
    match step
    case Send(t, overwrite) => q.phase.Idle? && CanRun(q, t) && (overwrite ==> q.length == 1)
    case Receive(t) => q.phase.Idle? && CanRun(q, t)
    case Peek(t) => q.phase.Idle? && CanRun(q, t)
    case SendFromISR(overwrite) => overwrite ==> q.length == 1
    case ReceiveFromISR => true
    case LockQueue(t, side) => q.phase.Idle? && CanRun(q, t) && t !in q.receivers.woken && t !in q.senders.woken
    case Check(timedOut) => q.phase.Locked?
    case Place => q.phase.Placing?
    case UnlockTx => q.phase.UnlockingTx?
    case UnlockRx => q.phase.UnlockingRx?
    case Unlist(t) => q.phase.Idle?
    case Create(t, p) => q.phase.Idle? && t !in q.tasks && 0 <= p < MAX_PRIORITIES
    case Suspend(t) => q.phase.Idle?
    case Delete(t) => q.phase.Idle?
    case Reset => q.phase.Idle?
  }

  /** A task on an event list does not run. */
  predicate CanRun(q: Queue, t: Task) {
    t in q.tasks && t !in q.receivers.waiting && t !in q.senders.waiting
  }

  /** The count after prvCopyDataToQueue(). */
  function Copied(q: Queue, overwrite: bool): int {
    if overwrite && q.items > 0 then q.items else q.items + 1
  }

  function HasRoom(q: Queue, overwrite: bool): bool {
    q.items < q.length || overwrite
  }

  function Apply(q: Queue, step: Step): Queue {
    match step
    case Send(t, overwrite) =>
      var q1 := q.(senders := Rechecked(q.senders, t));
      if HasRoom(q, overwrite) then q1.(items := Copied(q, overwrite), receivers := WakeOne(q.receivers)) else q1
    case Receive(t) =>
      var q1 := q.(receivers := Rechecked(q.receivers, t));
      if q.items > 0 then q1.(items := q.items - 1, senders := WakeOne(q.senders)) else q1
    case Peek(t) =>
      var h := Rechecked(q.receivers, t);
      q.(receivers := if q.items > 0 then WakeOne(h) else h)
    case SendFromISR(overwrite) =>
      if HasRoom(q, overwrite) then q.(items := Copied(q, overwrite), receivers := Posted(q.receivers, |q.tasks|)) else q
    case ReceiveFromISR =>
      if q.items > 0 then q.(items := q.items - 1, senders := Posted(q.senders, |q.tasks|)) else q
    case LockQueue(t, side) =>
      q.(receivers := Lock(q.receivers), senders := Lock(q.senders), phase := Locked(t, side))
    case Check(timedOut) =>
      if q.phase.Locked? && !timedOut && UnitsOf(q, q.phase.side) == 0 then q.(phase := Placing(q.phase.t, q.phase.side))
      else q.(phase := UnlockingTx)
    case Place =>
      (match q.phase
       case Placing(t, side) =>
         if side.Receiving? then q.(receivers := Placed(q.receivers, t, q.priority), phase := UnlockingTx)
         else q.(senders := Placed(q.senders, t, q.priority), phase := UnlockingTx)
       case _ => q)
    case UnlockTx => q.(receivers := Unlocked(q.receivers), phase := UnlockingRx)
    case UnlockRx => q.(senders := Unlocked(q.senders), phase := Idle)
    case Unlist(t) =>
      q.(receivers := q.receivers.(waiting := Dropped(q.receivers.waiting, t)),
         senders := q.senders.(waiting := Dropped(q.senders.waiting, t)))
    case Create(t, p) => q.(tasks := q.tasks + {t}, priority := q.priority[t := p])
    case Suspend(t) => q.(receivers := Gone(q.receivers, t), senders := Gone(q.senders, t))
    case Delete(t) => q.(receivers := Gone(q.receivers, t), senders := Gone(q.senders, t), tasks := q.tasks - {t})
    case Reset =>
      q.(items := 0, receivers := q.receivers.(lock := UNLOCKED), senders := WakeOne(q.senders.(lock := UNLOCKED)))
  }

  // ----- The invariant

  /** The tasks of one side, and that the event list is in order of priority. */
  ghost predicate HalfValid(h: Half, tasks: set<Task>, priority: map<Task, int>) {
    && Distinct(h.waiting)
    && (forall t :: t in h.waiting ==> t in tasks && t !in h.woken)
    && h.woken <= tasks
    && UNLOCKED <= h.lock <= |tasks|
    && Sorted(Ranks(priority, h.waiting))
  }

  /**
  The units a waiting task could have are all accounted for: each has a woken task that will
  look for it, or is counted in the lock, unless the lock count has reached its cap.
  */
  predicate Covered(units: int, h: Half, cap: int) {
    h.waiting != [] ==> units <= |h.woken| + (if h.lock > 0 then h.lock else 0) || h.lock >= cap
  }

  /** While a task is about to wait, every unit it has not seen is counted in the lock. */
  predicate Counted(units: int, h: Half, cap: int) {
    units <= h.lock || h.lock >= cap
  }

  predicate LocksFit(q: Queue) {
    match q.phase
    case Idle => q.receivers.lock == UNLOCKED && q.senders.lock == UNLOCKED
    case UnlockingRx => q.receivers.lock == UNLOCKED && q.senders.lock >= 0
    case _ => q.receivers.lock >= 0 && q.senders.lock >= 0
  }

  predicate LockerFits(q: Queue) {
    match q.phase
    case Locked(t, side) => IsLocker(q, t)
    case Placing(t, side) => IsLocker(q, t) && Counted(UnitsOf(q, side), HalfOf(q, side), |q.tasks|)
    case _ => true
  }

  predicate IsLocker(q: Queue, t: Task) {
    CanRun(q, t) && t !in q.receivers.woken && t !in q.senders.woken
  }

  ghost predicate Inv(q: Queue) {
    && q.length >= 1 && 0 <= q.items <= q.length
    && (forall t :: t in q.tasks ==> t in q.priority)
    && HalfValid(q.receivers, q.tasks, q.priority) && HalfValid(q.senders, q.tasks, q.priority)
    && Covered(q.items, q.receivers, |q.tasks|) && Covered(Free(q), q.senders, |q.tasks|)
    && LocksFit(q) && LockerFits(q)
  }

  /** A new queue. */
  function Created(length: int, tasks: set<Task>, priority: map<Task, int>): Queue {
    Queue(length, 0, Half([], UNLOCKED, {}), Half([], UNLOCKED, {}), Idle, tasks, priority)
  }

  lemma CreatedValid(length: int, tasks: set<Task>, priority: map<Task, int>)
    requires length >= 1 && forall t :: t in tasks ==> t in priority
    ensures Inv(Created(length, tasks, priority))
  {
  }

  // ----- One side keeps its part of the invariant

  lemma RanksOfTail(priority: map<Task, int>, s: seq<Task>)
    requires s != [] && Sorted(Ranks(priority, s))
    ensures Sorted(Ranks(priority, s[1..]))
  {
    var v, w := Ranks(priority, s), Ranks(priority, s[1..]);
    assert forall i :: 0 <= i < |w| ==> w[i] == v[i + 1];
  }

  lemma WakeOneKeeps(h: Half, tasks: set<Task>, priority: map<Task, int>)
    requires HalfValid(h, tasks, priority)
    ensures HalfValid(WakeOne(h), tasks, priority)
    ensures h.waiting != [] ==> |WakeOne(h).woken| == |h.woken| + 1
  {
    if h.waiting != [] {
      RanksOfTail(priority, h.waiting);
      hide Sorted, Ranks;
      assert h.waiting[0] in h.waiting;
      forall t | t in h.waiting[1..]
        ensures t in tasks && t !in WakeOne(h).woken
      {
        assert t in h.waiting;
      }
    }
  }

  /** Unlocking wakes one task for each unit counted, or all of them. */
  lemma {:induction false} WakeManyKeeps(h: Half, n: nat, tasks: set<Task>, priority: map<Task, int>)
    requires HalfValid(h, tasks, priority)
    ensures var h' := WakeMany(h, n);
            && HalfValid(h', tasks, priority) && h'.lock == h.lock
            && h'.waiting == h.waiting[if n < |h.waiting| then n else |h.waiting|..]
            && |h'.woken| == |h.woken| + (if n < |h.waiting| then n else |h.waiting|)
            && h.woken <= h'.woken
            && forall t :: t in h'.woken <==> t in h.woken || t in h.waiting[..if n < |h.waiting| then n else |h.waiting|]
    decreases n
  {
    hide HalfValid;
    if n > 0 {
      WakeOneKeeps(h, tasks, priority);
      var h1 := WakeOne(h);
      WakeManyKeeps(h1, n - 1, tasks, priority);
      if h.waiting != [] {
        var m := if n < |h.waiting| then n else |h.waiting|;
        assert h.waiting[..m] == [h.waiting[0]] + h1.waiting[..m - 1];
      }
    }
  }

  /** The list after sorted insertion. */
  lemma PlacedKeeps(h: Half, t: Task, tasks: set<Task>, priority: map<Task, int>)
    requires HalfValid(h, tasks, priority) && t in tasks && t !in h.waiting && t !in h.woken
    ensures HalfValid(Placed(h, t, priority), tasks, priority)
    ensures |Placed(h, t, priority).waiting| == |h.waiting| + 1
    ensures forall u :: u in Placed(h, t, priority).waiting <==> u == t || u in h.waiting
  {
    var v, r := Ranks(priority, h.waiting), Rank(priority, t);
    var k := InsertPos(v, r);
    InsertKeepsSorted(v, r);
    var s := Splice(h.waiting, k, t);
    assert Ranks(priority, s) == Splice(v, k, r);
    InsertMembers(Ring(h.waiting, 0), k, t);
  }

  lemma RemovedKeeps(h: Half, t: Task, tasks: set<Task>, priority: map<Task, int>)
    requires HalfValid(h, tasks, priority)
    ensures HalfValid(h.(waiting := Dropped(h.waiting, t)), tasks, priority)
    ensures forall u :: u in Dropped(h.waiting, t) <==> u in h.waiting && u != t
  {
    DroppedMembers(h.waiting, t);
    var s := Dropped(h.waiting, t);
    if t in h.waiting {
      var k := PositionOf(h.waiting, t);
      var v, w := Ranks(priority, h.waiting), Ranks(priority, s);
      assert forall i :: 0 <= i < |w| ==> w[i] == v[if i < k then i else i + 1];
    }
  }

  lemma PostedKeeps(h: Half, units: int, units': int, tasks: set<Task>, priority: map<Task, int>)
    requires HalfValid(h, tasks, priority) && Covered(units, h, |tasks|) && units' <= units + 1
    ensures HalfValid(Posted(h, |tasks|), tasks, priority) && Covered(units', Posted(h, |tasks|), |tasks|)
    ensures h.lock >= 0 && Counted(units, h, |tasks|) ==> Counted(units', Posted(h, |tasks|), |tasks|)
  {
    WakeOneKeeps(h, tasks, priority);
  }

  lemma UnlockedKeeps(h: Half, units: int, tasks: set<Task>, priority: map<Task, int>)
    requires HalfValid(h, tasks, priority) && Covered(units, h, |tasks|)
    ensures HalfValid(Unlocked(h), tasks, priority) && Covered(units, Unlocked(h), |tasks|)
  {
    WakeManyKeeps(h, if h.lock > 0 then h.lock else 0, tasks, priority);
    DistinctBounded(h.waiting, tasks);
  }

  lemma RecheckedKeeps(h: Half, t: Task, tasks: set<Task>, priority: map<Task, int>)
    requires HalfValid(h, tasks, priority)
    ensures HalfValid(Rechecked(h, t), tasks, priority)
    ensures |h.woken| - 1 <= |Rechecked(h, t).woken|
  {
    hide Sorted, Ranks;
    if t in h.woken {
      assert h.woken == Rechecked(h, t).woken + {t};
    } else {
      assert h.woken == Rechecked(h, t).woken;
    }
  }

  // ----- Every step keeps the invariant

  lemma SendKeeps(q: Queue, t: Task, overwrite: bool)
    requires Inv(q) && Enabled(q, Send(t, overwrite))
    ensures Inv(Apply(q, Send(t, overwrite)))
  {
    RecheckedKeeps(q.senders, t, q.tasks, q.priority);
    WakeOneKeeps(q.receivers, q.tasks, q.priority);
    hide HalfValid;
  }

  lemma ReceiveKeeps(q: Queue, t: Task)
    requires Inv(q) && q.phase.Idle?
    ensures Inv(Apply(q, Receive(t)))
  {
    hide HalfValid;
    RecheckedKeeps(q.receivers, t, q.tasks, q.priority);
    WakeOneKeeps(q.senders, q.tasks, q.priority);
  }

  /** A task that only peeked wakes the next task in its place. */
  lemma PeekKeeps(q: Queue, t: Task)
    requires Inv(q) && q.phase.Idle?
    ensures Inv(Apply(q, Peek(t)))
  {
    hide HalfValid;
    RecheckedKeeps(q.receivers, t, q.tasks, q.priority);
    WakeOneKeeps(Rechecked(q.receivers, t), q.tasks, q.priority);
  }

  /** An interrupt wakes no task that holds the lock. */
  lemma PostedMembers(h: Half, cap: int, t: Task)
    ensures t !in h.waiting && t !in h.woken ==> t !in Posted(h, cap).waiting && t !in Posted(h, cap).woken
    ensures h.lock == UNLOCKED ==> Posted(h, cap).lock == UNLOCKED
    ensures h.lock >= 0 ==> Posted(h, cap).lock >= 0
  {
  }

  lemma SendFromISRKeeps(q: Queue, overwrite: bool)
    requires Inv(q) && Enabled(q, SendFromISR(overwrite))
    ensures Inv(Apply(q, SendFromISR(overwrite)))
  {
    PostedKeeps(q.receivers, q.items, Copied(q, overwrite), q.tasks, q.priority);
    forall t {
      PostedMembers(q.receivers, |q.tasks|, t);
    }
    hide HalfValid, Posted;
  }

  lemma ReceiveFromISRKeeps(q: Queue)
    requires Inv(q)
    ensures Inv(Apply(q, ReceiveFromISR))
  {
    PostedKeeps(q.senders, Free(q), Free(q) + 1, q.tasks, q.priority);
    forall t {
      PostedMembers(q.senders, |q.tasks|, t);
    }
    hide HalfValid, Posted;
  }

  lemma PlaceKeeps(q: Queue)
    requires Inv(q) && q.phase.Placing?
    ensures Inv(Apply(q, Place))
  {
    var t, side := q.phase.t, q.phase.side;
    PlacedKeeps(HalfOf(q, side), t, q.tasks, q.priority);
    hide HalfValid, Placed;
  }

  lemma UnlockTxKeeps(q: Queue)
    requires Inv(q) && q.phase.UnlockingTx?
    ensures Inv(Apply(q, UnlockTx))
  {
    UnlockedKeeps(q.receivers, q.items, q.tasks, q.priority);
    hide HalfValid, WakeMany;
  }

  lemma UnlockRxKeeps(q: Queue)
    requires Inv(q) && q.phase.UnlockingRx?
    ensures Inv(Apply(q, UnlockRx))
  {
    UnlockedKeeps(q.senders, Free(q), q.tasks, q.priority);
    hide HalfValid, WakeMany;
  }

  lemma UnlistedHalf(h: Half, t: Task, units: int, tasks: set<Task>, priority: map<Task, int>)
    requires HalfValid(h, tasks, priority) && Covered(units, h, |tasks|)
    ensures var h' := h.(waiting := Dropped(h.waiting, t));
            && HalfValid(h', tasks, priority) && Covered(units, h', |tasks|)
            && forall u :: u in h'.waiting ==> u in h.waiting
  {
    RemovedKeeps(h, t, tasks, priority);
    var w := Dropped(h.waiting, t);
    assert w != [] ==> w[0] in w;
    hide HalfValid, Dropped;
  }

  lemma UnlistKeeps(q: Queue, t: Task)
    requires Inv(q)
    ensures Inv(Apply(q, Unlist(t)))
  {
    UnlistedHalf(q.receivers, t, q.items, q.tasks, q.priority);
    UnlistedHalf(q.senders, t, Free(q), q.tasks, q.priority);
    var r := q.receivers.(waiting := Dropped(q.receivers.waiting, t));
    var x := q.senders.(waiting := Dropped(q.senders.waiting, t));
    assert Apply(q, Unlist(t)) == q.(receivers := r, senders := x);
    hide HalfValid, Dropped, Covered, Apply;
    FewerWait(q, r, x);
  }

  /** With fewer tasks on the event lists the invariant holds as well. */
  lemma FewerWait(q: Queue, r: Half, x: Half)
    requires Inv(q) && r == q.receivers.(waiting := r.waiting) && x == q.senders.(waiting := x.waiting)
    requires HalfValid(r, q.tasks, q.priority) && HalfValid(x, q.tasks, q.priority)
    requires Covered(q.items, r, |q.tasks|) && Covered(Free(q), x, |q.tasks|)
    requires forall u :: u in r.waiting ==> u in q.receivers.waiting
    requires forall u :: u in x.waiting ==> u in q.senders.waiting
    ensures Inv(q.(receivers := r, senders := x))
  {
    hide HalfValid, Covered;
  }

  lemma CreateKeepsHalf(h: Half, tasks: set<Task>, priority: map<Task, int>, t: Task, p: int)
    requires HalfValid(h, tasks, priority) && t !in tasks
    ensures HalfValid(h, tasks + {t}, priority[t := p])
  {
    assert Ranks(priority[t := p], h.waiting) == Ranks(priority, h.waiting) by {
      forall i | 0 <= i < |h.waiting|
        ensures Rank(priority[t := p], h.waiting[i]) == Rank(priority, h.waiting[i])
      {
        assert h.waiting[i] in h.waiting;
      }
    }
  }

  lemma CreateKeeps(q: Queue, t: Task, p: int)
    requires Inv(q) && Enabled(q, Create(t, p))
    ensures Inv(Apply(q, Create(t, p)))
  {
    CreateKeepsHalf(q.receivers, q.tasks, q.priority, t, p);
    CreateKeepsHalf(q.senders, q.tasks, q.priority, t, p);
    hide HalfValid;
  }

  // ----- What can lose a wakeup

  /** One woken task less, and there is then a unit for which no woken task will look, though others wait. */
  predicate Strands(units: int, h: Half, t: Task) {
    t in h.woken && h.waiting != [] && units >= |h.woken|
  }

  /** A reset wakes one sender, however many slots it frees. */
  predicate Floods(q: Queue) {
    |q.senders.waiting| > 1 && q.length > |q.senders.woken| + 1
  }

  /** No step that strands a waiting task. */
  predicate Disciplined(q: Queue, step: Step) {
    match step
    case Suspend(t) => !Strands(q.items, q.receivers, t) && !Strands(Free(q), q.senders, t)
    case Delete(t) => !Strands(q.items, q.receivers, t) && !Strands(Free(q), q.senders, t)
    case Reset => !Floods(q)
    case _ => true
  }

  lemma GoneKeeps(h: Half, t: Task, units: int, tasks: set<Task>, priority: map<Task, int>)
    requires HalfValid(h, tasks, priority) && h.lock == UNLOCKED && Covered(units, h, |tasks|)
    ensures HalfValid(Gone(h, t), tasks, priority) && HalfValid(Gone(h, t), tasks - {t}, priority)
    ensures Covered(units, Gone(h, t), |tasks|) <==> !Strands(units, h, t)
    ensures Covered(units, Gone(h, t), |tasks - {t}|) <==> !Strands(units, h, t)
  {
    RemovedKeeps(h, t, tasks, priority);
    hide Sorted, Ranks, Dropped;
    if t in h.woken {
      assert h.woken == Gone(h, t).woken + {t};
      assert t !in h.waiting;
      SameWithout(h.waiting, t);
    } else {
      assert h.woken == Gone(h, t).woken;
      if Dropped(h.waiting, t) != [] {
        var u := Dropped(h.waiting, t)[0];
        assert u in Dropped(h.waiting, t);
      }
    }
  }

  lemma SameWithout(s: seq<Task>, t: Task)
    requires t !in s
    ensures Dropped(s, t) == s
  {
  }

  /** A suspension or deletion, of any task, keeps all units accounted for exactly if it strands no task. */
  lemma SuspendExact(q: Queue, t: Task)
    requires Inv(q) && q.phase.Idle?
    ensures Inv(Apply(q, Suspend(t))) <==> Disciplined(q, Suspend(t))
    ensures Inv(Apply(q, Delete(t))) <==> Disciplined(q, Delete(t))
  {
    GoneKeeps(q.receivers, t, q.items, q.tasks, q.priority);
    GoneKeeps(q.senders, t, Free(q), q.tasks, q.priority);
    hide HalfValid, Covered, Strands, Gone, Inv;
    IdleInv(q, Apply(q, Suspend(t)), t);
    IdleInv(q, Apply(q, Delete(t)), t);
  }

  lemma IdleInv(q: Queue, q': Queue, t: Task)
    requires Inv(q) && q.phase.Idle?
    requires q' == q.(receivers := Gone(q.receivers, t), senders := Gone(q.senders, t), tasks := q'.tasks) && q'.tasks <= q.tasks
    requires HalfValid(q'.receivers, q'.tasks, q.priority) && HalfValid(q'.senders, q'.tasks, q.priority)
    ensures Inv(q') <==> Covered(q.items, q'.receivers, |q'.tasks|) && Covered(Free(q), q'.senders, |q'.tasks|)
  {
    GoneUnlocked(q.receivers, t);
    GoneUnlocked(q.senders, t);
    hide HalfValid, Covered, Gone;
  }

  lemma GoneUnlocked(h: Half, t: Task)
    ensures Gone(h, t).lock == h.lock
  {
  }

  /** And so does a reset, exactly if it frees no more slots than there are woken senders to use them. */
  lemma ResetExact(q: Queue)
    requires Inv(q) && q.phase.Idle?
    ensures Inv(Apply(q, Reset)) <==> Disciplined(q, Reset)
  {
    WakeOneKeeps(q.senders, q.tasks, q.priority);
    hide HalfValid;
    assert q.receivers.(lock := UNLOCKED) == q.receivers && q.senders.(lock := UNLOCKED) == q.senders;
  }

  lemma StepKeeps(q: Queue, step: Step)
    requires Inv(q) && Enabled(q, step) && Disciplined(q, step)
    ensures Inv(Apply(q, step))
  {
    match step
    case Send(t, overwrite) => SendKeeps(q, t, overwrite);
    case Receive(t) => ReceiveKeeps(q, t);
    case Peek(t) => PeekKeeps(q, t);
    case SendFromISR(overwrite) => SendFromISRKeeps(q, overwrite);
    case ReceiveFromISR => ReceiveFromISRKeeps(q);
    case LockQueue(t, side) =>
    case Check(timedOut) =>
    case Place => PlaceKeeps(q);
    case UnlockTx => UnlockTxKeeps(q);
    case UnlockRx => UnlockRxKeeps(q);
    case Unlist(t) => UnlistKeeps(q, t);
    case Create(t, p) => CreateKeeps(q, t, p);
    case Suspend(t) => SuspendExact(q, t);
    case Delete(t) => SuspendExact(q, t);
    case Reset => ResetExact(q);
  }

  // ----- Whole runs

  function Run(q: Queue, steps: seq<Step>): Queue
    decreases |steps|
  {
    if steps == [] then q else Run(Apply(q, steps[0]), steps[1..])
  }

  predicate Possible(q: Queue, steps: seq<Step>)
    decreases |steps|
  {
    steps == [] || (Enabled(q, steps[0]) && Possible(Apply(q, steps[0]), steps[1..]))
  }

  predicate DisciplinedRun(q: Queue, steps: seq<Step>)
    decreases |steps|
  {
    steps == [] || (Disciplined(q, steps[0]) && DisciplinedRun(Apply(q, steps[0]), steps[1..]))
  }

  lemma {:induction false} RunKeeps(q: Queue, steps: seq<Step>)
    requires Inv(q) && Possible(q, steps) && DisciplinedRun(q, steps)
    ensures Inv(Run(q, steps))
    decreases |steps|
  {
    hide Inv, Enabled, Apply, Disciplined;
    if steps != [] {
      StepKeeps(q, steps[0]);
      RunKeeps(Apply(q, steps[0]), steps[1..]);
    }
  }

  /**
  No lost wakeup.  After any disciplined run of a new queue, whenever the queue is not locked: if
  a task waits to receive, every item in the queue has a woken task that has yet to look for it, and if
  a task waits to send, so has every free slot.
  */
  lemma NoLostWakeup(length: int, tasks: set<Task>, priority: map<Task, int>, steps: seq<Step>)
    requires length >= 1 && forall t :: t in tasks ==> t in priority
    requires Possible(Created(length, tasks, priority), steps) && DisciplinedRun(Created(length, tasks, priority), steps)
    ensures var q := Run(Created(length, tasks, priority), steps);
            && 0 <= q.items <= length
            && (q.phase.Idle? && q.receivers.waiting != [] ==> q.items <= |q.receivers.woken|)
            && (q.phase.Idle? && q.senders.waiting != [] ==> length - q.items <= |q.senders.woken|)
  {
    CreatedValid(length, tasks, priority);
    RunKeeps(Created(length, tasks, priority), steps);
    RunLength(Created(length, tasks, priority), steps);
  }

  /** How many items n become: whatever waits, a queue counts like a counter from 0 to its length. */
  function CountAfter(n: int, length: int, steps: seq<Step>): int
    decreases |steps|
  {
    if steps == [] then n
    else
      var m := match steps[0]
               case Send(_, _) => if n < length then n + 1 else n
               case SendFromISR(_) => if n < length then n + 1 else n
               case Receive(_) => if n > 0 then n - 1 else n
               case ReceiveFromISR => if n > 0 then n - 1 else n
               case Reset => 0
               case _ => n;
      CountAfter(m, length, steps[1..])
  }

  /** Items are made by sends and used up by receives, and by nothing else. */
  lemma {:induction false} ItemsCounted(q: Queue, steps: seq<Step>)
    requires q.length >= 1 && 0 <= q.items <= q.length && Possible(q, steps)
    ensures 0 <= Run(q, steps).items <= q.length
    ensures Run(q, steps).items == CountAfter(q.items, q.length, steps)
    decreases |steps|
  {
    hide Unlocked, WakeOne, Posted, Placed, Gone, Rechecked, Lock, CanRun;
    if steps != [] {
      ItemsCounted(Apply(q, steps[0]), steps[1..]);
    }
  }

  /** A task that is to wait joins the event list behind all that are as high, and before all others. */
  lemma JoinsBehindEquals(q: Queue, t: Task, side: Side)
    requires Inv(q) && q.phase == Placing(t, side) && t in q.priority
    ensures var h, h' := HalfOf(q, side).waiting, HalfOf(Apply(q, Place), side).waiting;
            && t in h'
            && var k := PositionOf(h', t);
               && k <= |h| && h' == h[..k] + [t] + h[k..]
               && (forall i :: 0 <= i < k ==> h[i] in q.priority && q.priority[h[i]] >= q.priority[t])
               && (forall i :: k <= i < |h| ==> h[i] in q.priority && q.priority[h[i]] < q.priority[t])
  {
    var h := HalfOf(q, side).waiting;
    var v, r := Ranks(q.priority, h), Rank(q.priority, t);
    var k := InsertPos(v, r);
    InsertPosUnique(v, r, k);
    InsertKeepsSorted(v, r);
    var h' := Splice(h, k, t);
    assert HalfOf(Apply(q, Place), side).waiting == h';
    assert t !in h;
    hide Apply, InsertPos, Sorted;
    InsertMembers(Ring(h, 0), k, t);
    assert h'[k] == t;
    PositionIs(h', t, k);
    forall i | 0 <= i < |h|
      ensures h[i] in q.priority && (if i < k then q.priority[h[i]] >= q.priority[t] else q.priority[h[i]] < q.priority[t])
    {
      assert h[i] in h && v[i] == Rank(q.priority, h[i]);
    }
  }

  lemma {:induction false} RunLength(q: Queue, steps: seq<Step>)
    ensures Run(q, steps).length == q.length
    decreases |steps|
  {
    if steps != [] {
      RunLength(Apply(q, steps[0]), steps[1..]);
    }
  }

  /** Once every woken task has looked: no task waits for an item that is there, and not on both sides. */
  lemma QuiescentQueue(q: Queue)
    requires Inv(q) && q.phase.Idle? && q.receivers.woken == {} && q.senders.woken == {}
    ensures q.receivers.waiting != [] ==> q.items == 0
    ensures q.senders.waiting != [] ==> q.items == q.length
    ensures q.receivers.waiting == [] || q.senders.waiting == []
  {
  }

  /** The task woken has waited with the highest priority of all. */
  lemma WokenIsHighest(q: Queue, side: Side)
    requires Inv(q) && HalfOf(q, side).waiting != []
    ensures var h := HalfOf(q, side).waiting;
            forall t :: t in h ==> t in q.priority && h[0] in q.priority && q.priority[t] <= q.priority[h[0]]
  {
    var h := HalfOf(q, side).waiting;
    var v := Ranks(q.priority, h);
    assert h[0] in h && v[0] == Rank(q.priority, h[0]);
    forall t | t in h
      ensures t in q.priority && q.priority[t] <= q.priority[h[0]]
    {
      var i :| 0 <= i < |h| && h[i] == t;
      assert v[i] == Rank(q.priority, t) && v[0] <= v[i];
    }
  }

  /**
  The lock counts are of type int8_t.  With at most 127 tasks in the system they never wrap: the
  assertion in the increment cannot fail.
  */
  lemma LockCountsFit(q: Queue)
    requires Inv(q) && |q.tasks| <= 127
    ensures UNLOCKED <= q.receivers.lock <= 127 && UNLOCKED <= q.senders.lock <= 127
    ensures q.receivers.lock < |q.tasks| ==> q.receivers.lock != 127
    ensures q.senders.lock < |q.tasks| ==> q.senders.lock != 127
  {
  }

  // ----- Runs that lose a wakeup

  lemma {:induction false} RunAppend(q: Queue, a: seq<Step>, b: seq<Step>)
    ensures Run(q, a + b) == Run(Run(q, a), b)
    ensures Possible(q, a + b) <==> Possible(q, a) && Possible(Run(q, a), b)
    ensures DisciplinedRun(q, a + b) <==> DisciplinedRun(q, a) && DisciplinedRun(Run(q, a), b)
    decreases |a|
  {
    hide Enabled, Disciplined, Apply;
    if a == [] {
      assert a + b == b;
    } else {
      assert (a + b)[0] == a[0] && (a + b)[1..] == a[1..] + b;
      RunAppend(Apply(q, a[0]), a[1..], b);
    }
  }

  /** A run that keeps the discipline. */
  predicate Goes(q: Queue, steps: seq<Step>, e: Queue) {
    Possible(q, steps) && DisciplinedRun(q, steps) && Run(q, steps) == e
  }

  lemma GoesOn(q: Queue, a: seq<Step>, m: Queue, b: seq<Step>, e: Queue)
    requires Goes(q, a, m) && Goes(m, b, e)
    ensures Goes(q, a + b, e)
  {
    RunAppend(q, a, b);
  }

  lemma GoesOne(q: Queue, step: Step)
    requires Enabled(q, step) && Disciplined(q, step)
    ensures Goes(q, [step], Apply(q, step))
  {
    hide Enabled, Disciplined, Apply;
    assert [step][1..] == [];
    var e := Apply(q, step);
    assert Possible(e, []) && DisciplinedRun(e, []) && Run(e, []) == e;
  }

  /** All the steps of a task that finds nothing and waits, when no interrupt comes between them. */
  function WaitSteps(t: Task, side: Side): seq<Step> {
    [LockQueue(t, side)] + [Check(false)] + [Place] + [UnlockTx] + [UnlockRx]
  }

  function Waiting(q: Queue, t: Task, side: Side): Queue {
    if side.Receiving? then q.(receivers := Placed(q.receivers, t, q.priority))
    else q.(senders := Placed(q.senders, t, q.priority))
  }

  lemma WaitGoes(q: Queue, t: Task, side: Side)
    requires Enabled(q, LockQueue(t, side)) && UnitsOf(q, side) == 0
    requires q.receivers.lock == UNLOCKED && q.senders.lock == UNLOCKED
    ensures Goes(q, WaitSteps(t, side), Waiting(q, t, side))
  {
    var q1 := Apply(q, LockQueue(t, side));
    var q2 := Apply(q1, Check(false));
    var q3 := Apply(q2, Place);
    var q4 := Apply(q3, UnlockTx);
    var q5 := Apply(q4, UnlockRx);
    assert q2.phase == Placing(t, side) && q3.phase == UnlockingTx && q4.phase == UnlockingRx;
    assert q5 == Waiting(q, t, side);
    GoesOne(q, LockQueue(t, side));
    GoesOne(q1, Check(false));
    GoesOne(q2, Place);
    GoesOne(q3, UnlockTx);
    GoesOne(q4, UnlockRx);
    hide Goes, Apply;
    GoesOn(q, [LockQueue(t, side)], q1, [Check(false)], q2);
    GoesOn(q, [LockQueue(t, side)] + [Check(false)], q2, [Place], q3);
    GoesOn(q, [LockQueue(t, side)] + [Check(false)] + [Place], q3, [UnlockTx], q4);
    GoesOn(q, [LockQueue(t, side)] + [Check(false)] + [Place] + [UnlockTx], q4, [UnlockRx], q5);
  }

  /** A queue used by three tasks of one priority. */
  function Shared(length: int, items: int, receivers: Half, senders: Half): Queue {
    Queue(length, items, receivers, senders, Idle, {1, 2, 3}, map[1 := 1, 2 := 1, 3 := 1])
  }

  function Waiters(ts: seq<Task>, woken: set<Task>): Half {
    Half(ts, UNLOCKED, woken)
  }

  /** Tasks 1 and 2 wait to receive; task 3 sends. */
  function TwoReceive(): seq<Step> {
    WaitSteps(1, Receiving) + WaitSteps(2, Receiving) + [Send(3, false)]
  }

  lemma TwoReceiveGoes()
    ensures Goes(Created(1, {1, 2, 3}, map[1 := 1, 2 := 1, 3 := 1]), TwoReceive(), Shared(1, 1, Waiters([2], {1}), Waiters([], {})))
  {
    var q0, q1 := Shared(1, 0, Waiters([], {}), Waiters([], {})), Shared(1, 0, Waiters([1], {}), Waiters([], {}));
    var q2, q3 := Shared(1, 0, Waiters([1, 2], {}), Waiters([], {})), Shared(1, 1, Waiters([2], {1}), Waiters([], {}));
    OneWaits();
    WaitGoes(q0, 1, Receiving);
    WaitGoes(q1, 2, Receiving);
    assert Apply(q2, Send(3, false)) == q3;
    GoesOne(q2, Send(3, false));
    hide Goes, WaitSteps, Placed, Apply;
    GoesOn(q0, WaitSteps(1, Receiving), q1, WaitSteps(2, Receiving), q2);
    GoesOn(q0, WaitSteps(1, Receiving) + WaitSteps(2, Receiving), q2, [Send(3, false)], q3);
  }

  lemma OneWaits()
    ensures forall h: Half :: h == Waiters([], {}) ==> Placed(h, 1, map[1 := 1, 2 := 1, 3 := 1]) == Waiters([1], {})
    ensures forall h: Half :: h == Waiters([1], {}) ==> Placed(h, 2, map[1 := 1, 2 := 1, 3 := 1]) == Waiters([1, 2], {})
  {
    assert InsertPos([19], 19) == 1;
  }

  /**
  A wakeup lost by a suspension or a deletion: task 1, woken for the one item there is, is taken
  away before it looks, and task 2 goes on waiting though the item is there and nobody is to take it.
  */
  lemma LostBySuspension(step: Step)
    requires step == Suspend(1) || step == Delete(1)
    ensures var q0 := Created(1, {1, 2, 3}, map[1 := 1, 2 := 1, 3 := 1]);
            && Possible(q0, TwoReceive() + [step]) && DisciplinedRun(q0, TwoReceive())
            && !Disciplined(Run(q0, TwoReceive()), step)
            && var q := Run(q0, TwoReceive() + [step]);
               q.phase.Idle? && q.items == 1 && q.receivers == Waiters([2], {})
  {
    var q0, q3 := Created(1, {1, 2, 3}, map[1 := 1, 2 := 1, 3 := 1]), Shared(1, 1, Waiters([2], {1}), Waiters([], {}));
    TwoReceiveGoes();
    RunAppend(q0, TwoReceive(), [step]);
    assert Gone(Waiters([2], {1}), 1) == Waiters([2], {});
    hide TwoReceive;
    assert Possible(Apply(q3, step), [step][1..]);
    assert Run(q3, [step]) == Apply(q3, step);
  }

  /** Task 3 fills a queue of two slots; tasks 1 and 2 wait to send. */
  function TwoSend(): seq<Step> {
    [Send(3, false)] + [Send(3, false)] + WaitSteps(1, Sending) + WaitSteps(2, Sending)
  }

  lemma TwoSendGoes()
    ensures Goes(Created(2, {1, 2, 3}, map[1 := 1, 2 := 1, 3 := 1]), TwoSend(), Shared(2, 2, Waiters([], {}), Waiters([1, 2], {})))
  {
    var none := Waiters([], {});
    var q0, q1, q2 := Shared(2, 0, none, none), Shared(2, 1, none, none), Shared(2, 2, none, none);
    var q3, q4 := Shared(2, 2, none, Waiters([1], {})), Shared(2, 2, none, Waiters([1, 2], {}));
    OneWaits();
    assert Apply(q0, Send(3, false)) == q1 && Apply(q1, Send(3, false)) == q2;
    GoesOne(q0, Send(3, false));
    GoesOne(q1, Send(3, false));
    WaitGoes(q2, 1, Sending);
    WaitGoes(q3, 2, Sending);
    hide Goes, WaitSteps, Placed, Apply;
    GoesOn(q0, [Send(3, false)], q1, [Send(3, false)], q2);
    GoesOn(q0, [Send(3, false)] + [Send(3, false)], q2, WaitSteps(1, Sending), q3);
    GoesOn(q0, [Send(3, false)] + [Send(3, false)] + WaitSteps(1, Sending), q3, WaitSteps(2, Sending), q4);
  }

  /**
  A wakeup lost by a reset: it frees two slots and wakes task 1 alone; when task 1 has sent, task
  2 goes on waiting though there is a free slot and nobody is to use it.
  */
  lemma LostByReset()
    ensures var q0 := Created(2, {1, 2, 3}, map[1 := 1, 2 := 1, 3 := 1]);
            && Possible(q0, TwoSend() + [Reset, Send(1, false)]) && DisciplinedRun(q0, TwoSend())
            && !Disciplined(Run(q0, TwoSend()), Reset)
            && var q := Run(q0, TwoSend() + [Reset, Send(1, false)]);
               q.phase.Idle? && q.items == 1 && Free(q) == 1 && q.senders == Waiters([2], {})
  {
    var none := Waiters([], {});
    var q0, q4 := Created(2, {1, 2, 3}, map[1 := 1, 2 := 1, 3 := 1]), Shared(2, 2, none, Waiters([1, 2], {}));
    TwoSendGoes();
    RunAppend(q0, TwoSend(), [Reset, Send(1, false)]);
    hide TwoSend;
    var q5, q6 := Shared(2, 0, none, Waiters([2], {1})), Shared(2, 1, none, Waiters([2], {}));
    assert Apply(q4, Reset) == q5 && Apply(q5, Send(1, false)) == q6;
    assert [Reset, Send(1, false)][1..] == [Send(1, false)] && [Send(1, false)][1..] == [];
    assert Run(q6, []) == q6 && Possible(q6, []);
    assert Run(q5, [Send(1, false)]) == q6 && Possible(q5, [Send(1, false)]);
  }

  // ----- The code: each method is one critical section

  class QueueControl {
    const length: int
    var messagesWaiting: int
    var waitingToReceive: seq<Task>
    var waitingToSend: seq<Task>
    var cTxLock: int
    var cRxLock: int
    var numberOfTasks: int
    var priority: map<Task, int>
    ghost var wokenReceivers: set<Task>
    ghost var wokenSenders: set<Task>
    ghost var phase: Phase
    ghost var tasks: set<Task>

    ghost function St(): Queue
      reads this
    {
      Queue(length, messagesWaiting, Half(waitingToReceive, cTxLock, wokenReceivers),
            Half(waitingToSend, cRxLock, wokenSenders), phase, tasks, priority)
    }

    ghost predicate Valid()
      reads this
    {
      Inv(St()) && numberOfTasks == |tasks|
    }

    constructor (length: int, tasks: set<Task>, priority: map<Task, int>)
      requires length >= 1 && forall t :: t in tasks ==> t in priority
      ensures Valid() && St() == Created(length, tasks, priority)
    {
      this.length, messagesWaiting := length, 0;
      waitingToReceive, waitingToSend, cTxLock, cRxLock := [], [], UNLOCKED, UNLOCKED;
      numberOfTasks, this.tasks, this.priority := |tasks|, tasks, priority;
      wokenReceivers, wokenSenders, phase := {}, {}, Idle;
      new;
      CreatedValid(length, tasks, priority);
    }

    /** xTaskRemoveFromEventList( xTasksWaitingToReceive ), if it is not empty. */
    method WakeReceiver()
      modifies this`waitingToReceive, this`wokenReceivers
      ensures St() == old(St()).(receivers := WakeOne(old(St()).receivers))
    {
      if waitingToReceive != [] {
        wokenReceivers := wokenReceivers + {waitingToReceive[0]};
        waitingToReceive := waitingToReceive[1..];
      }
    }

    /** xTaskRemoveFromEventList( xTasksWaitingToSend ), if it is not empty. */
    method WakeSender()
      modifies this`waitingToSend, this`wokenSenders
      ensures St() == old(St()).(senders := WakeOne(old(St()).senders))
    {
      if waitingToSend != [] {
        wokenSenders := wokenSenders + {waitingToSend[0]};
        waitingToSend := waitingToSend[1..];
      }
    }

    /** The effect of prvCopyDataToQueue() on the count. */
    method CopyDataToQueue(overwrite: bool)
      modifies this`messagesWaiting
      ensures St() == old(St()).(items := Copied(old(St()), overwrite))
    {
      var n := messagesWaiting;
      if overwrite && n > 0 {
        n := n - 1;
      }
      messagesWaiting := n + 1;
    }

    /** The critical section of xQueueGenericSend(). */
    method TrySend(t: Task, overwrite: bool) returns (sent: bool)
      requires Valid() && Enabled(St(), Send(t, overwrite))
      modifies this
      ensures Valid() && St() == Apply(old(St()), Send(t, overwrite))
      ensures sent <==> old(messagesWaiting) < length || overwrite
    {
      StepKeeps(St(), Send(t, overwrite));
      hide Inv, WakeOne, Copied;
      wokenSenders := wokenSenders - {t};
      sent := messagesWaiting < length || overwrite;
      if sent {
        CopyDataToQueue(overwrite);
        WakeReceiver();
      }
    }

    /** xQueueGenericReset() */
    method ResetQueue()
      requires Valid() && phase.Idle?
      modifies this
      ensures St() == Apply(old(St()), Reset)
      ensures Valid() <==> Disciplined(old(St()), Reset)
    {
      ResetExact(St());
      hide Inv, WakeOne;
      messagesWaiting := 0;
      cRxLock := UNLOCKED;
      cTxLock := UNLOCKED;
      WakeSender();
    }

    /** xQueueGenericSendFromISR() */
    method TrySendFromISR(overwrite: bool) returns (sent: bool)
      requires Valid() && Enabled(St(), SendFromISR(overwrite))
      modifies this
      ensures Valid() && St() == Apply(old(St()), SendFromISR(overwrite))
      ensures sent <==> old(messagesWaiting) < length || overwrite
    {
      StepKeeps(St(), SendFromISR(overwrite));
      hide Inv, WakeOne, Copied;
      sent := messagesWaiting < length || overwrite;
      if sent {
        var txLock := cTxLock;
        CopyDataToQueue(overwrite);
        if txLock == UNLOCKED {
          WakeReceiver();
        } else if txLock < numberOfTasks {
          cTxLock := txLock + 1;
        }
      }
    }

    /** The critical section of xQueueReceive() and xQueueSemaphoreTake(). */
    method TryReceive(t: Task) returns (received: bool)
      requires Valid() && Enabled(St(), Receive(t))
      modifies this
      ensures Valid() && St() == Apply(old(St()), Receive(t))
      ensures received <==> old(messagesWaiting) > 0
    {
      StepKeeps(St(), Receive(t));
      hide Inv, WakeOne;
      wokenReceivers := wokenReceivers - {t};
      received := messagesWaiting > 0;
      if received {
        messagesWaiting := messagesWaiting - 1;
        WakeSender();
      }
    }

    /** The critical section of xQueuePeek(). */
    method TryPeek(t: Task) returns (seen: bool)
      requires Valid() && Enabled(St(), Peek(t))
      modifies this
      ensures Valid() && St() == Apply(old(St()), Peek(t))
      ensures seen <==> messagesWaiting > 0
    {
      StepKeeps(St(), Peek(t));
      hide Inv, WakeOne;
      wokenReceivers := wokenReceivers - {t};
      seen := messagesWaiting > 0;
      if seen {
        WakeReceiver();
      }
    }

    /** xQueueReceiveFromISR() */
    method TryReceiveFromISR() returns (received: bool)
      requires Valid()
      modifies this
      ensures Valid() && St() == Apply(old(St()), ReceiveFromISR)
      ensures received <==> old(messagesWaiting) > 0
    {
      StepKeeps(St(), ReceiveFromISR);
      hide Inv, WakeOne;
      received := messagesWaiting > 0;
      if received {
        var rxLock := cRxLock;
        messagesWaiting := messagesWaiting - 1;
        if rxLock == UNLOCKED {
          WakeSender();
        } else if rxLock < numberOfTasks {
          cRxLock := rxLock + 1;
        }
      }
    }

    /** prvLockQueue() */
    method LockFor(t: Task, side: Side)
      requires Valid() && Enabled(St(), LockQueue(t, side))
      modifies this
      ensures Valid() && St() == Apply(old(St()), LockQueue(t, side))
    {
      StepKeeps(St(), LockQueue(t, side));
      hide Inv;
      if cRxLock == UNLOCKED {
        cRxLock := 0;
      }
      if cTxLock == UNLOCKED {
        cTxLock := 0;
      }
      phase := Locked(t, side);
    }

    /** What a task does between locking and unlocking, given whether its time is up. */
    method CheckAgain(side: Side, timedOut: bool) returns (mustWait: bool)
      requires Valid() && phase.Locked? && phase.side == side
      modifies this`phase
      ensures Valid() && St() == Apply(old(St()), Check(timedOut))
      ensures mustWait <==> phase.Placing?
      ensures mustWait <==> !timedOut && (if side.Receiving? then messagesWaiting == 0 else messagesWaiting == length)
    {
      StepKeeps(St(), Check(timedOut));
      hide Inv;
      mustWait := false;
      if !timedOut {
        mustWait := if side.Receiving? then messagesWaiting == 0 else messagesWaiting == length;
      }
      phase := if mustWait then Placing(phase.t, side) else UnlockingTx;
    }

    /** vTaskPlaceOnEventList(), by a task about to wait. */
    method PlaceOnEventList(t: Task, side: Side)
      requires Valid() && phase == Placing(t, side)
      modifies this
      ensures Valid() && St() == Apply(old(St()), Place)
    {
      StepKeeps(St(), Place);
      hide Inv, Splice, InsertPos, Ranks;
      if side.Receiving? {
        var k := InsertPos(Ranks(priority, waitingToReceive), Rank(priority, t));
        waitingToReceive := Splice(waitingToReceive, k, t);
      } else {
        var k := InsertPos(Ranks(priority, waitingToSend), Rank(priority, t));
        waitingToSend := Splice(waitingToSend, k, t);
      }
      phase := UnlockingTx;
    }

    /** The first critical section of prvUnlockQueue(). */
    method UnlockTxSection()
      requires Valid() && phase.UnlockingTx?
      modifies this
      ensures Valid() && St() == Apply(old(St()), UnlockTx)
    {
      ghost var q := St();
      StepKeeps(q, UnlockTx);
      hide Inv;
      var txLock := cTxLock;
      while txLock > 0
        invariant Unlocked(q.receivers) == WakeMany(St().receivers, if txLock > 0 then txLock else 0).(lock := UNLOCKED)
        invariant St() == q.(receivers := St().receivers) && numberOfTasks == old(numberOfTasks)
      {
        if waitingToReceive == [] {
          WakeManyOfNone(St().receivers, txLock);
          break;
        }
        WakeReceiver();
        txLock := txLock - 1;
      }
      cTxLock := UNLOCKED;
      phase := UnlockingRx;
    }

    /** The second critical section of prvUnlockQueue(). */
    method UnlockRxSection()
      requires Valid() && phase.UnlockingRx?
      modifies this
      ensures Valid() && St() == Apply(old(St()), UnlockRx)
    {
      ghost var q := St();
      StepKeeps(q, UnlockRx);
      hide Inv;
      var rxLock := cRxLock;
      while rxLock > 0
        invariant Unlocked(q.senders) == WakeMany(St().senders, if rxLock > 0 then rxLock else 0).(lock := UNLOCKED)
        invariant St() == q.(senders := St().senders) && numberOfTasks == old(numberOfTasks)
      {
        if waitingToSend != [] {
          WakeSender();
          rxLock := rxLock - 1;
        } else {
          WakeManyOfNone(St().senders, rxLock);
          break;
        }
      }
      cRxLock := UNLOCKED;
      phase := Idle;
    }
  }

  lemma {:induction false} WakeManyOfNone(h: Half, n: nat)
    requires h.waiting == []
    ensures WakeMany(h, n) == h
    decreases n
  {
    if n > 0 {
      WakeManyOfNone(h, n - 1);
    }
  }
}
