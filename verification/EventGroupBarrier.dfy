/**
xEventGroupSync() as a barrier (rtos/source/event_groups.c): n tasks, each with a bit of its own,
call it again and again to wait for all n bits.
*/
module EventGroupBarrier {
  import opened Config
  import opened EventGroups

  /** Task i has made calls[i] calls, of which finished[i] have returned; `values` is all they returned. */
  datatype Barrier = Barrier(group: Group, calls: seq<int>, finished: seq<int>, values: seq<Bits>)

  datatype Turn = Call(i: int) | Return(i: int)

  function All(n: int): Bits {
    set i | 0 <= i < n :: User(i)
  }

  function StepOf(s: Barrier, turn: Turn): Step {
    match turn
    case Call(i) => Sync(i, {User(i)}, All(|s.calls|), true)
    case Return(i) => Resume(i, All(|s.calls|), true, true)
  }

  /** A task makes one call at a time, and a blocked one runs again once it is released. */
  predicate CanTurn(s: Barrier, turn: Turn) {
    && 0 <= turn.i < |s.calls| == |s.finished|
    && match turn
       case Call(i) => s.calls[i] == s.finished[i]
       case Return(i) => i in s.group.items
  }

  function Next(s: Barrier, turn: Turn): Barrier
    requires CanTurn(s, turn)
  {
    var i, step := turn.i, StepOf(s, turn);
    var v := Returned(s.group, step);
    Barrier(Apply(s.group, step),
            if turn.Call? then s.calls[i := s.calls[i] + 1] else s.calls,
            if v.Some? then s.finished[i := s.finished[i] + 1] else s.finished,
            if v.Some? then s.values + [v.value] else s.values)
  }

  function Start(n: nat): Barrier {
    Barrier(Group({}, [], map[]), seq(n, i => 0), seq(n, i => 0), [])
  }

  // ----- What every turn keeps: round r is over, and some task has yet to arrive in round r + 1

  function Queued(n: int, i: int): Waiter {
    Waiter(i, ItemValue(All(n), true, true))
  }

  ghost predicate RoundIs(s: Barrier, r: int) {
    var n := |s.calls|;
    && |s.finished| == n
    && (forall i :: 0 <= i < n ==> s.calls[i] == r || s.calls[i] == r + 1)
    && (exists j :: 0 <= j < n && s.calls[j] == r)
    && (forall i :: 0 <= i < n ==> s.finished[i] == r || (s.calls[i] == r && s.finished[i] == r - 1))
  }

  /** The bits are those of the tasks that have arrived, which are the tasks that wait. */
  ghost predicate Arrivals(s: Barrier, r: int) {
    var n := |s.calls|;
    && (forall x :: x in s.group.bits <==> x.User? && 0 <= x.n < n && s.calls[x.n] == r + 1)
    && (forall w :: w in s.group.waiters <==> 0 <= w.task < n && s.calls[w.task] == r + 1 && w == Queued(n, w.task))
  }

  /** The tasks released from round r that have not run since will all return every bit. */
  ghost predicate Released(s: Barrier, r: int) {
    var n := |s.calls|;
    && |s.finished| == n
    && (forall i :: i in s.group.items <==> 0 <= i < n && s.finished[i] == r - 1)
    && (forall i :: i in s.group.items ==> s.group.items[i] == All(n) + {Unblocked, InUse})
    && (forall v :: v in s.values ==> v == All(n))
  }

  ghost predicate BarrierInv(s: Barrier, r: int) {
    RoundIs(s, r) && Arrivals(s, r) && Released(s, r)
  }

  lemma StartIsValid(n: nat)
    requires n > 0
    ensures BarrierInv(Start(n), 0)
  {
    assert Start(n).calls[0] == 0;
  }

  lemma AllBits(n: int)
    ensures forall x :: x in All(n) <==> x.User? && 0 <= x.n < n
    ensures ItemValue(All(n), true, true) - CONTROL == All(n) && UserBits(All(n))
  {
  }

  /** A queued task is satisfied exactly when all have arrived. */
  lemma QueuedSatisfied(n: int, i: int, b: Bits)
    ensures Satisfied(Queued(n, i).value, b) <==> All(n) <= b
  {
    AllBits(n);
    if All(n) <= b {
      assert b * All(n) == All(n);
    } else {
      var x :| x in All(n) && x !in b;
      assert x !in b * All(n);
    }
  }

  /** A task arrives while another is still missing: it waits, and nothing else happens. */
  lemma ArriveEarly(s: Barrier, r: int, i: int)
    requires BarrierInv(s, r) && CanTurn(s, Call(i)) && s.calls[i] == r
    requires exists j :: 0 <= j < |s.calls| && j != i && s.calls[j] == r
    ensures BarrierInv(Next(s, Call(i)), r)
  {
    var n, g := |s.calls|, s.group;
    var b := g.bits + {User(i)};
    AllBits(n);
    var j :| 0 <= j < n && j != i && s.calls[j] == r;
    assert User(j) in All(n) && User(j) !in b;
    NobodyReleased(g, n, b, {User(i)});
    assert User(j) !in b * All(n);
    var s' := Next(s, Call(i));
    assert s'.group.bits == b && s'.group.items == g.items && s'.finished == s.finished && s'.values == s.values;
    hide SetBits, Satisfied;
    assert s'.calls[j] == r;
    forall w
      ensures w in s'.group.waiters <==> w in g.waiters || w == Queued(n, i)
    {
    }
  }

  lemma NobodyReleased(g: Group, n: int, b: Bits, toSet: Bits)
    requires b == g.bits + toSet && !(All(n) <= b)
    requires forall w :: w in g.waiters ==> w == Queued(n, w.task)
    ensures SetBits(g, toSet).bits == b && SetBits(g, toSet).items == g.items
    ensures forall w :: w in SetBits(g, toSet).waiters <==> w in g.waiters
  {
    ScanMeaning(Scanned([], {}, g.items), g.waiters, b);
    forall w | w in g.waiters
      ensures !Satisfied(w.value, b)
    {
      QueuedSatisfied(n, w.task, b);
    }
    var g' := SetBits(g, toSet);
    hide Scan, Satisfied;
    assert forall x :: !ClearedBy(g.waiters, b, x);
    assert forall t :: !Releases(g.waiters, b, t);
    SameBits(g'.bits, b);
    SameItems(g'.items, g.items);
  }

  /** Every waiter is released with all bits, and the bits are cleared, if all tasks wait but the caller. */
  lemma EverybodyReleased(g: Group, n: int, i: int)
    requires g.bits + {User(i)} == All(n)
    requires forall w :: w in g.waiters ==> w == Queued(n, w.task)
    ensures var g' := SetBits(g, {User(i)});
            && g'.waiters == [] && g'.bits - All(n) == {}
            && (forall t :: t in g'.items <==> t in g.items || Queued(n, t) in g.waiters)
            && (forall t :: t in g'.items ==>
                  g'.items[t] == if Queued(n, t) in g.waiters then All(n) + {Unblocked, InUse} else g.items[t])
  {
    var b := All(n);
    ScanMeaning(Scanned([], {}, g.items), g.waiters, b);
    forall w | w in g.waiters
      ensures Satisfied(w.value, b)
    {
      QueuedSatisfied(n, w.task, b);
    }
    var g' := SetBits(g, {User(i)});
    hide Scan, Satisfied;
    forall t
      ensures Releases(g.waiters, b, t) <==> Queued(n, t) in g.waiters
    {
    }
    SomeMember(g'.waiters);
    SameBits(g'.bits - b, {});
  }

  lemma SomeMember(ws: seq<Waiter>)
    ensures ws == [] || exists w :: w in ws
  {
    if ws != [] {
      var w := ws[0];
      assert w in ws;
    }
  }

  /** The last task arrives: all others are released and the next round begins. */
  lemma ArriveLast(s: Barrier, r: int, i: int)
    requires BarrierInv(s, r) && CanTurn(s, Call(i)) && s.calls[i] == r
    requires forall j :: 0 <= j < |s.calls| && j != i ==> s.calls[j] == r + 1
    ensures BarrierInv(Next(s, Call(i)), r + 1)
  {
    var n, g := |s.calls|, s.group;
    AllBits(n);
    SameBits(g.bits + {User(i)}, All(n));
    EverybodyReleased(g, n, i);
    assert (g.bits + {User(i)}) * All(n) == All(n);
    hide SetBits, Satisfied;
    var s' := Next(s, Call(i));
    assert s'.group.bits == {} && s'.group.waiters == [] && s'.values == s.values + [All(n)];
    forall t
      ensures t in s'.group.items <==> 0 <= t < n && t != i
      ensures t in s'.group.items ==> s'.group.items[t] == All(n) + {Unblocked, InUse}
    {
      assert Queued(n, t) in g.waiters <==> 0 <= t < n && s.calls[t] == r + 1;
    }
    assert s'.calls[i] == r + 1;
  }

  /** A released task runs again and returns every bit. */
  lemma ReturnKeeps(s: Barrier, r: int, i: int)
    requires BarrierInv(s, r) && CanTurn(s, Return(i))
    ensures BarrierInv(Next(s, Return(i)), r)
  {
    AllBits(|s.calls|);
    assert All(|s.calls|) + {Unblocked, InUse} - CONTROL == All(|s.calls|);
    var s' := Next(s, Return(i));
    assert s'.values == s.values + [All(|s.calls|)];
    assert s'.group == s.group.(items := s.group.items - {i});
    hide All;
    var j :| 0 <= j < |s.calls| && s.calls[j] == r;
    assert s'.calls[j] == r;
  }

  lemma TurnKeeps(s: Barrier, r: int, turn: Turn) returns (r': int)
    requires BarrierInv(s, r) && CanTurn(s, turn)
    ensures BarrierInv(Next(s, turn), r')
  {
    hide RoundIs, Arrivals, Released, Next;
    match turn
    case Return(i) =>
      ReturnKeeps(s, r, i);
      return r;
    case Call(i) =>
      CallerIsFree(s, r, i);
      if exists j :: 0 <= j < |s.calls| && j != i && s.calls[j] == r {
        ArriveEarly(s, r, i);
        return r;
      } else {
        OthersArrived(s, r, i);
        ArriveLast(s, r, i);
        return r + 1;
      }
  }

  lemma CallerIsFree(s: Barrier, r: int, i: int)
    requires RoundIs(s, r) && CanTurn(s, Call(i))
    ensures s.calls[i] == r
  {
  }

  lemma OthersArrived(s: Barrier, r: int, i: int)
    requires RoundIs(s, r) && !exists j :: 0 <= j < |s.calls| && j != i && s.calls[j] == r
    ensures forall j :: 0 <= j < |s.calls| && j != i ==> s.calls[j] == r + 1
  {
  }

  // ----- Whole runs

  ghost predicate CanRun(s: Barrier, turns: seq<Turn>)
    decreases |turns|
  {
    turns == [] || (CanTurn(s, turns[0]) && CanRun(Next(s, turns[0]), turns[1..]))
  }

  ghost function Run(s: Barrier, turns: seq<Turn>): Barrier
    requires CanRun(s, turns)
    decreases |turns|
  {
    if turns == [] then s else Run(Next(s, turns[0]), turns[1..])
  }

  lemma {:induction false} RunKeeps(s: Barrier, r: int, turns: seq<Turn>) returns (r': int)
    requires BarrierInv(s, r) && CanRun(s, turns)
    ensures BarrierInv(Run(s, turns), r')
    decreases |turns|
  {
    hide BarrierInv, CanTurn, Next;
    if turns == [] {
      return r;
    }
    var r1 := TurnKeeps(s, r, turns[0]);
    r' := RunKeeps(Next(s, turns[0]), r1, turns[1..]);
  }

  /**
  The barrier.  However the tasks' calls interleave, for every k: no k-th call has returned
  before every task has made its k-th call, every call returns all n bits, and once all tasks
  have made k calls none of them still waits for its k-th, so the barrier can be used again.
  */
  lemma BarrierHolds(n: nat, turns: seq<Turn>, i: int, j: int)
    requires n > 0 && CanRun(Start(n), turns) && 0 <= i < n && 0 <= j < n
    ensures var s := Run(Start(n), turns);
            && |s.calls| == |s.finished| == n
            && s.finished[i] <= s.calls[j]
            && (forall v :: v in s.values ==> v == All(n))
            && ((forall u :: 0 <= u < n ==> s.calls[u] >= s.calls[i]) ==> !IsWaiting(s.group, i))
            && (s.calls[i] == s.finished[i] || IsWaiting(s.group, i) || i in s.group.items)
  {
    StartIsValid(n);
    var r := RunKeeps(Start(n), 0, turns);
    RunSize(Start(n), turns);
    var s := Run(Start(n), turns);
    hide Run, CanRun;
    if s.calls[i] == r + 1 {
      assert Queued(n, i) in s.group.waiters;
    }
  }

  lemma {:induction false} RunSize(s: Barrier, turns: seq<Turn>)
    requires CanRun(s, turns)
    ensures |Run(s, turns).calls| == |s.calls|
    decreases |turns|
  {
    if turns != [] {
      RunSize(Next(s, turns[0]), turns[1..]);
    }
  }
}
