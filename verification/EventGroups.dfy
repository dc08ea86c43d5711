/**
Event groups (rtos/source/event_groups.c): tasks wait for bits, a set releases every waiter it
satisfies, and bits are cleared only after all waiters have been looked at.
*/
module EventGroups {
  import opened Config

  /** The bits of an EventBits_t; the last four are the kernel's own. */
  datatype Bit = User(n: int) | ClearOnExit | WaitForAll | Unblocked | InUse

  type Bits = set<Bit>

  /** eventEVENT_BITS_CONTROL_BYTES */
  const CONTROL: Bits := {ClearOnExit, WaitForAll, Unblocked, InUse}

  predicate UserBits(b: Bits) {
    b !! CONTROL
  }

  /** A blocked task and the value of its event list item. */
  datatype Waiter = Waiter(task: Task, value: Bits)

  /** `items` has the event list item values of tasks that were blocked and have not run since. */
  datatype Group = Group(bits: Bits, waiters: seq<Waiter>, items: map<Task, Bits>)

  /** prvTestWaitCondition() */
  predicate Test(current: Bits, waitFor: Bits, all: bool) {
    if all then current * waitFor == waitFor else current * waitFor != {}
  }

  /** Whether a queued item value is satisfied: control and user bits are taken apart first. */
  predicate Satisfied(value: Bits, current: Bits) {
    Test(current, value - CONTROL, WaitForAll in value)
  }

  lemma SatisfiedMonotone(value: Bits, a: Bits, b: Bits)
    requires Satisfied(value, a) && a <= b
    ensures Satisfied(value, b)
  {
    if WaitForAll in value {
      assert b * (value - CONTROL) == value - CONTROL;
    } else {
      var x :| x in a * (value - CONTROL);
      assert x in b * (value - CONTROL);
    }
  }

  /** What a task waits for, bit by bit: all of the bits, or any of them. */
  ghost predicate Met(current: Bits, waitFor: Bits, all: bool) {
    if all then forall x :: x in waitFor ==> x in current else exists x :: x in waitFor && x in current
  }

  lemma TestPerBit(current: Bits, waitFor: Bits, all: bool)
    ensures Test(current, waitFor, all) <==> Met(current, waitFor, all)
  {
    if all {
      if Met(current, waitFor, all) {
        SameBits(current * waitFor, waitFor);
      } else {
        var x :| x in waitFor && x !in current;
        assert x !in current * waitFor;
      }
    } else {
      forall x
        ensures x in current * waitFor <==> x in waitFor && x in current
      {
      }
      if Test(current, waitFor, all) {
        var x :| x in current * waitFor;
      }
    }
  }

  // ----- Setting bits

  datatype Scanned = Scanned(kept: seq<Waiter>, clear: Bits, items: map<Task, Bits>)

  /** The loop of xEventGroupSetBits() over the waiters that are left, with current bits b. */
  function Scan(done: Scanned, rest: seq<Waiter>, b: Bits): Scanned
    decreases |rest|
  {
    if rest == [] then done
    else
      var w := rest[0];
      Scan(if Satisfied(w.value, b) then
             Scanned(done.kept, done.clear + (if ClearOnExit in w.value then w.value - CONTROL else {}),
                     done.items[w.task := b + {Unblocked, InUse}])
           else done.(kept := done.kept + [w]), rest[1..], b)
  }

  function SetBits(g: Group, toSet: Bits): Group {
    var b := g.bits + toSet;
    var s := Scan(Scanned([], {}, g.items), g.waiters, b);
    Group(b - s.clear, s.kept, s.items)
  }

  /** What the loop leaves behind, waiter by waiter. */
  lemma {:induction false} ScanMeaning(done: Scanned, rest: seq<Waiter>, b: Bits)
    ensures var s := Scan(done, rest, b);
            && (forall w :: w in s.kept <==> w in done.kept || (w in rest && !Satisfied(w.value, b)))
            && (forall x :: x in s.clear <==> x in done.clear || ClearedBy(rest, b, x))
            && (forall t :: t in s.items <==> t in done.items || Releases(rest, b, t))
            && (forall t :: t in s.items ==>
                  s.items[t] == if Releases(rest, b, t) then b + {Unblocked, InUse} else done.items[t])
    decreases |rest|
  {
    if rest != [] {
      var w := rest[0];
      var next := if Satisfied(w.value, b) then
                    Scanned(done.kept, done.clear + (if ClearOnExit in w.value then w.value - CONTROL else {}),
                            done.items[w.task := b + {Unblocked, InUse}])
                  else done.(kept := done.kept + [w]);
      ScanMeaning(next, rest[1..], b);
      assert rest == [w] + rest[1..];
      forall u
        ensures u in rest <==> u == w || u in rest[1..]
      {
      }
    }
  }

  /** Some waiter in the list is released and clears bit x. */
  ghost predicate ClearedBy(ws: seq<Waiter>, b: Bits, x: Bit) {
    exists w :: w in ws && Satisfied(w.value, b) && ClearOnExit in w.value && x in w.value - CONTROL
  }

  /** Task t waits in the list for something that b satisfies. */
  ghost predicate Releases(ws: seq<Waiter>, b: Bits, t: Task) {
    exists w :: w in ws && w.task == t && Satisfied(w.value, b)
  }

  lemma SameBits(a: Bits, b: Bits)
    requires forall x :: x in a <==> x in b
    ensures a == b
  {
    assert (forall x :: x in a <==> x in b) ==> a == b;
  }

  lemma SameItems(a: map<Task, Bits>, b: map<Task, Bits>)
    requires forall t :: t in a <==> t in b
    requires forall t :: t in a && t in b ==> a[t] == b[t]
    ensures a == b
  {
    assert (forall t :: t in a <==> t in b) && (forall t :: t in a && t in b ==> a[t] == b[t]) ==> a == b;
  }

  /**
  A set releases exactly the waiters that the old bits and the new together satisfy, each of
  which will return those bits; then the bits that released waiters clear on exit are cleared.
  */
  lemma SetReleasesExactly(g: Group, toSet: Bits)
    requires UserBits(g.bits) && UserBits(toSet)
    ensures var b, g' := g.bits + toSet, SetBits(g, toSet);
            && (forall w :: w in g'.waiters <==> w in g.waiters && !Satisfied(w.value, b))
            && (forall w :: w in g.waiters && Satisfied(w.value, b) ==>
                  w.task in g'.items && Unblocked in g'.items[w.task] && g'.items[w.task] - CONTROL == b)
            && (forall t :: t in g'.items ==> (Releases(g.waiters, b, t) || (t in g.items && g'.items[t] == g.items[t])))
            && (forall x :: x in g'.bits <==> x in b && !ClearedBy(g.waiters, b, x))
  {
    var b := g.bits + toSet;
    ScanMeaning(Scanned([], {}, g.items), g.waiters, b);
    hide Scan, Satisfied;
    forall w | w in g.waiters && Satisfied(w.value, b)
      ensures Releases(g.waiters, b, w.task)
    {
    }
    assert b + {Unblocked, InUse} - CONTROL == b;
  }

  /** Because clearing is deferred, the order of the list does not matter. */
  lemma OrderDoesNotMatter(g: Group, h: Group, toSet: Bits)
    requires h.bits == g.bits && h.items == g.items && forall w :: w in g.waiters <==> w in h.waiters
    ensures var a, b := SetBits(g, toSet), SetBits(h, toSet);
            a.bits == b.bits && a.items == b.items && forall w :: w in a.waiters <==> w in b.waiters
  {
    var c := g.bits + toSet;
    ScanMeaning(Scanned([], {}, g.items), g.waiters, c);
    ScanMeaning(Scanned([], {}, h.items), h.waiters, c);
    var p, q := Scan(Scanned([], {}, g.items), g.waiters, c), Scan(Scanned([], {}, h.items), h.waiters, c);
    hide Scan, Satisfied;
    forall x
      ensures ClearedBy(g.waiters, c, x) <==> ClearedBy(h.waiters, c, x)
    {
    }
    SameBits(p.clear, q.clear);
    forall t
      ensures Releases(g.waiters, c, t) <==> Releases(h.waiters, c, t)
    {
    }
    forall t
      ensures t in p.items <==> t in q.items
      ensures t in p.items && t in q.items ==> p.items[t] == q.items[t]
    {
      assert t in p.items <==> t in g.items || Releases(g.waiters, c, t);
      assert t in q.items <==> t in h.items || Releases(h.waiters, c, t);
    }
    SameItems(p.items, q.items);
  }

  // ----- The steps

  datatype Step =
    | Set(bits: Bits)
    | Clear(bits: Bits)
    | Wait(t: Task, waitFor: Bits, clear: bool, all: bool, block: bool)
    | Sync(t: Task, toSet: Bits, waitFor: Bits, block: bool)
    | TimeOut(t: Task)
    | Resume(t: Task, waitFor: Bits, clear: bool, all: bool)   // a task that was blocked runs again

  predicate IsWaiting(g: Group, t: Task) {
    exists w :: w in g.waiters && w.task == t
  }

  predicate Enabled(g: Group, step: Step) {
    match step
    case Set(bits) => UserBits(bits)
    case Clear(bits) => UserBits(bits)
    case Wait(t, waitFor, clear, all, block) => UserBits(waitFor) && waitFor != {} && !IsWaiting(g, t) && t !in g.items
    case Sync(t, toSet, waitFor, block) =>
      UserBits(toSet) && UserBits(waitFor) && waitFor != {} && !IsWaiting(g, t) && t !in g.items
    case TimeOut(t) => IsWaiting(g, t)
    case Resume(t, waitFor, clear, all) => t in g.items && UserBits(waitFor)
  }

  function ItemValue(waitFor: Bits, clear: bool, all: bool): Bits {
    waitFor + (if clear then {ClearOnExit} else {}) + (if all then {WaitForAll} else {}) + {InUse}
  }

  function WithoutTask(ws: seq<Waiter>, t: Task): seq<Waiter> {
    if ws == [] then [] else (if ws[0].task == t then [] else [ws[0]]) + WithoutTask(ws[1..], t)
  }

  function ValueOf(ws: seq<Waiter>, t: Task): Bits {
    if ws == [] then {} else if ws[0].task == t then ws[0].value else ValueOf(ws[1..], t)
  }

  function Apply(g: Group, step: Step): Group {
    match step
    case Set(bits) => SetBits(g, bits)
    case Clear(bits) => g.(bits := g.bits - bits)
    case Wait(t, waitFor, clear, all, block) =>
      if Test(g.bits, waitFor, all) then (if clear then g.(bits := g.bits - waitFor) else g)
      else if block then g.(waiters := g.waiters + [Waiter(t, ItemValue(waitFor, clear, all))])
      else g
    case Sync(t, toSet, waitFor, block) =>
      var g1 := SetBits(g, toSet);
      if (g.bits + toSet) * waitFor == waitFor then g1.(bits := g1.bits - waitFor)
      else if block then g1.(waiters := g1.waiters + [Waiter(t, ItemValue(waitFor, true, true))])
      else g1
    case TimeOut(t) => g.(waiters := WithoutTask(g.waiters, t), items := g.items[t := ValueOf(g.waiters, t)])
    case Resume(t, waitFor, clear, all) =>
      var g1 := g.(items := g.items - {t});
      if t in g.items && Unblocked !in g.items[t] && Test(g.bits, waitFor, all) && clear then g1.(bits := g.bits - waitFor)
      else g1
  }

  /** What the call returns, or None while its task is blocked. */
  function Returned(g: Group, step: Step): Option<Bits> {
    match step
    case Set(bits) => Some(SetBits(g, bits).bits)
    case Clear(bits) => Some(g.bits)
    case Wait(t, waitFor, clear, all, block) => if Test(g.bits, waitFor, all) || !block then Some(g.bits) else None
    case Sync(t, toSet, waitFor, block) =>
      if (g.bits + toSet) * waitFor == waitFor then Some(g.bits + toSet)
      else if block then None
      else Some(SetBits(g, toSet).bits)
    case TimeOut(t) => None
    case Resume(t, waitFor, clear, all) =>
      if t !in g.items then None
      else if Unblocked in g.items[t] then Some(g.items[t] - CONTROL)
      else Some(g.bits - CONTROL)
  }

  /** No queued waiter's condition is satisfied by the current bits. */
  ghost predicate NoneSatisfied(g: Group) {
    forall w :: w in g.waiters ==> !Satisfied(w.value, g.bits)
  }

  /** No two waiters are of the same task. */
  ghost predicate Once(ws: seq<Waiter>) {
    ws == [] || ((forall w :: w in ws[1..] ==> w.task != ws[0].task) && Once(ws[1..]))
  }

  /** A task waits at most once, and not while it has been released. */
  ghost predicate WaitsOnce(g: Group) {
    Once(g.waiters) && forall w :: w in g.waiters ==> w.task !in g.items
  }

  ghost predicate Inv(g: Group) {
    UserBits(g.bits) && NoneSatisfied(g) && WaitsOnce(g)
  }

  lemma {:induction false} WithoutTaskMembers(ws: seq<Waiter>, t: Task)
    ensures forall w :: w in WithoutTask(ws, t) <==> w in ws && w.task != t
  {
    if ws != [] {
      WithoutTaskMembers(ws[1..], t);
      assert ws == [ws[0]] + ws[1..];
    }
  }

  lemma {:induction false} WithoutTaskOnce(ws: seq<Waiter>, t: Task)
    requires Once(ws)
    ensures Once(WithoutTask(ws, t))
  {
    if ws != [] {
      WithoutTaskOnce(ws[1..], t);
      WithoutTaskMembers(ws[1..], t);
      var v := WithoutTask(ws[1..], t);
      assert ([ws[0]] + v)[1..] == v && [] + v == v;
    }
  }

  lemma {:induction false} OnceWithout(ws: seq<Waiter>, k: nat)
    requires Once(ws) && k < |ws|
    ensures Once(ws[..k] + ws[k + 1..])
  {
    var v := ws[..k] + ws[k + 1..];
    if k == 0 {
      assert v == ws[1..];
    } else {
      OnceWithout(ws[1..], k - 1);
      assert v[1..] == ws[1..][..k - 1] + ws[1..][k..];
      forall w | w in v[1..]
        ensures w.task != v[0].task
      {
        assert w in ws[1..];
      }
    }
  }

  lemma {:induction false} OnceAppended(ws: seq<Waiter>, w: Waiter)
    requires Once(ws) && forall v :: v in ws ==> v.task != w.task
    ensures Once(ws + [w])
  {
    if ws != [] {
      var x := ws[0];
      assert x in ws && ws == [x] + ws[1..];
      OnceAppended(ws[1..], w);
      assert (ws + [w])[1..] == ws[1..] + [w];
    } else {
      assert [w][1..] == [];
    }
  }

  lemma {:induction false} OnceUnique(ws: seq<Waiter>, v: Waiter, w: Waiter)
    requires Once(ws) && v in ws && w in ws && v.task == w.task
    ensures v == w
  {
    if v != ws[0] && w != ws[0] {
      OnceUnique(ws[1..], v, w);
    }
  }

  lemma {:induction false} ScanOnce(done: Scanned, rest: seq<Waiter>, b: Bits)
    requires Once(done.kept + rest)
    ensures Once(Scan(done, rest, b).kept)
    decreases |rest|
  {
    if rest != [] {
      var w := rest[0];
      var ws, n := done.kept + rest, |done.kept|;
      if Satisfied(w.value, b) {
        OnceWithout(ws, n);
        assert ws[..n] + ws[n + 1..] == done.kept + rest[1..];
        ScanOnce(Scanned(done.kept, done.clear + (if ClearOnExit in w.value then w.value - CONTROL else {}),
                         done.items[w.task := b + {Unblocked, InUse}]), rest[1..], b);
      } else {
        assert ws == done.kept + [w] + rest[1..];
        ScanOnce(done.(kept := done.kept + [w]), rest[1..], b);
      }
    } else {
      assert done.kept + rest == done.kept;
    }
  }

  lemma SetKeeps(g: Group, toSet: Bits)
    requires UserBits(g.bits) && UserBits(toSet) && WaitsOnce(g)
    ensures Inv(SetBits(g, toSet))
  {
    var g', b := SetBits(g, toSet), g.bits + toSet;
    assert [] + g.waiters == g.waiters;
    ScanOnce(Scanned([], {}, g.items), g.waiters, b);
    ScanMeaning(Scanned([], {}, g.items), g.waiters, b);
    hide Scan, Satisfied;
    forall w | w in g'.waiters
      ensures !Satisfied(w.value, g'.bits) && w.task !in g'.items
    {
      if Satisfied(w.value, g'.bits) {
        SatisfiedMonotone(w.value, g'.bits, b);
      }
      if Releases(g.waiters, b, w.task) {
        var v :| v in g.waiters && v.task == w.task && Satisfied(v.value, b);
        OnceUnique(g.waiters, v, w);
      }
    }
  }

  lemma FewerBitsKeep(g: Group, b: Bits)
    requires Inv(g) && b <= g.bits
    ensures Inv(g.(bits := b))
  {
    forall w | w in g.waiters
      ensures !Satisfied(w.value, b)
    {
      if Satisfied(w.value, b) {
        SatisfiedMonotone(w.value, b, g.bits);
      }
    }
    hide Satisfied;
  }

  lemma QueueKeeps(g: Group, t: Task, waitFor: Bits, clear: bool, all: bool)
    requires Inv(g) && UserBits(waitFor) && !Test(g.bits, waitFor, all) && !IsWaiting(g, t) && t !in g.items
    ensures Inv(g.(waiters := g.waiters + [Waiter(t, ItemValue(waitFor, clear, all))]))
  {
    var v := ItemValue(waitFor, clear, all);
    assert v - CONTROL == waitFor && (WaitForAll in v <==> all);
    assert !Satisfied(v, g.bits);
    hide Satisfied;
    OnceAppended(g.waiters, Waiter(t, v));
  }

  lemma TimeOutKeeps(g: Group, t: Task)
    requires Inv(g)
    ensures Inv(Apply(g, TimeOut(t)))
  {
    WithoutTaskMembers(g.waiters, t);
    WithoutTaskOnce(g.waiters, t);
    hide Satisfied, WithoutTask;
  }

  lemma MoreBitsPass(a: Bits, b: Bits, waitFor: Bits)
    requires a <= b
    ensures a * waitFor == waitFor ==> b * waitFor == waitFor
  {
  }

  lemma SyncKeeps(g: Group, t: Task, toSet: Bits, waitFor: Bits, block: bool)
    requires Inv(g) && Enabled(g, Sync(t, toSet, waitFor, block))
    ensures Inv(Apply(g, Sync(t, toSet, waitFor, block)))
  {
    SetKeeps(g, toSet);
    SetReleasesExactly(g, toSet);
    var g1 := SetBits(g, toSet);
    assert !IsWaiting(g1, t);
    assert t !in g1.items;
    hide SetBits, Satisfied;
    if (g.bits + toSet) * waitFor == waitFor {
      FewerBitsKeep(g1, g1.bits - waitFor);
    } else if block {
      MoreBitsPass(g1.bits, g.bits + toSet, waitFor);
      QueueKeeps(g1, t, waitFor, true, true);
    }
  }

  lemma StepKeeps(g: Group, step: Step)
    requires Inv(g) && Enabled(g, step)
    ensures Inv(Apply(g, step))
  {
    match step
    case Set(bits) => SetKeeps(g, bits);
    case Clear(bits) => FewerBitsKeep(g, g.bits - bits);
    case Wait(t, waitFor, clear, all, block) =>
      if Test(g.bits, waitFor, all) {
        FewerBitsKeep(g, g.bits - waitFor);
      } else {
        QueueKeeps(g, t, waitFor, clear, all);
      }
    case Sync(t, toSet, waitFor, block) => SyncKeeps(g, t, toSet, waitFor, block);
    case TimeOut(t) => TimeOutKeeps(g, t);
    case Resume(t, waitFor, clear, all) =>
      var g1 := g.(items := g.items - {t});
      assert Inv(g1);
      FewerBitsKeep(g1, g.bits - waitFor);
  }

  function Run(g: Group, steps: seq<Step>): Group
    decreases |steps|
  {
    if steps == [] then g else Run(Apply(g, steps[0]), steps[1..])
  }

  predicate Possible(g: Group, steps: seq<Step>)
    decreases |steps|
  {
    steps == [] || (Enabled(g, steps[0]) && Possible(Apply(g, steps[0]), steps[1..]))
  }

  /** In every run no task stays queued for bits that are there. */
  lemma {:induction false} RunKeeps(g: Group, steps: seq<Step>)
    requires Inv(g) && Possible(g, steps)
    ensures Inv(Run(g, steps))
    decreases |steps|
  {
    hide Inv, Enabled, Apply;
    if steps != [] {
      StepKeeps(g, steps[0]);
      RunKeeps(Apply(g, steps[0]), steps[1..]);
    }
  }

  // ----- The code

  class EventGroup {
    var eventBits: Bits
    var waiting: seq<Waiter>
    var itemValue: map<Task, Bits>

    ghost function St(): Group
      reads this
    {
      Group(eventBits, waiting, itemValue)
    }

    ghost predicate Valid()
      reads this
    {
      Inv(St())
    }

    constructor ()
      ensures Valid() && St() == Group({}, [], map[])
    {
      eventBits, waiting, itemValue := {}, [], map[];
    }

    /** xEventGroupSetBits() */
    method SetEventBits(toSet: Bits) returns (r: Bits)
      requires Valid() && UserBits(toSet)
      modifies this
      ensures Valid() && St() == SetBits(old(St()), toSet) && r == eventBits
    {
      SetKeeps(St(), toSet);
      ghost var g := St();
      eventBits := eventBits + toSet;
      var toClear: Bits := {};
      var i := 0;
      ghost var rest := waiting;
      while i < |waiting|
        invariant 0 <= i <= |waiting| && rest == waiting[i..] && eventBits == g.bits + toSet
        invariant Scan(Scanned(waiting[..i], toClear, itemValue), rest, eventBits)
               == Scan(Scanned([], {}, g.items), g.waiters, eventBits)
        decreases |waiting| - i
      {
        var w := waiting[i];
        var control, waitedFor := w.value * CONTROL, w.value - CONTROL;
        var found := false;
        if WaitForAll !in control {
          if waitedFor * eventBits != {} {
            found := true;
          }
        } else if waitedFor * eventBits == waitedFor {
          found := true;
        }
        assert found <==> Satisfied(w.value, eventBits) by {
          SameBits(waitedFor * eventBits, eventBits * waitedFor);
        }
        assert rest[0] == w && toClear + {} == toClear;
        assert eventBits + {Unblocked} + {InUse} == eventBits + {Unblocked, InUse};
        hide Satisfied, SetBits;
        rest := rest[1..];
        if found {
          if ClearOnExit in control {
            toClear := toClear + waitedFor;
          }
          RemoveFromUnorderedEventList(i, eventBits + {Unblocked});
        } else {
          assert waiting[..i + 1] == waiting[..i] + [w];
          i := i + 1;
        }
      }
      assert waiting[..i] == waiting;
      eventBits := eventBits - toClear;
      r := eventBits;
    }

    /** vTaskRemoveFromUnorderedEventList() for the item at position i. */
    method RemoveFromUnorderedEventList(i: nat, value: Bits)
      requires i < |waiting|
      modifies this`waiting, this`itemValue
      ensures waiting == old(waiting[..i] + waiting[i + 1..]) && waiting[..i] == old(waiting[..i]) && waiting[i..] == old(waiting[i + 1..])
      ensures itemValue == old(itemValue)[old(waiting[i].task) := value + {InUse}]
    {
      itemValue := itemValue[waiting[i].task := value + {InUse}];
      waiting := waiting[..i] + waiting[i + 1..];
    }

    /** xEventGroupClearBits() */
    method ClearEventBits(toClear: Bits) returns (r: Bits)
      requires Valid() && UserBits(toClear)
      modifies this
      ensures Valid() && St() == Apply(old(St()), Clear(toClear)) && r == old(eventBits)
      ensures forall x :: x in eventBits <==> x in old(eventBits) && x !in toClear
    {
      StepKeeps(St(), Clear(toClear));
      r := eventBits;
      eventBits := eventBits - toClear;
    }

    /** xEventGroupWaitBits() up to where it returns or blocks. */
    method WaitBits(t: Task, waitFor: Bits, clear: bool, all: bool, ticksToWait: nat) returns (r: Option<Bits>)
      requires Valid() && Enabled(St(), Wait(t, waitFor, clear, all, ticksToWait != 0))
      modifies this
      ensures Valid() && St() == Apply(old(St()), Wait(t, waitFor, clear, all, ticksToWait != 0))
      ensures r == Returned(old(St()), Wait(t, waitFor, clear, all, ticksToWait != 0))
      ensures var met := Met(old(eventBits), waitFor, all);
              && r == (if met || ticksToWait == 0 then Some(old(eventBits)) else None)
              && (forall x :: x in eventBits <==> x in old(eventBits) && !(met && clear && x in waitFor))
    {
      TestPerBit(eventBits, waitFor, all);
      StepKeeps(St(), Wait(t, waitFor, clear, all, ticksToWait != 0));
      hide Inv;
      if Test(eventBits, waitFor, all) {
        r := Some(eventBits);
        if clear {
          eventBits := eventBits - waitFor;
        }
      } else if ticksToWait == 0 {
        r := Some(eventBits);
      } else {
        var control: Bits := {};
        if clear {
          control := control + {ClearOnExit};
        }
        if all {
          control := control + {WaitForAll};
        }
        assert waitFor + control + {InUse} == ItemValue(waitFor, clear, all);
        waiting := waiting + [Waiter(t, waitFor + control + {InUse})];
        r := None;
      }
    }

    /** xEventGroupSync() up to where it returns or blocks. */
    method SyncBits(t: Task, toSet: Bits, waitFor: Bits, ticksToWait: nat) returns (r: Option<Bits>)
      requires Valid() && Enabled(St(), Sync(t, toSet, waitFor, ticksToWait != 0))
      modifies this
      ensures Valid() && St() == Apply(old(St()), Sync(t, toSet, waitFor, ticksToWait != 0))
      ensures r == Returned(old(St()), Sync(t, toSet, waitFor, ticksToWait != 0))
      ensures Met(old(eventBits) + toSet, waitFor, true) ==>
                r == Some(old(eventBits) + toSet) && forall x :: x in waitFor ==> x !in eventBits
      ensures !Met(old(eventBits) + toSet, waitFor, true) && ticksToWait != 0 ==> r == None && IsWaiting(St(), t)
    {
      TestPerBit(eventBits + toSet, waitFor, true);
      StepKeeps(St(), Sync(t, toSet, waitFor, ticksToWait != 0));
      var original := eventBits;
      var bits := SetEventBits(toSet);
      hide Inv, SetBits;
      if (original + toSet) * waitFor == waitFor {
        r := Some(original + toSet);
        eventBits := eventBits - waitFor;
      } else if ticksToWait != 0 {
        assert waitFor + {ClearOnExit, WaitForAll} + {InUse} == ItemValue(waitFor, true, true);
        waiting := waiting + [Waiter(t, waitFor + {ClearOnExit, WaitForAll} + {InUse})];
        assert waiting[|waiting| - 1] in waiting;
        r := None;
      } else {
        r := Some(bits);
      }
    }

    /** What xEventGroupWaitBits() and xEventGroupSync() do after the task was blocked. */
    method AfterBlocking(t: Task, waitFor: Bits, clear: bool, all: bool) returns (r: Bits)
      requires Valid() && Enabled(St(), Resume(t, waitFor, clear, all))
      modifies this
      ensures Valid() && St() == Apply(old(St()), Resume(t, waitFor, clear, all))
      ensures Some(r) == Returned(old(St()), Resume(t, waitFor, clear, all))
      ensures var met := Unblocked !in old(itemValue)[t] && Met(old(eventBits), waitFor, all);
              forall x :: x in eventBits <==> x in old(eventBits) && !(met && clear && x in waitFor)
      ensures forall x :: x in r <==> x !in CONTROL && x in if Unblocked in old(itemValue)[t] then old(itemValue)[t] else old(eventBits)
    {
      TestPerBit(eventBits, waitFor, all);
      StepKeeps(St(), Resume(t, waitFor, clear, all));
      hide Inv;
      r := itemValue[t];
      itemValue := itemValue - {t};
      if Unblocked !in r {
        r := eventBits;
        if Test(r, waitFor, all) {
          if clear {
            eventBits := eventBits - waitFor;
          }
        }
      }
      r := r - CONTROL;
    }

    /** vEventGroupDelete(): every waiter is released, and will return no bits. */
    method Delete()
      modifies this
      ensures waiting == [] && eventBits == old(eventBits)
      ensures forall w :: w in old(waiting) ==> w.task in itemValue && itemValue[w.task] - CONTROL == {}
      ensures forall t :: t in old(itemValue) && (forall w :: w in old(waiting) ==> w.task != t) ==>
                t in itemValue && itemValue[t] == old(itemValue)[t]
    {
      ghost var all := waiting;
      ghost var k := 0;
      while |waiting| > 0
        invariant 0 <= k <= |all| && waiting == all[k..] && eventBits == old(eventBits)
        invariant forall i :: 0 <= i < k ==> all[i].task in itemValue && itemValue[all[i].task] == {Unblocked, InUse}
        invariant forall t :: t in old(itemValue) && (forall w :: w in all ==> w.task != t) ==>
                    t in itemValue && itemValue[t] == old(itemValue)[t]
        decreases |waiting|
      {
        assert waiting[0] == all[k] && all[k] in all;
        RemoveFromUnorderedEventList(0, {Unblocked});
        k := k + 1;
      }
    }
  }
}
