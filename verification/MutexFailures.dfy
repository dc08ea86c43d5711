/**
What becomes of priority inheritance (rtos/source/tasks.c with rtos/source/queue.c) without the
discipline: for each of its clauses a run, from a start in which no mutex is held, that keeps to it
but for one step and has a task that holds a mutex below one that waits for it.
*/
module MutexFailures {
  import opened Config
  import opened Lists
  import opened Mutexes

  function Waiter(base: int): Tcb {
    Tcb(base, base, 0, MAX_PRIORITIES - base)
  }

  function Raised(base: int, p: int, held: int): Tcb {
    Tcb(base, p, held, MAX_PRIORITIES - p)
  }

  const FREE := Mutex(false, 1, None, 0, [])

  function Held(h: Task, waiting: seq<Task>): Mutex {
    Mutex(false, 0, Some(h), 0, waiting)
  }

  /** Five tasks and two mutexes: x is task 0, of base priority 2; the others never inherit. */
  function Scene(x: Tcb, a: Mutex, b: Mutex, ready: set<Task>, current: Task, mustYield: bool, retry: map<Task, int>): State {
    State(map[0 := x, 1 := Waiter(5), 2 := Waiter(4), 3 := Waiter(1), 4 := Waiter(6)], [a, b], ready, current, mustYield, retry)
  }

  function Start(): State {
    Scene(Waiter(2), FREE, FREE, {0}, 0, true, map[])
  }

  lemma StartIsInitial()
    ensures Initial(Start())
  {
  }

  /** s makes a step of the discipline and is then e. */
  predicate Goes(s: State, step: Step, e: State) {
    Enabled(s, step) && Disciplined(s, step) && Apply(s, step) == e
  }

  /** A run, state by state. */
  predicate Trace(states: seq<State>, steps: seq<Step>) {
    |states| == |steps| + 1 && forall i :: 0 <= i < |steps| ==> Goes(states[i], steps[i], states[i + 1])
  }

  lemma {:induction false} TraceRuns(states: seq<State>, steps: seq<Step>)
    requires Trace(states, steps)
    ensures Possible(states[0], steps) && DisciplinedRun(states[0], steps) && Run(states[0], steps) == states[|steps|]
    decreases |steps|
  {
    hide Enabled, Disciplined, Apply;
    if steps != [] {
      var rest, later := steps[1..], states[1..];
      forall i | 0 <= i < |rest|
        ensures Goes(later[i], rest[i], later[i + 1])
      {
        assert Goes(states[i + 1], steps[i + 1], states[i + 2]);
      }
      assert Goes(states[0], steps[0], states[1]);
      TraceRuns(later, rest);
    }
  }

  /**
  Task 0 takes both mutexes; then task 3 waits for the second, and tasks 2 and 1 for the first,
  each inheriting its priority to task 0, which runs on.
  */
  function Approach(): seq<Step> {
    [SwitchTo(0), Take(0), Take(1), Block, Unblock(3), SwitchTo(3), Wait(1), Unblock(0), SwitchTo(0), Unblock(2), SwitchTo(2),
     Wait(0), Unblock(1), SwitchTo(1), Wait(0), SwitchTo(0)]
  }

  /** Task 0 holds both mutexes and runs at the priority of task 1. */
  function TwoMutexes(): State {
    Scene(Raised(2, 5, 2), Held(0, [1, 2]), Held(0, [3]), {0}, 0, false, map[])
  }

  /** The states task 0 and the others come through. */
  function Station(k: int): State {
    match k
    case 0 => Scene(Waiter(2), FREE, FREE, {0}, 0, true, map[])
    case 1 => Scene(Waiter(2), FREE, FREE, {0}, 0, false, map[])
    case 2 => Scene(Raised(2, 2, 1), Held(0, []), FREE, {0}, 0, false, map[])
    case 3 => Scene(Raised(2, 2, 2), Held(0, []), Held(0, []), {0}, 0, false, map[])
    case 4 => Scene(Raised(2, 2, 2), Held(0, []), Held(0, []), {}, 0, true, map[])
    case 5 => Scene(Raised(2, 2, 2), Held(0, []), Held(0, []), {3}, 0, true, map[])
    case 6 => Scene(Raised(2, 2, 2), Held(0, []), Held(0, []), {3}, 3, false, map[])
    case 7 => Scene(Raised(2, 2, 2), Held(0, []), Held(0, [3]), {}, 3, true, map[])
    case 8 => Scene(Raised(2, 2, 2), Held(0, []), Held(0, [3]), {0}, 3, true, map[])
    case 9 => Scene(Raised(2, 2, 2), Held(0, []), Held(0, [3]), {0}, 0, false, map[])
    case 10 => Scene(Raised(2, 2, 2), Held(0, []), Held(0, [3]), {0, 2}, 0, true, map[])
    case 11 => Scene(Raised(2, 2, 2), Held(0, []), Held(0, [3]), {0, 2}, 2, false, map[])
    case 12 => Scene(Raised(2, 4, 2), Held(0, [2]), Held(0, [3]), {0}, 2, true, map[])
    case 13 => Scene(Raised(2, 4, 2), Held(0, [2]), Held(0, [3]), {0, 1}, 2, true, map[])
    case 14 => Scene(Raised(2, 4, 2), Held(0, [2]), Held(0, [3]), {0, 1}, 1, false, map[])
    case 15 => Scene(Raised(2, 5, 2), Held(0, [1, 2]), Held(0, [3]), {0}, 1, true, map[])
    case _ => Scene(Raised(2, 5, 2), Held(0, [1, 2]), Held(0, [3]), {0}, 0, false, map[])
  }

  /** A task that outranks all that wait goes to the front. */
  lemma InFront(tcb: map<Task, Tcb>, q: seq<Task>, c: Task)
    requires q == [] || Get(tcb, c).itemValue < Get(tcb, q[0]).itemValue
    ensures InsertPos(ItemValues(tcb, q), Get(tcb, c).itemValue) == 0 && Splice(q, 0, c) == [c] + q
  {
    assert q != [] ==> ItemValues(tcb, q)[0] == Get(tcb, q[0]).itemValue;
  }

  lemma TaskZeroTakesOne()
    ensures Goes(Station(0), SwitchTo(0), Station(1))
    ensures Goes(Station(1), Take(0), Station(2))
  {
  }

  lemma TaskZeroTakesBoth()
    ensures Goes(Station(2), Take(1), Station(3))
    ensures Goes(Station(3), Block, Station(4))
  {
  }

  lemma TaskThreeComes()
    ensures Goes(Station(4), Unblock(3), Station(5))
    ensures Goes(Station(5), SwitchTo(3), Station(6))
  {
  }

  lemma TaskThreeWaits()
    ensures Goes(Station(6), Wait(1), Station(7))
  {
    var s, e := Station(6), Station(7);
    assert Waited(s, 1).tcb == e.tcb;
    InFront(Waited(s, 1).tcb, s.mutexes[1].waiting, 3);
    assert Waited(s, 1).mutexes[1].waiting == [3];
    assert Waited(s, 1).mutexes == e.mutexes && Waited(s, 1).ready == e.ready;
  }

  lemma TaskZeroRunsOn()
    ensures Goes(Station(7), Unblock(0), Station(8))
    ensures Goes(Station(8), SwitchTo(0), Station(9))
  {
  }

  lemma TaskTwoComes()
    ensures Goes(Station(9), Unblock(2), Station(10))
    ensures Goes(Station(10), SwitchTo(2), Station(11))
  {
  }

  lemma TaskTwoWaits()
    ensures Goes(Station(11), Wait(0), Station(12))
  {
    var s, e := Station(11), Station(12);
    assert Waited(s, 0).tcb == e.tcb;
    InFront(Waited(s, 0).tcb, s.mutexes[0].waiting, 2);
    assert Waited(s, 0).mutexes[0].waiting == [2];
    assert Waited(s, 0).mutexes == e.mutexes && Waited(s, 0).ready == e.ready;
  }

  lemma TaskOneComes()
    ensures Goes(Station(12), Unblock(1), Station(13))
    ensures Goes(Station(13), SwitchTo(1), Station(14))
  {
  }

  lemma TaskOneWaits()
    ensures Goes(Station(14), Wait(0), Station(15))
  {
    var s, e := Station(14), Station(15);
    assert Waited(s, 0).tcb == e.tcb;
    InFront(Waited(s, 0).tcb, s.mutexes[0].waiting, 1);
    assert Waited(s, 0).mutexes[0].waiting == [1, 2];
    assert Waited(s, 0).mutexes == e.mutexes && Waited(s, 0).ready == e.ready;
  }

  lemma TaskZeroGoesOn()
    ensures Goes(Station(15), SwitchTo(0), Station(16))
  {
  }

  /** The approach is a run of the discipline, from the start. */
  lemma ApproachRuns()
    ensures Possible(Start(), Approach()) && DisciplinedRun(Start(), Approach()) && Run(Start(), Approach()) == TwoMutexes()
  {
    hide Goes, Scene, Enabled, Disciplined, Apply, Run, Possible, DisciplinedRun;
    TaskZeroTakesOne();
    TaskZeroTakesBoth();
    TaskThreeComes();
    TaskThreeWaits();
    TaskZeroRunsOn();
    TaskTwoComes();
    TaskTwoWaits();
    TaskOneComes();
    TaskOneWaits();
    TaskZeroGoesOn();
    TraceRuns(seq(17, k => Station(k)), Approach());
  }

  lemma {:induction false} RunAppend(s: State, a: seq<Step>, b: seq<Step>)
    ensures Run(s, a + b) == Run(Run(s, a), b)
    ensures Possible(s, a + b) <==> Possible(s, a) && Possible(Run(s, a), b)
    ensures DisciplinedRun(s, a + b) <==> DisciplinedRun(s, a) && DisciplinedRun(Run(s, a), b)
    decreases |a|
  {
    hide Enabled, Disciplined, Apply;
    if a == [] {
      assert a + b == b;
    } else {
      assert (a + b)[1..] == a[1..] + b;
      RunAppend(Apply(s, a[0]), a[1..], b);
    }
  }

  /** A task runs below task w, which waits for the mutex that it holds. */
  predicate HolderBelow(e: State, m: int, w: Task) {
    IsMutex(e, m) && e.mutexes[m].holder.Some? && w in e.mutexes[m].waiting && Prio(e.tcb, e.mutexes[m].holder.value) < Prio(e.tcb, w)
  }

  /** A run that keeps the discipline but for one step, and ends with the holder of m below w. */
  predicate OneLapse(s: State, good: seq<Step>, bad: Step, rest: seq<Step>, m: int, w: Task) {
    && Possible(s, good + [bad] + rest)
    && DisciplinedRun(s, good) && !Disciplined(Run(s, good), bad) && DisciplinedRun(Run(s, good + [bad]), rest)
    && HolderBelow(Run(s, good + [bad] + rest), m, w)
  }

  /** A run of the discipline and where it ends. */
  predicate Reaches(s: State, steps: seq<Step>, e: State) {
    Possible(s, steps) && DisciplinedRun(s, steps) && Run(s, steps) == e
  }

  /** The pieces of such a run put together. */
  lemma Lapse(s: State, good: seq<Step>, s1: State, bad: Step, s2: State, rest: seq<Step>, e: State, m: int, w: Task)
    requires Reaches(s, good, s1) && Enabled(s1, bad) && !Disciplined(s1, bad) && Apply(s1, bad) == s2
    requires Reaches(s2, rest, e) && HolderBelow(e, m, w)
    ensures OneLapse(s, good, bad, rest, m, w)
  {
    hide Enabled, Disciplined, Apply, HolderBelow;
    RunAppend(s, good, [bad]);
    RunAppend(s, good + [bad], rest);
    assert [bad][1..] == [];
  }

  /** Such a run that begins with the approach. */
  lemma LapseFrom(good: seq<Step>, bad: Step, rest: seq<Step>, mid: seq<Step>, s1: State, s2: State, e: State)
    requires good == Approach() + mid && Reaches(TwoMutexes(), mid, s1)
    requires Enabled(s1, bad) && !Disciplined(s1, bad) && Apply(s1, bad) == s2
    requires Reaches(s2, rest, e) && HolderBelow(e, 0, 2)
    ensures OneLapse(Start(), good, bad, rest, 0, 2)
  {
    ApproachRuns();
    hide Enabled, Disciplined, Apply, HolderBelow, Start, TwoMutexes, Approach;
    RunAppend(Start(), Approach(), mid);
    Lapse(Start(), good, s1, bad, s2, rest, e, 0, 2);
  }

  const GIVEN := Mutex(false, 1, None, 0, [2])

  /** Task 0 has given the first mutex, or the second, or both back; task 1 and task 3 are to take them. */
  function FirstGiven(): State {
    Scene(Raised(2, 5, 1), GIVEN, Held(0, [3]), {0, 1}, 0, false, map[1 := 0])
  }

  function SecondGiven(): State {
    Scene(Raised(2, 5, 1), Held(0, [1, 2]), FREE, {0, 3}, 0, false, map[3 := 1])
  }

  function BothGiven(mustYield: bool): State {
    Scene(Waiter(2), GIVEN, FREE, {0, 1, 3}, 0, mustYield, map[1 := 0, 3 := 1])
  }

  lemma GiveFirst()
    ensures Goes(TwoMutexes(), Give(0), FirstGiven())
  {
    assert Given(TwoMutexes(), 0).mutexes[0] == GIVEN;
    assert Given(TwoMutexes(), 0).mutexes == FirstGiven().mutexes;
  }

  lemma ThenGiveSecond()
    ensures Enabled(FirstGiven(), Give(1)) && Undercut(FirstGiven(), 1)
    ensures Apply(FirstGiven(), Give(1)) == BothGiven(false)
  {
    var s, e := FirstGiven(), BothGiven(false);
    assert 1 in s.ready && Prio(s.tcb, 1) == 5;
    var s' := Given(s, 1);
    assert s'.mutexes[1] == e.mutexes[1] && s'.mutexes == e.mutexes;
    assert s'.tcb == e.tcb && s'.ready == e.ready && s'.retry == e.retry;
  }

  lemma GiveSecond()
    ensures Goes(TwoMutexes(), Give(1), SecondGiven())
  {
    assert Given(TwoMutexes(), 1).mutexes[1] == FREE;
    assert Given(TwoMutexes(), 1).mutexes == SecondGiven().mutexes;
  }

  lemma ThenGiveFirst()
    ensures Goes(SecondGiven(), Give(0), BothGiven(true))
  {
    var s, e := SecondGiven(), BothGiven(true);
    var s' := Given(s, 0);
    assert s'.mutexes[0] == GIVEN && s'.mutexes == e.mutexes;
    assert s'.tcb == e.tcb && s'.ready == e.ready && s'.retry == e.retry;
  }

  /** Whoever is ready: task 0 takes the first mutex again. */
  lemma TakeAgain(ready: set<Task>, mustYield: bool, retry: map<Task, int>)
    requires 0 in ready && 0 !in retry
    ensures var s := Scene(Waiter(2), GIVEN, FREE, ready, 0, mustYield, retry);
            && Enabled(s, Take(0)) && HolderBelow(Apply(s, Take(0)), 0, 2)
            && (Disciplined(s, Take(0)) <==> !mustYield) && (Jumps(s, 0) <==> mustYield)
  {
    var s := Scene(Waiter(2), GIVEN, FREE, ready, 0, mustYield, retry);
    assert 2 in s.mutexes[0].waiting && Prio(s.tcb, 2) == 4 && Prio(s.tcb, 0) == 2;
    assert !Above(s.tcb, 0, s.mutexes[0].waiting);
  }

  lemma OneMore(s: State, step: Step)
    requires Enabled(s, step)
    ensures Possible(s, [step]) && Run(s, [step]) == Apply(s, step)
    ensures DisciplinedRun(s, [step]) <==> Disciplined(s, step)
  {
    assert [step][1..] == [];
  }

  lemma NoMore(s: State)
    ensures Possible(s, []) && Run(s, []) == s && DisciplinedRun(s, [])
  {
  }

  /**
  A give that undercuts.  Task 0 gives both mutexes back, the second of them with only task 3, of
  priority 1, waiting.  That drops it to priority 2 with task 1 ready at priority 5, yet it runs
  on, and takes the first mutex again.
  */
  lemma UndercutBreaksInheritance()
    ensures Initial(Start()) && Undercut(Run(Start(), Approach() + [Give(0)]), 1)
    ensures OneLapse(Start(), Approach() + [Give(0)], Give(1), [Take(0)], 0, 2)
  {
    StartIsInitial();
    ApproachRuns();
    GiveFirst();
    ThenGiveSecond();
    TakeAgain({0, 1, 3}, false, map[1 := 0, 3 := 1]);
    assert BothGiven(false) == Scene(Waiter(2), GIVEN, FREE, {0, 1, 3}, 0, false, map[1 := 0, 3 := 1]);
    assert Goes(TwoMutexes(), Give(0), FirstGiven());
    hide Enabled, Apply, Approach, Start, TwoMutexes, FirstGiven, BothGiven, Undercut, HolderBelow, Scene;
    OneMore(TwoMutexes(), Give(0));
    OneMore(BothGiven(false), Take(0));
    RunAppend(Start(), Approach(), [Give(0)]);
    LapseFrom(Approach() + [Give(0)], Give(1), [Take(0)], [Give(0)], FirstGiven(), BothGiven(false),
      Apply(BothGiven(false), Take(0)));
  }

  /**
  A take that jumps the queue.  Task 0 has suspended the scheduler when it gives both mutexes
  back: it runs on at priority 2, and takes the first one again.
  */
  lemma JumpBreaksInheritance()
    ensures Initial(Start()) && Jumps(Run(Start(), Approach() + [Give(1), Give(0)]), 0)
    ensures OneLapse(Start(), Approach() + [Give(1), Give(0)], Take(0), [], 0, 2)
  {
    StartIsInitial();
    ApproachRuns();
    BothGivenRuns();
    TakeAgain({0, 1, 3}, true, map[1 := 0, 3 := 1]);
    assert BothGiven(true) == Scene(Waiter(2), GIVEN, FREE, {0, 1, 3}, 0, true, map[1 := 0, 3 := 1]);
    hide Enabled, Disciplined, Apply, Approach, Start, TwoMutexes, BothGiven, HolderBelow, Scene, Jumps;
    RunAppend(Start(), Approach(), [Give(1), Give(0)]);
    NoMore(Apply(BothGiven(true), Take(0)));
    LapseFrom(Approach() + [Give(1), Give(0)], Take(0), [], [Give(1), Give(0)], BothGiven(true),
      Apply(BothGiven(true), Take(0)), Apply(BothGiven(true), Take(0)));
  }

  lemma BothGivenRuns()
    ensures Possible(TwoMutexes(), [Give(1), Give(0)]) && DisciplinedRun(TwoMutexes(), [Give(1), Give(0)])
    ensures Run(TwoMutexes(), [Give(1), Give(0)]) == BothGiven(true)
  {
    GiveSecond();
    ThenGiveFirst();
    hide Goes, TwoMutexes, SecondGiven, BothGiven, Possible, DisciplinedRun, Run;
    TraceRuns([TwoMutexes(), SecondGiven(), BothGiven(true)], [Give(1), Give(0)]);
  }

  function Ambush(): seq<Step> {
    [Give(1), Give(0), Unblock(4), SwitchTo(4)]
  }

  function Ambushed(): State {
    Scene(Waiter(2), GIVEN, FREE, {0, 1, 3, 4}, 4, false, map[1 := 0, 3 := 1])
  }

  function Robbed(): State {
    Scene(Waiter(2), GIVEN, FREE, {0, 3, 4}, 4, false, map[3 := 1])
  }

  lemma TaskFourComes()
    ensures Goes(BothGiven(true), Unblock(4), Scene(Waiter(2), GIVEN, FREE, {0, 1, 3, 4}, 0, true, map[1 := 0, 3 := 1]))
    ensures Goes(Scene(Waiter(2), GIVEN, FREE, {0, 1, 3, 4}, 0, true, map[1 := 0, 3 := 1]), SwitchTo(4), Ambushed())
  {
  }

  lemma AmbushRuns()
    ensures Possible(TwoMutexes(), Ambush()) && DisciplinedRun(TwoMutexes(), Ambush())
    ensures Run(TwoMutexes(), Ambush()) == Ambushed()
  {
    GiveSecond();
    ThenGiveFirst();
    TaskFourComes();
    hide Goes, Scene, Possible, DisciplinedRun, Run;
    TraceRuns([TwoMutexes(), SecondGiven(), BothGiven(true),
               Scene(Waiter(2), GIVEN, FREE, {0, 1, 3, 4}, 0, true, map[1 := 0, 3 := 1]), Ambushed()], Ambush());
  }

  lemma RobberyGoes(step: Step)
    requires step == Suspend(1) || step == Delete(1)
    ensures Robs(Ambushed(), 1) && Enabled(Ambushed(), step) && !Disciplined(Ambushed(), step)
    ensures Apply(Ambushed(), step) == Robbed()
  {
    var s := Ambushed();
    assert Removed(s, 1).mutexes == s.mutexes;
    assert Removed(s, 1).ready == Robbed().ready && Removed(s, 1).retry == Robbed().retry;
  }

  lemma AfterRobbery()
    ensures Possible(Robbed(), [Block, SwitchTo(0), Take(0)]) && DisciplinedRun(Robbed(), [Block, SwitchTo(0), Take(0)])
    ensures HolderBelow(Run(Robbed(), [Block, SwitchTo(0), Take(0)]), 0, 2)
  {
    var a, b := Scene(Waiter(2), GIVEN, FREE, {0, 3}, 4, true, map[3 := 1]), Scene(Waiter(2), GIVEN, FREE, {0, 3}, 0, false, map[3 := 1]);
    TaskZeroIsHighest();
    TakeAgain({0, 3}, false, map[3 := 1]);
    hide Scene, Possible, DisciplinedRun, Run, Enabled, Apply, Disciplined, HolderBelow;
    TraceRuns([Robbed(), a, b, Apply(b, Take(0))], [Block, SwitchTo(0), Take(0)]);
  }

  lemma TaskZeroIsHighest()
    ensures Goes(Robbed(), Block, Scene(Waiter(2), GIVEN, FREE, {0, 3}, 4, true, map[3 := 1]))
    ensures Goes(Scene(Waiter(2), GIVEN, FREE, {0, 3}, 4, true, map[3 := 1]), SwitchTo(0),
                 Scene(Waiter(2), GIVEN, FREE, {0, 3}, 0, false, map[3 := 1]))
  {
  }

  /**
  A suspension or deletion of the task that was woken.  Task 0 gives both mutexes back as it
  should, which wakes task 1; but task 4, of priority 6, comes first and takes task 1 away.  So
  task 0 is the highest again, takes the first mutex, and nobody raises it for task 2.
  */
  lemma RobberyBreaksInheritance(step: Step)
    requires step == Suspend(1) || step == Delete(1)
    ensures Initial(Start()) && Robs(Run(Start(), Approach() + Ambush()), 1)
    ensures OneLapse(Start(), Approach() + Ambush(), step, [Block, SwitchTo(0), Take(0)], 0, 2)
  {
    StartIsInitial();
    ApproachRuns();
    AmbushRuns();
    RobberyGoes(step);
    AfterRobbery();
    hide Enabled, Disciplined, Apply, Approach, Ambush, Start, TwoMutexes, HolderBelow, Scene, Robs, Robbed, Ambushed;
    RunAppend(Start(), Approach(), Ambush());
    LapseFrom(Approach() + Ambush(), step, [Block, SwitchTo(0), Take(0)], Ambush(), Ambushed(), Robbed(),
      Run(Robbed(), [Block, SwitchTo(0), Take(0)]));
  }

  /** A priority set by hand: task 1, which waits for task 0, is raised to 7, and task 0 stays at 5. */
  lemma SettingBreaksInheritance()
    ensures Initial(Start()) && Unsettles(Run(Start(), Approach()), 1, 7)
    ensures Possible(Start(), Approach() + [SetPriority(1, 7)]) && DisciplinedRun(Start(), Approach())
    ensures var e := Run(Start(), Approach() + [SetPriority(1, 7)]);
            && |e.mutexes| == 2 && e.mutexes[0].holder == Some(0) && 1 in e.mutexes[0].waiting
            && 0 in e.tcb && e.tcb[0].priority == 5 && 1 in e.tcb && e.tcb[1].priority == 7
  {
    StartIsInitial();
    ApproachRuns();
    SettingUnsettles();
    var s, e := TwoMutexes(), Apply(TwoMutexes(), SetPriority(1, 7));
    hide Apply, Enabled, Disciplined, Start, Approach, TwoMutexes, Unsettles;
    RunAppend(Start(), Approach(), [SetPriority(1, 7)]);
    assert [SetPriority(1, 7)][1..] == [];
    NoMore(e);
    assert Possible(s, [SetPriority(1, 7)]) && Run(s, [SetPriority(1, 7)]) == e;
  }

  lemma SettingUnsettles()
    ensures var s := TwoMutexes(); Enabled(s, SetPriority(1, 7)) && Unsettles(s, 1, 7)
    ensures var e := Apply(TwoMutexes(), SetPriority(1, 7));
            && |e.mutexes| == 2 && e.mutexes[0].holder == Some(0) && 1 in e.mutexes[0].waiting
            && 0 in e.tcb && e.tcb[0].priority == 5 && 1 in e.tcb && e.tcb[1].priority == 7
  {
    var s := TwoMutexes();
    assert PrioritySet(Get(s.tcb, 1), 7).priority == 7;
    assert 1 in s.mutexes[0].waiting && IsMutex(s, 0) && Upsets(s, 0, 1, 7);
  }

  // ----- Waits of a task that holds a mutex

  /** Four tasks, of which tasks 0 and 1 come to hold a mutex each; task 2 has priority p, and task 3 priority 5. */
  function Cast(x: Tcb, y: Tcb, p: int, a: Mutex, b: Mutex, ready: set<Task>, current: Task, mustYield: bool,
                retry: map<Task, int>): State {
    State(map[0 := x, 1 := y, 2 := Waiter(p), 3 := Waiter(5)], [a, b], ready, current, mustYield, retry)
  }

  lemma CastIsInitial(b: int, c: int, p: int)
    requires 0 <= b < MAX_PRIORITIES && 0 <= c < MAX_PRIORITIES && 0 <= p < MAX_PRIORITIES
    ensures Initial(Cast(Waiter(b), Waiter(c), p, FREE, FREE, {0}, 0, true, map[]))
  {
  }

  /** A task that does not outrank the one that waits goes behind it. */
  lemma Behind(tcb: map<Task, Tcb>, w: Task, c: Task)
    requires Get(tcb, c).itemValue >= Get(tcb, w).itemValue
    ensures InsertPos(ItemValues(tcb, [w]), Get(tcb, c).itemValue) == 1 && Splice([w], 1, c) == [w, c]
  {
    var v := ItemValues(tcb, [w]);
    assert v[0] == Get(tcb, w).itemValue && v == [v[0]];
    InsertPosUnique(v, Get(tcb, c).itemValue, 1);
  }

  lemma Waits(s: State, m: int, e: State)
    requires IsMutex(s, m) && e == s.(tcb := e.tcb, mutexes := e.mutexes, ready := e.ready, mustYield := true)
    requires e.tcb == Waited(s, m).tcb && |e.mutexes| == |s.mutexes| && e.mutexes == s.mutexes[m := e.mutexes[m]]
    requires e.mutexes[m] == s.mutexes[m].(waiting := e.mutexes[m].waiting) && e.ready == s.ready - {s.current}
    requires e.mutexes[m].waiting ==
             Splice(s.mutexes[m].waiting, InsertPos(ItemValues(e.tcb, s.mutexes[m].waiting), Get(e.tcb, s.current).itemValue), s.current)
    ensures Apply(s, Wait(m)) == e
  {
    hide Splice, InsertPos, ItemValues, Inherited;
  }

  /** Task 0 takes the first mutex, task 1 the second and waits for the first, and task 2 comes. */
  function Lending(k: int): State {
    match k
    case 0 => Cast(Waiter(1), Waiter(2), 3, FREE, FREE, {0}, 0, true, map[])
    case 1 => Cast(Waiter(1), Waiter(2), 3, FREE, FREE, {0}, 0, false, map[])
    case 2 => Cast(Raised(1, 1, 1), Waiter(2), 3, Held(0, []), FREE, {0}, 0, false, map[])
    case 3 => Cast(Raised(1, 1, 1), Waiter(2), 3, Held(0, []), FREE, {0, 1}, 0, true, map[])
    case 4 => Cast(Raised(1, 1, 1), Waiter(2), 3, Held(0, []), FREE, {0, 1}, 1, false, map[])
    case 5 => Cast(Raised(1, 1, 1), Raised(2, 2, 1), 3, Held(0, []), Held(1, []), {0, 1}, 1, false, map[])
    case 6 => Cast(Raised(1, 2, 1), Raised(2, 2, 1), 3, Held(0, [1]), Held(1, []), {0}, 1, true, map[])
    case 7 => Cast(Raised(1, 2, 1), Raised(2, 2, 1), 3, Held(0, [1]), Held(1, []), {0}, 0, false, map[])
    case 8 => Cast(Raised(1, 2, 1), Raised(2, 2, 1), 3, Held(0, [1]), Held(1, []), {0, 2}, 0, true, map[])
    case _ => Cast(Raised(1, 2, 1), Raised(2, 2, 1), 3, Held(0, [1]), Held(1, []), {0, 2}, 2, false, map[])
  }

  lemma LendingBegins()
    ensures Goes(Lending(0), SwitchTo(0), Lending(1))
    ensures Goes(Lending(1), Take(0), Lending(2))
  {
  }

  lemma LendingComes()
    ensures Goes(Lending(2), Unblock(1), Lending(3))
    ensures Goes(Lending(3), SwitchTo(1), Lending(4))
  {
  }

  lemma LendingTakes()
    ensures Goes(Lending(4), Take(1), Lending(5))
  {
  }

  lemma LendingWaits()
    ensures Goes(Lending(5), Wait(0), Lending(6))
  {
    var s, e := Lending(5), Lending(6);
    assert e.tcb == Waited(s, 0).tcb;
    InFront(e.tcb, [], 1);
    Waits(s, 0, e);
  }

  lemma LendingSwitches()
    ensures Goes(Lending(6), SwitchTo(0), Lending(7))
  {
  }

  lemma LendingGoesOn()
    ensures Goes(Lending(7), Unblock(2), Lending(8))
    ensures Goes(Lending(8), SwitchTo(2), Lending(9))
  {
  }

  function ToLend(): seq<Step> {
    [SwitchTo(0), Take(0), Unblock(1), SwitchTo(1), Take(1), Wait(0), SwitchTo(0), Unblock(2), SwitchTo(2)]
  }

  lemma LendingRuns()
    ensures Reaches(Lending(0), ToLend(), Lending(9))
  {
    LendingBegins();
    LendingComes();
    LendingTakes();
    LendingWaits();
    LendingSwitches();
    LendingGoesOn();
    hide Lending, Goes, Enabled, Disciplined, Apply, Run, Possible, DisciplinedRun;
    TraceRuns(seq(10, k => Lending(k)), ToLend());
  }

  /** Task 2 waits for task 1, which inherits its priority, while task 0, for which task 1 waits, stays at 2. */
  function NotLent(): State {
    Cast(Raised(1, 2, 1), Raised(2, 3, 1), 3, Held(0, [1]), Held(1, [2]), {0}, 2, true, map[])
  }

  lemma LendingStops()
    ensures var s := Lending(9);
            && Enabled(s, Wait(1)) && NotLentOn(s, 1) && !Disciplined(s, Wait(1)) && Apply(s, Wait(1)) == NotLent()
            && HolderBelow(NotLent(), 0, 1)
  {
    var s, e := Lending(9), NotLent();
    assert e.tcb == Waited(s, 1).tcb;
    InFront(e.tcb, [], 2);
    Waits(s, 1, e);
    assert LentPriority(s, 1) == 3 && 1 in s.mutexes[0].waiting && IsMutex(s, 0) && Overtakes(s, 0, 1, 3);
    assert Upsets(s, 0, 1, 3);
  }

  /**
  A wait for a task that waits itself, for a lower one.  Task 1 holds the second mutex and waits for the
  first, which task 0 holds.  That is harmless; but then task 2, of priority 3, waits for the second.
  Task 1 inherits its priority, but does not lend it on: task 0 stays at 2.
  */
  lemma NestedWaitBreaksInheritance()
    ensures Initial(Lending(0)) && NotLentOn(Run(Lending(0), ToLend()), 1)
    ensures OneLapse(Lending(0), ToLend(), Wait(1), [], 0, 1)
  {
    CastIsInitial(1, 2, 3);
    LendingRuns();
    LendingStops();
    hide Lending, ToLend, NotLent, Enabled, Disciplined, Apply, Initial, NotLentOn, HolderBelow;
    NoMore(NotLent());
    Lapse(Lending(0), ToLend(), Lending(9), Wait(1), NotLent(), [], NotLent(), 0, 1);
  }

  /** Task 0, of priority 6, takes the first mutex and blocks, task 1 takes the second, and task 2 waits for the first. */
  function Queueing(k: int, b: int): State {
    match k
    case 0 => Cast(Waiter(6), Waiter(b), 4, FREE, FREE, {0}, 0, true, map[])
    case 1 => Cast(Waiter(6), Waiter(b), 4, FREE, FREE, {0}, 0, false, map[])
    case 2 => Cast(Raised(6, 6, 1), Waiter(b), 4, Held(0, []), FREE, {0}, 0, false, map[])
    case 3 => Cast(Raised(6, 6, 1), Waiter(b), 4, Held(0, []), FREE, {}, 0, true, map[])
    case 4 => Cast(Raised(6, 6, 1), Waiter(b), 4, Held(0, []), FREE, {1}, 0, true, map[])
    case 5 => Cast(Raised(6, 6, 1), Waiter(b), 4, Held(0, []), FREE, {1}, 1, false, map[])
    case 6 => Cast(Raised(6, 6, 1), Raised(b, b, 1), 4, Held(0, []), Held(1, []), {1}, 1, false, map[])
    case 7 => Cast(Raised(6, 6, 1), Raised(b, b, 1), 4, Held(0, []), Held(1, []), {1, 2}, 1, true, map[])
    case 8 => Cast(Raised(6, 6, 1), Raised(b, b, 1), 4, Held(0, []), Held(1, []), {1, 2}, 2, false, map[])
    case 9 => Cast(Raised(6, 6, 1), Raised(b, b, 1), 4, Held(0, [2]), Held(1, []), {1}, 2, true, map[])
    case _ => Cast(Raised(6, 6, 1), Raised(b, b, 1), 4, Held(0, [2]), Held(1, []), {1}, 1, false, map[])
  }

  lemma QueueingBegins(b: int)
    requires 1 <= b <= 3
    ensures Goes(Queueing(0, b), SwitchTo(0), Queueing(1, b))
    ensures Goes(Queueing(1, b), Take(0), Queueing(2, b))
  {
  }

  lemma QueueingLeaves(b: int)
    requires 1 <= b <= 3
    ensures Goes(Queueing(2, b), Block, Queueing(3, b))
    ensures Goes(Queueing(3, b), Unblock(1), Queueing(4, b))
  {
  }

  lemma QueueingTakes(b: int)
    requires 1 <= b <= 3
    ensures Goes(Queueing(4, b), SwitchTo(1), Queueing(5, b))
    ensures Goes(Queueing(5, b), Take(1), Queueing(6, b))
  {
  }

  lemma QueueingComes(b: int)
    requires 1 <= b <= 3
    ensures Goes(Queueing(6, b), Unblock(2), Queueing(7, b))
    ensures Goes(Queueing(7, b), SwitchTo(2), Queueing(8, b))
  {
  }

  lemma QueueingWaits(b: int)
    requires 1 <= b <= 3
    ensures Goes(Queueing(8, b), Wait(0), Queueing(9, b))
  {
    var s, e := Queueing(8, b), Queueing(9, b);
    assert e.tcb == Waited(s, 0).tcb;
    InFront(e.tcb, [], 2);
    Waits(s, 0, e);
  }

  lemma QueueingGoesOn(b: int)
    requires 1 <= b <= 3
    ensures Goes(Queueing(9, b), SwitchTo(1), Queueing(10, b))
  {
  }

  function ToQueue(): seq<Step> {
    [SwitchTo(0), Take(0), Block, Unblock(1), SwitchTo(1), Take(1), Unblock(2), SwitchTo(2), Wait(0), SwitchTo(1)]
  }

  lemma QueueingRuns(b: int)
    requires 1 <= b <= 3
    ensures Reaches(Queueing(0, b), ToQueue(), Queueing(10, b))
  {
    QueueingBegins(b);
    QueueingLeaves(b);
    QueueingTakes(b);
    QueueingComes(b);
    QueueingWaits(b);
    QueueingGoesOn(b);
    hide Queueing, Goes, Enabled, Disciplined, Apply, Run, Possible, DisciplinedRun;
    TraceRuns(seq(11, k => Queueing(k, b)), ToQueue());
  }

  /** Task 1, with priority 5, is queued behind task 2; task 0 comes back, gives the mutex back and blocks. */
  function Returning(k: int, y: Tcb, c: Task): State {
    match k
    case 0 => Cast(Raised(6, 6, 1), y, 4, Held(0, [2, 1]), Held(1, [3]), {}, c, true, map[])
    case 1 => Cast(Raised(6, 6, 1), y, 4, Held(0, [2, 1]), Held(1, [3]), {0}, c, true, map[])
    case 2 => Cast(Raised(6, 6, 1), y, 4, Held(0, [2, 1]), Held(1, [3]), {0}, 0, false, map[])
    case 3 => Cast(Waiter(6), y, 4, Mutex(false, 1, None, 0, [1]), Held(1, [3]), {0, 2}, 0, false, map[2 := 0])
    case 4 => Cast(Waiter(6), y, 4, Mutex(false, 1, None, 0, [1]), Held(1, [3]), {2}, 0, true, map[2 := 0])
    case _ => Cast(Waiter(6), y, 4, Mutex(false, 1, None, 0, [1]), Held(1, [3]), {2}, 2, false, map[2 := 0])
  }

  lemma ReturningComes(y: Tcb, c: Task)
    requires y.priority == 5 && (c == 1 || c == 3)
    ensures Goes(Returning(0, y, c), Unblock(0), Returning(1, y, c))
    ensures Goes(Returning(1, y, c), SwitchTo(0), Returning(2, y, c))
  {
  }

  lemma ReturningGives(y: Tcb, c: Task)
    requires y.priority == 5 && (c == 1 || c == 3)
    ensures Goes(Returning(2, y, c), Give(0), Returning(3, y, c))
  {
    var s, e := Returning(2, y, c), Returning(3, y, c);
    var s' := Given(s, 0);
    assert s'.mutexes[0] == e.mutexes[0] && s'.mutexes == e.mutexes;
    assert s'.tcb == e.tcb && s'.ready == e.ready && s'.retry == e.retry;
  }

  lemma ReturningBlocks(y: Tcb, c: Task)
    requires y.priority == 5 && (c == 1 || c == 3)
    ensures Goes(Returning(3, y, c), Block, Returning(4, y, c))
    ensures Goes(Returning(4, y, c), SwitchTo(2), Returning(5, y, c))
  {
  }

  function Return(): seq<Step> {
    [Unblock(0), SwitchTo(0), Give(0), Block, SwitchTo(2), Take(0)]
  }

  /** So task 2 takes it next, at priority 4, while task 1 waits at priority 5. */
  lemma ReturningTakes(y: Tcb, c: Task)
    requires y.priority == 5 && (c == 1 || c == 3)
    ensures var s := Returning(5, y, c); Enabled(s, Take(0)) && Disciplined(s, Take(0)) && HolderBelow(Apply(s, Take(0)), 0, 1)
  {
  }

  lemma ReturnRuns(y: Tcb, c: Task) returns (e: State)
    requires y.priority == 5 && (c == 1 || c == 3)
    ensures Reaches(Returning(0, y, c), Return(), e) && HolderBelow(e, 0, 1)
  {
    e := Apply(Returning(5, y, c), Take(0));
    ReturningComes(y, c);
    ReturningGives(y, c);
    ReturningBlocks(y, c);
    ReturningTakes(y, c);
    hide Returning, Enabled, Disciplined, Apply, Run, Possible, DisciplinedRun, HolderBelow;
    TraceRuns(seq(7, k => if k == 6 then e else Returning(k, y, c)), Return());
  }

  /** Task 1 waits behind task 2, and task 3 comes. */
  function Overtaking(k: int): State {
    match k
    case 0 => Cast(Raised(6, 6, 1), Raised(3, 3, 1), 4, Held(0, [2]), Held(1, []), {1}, 1, false, map[])
    case 1 => Cast(Raised(6, 6, 1), Raised(3, 3, 1), 4, Held(0, [2, 1]), Held(1, []), {}, 1, true, map[])
    case 2 => Cast(Raised(6, 6, 1), Raised(3, 3, 1), 4, Held(0, [2, 1]), Held(1, []), {3}, 1, true, map[])
    case _ => Cast(Raised(6, 6, 1), Raised(3, 3, 1), 4, Held(0, [2, 1]), Held(1, []), {3}, 3, false, map[])
  }

  lemma OvertakingWaits()
    ensures Goes(Overtaking(0), Wait(0), Overtaking(1))
  {
    var s, e := Overtaking(0), Overtaking(1);
    assert e.tcb == Waited(s, 0).tcb;
    Behind(e.tcb, 2, 1);
    Waits(s, 0, e);
  }

  lemma OvertakingComes()
    ensures Goes(Overtaking(1), Unblock(3), Overtaking(2))
    ensures Goes(Overtaking(2), SwitchTo(3), Overtaking(3))
  {
  }

  function ToOvertake(): seq<Step> {
    [Wait(0), Unblock(3), SwitchTo(3)]
  }

  lemma OvertakingRuns()
    ensures Reaches(Overtaking(0), ToOvertake(), Overtaking(3))
  {
    OvertakingWaits();
    OvertakingComes();
    hide Overtaking, Goes, Enabled, Disciplined, Apply, Run, Possible, DisciplinedRun;
    TraceRuns(seq(4, k => Overtaking(k)), ToOvertake());
  }

  lemma OvertakingStarts()
    ensures Initial(Queueing(0, 3)) && Queueing(10, 3) == Overtaking(0)
  {
    CastIsInitial(6, 3, 4);
    hide Initial;
  }

  lemma OvertakingStays()
    ensures var s := Overtaking(3);
            && Enabled(s, Wait(1)) && OutOfTurn(s.tcb, s.mutexes[0].waiting, 1, LentPriority(s, 1)) && !NotLentOn(s, 1)
            && !Disciplined(s, Wait(1)) && Apply(s, Wait(1)) == Returning(0, Raised(3, 5, 1), 3)
  {
    var s, e := Overtaking(3), Returning(0, Raised(3, 5, 1), 3);
    assert e.tcb == Waited(s, 1).tcb;
    InFront(e.tcb, [], 3);
    Waits(s, 1, e);
    var q := s.mutexes[0].waiting;
    assert LentPriority(s, 1) == 5 && q[0] == 2 && q[1] == 1 && Prio(s.tcb, q[0]) == 4;
    assert OutOfTurn(s.tcb, q, 1, 5) && 1 in q && IsMutex(s, 0) && Upsets(s, 0, 1, 5);
  }

  /**
  A wait for a task that waits itself, behind one that it then outranks.  Task 1 holds the second mutex
  and waits for the first behind task 2.  Task 3, of priority 5, waits for the second: task 1 inherits its
  priority but stays behind task 2, which is woken first and then runs below it.
  */
  lemma OvertakingBreaksInheritance()
    ensures Initial(Queueing(0, 3)) && OneLapse(Queueing(0, 3), ToQueue() + ToOvertake(), Wait(1), Return(), 0, 1)
  {
    hide Queueing, Overtaking, Returning, ToQueue, ToOvertake, Return, Enabled, Disciplined, Apply, Initial, HolderBelow,
         OutOfTurn, NotLentOn;
    OvertakingStarts();
    QueueingRuns(3);
    OvertakingRuns();
    OvertakingStays();
    var e := ReturnRuns(Raised(3, 5, 1), 3);
    RunAppend(Queueing(0, 3), ToQueue(), ToOvertake());
    Lapse(Queueing(0, 3), ToQueue() + ToOvertake(), Overtaking(3), Wait(1), Returning(0, Raised(3, 5, 1), 3), Return(), e, 0, 1);
  }

  /** Task 1 has the base priority 3, set by hand, and an inherited priority of 5, which its event list item does not show. */
  const MISLABELLED := Tcb(3, 5, 1, MAX_PRIORITIES - 3)

  /** Task 3 waits for task 1, which inherits its priority and then sets its own to 3. */
  function Misfiling(k: int): State {
    match k
    case 0 => Cast(Raised(6, 6, 1), Raised(2, 2, 1), 4, Held(0, [2]), Held(1, []), {1}, 1, false, map[])
    case 1 => Cast(Raised(6, 6, 1), Raised(2, 2, 1), 4, Held(0, [2]), Held(1, []), {1, 3}, 1, true, map[])
    case 2 => Cast(Raised(6, 6, 1), Raised(2, 2, 1), 4, Held(0, [2]), Held(1, []), {1, 3}, 3, false, map[])
    case 3 => Cast(Raised(6, 6, 1), Raised(2, 5, 1), 4, Held(0, [2]), Held(1, [3]), {1}, 3, true, map[])
    case 4 => Cast(Raised(6, 6, 1), Raised(2, 5, 1), 4, Held(0, [2]), Held(1, [3]), {1}, 1, false, map[])
    case _ => Cast(Raised(6, 6, 1), MISLABELLED, 4, Held(0, [2]), Held(1, [3]), {1}, 1, false, map[])
  }

  lemma MisfilingComes()
    ensures Goes(Misfiling(0), Unblock(3), Misfiling(1))
    ensures Goes(Misfiling(1), SwitchTo(3), Misfiling(2))
  {
  }

  lemma MisfilingWaits()
    ensures Goes(Misfiling(2), Wait(1), Misfiling(3))
  {
    var s, e := Misfiling(2), Misfiling(3);
    assert e.tcb == Waited(s, 1).tcb;
    InFront(e.tcb, [], 3);
    Waits(s, 1, e);
  }

  lemma MisfilingGoesOn()
    ensures Goes(Misfiling(3), SwitchTo(1), Misfiling(4))
  {
  }

  lemma MisfilingSets()
    ensures Goes(Misfiling(4), SetPriority(1, 3), Misfiling(5))
  {
  }

  function ToMisfile(): seq<Step> {
    [Unblock(3), SwitchTo(3), Wait(1), SwitchTo(1), SetPriority(1, 3)]
  }

  lemma MisfilingRuns()
    ensures Reaches(Misfiling(0), ToMisfile(), Misfiling(5))
  {
    MisfilingComes();
    MisfilingWaits();
    MisfilingGoesOn();
    MisfilingSets();
    hide Misfiling, Goes, Enabled, Disciplined, Apply, Run, Possible, DisciplinedRun;
    TraceRuns(seq(6, k => Misfiling(k)), ToMisfile());
  }

  lemma MisfilingStarts()
    ensures Initial(Queueing(0, 2)) && Queueing(10, 2) == Misfiling(0)
  {
    CastIsInitial(6, 2, 4);
    hide Initial;
  }

  lemma MisfilingWaitsBehind()
    ensures var s := Misfiling(5);
            && Enabled(s, Wait(0)) && Misfiled(s, 0) && !Disciplined(s, Wait(0))
            && Apply(s, Wait(0)) == Returning(0, MISLABELLED, 1)
  {
    var s, e := Misfiling(5), Returning(0, MISLABELLED, 1);
    assert e.tcb == Waited(s, 0).tcb;
    Behind(e.tcb, 2, 1);
    Waits(s, 0, e);
    var q := e.mutexes[0].waiting;
    assert q[0] == 2 && q[1] == 1 && Prio(e.tcb, q[0]) == 4 && Prio(e.tcb, 1) == 5;
    assert OutOfTurn(e.tcb, q, 1, 5);
  }

  /**
  A wait that is misfiled.  Task 1 runs at the inherited priority 5 and sets its own to 3: then its event
  list item shows 3, and it is queued behind task 2, of priority 4, which is woken first and then runs below it.
  */
  lemma MisfilingBreaksInheritance()
    ensures Initial(Queueing(0, 2)) && Misfiled(Run(Queueing(0, 2), ToQueue() + ToMisfile()), 0)
    ensures OneLapse(Queueing(0, 2), ToQueue() + ToMisfile(), Wait(0), Return(), 0, 1)
  {
    hide Queueing, Misfiling, Returning, ToQueue, ToMisfile, Return, Enabled, Disciplined, Apply, Initial, HolderBelow, Misfiled;
    MisfilingStarts();
    QueueingRuns(2);
    MisfilingRuns();
    MisfilingWaitsBehind();
    var e := ReturnRuns(MISLABELLED, 1);
    RunAppend(Queueing(0, 2), ToQueue(), ToMisfile());
    Lapse(Queueing(0, 2), ToQueue() + ToMisfile(), Misfiling(5), Wait(0), Returning(0, MISLABELLED, 1), Return(), e, 0, 1);
  }

  /** Task 1 inherits the priority of task 3, sets its own to 3 and waits for task 0; task 2 waits, too, and times out. */
  function Falling(k: int): State {
    match k
    case 0 => Cast(Waiter(1), Waiter(2), 2, FREE, FREE, {0}, 0, true, map[])
    case 1 => Cast(Waiter(1), Waiter(2), 2, FREE, FREE, {0}, 0, false, map[])
    case 2 => Cast(Raised(1, 1, 1), Waiter(2), 2, Held(0, []), FREE, {0}, 0, false, map[])
    case 3 => Cast(Raised(1, 1, 1), Waiter(2), 2, Held(0, []), FREE, {0, 1}, 0, true, map[])
    case 4 => Cast(Raised(1, 1, 1), Waiter(2), 2, Held(0, []), FREE, {0, 1}, 1, false, map[])
    case 5 => Cast(Raised(1, 1, 1), Raised(2, 2, 1), 2, Held(0, []), Held(1, []), {0, 1}, 1, false, map[])
    case 6 => Cast(Raised(1, 1, 1), Raised(2, 2, 1), 2, Held(0, []), Held(1, []), {0, 1, 3}, 1, true, map[])
    case 7 => Cast(Raised(1, 1, 1), Raised(2, 2, 1), 2, Held(0, []), Held(1, []), {0, 1, 3}, 3, false, map[])
    case 8 => Cast(Raised(1, 1, 1), Raised(2, 5, 1), 2, Held(0, []), Held(1, [3]), {0, 1}, 3, true, map[])
    case 9 => Cast(Raised(1, 1, 1), Raised(2, 5, 1), 2, Held(0, []), Held(1, [3]), {0, 1}, 1, false, map[])
    case 10 => Cast(Raised(1, 1, 1), MISLABELLED, 2, Held(0, []), Held(1, [3]), {0, 1}, 1, false, map[])
    case 11 => Cast(Raised(1, 5, 1), MISLABELLED, 2, Held(0, [1]), Held(1, [3]), {0}, 1, true, map[])
    case 12 => Cast(Raised(1, 5, 1), MISLABELLED, 2, Held(0, [1]), Held(1, [3]), {0}, 0, false, map[])
    case 13 => Cast(Raised(1, 5, 1), MISLABELLED, 2, Held(0, [1]), Held(1, [3]), {}, 0, true, map[])
    case 14 => Cast(Raised(1, 5, 1), MISLABELLED, 2, Held(0, [1]), Held(1, [3]), {2}, 0, true, map[])
    case 15 => Cast(Raised(1, 5, 1), MISLABELLED, 2, Held(0, [1]), Held(1, [3]), {2}, 2, false, map[])
    case 16 => Cast(Raised(1, 5, 1), MISLABELLED, 2, Held(0, [1, 2]), Held(1, [3]), {}, 2, true, map[])
    case 17 => Cast(Raised(1, 5, 1), MISLABELLED, 2, Held(0, [1]), Held(1, [3]), {2}, 2, true, map[])
    case _ => Cast(Raised(1, 5, 1), MISLABELLED, 2, Held(0, [1]), Held(1, [3]), {2}, 2, false, map[])
  }

  lemma FallingBegins()
    ensures Goes(Falling(0), SwitchTo(0), Falling(1))
    ensures Goes(Falling(1), Take(0), Falling(2))
  {
  }

  lemma FallingComes()
    ensures Goes(Falling(2), Unblock(1), Falling(3))
    ensures Goes(Falling(3), SwitchTo(1), Falling(4))
  {
  }

  lemma FallingTakes()
    ensures Goes(Falling(4), Take(1), Falling(5))
    ensures Goes(Falling(5), Unblock(3), Falling(6))
  {
  }

  lemma FallingSwitches()
    ensures Goes(Falling(6), SwitchTo(3), Falling(7))
  {
  }

  lemma FallingLends()
    ensures Goes(Falling(7), Wait(1), Falling(8))
  {
    var s, e := Falling(7), Falling(8);
    assert e.tcb == Waited(s, 1).tcb;
    InFront(e.tcb, [], 3);
    Waits(s, 1, e);
  }

  lemma FallingGoesOn()
    ensures Goes(Falling(8), SwitchTo(1), Falling(9))
  {
  }

  lemma FallingSets()
    ensures Goes(Falling(9), SetPriority(1, 3), Falling(10))
  {
  }

  lemma FallingWaits()
    ensures Goes(Falling(10), Wait(0), Falling(11))
  {
    var s, e := Falling(10), Falling(11);
    assert e.tcb == Waited(s, 0).tcb;
    InFront(e.tcb, [], 1);
    Waits(s, 0, e);
  }

  lemma FallingLeaves()
    ensures Goes(Falling(11), SwitchTo(0), Falling(12))
    ensures Goes(Falling(12), Block, Falling(13))
  {
  }

  lemma FallingReturns()
    ensures Goes(Falling(13), Unblock(2), Falling(14))
    ensures Goes(Falling(14), SwitchTo(2), Falling(15))
  {
  }

  lemma FallingQueues()
    ensures Goes(Falling(15), Wait(0), Falling(16))
  {
    var s, e := Falling(15), Falling(16);
    assert e.tcb == Waited(s, 0).tcb;
    Behind(e.tcb, 1, 2);
    Waits(s, 0, e);
  }

  lemma FallingTimesOut()
    ensures Goes(Falling(16), TimedOut(2, 0), Falling(17))
  {
    var s, e := Falling(16), Falling(17);
    assert Dropped([1, 2], 2) == [1];
    assert Apply(s, TimedOut(2, 0)).mutexes == e.mutexes && Apply(s, TimedOut(2, 0)).ready == e.ready;
  }

  lemma FallingEnds()
    ensures Goes(Falling(17), SwitchTo(2), Falling(18))
  {
  }

  function ToFall(): seq<Step> {
    [SwitchTo(0), Take(0), Unblock(1), SwitchTo(1), Take(1), Unblock(3), SwitchTo(3), Wait(1), SwitchTo(1),
     SetPriority(1, 3), Wait(0), SwitchTo(0), Block, Unblock(2), SwitchTo(2), Wait(0), TimedOut(2, 0), SwitchTo(2)]
  }

  lemma FallingRuns()
    ensures Reaches(Falling(0), ToFall(), Falling(18))
  {
    FallingBegins();
    FallingComes();
    FallingTakes();
    FallingSwitches();
    FallingLends();
    FallingGoesOn();
    FallingSets();
    FallingWaits();
    FallingLeaves();
    FallingReturns();
    FallingQueues();
    FallingTimesOut();
    FallingEnds();
    hide Falling, Goes, Enabled, Disciplined, Apply, Run, Possible, DisciplinedRun;
    TraceRuns(seq(19, k => Falling(k)), ToFall());
  }

  function Fallen(): State {
    Cast(Raised(1, 3, 1), MISLABELLED, 2, Held(0, [1]), Held(1, [3]), {2}, 2, false, map[])
  }

  lemma FallingFalls()
    ensures var s := Falling(18);
            && Enabled(s, AfterTimeout(0)) && LetsDown(s, 0) && !Disciplined(s, AfterTimeout(0))
            && Apply(s, AfterTimeout(0)) == Fallen() && HolderBelow(Fallen(), 0, 1)
  {
    var s := Falling(18);
    assert HighestWaiting(s.tcb, s.mutexes[0]) == 3;
    assert DisinheritedAfterTimeout(Get(s.tcb, 0), 3) == Raised(1, 3, 1);
    assert 1 in s.mutexes[0].waiting && Prio(s.tcb, 1) == 5 && IsMutex(s, 0) && Lags(s, 0, 0, 3) && Upsets(s, 0, 0, 3);
    assert Apply(s, AfterTimeout(0)).tcb == Fallen().tcb;
  }

  /**
  A fall after a time-out.  Task 0 holds the first mutex at priority 5, which task 1, waiting, has lent it;
  but the event list item of task 1 shows the 3 that it has set by hand.  When task 2 times out, the kernel
  reads the item and lets task 0 fall to 3.
  */
  lemma FallingBreaksInheritance()
    ensures Initial(Falling(0)) && LetsDown(Run(Falling(0), ToFall()), 0)
    ensures OneLapse(Falling(0), ToFall(), AfterTimeout(0), [], 0, 1)
  {
    CastIsInitial(1, 2, 2);
    FallingRuns();
    FallingFalls();
    hide Falling, ToFall, Fallen, Enabled, Disciplined, Apply, Initial, LetsDown, HolderBelow;
    NoMore(Fallen());
    Lapse(Falling(0), ToFall(), Falling(18), AfterTimeout(0), Fallen(), [], Fallen(), 0, 1);
  }
}
