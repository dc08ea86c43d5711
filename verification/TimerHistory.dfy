/**
What the commands of a run make of a timer (rtos/source/timers.c): its period, and the time from
which its callbacks are counted, told from the commands alone.
*/
module TimerHistory {
  import opened Config
  import opened Timers

  /** The timer exists: it was created and has not been deleted since. */
  predicate Exists(steps: seq<Step>, id: int) {
    if steps == [] then false
    else
      match steps[|steps| - 1]
      case Create(u, _, _) => u == id || Exists(steps[..|steps| - 1], id)
      case Delete(u, _) => u != id && Exists(steps[..|steps| - 1], id)
      case _ => Exists(steps[..|steps| - 1], id)
  }

  /** The period it was created with, or last given. */
  function PeriodOf(steps: seq<Step>, id: int): int {
    if steps == [] then 0
    else
      match steps[|steps| - 1]
      case Create(u, period, _) => if u == id then period else PeriodOf(steps[..|steps| - 1], id)
      case ChangePeriod(u, period, _) => if u == id then period else PeriodOf(steps[..|steps| - 1], id)
      case _ => PeriodOf(steps[..|steps| - 1], id)
  }

  predicate ReloadOf(steps: seq<Step>, id: int) {
    if steps == [] then false
    else
      match steps[|steps| - 1]
      case Create(u, _, autoReload) => if u == id then autoReload else ReloadOf(steps[..|steps| - 1], id)
      case _ => ReloadOf(steps[..|steps| - 1], id)
  }

  /**
  When it was set going: the time the last start command was sent, or at which a later change of
  period was processed; never, if it has been stopped since.
  */
  function Begun(steps: seq<Step>, id: int): Option<int> {
    if steps == [] then None
    else
      var before := Begun(steps[..|steps| - 1], id);
      match steps[|steps| - 1]
      case Create(u, _, _) => if u == id then None else before
      case Start(u, sent, _) => if u == id then Some(sent) else before
      case Stop(u, _) => if u == id then None else before
      case ChangePeriod(u, _, now) => if u == id then Some(now) else before
      case Delete(u, _) => if u == id then None else before
      case Process(_) => before
  }

  // ----- What passing time does to a timer

  /** From s to s' only time has passed: a timer that runs once may have expired, and then is called once. */
  ghost predicate Elapsed(s: State, s': State, id: int) {
    && (id in s.timers <==> id in s'.timers) && (id in s.log <==> id in s'.log)
    && (id in s.timers && id in s.log ==>
          var x, x', l, l' := s.timers[id], s'.timers[id], s.log[id], s'.log[id];
          && x'.period == x.period && x'.autoReload == x.autoReload && l'.start == l.start
          && (!x.active ==> x' == x && l' == l)
          && (x.active && x.autoReload ==> x'.active)
          && (x.active && !x.autoReload ==>
                if x'.active then l' == l else l'.fired == 1 && l.start + x.period <= Last(s')))
  }

  lemma ElapsedTwice(s: State, s1: State, s2: State, id: int)
    requires Elapsed(s, s1, id) && Elapsed(s1, s2, id) && Last(s1) <= Last(s2)
    ensures Elapsed(s, s2, id)
  {
    hide Last;
  }

  /** Only what is recorded of the timer, and the time, matter. */
  lemma SameRecord(s: State, s': State, id: int)
    requires s'.timers == s.timers && s'.log == s.log
    ensures Elapsed(s, s', id)
  {
  }

  lemma HeadElapsed(s: State, n: int, out: set<int>, u: int)
    requires InvBut(s, out) && s.current != []
    requires s.epoch * TICK_MODULUS + s.current[0].value <= n <= Last(s) && Epoch(n) == s.epoch
    ensures s.current[0].id in s.timers && s.current[0].id in s.log && s.timers[s.current[0].id].period > 0
    ensures Elapsed(s, HeadExpired(s, n), u) && Last(HeadExpired(s, n)) == Last(s)
  {
    HeadFits(s, out);
    var e := s.current[0];
    var l := s.log[e.id];
    hide InvBut, Insert, Missed, NextExpiry;
    ExpiredTimers(s.(current := s.current[1..]), e.id, s.epoch * TICK_MODULUS + e.value, n, u);
    assert !s.timers[e.id].autoReload ==> l.fired == 0 && l.start + s.timers[e.id].period == l.deadline;
  }

  lemma {:induction false} DrainElapsed(s: State, out: set<int>, u: int)
    requires InvBut(s, out) && s.lastTime == MAX_DELAY
    ensures Elapsed(s, Drain(s, out), u)
    decreases |s.current|
  {
    if s.current == [] {
      SameRecord(s, s, u);
    } else {
      HeadDue(s, out);
      HeadExpiredKeeps(s, LastTick(s.epoch), out);
      HeadElapsed(s, LastTick(s.epoch), out, u);
      var m := HeadExpired(s, LastTick(s.epoch));
      hide InvBut, HeadExpired, Elapsed;
      DrainElapsed(m, out, u);
      ElapsedTwice(s, m, Drain(m, out), u);
    }
  }

  lemma SampledElapsed(s: State, now: int, out: set<int>, u: int)
    requires InvBut(s, out) && Timely(s, now)
    ensures Elapsed(s, Sampled(s, now, out), u)
  {
    SampledKeeps(s, now, out);
    var s' := Sampled(s, now, out);
    if Wrap(now) >= s.lastTime {
      SameRecord(s, s', u);
    } else if s.current == [] && s.overflow == [] {
      NothingToDrain(s, out);
      SameRecord(s, s', u);
    } else {
      AtEndKeeps(s, out);
      EpochOf(s, now, out);
      var d := Drain(AtEnd(s), out);
      assert s'.timers == d.timers && s'.log == d.log && Last(d) <= Last(s');
      hide InvBut, Drain, Elapsed, Sampled, Wrap, Epoch;
      DrainElapsed(AtEnd(s), out, u);
      SameRecord(s, AtEnd(s), u);
      SameRecord(d, s', u);
      AtEndLast(s, d);
      ElapsedTwice(s, AtEnd(s), d, u);
      ElapsedTwice(s, d, s', u);
    }
  }

  lemma AtEndLast(s: State, d: State)
    requires d.epoch == s.epoch && d.lastTime == MAX_DELAY
    ensures Last(AtEnd(s)) == Last(d)
  {
  }

  lemma ProcessedElapsed(s: State, now: int, u: int)
    requires Inv(s) && Timely(s, now)
    ensures Elapsed(s, Processed(s, now), u) && Last(Processed(s, now)) == now
  {
    SampledElapsed(s, now, {}, u);
    SampledKeeps(s, now, {});
    var s1 := Sampled(s, now, {});
    if Wrap(now) >= s.lastTime && s.current != [] && s.current[0].value <= Wrap(now) {
      HeadFits(s, {});
      WrapDefined(now);
      assert s1.current == s.current && s1.epoch == Epoch(now);
      hide InvBut, Elapsed, Sampled, HeadExpired, Wrap;
      HeadElapsed(s1, now, {}, u);
      ElapsedTwice(s, s1, HeadExpired(s1, now), u);
    }
  }

  /** The time sampled at the start of a command. */
  lemma OutElapsed(s: State, id: int, now: int, u: int)
    requires Inv(s) && id in s.timers && Timely(TakenOut(s, id), now)
    ensures Elapsed(s, OutAndSampled(s, id, now), u) && OutAndSampled(s, id, now).timers[id] == s.timers[id]
  {
    var t := TakenOut(s, id);
    RemovedKeeps(s, id, {});
    assert {} + {id} == {id};
    SampledElapsed(t, now, {id}, u);
    SampledTimers(t, now, {id}, id);
    SampledKeeps(t, now, {id});
    SameRecord(s, t, u);
    hide InvBut, Elapsed, Sampled, Unlisted;
    TakenLast(s, id, now);
    ElapsedTwice(s, t, Sampled(t, now, {id}), u);
  }

  lemma TakenLast(s: State, id: int, now: int)
    requires Timely(TakenOut(s, id), now)
    ensures Last(TakenOut(s, id)) <= now
  {
  }

  // ----- What a timer owes to the commands

  /** The record of the timer is what these commands make of it, at the last time sampled. */
  ghost predicate Told(s: State, steps: seq<Step>, id: int) {
    && (id in s.timers <==> Exists(steps, id))
    && (id in s.timers && id in s.log ==>
          var x, l := s.timers[id], s.log[id];
          && x.period == PeriodOf(steps, id) && x.autoReload == ReloadOf(steps, id)
          && (x.active ==> Begun(steps, id) == Some(l.start))
          && (!x.active && Begun(steps, id).Some? ==>
                l.start == Begun(steps, id).value && !x.autoReload && l.fired == 1 && l.start + x.period <= Last(s)))
  }

  /** A step that is not about the timer. */
  predicate Spares(step: Step, id: int) {
    step.Process? || step.id != id
  }

  lemma ToldLater(s: State, s': State, steps: seq<Step>, step: Step, id: int)
    requires Told(s, steps, id) && Elapsed(s, s', id) && Last(s) <= Last(s') && Spares(step, id)
    requires s.log.Keys == s.timers.Keys
    ensures Told(s', steps + [step], id)
  {
    assert (steps + [step])[..|steps|] == steps;
    hide Last;
  }

  /** What is recorded of one timer, and the time, are the same. */
  ghost predicate SameFor(s: State, s': State, id: int) {
    && (id in s.timers <==> id in s'.timers) && (id in s.log <==> id in s'.log)
    && (id in s.timers ==> s'.timers[id] == s.timers[id]) && (id in s.log ==> s'.log[id] == s.log[id])
    && s'.epoch == s.epoch && s'.lastTime == s.lastTime
  }

  lemma SameForElapsed(s: State, s1: State, s': State, id: int)
    requires Elapsed(s, s1, id) && SameFor(s1, s', id)
    ensures Elapsed(s, s', id) && Last(s') == Last(s1)
  {
  }

  lemma ExpiredOther(s: State, u: int, x: int, n: int, id: int)
    requires u in s.timers && u in s.log && s.timers[u].period > 0 && u != id
    ensures SameFor(s, Expired(s, u, x, n), id)
  {
    hide Insert, Missed, NextExpiry;
  }

  lemma StartedOther(s: State, u: int, sent: int, now: int, id: int)
    requires u in s.timers && s.timers[u].period > 0 && u != id
    ensures SameFor(s, Started(s, u, sent, now), id)
  {
    var p := s.timers[u].period;
    var s1 := Set(s, u, s.timers[u], sent);
    assert SameFor(s, s1, id);
    if sent + p <= now {
      ExpiredOther(s1, u, sent + p, now, id);
    }
    hide Expired, Insert, Epoch, Wrap;
  }

  /** A step that is not about the timer lets time pass for it, at most. */
  lemma StepElapsed(s: State, step: Step, id: int)
    requires Inv(s) && Enabled(s, step) && Spares(step, id)
    ensures Elapsed(s, Apply(s, step), id) && Last(s) <= Last(Apply(s, step))
  {
    hide InvBut, Elapsed, Last, Processed, OutAndSampled, Started, Insert, Wrap, Epoch;
    var s' := Apply(s, step);
    match step
    case Process(now) =>
      ProcessedElapsed(s, now, id);
      TimelyLast(s, now);
    case Create(u, period, autoReload) =>
      SameRecord(s, s, id);
      SameForElapsed(s, s, s', id);
    case Start(u, sent, now) =>
      var s1 := OutAndSampled(s, u, now);
      OutElapsed(s, u, now, id);
      PeriodIsPositive(s1, u);
      StartedOther(s1, u, sent, now, id);
      SameForElapsed(s, s1, s', id);
      TakenLater(s, u, now);
    case Stop(u, now) =>
      OutElapsed(s, u, now, id);
      SameForElapsed(s, OutAndSampled(s, u, now), s', id);
      TakenLater(s, u, now);
    case ChangePeriod(u, period, now) =>
      OutElapsed(s, u, now, id);
      SameForElapsed(s, OutAndSampled(s, u, now), s', id);
      TakenLater(s, u, now);
    case Delete(u, now) =>
      OutElapsed(s, u, now, id);
      SameForElapsed(s, OutAndSampled(s, u, now), s', id);
      TakenLater(s, u, now);
  }

  lemma TimelyLast(s: State, now: int)
    requires Timely(s, now)
    ensures Last(s) <= now
  {
  }

  lemma TakenLater(s: State, id: int, now: int)
    requires Timely(TakenOut(s, id), now)
    ensures Last(s) <= now
  {
  }

  // ----- The commands to the timer itself

  /** What the last command says, whatever came before it. */
  lemma LastCommand(steps: seq<Step>, step: Step, id: int)
    requires !Spares(step, id)
    ensures var all := steps + [step];
            && (Exists(all, id) <==> step.Create? || (!step.Delete? && Exists(steps, id)))
            && PeriodOf(all, id) == (if step.Create? || step.ChangePeriod? then step.period else PeriodOf(steps, id))
            && ReloadOf(all, id) == (if step.Create? then step.autoReload else ReloadOf(steps, id))
            && Begun(all, id) == if step.Start? then Some(step.sent) else if step.ChangePeriod? then Some(step.now) else None
  {
    assert (steps + [step])[..|steps|] == steps;
  }

  lemma CommandTold(s: State, steps: seq<Step>, step: Step, id: int)
    requires Inv(s) && Enabled(s, step) && Told(s, steps, id) && !Spares(step, id)
    ensures Told(Apply(s, step), steps + [step], id)
  {
    LastCommand(steps, step, id);
    hide InvBut, Elapsed, Processed, OutAndSampled, Started, Filed, Last, Exists, PeriodOf, ReloadOf, Begun;
    if !step.Create? {
      OutElapsed(s, id, step.now, id);
      ElapsedPeriod(s, OutAndSampled(s, id, step.now), id);
    }
    match step
    case Start(u, sent, now) =>
      PeriodIsPositive(OutAndSampled(s, u, now), u);
      StartedRecord(OutAndSampled(s, u, now), id, sent, now);
    case ChangePeriod(u, period, now) =>
      var s1 := OutAndSampled(s, u, now);
      FiledRecord(Set(s1, id, s1.timers[id].(period := period), now), id, now + period);
    case _ =>
  }

  lemma ElapsedPeriod(s: State, s': State, id: int)
    requires Elapsed(s, s', id) && id in s.timers && id in s.log
    ensures id in s'.timers && id in s'.log
    ensures s'.timers[id].period == s.timers[id].period && s'.timers[id].autoReload == s.timers[id].autoReload
  {
  }

  lemma StepTold(s: State, steps: seq<Step>, step: Step, id: int)
    requires Inv(s) && Enabled(s, step) && Told(s, steps, id)
    ensures Told(Apply(s, step), steps + [step], id)
  {
    if Spares(step, id) {
      assert s.log.Keys == s.timers.Keys;
      hide Inv, Told, Apply, Elapsed, Last;
      StepElapsed(s, step, id);
      ToldLater(s, Apply(s, step), steps, step, id);
    } else {
      CommandTold(s, steps, step, id);
    }
  }

  lemma {:induction false} RunTold(s: State, before: seq<Step>, steps: seq<Step>, id: int)
    requires Inv(s) && Possible(s, steps) && Told(s, before, id)
    ensures Told(Run(s, steps), before + steps, id)
    decreases |steps|
  {
    hide Inv, Told, Apply, Enabled;
    if steps == [] {
      assert before + steps == before;
    } else {
      StepKeeps(s, steps[0]);
      StepTold(s, before, steps[0], id);
      RunTold(Apply(s, steps[0]), before + [steps[0]], steps[1..], id);
      assert before + [steps[0]] + steps[1..] == before + steps;
    }
  }

  /**
  The callbacks of a timer that was set going at `begun`, by time `last`: an auto-reload timer is
  called once for each whole period, and goes on; one that runs once is called once, after one period,
  and is then no longer active.
  */
  ghost predicate CalledInTime(x: Timer, l: Log, begun: int, last: int, caughtUp: bool) {
    && x.period > 0 && l.start == begun
    && (x.active ==> l.deadline == begun + (l.fired + 1) * x.period)
    && begun + l.fired * x.period <= last
    && (if x.autoReload then x.active else l.fired == if x.active then 0 else 1)
    && (caughtUp ==>
          l.fired == if x.autoReload then (last - begun) / x.period else if begun + x.period <= last then 1 else 0)
  }

  lemma CountedInTime(x: Timer, l: Log, last: int, caughtUp: bool)
    requires LogFits(x, l, last)
    requires x.active || (!x.autoReload && l.fired == 1 && l.start + x.period <= last)
    requires caughtUp && x.active ==> l.deadline > last
    ensures CalledInTime(x, l, l.start, last, caughtUp)
  {
    if x.active {
      assert (l.fired + 1) * x.period == l.fired * x.period + x.period;
      if caughtUp {
        QuotientUnique(last - l.start, x.period, l.fired);
      }
    }
  }

  /**
  Callbacks follow the commands: after any run a timer exists exactly if the commands left it in
  existence, has the period they gave it last, is not active if it has not been set going, and if
  it has been, has been called exactly in time since then.
  */
  lemma CallbacksFollowCommands(steps: seq<Step>, id: int)
    requires Possible(Initial(), steps)
    ensures var s := Run(Initial(), steps);
            && (id in s.timers <==> Exists(steps, id))
            && (id in s.timers ==>
                  && id in s.log
                  && var x := s.timers[id];
                     && x.period == PeriodOf(steps, id) && x.autoReload == ReloadOf(steps, id)
                     && match Begun(steps, id)
                        case None => !x.active
                        case Some(begun) => CalledInTime(x, s.log[id], begun, Last(s), CaughtUp(s)))
  {
    RunTold(Initial(), [], steps, id);
    assert [] + steps == steps;
    var s := Run(Initial(), steps);
    if id in s.timers {
      RecordFits(s, id);
      hide *;
      ToldMeans(s, steps, id);
      if s.timers[id].active && CaughtUp(s) {
        CaughtUpAhead(s, id);
      }
      if Begun(steps, id).Some? {
        CountedInTime(s.timers[id], s.log[id], Last(s), CaughtUp(s));
      }
    } else {
      assert Told(s, steps, id);
    }
  }

  lemma RecordFits(s: State, id: int)
    requires Inv(s) && id in s.timers
    ensures id in s.log && s.timers[id].period > 0 && LogFits(s.timers[id], s.log[id], Last(s))
  {
  }

  lemma ToldMeans(s: State, steps: seq<Step>, id: int)
    requires Told(s, steps, id) && id in s.timers && id in s.log
    ensures Exists(steps, id)
    ensures var x, l := s.timers[id], s.log[id];
            && x.period == PeriodOf(steps, id) && x.autoReload == ReloadOf(steps, id)
            && (x.active ==> Begun(steps, id) == Some(l.start))
            && (!x.active && Begun(steps, id).Some? ==>
                  l.start == Begun(steps, id).value && !x.autoReload && l.fired == 1 && l.start + x.period <= Last(s))
  {
  }
}
