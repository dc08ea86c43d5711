/** Software timers (rtos/source/timers.c), proved against absolute time. */
module Timers {
  import opened Config
  import opened Lists

  // The timer task keeps two lists sorted by expiry tick, one for the current epoch of the tick
  // count and one for the next, and works out from tick values alone whether a command that was
  // sent a while ago has already expired.

  // ----- Is a timer due?

  datatype Verdict = ProcessNow | InCurrent | InOverflow

  /** The tests of prvInsertTimerInActiveList(). */
  function Classify(next: int, now: int, command: int, period: int): Verdict {
    if next <= now then
      if Wrap(now - command) >= period then ProcessNow else InOverflow
    else
      if now < command && next >= command then ProcessNow else InCurrent
  }

  /** The absolute answer: due, or else filed by the epoch it lies in. */
  function TrueVerdict(expiry: int, now: int): Verdict {
    if expiry <= now then ProcessNow
    else if Epoch(expiry) == Epoch(now) then InCurrent
    else InOverflow
  }

  /** Tick values decide correctly as long as a command is processed within one wrap of being sent. */
  lemma ClassifyExact(sent: int, now: int, period: int)
    requires 0 < period < TICK_MODULUS && sent <= now < sent + TICK_MODULUS
    ensures Classify(Wrap(sent + period), Wrap(now), Wrap(sent), period) == TrueVerdict(sent + period, now)
    ensures TrueVerdict(sent + period, now) == InOverflow ==> Epoch(sent + period) == Epoch(now) + 1
  {
    WrapDefined(sent);
    WrapDefined(now);
    WrapDefined(sent + period);
    WrapDefined(Wrap(now) - Wrap(sent));
  }

  /**
  However late the command is processed: it is judged as if it had been sent at the latest time
  that shows the same tick.  So the verdict "process now" is wrong exactly when at least one
  wrap has passed and the rest of the time since is shorter than the period.
  */
  lemma ClassifyLate(sent: int, now: int, period: int)
    requires 0 < period < TICK_MODULUS && sent <= now
    ensures var v := Classify(Wrap(sent + period), Wrap(now), Wrap(sent), period);
            (v == ProcessNow <==> sent + period <= now) <==>
            !(now - sent >= TICK_MODULUS && Wrap(now - sent) < period)
  {
    var k := Epoch(now - sent);
    var sent' := sent + k * TICK_MODULUS;
    WrapDefined(now - sent);
    assert sent' <= now < sent' + TICK_MODULUS && now - sent' == Wrap(now - sent);
    WrapShift(sent', k);
    WrapShift(sent' + period, k);
    ClassifyExact(sent', now, period);
  }

  /**
  It does go wrong: a timer of 5 ticks that was started at tick 0, by a command processed at tick
  2^32, is filed for tick 2^32 + 5, though it expired long ago.
  */
  lemma ClassifyFilesLate()
    ensures var sent, now, period := 0, TICK_MODULUS, 5;
            && sent + period <= now
            && Classify(Wrap(sent + period), Wrap(now), Wrap(sent), period) == InCurrent
  {
  }

  /** The latest time, up to now, that shows the given tick. */
  function LastShown(tick: int, now: int): int {
    now - Wrap(now - tick)
  }

  /** Of a command, that is the time it was sent, if it was sent less than one wrap ago. */
  lemma LastShownExact(tick: int, now: int, sent: int)
    requires 0 <= tick < TICK_MODULUS
    ensures var t := LastShown(tick, now); t <= now < t + TICK_MODULUS && Wrap(t) == tick
    ensures Wrap(sent) == tick && sent <= now ==> (LastShown(tick, now) == sent <==> now < sent + TICK_MODULUS)
  {
    WrapDefined(now - tick);
    WrapShift(tick, -Epoch(now - tick));
    WrapDefined(sent);
    WrapDefined(LastShown(tick, now));
  }

  // ----- Missed periods

  /** How many further expiries at x + period, x + 2 period, ... are due by time n. */
  function Missed(x: int, n: int, period: int): nat
    requires period > 0
    decreases n - x
  {
    if x + period <= n then 1 + Missed(x + period, n, period) else 0
  }

  /** The first expiry after n of a timer that expired at x. */
  function NextExpiry(x: int, n: int, period: int): int
    requires period > 0
  {
    x + (Missed(x, n, period) + 1) * period
  }

  lemma {:induction false} MissedCount(x: int, n: int, period: int)
    requires period > 0 && x <= n
    ensures var k := Missed(x, n, period);
            && k == (n - x) / period
            && x + k * period <= n < x + (k + 1) * period
    decreases n - x
  {
    if x + period <= n {
      MissedCount(x + period, n, period);
      var k := Missed(x + period, n, period);
      assert (k + 1) * period == k * period + period && (k + 2) * period == (k + 1) * period + period;
      QuotientUnique(n - x, period, k + 1);
    } else {
      QuotientUnique(n - x, period, 0);
    }
  }

  // ----- The timer lists

  /** active is a bit of ucStatus. */
  datatype Timer = Timer(period: int, autoReload: bool, active: bool)

  /** In absolute time: when the timer was started, its callbacks since then, and its next expiry. */
  datatype Log = Log(start: int, fired: int, deadline: int)

  /** A timer in a list, and the value of its list item. */
  datatype Entry = Entry(id: int, value: int)

  /** `epoch` is the epoch of the current list, `lastTime` the tick value last sampled. */
  datatype State = State(timers: map<int, Timer>, log: map<int, Log>, current: seq<Entry>, overflow: seq<Entry>,
                         epoch: int, lastTime: int)

  function Last(s: State): int {
    s.epoch * TICK_MODULUS + s.lastTime
  }

  /** tmrMAX_TIME_BEFORE_OVERFLOW of an epoch, in absolute time. */
  function LastTick(epoch: int): int {
    epoch * TICK_MODULUS + MAX_DELAY
  }

  function Ids(l: seq<Entry>): (v: seq<int>)
    ensures |v| == |l|
  {
    seq(|l|, i requires 0 <= i < |l| => l[i].id)
  }

  function Values(l: seq<Entry>): (v: seq<int>)
    ensures |v| == |l|
  {
    seq(|l|, i requires 0 <= i < |l| => l[i].value)
  }

  /** vListInsert() */
  function Insert(l: seq<Entry>, e: Entry): seq<Entry> {
    Splice(l, InsertPos(Values(l), e.value), e)
  }

  /** uxListRemove(), if the timer is in the list. */
  function Unlisted(l: seq<Entry>, id: int): seq<Entry> {
    if id in Ids(l) then l[..PositionOf(Ids(l), id)] + l[PositionOf(Ids(l), id) + 1..] else l
  }

  /** Timer id goes into the list its absolute expiry d belongs to. */
  function Filed(s: State, id: int, d: int): State
    requires id in s.log
  {
    var s1 := s.(log := s.log[id := s.log[id].(deadline := d)]);
    var e := Entry(id, Wrap(d));
    if Epoch(d) == s.epoch then s1.(current := Insert(s.current, e)) else s1.(overflow := Insert(s.overflow, e))
  }

  function Called(s: State, id: int, n: int): State
    requires id in s.log
  {
    s.(log := s.log[id := s.log[id].(fired := s.log[id].fired + n)])
  }

  function Deactivated(s: State, id: int): State
    requires id in s.timers
  {
    s.(timers := s.timers[id := s.timers[id].(active := false)])
  }

  /** prvProcessExpiredTimer(): timer id, out of its list, expired at x and is processed at n. */
  function Expired(s: State, id: int, x: int, n: int): State
    requires id in s.timers && id in s.log && s.timers[id].period > 0
  {
    if s.timers[id].autoReload then
      var k := Missed(x, n, s.timers[id].period);
      Filed(Called(s, id, k + 1), id, NextExpiry(x, n, s.timers[id].period))
    else Called(Deactivated(s, id), id, 1)
  }

  // ----- The invariant

  /** Each entry shows the expiry of its timer, which lies in this epoch; the list is sorted. */
  ghost predicate ListFits(l: seq<Entry>, log: map<int, Log>, epoch: int) {
    && (forall i :: 0 <= i < |l| ==>
          l[i].id in log && 0 <= l[i].value < TICK_MODULUS && log[l[i].id].deadline == epoch * TICK_MODULUS + l[i].value)
    && Sorted(Values(l)) && Distinct(Ids(l))
  }

  /** The timers that are active are those in one of the lists; those in `out` are in neither. */
  ghost predicate Listed(timers: map<int, Timer>, current: seq<Entry>, overflow: seq<Entry>, out: set<int>) {
    && (forall id :: id in Ids(current) ==> id in timers && id !in Ids(overflow) && id !in out)
    && (forall id :: id in Ids(overflow) ==> id in timers && id !in out)
    && (forall id :: id in timers && id !in out ==>
          (timers[id].active <==> id in Ids(current) || id in Ids(overflow)))
  }

  /** Its next expiry is one period after those already called for, none of which was early. */
  predicate LogFits(x: Timer, l: Log, last: int) {
    && 0 < x.period < TICK_MODULUS
    && (x.active ==> l.fired >= 0 && l.deadline - l.start == (l.fired + 1) * x.period && l.deadline - x.period <= last)
    && (x.active && !x.autoReload ==> l.fired == 0)
  }

  ghost predicate LogsFit(timers: map<int, Timer>, log: map<int, Log>, last: int, out: set<int>) {
    && log.Keys == timers.Keys
    && forall id :: id in timers ==> 0 < timers[id].period < TICK_MODULUS && (id !in out ==> LogFits(timers[id], log[id], last))
  }

  /** Timers in `out` have been taken out of their lists and await a decision. */
  ghost predicate InvBut(s: State, out: set<int>) {
    && 0 <= s.lastTime < TICK_MODULUS && 0 <= s.epoch
    && ListFits(s.current, s.log, s.epoch) && ListFits(s.overflow, s.log, s.epoch + 1)
    && Listed(s.timers, s.current, s.overflow, out) && LogsFit(s.timers, s.log, Last(s), out)
  }

  ghost predicate Inv(s: State) {
    InvBut(s, {})
  }

  /** The ids and the values of a list into which an entry is inserted. */
  lemma InsertParts(l: seq<Entry>, e: Entry)
    ensures var k := InsertPos(Values(l), e.value);
            && Insert(l, e) == Splice(l, k, e)
            && Values(Insert(l, e)) == Splice(Values(l), k, e.value) && Ids(Insert(l, e)) == Splice(Ids(l), k, e.id)
  {
    hide InsertPos;
  }

  lemma SplicedFits(l: seq<Entry>, e: Entry, k: nat, log: map<int, Log>, epoch: int)
    requires k <= |l| && ListFits(l, log, epoch) && e.id in log
    requires 0 <= e.value < TICK_MODULUS && log[e.id].deadline == epoch * TICK_MODULUS + e.value
    requires Sorted(Values(Splice(l, k, e))) && Distinct(Ids(Splice(l, k, e)))
    ensures ListFits(Splice(l, k, e), log, epoch)
  {
    hide Sorted, Distinct;
  }

  lemma InsertFits(l: seq<Entry>, e: Entry, log: map<int, Log>, epoch: int)
    requires ListFits(l, log, epoch) && e.id !in Ids(l) && e.id in log
    requires 0 <= e.value < TICK_MODULUS && log[e.id].deadline == epoch * TICK_MODULUS + e.value
    ensures ListFits(Insert(l, e), log, epoch)
    ensures forall id :: id in Ids(Insert(l, e)) <==> id == e.id || id in Ids(l)
  {
    assert Sorted(Values(l)) && Distinct(Ids(l));
    hide Insert, Sorted, Distinct, ListFits, Splice, InsertPos, Ids, Values;
    var k := InsertPos(Values(l), e.value);
    InsertKeepsSorted(Values(l), e.value);
    InsertParts(l, e);
    InsertMembers(Ring(Ids(l), 0), k, e.id);
    SplicedFits(l, e, k, log, epoch);
  }

  lemma UnlistedFits(l: seq<Entry>, id: int, log: map<int, Log>, epoch: int)
    requires ListFits(l, log, epoch)
    ensures ListFits(Unlisted(l, id), log, epoch)
    ensures forall u :: u in Ids(Unlisted(l, id)) <==> u in Ids(l) && u != id
  {
    var l' := Unlisted(l, id);
    if id in Ids(l) {
      var k := PositionOf(Ids(l), id);
      assert Ids(l') == Dropped(Ids(l), id);
      var v, w := Values(l), Values(l');
      assert forall i :: 0 <= i < |w| ==> w[i] == v[if i < k then i else i + 1];
    }
    DroppedMembers(Ids(l), id);
  }

  /** Changes to the log of other timers do not matter to a list. */
  lemma LogFrame(l: seq<Entry>, log: map<int, Log>, id: int, x: Log, epoch: int)
    requires ListFits(l, log, epoch) && (id !in Ids(l) || (id in log && log[id].deadline == x.deadline))
    ensures ListFits(l, log[id := x], epoch)
  {
    forall i | 0 <= i < |l|
      ensures l[i].id in log[id := x] && log[id := x][l[i].id].deadline == epoch * TICK_MODULUS + l[i].value
    {
      assert Ids(l)[i] == l[i].id;
    }
  }

  lemma RemovedKeeps(s: State, id: int, out: set<int>)
    requires InvBut(s, out) && id in s.timers && id !in out
    ensures InvBut(s.(current := Unlisted(s.current, id), overflow := Unlisted(s.overflow, id)), out + {id})
  {
    UnlistedFits(s.current, id, s.log, s.epoch);
    UnlistedFits(s.overflow, id, s.log, s.epoch + 1);
    hide Unlisted, ListFits;
  }

  /** Filing a timer that was out, for an expiry in this epoch or the next. */
  lemma FiledKeeps(s: State, id: int, d: int, out: set<int>)
    requires InvBut(s, out) && id in out && id in s.timers && id in s.log
    requires s.epoch <= Epoch(d) <= s.epoch + 1
    requires s.timers[id].active && LogFits(s.timers[id], s.log[id].(deadline := d), Last(s))
    ensures InvBut(Filed(s, id, d), out - {id})
    ensures Epoch(d) == s.epoch + 1 ==> Filed(s, id, d).current == s.current
  {
    hide ListFits, Insert, Wrap, LogFits;
    FiledLists(s, id, d, out);
  }

  lemma FiledLists(s: State, id: int, d: int, out: set<int>)
    requires InvBut(s, out) && id in out && id in s.log && s.epoch <= Epoch(d) <= s.epoch + 1
    ensures var s' := Filed(s, id, d);
            && ListFits(s'.current, s'.log, s.epoch) && ListFits(s'.overflow, s'.log, s.epoch + 1)
            && (forall u :: u in Ids(s'.current) <==> u in Ids(s.current) || (u == id && Epoch(d) == s.epoch))
            && (forall u :: u in Ids(s'.overflow) <==> u in Ids(s.overflow) || (u == id && Epoch(d) != s.epoch))
  {
    var x := s.log[id].(deadline := d);
    var log := s.log[id := x];
    LogFrame(s.current, s.log, id, x, s.epoch);
    LogFrame(s.overflow, s.log, id, x, s.epoch + 1);
    WrapDefined(d);
    var e := Entry(id, Wrap(d));
    hide ListFits, Insert, Wrap, LogFits, LogsFit;
    if Epoch(d) == s.epoch {
      InsertFits(s.current, e, log, s.epoch);
    } else {
      InsertFits(s.overflow, e, log, s.epoch + 1);
    }
  }

  // ----- Expiry

  lemma PeriodsAdd(start: int, fired: int, x: int, k: int, period: int)
    requires x - start == (fired + 1) * period
    ensures x + (k + 1) * period - start == (fired + (k + 1) + 1) * period
  {
  }

  /** A reload files the timer for its first expiry after n, in this epoch or the next. */
  lemma ReloadTarget(x: int, n: int, period: int)
    requires 0 < period < TICK_MODULUS && x <= n
    ensures var d := NextExpiry(x, n, period);
            && n < d && d - period <= n && Epoch(n) <= Epoch(d) <= Epoch(n) + 1
            && (n == LastTick(Epoch(n)) ==> Epoch(d) == Epoch(n) + 1)
  {
    MissedCount(x, n, period);
    var k := Missed(x, n, period);
    assert (k + 1) * period == k * period + period;
  }

  lemma CalledKeeps(s: State, id: int, n: int, out: set<int>)
    requires InvBut(s, out) && id in s.log && id in out
    ensures InvBut(Called(s, id, n), out)
  {
    var x := s.log[id].(fired := s.log[id].fired + n);
    LogFrame(s.current, s.log, id, x, s.epoch);
    LogFrame(s.overflow, s.log, id, x, s.epoch + 1);
    hide ListFits, LogFits;
  }

  lemma DeactivatedKeeps(s: State, id: int, out: set<int>)
    requires InvBut(s, out) && id in s.timers && id in out
    ensures InvBut(Deactivated(s, id), out - {id})
  {
    hide ListFits;
  }

  lemma ExpiredKeeps(s: State, id: int, x: int, n: int, out: set<int>)
    requires InvBut(s, out) && id in out && id in s.timers && id in s.log && s.timers[id].active
    requires LogFits(s.timers[id], s.log[id], Last(s)) && x == s.log[id].deadline
    requires x <= n <= Last(s) && Epoch(n) == s.epoch
    ensures InvBut(Expired(s, id, x, n), out - {id})
    ensures n == LastTick(s.epoch) ==> Expired(s, id, x, n).current == s.current
  {
    assert 0 < s.timers[id].period < TICK_MODULUS;
    hide InvBut, LogFits, Filed, NextExpiry;
    if s.timers[id].autoReload {
      ReloadKeeps(s, id, x, n, out);
    } else {
      DeactivatedKeeps(s, id, out);
      LoggedKeeps(Deactivated(s, id), id, out - {id});
    }
  }

  lemma ReloadKeeps(s: State, id: int, x: int, n: int, out: set<int>)
    requires InvBut(s, out) && id in out && id in s.timers && id in s.log && s.timers[id].active
    requires LogFits(s.timers[id], s.log[id], Last(s)) && x == s.log[id].deadline && s.timers[id].autoReload
    requires 0 < s.timers[id].period < TICK_MODULUS
    requires x <= n <= Last(s) && Epoch(n) == s.epoch
    ensures InvBut(Expired(s, id, x, n), out - {id})
    ensures n == LastTick(s.epoch) ==> Expired(s, id, x, n).current == s.current
  {
    hide InvBut, Filed, Missed, LogFits, NextExpiry, Last, LastTick, Epoch, Called;
    var p := s.timers[id].period;
    ReloadTarget(x, n, p);
    ReloadLogFits(s.timers[id], s.log[id], n, Last(s));
    FiledAgain(s, id, Missed(x, n, p) + 1, NextExpiry(x, n, p), out);
  }

  lemma FiledAgain(s: State, id: int, k: int, d: int, out: set<int>)
    requires InvBut(s, out) && id in out && id in s.timers && id in s.log && s.timers[id].active
    requires LogFits(s.timers[id], Log(s.log[id].start, s.log[id].fired + k, d), Last(s))
    requires s.epoch <= Epoch(d) <= s.epoch + 1
    ensures InvBut(Filed(Called(s, id, k), id, d), out - {id})
    ensures Epoch(d) == s.epoch + 1 ==> Filed(Called(s, id, k), id, d).current == s.current
  {
    hide InvBut, Filed, LogFits, Last, Epoch;
    CalledKeeps(s, id, k, out);
    LastOfCalled(s, id, k);
    FiledKeeps(Called(s, id, k), id, d, out);
  }

  lemma LastOfCalled(s: State, id: int, n: int)
    requires id in s.log
    ensures Last(Called(s, id, n)) == Last(s)
  {
  }

  lemma ReloadLogFits(x: Timer, l: Log, n: int, last: int)
    requires LogFits(x, l, last) && x.active && x.autoReload && l.deadline <= n <= last
    ensures var k := Missed(l.deadline, n, x.period);
            LogFits(x, Log(l.start, l.fired + (k + 1), NextExpiry(l.deadline, n, x.period)), last)
  {
    ReloadTarget(l.deadline, n, x.period);
    PeriodsAdd(l.start, l.fired, l.deadline, Missed(l.deadline, n, x.period), x.period);
  }

  /** The log of a timer that is not active may say anything. */
  lemma LoggedKeeps(s: State, id: int, out: set<int>)
    requires InvBut(s, out) && id in s.log && id !in out && id in s.timers && !s.timers[id].active
    ensures InvBut(Called(s, id, 1), out)
  {
    var l := s.log[id].(fired := s.log[id].fired + 1);
    LogFrame(s.current, s.log, id, l, s.epoch);
    LogFrame(s.overflow, s.log, id, l, s.epoch + 1);
    hide ListFits;
  }

  /** The head of the current list, processed at n. */
  function HeadExpired(s: State, n: int): State
    requires s.current != [] && s.current[0].id in s.timers && s.current[0].id in s.log
    requires s.timers[s.current[0].id].period > 0
  {
    var e := s.current[0];
    Expired(s.(current := s.current[1..]), e.id, s.epoch * TICK_MODULUS + e.value, n)
  }

  /** What is known of the head of the current list. */
  lemma HeadFits(s: State, out: set<int>)
    requires InvBut(s, out) && s.current != []
    ensures var id := s.current[0].id;
            && id in s.timers && id in s.log && id !in out && s.timers[id].active && s.timers[id].period > 0
            && LogFits(s.timers[id], s.log[id], Last(s))
            && s.log[id].deadline == s.epoch * TICK_MODULUS + s.current[0].value
            && Unlisted(s.current, id) == s.current[1..] && Unlisted(s.overflow, id) == s.overflow
  {
    var id := s.current[0].id;
    assert Ids(s.current)[0] == id;
    assert id in Ids(s.current);
  }

  lemma HeadExpiredKeeps(s: State, n: int, out: set<int>)
    requires InvBut(s, out) && s.current != []
    requires s.epoch * TICK_MODULUS + s.current[0].value <= n <= Last(s) && Epoch(n) == s.epoch
    ensures s.current[0].id in s.timers && s.current[0].id in s.log && s.timers[s.current[0].id].period > 0
    ensures InvBut(HeadExpired(s, n), out)
    ensures n == LastTick(s.epoch) ==> HeadExpired(s, n).current == s.current[1..]
  {
    hide InvBut, Expired, LogFits, Unlisted;
    HeadFits(s, out);
    var id := s.current[0].id;
    RemovedKeeps(s, id, out);
    ExpiredKeeps(s.(current := s.current[1..]), id, s.log[id].deadline, n, out + {id});
    assert out + {id} - {id} == out;
  }

  // ----- Switching the lists

  /** The loop of prvSwitchTimerLists(): what is left in the current list has expired. */
  ghost function Drain(s: State, out: set<int>): (s': State)
    requires InvBut(s, out) && s.lastTime == MAX_DELAY
    ensures InvBut(s', out) && s'.current == [] && s'.epoch == s.epoch && s'.lastTime == MAX_DELAY
    decreases |s.current|
  {
    if s.current == [] then s
    else
      HeadDue(s, out);
      HeadExpiredKeeps(s, LastTick(s.epoch), out);
      Drain(HeadExpired(s, LastTick(s.epoch)), out)
  }

  lemma HeadDue(s: State, out: set<int>)
    requires InvBut(s, out) && s.current != [] && s.lastTime == MAX_DELAY
    ensures s.epoch * TICK_MODULUS + s.current[0].value <= LastTick(s.epoch) == Last(s)
    ensures Epoch(LastTick(s.epoch)) == s.epoch
  {
  }

  ghost function Switched(s: State, out: set<int>): State
    requires InvBut(s, out)
  {
    AtEndKeeps(s, out);
    var d := Drain(AtEnd(s), out);
    d.(current := d.overflow, overflow := d.current, epoch := s.epoch + 1, lastTime := 0)
  }

  /** At the last tick of its epoch. */
  function AtEnd(s: State): State {
    s.(lastTime := MAX_DELAY)
  }

  lemma AtEndKeeps(s: State, out: set<int>)
    requires InvBut(s, out)
    ensures InvBut(AtEnd(s), out)
  {
    hide ListFits, Listed;
  }

  lemma SwitchedKeeps(s: State, out: set<int>)
    requires InvBut(s, out)
    ensures InvBut(Switched(s, out), out)
    ensures Switched(s, out).epoch == s.epoch + 1 && Switched(s, out).overflow == []
  {
    AtEndKeeps(s, out);
    var d := Drain(AtEnd(s), out);
    hide Drain, LogFits;
    EmptyFits(d.log, s.epoch + 2);
  }

  lemma EmptyFits(log: map<int, Log>, epoch: int)
    ensures ListFits([], log, epoch)
  {
    assert Ids([]) == [] && Values([]) == [];
  }

  /** The timer task looks at the time at least once per wrap, while there is a timer to look after. */
  predicate Timely(s: State, now: int) {
    Last(s) <= now && (now - Last(s) < TICK_MODULUS || (s.current == [] && s.overflow == []))
  }

  /** prvSampleTimeNow(), at absolute time now. */
  ghost function Sampled(s: State, now: int, out: set<int>): State
    requires InvBut(s, out)
  {
    var s1 := if Wrap(now) < s.lastTime then Switched(s, out) else s;
    s1.(epoch := Epoch(now), lastTime := Wrap(now))
  }

  /** The test for a wrap is right, and the lists again hold this epoch and the next. */
  lemma SampledKeeps(s: State, now: int, out: set<int>)
    requires InvBut(s, out) && Timely(s, now)
    ensures InvBut(Sampled(s, now, out), out)
    ensures Last(Sampled(s, now, out)) == now
  {
    var e := Epoch(now);
    EpochOf(s, now, out);
    var s1 := if Wrap(now) < s.lastTime then Switched(s, out) else s;
    if Wrap(now) < s.lastTime {
      SwitchedKeeps(s, out);
      if s.current == [] && s.overflow == [] {
        NothingToDrain(s, out);
      }
    }
    hide Switched, InvBut, Wrap;
    if s1.current == [] && s1.overflow == [] {
      EmptyKeeps(s1, e, Wrap(now), out);
    } else {
      LaterKeeps(s1, Wrap(now), out);
    }
  }

  /** The test for a wrap is right exactly if time was looked at within one wrap. */
  lemma SampleExact(s: State, now: int)
    requires 0 <= s.lastTime < TICK_MODULUS && Last(s) <= now
    ensures Epoch(now) == s.epoch + (if Wrap(now) < s.lastTime then 1 else 0) <==> now - Last(s) < TICK_MODULUS
  {
    WrapDefined(now);
  }

  lemma EpochOf(s: State, now: int, out: set<int>)
    requires InvBut(s, out) && Timely(s, now)
    ensures now == Epoch(now) * TICK_MODULUS + Wrap(now) && now >= 0 && 0 <= Wrap(now) < TICK_MODULUS
    ensures now - Last(s) < TICK_MODULUS ==>
              Epoch(now) == if Wrap(now) < s.lastTime then s.epoch + 1 else s.epoch
  {
    WrapDefined(now);
  }

  lemma LaterKeeps(s: State, lastTime: int, out: set<int>)
    requires InvBut(s, out) && s.lastTime <= lastTime < TICK_MODULUS
    ensures InvBut(s.(lastTime := lastTime), out)
  {
    hide ListFits, Listed;
  }

  lemma EmptyKeeps(s: State, epoch: int, lastTime: int, out: set<int>)
    requires InvBut(s, out) && s.current == [] && s.overflow == []
    requires 0 <= epoch && 0 <= lastTime < TICK_MODULUS && Last(s) <= epoch * TICK_MODULUS + lastTime
    ensures InvBut(s.(epoch := epoch, lastTime := lastTime), out)
  {
    EmptyFits(s.log, epoch);
    EmptyFits(s.log, epoch + 1);
    hide ListFits;
  }

  lemma NothingToDrain(s: State, out: set<int>)
    requires InvBut(s, out) && s.current == [] && s.overflow == []
    ensures var s' := Switched(s, out);
            s'.current == [] && s'.overflow == [] && s'.timers == s.timers && s'.log == s.log
  {
  }

  // ----- The steps of the timer task

  datatype Step =
    | Create(id: int, period: int, autoReload: bool)
    | Process(now: int)                       // prvProcessTimerOrBlockTask()
    | Start(id: int, sent: int, now: int)     // the start and reset commands
    | Stop(id: int, now: int)
    | ChangePeriod(id: int, period: int, now: int)
    | Delete(id: int, now: int)

  /** A command first takes its timer out of its list. */
  function TakenOut(s: State, id: int): State {
    s.(current := Unlisted(s.current, id), overflow := Unlisted(s.overflow, id))
  }

  /** Time is looked at often enough, and commands are processed within one wrap of being sent. */
  predicate Enabled(s: State, step: Step) {
    match step
    case Create(id, period, autoReload) => id !in s.timers && 0 < period < TICK_MODULUS
    case Process(now) => Timely(s, now)
    case Start(id, sent, now) =>
      id in s.timers && Timely(TakenOut(s, id), now) && sent <= now < sent + TICK_MODULUS
    case Stop(id, now) => id in s.timers && Timely(TakenOut(s, id), now)
    case ChangePeriod(id, period, now) =>
      id in s.timers && Timely(TakenOut(s, id), now) && 0 < period < TICK_MODULUS
    case Delete(id, now) => id in s.timers && Timely(TakenOut(s, id), now)
  }

  /** A timer that is out starts to run, with its first expiry one period after `start`. */
  function Set(s: State, id: int, x: Timer, start: int): State {
    s.(timers := s.timers[id := x.(active := true)], log := s.log[id := Log(start, 0, start + x.period)])
  }

  ghost function OutAndSampled(s: State, id: int, now: int): (s': State)
    requires Inv(s) && id in s.timers && Timely(TakenOut(s, id), now)
    ensures InvBut(s', {id}) && Last(s') == now && id in s'.timers && id in s'.log
  {
    RemovedKeeps(s, id, {});
    assert {} + {id} == {id};
    SampledKeeps(TakenOut(s, id), now, {id});
    SampledTimers(TakenOut(s, id), now, {id}, id);
    Sampled(TakenOut(s, id), now, {id})
  }

  lemma ExpiredTimers(s: State, id: int, x: int, n: int, u: int)
    requires id in s.timers && id in s.log && s.timers[id].period > 0
    ensures var s' := Expired(s, id, x, n);
            && s'.timers.Keys == s.timers.Keys && (u in s.timers && u != id ==> s'.timers[u] == s.timers[u])
            && s'.log.Keys == s.log.Keys && (u in s.log && u != id ==> s'.log[u] == s.log[u])
            && (id in s'.timers && s'.timers[id].period == s.timers[id].period)
  {
    hide Insert, Missed, NextExpiry;
  }

  /** Processing expired timers creates and destroys none, and leaves those that are out alone. */
  lemma {:induction false} DrainTimers(s: State, out: set<int>, u: int)
    requires InvBut(s, out) && s.lastTime == MAX_DELAY
    ensures Drain(s, out).timers.Keys == s.timers.Keys && Drain(s, out).log.Keys == s.log.Keys
    ensures u in out && u in s.timers ==> Drain(s, out).timers[u] == s.timers[u]
    decreases |s.current|
  {
    if s.current != [] {
      HeadDue(s, out);
      HeadExpiredKeeps(s, LastTick(s.epoch), out);
      HeadFits(s, out);
      var e := s.current[0];
      hide InvBut, Expired;
      ExpiredTimers(s.(current := s.current[1..]), e.id, s.epoch * TICK_MODULUS + e.value, LastTick(s.epoch), u);
      DrainTimers(HeadExpired(s, LastTick(s.epoch)), out, u);
    }
  }

  lemma SampledTimers(s: State, now: int, out: set<int>, u: int)
    requires InvBut(s, out)
    ensures Sampled(s, now, out).timers.Keys == s.timers.Keys && Sampled(s, now, out).log.Keys == s.log.Keys
    ensures u in out && u in s.timers ==> Sampled(s, now, out).timers[u] == s.timers[u]
  {
    AtEndKeeps(s, out);
    DrainTimers(AtEnd(s), out, u);
    hide Drain;
  }

  ghost function Apply(s: State, step: Step): State
    requires Inv(s) && Enabled(s, step)
  {
    match step
    case Create(id, period, autoReload) =>
      s.(timers := s.timers[id := Timer(period, autoReload, false)], log := s.log[id := Log(0, 0, 0)])
    case Process(now) => Processed(s, now)
    case Start(id, sent, now) => Started(OutAndSampled(s, id, now), id, sent, now)
    case Stop(id, now) => Deactivated(OutAndSampled(s, id, now), id)
    case ChangePeriod(id, period, now) =>
      var s1 := OutAndSampled(s, id, now);
      Filed(Set(s1, id, s1.timers[id].(period := period), now), id, now + period)
    case Delete(id, now) =>
      var s1 := OutAndSampled(s, id, now);
      s1.(timers := s1.timers - {id}, log := s1.log - {id})
  }

  /** The head of the list is processed if it is due, and if the lists were not switched just now. */
  ghost function Processed(s: State, now: int): State
    requires Inv(s) && Timely(s, now)
  {
    var s1 := Sampled(s, now, {});
    if Wrap(now) >= s.lastTime && s.current != [] && s.current[0].value <= Wrap(now) then
      HeadFits(s, {});
      HeadExpired(s1, now)
    else s1
  }

  function Started(s: State, id: int, sent: int, now: int): State
    requires id in s.timers && s.timers[id].period > 0
  {
    var p := s.timers[id].period;
    var s1 := Set(s, id, s.timers[id], sent);
    if sent + p <= now then Expired(s1, id, sent + p, now) else Filed(s1, id, sent + p)
  }

  /** A start counts from when it was sent; a timer that runs once may expire at once. */
  lemma StartedRecord(s: State, id: int, sent: int, now: int)
    requires id in s.timers && s.timers[id].period > 0 && Last(s) == now
    ensures var s' := Started(s, id, sent, now);
            && id in s'.timers && id in s'.log && Last(s') == now && s'.timers.Keys == s.timers.Keys
            && var x, x', l := s.timers[id], s'.timers[id], s'.log[id];
               && x'.period == x.period && x'.autoReload == x.autoReload && l.start == sent
               && (!x'.active ==> !x.autoReload && l.fired == 1 && sent + x.period <= now)
  {
    hide Insert, Missed, NextExpiry, Wrap, Epoch;
  }

  lemma FiledRecord(s: State, id: int, d: int)
    requires id in s.log
    ensures var s' := Filed(s, id, d);
            && s'.timers == s.timers && id in s'.log && s'.log[id].start == s.log[id].start
            && s'.epoch == s.epoch && s'.lastTime == s.lastTime
  {
    hide Insert, Wrap, Epoch;
  }

  lemma PeriodIsPositive(s: State, id: int)
    requires InvBut(s, {id}) && id in s.timers
    ensures s.timers[id].period > 0
  {
  }

  /** A new period counts from when the command is processed. */
  lemma SetRecord(s: State, id: int, period: int, now: int)
    requires id in s.timers
    ensures var s' := Filed(Set(s, id, s.timers[id].(period := period), now), id, now + period);
            && id in s'.timers && id in s'.log && s'.timers[id].active && s'.timers[id].period == period
            && s'.log[id].start == now
  {
    FiledRecord(Set(s, id, s.timers[id].(period := period), now), id, now + period);
    hide Filed;
  }

  lemma SetKeeps(s: State, id: int, x: Timer, start: int)
    requires InvBut(s, {id}) && id in s.timers && 0 < x.period < TICK_MODULUS && start <= Last(s)
    ensures InvBut(Set(s, id, x, start), {id}) && LogFits(x.(active := true), Log(start, 0, start + x.period), Last(s))
  {
    var l := Log(start, 0, start + x.period);
    LogFrame(s.current, s.log, id, l, s.epoch);
    LogFrame(s.overflow, s.log, id, l, s.epoch + 1);
    hide ListFits;
  }

  lemma StartKeeps(s: State, id: int, sent: int, now: int)
    requires InvBut(s, {id}) && id in s.timers && Last(s) == now && sent <= now < sent + TICK_MODULUS
    ensures Inv(Started(s, id, sent, now))
  {
    hide InvBut, Filed, Expired, LogFits, Last, Set;
    StartFits(s, id, now);
    var x := s.timers[id];
    if sent + x.period <= now {
      StartedLate(s, id, sent, now);
    } else {
      NextEpochs(now, sent + x.period);
      StartedInTime(s, id, x, sent);
    }
  }

  lemma StartedInTime(s: State, id: int, x: Timer, start: int)
    requires InvBut(s, {id}) && id in s.timers && start <= Last(s)
    requires 0 < x.period < TICK_MODULUS && s.epoch <= Epoch(start + x.period) <= s.epoch + 1
    ensures Inv(Filed(Set(s, id, x, start), id, start + x.period))
  {
    hide InvBut, Filed, LogFits, Epoch;
    SetKeeps(s, id, x, start);
    assert {id} - {id} == {};
    FiledKeeps(Set(s, id, x, start), id, start + x.period, {id});
  }

  lemma StartedLate(s: State, id: int, sent: int, now: int)
    requires InvBut(s, {id}) && id in s.timers && Last(s) == now
    requires 0 < s.timers[id].period < TICK_MODULUS && Epoch(now) == s.epoch
    requires sent + s.timers[id].period <= now
    ensures Inv(Expired(Set(s, id, s.timers[id], sent), id, sent + s.timers[id].period, now))
  {
    hide InvBut, Expired, LogFits;
    SetKeeps(s, id, s.timers[id], sent);
    assert {id} - {id} == {};
    ExpiredKeeps(Set(s, id, s.timers[id], sent), id, sent + s.timers[id].period, now, {id});
  }

  lemma StartFits(s: State, id: int, now: int)
    requires InvBut(s, {id}) && id in s.timers && Last(s) == now
    ensures 0 < s.timers[id].period < TICK_MODULUS && Epoch(now) == s.epoch
  {
  }

  lemma NextEpochs(now: int, expiry: int)
    requires now < expiry < now + TICK_MODULUS
    ensures Epoch(now) <= Epoch(expiry) <= Epoch(now) + 1
  {
  }

  lemma ChangePeriodKeeps(s: State, id: int, period: int, now: int)
    requires InvBut(s, {id}) && id in s.timers && Last(s) == now && 0 < period < TICK_MODULUS
    ensures Inv(Filed(Set(s, id, s.timers[id].(period := period), now), id, now + period))
  {
    hide InvBut, Filed, LogFits, Epoch, Last, Set;
    StartFits(s, id, now);
    NextEpochs(now, now + period);
    StartedInTime(s, id, s.timers[id].(period := period), now);
  }

  lemma ProcessKeeps(s: State, now: int)
    requires Inv(s) && Timely(s, now)
    ensures Inv(Processed(s, now))
  {
    SampledKeeps(s, now, {});
    if Wrap(now) >= s.lastTime && s.current != [] && s.current[0].value <= Wrap(now) {
      HeadFits(s, {});
      WrapDefined(now);
      HeadExpiredKeeps(Sampled(s, now, {}), now, {});
    }
    hide HeadExpired;
  }

  lemma DeleteKeeps(s: State, id: int)
    requires InvBut(s, {id}) && id in s.timers
    ensures Inv(s.(timers := s.timers - {id}, log := s.log - {id}))
  {
    ForgottenFits(s.current, s.log, id, s.epoch);
    ForgottenFits(s.overflow, s.log, id, s.epoch + 1);
    hide ListFits, LogFits;
  }

  lemma ForgottenFits(l: seq<Entry>, log: map<int, Log>, id: int, epoch: int)
    requires ListFits(l, log, epoch) && id !in Ids(l)
    ensures ListFits(l, log - {id}, epoch)
  {
    forall i | 0 <= i < |l|
      ensures l[i].id in log - {id} && (log - {id})[l[i].id].deadline == epoch * TICK_MODULUS + l[i].value
    {
      assert Ids(l)[i] == l[i].id;
    }
  }

  lemma CreateKeeps(s: State, id: int, period: int, autoReload: bool)
    requires Inv(s) && Enabled(s, Create(id, period, autoReload))
    ensures Inv(Apply(s, Create(id, period, autoReload)))
  {
    LogFrame(s.current, s.log, id, Log(0, 0, 0), s.epoch);
    LogFrame(s.overflow, s.log, id, Log(0, 0, 0), s.epoch + 1);
    hide ListFits;
  }

  lemma StepKeeps(s: State, step: Step)
    requires Inv(s) && Enabled(s, step)
    ensures Inv(Apply(s, step))
  {
    hide InvBut, Processed, Started, Filed, Sampled;
    match step
    case Create(id, period, autoReload) => CreateKeeps(s, id, period, autoReload);
    case Process(now) => ProcessKeeps(s, now);
    case Start(id, sent, now) => StartKeeps(OutAndSampled(s, id, now), id, sent, now);
    case Stop(id, now) =>
      DeactivatedKeeps(OutAndSampled(s, id, now), id, {id});
      assert {id} - {id} == {};
    case ChangePeriod(id, period, now) => ChangePeriodKeeps(OutAndSampled(s, id, now), id, period, now);
    case Delete(id, now) => DeleteKeeps(OutAndSampled(s, id, now), id);
  }

  // ----- Whole runs

  ghost predicate Possible(s: State, steps: seq<Step>)
    requires Inv(s)
    decreases |steps|
  {
    steps == [] || (Enabled(s, steps[0]) && (StepKeeps(s, steps[0]); Possible(Apply(s, steps[0]), steps[1..])))
  }

  ghost function Run(s: State, steps: seq<Step>): (s': State)
    requires Inv(s) && Possible(s, steps)
    ensures Inv(s')
    decreases |steps|
  {
    if steps == [] then s else
      StepKeeps(s, steps[0]);
      Run(Apply(s, steps[0]), steps[1..])
  }

  ghost function Initial(): (s: State)
    ensures Inv(s)
  {
    EmptyFits(map[], 0);
    EmptyFits(map[], 1);
    State(map[], map[], [], [], 0, 0)
  }

  /** No timer in the current list is due at the last time sampled. */
  predicate CaughtUp(s: State) {
    forall i :: 0 <= i < |s.current| ==> s.current[i].value > s.lastTime
  }

  // ----- How long the timer task blocks

  datatype Rest = GoesOn | BlocksFor(wait: int) | BlocksForEver

  /** What the task does when no timer is due: it waits for the next expiry, or for the tick count to wrap. */
  function RestOf(s: State): Rest {
    if s.current != [] then BlocksFor(Wrap(s.current[0].value - s.lastTime))
    else if s.overflow == [] then BlocksForEver
    else BlocksFor(Wrap(0 - s.lastTime))
  }

  /** In absolute time the block ends at the next expiry, or with the wrap; it is empty only at tick 0. */
  lemma BlocksUntilNext(s: State)
    requires Inv(s) && CaughtUp(s) && RestOf(s).BlocksFor?
    ensures var until := Last(s) + RestOf(s).wait;
            && 0 <= RestOf(s).wait < TICK_MODULUS
            && (s.current != [] ==> s.current[0].id in s.log && until == s.log[s.current[0].id].deadline > Last(s))
            && (s.current == [] && s.lastTime > 0 ==> until == (s.epoch + 1) * TICK_MODULUS)
            && (RestOf(s).wait == 0 <==> s.current == [] && s.lastTime == 0)
  {
    if s.current != [] {
      assert s.current[0].value > s.lastTime;
    }
  }

  /**
  A task that comes to look `late` ticks after its block has ended is in time exactly if that is
  less than a wrap after it looked last.  There is always room for one tick less than the tick it
  looked at last, and when no timer is left in the current list, for no more than that.
  */
  lemma LooksInTime(s: State, late: int)
    requires Inv(s) && CaughtUp(s) && RestOf(s).BlocksFor? && late >= 0
    ensures var now := Last(s) + RestOf(s).wait + late;
            && (Timely(s, now) <==> late < TICK_MODULUS - RestOf(s).wait)
            && (late < s.lastTime ==> Timely(s, now))
            && (s.current == [] && s.lastTime > 0 ==> (Timely(s, now) <==> late < s.lastTime))
  {
    BlocksUntilNext(s);
    hide ListFits, Listed, LogsFit, Wrap;
    if s.current != [] {
      assert s.current[0].value > s.lastTime;
      HeadBounds(s);
    }
  }

  lemma HeadBounds(s: State)
    requires Inv(s) && CaughtUp(s) && s.current != []
    ensures 0 <= s.current[0].value < TICK_MODULUS && RestOf(s).wait == s.current[0].value - s.lastTime
  {
    assert s.current[0].value > s.lastTime;
  }

  /** The timer task looked at tick 1, with one timer left, which expires in the next epoch. */
  function OneAhead(): State {
    State(map[0 := Timer(TICK_MODULUS - 1, true, true)], map[0 := Log(1, 0, TICK_MODULUS)], [], [Entry(0, 0)], 0, 1)
  }

  lemma StartedOneAhead(s: State)
    requires s == State(map[0 := Timer(TICK_MODULUS - 1, true, false)], map[0 := Log(0, 0, 0)], [], [], 0, 1)
    ensures Started(s, 0, 1, 1) == OneAhead()
  {
    assert Wrap(TICK_MODULUS) == 0 && Epoch(TICK_MODULUS) == 1;
    assert Values([]) == [] && Insert([], Entry(0, 0)) == [Entry(0, 0)];
    var t := Set(s, 0, s.timers[0], 1);
    assert t == State(map[0 := Timer(TICK_MODULUS - 1, true, true)], map[0 := Log(1, 0, TICK_MODULUS)], [], [], 0, 1);
    var f := Filed(t, 0, TICK_MODULUS);
    assert f.log == OneAhead().log && f.overflow == OneAhead().overflow && f.timers == OneAhead().timers;
  }

  /** The state after a timer of the longest period has been started at tick 1. */
  lemma OneAheadReached()
    ensures var steps := [Create(0, TICK_MODULUS - 1, true), Start(0, 1, 1)];
            Possible(Initial(), steps) && Run(Initial(), steps) == OneAhead()
  {
    var create, start := Create(0, TICK_MODULUS - 1, true), Start(0, 1, 1);
    CreatedOne();
    hide InvBut, Apply, OneAhead;
    var s1 := State(map[0 := Timer(TICK_MODULUS - 1, true, false)], map[0 := Log(0, 0, 0)], [], [], 0, 0);
    StartedOne(s1);
    assert [create, start][1..] == [start] && [start][1..] == [];
    StepKeeps(s1, start);
    assert Possible(OneAhead(), []) && Run(OneAhead(), []) == OneAhead();
    assert Possible(s1, [start]) && Run(s1, [start]) == OneAhead();
  }

  lemma CreatedOne()
    ensures var create := Create(0, TICK_MODULUS - 1, true);
            var s1 := State(map[0 := Timer(TICK_MODULUS - 1, true, false)], map[0 := Log(0, 0, 0)], [], [], 0, 0);
            Enabled(Initial(), create) && Apply(Initial(), create) == s1 && Inv(s1)
  {
    StepKeeps(Initial(), Create(0, TICK_MODULUS - 1, true));
    hide InvBut;
  }

  lemma StartedOne(s: State)
    requires s == State(map[0 := Timer(TICK_MODULUS - 1, true, false)], map[0 := Log(0, 0, 0)], [], [], 0, 0) && Inv(s)
    ensures Enabled(s, Start(0, 1, 1)) && Apply(s, Start(0, 1, 1)) == OneAhead()
  {
    hide InvBut, OneAhead, Started;
    assert Ids([]) == [] && TakenOut(s, 0) == s;
    assert Last(s) == 0;
    assert OutAndSampled(s, 0, 1) == s.(lastTime := 1);
    StartedOneAhead(s.(lastTime := 1));
  }

  /** It does go wrong: if the task then comes one tick late, it does not see that the tick count has wrapped. */
  lemma OneTickLate()
    ensures var s := OneAhead();
            && Inv(s) && CaughtUp(s) && RestOf(s) == BlocksFor(TICK_MODULUS - 1)
            && var now := Last(s) + RestOf(s).wait + 1;
               !Timely(s, now) && Epoch(now) == s.epoch + 1 && !(Wrap(now) < s.lastTime)
  {
    OneAheadReached();
    hide InvBut;
    var s := OneAhead();
    assert s.current == [] && |s.overflow| == 1 && s.lastTime == 1 && s.epoch == 0;
    BlocksUntilNext(s);
  }

  /**
  Every active timer is in exactly one list, has its next expiry exactly one period after those
  it was called back for, and was never called back early; once caught up, an auto-reload timer
  has been called back exactly once for each whole period since it was started.
  */
  lemma CallbacksAreExact(steps: seq<Step>, id: int)
    requires Possible(Initial(), steps)
    ensures var s := Run(Initial(), steps);
            id in s.timers && s.timers[id].active ==>
              && id in s.log && s.timers[id].period > 0
              && (id in Ids(s.current) <==> id !in Ids(s.overflow))
              && var x, l := s.timers[id], s.log[id];
                 && l.deadline == l.start + (l.fired + 1) * x.period
                 && l.start + l.fired * x.period <= Last(s)
                 && (CaughtUp(s) ==> l.deadline > Last(s) && l.fired == (Last(s) - l.start) / x.period)
  {
    var s := Run(Initial(), steps);
    if id in s.timers && s.timers[id].active {
      var x, l := s.timers[id], s.log[id];
      assert (l.fired + 1) * x.period == l.fired * x.period + x.period;
      if CaughtUp(s) {
        CaughtUpAhead(s, id);
        QuotientUnique(Last(s) - l.start, x.period, l.fired);
      }
    }
  }

  lemma CaughtUpAhead(s: State, id: int)
    requires Inv(s) && CaughtUp(s) && id in s.timers && s.timers[id].active
    ensures id in s.log && s.log[id].deadline > Last(s)
  {
    if id in Ids(s.current) {
      var i :| 0 <= i < |s.current| && Ids(s.current)[i] == id;
      assert s.current[i].value > s.lastTime;
    } else {
      var i :| 0 <= i < |s.overflow| && Ids(s.overflow)[i] == id;
      assert s.overflow[i].id == id;
    }
  }

  /** A switch processes all that was left in the old list, and files only into the next epoch. */
  lemma SwitchRefilesAhead(s: State)
    requires Inv(s)
    ensures var s' := Switched(s, {});
            && Inv(s') && s'.overflow == []
            && forall i :: 0 <= i < |s'.current| ==>
                 s'.current[i].id in s'.log && s'.log[s'.current[i].id].deadline > LastTick(s.epoch)
  {
    SwitchedKeeps(s, {});
    hide Switched;
  }

  // ----- The code

  class TimerTask {
    var timers: map<int, Timer>
    var current: seq<Entry>
    var overflow: seq<Entry>
    var lastTime: int
    ghost var log: map<int, Log>
    ghost var epoch: int

    ghost function St(): State
      reads this
    {
      State(timers, log, current, overflow, epoch, lastTime)
    }

    /** The user's callback function: only counted. */
    method CallBack(id: int)
      requires id in log
      modifies this`log
      ensures St() == Called(old(St()), id, 1) && id in log
    {
      log := log[id := log[id].(fired := log[id].fired + 1)];
    }

    /** prvInsertTimerInActiveList(); in absolute time the command is of time `sent` and is processed at `now`. */
    method InsertTimerInActiveList(id: int, next: int, timeNow: int, commandTime: int, ghost sent: int, ghost now: int)
      returns (processNow: bool)
      requires id in timers && id in log && 0 < timers[id].period < TICK_MODULUS && sent <= now < sent + TICK_MODULUS
      requires next == Wrap(sent + timers[id].period) && timeNow == Wrap(now) && commandTime == Wrap(sent)
      requires epoch == Epoch(now)
      modifies this`current, this`overflow, this`log
      ensures processNow <==> sent + timers[id].period <= now
      ensures id in log
      ensures St() == if processNow then old(St()) else Filed(old(St()), id, sent + timers[id].period)
    {
      ClassifyExact(sent, now, timers[id].period);
      hide Wrap, Insert, Epoch;
      processNow := false;
      if next <= timeNow {
        if Wrap(timeNow - commandTime) >= timers[id].period {
          processNow := true;
        } else {
          overflow := Insert(overflow, Entry(id, next));
        }
      } else {
        if timeNow < commandTime && next >= commandTime {
          processNow := true;
        } else {
          current := Insert(current, Entry(id, next));
        }
      }
      if !processNow {
        log := log[id := log[id].(deadline := sent + timers[id].period)];
      }
    }

    /** prvReloadTimer(): the timer expired at x and it is now n. */
    method ReloadTimer(id: int, expired: int, timeNow: int, ghost x: int, ghost n: int)
      requires id in timers && id in log && 0 < timers[id].period < TICK_MODULUS && x <= n < x + TICK_MODULUS
      requires expired == Wrap(x) && timeNow == Wrap(n) && epoch == Epoch(n)
      modifies this`current, this`overflow, this`log
      ensures var s, p := old(St()), timers[id].period;
              St() == Filed(Called(s, id, Missed(x, n, p)), id, NextExpiry(x, n, p)) && id in log
    {
      hide Wrap, Epoch, Filed, Called, Missed, NextExpiry;
      ghost var s := St();
      var expiredTime := expired;
      ghost var y, k := x, 0;
      var p := timers[id].period;
      WrapSum(y, p);
      CalledNever(s, id);
      var again := InsertTimerInActiveList(id, Wrap(expiredTime + p), timeNow, expiredTime, y, n);
      while again
        invariant x <= y <= n && expiredTime == Wrap(y) && id in log && timers == old(timers) && epoch == old(epoch)
        invariant (again <==> y + p <= n) && k + Missed(y, n, p) == Missed(x, n, p)
        invariant NextExpiry(y, n, p) == NextExpiry(x, n, p)
        invariant id in Called(s, id, k).log
        invariant St() == if again then Called(s, id, k) else Filed(Called(s, id, k), id, y + p)
        decreases n - y
      {
        MissedStep(y, n, p);
        CalledAgain(s, id, k);
        WrapSum(y, p);
        expiredTime := Wrap(expiredTime + p);
        y, k := y + p, k + 1;
        WrapSum(y, p);
        CallBack(id);
        again := InsertTimerInActiveList(id, Wrap(expiredTime + p), timeNow, expiredTime, y, n);
      }
      MissedStep(y, n, p);
    }

    /** prvProcessExpiredTimer() for the head of the current list. */
    method ProcessExpiredTimer(nextExpireTime: int, timeNow: int, ghost n: int, ghost out: set<int>)
      requires InvBut(AtEnd(St()), out) && current != [] && nextExpireTime == current[0].value <= timeNow == Wrap(n)
      requires epoch == Epoch(n)
      modifies this`current, this`overflow, this`log, this`timers
      ensures old(current[0].id in timers && current[0].id in log && timers[current[0].id].period > 0)
      ensures St() == HeadExpired(old(St()), n)
    {
      hide InvBut, LogFits, Epoch, Insert, Wrap, Missed, NextExpiry;
      ghost var s := St();
      var id := current[0].id;
      HeadFits(AtEnd(s), out);
      ghost var x := epoch * TICK_MODULUS + nextExpireTime;
      HeadInEpoch(AtEnd(s), n, out);
      current := current[1..];
      ExpireNow(id, nextExpireTime, timeNow, x, n);
    }

    /** prvSwitchTimerLists() */
    method SwitchTimerLists(ghost out: set<int>)
      requires InvBut(St(), out)
      modifies this
      ensures St() == Switched(old(St()), out).(lastTime := old(lastTime))
    {
      ghost var s := St();
      hide InvBut, HeadExpired, Drain, Epoch, Wrap;
      AtEndKeeps(s, out);
      ghost var d := Drain(AtEnd(s), out);
      while current != []
        invariant epoch == s.epoch && lastTime == s.lastTime && InvBut(AtEnd(St()), out)
        invariant d == Drain(AtEnd(St()), out)
        decreases |current|
      {
        DrainUnfolds(St(), out);
        ProcessExpiredTimer(current[0].value, MAX_DELAY, LastTick(epoch), out);
      }
      NoneLeft(AtEnd(St()), out);
      current, overflow := overflow, current;
      epoch := epoch + 1;
    }

    /** prvSampleTimeNow(), at absolute time now. */
    method SampleTimeNow(timeNow: int, ghost now: int, ghost out: set<int>) returns (switched: bool)
      requires InvBut(St(), out) && timeNow == Wrap(now)
      modifies this
      ensures St() == Sampled(old(St()), now, out)
      ensures switched <==> timeNow < old(lastTime)
    {
      hide InvBut, Switched, Wrap;
      switched := false;
      if timeNow < lastTime {
        SwitchTimerLists(out);
        switched := true;
      }
      lastTime := timeNow;
      epoch := Epoch(now);
    }

    /** prvProcessTimerOrBlockTask(), up to the point where the task blocks. */
    method ProcessTimerOrBlock(timeNow: int, ghost now: int) returns (rest: Rest)
      requires Inv(St()) && Timely(St(), now) && timeNow == Wrap(now)
      modifies this
      ensures Inv(St()) && St() == Processed(old(St()), now)
      ensures rest == if timeNow < old(lastTime) || (old(current) != [] && old(current)[0].value <= timeNow) then GoesOn
                      else RestOf(St())
      ensures rest != GoesOn ==> CaughtUp(St()) && Last(St()) == now
    {
      ghost var s := St();
      ProcessKeeps(s, now);
      ProcessedUnfolds(s, now);
      hide InvBut, Wrap, Sampled, HeadExpired, Processed, Epoch;
      var listWasEmpty := current == [];
      var nextExpireTime := if listWasEmpty then 0 else current[0].value;
      rest := GoesOn;
      var switched := SampleTimeNow(timeNow, now, {});
      if !switched {
        if !listWasEmpty && nextExpireTime <= timeNow {
          ProcessExpiredTimer(nextExpireTime, timeNow, now, {});
        } else {
          NothingIsDue(s, St(), now);
          if listWasEmpty {
            listWasEmpty := overflow == [];
          }
          rest := if listWasEmpty then BlocksForEver else BlocksFor(Wrap(nextExpireTime - timeNow));
        }
      }
    }

    /** The start of every command: the timer leaves its list, and the time is sampled. */
    method BeginCommand(id: int, timeNow: int, ghost now: int)
      requires Inv(St()) && id in timers && Timely(TakenOut(St(), id), now) && timeNow == Wrap(now)
      modifies this
      ensures St() == OutAndSampled(old(St()), id, now)
    {
      RemovedKeeps(St(), id, {});
      assert {} + {id} == {id};
      hide InvBut, Unlisted, Wrap, Sampled;
      current, overflow := Unlisted(current, id), Unlisted(overflow, id);
      var _ := SampleTimeNow(timeNow, now, {id});
    }

    /**
    tmrCOMMAND_START and tmrCOMMAND_RESET, sent at tick commandTime: however late it is processed,
    it counts as sent at the latest time that shows that tick.
    */
    method StartCommand(id: int, commandTime: int, timeNow: int, ghost now: int)
      requires Inv(St()) && id in timers && Timely(TakenOut(St(), id), now) && timeNow == Wrap(now)
      requires 0 <= commandTime < TICK_MODULUS
      modifies this
      ensures Inv(St()) && Enabled(old(St()), Start(id, LastShown(commandTime, now), now))
      ensures St() == Apply(old(St()), Start(id, LastShown(commandTime, now), now))
      ensures id in timers && id in log && log[id].start == LastShown(commandTime, now)
    {
      ghost var sent := LastShown(commandTime, now);
      LastShownExact(commandTime, now, sent);
      hide LastShown;
      hide InvBut, Wrap, Started, Epoch, OutAndSampled, Last;
      StepKeeps(St(), Start(id, sent, now));
      BeginCommand(id, timeNow, now);
      StartFits(St(), id, now);
      StartedRecord(St(), id, sent, now);
      StartTimer(id, commandTime, timeNow, sent, now);
    }

    method StartTimer(id: int, commandTime: int, timeNow: int, ghost sent: int, ghost now: int)
      requires id in timers && id in log && 0 < timers[id].period < TICK_MODULUS && sent <= now < sent + TICK_MODULUS
      requires timeNow == Wrap(now) && commandTime == Wrap(sent) && epoch == Epoch(now)
      modifies this
      ensures St() == Started(old(St()), id, sent, now)
    {
      hide Wrap, Filed, Epoch, Expired, Missed, NextExpiry, Deactivated, Called;
      var p := timers[id].period;
      WrapSum(sent, p);
      timers := timers[id := timers[id].(active := true)];
      log := log[id := Log(sent, 0, sent + p)];
      ghost var s1 := St();
      var processNow := InsertTimerInActiveList(id, Wrap(commandTime + p), timeNow, commandTime, sent, now);
      if processNow {
        ExpireNow(id, Wrap(commandTime + p), timeNow, sent + p, now);
      }
    }

    /** What becomes of a timer that expired before it could be filed. */
    method ExpireNow(id: int, expired: int, timeNow: int, ghost x: int, ghost now: int)
      requires id in timers && id in log && 0 < timers[id].period < TICK_MODULUS && x <= now < x + TICK_MODULUS
      requires expired == Wrap(x) && timeNow == Wrap(now) && epoch == Epoch(now)
      modifies this`current, this`overflow, this`log, this`timers
      ensures St() == Expired(old(St()), id, x, now)
    {
      hide Wrap, Filed, Epoch, Missed, NextExpiry;
      ghost var s := St();
      if timers[id].autoReload {
        ReloadTimer(id, expired, timeNow, x, now);
      } else {
        timers := timers[id := timers[id].(active := false)];
      }
      CallBack(id);
      ExpiredInTwo(s, id, x, now);
    }

    /** tmrCOMMAND_STOP */
    method StopCommand(id: int, timeNow: int, ghost now: int)
      requires Inv(St()) && Enabled(St(), Stop(id, now)) && timeNow == Wrap(now)
      modifies this
      ensures Inv(St()) && St() == Apply(old(St()), Stop(id, now))
    {
      StepKeeps(St(), Stop(id, now));
      hide InvBut, Wrap, OutAndSampled;
      BeginCommand(id, timeNow, now);
      timers := timers[id := timers[id].(active := false)];
    }

    /** tmrCOMMAND_CHANGE_PERIOD */
    method ChangePeriodCommand(id: int, period: int, timeNow: int, ghost now: int)
      requires Inv(St()) && Enabled(St(), ChangePeriod(id, period, now)) && timeNow == Wrap(now)
      modifies this
      ensures Inv(St()) && St() == Apply(old(St()), ChangePeriod(id, period, now))
      ensures id in timers && id in log && timers[id].active && timers[id].period == period && log[id].start == now
    {
      hide InvBut, Wrap, Filed, Epoch, OutAndSampled, Last, Set;
      StepKeeps(St(), ChangePeriod(id, period, now));
      BeginCommand(id, timeNow, now);
      StartFits(St(), id, now);
      SetRecord(St(), id, period, now);
      SetPeriod(id, period, timeNow, now);
    }

    method SetPeriod(id: int, period: int, timeNow: int, ghost now: int)
      requires id in timers && id in log && 0 < period < TICK_MODULUS && timeNow == Wrap(now) && epoch == Epoch(now)
      modifies this
      ensures var s := old(St());
              St() == Filed(Set(s, id, s.timers[id].(period := period), now), id, now + period)
    {
      hide Wrap, Filed, Epoch;
      WrapSum(now, period);
      timers := timers[id := timers[id].(active := true, period := period)];
      log := log[id := Log(now, 0, now + period)];
      var _ := InsertTimerInActiveList(id, Wrap(timeNow + period), timeNow, timeNow, now, now);
    }

    /** tmrCOMMAND_DELETE */
    method DeleteCommand(id: int, timeNow: int, ghost now: int)
      requires Inv(St()) && Enabled(St(), Delete(id, now)) && timeNow == Wrap(now)
      modifies this
      ensures Inv(St()) && St() == Apply(old(St()), Delete(id, now))
    {
      StepKeeps(St(), Delete(id, now));
      hide InvBut, Wrap, OutAndSampled;
      BeginCommand(id, timeNow, now);
      timers, log := timers - {id}, log - {id};
    }
  }

  lemma HeadInEpoch(s: State, n: int, out: set<int>)
    requires InvBut(s, out) && s.current != [] && s.current[0].value <= Wrap(n) && s.epoch == Epoch(n)
    ensures var x := s.epoch * TICK_MODULUS + s.current[0].value;
            x <= n < x + TICK_MODULUS && s.current[0].value == Wrap(x)
  {
    WrapDefined(n);
  }

  lemma NoneLeft(s: State, out: set<int>)
    requires InvBut(s, out) && s.lastTime == MAX_DELAY && s.current == []
    ensures Drain(s, out) == s
  {
  }

  lemma MissedStep(y: int, n: int, p: int)
    requires p > 0
    ensures if y + p <= n then Missed(y, n, p) == 1 + Missed(y + p, n, p) && NextExpiry(y + p, n, p) == NextExpiry(y, n, p)
            else Missed(y, n, p) == 0 && NextExpiry(y, n, p) == y + p
  {
  }

  lemma CalledNever(s: State, id: int)
    requires id in s.log
    ensures Called(s, id, 0) == s
  {
    assert s.log[id := s.log[id]] == s.log;
  }

  lemma CalledAgain(s: State, id: int, k: int)
    requires id in s.log
    ensures id in Called(s, id, k).log && id in Called(s, id, k + 1).log
    ensures Called(Called(s, id, k), id, 1) == Called(s, id, k + 1)
  {
  }

  /** The last callback comes after the timer has been filed again. */
  lemma ExpiredInTwo(s: State, id: int, x: int, n: int)
    requires id in s.timers && id in s.log && s.timers[id].period > 0
    ensures var p := s.timers[id].period;
            var s1 := if s.timers[id].autoReload then Filed(Called(s, id, Missed(x, n, p)), id, NextExpiry(x, n, p))
                      else Deactivated(s, id);
            id in s1.log && Expired(s, id, x, n) == Called(s1, id, 1)
  {
    hide Insert, Missed, NextExpiry;
  }

  /** One turn of the loop of prvSwitchTimerLists(), whatever the last time sampled. */
  lemma DrainUnfolds(s: State, out: set<int>)
    requires InvBut(AtEnd(s), out) && s.current != []
    ensures s.current[0].value <= MAX_DELAY == Wrap(LastTick(s.epoch)) && Epoch(LastTick(s.epoch)) == s.epoch
    ensures s.current[0].id in s.timers && s.current[0].id in s.log && s.timers[s.current[0].id].period > 0
    ensures var s' := HeadExpired(s, LastTick(s.epoch));
            && InvBut(AtEnd(s'), out) && s'.epoch == s.epoch && s'.lastTime == s.lastTime
            && s'.current == s.current[1..] && Drain(AtEnd(s'), out) == Drain(AtEnd(s), out)
  {
    var e := AtEnd(s);
    HeadDue(e, out);
    HeadFits(e, out);
    HeadExpiredKeeps(e, LastTick(s.epoch), out);
    HeadExpiredFrame(s, LastTick(s.epoch));
    hide InvBut, HeadExpired;
  }

  lemma HeadExpiredFrame(s: State, n: int)
    requires s.current != [] && s.current[0].id in s.timers && s.current[0].id in s.log
    requires s.timers[s.current[0].id].period > 0
    ensures HeadExpired(AtEnd(s), n) == AtEnd(HeadExpired(s, n))
    ensures HeadExpired(s, n).lastTime == s.lastTime && HeadExpired(s, n).epoch == s.epoch
  {
    hide Insert, Missed, NextExpiry;
  }

  lemma ProcessedUnfolds(s: State, now: int)
    requires Inv(s) && Timely(s, now)
    ensures var s1 := Sampled(s, now, {});
            && InvBut(AtEnd(s1), {}) && s1.epoch == Epoch(now)
            && if Wrap(now) >= s.lastTime && s.current != [] && s.current[0].value <= Wrap(now) then
                 && s1.current == s.current
                 && s.current[0].id in s1.timers && s.current[0].id in s1.log && s1.timers[s.current[0].id].period > 0
                 && Processed(s, now) == HeadExpired(s1, now)
               else Processed(s, now) == s1
  {
    SampledKeeps(s, now, {});
    AtEndKeeps(Sampled(s, now, {}), {});
    if s.current != [] {
      HeadFits(s, {});
    }
    hide InvBut, HeadExpired;
  }

  lemma NothingIsDue(s: State, s': State, now: int)
    requires Inv(s) && Timely(s, now) && Wrap(now) >= s.lastTime && s' == Sampled(s, now, {})
    requires s.current == [] || s.current[0].value > Wrap(now)
    ensures CaughtUp(s') && Last(s') == now
  {
    SampledKeeps(s, now, {});
    assert s'.current == s.current && s'.lastTime == Wrap(now);
    forall i | 0 <= i < |s.current|
      ensures s.current[i].value > Wrap(now)
    {
      assert Values(s.current)[0] <= Values(s.current)[i];
    }
  }
}
