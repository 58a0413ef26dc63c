// The timer table of the scheduler and how a reload reconciles it with the active checks
// (internal/scheduler/scheduler.go, loadChecks and scheduleCheck). SchedulerProtocol adds the
// callbacks in flight.
module Scheduler {
  import opened Prelude
  import opened Schema

  const MIN_INTERVAL := 10

  datatype EnabledCheck = EnabledCheck(id: Id, intervalS: int)

  /** A timer of the runtime: still to fire, its callback running as that run, or neither any more. */
  datatype TimerState = Pending | Running(run: nat) | Over

  datatype Timer = Timer(check: Id, interval: int, st: TimerState)

  /** The scheduler's maps, every timer ever started (by number) and the number of mutexes created. */
  datatype Table = Table(timers: map<Id, nat>, intervals: map<Id, int>, checkMu: map<Id, nat>,
                         pool: seq<Timer>, mutexes: nat)

  function Interval(c: EnabledCheck): int {
    if c.intervalS < MIN_INTERVAL then MIN_INTERVAL else c.intervalS
  }

  /** The active checks and the interval each is to run at. */
  function Wanted(checks: seq<EnabledCheck>): map<Id, int> {
    if checks == [] then map[] else
      var c := checks[|checks| - 1];
      Wanted(checks[..|checks| - 1])[c.id := Interval(c)]
  }

  /** Check ids are a primary key. */
  ghost predicate DistinctIds(checks: seq<EnabledCheck>) {
    forall i, j | 0 <= i < j < |checks| :: checks[i].id != checks[j].id
  }

  /** Stopping a timer only keeps a pending one from firing. */
  function Stop(t: Timer): Timer {
    if t.st.Pending? then t.(st := Over) else t
  }

  ghost predicate Tracked(t: Table, n: nat)
    requires n < |t.pool|
  {
    t.pool[n].check in t.timers && t.timers[t.pool[n].check] == n
  }

  ghost predicate TimersOk(t: Table) {
    (forall id | id in t.timers :: t.timers[id] < |t.pool| && t.pool[t.timers[id]].check == id) &&
    t.intervals.Keys <= t.timers.Keys
  }

  ghost predicate MutexesOk(t: Table) {
    (forall id | id in t.checkMu :: t.checkMu[id] < t.mutexes) &&
    (forall id, jd | id in t.checkMu && jd in t.checkMu && t.checkMu[id] == t.checkMu[jd] :: id == jd)
  }

  ghost predicate TableOk(t: Table) {
    TimersOk(t) && t.timers.Keys <= t.checkMu.Keys && MutexesOk(t)
  }

  // ---------- what a reload does ----------

  /** Stops and forgets the timers of checks that are not active. */
  ghost function Drop(t: Table, ids: set<Id>): Table {
    Table(map id | id in t.timers && id in ids :: t.timers[id], t.intervals - (t.timers.Keys - ids), t.checkMu,
          seq(|t.pool|, n requires 0 <= n < |t.pool| =>
            if Tracked(t, n) && t.pool[n].check !in ids then Stop(t.pool[n]) else t.pool[n]),
          t.mutexes)
  }

  function EnsureMutex(t: Table, id: Id): Table {
    t.(checkMu := if id in t.checkMu then t.checkMu else t.checkMu[id := t.mutexes],
       mutexes := if id in t.checkMu then t.mutexes else t.mutexes + 1)
  }

  function Schedule(t: Table, c: EnabledCheck): Table {
    EnsureMutex(t, c.id).(timers := t.timers[c.id := |t.pool|], intervals := t.intervals[c.id := Interval(c)],
                          pool := t.pool + [Timer(c.id, Interval(c), Pending)])
  }

  function StopTracked(t: Table, id: Id): Table
    requires id in t.timers && t.timers[id] < |t.pool|
  {
    var n := t.timers[id];
    t.(timers := t.timers - {id}, intervals := t.intervals - {id}, pool := t.pool[n := Stop(t.pool[n])])
  }

  /** The end of runAndReschedule: whatever the map says by now, the check gets a new timer. */
  function Rescheduled(t: Table, check: Id, n: nat): Table
    requires n < |t.pool|
  {
    var done := t.pool[n := t.pool[n].(st := Over)];
    t.(timers := t.timers[check := |t.pool|], pool := done + [Timer(check, t.pool[n].interval, Pending)])
  }

  predicate UpToDate(t: Table, c: EnabledCheck) {
    c.id in t.timers && c.id in t.intervals && t.intervals[c.id] == Interval(c)
  }

  function Place(t: Table, c: EnabledCheck): Table
    requires c.id in t.timers ==> t.timers[c.id] < |t.pool|
  {
    if c.id !in t.timers then Schedule(t, c)
    else if UpToDate(t, c) then t
    else Schedule(StopTracked(t, c.id), c)
  }

  lemma StopOk(t: Table, id: Id)
    requires TableOk(t) && id in t.timers
    ensures TableOk(StopTracked(t, id))
  {}

  lemma MutexOk(t: Table, id: Id)
    requires MutexesOk(t)
    ensures MutexesOk(EnsureMutex(t, id)) && EnsureMutex(t, id).checkMu.Keys == t.checkMu.Keys + {id}
  {}

  lemma ScheduleOk(t: Table, c: EnabledCheck)
    requires TableOk(t)
    ensures TableOk(Schedule(t, c))
  {
    MutexOk(t, c.id);
  }

  lemma PlaceOk(t: Table, c: EnabledCheck)
    requires TableOk(t)
    ensures TableOk(Place(t, c))
  {
    if c.id in t.timers && !UpToDate(t, c) {
      StopOk(t, c.id);
      ScheduleOk(StopTracked(t, c.id), c);
    } else if c.id !in t.timers {
      ScheduleOk(t, c);
    }
  }

  lemma DropOk(t: Table, ids: set<Id>)
    requires TableOk(t)
    ensures TableOk(Drop(t, ids))
  {}

  ghost function PlaceAll(t: Table, checks: seq<EnabledCheck>): (t': Table)
    requires TableOk(t)
    ensures TableOk(t')
  {
    if checks == [] then t else
      var before := PlaceAll(t, checks[..|checks| - 1]);
      PlaceOk(before, checks[|checks| - 1]);
      Place(before, checks[|checks| - 1])
  }

  ghost function Reload(t: Table, checks: seq<EnabledCheck>): Table
    requires TableOk(t)
  {
    DropOk(t, Wanted(checks).Keys);
    PlaceAll(Drop(t, Wanted(checks).Keys), checks)
  }

  // ---------- what a reload guarantees ----------

  /** The check already runs at the wanted interval and keeps its timer. */
  predicate Keeps(t: Table, wanted: map<Id, int>, id: Id) {
    id in wanted && id in t.timers && id in t.intervals && t.intervals[id] == wanted[id]
  }

  ghost predicate NewTimer(t: Table, t': Table, id: Id, interval: int) {
    id in t'.timers && |t.pool| <= t'.timers[id] < |t'.pool| && t'.pool[t'.timers[id]] == Timer(id, interval, Pending)
  }

  /** Only wanted checks have entries; one that keeps its interval keeps its timer, the others get a new one. */
  ghost predicate EntryReconciled(t: Table, t': Table, wanted: map<Id, int>, id: Id) {
    if id in wanted then
      id in t'.intervals && t'.intervals[id] == wanted[id] && id in t'.checkMu &&
      if Keeps(t, wanted, id) then id in t'.timers && t'.timers[id] == t.timers[id] else NewTimer(t, t', id, wanted[id])
    else id !in t'.timers && id !in t'.intervals
  }

  /** A timer taken off the map is stopped if still pending, all other timers are untouched, new ones are tracked. */
  ghost predicate TimerReconciled(t: Table, t': Table, wanted: map<Id, int>, n: nat)
    requires n < |t'.pool|
  {
    if n < |t.pool| then
      t'.pool[n] == if Tracked(t, n) && !Keeps(t, wanted, t.pool[n].check) then Stop(t.pool[n]) else t.pool[n]
    else Tracked(t', n)
  }

  ghost predicate KeepsMutexes(t: Table, t': Table) {
    forall id | id in t.checkMu :: id in t'.checkMu && t'.checkMu[id] == t.checkMu[id]
  }

  /**
   * After a reload exactly the active checks are scheduled, each at its interval (never below ten
   * seconds) and with a mutex, and no timer is lost from sight that was not stopped or already running.
   */
  ghost predicate Reconciled(t: Table, t': Table, wanted: map<Id, int>) {
    KeepsMutexes(t, t') && |t.pool| <= |t'.pool| &&
    (forall id :: EntryReconciled(t, t', wanted, id)) && (forall n: nat | n < |t'.pool| :: TimerReconciled(t, t', wanted, n))
  }

  /** A check's entries after the checks in `done` have been placed. */
  ghost predicate EntryPartway(t: Table, t': Table, done: map<Id, int>, id: Id) {
    if id in done then
      id in t'.intervals && t'.intervals[id] == done[id] &&
      if Keeps(t, done, id) then id in t'.timers && t'.timers[id] == t.timers[id] else NewTimer(t, t', id, done[id])
    else
      (id in t'.timers <==> id in t.timers) && (id in t.timers ==> t'.timers[id] == t.timers[id]) &&
      (id in t'.intervals <==> id in t.intervals) && (id in t.intervals ==> t'.intervals[id] == t.intervals[id])
  }

  /** A timer after the checks in `done` have been placed. */
  ghost predicate TimerPartway(t: Table, t': Table, done: map<Id, int>, n: nat)
    requires n < |t'.pool|
  {
    if n < |t.pool| then
      t'.pool[n] == if Tracked(t, n) && t.pool[n].check in done && !Keeps(t, done, t.pool[n].check) then Stop(t.pool[n]) else t.pool[n]
    else Tracked(t', n) && t'.pool[n].check in done
  }

  ghost predicate Partway(t: Table, t': Table, done: map<Id, int>) {
    TableOk(t') && |t.pool| <= |t'.pool| && KeepsMutexes(t, t') &&
    (forall id :: EntryPartway(t, t', done, id)) && (forall n: nat | n < |t'.pool| :: TimerPartway(t, t', done, n))
  }

  lemma PlaceEntry(t: Table, t': Table, done: map<Id, int>, c: EnabledCheck, id: Id)
    requires TableOk(t) && TableOk(t') && |t.pool| <= |t'.pool| && c.id !in done
    requires EntryPartway(t, t', done, id) && EntryPartway(t, t', done, c.id)
    ensures EntryPartway(t, Place(t', c), done[c.id := Interval(c)], id)
  {
    assert UpToDate(t', c) == Keeps(t, done[c.id := Interval(c)], c.id);
  }

  lemma PlaceEntries(t: Table, t': Table, done: map<Id, int>, c: EnabledCheck, t'': Table, more: map<Id, int>)
    requires TableOk(t) && Partway(t, t', done) && c.id !in done && t'' == Place(t', c) && more == done[c.id := Interval(c)]
    ensures forall id :: EntryPartway(t, t'', more, id)
  {
    assert EntryPartway(t, t', done, c.id);
    forall id ensures EntryPartway(t, t'', more, id) {
      assert EntryPartway(t, t', done, id);
      PlaceEntry(t, t', done, c, id);
    }
  }

  lemma KeptTimer(t: Table, t': Table, done: map<Id, int>, c: EnabledCheck, n: nat)
    requires TableOk(t) && TableOk(t') && |t.pool| <= |t'.pool| && c.id !in done && UpToDate(t', c) && n < |t'.pool|
    requires TimerPartway(t, t', done, n) && EntryPartway(t, t', done, c.id)
    ensures TimerPartway(t, t', done[c.id := Interval(c)], n)
  {
    assert UpToDate(t', c) == Keeps(t, done[c.id := Interval(c)], c.id);
  }

  lemma PlaceTimer(t: Table, t': Table, done: map<Id, int>, c: EnabledCheck, n: nat)
    requires TableOk(t) && TableOk(t') && |t.pool| <= |t'.pool| && c.id !in done && n < |Place(t', c).pool|
    requires n < |t'.pool| ==> TimerPartway(t, t', done, n)
    requires EntryPartway(t, t', done, c.id)
    ensures TimerPartway(t, Place(t', c), done[c.id := Interval(c)], n)
  {
    if UpToDate(t', c) {
      KeptTimer(t, t', done, c, n);
    } else {
      assert UpToDate(t', c) == Keeps(t, done[c.id := Interval(c)], c.id);
    }
  }

  lemma PlaceTimers(t: Table, t': Table, done: map<Id, int>, c: EnabledCheck, t'': Table, more: map<Id, int>)
    requires TableOk(t) && Partway(t, t', done) && c.id !in done && t'' == Place(t', c) && more == done[c.id := Interval(c)]
    ensures forall n: nat | n < |t''.pool| :: TimerPartway(t, t'', more, n)
  {
    assert EntryPartway(t, t', done, c.id);
    forall n: nat | n < |t''.pool| ensures TimerPartway(t, t'', more, n) {
      assert n < |t'.pool| ==> TimerPartway(t, t', done, n);
      PlaceTimer(t, t', done, c, n);
    }
  }

  lemma PlaceGrows(t: Table, t': Table, c: EnabledCheck)
    requires TableOk(t') && |t.pool| <= |t'.pool| && KeepsMutexes(t, t')
    ensures |t.pool| <= |Place(t', c).pool| && KeepsMutexes(t, Place(t', c))
  {}

  lemma PlaceOne(t: Table, t': Table, done: map<Id, int>, c: EnabledCheck)
    requires TableOk(t) && Partway(t, t', done) && c.id !in done
    ensures Partway(t, Place(t', c), done[c.id := Interval(c)])
  {
    PlaceOk(t', c);
    PlaceGrows(t, t', c);
    PlaceEntries(t, t', done, c, Place(t', c), done[c.id := Interval(c)]);
    PlaceTimers(t, t', done, c, Place(t', c), done[c.id := Interval(c)]);
  }

  lemma {:induction false} NotYetWanted(checks: seq<EnabledCheck>, id: Id)
    requires forall c | c in checks :: c.id != id
    ensures id !in Wanted(checks)
  {
    if checks != [] {
      NotYetWanted(checks[..|checks| - 1], id);
    }
  }

  lemma {:induction false} PlaceAllPartway(t: Table, checks: seq<EnabledCheck>)
    requires TableOk(t) && DistinctIds(checks)
    ensures Partway(t, PlaceAll(t, checks), Wanted(checks))
  {
    if checks != [] {
      var init, c := checks[..|checks| - 1], checks[|checks| - 1];
      PlaceAllPartway(t, init);
      NotYetWanted(init, c.id);
      PlaceOne(t, PlaceAll(t, init), Wanted(init), c);
    }
  }

  lemma DroppedEntry(t: Table, t': Table, wanted: map<Id, int>, id: Id)
    requires TableOk(t) && TableOk(t') && EntryPartway(Drop(t, wanted.Keys), t', wanted, id)
    ensures EntryReconciled(t, t', wanted, id)
  {
    assert Keeps(Drop(t, wanted.Keys), wanted, id) == Keeps(t, wanted, id);
  }

  lemma DroppedTimer(t: Table, t': Table, wanted: map<Id, int>, n: nat)
    requires TableOk(t) && n < |t'.pool| && TimerPartway(Drop(t, wanted.Keys), t', wanted, n)
    ensures TimerReconciled(t, t', wanted, n)
  {
    if n < |t.pool| {
      var u, id := Drop(t, wanted.Keys), t.pool[n].check;
      assert u.pool[n].check == id && Keeps(u, wanted, id) == Keeps(t, wanted, id);
    }
  }

  lemma ReloadReconciles(t: Table, checks: seq<EnabledCheck>)
    requires TableOk(t) && DistinctIds(checks)
    ensures TableOk(Reload(t, checks)) && Reconciled(t, Reload(t, checks), Wanted(checks))
  {
    var u, t', wanted := Drop(t, Wanted(checks).Keys), Reload(t, checks), Wanted(checks);
    DropOk(t, wanted.Keys);
    PlaceAllPartway(u, checks);
    forall id
      ensures EntryReconciled(t, t', wanted, id)
    {
      assert EntryPartway(u, t', wanted, id);
      DroppedEntry(t, t', wanted, id);
    }
    forall n: nat | n < |t'.pool|
      ensures TimerReconciled(t, t', wanted, n)
    {
      assert TimerPartway(u, t', wanted, n);
      DroppedTimer(t, t', wanted, n);
    }
    assert KeepsMutexes(u, t');
  }

  // ---------- the scheduler ----------

  /** The first loop of a reload, having kept the entries in `kept`. */
  ghost predicate DroppedTo(was: Table, t: Table, kept: set<Id>) {
    (forall id :: id in t.timers <==> id in was.timers && id in kept) &&
    (forall id | id in t.timers :: t.timers[id] == was.timers[id]) &&
    (forall id :: id in t.intervals <==> id in was.intervals && (id in was.timers ==> id in kept)) &&
    (forall id | id in t.intervals :: t.intervals[id] == was.intervals[id]) &&
    t.checkMu == was.checkMu && t.mutexes == was.mutexes && |t.pool| == |was.pool| &&
    forall n: nat | n < |t.pool| ::
      t.pool[n] == if Tracked(was, n) && was.pool[n].check !in kept then Stop(was.pool[n]) else was.pool[n]
  }

  lemma DropIsDroppedTo(was: Table, t: Table, kept: set<Id>, ids: set<Id>)
    requires DroppedTo(was, t, kept) && forall id | id in was.timers :: id in kept <==> id in ids
    ensures t == Drop(was, ids)
  {
    var d := Drop(was, ids);
    assert t.timers == d.timers;
    assert t.intervals == d.intervals;
    assert t.pool == d.pool;
  }

  lemma NothingDropped(was: Table, active: set<Id>)
    requires TableOk(was)
    ensures DroppedTo(was, was, was.timers.Keys + active)
  {
    forall n: nat | n < |was.pool| ensures Tracked(was, n) ==> was.pool[n].check in was.timers.Keys + active {}
  }

  lemma DropOne(was: Table, t: Table, kept: set<Id>, id: Id)
    requires TableOk(was) && DroppedTo(was, t, kept) && id in t.timers && t.timers[id] < |t.pool|
    ensures DroppedTo(was, StopTracked(t, id), kept - {id})
  {}

  method ActiveIntervals(checks: seq<EnabledCheck>) returns (active: map<Id, int>)
    ensures active == Wanted(checks)
  {
    active := map[];
    for i := 0 to |checks|
      invariant active == Wanted(checks[..i])
    {
      assert checks[..i + 1][..i] == checks[..i];
      active := active[checks[i].id := if checks[i].intervalS < MIN_INTERVAL then MIN_INTERVAL else checks[i].intervalS];
    }
    assert checks[..|checks|] == checks;
  }

  class Scheduler {
    var timers: map<Id, nat>
    var intervals: map<Id, int>
    var checkMu: map<Id, nat>
    var pool: seq<Timer>
    var mutexes: nat

    ghost function State(): Table
      reads this
    {
      Table(timers, intervals, checkMu, pool, mutexes)
    }

    constructor ()
      ensures State() == Table(map[], map[], map[], [], 0)
    {
      timers, intervals, checkMu, pool, mutexes := map[], map[], map[], [], 0;
    }

    method StopTimer(id: Id)
      requires id in timers && timers[id] < |pool|
      modifies this`timers, this`intervals, this`pool
      ensures State() == StopTracked(old(State()), id)
    {
      var n := timers[id];
      pool := pool[n := Stop(pool[n])];
      timers := timers - {id};
      intervals := intervals - {id};
    }

    method ScheduleCheck(c: EnabledCheck)
      modifies this
      ensures State() == Schedule(old(State()), c)
    {
      if c.id !in checkMu {
        checkMu, mutexes := checkMu[c.id := mutexes], mutexes + 1;
      }
      var interval := if c.intervalS < MIN_INTERVAL then MIN_INTERVAL else c.intervalS;
      timers := timers[c.id := |pool|];
      pool := pool + [Timer(c.id, interval, Pending)];
      intervals := intervals[c.id := interval];
    }

    /** runCheck's first critical section: the mutex of a check, made on demand. */
    method FindMutex(id: Id) returns (mu: nat)
      modifies this`checkMu, this`mutexes
      ensures State() == EnsureMutex(old(State()), id) && id in checkMu && checkMu[id] == mu
    {
      if id !in checkMu {
        checkMu, mutexes := checkMu[id := mutexes], mutexes + 1;
      }
      mu := checkMu[id];
    }

    /** The last critical section of the callback of timer n. */
    method Reschedule(check: Id, n: nat)
      requires n < |pool|
      modifies this`timers, this`pool
      ensures State() == Rescheduled(old(State()), check, n)
    {
      var interval := pool[n].interval;
      pool := pool[n := pool[n].(st := Over)];
      timers := timers[check := |pool|];
      pool := pool + [Timer(check, interval, Pending)];
    }

    /** One round of the loop over the timer map. */
    method StopUnlessActive(id: Id, active: set<Id>, ghost was: Table, ghost todo: set<Id>)
      requires TableOk(was) && DroppedTo(was, State(), todo + active) && id in todo && id in was.timers
      modifies this`timers, this`intervals, this`pool
      ensures DroppedTo(was, State(), todo - {id} + active)
    {
      if id in active {
        assert todo - {id} + active == todo + active;
      } else {
        assert todo - {id} + active == todo + active - {id};
        DropOne(was, State(), todo + active, id);
        StopTimer(id);
      }
    }

    /** Stops and deletes the timers of checks no longer active. */
    method DropInactive(active: set<Id>)
      requires TableOk(State())
      modifies this`timers, this`intervals, this`pool
      ensures State() == Drop(old(State()), active)
    {
      ghost var was := State();
      var todo := timers.Keys;
      NothingDropped(was, active);
      while todo != {}
        invariant todo <= was.timers.Keys && DroppedTo(was, State(), todo + active)
        decreases |todo|
      {
        var id := Pick(todo);
        StopUnlessActive(id, active, was, todo);
        todo := todo - {id};
      }
      DropIsDroppedTo(was, State(), todo + active, active);
    }

    /** The critical section of loadChecks. */
    method LoadChecks(checks: seq<EnabledCheck>)
      requires TableOk(State()) && DistinctIds(checks)
      modifies this
      ensures State() == Reload(old(State()), checks)
      ensures TableOk(State()) && Reconciled(old(State()), State(), Wanted(checks))
    {
      ghost var was := State();
      var active := ActiveIntervals(checks);
      DropInactive(active.Keys);
      DropOk(was, Wanted(checks).Keys);
      PlaceChecks(checks);
      ReloadReconciles(was, checks);
    }

    /** Schedules what is new and reschedules what changed. */
    method PlaceChecks(checks: seq<EnabledCheck>)
      requires TableOk(State())
      modifies this
      ensures State() == PlaceAll(old(State()), checks)
    {
      ghost var was := State();
      for i := 0 to |checks|
        invariant TableOk(State()) && State() == PlaceAll(was, checks[..i])
      {
        assert checks[..i + 1][..i] == checks[..i];
        PlaceOk(State(), checks[i]);
        PlaceCheck(checks[i]);
      }
      assert checks[..|checks|] == checks;
    }

    /** Adds a new check, or reschedules one whose interval changed. */
    method PlaceCheck(c: EnabledCheck)
      requires c.id in timers ==> timers[c.id] < |pool|
      modifies this
      ensures State() == Place(old(State()), c)
    {
      var interval := if c.intervalS < MIN_INTERVAL then MIN_INTERVAL else c.intervalS;
      if c.id !in timers {
        ScheduleCheck(c);
      } else if c.id !in intervals || intervals[c.id] != interval {
        StopTimer(c.id);
        ScheduleCheck(c);
      }
    }
  }
}
