// A run of the scheduler in which a reload re-times a check while its timer callback runs
// (internal/scheduler/scheduler.go): it ends with two timers for the one check, each to be renewed by
// its own callback, and only one of them known to later reloads.
module TwoChains {
  import opened Scheduler
  import opened SchedulerProtocol

  const TEN := [EnabledCheck(0, 10)]
  const TWENTY := [EnabledCheck(0, 20)]

  /** A run so far. */
  datatype Trace = Trace(states: seq<State>, acts: seq<Action>)

  ghost predicate IsTrace(t: Trace) {
    Behavior(t.states, t.acts)
  }

  function Last(t: Trace): State
    requires t.states != []
  {
    t.states[|t.states| - 1]
  }

  lemma Extend(t: Trace, a: Action) returns (longer: Trace)
    requires IsTrace(t) && Enabled(Last(t), a)
    ensures IsTrace(longer) && Last(longer) == Apply(Last(t), a) && longer.acts == t.acts + [a]
  {
    longer := Trace(t.states + [Apply(Last(t), a)], t.acts + [a]);
  }

  lemma BothWanted()
    ensures Wanted(TEN) == map[0 := 10] && Wanted(TWENTY) == map[0 := 20]
  {
    assert TEN[..0] == [] && TWENTY[..0] == [];
  }

  const EMPTY := Table(map[], map[], map[], [], 0)

  /** The check is scheduled every ten seconds. */
  lemma Scheduled() returns (t: Trace)
    ensures IsTrace(t) && t.acts == [Load(TEN)] && Last(t).table == Reload(EMPTY, TEN)
    ensures Last(t).runs == [] && Last(t).slots == 0 && Last(t).locked == map[]
  {
    t := Trace([State(EMPTY, [], map[], 0, [], 0, [], {})], []);
    t := Extend(t, Load(TEN));
  }

  /** Its timer fires. */
  lemma Fired() returns (t: Trace, n: nat)
    ensures IsTrace(t) && t.acts == [Load(TEN), Fire(n)]
    ensures TableOk(Last(t).table) && n < |Last(t).table.pool| && Last(t).table.pool[n] == Timer(0, 10, Running(0))
    ensures 0 in Last(t).table.intervals && Last(t).table.intervals[0] == 10
    ensures Last(t).runs == [Run(0, FromTimer(n), TakingSlot)] && Last(t).slots == 0 && Last(t).locked == map[]
  {
    t := Scheduled();
    n := Last(t).table.timers[0];
    t := Extend(t, Fire(n));
  }

  /** While the callback runs, a reload re-times the check to twenty seconds: now it has two live timers. */
  lemma Retimed() returns (t: Trace, n: nat, m: nat)
    ensures IsTrace(t) && t.acts == [Load(TEN), Fire(n), Load(TWENTY)] && !OneLive(Last(t))
    ensures n < |Last(t).table.pool| && Last(t).table.pool[n] == Timer(0, 10, Running(0))
    ensures m != n && m < |Last(t).table.pool| && Last(t).table.pool[m].check == 0 && Last(t).table.pool[m].st.Pending?
    ensures Last(t).runs == [Run(0, FromTimer(n), TakingSlot)] && Last(t).slots == 0 && Last(t).locked == map[]
  {
    t, n := Fired();
    BothWanted();
    RetimingDoubles(Last(t), TWENTY, n);
    t := Extend(t, Load(TWENTY));
    m := Last(t).table.timers[0];
  }

  /** The only run takes the moves from its slot to its lock. */
  lemma Locked(t: Trace, n: nat) returns (longer: Trace)
    requires IsTrace(t) && Last(t).runs == [Run(0, FromTimer(n), TakingSlot)] && Last(t).slots == 0 && Last(t).locked == map[]
    ensures IsTrace(longer) && Last(longer).table.pool == Last(t).table.pool
    ensures longer.acts == t.acts + [Go(0, TakeSlot), Go(0, FindMutex), Go(0, TryLock)]
    ensures exists mu: nat :: Last(longer).runs == [Run(0, FromTimer(n), Probing(mu))]
  {
    longer := Extend(t, Go(0, TakeSlot));
    longer := Extend(longer, Go(0, FindMutex));
    var mu := Last(longer).runs[0].pc.mu;
    assert Last(longer).runs == [Run(0, FromTimer(n), TryingLock(mu))];
    longer := Extend(longer, Go(0, TryLock));
    assert Last(longer).runs == [Run(0, FromTimer(n), Probing(mu))];
  }

  /** And from there to the end of the callback. */
  lemma Released(t: Trace, n: nat, mu: nat) returns (longer: Trace)
    requires IsTrace(t) && Last(t).runs == [Run(0, FromTimer(n), Probing(mu))]
    ensures IsTrace(longer) && Last(longer).table.pool == Last(t).table.pool
    ensures longer.acts == t.acts + [Go(0, GiveUp), Go(0, Release), Go(0, GiveSlot)]
    ensures Last(longer).runs == [Run(0, FromTimer(n), Rescheduling)]
  {
    longer := Extend(t, Go(0, GiveUp));
    assert Last(longer).runs == [Run(0, FromTimer(n), Releasing(mu))];
    longer := Extend(longer, Go(0, Release));
    longer := Extend(longer, Go(0, GiveSlot));
  }

  const CALLBACK := [Go(0, TakeSlot), Go(0, FindMutex), Go(0, TryLock), Go(0, GiveUp), Go(0, Release), Go(0, GiveSlot), Go(0, Reschedule)]

  /** When the callback is done, the check has two pending timers, and the map has lost one of them. */
  lemma TwoTimersForOneCheck() returns (t: Trace, m: nat, k: nat)
    ensures IsTrace(t) && exists n :: t.acts == [Load(TEN), Fire(n), Load(TWENTY)] + CALLBACK
    ensures var pool := Last(t).table.pool;
            m < k < |pool| && pool[m].check == pool[k].check == 0 && pool[m].st.Pending? && pool[k].st.Pending?
    ensures Tracked(Last(t).table, k) && !Tracked(Last(t).table, m)
  {
    var n;
    t, n, m := Retimed();
    t := Locked(t, n);
    var mu: nat :| Last(t).runs == [Run(0, FromTimer(n), Probing(mu))];
    t := Released(t, n, mu);
    k := |Last(t).table.pool|;
    t := Extend(t, Go(0, Reschedule));
    assert t.acts == [Load(TEN), Fire(n), Load(TWENTY)] + CALLBACK;
  }
}
