// How often a check runs, over every run of the scheduler (internal/scheduler/scheduler.go): the interval a
// timer is renewed at, where intervals come from, and what the active checks run at.
module Intervals {
  import opened Schema
  import opened Scheduler
  import opened SchedulerProtocol

  // ---------- what a callback leaves ----------

  /** The callback of timer n is over, one new pending timer of the same check and interval is on the map, nothing else changed. */
  ghost predicate Renewed(t: Table, t': Table, n: nat) {
    n < |t.pool| && |t'.pool| == |t.pool| + 1 &&
    t'.pool[|t.pool|] == Timer(t.pool[n].check, t.pool[n].interval, Pending) &&
    t'.timers == t.timers[t.pool[n].check := |t.pool|] &&
    t'.pool[n] == Timer(t.pool[n].check, t.pool[n].interval, Over) &&
    (forall m | 0 <= m < |t.pool| && m != n :: t'.pool[m] == t.pool[m]) &&
    t'.intervals == t.intervals && t'.checkMu == t.checkMu && t'.mutexes == t.mutexes
  }

  /** In every run, a callback ends by renewing its own timer at its own interval. */
  lemma CallbackRenews(ss: seq<State>, acts: seq<Action>, i: nat)
    requires Behavior(ss, acts) && i < |acts| && acts[i].Go? && acts[i].move.Reschedule?
    ensures var r := ss[i].runs[acts[i].k];
            r.origin.FromTimer? && r.origin.n < |ss[i].table.pool| && ss[i].table.pool[r.origin.n].st == Running(acts[i].k) &&
            ss[i].table.pool[r.origin.n].check == r.check && Renewed(ss[i].table, ss[i + 1].table, r.origin.n)
  {
    Reachable(ss, acts, i);
    assert RunOk(ss[i], acts[i].k);
  }

  // ---------- where intervals come from ----------

  /** At least ten seconds. */
  function Clamped(seconds: int): int {
    if seconds < 10 then 10 else seconds
  }

  lemma {:induction false} WantedFrom(checks: seq<EnabledCheck>, id: Id)
    requires id in Wanted(checks)
    ensures exists c | c in checks :: c.id == id && Wanted(checks)[id] == Clamped(c.intervalS)
  {
    var n := |checks| - 1;
    assert checks[n] in checks;
    if checks[n].id != id {
      WantedFrom(checks[..n], id);
    }
  }

  /** A load of the first n steps gave the check this interval. */
  ghost predicate Given(acts: seq<Action>, n: nat, check: Id, interval: int)
    requires n <= |acts|
  {
    exists i: nat | i < n && acts[i].Load? :: exists c | c in acts[i].checks :: c.id == check && interval == if c.intervalS < 10 then 10 else c.intervalS
  }

  ghost predicate AllGiven(acts: seq<Action>, n: nat, pool: seq<Timer>)
    requires n <= |acts|
  {
    forall m | 0 <= m < |pool| :: Given(acts, n, pool[m].check, pool[m].interval)
  }

  lemma GivenByLoad(acts: seq<Action>, n: nat, check: Id, interval: int)
    requires n < |acts| && acts[n].Load? && check in Wanted(acts[n].checks) && interval == Wanted(acts[n].checks)[check]
    ensures Given(acts, n + 1, check, interval)
  {
    WantedFrom(acts[n].checks, check);
  }

  lemma StillGiven(acts: seq<Action>, n: nat, pool: seq<Timer>)
    requires n < |acts| && AllGiven(acts, n, pool)
    ensures AllGiven(acts, n + 1, pool)
  {
    forall m | 0 <= m < |pool| ensures Given(acts, n + 1, pool[m].check, pool[m].interval) {
      assert Given(acts, n, pool[m].check, pool[m].interval);
    }
  }

  lemma GivenAfterLoad(s: State, acts: seq<Action>, n: nat)
    requires TableOk(s.table) && n < |acts| && acts[n].Load? && Enabled(s, acts[n]) && AllGiven(acts, n + 1, s.table.pool)
    ensures AllGiven(acts, n + 1, Apply(s, acts[n]).table.pool)
  {
    var t', wanted := Apply(s, acts[n]).table, Wanted(acts[n].checks);
    ReloadReconciles(s.table, acts[n].checks);
    forall m: nat | m < |t'.pool| ensures Given(acts, n + 1, t'.pool[m].check, t'.pool[m].interval) {
      assert TimerReconciled(s.table, t', wanted, m);
      if m < |s.table.pool| {
        assert Given(acts, n + 1, s.table.pool[m].check, s.table.pool[m].interval);
      } else {
        assert EntryReconciled(s.table, t', wanted, t'.pool[m].check);
        GivenByLoad(acts, n, t'.pool[m].check, t'.pool[m].interval);
      }
    }
  }

  /** Some timer of the pool has the check and the interval. */
  ghost predicate Echoes(pool: seq<Timer>, t: Timer) {
    exists n | 0 <= n < |pool| :: pool[n].check == t.check && pool[n].interval == t.interval
  }

  /** No other step starts a timer, but for callbacks that renew theirs. */
  lemma OthersRenew(s: State, a: Action)
    requires TimersInv(s) && Enabled(s, a) && !a.Load?
    ensures forall t | t in Apply(s, a).table.pool :: Echoes(s.table.pool, t)
  {
    var pool, pool' := s.table.pool, Apply(s, a).table.pool;
    if a.Go? {
      assert RunOk(s, a.k);
    }
    forall t | t in pool' ensures Echoes(pool, t) {
      var m :| 0 <= m < |pool'| && pool'[m] == t;
      var n := if m < |pool| then m else s.runs[a.k].origin.n;
      assert pool[n].check == t.check && pool[n].interval == t.interval;
    }
  }

  lemma GivenStep(s: State, acts: seq<Action>, n: nat)
    requires TimersInv(s) && n < |acts| && Enabled(s, acts[n]) && AllGiven(acts, n, s.table.pool)
    ensures AllGiven(acts, n + 1, Apply(s, acts[n]).table.pool)
  {
    StillGiven(acts, n, s.table.pool);
    if acts[n].Load? {
      GivenAfterLoad(s, acts, n);
    } else {
      OthersRenew(s, acts[n]);
      var pool, pool' := s.table.pool, Apply(s, acts[n]).table.pool;
      forall m | 0 <= m < |pool'| ensures Given(acts, n + 1, pool'[m].check, pool'[m].interval) {
        assert Echoes(pool, pool'[m]);
        var k :| 0 <= k < |pool| && pool[k].check == pool'[m].check && pool[k].interval == pool'[m].interval;
        assert Given(acts, n + 1, pool[k].check, pool[k].interval);
      }
    }
  }

  /** In every run, every timer ever started runs at an interval some load gave its check, and never below ten seconds. */
  lemma {:induction false} EveryIntervalWasGiven(ss: seq<State>, acts: seq<Action>, n: nat)
    requires Behavior(ss, acts) && n < |ss|
    ensures AllGiven(acts, n, ss[n].table.pool)
  {
    if n > 0 {
      EveryIntervalWasGiven(ss, acts, n - 1);
      Reachable(ss, acts, n - 1);
      GivenStep(ss[n - 1], acts, n - 1);
    }
  }

  // ---------- the intervals in force ----------

  /** The interval map says what the timers on the map run at, and covers the active checks. */
  ghost predicate InForce(s: State) {
    s.active <= s.table.intervals.Keys &&
    forall id | id in s.table.intervals && id in s.table.timers && s.table.timers[id] < |s.table.pool| ::
      s.table.pool[s.table.timers[id]].interval == s.table.intervals[id]
  }

  lemma LoadPutsInForce(s: State, checks: seq<EnabledCheck>)
    requires TableOk(s.table) && DistinctIds(checks) && InForce(s)
    ensures var s' := Apply(s, Load(checks)); InForce(s') && s'.active == Wanted(checks).Keys
    ensures forall id | id in Wanted(checks) :: Apply(s, Load(checks)).table.intervals[id] == Wanted(checks)[id]
  {
    var s', wanted := Apply(s, Load(checks)), Wanted(checks);
    ReloadReconciles(s.table, checks);
    forall id | id in wanted ensures id in s'.table.intervals && s'.table.intervals[id] == wanted[id] {
      assert EntryReconciled(s.table, s'.table, wanted, id);
    }
    forall id | id in s'.table.intervals && id in s'.table.timers && s'.table.timers[id] < |s'.table.pool|
      ensures s'.table.pool[s'.table.timers[id]].interval == s'.table.intervals[id]
    {
      assert EntryReconciled(s.table, s'.table, wanted, id);
      assert TimerReconciled(s.table, s'.table, wanted, s'.table.timers[id]);
    }
  }

  /** With one chain per check, a callback renews the timer that is on the map, if there is one. */
  lemma OthersKeepInForce(s: State, a: Action)
    requires TimersInv(s) && OneLive(s) && InForce(s) && Enabled(s, a) && !a.Load?
    ensures InForce(Apply(s, a)) && Apply(s, a).active == s.active && Apply(s, a).table.intervals == s.table.intervals
  {
    if a.Go? && a.move.Reschedule? {
      var n := s.runs[a.k].origin.n;
      assert RunOk(s, a.k) && Alive(s, n);
      var id := s.table.pool[n].check;
      if id in s.table.timers {
        assert Alive(s, s.table.timers[id]);
      }
    } else {
      var s' := Apply(s, a);
      assert s'.table.timers == s.table.timers && s'.table.intervals == s.table.intervals && |s'.table.pool| == |s.table.pool|;
      assert forall m | 0 <= m < |s.table.pool| :: s'.table.pool[m].interval == s.table.pool[m].interval;
    }
  }

  /** The last load of the first n steps, if there was one. */
  ghost predicate LastLoad(acts: seq<Action>, n: nat, i: nat) {
    i < n <= |acts| && acts[i].Load? && forall j | i < j < n :: !acts[j].Load?
  }

  /** Once there was a load, the active checks are those of the last one, at its intervals. */
  ghost predicate Configured(s: State, acts: seq<Action>, n: nat) {
    forall i: nat | LastLoad(acts, n, i) ::
      s.active == Wanted(acts[i].checks).Keys &&
      forall id | id in s.active :: id in s.table.intervals && s.table.intervals[id] == Wanted(acts[i].checks)[id]
  }

  lemma ConfiguredStep(s: State, acts: seq<Action>, n: nat)
    requires TimersInv(s) && OneLive(s) && InForce(s) && n < |acts| && Enabled(s, acts[n]) && Configured(s, acts, n)
    ensures InForce(Apply(s, acts[n])) && Configured(Apply(s, acts[n]), acts, n + 1)
  {
    var a, later := acts[n], n + 1;
    if a.Load? {
      LoadPutsInForce(s, a.checks);
      assert forall i: nat | LastLoad(acts, later, i) :: i == n;
    } else {
      OthersKeepInForce(s, a);
      assert forall i: nat :: LastLoad(acts, later, i) <==> LastLoad(acts, n, i);
    }
  }

  lemma {:induction false} CarefulRunsConfigured(ss: seq<State>, acts: seq<Action>, n: nat)
    requires Behavior(ss, acts) && n < |ss| && CarefulUpTo(ss, acts, n)
    ensures InForce(ss[n]) && Configured(ss[n], acts, n)
  {
    if n > 0 {
      CarefulRunsConfigured(ss, acts, n - 1);
      Reachable(ss, acts, n - 1);
      OneChainPerCheck(ss, acts, n - 1);
      assert OneLive(ss[n - 1]);
      ConfiguredStep(ss[n - 1], acts, n - 1);
    }
  }

  lemma {:induction false} WantedIs(checks: seq<EnabledCheck>, c: EnabledCheck)
    requires DistinctIds(checks) && c in checks
    ensures c.id in Wanted(checks) && Wanted(checks)[c.id] == Clamped(c.intervalS)
  {
    var n := |checks| - 1;
    if checks[n] != c {
      assert c in checks[..n];
      WantedIs(checks[..n], c);
    }
  }

  /**
   * In every run whose reloads give no check a new timer while its callback runs: a check of the last reload has exactly
   * one live timer, and it runs at the configured interval, or at ten seconds where less is configured.
   */
  lemma ActiveChecksRunAsConfigured(ss: seq<State>, acts: seq<Action>, n: nat, i: nat, c: EnabledCheck)
    requires Behavior(ss, acts) && n < |ss| && CarefulUpTo(ss, acts, n) && LastLoad(acts, n, i) && c in acts[i].checks
    ensures exists m: nat :: Alive(ss[n], m) && ss[n].table.pool[m].check == c.id
    ensures forall m: nat | Alive(ss[n], m) && ss[n].table.pool[m].check == c.id ::
              ss[n].table.pool[m].interval == if c.intervalS < 10 then 10 else c.intervalS
  {
    CarefulRunsConfigured(ss, acts, n);
    OneChainPerCheck(ss, acts, n);
    Reachable(ss, acts, n);
    assert Enabled(ss[i], acts[i]);
    WantedIs(acts[i].checks, c);
    var s := ss[n];
    assert OneLive(s) && c.id in s.active;
    var m := s.table.timers[c.id];
    assert Alive(s, m) && s.table.pool[m].check == c.id;
  }
}
