// The pause history, and the store over whole runs of target operations (internal/store/targets.go,
// internal/store/checks.go).
module Lifecycle {
  import opened Prelude
  import opened Schema
  import opened Targets
  import opened Ownership
  import opened TargetDetail

  // ---------- pausing ----------

  function Paused(db: Database, tid: Id, row: Id, now: int): Database
    requires tid in db.targets
  {
    db.(targets := db.targets[tid := db.targets[tid].(pausedAt := Some(now))], pauses := db.pauses[row := Pause(tid, now, None, "")])
  }

  predicate IsOpen(pauses: map<Id, Pause>, tid: Id, p: Id) {
    p in pauses && pauses[p].targetId == tid && pauses[p].resumedAt.None?
  }

  function Closed(pauses: map<Id, Pause>, tid: Id, now: int): map<Id, Pause> {
    map p | p in pauses :: if IsOpen(pauses, tid, p) then pauses[p].(resumedAt := Some(now)) else pauses[p]
  }

  function Unpaused(db: Database, tid: Id, now: int): Database
    requires tid in db.targets
  {
    db.(targets := db.targets[tid := db.targets[tid].(pausedAt := None)], pauses := Closed(db.pauses, tid, now))
  }

  /** One pause ended no later than the other began. */
  predicate Before(p: Pause, q: Pause) {
    p.resumedAt.Some? && p.resumedAt.value <= q.pausedAt
  }

  ghost predicate Disjoint(pauses: map<Id, Pause>, p: Id, q: Id)
    requires p in pauses && q in pauses
  {
    p != q && pauses[p].targetId == pauses[q].targetId ==> Before(pauses[p], pauses[q]) || Before(pauses[q], pauses[p])
  }

  predicate InThePast(p: Pause, now: int) {
    p.pausedAt <= now && (p.resumedAt.Some? ==> p.pausedAt <= p.resumedAt.value <= now)
  }

  /** A target is paused exactly if it has an open row, and that row starts when the target says it was paused. */
  ghost predicate ShowsPause(t: Target, pauses: map<Id, Pause>, tid: Id) {
    (t.pausedAt.Some? <==> exists p :: IsOpen(pauses, tid, p)) &&
    forall p | IsOpen(pauses, tid, p) :: t.pausedAt == Some(pauses[p].pausedAt)
  }

  /** The pauses of a target never overlap, so it has at most one open row. */
  ghost predicate PausesOk(targets: map<Id, Target>, pauses: map<Id, Pause>, now: int) {
    (forall p | p in pauses :: InThePast(pauses[p], now)) &&
    (forall t | t in targets :: ShowsPause(targets[t], pauses, t)) &&
    forall p, q | p in pauses && q in pauses :: Disjoint(pauses, p, q)
  }

  lemma AtMostOneOpen(targets: map<Id, Target>, pauses: map<Id, Pause>, now: int, tid: Id, p: Id, q: Id)
    requires PausesOk(targets, pauses, now) && IsOpen(pauses, tid, p) && IsOpen(pauses, tid, q)
    ensures p == q
  {
    assert Disjoint(pauses, p, q);
  }

  lemma PauseKeepsOk(db: Database, tid: Id, row: Id, now: int)
    requires PausesOk(db.targets, db.pauses, now) && tid in db.targets && db.targets[tid].pausedAt.None? && row !in db.pauses
    ensures var e := Paused(db, tid, row, now); PausesOk(e.targets, e.pauses, now)
  {
    var e := Paused(db, tid, row, now);
    assert ShowsPause(db.targets[tid], db.pauses, tid);
    assert IsOpen(e.pauses, tid, row);
    forall t | t in e.targets ensures ShowsPause(e.targets[t], e.pauses, t) {
      assert ShowsPause(db.targets[t], db.pauses, t);
      assert forall p :: IsOpen(e.pauses, t, p) <==> IsOpen(db.pauses, t, p) || (t == tid && p == row);
    }
    forall p, q | p in e.pauses && q in e.pauses ensures Disjoint(e.pauses, p, q) {
      if p in db.pauses && q in db.pauses {
        assert Disjoint(db.pauses, p, q);
      } else {
        assert p in db.pauses ==> !IsOpen(db.pauses, tid, p);
        assert q in db.pauses ==> !IsOpen(db.pauses, tid, q);
      }
    }
  }

  lemma UnpauseKeepsOk(db: Database, tid: Id, now: int)
    requires PausesOk(db.targets, db.pauses, now) && tid in db.targets
    ensures var e := Unpaused(db, tid, now); PausesOk(e.targets, e.pauses, now)
  {
    var e := Unpaused(db, tid, now);
    forall t | t in e.targets ensures ShowsPause(e.targets[t], e.pauses, t) {
      assert ShowsPause(db.targets[t], db.pauses, t);
      assert forall p :: IsOpen(e.pauses, t, p) <==> t != tid && IsOpen(db.pauses, t, p);
    }
    forall p, q | p in e.pauses && q in e.pauses ensures Disjoint(e.pauses, p, q) {
      assert Disjoint(db.pauses, p, q);
    }
  }

  /** Pause rows shrink with their targets, and surviving targets keep their pause. */
  lemma FewerPausesOk(targets: map<Id, Target>, pauses: map<Id, Pause>, targets': map<Id, Target>, pauses': map<Id, Pause>, now: int)
    requires PausesOk(targets, pauses, now)
    requires forall p | p in pauses' :: p in pauses && pauses'[p] == pauses[p]
    requires forall t | t in targets' && t in targets :: targets'[t].pausedAt == targets[t].pausedAt && forall p | IsOpen(pauses, t, p) :: p in pauses'
    requires forall t | t in targets' && t !in targets :: targets'[t].pausedAt.None? && forall p | p in pauses' :: pauses'[p].targetId != t
    ensures PausesOk(targets', pauses', now)
  {
    forall t | t in targets' ensures ShowsPause(targets'[t], pauses', t) {
      if t in targets {
        assert ShowsPause(targets[t], pauses, t);
        assert forall p :: IsOpen(pauses', t, p) <==> IsOpen(pauses, t, p);
      } else {
        assert forall p :: !IsOpen(pauses', t, p);
      }
    }
    forall p, q | p in pauses' && q in pauses' ensures Disjoint(pauses', p, q) {
      assert Disjoint(pauses, p, q);
    }
  }

  // ---------- runs ----------

  datatype Op = Create(form: Form, conds: seq<TargetCondition>, creator: Option<Id>)
              | Update(tid: Id, form: Form, conds: seq<TargetCondition>)
              | Delete(tid: Id)
              | PauseTarget(tid: Id)
              | UnpauseTarget(tid: Id)

  /** One call, with the supply of its new ids and the time it is made. */
  datatype Call = Call(op: Op, base: Id, now: int)

  /** The store after a call; a call that fails leaves it as it was. */
  ghost function After(db: Database, c: Call): Database {
    match c.op
    case Create(f, conds, creator) => if CreateFails(db, f, conds, creator) then db else Created(db, f, conds, creator, c.base, c.now)
    case Update(tid, f, conds) => if UpdateFails(db, tid, f, conds) then db else Updated(db, tid, f, conds, c.base, c.now)
    case Delete(tid) => if tid !in db.targets then db else Deleted(db, tid)
    case PauseTarget(tid) => if tid !in db.targets || db.targets[tid].pausedAt.Some? then db else Paused(db, tid, c.base, c.now)
    case UnpauseTarget(tid) => if tid !in db.targets || db.targets[tid].pausedAt.None? then db else Unpaused(db, tid, c.now)
  }

  ghost function AfterAll(db: Database, calls: seq<Call>): Database {
    if calls == [] then db else After(AfterAll(db, calls[..|calls| - 1]), calls[|calls| - 1])
  }

  /** New ids are new. */
  ghost predicate Fresh(db: Database, c: Call) {
    Below(db, c.base) && (c.op.Update? ==> Unguessed(c.op.conds, c.base))
  }

  function LastTime(calls: seq<Call>, start: int): int {
    if calls == [] then start else calls[|calls| - 1].now
  }

  /** The clock never runs back, and new ids are new. */
  ghost predicate Possible(db: Database, calls: seq<Call>, start: int) {
    calls != [] ==>
      var n := |calls| - 1;
      Possible(db, calls[..n], start) && Fresh(AfterAll(db, calls[..n]), calls[n]) && LastTime(calls[..n], start) <= calls[n].now
  }

  lemma PausingKeepsConsistent(db: Database, tid: Id, t: Target, pauses: map<Id, Pause>)
    requires Consistent(db) && tid in db.targets && t.ruleId == db.targets[tid].ruleId && PauseKeys(pauses, db.targets.Keys)
    ensures Consistent(db.(targets := db.targets[tid := t], pauses := pauses))
  {
    SameRule(db.targets, tid, t, db.rules.Keys);
    StillOwned(db.targets, db.targets[tid := t], db.checks, db.conditions);
    assert db.targets[tid := t].Keys == db.targets.Keys;
  }

  lemma CallKeepsConsistent(db: Database, c: Call)
    requires Consistent(db) && Fresh(db, c)
    ensures Consistent(After(db, c))
  {
    match c.op
    case Create(f, conds, creator) =>
      if !CreateFails(db, f, conds, creator) {
        CreateKeepsConsistent(db, f, conds, creator, c.base, c.now);
      }
    case Update(tid, f, conds) =>
      if !UpdateFails(db, tid, f, conds) {
        UpdateKeepsConsistent(db, tid, f, conds, c.base, c.now);
      }
    case Delete(tid) =>
      if tid in db.targets {
        DeleteKeepsConsistent(db, tid);
      }
    case PauseTarget(tid) =>
      if tid in db.targets {
        PausingKeepsConsistent(db, tid, db.targets[tid].(pausedAt := Some(c.now)), db.pauses[c.base := Pause(tid, c.now, None, "")]);
      }
    case UnpauseTarget(tid) =>
      if tid in db.targets {
        PausingKeepsConsistent(db, tid, db.targets[tid].(pausedAt := None), Closed(db.pauses, tid, c.now));
      }
  }

  /** Same pauses on the targets there were, and new targets are not paused. */
  ghost predicate KeepsPauses(targets: map<Id, Target>, after: map<Id, Target>) {
    forall t | t in after :: after[t].pausedAt == if t in targets then targets[t].pausedAt else None
  }

  lemma CreateKeepsPauses(db: Database, f: Form, conds: seq<TargetCondition>, creator: Option<Id>, base: Id, now: int)
    requires base !in db.targets
    ensures var e := Created(db, f, conds, creator, base, now); e.pauses == db.pauses && KeepsPauses(db.targets, e.targets)
  {
    var d := WithTarget(db, base, NewTarget(f, now), creator);
    assert d.pauses == db.pauses && KeepsPauses(db.targets, d.targets);
    if conds != [] {
      assert Created(db, f, conds, creator, base, now).targets == WithNewRule(d, base, FirstPreferred(f, conds), base + 1, NewRule(f, now)).targets;
    }
  }

  lemma RuleLossKeepsPauses(d: Database, tid: Id)
    requires tid in d.targets
    ensures var e := WithoutRuleAndChecks(d, tid);
            e.pauses == d.pauses && e.targets.Keys == d.targets.Keys && KeepsPauses(d.targets, e.targets)
  {}

  lemma UpdateKeepsPauses(db: Database, tid: Id, f: Form, conds: seq<TargetCondition>, base: Id, now: int)
    requires tid in db.targets
    ensures var e := Updated(db, tid, f, conds, base, now); e.pauses == db.pauses && KeepsPauses(db.targets, e.targets)
  {
    var preferred := PreferredAfter(db.targets[tid].preferred, f, conds);
    var d := WithTargetEdited(db, tid, f, preferred, now);
    if conds == [] {
      RuleLossKeepsPauses(d, tid);
    }
  }

  lemma KeptPausesOk(db: Database, e: Database, now: int)
    requires PausesOk(db.targets, db.pauses, now) && PauseKeys(db.pauses, db.targets.Keys)
    requires e.pauses == db.pauses && KeepsPauses(db.targets, e.targets)
    ensures PausesOk(e.targets, e.pauses, now)
  {
    FewerPausesOk(db.targets, db.pauses, e.targets, e.pauses, now);
  }

  lemma DeleteKeepsPausesOk(db: Database, tid: Id, now: int)
    requires PausesOk(db.targets, db.pauses, now) && tid in db.targets
    ensures var e := Deleted(db, tid); PausesOk(e.targets, e.pauses, now)
  {
    FewerPausesOk(db.targets, db.pauses, Deleted(db, tid).targets, Deleted(db, tid).pauses, now);
  }

  lemma CallKeepsPausesOk(db: Database, c: Call)
    requires Consistent(db) && Fresh(db, c) && PausesOk(db.targets, db.pauses, c.now)
    ensures PausesOk(After(db, c).targets, After(db, c).pauses, c.now)
  {
    match c.op
    case Create(f, conds, creator) =>
      if !CreateFails(db, f, conds, creator) {
        CreateKeepsPauses(db, f, conds, creator, c.base, c.now);
        KeptPausesOk(db, Created(db, f, conds, creator, c.base, c.now), c.now);
      }
    case Update(tid, f, conds) =>
      if !UpdateFails(db, tid, f, conds) {
        UpdateKeepsPauses(db, tid, f, conds, c.base, c.now);
        KeptPausesOk(db, Updated(db, tid, f, conds, c.base, c.now), c.now);
      }
    case Delete(tid) =>
      if tid in db.targets {
        DeleteKeepsPausesOk(db, tid, c.now);
      }
    case PauseTarget(tid) =>
      if tid in db.targets && db.targets[tid].pausedAt.None? {
        PauseKeepsOk(db, tid, c.base, c.now);
      }
    case UnpauseTarget(tid) =>
      if tid in db.targets {
        UnpauseKeepsOk(db, tid, c.now);
      }
  }

  /**
   * Over every run of creations, updates, deletions, pauses and unpauses from a consistent store: no orphan,
   * one owner per rule, and a faithful, overlap-free pause history.
   */
  lemma {:induction false} EveryRunKeepsTheStore(db: Database, calls: seq<Call>, start: int)
    requires Consistent(db) && PausesOk(db.targets, db.pauses, start) && Possible(db, calls, start)
    ensures var e := AfterAll(db, calls); Consistent(e) && PausesOk(e.targets, e.pauses, LastTime(calls, start))
  {
    if calls != [] {
      var n := |calls| - 1;
      var d := AfterAll(db, calls[..n]);
      EveryRunKeepsTheStore(db, calls[..n], start);
      CallKeepsConsistent(d, calls[n]);
      CallKeepsPausesOk(d, calls[n]);
    }
  }

  lemma WrittenKeepsUsed(db: Database, c: Call)
    requires Consistent(db) && Fresh(db, c) && AllUsed(db) && (c.op.Create? || c.op.Update?)
    ensures AllUsed(After(db, c))
  {
    match c.op
    case Create(f, conds, creator) =>
      if !CreateFails(db, f, conds, creator) {
        CreateUses(db, f, conds, creator, c.base, c.now);
      }
    case Update(tid, f, conds) =>
      if !UpdateFails(db, tid, f, conds) {
        UpdateUses(db, tid, f, conds, c.base, c.now);
      }
  }

  lemma PauseTouchesNoRows(db: Database, c: Call)
    requires c.op.PauseTarget? || c.op.UnpauseTarget?
    ensures After(db, c).checks == db.checks && After(db, c).conditions == db.conditions
  {}

  lemma CallKeepsUsed(db: Database, c: Call)
    requires Consistent(db) && Fresh(db, c) && AllUsed(db)
    ensures AllUsed(After(db, c))
  {
    if c.op.Create? || c.op.Update? {
      WrittenKeepsUsed(db, c);
    } else if c.op.Delete? {
      if c.op.tid in db.targets {
        DeleteUses(db, c.op.tid);
      }
    } else {
      PauseTouchesNoRows(db, c);
    }
  }

  /** Over every run, no check is ever left without a condition. */
  lemma {:induction false} EveryRunUsesItsChecks(db: Database, calls: seq<Call>, start: int)
    requires Consistent(db) && PausesOk(db.targets, db.pauses, start) && AllUsed(db) && Possible(db, calls, start)
    ensures AllUsed(AfterAll(db, calls))
  {
    if calls != [] {
      var n := |calls| - 1;
      EveryRunUsesItsChecks(db, calls[..n], start);
      EveryRunKeepsTheStore(db, calls[..n], start);
      CallKeepsUsed(AfterAll(db, calls[..n]), calls[n]);
    }
  }

  // ---------- what the scheduler sees ----------

  /** The checks of ListAllEnabledChecks. */
  function ActiveChecks(db: Database): set<Id> {
    set k | k in db.checks && db.checks[k].enabled && db.checks[k].targetId in db.targets &&
            db.targets[db.checks[k].targetId].enabled && db.targets[db.checks[k].targetId].pausedAt.None?
  }

  /** A pause takes exactly the target's checks off the schedule, and the unpause puts exactly those back. */
  lemma PauseTakesChecksOff(db: Database, tid: Id, row: Id, now: int, later: int)
    requires tid in db.targets && db.targets[tid].pausedAt.None?
    ensures var e := Paused(db, tid, row, now);
            ActiveChecks(e) == ActiveChecks(db) - ChecksOf(db, {tid}) && ActiveChecks(Unpaused(e, tid, later)) == ActiveChecks(db)
  {
    assert ActiveChecks(Unpaused(Paused(db, tid, row, now), tid, later)) == ActiveChecks(db);
  }
}
