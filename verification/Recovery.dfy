// Target operations and backups together: what any run of target operations leaves can be exported and
// restored, and the restored store has everything the operations rely on (internal/store/targets.go,
// internal/store/backup.go, internal/store/store.go).
module Recovery {
  import opened Prelude
  import opened Schema
  import opened Targets
  import opened Ownership
  import opened Lifecycle
  import TargetDetail
  import Backup

  // ---------- the constraints of the schema over runs ----------

  ghost predicate NamesUnique(targets: map<Id, Target>) {
    forall t, u | t in targets && u in targets && t != u :: targets[t].name != targets[u].name
  }

  ghost predicate RulesOk(rules: map<Id, Rule>) {
    forall r | r in rules :: Backup.RuleOk(rules[r])
  }

  ghost predicate KindsKnown(checks: map<Id, Check>) {
    forall c | c in checks :: !checks[c].kind.Unknown?
  }

  ghost predicate TargetConstraints(db: Database) {
    NamesUnique(db.targets) && RulesOk(db.rules) && KindsKnown(db.checks)
  }

  lemma {:induction false} WritingKeepsKinds(checks: map<Id, Check>, tid: Id, conds: seq<TargetCondition>, base: Id, now: int)
    requires KindsKnown(checks) && forall i | 0 <= i < |conds| && conds[i].checkId.None? :: !conds[i].kind.Unknown?
    ensures KindsKnown(WriteChecks(checks, tid, conds, base, now))
  {
    if conds != [] {
      var n := |conds| - 1;
      assert forall i | 0 <= i < n && conds[..n][i].checkId.None? :: !conds[i].kind.Unknown?;
      WritingKeepsKinds(checks, tid, conds[..n], base, now);
    }
  }

  lemma NewTargetKeepsConstraints(db: Database, f: Form, creator: Option<Id>, base: Id, now: int)
    requires TargetConstraints(db) && !NameTaken(db.targets, f.name, None)
    ensures TargetConstraints(WithTarget(db, base, NewTarget(f, now), creator))
  {
    assert NameTaken(db.targets, f.name, Some(base)) ==> NameTaken(db.targets, f.name, None);
  }

  lemma CreateKeepsConstraints(db: Database, f: Form, conds: seq<TargetCondition>, creator: Option<Id>, base: Id, now: int)
    requires TargetConstraints(db) && Below(db, base) && !CreateFails(db, f, conds, creator)
    ensures TargetConstraints(Created(db, f, conds, creator, base, now))
    ensures Created(db, f, conds, creator, base, now).users == db.users
  {
    NewTargetKeepsConstraints(db, f, creator, base, now);
    if conds != [] {
      var d := WithTarget(db, base, NewTarget(f, now), creator);
      assert Backup.RuleOk(NewRule(f, now));
      WritingKeepsKinds(d.checks, base, Unowned(conds), base, now);
    }
  }

  lemma DiffKeepsConstraints(e: Database, tid: Id, rid: Id, conds: seq<TargetCondition>, base: Id, now: int)
    requires TargetConstraints(e) && AllWritable(e.checks, tid, conds)
    ensures TargetConstraints(WithConditions(WithGaps(e, tid, rid, conds), tid, rid, conds, base, now))
  {
    var g := WithGaps(e, tid, rid, conds);
    assert KindsKnown(g.checks);
    forall i | 0 <= i < |conds| && conds[i].checkId.None? ensures !conds[i].kind.Unknown? {
      assert Writable(e.checks, tid, conds[i]);
    }
    WritingKeepsKinds(g.checks, tid, conds, base, now);
  }

  lemma StripKeepsConstraints(d: Database, tid: Id)
    requires TargetConstraints(d) && tid in d.targets
    ensures TargetConstraints(WithoutRuleAndChecks(d, tid))
    ensures WithoutRuleAndChecks(d, tid).users == d.users
  {}

  lemma UpdateKeepsConstraints(db: Database, tid: Id, f: Form, conds: seq<TargetCondition>, base: Id, now: int)
    requires TargetConstraints(db) && !UpdateFails(db, tid, f, conds)
    ensures TargetConstraints(Updated(db, tid, f, conds, base, now))
    ensures Updated(db, tid, f, conds, base, now).users == db.users
  {
    var preferred := PreferredAfter(db.targets[tid].preferred, f, conds);
    var d := WithTargetEdited(db, tid, f, preferred, now);
    if conds == [] {
      StripKeepsConstraints(d, tid);
    } else {
      RuleChangesNoRows(d, tid, f, base, now);
      DiffKeepsConstraints(WithRule(d, tid, f, base, now), tid, RuleOf(db.targets, tid, base), conds, base, now);
    }
  }

  lemma PausingKeepsConstraints(db: Database, tid: Id, row: Id, now: int)
    requires TargetConstraints(db) && tid in db.targets
    ensures TargetConstraints(Paused(db, tid, row, now)) && TargetConstraints(Unpaused(db, tid, now))
    ensures Paused(db, tid, row, now).users == db.users && Unpaused(db, tid, now).users == db.users
  {}

  lemma DeleteCallKeepsConstraints(db: Database, c: Call)
    requires TargetConstraints(db) && c.op.Delete?
    ensures TargetConstraints(After(db, c))
    ensures After(db, c).users == db.users
  {
    if c.op.tid in db.targets {
    }
  }

  lemma PauseCallKeepsConstraints(db: Database, c: Call)
    requires TargetConstraints(db) && (c.op.PauseTarget? || c.op.UnpauseTarget?)
    ensures TargetConstraints(After(db, c))
    ensures After(db, c).users == db.users
  {
    if c.op.tid in db.targets {
      PausingKeepsConstraints(db, c.op.tid, c.base, c.now);
    }
  }

  lemma CallKeepsConstraints(db: Database, c: Call)
    requires TargetConstraints(db) && Fresh(db, c)
    ensures TargetConstraints(After(db, c))
    ensures After(db, c).users == db.users
  {
    if c.op.Create? {
      if !CreateFails(db, c.op.form, c.op.conds, c.op.creator) {
        CreateKeepsConstraints(db, c.op.form, c.op.conds, c.op.creator, c.base, c.now);
      }
    } else if c.op.Update? {
      if !UpdateFails(db, c.op.tid, c.op.form, c.op.conds) {
        UpdateKeepsConstraints(db, c.op.tid, c.op.form, c.op.conds, c.base, c.now);
      }
    } else if c.op.Delete? {
      DeleteCallKeepsConstraints(db, c);
    } else {
      PauseCallKeepsConstraints(db, c);
    }
  }

  /** Over every run, target names stay unique, rules and check types stay within the schema's CHECKs, users stay as they are. */
  lemma {:induction false} EveryRunKeepsConstraints(db: Database, calls: seq<Call>, start: int)
    requires TargetConstraints(db) && Possible(db, calls, start)
    ensures TargetConstraints(AfterAll(db, calls))
    ensures AfterAll(db, calls).users == db.users
  {
    if calls != [] {
      var n := |calls| - 1;
      EveryRunKeepsConstraints(db, calls[..n], start);
      CallKeepsConstraints(AfterAll(db, calls[..n]), calls[n]);
    }
  }

  // ---------- group operators over runs ----------

  ghost predicate Filled(conditions: map<Id, RuleCondition>) {
    forall c | c in conditions :: conditions[c].groupOp != ""
  }

  lemma {:induction false} WritingKeepsFilled(rows: map<Id, RuleCondition>, rid: Id, conds: seq<TargetCondition>, base: Id)
    requires Filled(rows)
    ensures Filled(WriteConditions(rows, rid, conds, base))
  {
    if conds != [] {
      WritingKeepsFilled(rows, rid, conds[..|conds| - 1], base);
    }
  }

  lemma CreateKeepsFilled(db: Database, f: Form, conds: seq<TargetCondition>, creator: Option<Id>, base: Id, now: int)
    requires Filled(db.conditions)
    ensures Filled(Created(db, f, conds, creator, base, now).conditions)
  {
    WritingKeepsFilled(db.conditions, base + 1, Unowned(conds), base);
  }

  lemma UpdateKeepsFilled(db: Database, tid: Id, f: Form, conds: seq<TargetCondition>, base: Id, now: int)
    requires Filled(db.conditions) && tid in db.targets
    ensures Filled(Updated(db, tid, f, conds, base, now).conditions)
  {
    if conds != [] {
      var rid := RuleOf(db.targets, tid, base);
      var d := WithTargetEdited(db, tid, f, PreferredAfter(db.targets[tid].preferred, f, conds), now);
      var g := WithGaps(WithRule(d, tid, f, base, now), tid, rid, conds);
      assert Filled(g.conditions);
      WritingKeepsFilled(g.conditions, rid, conds, base);
    }
  }

  lemma PausingKeepsFilled(db: Database, c: Call)
    requires c.op.PauseTarget? || c.op.UnpauseTarget?
    ensures After(db, c).conditions == db.conditions
  {}

  lemma CallKeepsFilled(db: Database, c: Call)
    requires Filled(db.conditions)
    ensures Filled(After(db, c).conditions)
  {
    if c.op.Create? {
      CreateKeepsFilled(db, c.op.form, c.op.conds, c.op.creator, c.base, c.now);
    } else if c.op.Update? {
      if c.op.tid in db.targets {
        UpdateKeepsFilled(db, c.op.tid, c.op.form, c.op.conds, c.base, c.now);
      }
    } else if c.op.Delete? {
    } else {
      PausingKeepsFilled(db, c);
    }
  }

  /** Target operations fill in the group operator of every condition they write. */
  lemma {:induction false} EveryRunStaysFilled(db: Database, calls: seq<Call>)
    requires Filled(db.conditions)
    ensures Filled(AfterAll(db, calls).conditions)
  {
    if calls != [] {
      var n := |calls| - 1;
      EveryRunStaysFilled(db, calls[..n]);
      CallKeepsFilled(AfterAll(db, calls[..n]), calls[n]);
    }
  }

  // ---------- restoring what a run left ----------

  ghost predicate UsersOk(users: map<Id, User>) {
    (forall u | u in users :: Backup.UserOk(users[u])) &&
    forall u, v | u in users && v in users && u != v :: users[u].username != users[v].username
  }

  /** Whatever a run of target operations leaves, its export can be restored. */
  lemma EveryRunCanBeRestored(db: Database, calls: seq<Call>, start: int, data: Backup.Data)
    requires Consistent(db) && PausesOk(db.targets, db.pauses, start) && TargetConstraints(db) && UsersOk(db.users)
    requires Possible(db, calls, start) && Backup.IsExport(AfterAll(db, calls), data)
    ensures Backup.Coherent(data)
  {
    EveryRunKeepsTheStore(db, calls, start);
    EveryRunKeepsConstraints(db, calls, start);
    Backup.ExportIsCoherent(AfterAll(db, calls), data);
  }

  lemma SameOwners(targets: map<Id, Target>, after: map<Id, Target>, rules: set<Id>)
    requires after.Keys == targets.Keys && (forall t | t in targets :: after[t].ruleId == targets[t].ruleId) && RulesOwned(targets, rules)
    ensures RulesOwned(after, rules) && forall t, r :: Owns(after, t, r) <==> Owns(targets, t, r)
  {
    forall t, r ensures Owns(after, t, r) <==> Owns(targets, t, r) {}
    forall r | r in rules ensures RuleOwned(after, r) {
      assert RuleOwned(targets, r);
      var t :| Owns(targets, t, r);
      assert Owns(after, t, r);
    }
  }

  /** e holds the configuration of db, and no monitoring data. */
  ghost predicate Reproduces(db: Database, e: Database) {
    e.users == db.users && e.rules == db.rules && e.checks == db.checks && e.states == db.states && e.recipients == db.recipients &&
    e.pauses == db.pauses && e.conditions == Backup.ConditionsFrom(db.conditions) && e.targets.Keys == db.targets.Keys &&
    (forall t | t in db.targets :: e.targets[t].ruleId == db.targets[t].ruleId && e.targets[t].pausedAt == db.targets[t].pausedAt) &&
    e.readings == NO_READINGS && e.alerts == map[] && e.sessions == map[] && e.targetTags == {}
  }

  lemma ReproducedIsOwned(db: Database, e: Database)
    requires Owned(db) && Reproduces(db, e)
    ensures Owned(e)
  {
    SameOwners(db.targets, e.targets, db.rules.Keys);
    forall c | c in e.conditions ensures ConditionOwned(e.targets, e.checks, e.conditions[c]) {
      assert ConditionOwned(db.targets, db.checks, db.conditions[c]);
    }
  }

  lemma ReproducedKeys(db: Database, e: Database)
    requires ForeignKeysHold(db) && Reproduces(db, e)
    ensures ForeignKeysHold(e)
  {}

  /** The restored store is one the target operations can go on from: nothing orphaned, owners and pauses in order. */
  lemma RestoredStoreIsSound(db: Database, data: Backup.Data, into: Database, now: int)
    requires Consistent(db) && PausesOk(db.targets, db.pauses, now) && Backup.IsExport(db, data)
    ensures var e := Backup.Restored(into, data); Consistent(e) && PausesOk(e.targets, e.pauses, now)
  {
    Backup.RestoreReproduces(db, data, into);
    var e := Backup.Restored(into, data);
    ReproducedKeys(db, e);
    ReproducedIsOwned(db, e);
    FewerPausesOk(db.targets, db.pauses, e.targets, e.pauses, now);
  }

  /** The detail depends on the checks, the conditions and the link to the rule alone. */
  lemma SameDetail(d: Database, e: Database, tid: Id, views: seq<TargetCondition>)
    requires e.checks == d.checks && e.conditions == d.conditions && e.targets.Keys == d.targets.Keys
    requires tid in d.targets ==> e.targets[tid].ruleId == d.targets[tid].ruleId
    ensures TargetDetail.IsDetail(e, tid, views) <==> TargetDetail.IsDetail(d, tid, views)
  {
    forall rid ensures TargetDetail.RowsOf(e, tid, rid) == TargetDetail.RowsOf(d, tid, rid) {}
    forall rid, ids ensures TargetDetail.IsRowDetail(e, tid, rid, views, ids) <==> TargetDetail.IsRowDetail(d, tid, rid, views, ids) {
      assert TargetDetail.RowsOf(e, tid, rid) == TargetDetail.RowsOf(d, tid, rid);
    }
    forall ids ensures TargetDetail.IsPlainDetail(e, tid, views, ids) <==> TargetDetail.IsPlainDetail(d, tid, views, ids) {
      assert ChecksOf(e, {tid}) == ChecksOf(d, {tid});
    }
  }

  /** The detail of a target after a restore is one it could have had before, unless a condition lacked its group operator. */
  lemma RestoredDetail(db: Database, data: Backup.Data, into: Database, tid: Id, views: seq<TargetCondition>)
    requires Backup.IsExport(db, data) && forall c | c in db.conditions :: db.conditions[c].groupOp != ""
    ensures TargetDetail.IsDetail(Backup.Restored(into, data), tid, views) <==> TargetDetail.IsDetail(db, tid, views)
  {
    var e := Backup.Restored(into, data);
    Backup.RestoreReproduces(db, data, into);
    SameDetail(db, e, tid, views);
  }

  /** Hence, whatever a run from such a store leaves reads back the same after a restore into any store. */
  lemma EveryRunReadsBack(db: Database, calls: seq<Call>, data: Backup.Data, into: Database, tid: Id, views: seq<TargetCondition>)
    requires Filled(db.conditions) && Backup.IsExport(AfterAll(db, calls), data)
    ensures TargetDetail.IsDetail(Backup.Restored(into, data), tid, views) <==> TargetDetail.IsDetail(AfterAll(db, calls), tid, views)
  {
    EveryRunStaysFilled(db, calls);
    RestoredDetail(AfterAll(db, calls), data, into, tid, views);
  }

  /** And it exports the same conditions again. */
  lemma EveryRunReExports(db: Database, calls: seq<Call>, data: Backup.Data, into: Database, again: Backup.Data)
    requires Filled(db.conditions) && Backup.IsExport(AfterAll(db, calls), data) && Backup.IsExport(Backup.Restored(into, data), again)
    ensures multiset(again.conditions) == multiset(data.conditions)
  {
    EveryRunStaysFilled(db, calls);
    Backup.ReExportConditionsIff(AfterAll(db, calls), data, into, again);
  }

  /** A restore fills in the group operator, whatever the backup says. */
  lemma RestoredIsFilled(into: Database, data: Backup.Data)
    ensures Filled(Backup.Restored(into, data).conditions)
  {}

  // ---------- a link the schema does not check ----------

  /** One target that names a rule no backup row has. */
  const DANGLING := Backup.Data([], map[], [], [(1, Backup.TargetCopy("web", "10.0.0.1", "", true, Ping, "AND", "Other", Some(7), None, 0, 0))],
                                [], [], [], [], [])

  /** Such a backup restores, and afterwards no update with conditions succeeds on the target. */
  lemma DanglingLinkRestores(into: Database, f: Form, conds: seq<TargetCondition>)
    requires conds != []
    ensures Backup.Coherent(DANGLING) && 1 in Backup.Restored(into, DANGLING).targets
    ensures RuleMissing(Backup.Restored(into, DANGLING), 1) && UpdateFails(Backup.Restored(into, DANGLING), 1, f, conds)
  {
    assert Backup.TableOf(DANGLING.targets).Keys == {1};
    assert Backup.TableOf(DANGLING.rules) == map[];
  }
}
