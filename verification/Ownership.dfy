// Ownership over the life of the store: every rule, condition and check belongs to one target, and no
// creation, update, deletion, pause or unpause leaves an orphan (internal/store/targets.go,
// internal/store/store.go).
module Ownership {
  import opened Prelude
  import opened Schema
  import opened Targets

  ghost predicate Owns(targets: map<Id, Target>, t: Id, rid: Id) {
    t in targets && targets[t].ruleId == Some(rid)
  }

  ghost predicate RuleOwned(targets: map<Id, Target>, rid: Id) {
    exists t :: Owns(targets, t, rid)
  }

  /** Each rule belongs to exactly one target. */
  ghost predicate RulesOwned(targets: map<Id, Target>, rules: set<Id>) {
    (forall t, rid | Owns(targets, t, rid) :: rid in rules) &&
    (forall rid | rid in rules :: RuleOwned(targets, rid)) &&
    (forall t, u, rid | Owns(targets, t, rid) && Owns(targets, u, rid) :: t == u)
  }

  /** The check of a condition belongs to the target that owns the condition's rule. */
  ghost predicate ConditionOwned(targets: map<Id, Target>, checks: map<Id, Check>, row: RuleCondition) {
    row.checkId in checks && Owns(targets, checks[row.checkId].targetId, row.ruleId)
  }

  ghost predicate ConditionsOwned(targets: map<Id, Target>, checks: map<Id, Check>, rows: map<Id, RuleCondition>) {
    forall c | c in rows :: ConditionOwned(targets, checks, rows[c])
  }

  /** A target with checks has a rule. */
  ghost predicate ChecksOwned(targets: map<Id, Target>, checks: map<Id, Check>) {
    forall k | k in checks :: checks[k].targetId in targets && targets[checks[k].targetId].ruleId.Some?
  }

  ghost predicate Owned(db: Database) {
    RulesOwned(db.targets, db.rules.Keys) && db.states.Keys == db.rules.Keys &&
    ConditionsOwned(db.targets, db.checks, db.conditions) && ChecksOwned(db.targets, db.checks)
  }

  /** No row is orphaned, and ownership holds. */
  ghost predicate Consistent(db: Database) {
    ForeignKeysHold(db) && Owned(db)
  }

  ghost predicate Below(db: Database, base: Id) {
    KeysBelow(db.targets, base) && KeysBelow(db.rules, base) && KeysBelow(db.checks, base) &&
    KeysBelow(db.conditions, base) && KeysBelow(db.pauses, base)
  }

  // ---------- the owners after each change of the targets ----------

  /** Adding a target without a rule, or rewriting one that keeps its rule. */
  lemma SameRule(targets: map<Id, Target>, tid: Id, t: Target, rules: set<Id>)
    requires t.ruleId == if tid in targets then targets[tid].ruleId else None
    requires RulesOwned(targets, rules)
    ensures RulesOwned(targets[tid := t], rules)
    ensures forall u, r :: Owns(targets[tid := t], u, r) <==> Owns(targets, u, r)
  {
    var after := targets[tid := t];
    forall u, r ensures Owns(after, u, r) <==> Owns(targets, u, r) {}
    forall r | r in rules ensures RuleOwned(after, r) {
      assert RuleOwned(targets, r);
      var u :| Owns(targets, u, r);
      assert Owns(after, u, r);
    }
  }

  /** Giving a target without a rule a new one. */
  lemma FirstRule(targets: map<Id, Target>, tid: Id, t: Target, rid: Id, rules: set<Id>)
    requires tid in targets && targets[tid].ruleId.None? && t.ruleId == Some(rid) && rid !in rules
    requires RulesOwned(targets, rules)
    ensures RulesOwned(targets[tid := t], rules + {rid})
    ensures forall u, r :: Owns(targets[tid := t], u, r) <==> Owns(targets, u, r) || (u == tid && r == rid)
  {
    var after := targets[tid := t];
    forall u, r ensures Owns(after, u, r) <==> Owns(targets, u, r) || (u == tid && r == rid) {}
    forall r | r in rules + {rid} ensures RuleOwned(after, r) {
      if r == rid {
        assert Owns(after, tid, rid);
      } else {
        assert RuleOwned(targets, r);
        var u :| Owns(targets, u, r);
        assert Owns(after, u, r);
      }
    }
  }

  /** Taking a target, or just its rule, away. */
  lemma LostRule(targets: map<Id, Target>, tid: Id, after: map<Id, Target>, rules: set<Id>)
    requires tid in targets && RulesOwned(targets, rules)
    requires forall u, r :: Owns(after, u, r) <==> u != tid && Owns(targets, u, r)
    ensures RulesOwned(after, rules - LinkedRule(targets, tid))
  {
    forall u, r | Owns(after, u, r) ensures r in rules - LinkedRule(targets, tid) {
      assert Owns(targets, u, r);
      assert r in LinkedRule(targets, tid) ==> Owns(targets, tid, r);
    }
    forall r | r in rules - LinkedRule(targets, tid) ensures RuleOwned(after, r) {
      assert RuleOwned(targets, r);
      var u :| Owns(targets, u, r);
      assert Owns(after, u, r);
    }
  }

  /** Conditions and checks stay owned when owners stay owners. */
  lemma StillOwned(targets: map<Id, Target>, after: map<Id, Target>, checks: map<Id, Check>, rows: map<Id, RuleCondition>)
    requires ConditionsOwned(targets, checks, rows) && ChecksOwned(targets, checks)
    requires forall t, r :: Owns(targets, t, r) ==> Owns(after, t, r)
    ensures ConditionsOwned(after, checks, rows) && ChecksOwned(after, checks)
  {
    forall k | k in checks
      ensures checks[k].targetId in after && after[checks[k].targetId].ruleId.Some?
    {
      assert Owns(targets, checks[k].targetId, targets[checks[k].targetId].ruleId.value);
    }
  }

  // ---------- the steps of creation and update ----------

  lemma TargetKeepsConsistent(db: Database, tid: Id, t: Target, creator: Option<Id>)
    requires Consistent(db) && tid !in db.targets && t.ruleId.None? && (creator.Some? ==> creator.value in db.users)
    ensures Consistent(WithTarget(db, tid, t, creator))
  {
    SameRule(db.targets, tid, t, db.rules.Keys);
    StillOwned(db.targets, db.targets[tid := t], db.checks, db.conditions);
  }

  lemma EditKeepsConsistent(db: Database, tid: Id, f: Form, preferred: CheckKind, now: int)
    requires Consistent(db) && tid in db.targets
    ensures Consistent(WithTargetEdited(db, tid, f, preferred, now))
  {
    var t := EditedTarget(db.targets[tid], f, preferred, now);
    SameRule(db.targets, tid, t, db.rules.Keys);
    StillOwned(db.targets, db.targets[tid := t], db.checks, db.conditions);
    assert db.targets[tid := t].Keys == db.targets.Keys;
  }

  lemma NewRuleKeepsConsistent(db: Database, tid: Id, preferred: CheckKind, rid: Id, rule: Rule)
    requires Consistent(db) && tid in db.targets && db.targets[tid].ruleId.None? && rid !in db.rules
    ensures Consistent(WithNewRule(db, tid, preferred, rid, rule))
    ensures Owns(WithNewRule(db, tid, preferred, rid, rule).targets, tid, rid)
  {
    var t, d := db.targets[tid].(ruleId := Some(rid), preferred := preferred), WithNewRule(db, tid, preferred, rid, rule);
    FirstRule(db.targets, tid, t, rid, db.rules.Keys);
    StillOwned(db.targets, db.targets[tid := t], db.checks, db.conditions);
    assert d.rules.Keys == db.rules.Keys + {rid} && d.states.Keys == db.states.Keys + {rid} && d.targets.Keys == db.targets.Keys;
  }

  lemma RuleKeepsConsistent(db: Database, tid: Id, f: Form, base: Id, now: int)
    requires Consistent(db) && tid in db.targets && base + 1 !in db.rules
    ensures Consistent(WithRule(db, tid, f, base, now))
    ensures Owns(WithRule(db, tid, f, base, now).targets, tid, RuleOf(db.targets, tid, base))
  {
    if db.targets[tid].ruleId.None? {
      NewRuleKeepsConsistent(db, tid, db.targets[tid].preferred, base + 1, NewRule(f, now));
    } else {
      assert RulesEdited(db.rules, db.targets[tid].ruleId.value, f, now).Keys == db.rules.Keys;
    }
  }

  lemma RuleLossKeepsKeys(db: Database, tid: Id)
    requires ForeignKeysHold(db) && tid in db.targets
    ensures ForeignKeysHold(WithoutRuleAndChecks(db, tid))
  {
    DeleteRulesKeepsKeys(db, LinkedRule(db.targets, tid));
    assert WithoutRule(db, tid).targets.Keys == db.targets.Keys;
    DeleteChecksKeepsKeys(WithoutRule(db, tid), ChecksOf(db, {tid}));
  }

  lemma RuleLossOwners(db: Database, tid: Id)
    requires Owned(db) && tid in db.targets
    ensures var e := WithoutRule(db, tid); RulesOwned(e.targets, e.rules.Keys) && e.rules.Keys == e.states.Keys
    ensures forall u, r :: Owns(WithoutRule(db, tid).targets, u, r) <==> u != tid && Owns(db.targets, u, r)
  {
    var e := WithoutRule(db, tid);
    forall u, r ensures Owns(e.targets, u, r) <==> u != tid && Owns(db.targets, u, r) {}
    LostRule(db.targets, tid, e.targets, db.rules.Keys);
    assert e.rules.Keys == db.rules.Keys - LinkedRule(db.targets, tid);
  }

  /** Rows of other targets stay owned when one target is emptied. */
  lemma OthersStillOwned(db: Database, tid: Id, after: Database)
    requires Owned(db) && forall u, r :: Owns(after.targets, u, r) <==> u != tid && Owns(db.targets, u, r)
    requires forall k | k in after.checks :: k in db.checks && after.checks[k] == db.checks[k] && db.checks[k].targetId != tid
    requires forall c | c in after.conditions :: c in db.conditions && after.conditions[c] == db.conditions[c] && db.conditions[c].checkId in after.checks
    ensures ConditionsOwned(after.targets, after.checks, after.conditions) && ChecksOwned(after.targets, after.checks)
  {
    forall c | c in after.conditions ensures ConditionOwned(after.targets, after.checks, after.conditions[c]) {
      assert ConditionOwned(db.targets, db.checks, db.conditions[c]);
    }
    forall k | k in after.checks
      ensures after.checks[k].targetId in after.targets && after.targets[after.checks[k].targetId].ruleId.Some?
    {
      assert Owns(db.targets, db.checks[k].targetId, db.targets[db.checks[k].targetId].ruleId.value);
    }
  }

  lemma RuleLossKeepsConsistent(db: Database, tid: Id)
    requires Consistent(db) && tid in db.targets
    ensures Consistent(WithoutRuleAndChecks(db, tid))
  {
    RuleLossKeepsKeys(db, tid);
    RuleLossOwners(db, tid);
    var g := WithoutRuleAndChecks(db, tid);
    OthersStillOwned(db, tid, g);
  }

  lemma GapsShrink(db: Database, tid: Id, rid: Id, conds: seq<TargetCondition>)
    ensures var e := WithGaps(db, tid, rid, conds);
            e.targets == db.targets && e.checks.Keys <= db.checks.Keys && e.conditions.Keys <= db.conditions.Keys
  {}

  lemma WrittenCheck(checks: map<Id, Check>, tid: Id, conds: seq<TargetCondition>, base: Id, now: int, i: nat)
    requires KeysBelow(checks, base) && Unguessed(conds, base) && i < |conds| && Writable(checks, tid, conds[i])
    ensures var k, checks' := CheckIdOf(conds[i], base, i), WriteChecks(checks, tid, conds, base, now);
            k in checks' && checks'[k].targetId == tid
  {
    ChecksWritten(checks, tid, conds, base, now, CheckIdOf(conds[i], base, i));
  }

  lemma WritingKeepsConditionsOwned(d: Database, tid: Id, rid: Id, conds: seq<TargetCondition>, base: Id, now: int)
    requires Owned(d) && KeysBelow(d.checks, base) && KeysBelow(d.conditions, base) && Unguessed(conds, base)
    requires AllWritable(d.checks, tid, conds) && Owns(d.targets, tid, rid)
    ensures var e := WithConditions(d, tid, rid, conds, base, now); ConditionsOwned(e.targets, e.checks, e.conditions)
  {
    var e := WithConditions(d, tid, rid, conds, base, now);
    forall c | c in e.conditions ensures ConditionOwned(e.targets, e.checks, e.conditions[c]) {
      ConditionsWritten(d.conditions, rid, conds, base, c);
      if c in d.conditions {
        assert ConditionOwned(d.targets, d.checks, d.conditions[c]);
        ChecksWritten(d.checks, tid, conds, base, now, d.conditions[c].checkId);
      } else {
        WrittenCheck(d.checks, tid, conds, base, now, PositionOf(base, c));
      }
    }
  }

  /** Writing the conditions of a target that owns the rule keeps everything in place. */
  lemma WritingKeepsConsistent(d: Database, tid: Id, rid: Id, conds: seq<TargetCondition>, base: Id, now: int)
    requires Consistent(d) && KeysBelow(d.checks, base) && KeysBelow(d.conditions, base) && Unguessed(conds, base)
    requires AllWritable(d.checks, tid, conds) && Owns(d.targets, tid, rid)
    ensures Consistent(WithConditions(d, tid, rid, conds, base, now))
  {
    var e := WithConditions(d, tid, rid, conds, base, now);
    WritingKeepsConditionsOwned(d, tid, rid, conds, base, now);
    forall k | k in e.checks
      ensures e.checks[k].targetId in e.targets && e.targets[e.checks[k].targetId].ruleId.Some?
    {
      ChecksWritten(d.checks, tid, conds, base, now, k);
    }
    forall k | k in d.checks ensures k in e.checks {
      ChecksWritten(d.checks, tid, conds, base, now, k);
    }
    forall c | c in e.conditions ensures e.conditions[c].ruleId in e.rules {
      assert ConditionOwned(e.targets, e.checks, e.conditions[c]);
    }
  }

  // ---------- the operations ----------

  lemma UnownedIsWritable(checks: map<Id, Check>, tid: Id, conds: seq<TargetCondition>)
    requires forall i | 0 <= i < |conds| :: !conds[i].kind.Unknown?
    ensures AllWritable(checks, tid, Unowned(conds))
  {}

  lemma CreateKeepsConsistent(db: Database, f: Form, conds: seq<TargetCondition>, creator: Option<Id>, base: Id, now: int)
    requires Consistent(db) && Below(db, base) && !CreateFails(db, f, conds, creator)
    ensures Consistent(Created(db, f, conds, creator, base, now))
  {
    var d := WithTarget(db, base, NewTarget(f, now), creator);
    TargetKeepsConsistent(db, base, NewTarget(f, now), creator);
    if conds != [] {
      NewRuleKeepsConsistent(d, base, FirstPreferred(f, conds), base + 1, NewRule(f, now));
      var e := WithNewRule(d, base, FirstPreferred(f, conds), base + 1, NewRule(f, now));
      UnownedIsWritable(e.checks, base, conds);
      WritingKeepsConsistent(e, base, base + 1, Unowned(conds), base, now);
    }
  }

  /** The upsert can write what the request may write: no mentioned check is gone. */
  lemma GapsKeepWritable(db: Database, tid: Id, rid: Id, conds: seq<TargetCondition>)
    requires AllWritable(db.checks, tid, conds)
    ensures AllWritable(WithGaps(db, tid, rid, conds).checks, tid, conds)
  {
    forall i | 0 <= i < |conds| ensures Writable(WithGaps(db, tid, rid, conds).checks, tid, conds[i]) {
      assert Writable(db.checks, tid, conds[i]);
      assert conds[i].checkId.Some? ==> Mentioned(conds, conds[i].checkId.value);
    }
  }

  /** No condition refers to a check that goes. */
  lemma GapsKeepConsistent(e: Database, gone: set<Id>, rid: Id)
    requires Consistent(e)
    ensures var d := DeleteChecks(e, gone); Consistent(d.(conditions := RowsOfOtherRules(d.conditions, rid)))
  {
    DeleteChecksKeepsKeys(e, gone);
    var d := DeleteChecks(e, gone);
    var rows := RowsOfOtherRules(d.conditions, rid);
    assert ConditionKeys(rows, d.rules.Keys, d.checks.Keys);
    forall c | c in rows ensures ConditionOwned(d.targets, d.checks, rows[c]) {
      assert ConditionOwned(e.targets, e.checks, e.conditions[c]);
    }
  }

  lemma DiffKeepsConsistent(e: Database, tid: Id, rid: Id, conds: seq<TargetCondition>, base: Id, now: int)
    requires Consistent(e) && KeysBelow(e.checks, base) && KeysBelow(e.conditions, base) && Unguessed(conds, base)
    requires AllWritable(e.checks, tid, conds) && Owns(e.targets, tid, rid)
    ensures Consistent(WithConditions(WithGaps(e, tid, rid, conds), tid, rid, conds, base, now))
  {
    var g := WithGaps(e, tid, rid, conds);
    GapsKeepConsistent(e, Unmentioned(e.checks, tid, conds), rid);
    GapsKeepWritable(e, tid, rid, conds);
    GapsShrink(e, tid, rid, conds);
    WritingKeepsConsistent(g, tid, rid, conds, base, now);
  }

  lemma RuleChangesNoRows(d: Database, tid: Id, f: Form, base: Id, now: int)
    requires tid in d.targets
    ensures var e := WithRule(d, tid, f, base, now); e.checks == d.checks && e.conditions == d.conditions
  {}

  lemma RewritingKeepsConsistent(d: Database, tid: Id, f: Form, conds: seq<TargetCondition>, base: Id, now: int)
    requires Consistent(d) && Below(d, base) && Unguessed(conds, base) && tid in d.targets && AllWritable(d.checks, tid, conds)
    ensures var rid := RuleOf(d.targets, tid, base);
            Consistent(WithConditions(WithGaps(WithRule(d, tid, f, base, now), tid, rid, conds), tid, rid, conds, base, now))
  {
    RuleKeepsConsistent(d, tid, f, base, now);
    RuleChangesNoRows(d, tid, f, base, now);
    DiffKeepsConsistent(WithRule(d, tid, f, base, now), tid, RuleOf(d.targets, tid, base), conds, base, now);
  }

  lemma UpdateKeepsConsistent(db: Database, tid: Id, f: Form, conds: seq<TargetCondition>, base: Id, now: int)
    requires Consistent(db) && Below(db, base) && Unguessed(conds, base) && !UpdateFails(db, tid, f, conds)
    ensures Consistent(Updated(db, tid, f, conds, base, now))
  {
    var preferred := PreferredAfter(db.targets[tid].preferred, f, conds);
    var d := WithTargetEdited(db, tid, f, preferred, now);
    EditKeepsConsistent(db, tid, f, preferred, now);
    if conds == [] {
      RuleLossKeepsConsistent(d, tid);
    } else {
      RewritingKeepsConsistent(d, tid, f, conds, base, now);
    }
  }

  /** Deleting a target leaves no orphan behind. */
  lemma DeleteKeepsConsistent(db: Database, tid: Id)
    requires Consistent(db) && tid in db.targets
    ensures Consistent(Deleted(db, tid))
  {
    var d, e := DeleteRules(db, LinkedRule(db.targets, tid)), Deleted(db, tid);
    DeleteRulesKeepsKeys(db, LinkedRule(db.targets, tid));
    DeleteTargetsKeepsKeys(d, {tid});
    forall u, r ensures Owns(e.targets, u, r) <==> u != tid && Owns(db.targets, u, r) {}
    LostRule(db.targets, tid, e.targets, db.rules.Keys);
    OthersStillOwned(db, tid, e);
    assert e.rules.Keys == db.rules.Keys - LinkedRule(db.targets, tid);
  }
}
