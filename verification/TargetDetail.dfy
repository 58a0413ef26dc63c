// Reading a target back (GetTargetDetail in internal/store/targets.go): what was written by a creation
// or an update is what the detail returns, writing the detail back changes nothing, and a check that
// is kept keeps its results.
module TargetDetail {
  import opened Prelude
  import opened Schema
  import opened Targets
  import opened Ownership
  import Results

  // ---------- the query ----------

  /** checks JOIN rule_conditions ... AND rule_id = ? WHERE target_id = ? */
  function RowsOf(db: Database, tid: Id, rid: Id): set<Id> {
    set c | c in db.conditions && db.conditions[c].ruleId == rid && db.conditions[c].checkId in db.checks &&
            db.checks[db.conditions[c].checkId].targetId == tid
  }

  /** ORDER BY condition_group, sort_order */
  predicate Precedes(a: RuleCondition, b: RuleCondition) {
    a.group < b.group || (a.group == b.group && a.sortOrder < b.sortOrder)
  }

  ghost predicate InOrder(rows: map<Id, RuleCondition>, ids: seq<Id>) {
    forall i, j | 0 <= i < j < |ids| && ids[i] in rows && ids[j] in rows :: !Precedes(rows[ids[j]], rows[ids[i]])
  }

  function View(k: Id, check: Check, row: RuleCondition): TargetCondition {
    TargetCondition(Some(k), check.kind, check.name, check.config, check.intervalS, row.field, row.comparator,
                    row.value, row.failCount, row.failWindow, row.group, row.groupOp)
  }

  function ViewOf(db: Database, c: Id): TargetCondition
    requires c in db.conditions && db.conditions[c].checkId in db.checks
  {
    View(db.conditions[c].checkId, db.checks[db.conditions[c].checkId], db.conditions[c])
  }

  /** A check without a condition is shown as a plain down-check. */
  function PlainView(k: Id, check: Check): TargetCondition {
    TargetCondition(Some(k), check.kind, check.name, check.config, check.intervalS, "status", "eq", "down", 1, 0, 0, "")
  }

  /** The conditions of the target's rule, in order. */
  ghost predicate IsRowDetail(db: Database, tid: Id, rid: Id, views: seq<TargetCondition>, ids: seq<Id>) {
    Lists(ids, RowsOf(db, tid, rid)) && InOrder(db.conditions, ids) && |views| == |ids| &&
    forall i | 0 <= i < |ids| :: ids[i] in RowsOf(db, tid, rid) && views[i] == ViewOf(db, ids[i])
  }

  ghost predicate IsPlainDetail(db: Database, tid: Id, views: seq<TargetCondition>, ids: seq<Id>) {
    Lists(ids, ChecksOf(db, {tid})) && |views| == |ids| &&
    forall i | 0 <= i < |ids| :: ids[i] in db.checks && views[i] == PlainView(ids[i], db.checks[ids[i]])
  }

  ghost predicate HasRows(db: Database, tid: Id) {
    tid in db.targets && db.targets[tid].ruleId.Some? && RowsOf(db, tid, db.targets[tid].ruleId.value) != {}
  }

  /** What GetTargetDetail may answer: the order of rows that tie is the database's. */
  ghost predicate IsDetail(db: Database, tid: Id, views: seq<TargetCondition>) {
    tid in db.targets &&
    exists ids :: if HasRows(db, tid) then IsRowDetail(db, tid, db.targets[tid].ruleId.value, views, ids)
                  else IsPlainDetail(db, tid, views, ids)
  }

  // ---------- what was submitted, as it comes back ----------

  /** A submitted condition with its defaults filled in and the id and kind of its check. */
  function Filled(c: TargetCondition, k: Id, kind: CheckKind): TargetCondition {
    TargetCondition(Some(k), kind, c.name, c.config, c.intervalS, OrElse(c.field, "status"), OrElse(c.comparator, "eq"),
                    c.value, if c.failCount <= 0 then 1 else c.failCount, c.failWindow, c.group, OrElse(c.groupOp, "AND"))
  }

  /** A kept check has the kind it had. */
  function KindOf(checks: map<Id, Check>, c: TargetCondition): CheckKind {
    if c.checkId.Some? && c.checkId.value in checks then checks[c.checkId.value].kind else c.kind
  }

  predicate Earlier(conds: seq<TargetCondition>, i: nat, j: nat)
    requires i < |conds| && j < |conds|
  {
    conds[i].group < conds[j].group || (conds[i].group == conds[j].group && i < j)
  }

  /** The stable sort by group. */
  ghost predicate IsStableOrder(p: seq<nat>, conds: seq<TargetCondition>) {
    |p| == |conds| && (forall a | 0 <= a < |p| :: p[a] < |conds|) &&
    forall a, b | 0 <= a < b < |p| :: Earlier(conds, p[a], p[b])
  }

  /** The views are the submitted conditions, each once, defaults filled in, stably sorted by group. */
  ghost predicate ComesBack(views: seq<TargetCondition>, conds: seq<TargetCondition>, checks: map<Id, Check>, base: Id, p: seq<nat>) {
    IsStableOrder(p, conds) && |views| == |conds| &&
    forall a | 0 <= a < |views| :: views[a] == Filled(conds[p[a]], CheckIdOf(conds[p[a]], base, p[a]), KindOf(checks, conds[p[a]]))
  }

  function ConditionIds(base: Id, n: nat): (s: set<Id>)
    ensures |s| == n
    ensures forall c :: c in s <==> IsConditionId(base, n, c)
  {
    if n == 0 then {} else
      assert forall c :: IsConditionId(base, n, c) <==> IsConditionId(base, n - 1, c) || c == ConditionId(base, n - 1);
      ConditionIds(base, n - 1) + {ConditionId(base, n - 1)}
  }

  lemma {:induction false} ListLength(ids: seq<Id>, s: set<Id>)
    requires Lists(ids, s)
    ensures |ids| == |s|
  {
    if ids == [] {
      assert s == {};
    } else {
      var n := |ids| - 1;
      assert forall c :: c in ids[..n] <==> c in s - {ids[n]};
      ListLength(ids[..n], s - {ids[n]});
    }
  }

  /** d has no condition of the rule; e is d with the conditions written. */
  lemma WrittenRows(d: Database, tid: Id, rid: Id, conds: seq<TargetCondition>, base: Id, now: int)
    requires KeysBelow(d.checks, base) && KeysBelow(d.conditions, base) && Unguessed(conds, base) && AllWritable(d.checks, tid, conds)
    requires forall c | c in d.conditions :: d.conditions[c].ruleId != rid
    ensures RowsOf(WithConditions(d, tid, rid, conds, base, now), tid, rid) == ConditionIds(base, |conds|)
  {
    var e := WithConditions(d, tid, rid, conds, base, now);
    forall c ensures c in RowsOf(e, tid, rid) <==> c in ConditionIds(base, |conds|) {
      ConditionsWritten(d.conditions, rid, conds, base, c);
      if IsConditionId(base, |conds|, c) {
        assert c !in d.conditions;
        WrittenCheck(d.checks, tid, conds, base, now, PositionOf(base, c));
      }
    }
  }

  lemma WrittenView(d: Database, tid: Id, rid: Id, conds: seq<TargetCondition>, base: Id, now: int, c: Id)
    requires KeysBelow(d.checks, base) && KeysBelow(d.conditions, base) && Unguessed(conds, base) && AllWritable(d.checks, tid, conds)
    requires DistinctChecks(conds) && IsConditionId(base, |conds|, c)
    ensures var e, i := WithConditions(d, tid, rid, conds, base, now), PositionOf(base, c);
            c in e.conditions && e.conditions[c].checkId in e.checks && e.conditions[c].group == conds[i].group && e.conditions[c].sortOrder == i &&
            ViewOf(e, c) == Filled(conds[i], CheckIdOf(conds[i], base, i), KindOf(d.checks, conds[i]))
  {
    ConditionsWritten(d.conditions, rid, conds, base, c);
    FinalChecks(d.checks, tid, conds, base, now, PositionOf(base, c));
  }

  function Positions(base: Id, ids: seq<Id>): seq<nat>
    requires forall a | 0 <= a < |ids| :: ids[a] >= base + 3
  {
    seq(|ids|, a requires 0 <= a < |ids| => PositionOf(base, ids[a]))
  }

  lemma WrittenPair(d: Database, tid: Id, rid: Id, conds: seq<TargetCondition>, base: Id, now: int, b: Id, c: Id)
    requires KeysBelow(d.checks, base) && KeysBelow(d.conditions, base) && Unguessed(conds, base) && AllWritable(d.checks, tid, conds)
    requires DistinctChecks(conds) && IsConditionId(base, |conds|, b) && IsConditionId(base, |conds|, c) && b != c
    requires var e := WithConditions(d, tid, rid, conds, base, now);
             b in e.conditions && c in e.conditions ==> !Precedes(e.conditions[c], e.conditions[b])
    ensures Earlier(conds, PositionOf(base, b), PositionOf(base, c))
  {
    WrittenView(d, tid, rid, conds, base, now, b);
    WrittenView(d, tid, rid, conds, base, now, c);
  }

  lemma WrittenIds(d: Database, tid: Id, rid: Id, conds: seq<TargetCondition>, base: Id, now: int, ids: seq<Id>)
    requires KeysBelow(d.checks, base) && KeysBelow(d.conditions, base) && Unguessed(conds, base) && AllWritable(d.checks, tid, conds)
    requires forall c | c in d.conditions :: d.conditions[c].ruleId != rid
    requires Lists(ids, RowsOf(WithConditions(d, tid, rid, conds, base, now), tid, rid))
    ensures |ids| == |conds| && forall a | 0 <= a < |ids| :: ids[a] >= base + 3 && IsConditionId(base, |conds|, ids[a])
  {
    WrittenRows(d, tid, rid, conds, base, now);
    ListLength(ids, ConditionIds(base, |conds|));
    assert forall a | 0 <= a < |ids| :: ids[a] in ids;
  }

  lemma WrittenInOrder(d: Database, tid: Id, rid: Id, conds: seq<TargetCondition>, base: Id, now: int, ids: seq<Id>)
    requires KeysBelow(d.checks, base) && KeysBelow(d.conditions, base) && Unguessed(conds, base) && AllWritable(d.checks, tid, conds)
    requires DistinctChecks(conds) && |ids| == |conds| && forall a | 0 <= a < |ids| :: ids[a] >= base + 3 && IsConditionId(base, |conds|, ids[a])
    requires (forall a, b | 0 <= a < b < |ids| :: ids[a] != ids[b]) && InOrder(WithConditions(d, tid, rid, conds, base, now).conditions, ids)
    ensures IsStableOrder(Positions(base, ids), conds)
  {
    var p := Positions(base, ids);
    forall a, b | 0 <= a < b < |p| ensures Earlier(conds, p[a], p[b]) {
      WrittenPair(d, tid, rid, conds, base, now, ids[a], ids[b]);
    }
  }

  /** Whatever listing of the written rows the query returns, it shows the submitted conditions. */
  lemma WrittenComesBack(d: Database, tid: Id, rid: Id, conds: seq<TargetCondition>, base: Id, now: int, views: seq<TargetCondition>, ids: seq<Id>)
    requires KeysBelow(d.checks, base) && KeysBelow(d.conditions, base) && Unguessed(conds, base) && AllWritable(d.checks, tid, conds)
    requires forall c | c in d.conditions :: d.conditions[c].ruleId != rid
    requires DistinctChecks(conds) && IsRowDetail(WithConditions(d, tid, rid, conds, base, now), tid, rid, views, ids)
    ensures (forall a | 0 <= a < |ids| :: ids[a] >= base + 3) && ComesBack(views, conds, d.checks, base, Positions(base, ids))
  {
    WrittenIds(d, tid, rid, conds, base, now, ids);
    WrittenInOrder(d, tid, rid, conds, base, now, ids);
    var p := Positions(base, ids);
    forall a | 0 <= a < |ids|
      ensures views[a] == Filled(conds[p[a]], CheckIdOf(conds[p[a]], base, p[a]), KindOf(d.checks, conds[p[a]]))
    {
      WrittenView(d, tid, rid, conds, base, now, ids[a]);
    }
  }

  // ---------- round trips ----------

  ghost predicate SameKinds(checks: map<Id, Check>, others: map<Id, Check>, conds: seq<TargetCondition>) {
    forall i | 0 <= i < |conds| :: KindOf(checks, conds[i]) == KindOf(others, conds[i])
  }

  lemma ComesBackFrom(views: seq<TargetCondition>, conds: seq<TargetCondition>, checks: map<Id, Check>, others: map<Id, Check>, base: Id, p: seq<nat>)
    requires ComesBack(views, conds, checks, base, p) && SameKinds(checks, others, conds)
    ensures ComesBack(views, conds, others, base, p)
  {}

  lemma WrittenHasRows(d: Database, tid: Id, rid: Id, conds: seq<TargetCondition>, base: Id, now: int)
    requires tid in d.targets && d.targets[tid].ruleId == Some(rid) && conds != []
    requires KeysBelow(d.checks, base) && KeysBelow(d.conditions, base) && Unguessed(conds, base) && AllWritable(d.checks, tid, conds)
    requires forall c | c in d.conditions :: d.conditions[c].ruleId != rid
    ensures HasRows(WithConditions(d, tid, rid, conds, base, now), tid)
  {
    WrittenRows(d, tid, rid, conds, base, now);
    assert ConditionId(base, 0) in ConditionIds(base, |conds|);
  }

  /** A creation or update came down to writing the conditions over d; the detail shows them. */
  lemma DetailComesBack(d: Database, tid: Id, conds: seq<TargetCondition>, base: Id, now: int, views: seq<TargetCondition>)
    requires KeysBelow(d.checks, base) && KeysBelow(d.conditions, base) && Unguessed(conds, base) && AllWritable(d.checks, tid, conds)
    requires tid in d.targets && d.targets[tid].ruleId.Some? && conds != [] && DistinctChecks(conds)
    requires var rid := d.targets[tid].ruleId.value;
             (forall c | c in d.conditions :: d.conditions[c].ruleId != rid) && IsDetail(WithConditions(d, tid, rid, conds, base, now), tid, views)
    ensures HasRows(WithConditions(d, tid, d.targets[tid].ruleId.value, conds, base, now), tid)
    ensures exists p :: ComesBack(views, conds, d.checks, base, p)
  {
    var rid := d.targets[tid].ruleId.value;
    WrittenHasRows(d, tid, rid, conds, base, now);
    var ids :| IsRowDetail(WithConditions(d, tid, rid, conds, base, now), tid, rid, views, ids);
    WrittenComesBack(d, tid, rid, conds, base, now, views, ids);
  }

  lemma NoChecksNoDetail(e: Database, tid: Id, views: seq<TargetCondition>)
    requires ChecksOf(e, {tid}) == {} && IsDetail(e, tid, views)
    ensures views == []
  {
    if e.targets[tid].ruleId.Some? {
      forall c ensures c !in RowsOf(e, tid, e.targets[tid].ruleId.value) {
        assert c in e.conditions ==> e.conditions[c].checkId !in ChecksOf(e, {tid});
      }
    }
    var ids :| IsPlainDetail(e, tid, views, ids);
    ListLength(ids, {});
  }

  /** What creation submits is what the detail returns, with the defaults filled in, stably sorted by group. */
  lemma CreatedComesBack(db: Database, f: Form, conds: seq<TargetCondition>, creator: Option<Id>, base: Id, now: int, views: seq<TargetCondition>)
    requires Consistent(db) && Below(db, base) && !CreateFails(db, f, conds, creator)
    requires IsDetail(Created(db, f, conds, creator, base, now), base, views)
    ensures conds != [] ==> HasRows(Created(db, f, conds, creator, base, now), base)
    ensures exists p :: ComesBack(views, Unowned(conds), db.checks, base, p)
  {
    var d := WithTarget(db, base, NewTarget(f, now), creator);
    if conds == [] {
      NoChecksNoDetail(d, base, views);
      assert ComesBack(views, Unowned(conds), db.checks, base, []);
    } else {
      var e := WithNewRule(d, base, FirstPreferred(f, conds), base + 1, NewRule(f, now));
      UnownedIsWritable(e.checks, base, conds);
      DetailComesBack(e, base, Unowned(conds), base, now, views);
    }
  }

  lemma GapsHaveNoRows(d: Database, tid: Id, rid: Id, conds: seq<TargetCondition>)
    requires AllWritable(d.checks, tid, conds)
    ensures forall c | c in WithGaps(d, tid, rid, conds).conditions :: WithGaps(d, tid, rid, conds).conditions[c].ruleId != rid
    ensures SameKinds(WithGaps(d, tid, rid, conds).checks, d.checks, conds)
  {
    forall i | 0 <= i < |conds| ensures KindOf(WithGaps(d, tid, rid, conds).checks, conds[i]) == KindOf(d.checks, conds[i]) {
      assert Writable(d.checks, tid, conds[i]);
      assert conds[i].checkId.Some? ==> Mentioned(conds, conds[i].checkId.value);
    }
  }

  lemma DiffComesBack(e: Database, tid: Id, conds: seq<TargetCondition>, base: Id, now: int, views: seq<TargetCondition>)
    requires KeysBelow(e.checks, base) && KeysBelow(e.conditions, base) && Unguessed(conds, base) && AllWritable(e.checks, tid, conds)
    requires tid in e.targets && e.targets[tid].ruleId.Some? && conds != [] && DistinctChecks(conds)
    requires var rid := e.targets[tid].ruleId.value; IsDetail(WithConditions(WithGaps(e, tid, rid, conds), tid, rid, conds, base, now), tid, views)
    ensures var rid := e.targets[tid].ruleId.value; HasRows(WithConditions(WithGaps(e, tid, rid, conds), tid, rid, conds, base, now), tid)
    ensures exists p :: ComesBack(views, conds, e.checks, base, p)
  {
    var rid := e.targets[tid].ruleId.value;
    var g := WithGaps(e, tid, rid, conds);
    GapsKeepWritable(e, tid, rid, conds);
    GapsShrink(e, tid, rid, conds);
    GapsHaveNoRows(e, tid, rid, conds);
    DetailComesBack(g, tid, conds, base, now, views);
    var p :| ComesBack(views, conds, g.checks, base, p);
    ComesBackFrom(views, conds, g.checks, e.checks, base, p);
  }

  lemma RuleLinks(d: Database, tid: Id, f: Form, base: Id, now: int)
    requires tid in d.targets
    ensures var targets := WithRule(d, tid, f, base, now).targets; tid in targets && targets[tid].ruleId == Some(RuleOf(d.targets, tid, base))
  {}

  /** The target row, the checks and the conditions when an update comes to its diff. */
  lemma BeforeDiff(db: Database, tid: Id, f: Form, preferred: CheckKind, base: Id, now: int)
    requires tid in db.targets
    ensures var e := WithRule(WithTargetEdited(db, tid, f, preferred, now), tid, f, base, now);
            e.checks == db.checks && e.conditions == db.conditions && tid in e.targets && e.targets[tid].ruleId == Some(RuleOf(db.targets, tid, base))
  {
    var d := WithTargetEdited(db, tid, f, preferred, now);
    RuleChangesNoRows(d, tid, f, base, now);
    RuleLinks(d, tid, f, base, now);
  }

  lemma WithoutRuleHasNoChecks(db: Database, tid: Id)
    requires tid in db.targets
    ensures tid in WithoutRuleAndChecks(db, tid).targets && ChecksOf(WithoutRuleAndChecks(db, tid), {tid}) == {}
  {}

  /** What an update submits is what the detail returns; a kept check shows the kind it had. */
  lemma UpdatedComesBack(db: Database, tid: Id, f: Form, conds: seq<TargetCondition>, base: Id, now: int, views: seq<TargetCondition>)
    requires Below(db, base) && Unguessed(conds, base) && DistinctChecks(conds) && !UpdateFails(db, tid, f, conds)
    requires IsDetail(Updated(db, tid, f, conds, base, now), tid, views)
    ensures conds != [] ==> HasRows(Updated(db, tid, f, conds, base, now), tid)
    ensures exists p :: ComesBack(views, conds, db.checks, base, p)
  {
    var preferred := PreferredAfter(db.targets[tid].preferred, f, conds);
    var d := WithTargetEdited(db, tid, f, preferred, now);
    if conds == [] {
      WithoutRuleHasNoChecks(d, tid);
      NoChecksNoDetail(WithoutRuleAndChecks(d, tid), tid, views);
      assert ComesBack(views, conds, db.checks, base, []);
    } else {
      BeforeDiff(db, tid, f, preferred, base, now);
      DiffComesBack(WithRule(d, tid, f, base, now), tid, conds, base, now, views);
    }
  }

  // ---------- writing the detail back ----------

  predicate IsFilled(c: TargetCondition) {
    c.field != "" && c.comparator != "" && c.failCount > 0 && c.groupOp != ""
  }

  /** Distinct checks, and no field that writing would fill in. */
  ghost predicate FitToWriteBack(views: seq<TargetCondition>) {
    DistinctChecks(views) && forall a | 0 <= a < |views| :: IsFilled(views[a])
  }

  ghost predicate ByGroup(conds: seq<TargetCondition>) {
    forall i, j | 0 <= i < j < |conds| :: conds[i].group <= conds[j].group
  }

  lemma {:induction false} AtLeastIndex(p: seq<nat>, a: nat)
    requires a < |p| && forall i, j | 0 <= i < j < |p| :: p[i] < p[j]
    ensures p[a] >= a
  {
    if a > 0 {
      AtLeastIndex(p, a - 1);
    }
  }

  lemma {:induction false} AtMostIndex(p: seq<nat>, a: nat)
    requires a < |p| && (forall i, j | 0 <= i < j < |p| :: p[i] < p[j]) && p[|p| - 1] < |p|
    ensures p[a] <= a
    decreases |p| - a
  {
    if a < |p| - 1 {
      AtMostIndex(p, a + 1);
    }
  }

  /** Sorting what is sorted moves nothing. */
  lemma SortedStays(p: seq<nat>, conds: seq<TargetCondition>, a: nat)
    requires IsStableOrder(p, conds) && ByGroup(conds) && a < |p|
    ensures p[a] == a
  {
    forall i, j | 0 <= i < j < |p| ensures p[i] < p[j] {
      assert Earlier(conds, p[i], p[j]);
    }
    AtLeastIndex(p, a);
    AtMostIndex(p, a);
  }

  lemma ViewsOwnChecks(db: Database, tid: Id, rid: Id, views: seq<TargetCondition>, ids: seq<Id>, a: nat)
    requires IsRowDetail(db, tid, rid, views, ids) && a < |views|
    ensures views[a].checkId.Some? && views[a].checkId.value in db.checks &&
            db.checks[views[a].checkId.value].targetId == tid && db.checks[views[a].checkId.value].kind == views[a].kind
  {}

  lemma DetailIsByGroup(db: Database, tid: Id, rid: Id, views: seq<TargetCondition>, ids: seq<Id>)
    requires IsRowDetail(db, tid, rid, views, ids)
    ensures ByGroup(views)
  {
    forall i, j | 0 <= i < j < |views| ensures views[i].group <= views[j].group {
      assert !Precedes(db.conditions[ids[j]], db.conditions[ids[i]]);
    }
  }

  lemma DetailIsWritable(db: Database, tid: Id, rid: Id, views: seq<TargetCondition>, ids: seq<Id>, base: Id)
    requires IsRowDetail(db, tid, rid, views, ids) && KeysBelow(db.checks, base)
    ensures AllWritable(db.checks, tid, views) && Unguessed(views, base)
    ensures forall a | 0 <= a < |views| :: views[a].checkId.Some? && KindOf(db.checks, views[a]) == views[a].kind
    ensures RowsOf(db, tid, rid) != {} ==> views != []
  {
    ListLength(ids, RowsOf(db, tid, rid));
    forall a | 0 <= a < |views|
      ensures views[a].checkId.Some? && views[a].checkId.value in db.checks && Writable(db.checks, tid, views[a]) && KindOf(db.checks, views[a]) == views[a].kind
    {
      ViewsOwnChecks(db, tid, rid, views, ids, a);
    }
  }

  lemma RowsWrittenBack(db: Database, tid: Id, f: Form, views: seq<TargetCondition>, base: Id, now: int, again: seq<TargetCondition>)
    requires tid in db.targets && AllWritable(db.checks, tid, views) && Unguessed(views, base) && ByGroup(views) && views != []
    requires forall a | 0 <= a < |views| :: views[a].checkId.Some? && KindOf(db.checks, views[a]) == views[a].kind
    requires Below(db, base) && FitToWriteBack(views) && !UpdateFails(db, tid, f, views)
    requires IsDetail(Updated(db, tid, f, views, base, now), tid, again)
    ensures again == views
  {
    UpdatedComesBack(db, tid, f, views, base, now, again);
    var p :| ComesBack(again, views, db.checks, base, p);
    forall a | 0 <= a < |again| ensures again[a] == views[a] {
      SortedStays(p, views, a);
    }
  }

  lemma LinkedDetailIsFixpoint(db: Database, tid: Id, f: Form, views: seq<TargetCondition>, base: Id, now: int, again: seq<TargetCondition>)
    requires Below(db, base) && HasRows(db, tid) && IsDetail(db, tid, views) && FitToWriteBack(views) && !RuleMissing(db, tid)
    requires !NameTaken(db.targets, f.name, Some(tid)) && OrElse(f.operator, "AND") in OPERATORS
    ensures !UpdateFails(db, tid, f, views)
    ensures IsDetail(Updated(db, tid, f, views, base, now), tid, again) ==> again == views
  {
    var rid := db.targets[tid].ruleId.value;
    var ids :| IsRowDetail(db, tid, rid, views, ids);
    DetailIsByGroup(db, tid, rid, views, ids);
    DetailIsWritable(db, tid, rid, views, ids, base);
    if IsDetail(Updated(db, tid, f, views, base, now), tid, again) {
      RowsWrittenBack(db, tid, f, views, base, now, again);
    }
  }

  /** Writing the detail back succeeds and changes nothing of the detail. */
  lemma WritingBackIsFixpoint(db: Database, tid: Id, f: Form, views: seq<TargetCondition>, base: Id, now: int, again: seq<TargetCondition>)
    requires ConditionKeys(db.conditions, db.rules.Keys, db.checks.Keys)
    requires Below(db, base) && HasRows(db, tid) && IsDetail(db, tid, views) && FitToWriteBack(views)
    requires !NameTaken(db.targets, f.name, Some(tid)) && OrElse(f.operator, "AND") in OPERATORS
    ensures !UpdateFails(db, tid, f, views)
    ensures IsDetail(Updated(db, tid, f, views, base, now), tid, again) ==> again == views
  {
    var c :| c in RowsOf(db, tid, db.targets[tid].ruleId.value);
    assert db.conditions[c].ruleId in db.rules;
    LinkedDetailIsFixpoint(db, tid, f, views, base, now, again);
  }

  /** What comes back of conditions with distinct checks can be written back. */
  lemma ComesBackFit(views: seq<TargetCondition>, conds: seq<TargetCondition>, checks: map<Id, Check>, base: Id, p: seq<nat>)
    requires ComesBack(views, conds, checks, base, p) && DistinctChecks(conds) && Unguessed(conds, base)
    ensures FitToWriteBack(views)
  {
    forall a, b | 0 <= a < b < |views| ensures views[a].checkId != views[b].checkId {
      assert Earlier(conds, p[a], p[b]);
    }
  }

  /** After an update, the detail is a fixpoint of the next one; e is the store the update left. */
  lemma UpdateThenWriteBack(db: Database, tid: Id, f: Form, conds: seq<TargetCondition>, base: Id, now: int, e: Database,
                            views: seq<TargetCondition>, f': Form, base': Id, now': int, again: seq<TargetCondition>)
    requires Below(db, base) && Unguessed(conds, base) && DistinctChecks(conds) && !UpdateFails(db, tid, f, conds) && conds != []
    requires e == Updated(db, tid, f, conds, base, now) && Below(e, base') && IsDetail(e, tid, views)
    requires !NameTaken(e.targets, f'.name, Some(tid)) && OrElse(f'.operator, "AND") in OPERATORS
    ensures !UpdateFails(e, tid, f', views)
    ensures IsDetail(Updated(e, tid, f', views, base', now'), tid, again) ==> again == views
  {
    UpdatedComesBack(db, tid, f, conds, base, now, views);
    var p :| ComesBack(views, conds, db.checks, base, p);
    ComesBackFit(views, conds, db.checks, base, p);
    LinkedDetailIsFixpoint(e, tid, f', views, base', now', again);
  }

  // ---------- what happens to results ----------

  /** The raw results, the current row and the rollups of one check. */
  ghost predicate SameReadings(a: Readings, b: Readings, k: Id) {
    Results.Of(a.raw, k) == Results.Of(b.raw, k) &&
    (k in a.current <==> k in b.current) && (k in a.current ==> a.current[k] == b.current[k]) &&
    forall d: int :: ((k, d) in a.rollups <==> (k, d) in b.rollups) && ((k, d) in a.rollups ==> a.rollups[(k, d)] == b.rollups[(k, d)])
  }

  ghost predicate NoReadings(rd: Readings, k: Id) {
    Results.Of(rd.raw, k) == [] && k !in rd.current && forall d: int :: (k, d) !in rd.rollups
  }

  lemma {:induction false} DroppingOthers(rows: seq<CheckResult>, gone: set<Id>, k: Id)
    ensures Results.Of(WithoutChecks(rows, gone), k) == if k in gone then [] else Results.Of(rows, k)
  {
    if rows != [] {
      var n := |rows| - 1;
      DroppingOthers(rows[..n], gone, k);
      Results.OfAppend(WithoutChecks(rows[..n], gone), rows[n], k);
    }
  }

  lemma DropReadingsOf(rd: Readings, gone: set<Id>, k: Id)
    ensures if k in gone then NoReadings(DropReadings(rd, gone), k) else SameReadings(rd, DropReadings(rd, gone), k)
  {
    DroppingOthers(rd.raw, gone, k);
  }

  lemma UpdatedReadings(db: Database, tid: Id, f: Form, conds: seq<TargetCondition>, base: Id, now: int)
    requires !UpdateFails(db, tid, f, conds)
    ensures Updated(db, tid, f, conds, base, now).readings == DropReadings(db.readings, Unmentioned(db.checks, tid, conds))
  {
    if conds == [] {
      assert ChecksOf(db, {tid}) == Unmentioned(db.checks, tid, conds);
    }
  }

  lemma DiffedCheck(e: Database, tid: Id, rid: Id, conds: seq<TargetCondition>, base: Id, now: int, k: Id)
    requires KeysBelow(e.checks, base) && Unguessed(conds, base) && k in e.checks
    ensures k in WithConditions(WithGaps(e, tid, rid, conds), tid, rid, conds, base, now).checks <==> e.checks[k].targetId != tid || Mentioned(conds, k)
  {
    GapsShrink(e, tid, rid, conds);
    ChecksWritten(WithGaps(e, tid, rid, conds).checks, tid, conds, base, now, k);
  }

  lemma UpdatedCheck(db: Database, tid: Id, f: Form, conds: seq<TargetCondition>, base: Id, now: int, k: Id)
    requires tid in db.targets && k in db.checks && KeysBelow(db.checks, base) && Unguessed(conds, base)
    ensures k in Updated(db, tid, f, conds, base, now).checks <==> db.checks[k].targetId != tid || Mentioned(conds, k)
  {
    var preferred := PreferredAfter(db.targets[tid].preferred, f, conds);
    var d := WithTargetEdited(db, tid, f, preferred, now);
    BeforeDiff(db, tid, f, preferred, base, now);
    if conds == [] {
      assert WithoutRule(d, tid).checks == db.checks;
    } else {
      DiffedCheck(WithRule(d, tid, f, base, now), tid, RuleOf(db.targets, tid, base), conds, base, now, k);
    }
  }

  /** An update keeps all results of every check it keeps, and none of a check it drops; other targets' are untouched. */
  lemma UpdateKeepsResults(db: Database, tid: Id, f: Form, conds: seq<TargetCondition>, base: Id, now: int, k: Id)
    requires Below(db, base) && Unguessed(conds, base) && !UpdateFails(db, tid, f, conds) && k in db.checks
    ensures var e, kept := Updated(db, tid, f, conds, base, now), db.checks[k].targetId != tid || Mentioned(conds, k);
            (k in e.checks <==> kept) && if kept then SameReadings(db.readings, e.readings, k) else NoReadings(e.readings, k)
  {
    UpdatedReadings(db, tid, f, conds, base, now);
    DropReadingsOf(db.readings, Unmentioned(db.checks, tid, conds), k);
    UpdatedCheck(db, tid, f, conds, base, now, k);
  }

  // ---------- the fallback is never needed ----------

  ghost predicate Used(rows: map<Id, RuleCondition>, k: Id) {
    exists c :: c in rows && rows[c].checkId == k
  }

  /** Every check has a condition. */
  ghost predicate AllUsed(db: Database) {
    forall k | k in db.checks :: Used(db.conditions, k)
  }

  /** A check that is new, or is mentioned, is the check of some submitted condition. */
  lemma {:induction false} WrittenBy(checks: map<Id, Check>, tid: Id, conds: seq<TargetCondition>, base: Id, now: int, k: Id) returns (i: nat)
    requires k in WriteChecks(checks, tid, conds, base, now) && (k in checks ==> Mentioned(conds, k))
    ensures i < |conds| && CheckIdOf(conds[i], base, i) == k
  {
    if k in checks {
      i :| i < |conds| && conds[i].checkId == Some(k);
    } else {
      var n := |conds| - 1;
      if k in WriteChecks(checks, tid, conds[..n], base, now) {
        i := WrittenBy(checks, tid, conds[..n], base, now, k);
      } else {
        i := n;
      }
    }
  }

  /** Writing conditions leaves no check idle: old ones of other rules, and each submitted one, have a row. */
  lemma WritingUses(d: Database, tid: Id, rid: Id, conds: seq<TargetCondition>, base: Id, now: int)
    requires KeysBelow(d.checks, base) && KeysBelow(d.conditions, base) && Unguessed(conds, base)
    requires forall k | k in d.checks :: Used(d.conditions, k) || Mentioned(conds, k)
    ensures AllUsed(WithConditions(d, tid, rid, conds, base, now))
  {
    var e := WithConditions(d, tid, rid, conds, base, now);
    forall k | k in e.checks ensures Used(e.conditions, k) {
      if k in d.checks && Used(d.conditions, k) {
        var c :| c in d.conditions && d.conditions[c].checkId == k;
        ConditionsWritten(d.conditions, rid, conds, base, c);
      } else {
        var i := WrittenBy(d.checks, tid, conds, base, now, k);
        ConditionsWritten(d.conditions, rid, conds, base, ConditionId(base, i));
      }
    }
  }

  lemma GapsUse(e: Database, tid: Id, rid: Id, conds: seq<TargetCondition>)
    requires AllUsed(e) && ConditionsOwned(e.targets, e.checks, e.conditions) && RulesOwned(e.targets, e.rules.Keys) && Owns(e.targets, tid, rid)
    ensures var g := WithGaps(e, tid, rid, conds); forall k | k in g.checks :: Used(g.conditions, k) || Mentioned(conds, k)
  {
    var g := WithGaps(e, tid, rid, conds);
    forall k | k in g.checks && !Mentioned(conds, k) ensures Used(g.conditions, k) {
      assert Used(e.conditions, k);
      var c :| c in e.conditions && e.conditions[c].checkId == k;
      assert ConditionOwned(e.targets, e.checks, e.conditions[c]);
      assert !Owns(e.targets, tid, e.conditions[c].ruleId);
      assert c in g.conditions && g.conditions[c].checkId == k;
    }
  }

  lemma DiffUses(e: Database, tid: Id, rid: Id, conds: seq<TargetCondition>, base: Id, now: int)
    requires Consistent(e) && AllUsed(e) && Owns(e.targets, tid, rid)
    requires KeysBelow(e.checks, base) && KeysBelow(e.conditions, base) && Unguessed(conds, base)
    ensures AllUsed(WithConditions(WithGaps(e, tid, rid, conds), tid, rid, conds, base, now))
  {
    GapsUse(e, tid, rid, conds);
    GapsShrink(e, tid, rid, conds);
    WritingUses(WithGaps(e, tid, rid, conds), tid, rid, conds, base, now);
  }

  lemma EmptyingUses(db: Database, tid: Id, e: Database)
    requires Consistent(db) && AllUsed(db) && tid in db.targets
    requires forall k | k in e.checks :: k in db.checks && db.checks[k].targetId != tid
    requires forall c | c in db.conditions && c !in e.conditions :: Owns(db.targets, tid, db.conditions[c].ruleId) || db.conditions[c].checkId !in e.checks
    requires forall c | c in db.conditions && c in e.conditions :: e.conditions[c] == db.conditions[c]
    ensures AllUsed(e)
  {
    forall k | k in e.checks ensures Used(e.conditions, k) {
      assert Used(db.conditions, k);
      var c :| c in db.conditions && db.conditions[c].checkId == k;
      assert ConditionOwned(db.targets, db.checks, db.conditions[c]);
      assert c in e.conditions && e.conditions[c].checkId == k;
    }
  }

  lemma CreateUses(db: Database, f: Form, conds: seq<TargetCondition>, creator: Option<Id>, base: Id, now: int)
    requires Below(db, base) && AllUsed(db)
    ensures AllUsed(Created(db, f, conds, creator, base, now))
  {
    var d := WithTarget(db, base, NewTarget(f, now), creator);
    if conds != [] {
      WritingUses(WithNewRule(d, base, FirstPreferred(f, conds), base + 1, NewRule(f, now)), base, base + 1, Unowned(conds), base, now);
    }
  }

  lemma StripUses(d: Database, tid: Id)
    requires Consistent(d) && AllUsed(d) && tid in d.targets
    ensures AllUsed(WithoutRuleAndChecks(d, tid))
  {
    EmptyingUses(d, tid, WithoutRuleAndChecks(d, tid));
  }

  lemma UpdateUses(db: Database, tid: Id, f: Form, conds: seq<TargetCondition>, base: Id, now: int)
    requires Consistent(db) && Below(db, base) && Unguessed(conds, base) && AllUsed(db) && !UpdateFails(db, tid, f, conds)
    ensures AllUsed(Updated(db, tid, f, conds, base, now))
  {
    var preferred := PreferredAfter(db.targets[tid].preferred, f, conds);
    var d := WithTargetEdited(db, tid, f, preferred, now);
    EditKeepsConsistent(db, tid, f, preferred, now);
    if conds == [] {
      StripUses(d, tid);
    } else {
      RuleKeepsConsistent(d, tid, f, base, now);
      RuleChangesNoRows(d, tid, f, base, now);
      DiffUses(WithRule(d, tid, f, base, now), tid, RuleOf(d.targets, tid, base), conds, base, now);
    }
  }

  lemma DeleteUses(db: Database, tid: Id)
    requires Consistent(db) && AllUsed(db) && tid in db.targets
    ensures AllUsed(Deleted(db, tid))
  {
    EmptyingUses(db, tid, Deleted(db, tid));
  }

  lemma UsedCheckShows(db: Database, tid: Id, k: Id)
    requires Consistent(db) && AllUsed(db) && k in db.checks && db.checks[k].targetId == tid
    ensures HasRows(db, tid)
  {
    assert Used(db.conditions, k);
    var c :| c in db.conditions && db.conditions[c].checkId == k;
    assert ConditionOwned(db.targets, db.checks, db.conditions[c]);
    assert c in RowsOf(db, tid, db.targets[tid].ruleId.value);
  }

  /** Where every check is used, the plain-check fallback of the detail shows nothing: it is only for older stores. */
  lemma FallbackIsEmpty(db: Database, tid: Id, views: seq<TargetCondition>)
    requires Consistent(db) && AllUsed(db) && IsDetail(db, tid, views) && !HasRows(db, tid)
    ensures views == []
  {
    forall k | k in db.checks && db.checks[k].targetId == tid ensures false {
      UsedCheckShows(db, tid, k);
    }
    NoChecksNoDetail(db, tid, views);
  }
}
