// The store's target operations as the program runs them (internal/store/targets.go): statements one
// after the other on a transaction's copy of the tables, committed at the end or dropped on an error.
module TargetStore {
  import opened Prelude
  import opened Schema
  import opened Targets
  import opened Ownership
  import opened TargetDetail
  import opened Lifecycle

  // ---------- deleting check by check ----------

  lemma {:induction false} WithoutChecksTwice(rows: seq<CheckResult>, gone: set<Id>, more: set<Id>)
    ensures WithoutChecks(WithoutChecks(rows, gone), more) == WithoutChecks(rows, gone + more)
  {
    if rows != [] {
      var n := |rows| - 1;
      var init := WithoutChecks(rows[..n], gone);
      WithoutChecksTwice(rows[..n], gone, more);
      assert (init + [rows[n]])[..|init|] == init;
    }
  }

  lemma {:induction false} WithoutNoChecks(rows: seq<CheckResult>)
    ensures WithoutChecks(rows, {}) == rows
  {
    if rows != [] {
      WithoutNoChecks(rows[..|rows| - 1]);
      assert rows == rows[..|rows| - 1] + [rows[|rows| - 1]];
    }
  }

  lemma DropReadingsTwice(rd: Readings, gone: set<Id>, more: set<Id>)
    ensures DropReadings(DropReadings(rd, gone), more) == DropReadings(rd, gone + more)
  {
    WithoutChecksTwice(rd.raw, gone, more);
    var a, b := DropReadings(DropReadings(rd, gone), more), DropReadings(rd, gone + more);
    assert a.current == b.current && a.rollups == b.rollups;
  }

  lemma DeleteChecksTwice(db: Database, gone: set<Id>, more: set<Id>)
    ensures DeleteChecks(DeleteChecks(db, gone), more) == DeleteChecks(db, gone + more)
  {
    DropReadingsTwice(db.readings, gone, more);
    var a, b := DeleteChecks(DeleteChecks(db, gone), more), DeleteChecks(db, gone + more);
    assert a.checks == b.checks && a.conditions == b.conditions;
  }

  lemma DeleteNoChecks(db: Database)
    ensures DeleteChecks(db, {}) == db
  {
    WithoutNoChecks(db.readings.raw);
    var a := DeleteChecks(db, {});
    assert a.readings.current == db.readings.current && a.readings.rollups == db.readings.rollups;
    assert a.checks == db.checks && a.conditions == db.conditions;
  }

  lemma Prefix<T>(s: seq<T>, i: nat)
    requires i < |s|
    ensures s[..i + 1][..i] == s[..i] && s[..i + 1][i] == s[i] && |s[..i + 1]| == i + 1
  {}

  /** Does a condition have the kind? */
  method HasKind(conds: seq<TargetCondition>, kind: CheckKind) returns (found: bool)
    ensures found <==> Offers(conds, kind)
  {
    for i := 0 to |conds|
      invariant forall j | 0 <= j < i :: conds[j].kind != kind
    {
      if conds[i].kind == kind {
        return true;
      }
    }
    found := false;
  }

  method ChooseFirst(f: Form, conds: seq<TargetCondition>) returns (preferred: CheckKind)
    requires conds != []
    ensures preferred == FirstPreferred(f, conds)
  {
    preferred := conds[0].kind;
    if f.preferred != NO_KIND {
      var found := HasKind(conds, f.preferred);
      if found {
        preferred := f.preferred;
      }
    }
  }

  method ChooseAgain(current: CheckKind, f: Form, conds: seq<TargetCondition>) returns (preferred: CheckKind)
    ensures preferred == PreferredAfter(current, f, conds)
  {
    preferred := current;
    if f.preferred != NO_KIND && |conds| > 0 {
      var found := HasKind(conds, f.preferred);
      if found {
        preferred := f.preferred;
      }
    } else if |conds| > 0 {
      preferred := conds[0].kind;
    }
  }

  /** UPDATE checks ... WHERE id = ? AND target_id = ?, which must hit a row, or INSERT INTO checks. */
  method UpsertCheck(checks: map<Id, Check>, tid: Id, c: TargetCondition, k: Id, now: int) returns (ok: bool, checks': map<Id, Check>)
    requires c.checkId.Some? ==> k == c.checkId.value
    ensures ok <==> Writable(checks, tid, c)
    ensures ok ==> checks' == WriteCheck(checks, tid, c, k, now)
  {
    if c.checkId.Some? {
      if k !in checks || checks[k].targetId != tid {
        return false, checks;
      }
      return true, checks[k := EditedCheck(checks[k], c, now)];
    }
    if c.kind.Unknown? {
      return false, checks;
    }
    return true, checks[k := NewCheck(c, tid, now)];
  }

  /** What came before in the loop does not change whether a condition can be written. */
  lemma StillWritable(checks: map<Id, Check>, tid: Id, conds: seq<TargetCondition>, base: Id, now: int, i: nat)
    requires KeysBelow(checks, base) && Unguessed(conds, base) && i < |conds|
    ensures Writable(WriteChecks(checks, tid, conds[..i], base, now), tid, conds[i]) <==> Writable(checks, tid, conds[i])
  {
    if conds[i].checkId.Some? {
      ChecksWritten(checks, tid, conds[..i], base, now, conds[i].checkId.value);
    }
  }

  lemma WritableOneMore(checks: map<Id, Check>, tid: Id, conds: seq<TargetCondition>, i: nat)
    requires i < |conds| && AllWritable(checks, tid, conds[..i])
    ensures AllWritable(checks, tid, conds[..i + 1]) <==> Writable(checks, tid, conds[i])
    ensures AllWritable(checks, tid, conds) ==> Writable(checks, tid, conds[i])
  {
    assert conds[..i + 1] == conds[..i] + [conds[i]];
  }

  /** One more condition written. */
  lemma WrittenOneMore(checks: map<Id, Check>, rows: map<Id, RuleCondition>, tid: Id, rid: Id, conds: seq<TargetCondition>, base: Id, now: int, i: nat)
    requires i < |conds|
    ensures WriteChecks(checks, tid, conds[..i + 1], base, now) ==
            WriteCheck(WriteChecks(checks, tid, conds[..i], base, now), tid, conds[i], CheckIdOf(conds[i], base, i), now)
    ensures WriteConditions(rows, rid, conds[..i + 1], base) ==
            WriteConditions(rows, rid, conds[..i], base)[ConditionId(base, i) := ConditionRow(conds[i], rid, CheckIdOf(conds[i], base, i), i)]
  {
    Prefix(conds, i);
  }

  /**
   * The upsert loop: each condition edits its own check or inserts one, and inserts its row; a foreign check id
   * or a rule id without a rule stops it.
   */
  method UpsertConditions(checks: map<Id, Check>, conditions: map<Id, RuleCondition>, rules: set<Id>, tid: Id, rid: Id,
                          conds: seq<TargetCondition>, base: Id, now: int)
    returns (ok: bool, checks': map<Id, Check>, conditions': map<Id, RuleCondition>)
    requires KeysBelow(checks, base) && Unguessed(conds, base)
    ensures ok <==> AllWritable(checks, tid, conds) && (conds == [] || rid in rules)
    ensures ok ==> checks' == WriteChecks(checks, tid, conds, base, now) && conditions' == WriteConditions(conditions, rid, conds, base)
  {
    ok, checks', conditions' := true, checks, conditions;
    for i := 0 to |conds|
      invariant ok && checks' == WriteChecks(checks, tid, conds[..i], base, now)
      invariant conditions' == WriteConditions(conditions, rid, conds[..i], base)
      invariant AllWritable(checks, tid, conds[..i]) && (i > 0 ==> rid in rules)
    {
      var k := CheckIdOf(conds[i], base, i);
      StillWritable(checks, tid, conds, base, now, i);
      WritableOneMore(checks, tid, conds, i);
      ok, checks' := UpsertCheck(checks', tid, conds[i], k, now);
      if !ok || rid !in rules {
        return false, checks', conditions';
      }
      WrittenOneMore(checks, conditions, tid, rid, conds, base, now, i);
      conditions' := conditions'[ConditionId(base, i) := ConditionRow(conds[i], rid, k, i)];
    }
    assert conds[..|conds|] == conds;
  }

  /** The rule, checks and conditions of a new target, and the link to the rule. */
  method AddConditions(db: Database, tid: Id, f: Form, conds: seq<TargetCondition>, base: Id, now: int) returns (tx: Outcome<Database>)
    requires tid in db.targets && conds != [] && KeysBelow(db.checks, base)
    ensures tx.Ok? <==> OrElse(f.operator, "AND") in OPERATORS && AllWritable(db.checks, tid, Unowned(conds))
    ensures tx.Ok? ==> tx.value == WithConditions(WithNewRule(db, tid, FirstPreferred(f, conds), base + 1, NewRule(f, now)), tid, base + 1, Unowned(conds), base, now)
  {
    if OrElse(f.operator, "AND") !in OPERATORS {
      return Err("CHECK constraint failed: operator");
    }
    var rules, states := db.rules[base + 1 := NewRule(f, now)], db.states[base + 1 := RuleState(Healthy, None, None)];
    var preferred := ChooseFirst(f, conds);
    var ok, checks, conditions := UpsertConditions(db.checks, db.conditions, rules.Keys, tid, base + 1, Unowned(conds), base, now);
    if !ok {
      return Err("CHECK constraint failed: type");
    }
    var targets := db.targets[tid := db.targets[tid].(ruleId := Some(base + 1), preferred := preferred)];
    tx := Ok(db.(targets := targets, rules := rules, states := states, checks := checks, conditions := conditions));
  }

  /** The transaction of CreateTargetWithConditions: the tables to commit, or the error that rolls it back. */
  method CreateInTransaction(db: Database, f: Form, conds: seq<TargetCondition>, creator: Option<Id>, base: Id, now: int) returns (tx: Outcome<Database>)
    requires KeysBelow(db.checks, base)
    ensures tx.Ok? <==> !CreateFails(db, f, conds, creator)
    ensures tx.Ok? ==> tx.value == Created(db, f, conds, creator, base, now)
  {
    if NameTaken(db.targets, f.name, None) {
      return Err("UNIQUE constraint failed: targets.name");
    }
    var d := db.(targets := db.targets[base := NewTarget(f, now)]);
    if creator.Some? {
      if creator.value !in db.users {
        return Err("FOREIGN KEY constraint failed");
      }
      d := d.(recipients := d.recipients + {(base, creator.value)});
    }
    assert d.recipients == db.recipients + if creator.Some? then {(base, creator.value)} else {};
    if conds == [] {
      return Ok(d);
    }
    tx := AddConditions(d, base, f, conds, base, now);
  }

  lemma DeleteNoRules(db: Database)
    ensures DeleteRules(db, {}) == db
  {
    var d := DeleteRules(db, {});
    assert d.rules == db.rules && d.states == db.states && d.conditions == db.conditions;
  }

  method MentionedIds(conds: seq<TargetCondition>) returns (incoming: set<Id>)
    ensures forall k :: k in incoming <==> Mentioned(conds, k)
  {
    incoming := {};
    for i := 0 to |conds|
      invariant forall k :: k in incoming <==> exists j :: 0 <= j < i && conds[j].checkId == Some(k)
    {
      if conds[i].checkId.Some? {
        incoming := incoming + {conds[i].checkId.value};
      }
    }
  }

  method DropOthers(e: Database, existing: set<Id>, incoming: set<Id>) returns (g: Database)
    ensures g == DeleteChecks(e, existing - incoming)
  {
    var rest, gone: set<Id> := existing, {};
    g := e;
    DeleteNoChecks(e);
    while rest != {}
      invariant rest <= existing && gone == (existing - rest) - incoming
      invariant g == DeleteChecks(e, gone)
      decreases |rest|
    {
      var k := Pick(rest);
      rest := rest - {k};
      if k !in incoming {
        DeleteChecksTwice(e, gone, {k});
        g, gone := DeleteChecks(g, {k}), gone + {k};
      }
    }
    assert gone == existing - incoming;
  }

  /** Deletes the target's checks that the request does not mention, one by one. */
  method DropUnmentioned(e: Database, tid: Id, conds: seq<TargetCondition>) returns (g: Database)
    ensures g == DeleteChecks(e, Unmentioned(e.checks, tid, conds))
  {
    var incoming := MentionedIds(conds);
    var existing := ChecksOf(e, {tid});
    g := DropOthers(e, existing, incoming);
    assert existing - incoming == Unmentioned(e.checks, tid, conds);
  }

  /** Everything the diff deletes: unmentioned checks, then all conditions of the rule. */
  method MakeGaps(e: Database, tid: Id, rid: Id, conds: seq<TargetCondition>) returns (g: Database)
    ensures g == WithGaps(e, tid, rid, conds)
  {
    var d := DropUnmentioned(e, tid, conds);
    g := d.(conditions := RowsOfOtherRules(d.conditions, rid));
  }

  /** What the update may write before the diff is what its upsert can write after it. */
  lemma WritableAfterGaps(e: Database, tid: Id, rid: Id, conds: seq<TargetCondition>)
    ensures AllWritable(WithGaps(e, tid, rid, conds).checks, tid, conds) <==> AllWritable(e.checks, tid, conds)
    ensures WithGaps(e, tid, rid, conds).rules == e.rules
  {
    if AllWritable(e.checks, tid, conds) {
      GapsKeepWritable(e, tid, rid, conds);
    }
    if AllWritable(WithGaps(e, tid, rid, conds).checks, tid, conds) {
      forall i | 0 <= i < |conds| ensures Writable(e.checks, tid, conds[i]) {
        assert Writable(WithGaps(e, tid, rid, conds).checks, tid, conds[i]);
      }
    }
  }

  /** The smart diff: drop what is not mentioned, drop all conditions, upsert. */
  method DiffInTransaction(e: Database, tid: Id, rid: Id, conds: seq<TargetCondition>, base: Id, now: int) returns (tx: Outcome<Database>)
    requires KeysBelow(e.checks, base) && Unguessed(conds, base)
    ensures tx.Ok? <==> AllWritable(e.checks, tid, conds) && (conds == [] || rid in e.rules)
    ensures tx.Ok? ==> tx.value == WithConditions(WithGaps(e, tid, rid, conds), tid, rid, conds, base, now)
  {
    var g := MakeGaps(e, tid, rid, conds);
    GapsShrink(e, tid, rid, conds);
    WritableAfterGaps(e, tid, rid, conds);
    var ok, checks, conditions := UpsertConditions(g.checks, g.conditions, g.rules.Keys, tid, rid, conds, base, now);
    if !ok {
      return Err("check does not belong to target, CHECK constraint failed: type, or FOREIGN KEY constraint failed");
    }
    tx := Ok(g.(checks := checks, conditions := conditions));
  }

  /** Edits the target's rule, or gives the target one. */
  method EnsureRule(d: Database, tid: Id, f: Form, base: Id, now: int) returns (rid: Id, e: Database)
    requires tid in d.targets
    ensures rid == RuleOf(d.targets, tid, base) && e == WithRule(d, tid, f, base, now)
  {
    var t := d.targets[tid];
    if t.ruleId.Some? {
      rid := t.ruleId.value;
      e := d.(rules := RulesEdited(d.rules, rid, f, now));
    } else {
      rid := base + 1;
      e := d.(rules := d.rules[rid := NewRule(f, now)]);
      e := e.(states := e.states[rid := RuleState(Healthy, None, None)]);
      e := e.(targets := e.targets[tid := t.(ruleId := Some(rid))]);
    }
  }

  lemma NoRuleToDrop(d: Database, tid: Id)
    requires tid in d.targets && d.targets[tid].ruleId.None?
    ensures WithoutRule(d, tid) == d
  {
    DeleteNoRules(d);
    assert LinkedRule(d.targets, tid) == {};
    assert d.targets == d.targets[tid := d.targets[tid].(ruleId := None)];
  }

  /** Deletes the target's rule, if it has one. */
  method DropRule(d: Database, tid: Id) returns (e: Database)
    requires tid in d.targets
    ensures e == WithoutRule(d, tid)
  {
    var ruleId := d.targets[tid].ruleId;
    if ruleId.None? {
      NoRuleToDrop(d, tid);
      return d;
    }
    assert LinkedRule(d.targets, tid) == {ruleId.value};
    e := DeleteRules(d, {ruleId.value});
    e := e.(targets := e.targets[tid := e.targets[tid].(ruleId := None)]);
  }

  /** Without conditions, the rule and the checks of the target go. */
  method StripInTransaction(d: Database, tid: Id) returns (tx: Outcome<Database>)
    requires tid in d.targets
    ensures tx == Ok(WithoutRuleAndChecks(d, tid))
  {
    var e := DropRule(d, tid);
    assert WithoutRule(d, tid).checks == d.checks;
    tx := Ok(DeleteChecks(e, ChecksOf(e, {tid})));
  }

  /** The transaction of UpdateTargetWithConditions. */
  method UpdateInTransaction(db: Database, tid: Id, f: Form, conds: seq<TargetCondition>, base: Id, now: int) returns (tx: Outcome<Database>)
    requires KeysBelow(db.checks, base) && Unguessed(conds, base)
    ensures tx.Ok? <==> !UpdateFails(db, tid, f, conds)
    ensures tx.Ok? ==> tx.value == Updated(db, tid, f, conds, base, now)
  {
    if tid !in db.targets {
      return Err("target not found");
    }
    if NameTaken(db.targets, f.name, Some(tid)) {
      return Err("UNIQUE constraint failed: targets.name");
    }
    var preferred := ChooseAgain(db.targets[tid].preferred, f, conds);
    var d := WithTargetEdited(db, tid, f, preferred, now);
    if conds == [] {
      tx := StripInTransaction(d, tid);
    } else if OrElse(f.operator, "AND") !in OPERATORS {
      tx := Err("CHECK constraint failed: operator");
    } else {
      var rid, e := EnsureRule(d, tid, f, base, now);
      RuleChangesNoRows(d, tid, f, base, now);
      tx := DiffInTransaction(e, tid, rid, conds, base, now);
    }
  }

  /** A row that none of the others precedes. */
  method FirstRow(rows: map<Id, RuleCondition>, s: set<Id>) returns (first: Id)
    requires s != {} && s <= rows.Keys
    ensures first in s && forall c | c in s :: !Precedes(rows[c], rows[first])
  {
    first := Pick(s);
    var rest := s - {first};
    while rest != {}
      invariant first in s && rest <= s
      invariant forall c | c in s - rest :: !Precedes(rows[c], rows[first])
      decreases |rest|
    {
      var c := Pick(rest);
      rest := rest - {c};
      if Precedes(rows[c], rows[first]) {
        first := c;
      }
    }
  }

  /** ORDER BY condition_group, sort_order */
  method SortRows(rows: map<Id, RuleCondition>, s: set<Id>) returns (ids: seq<Id>)
    requires s <= rows.Keys
    ensures Lists(ids, s) && InOrder(rows, ids)
  {
    ids := [];
    var rest := s;
    while rest != {}
      invariant rest <= s && Lists(ids, s - rest) && InOrder(rows, ids)
      invariant forall c, d | c in ids && d in rest :: !Precedes(rows[d], rows[c])
      decreases |rest|
    {
      var c := FirstRow(rows, rest);
      ids, rest := ids + [c], rest - {c};
    }
  }

  method QueryRows(db: Database, tid: Id, rid: Id) returns (views: seq<TargetCondition>)
    ensures exists ids :: IsRowDetail(db, tid, rid, views, ids)
    ensures views == [] <==> RowsOf(db, tid, rid) == {}
  {
    var ids := SortRows(db.conditions, RowsOf(db, tid, rid));
    ListLength(ids, RowsOf(db, tid, rid));
    assert forall i | 0 <= i < |ids| :: ids[i] in ids;
    views := [];
    for j := 0 to |ids|
      invariant |views| == j && forall i | 0 <= i < j :: views[i] == ViewOf(db, ids[i])
    {
      var row := db.conditions[ids[j]];
      views := views + [View(row.checkId, db.checks[row.checkId], row)];
    }
    assert IsRowDetail(db, tid, rid, views, ids);
  }

  method AnyOrder(s: set<Id>) returns (ids: seq<Id>)
    ensures Lists(ids, s)
  {
    ids := [];
    var rest := s;
    while rest != {}
      invariant rest <= s && Lists(ids, s - rest)
      decreases |rest|
    {
      var c := Pick(rest);
      ids, rest := ids + [c], rest - {c};
    }
  }

  method QueryChecks(db: Database, tid: Id) returns (views: seq<TargetCondition>)
    ensures exists ids :: IsPlainDetail(db, tid, views, ids)
  {
    var ids := AnyOrder(ChecksOf(db, {tid}));
    assert forall i | 0 <= i < |ids| :: ids[i] in ids;
    views := [];
    for j := 0 to |ids|
      invariant |views| == j && forall i | 0 <= i < j :: views[i] == PlainView(ids[i], db.checks[ids[i]])
    {
      views := views + [PlainView(ids[j], db.checks[ids[j]])];
    }
    assert IsPlainDetail(db, tid, views, ids);
  }

  class Store {
    var db: Database

    constructor (db: Database)
      ensures this.db == db
    {
      this.db := db;
    }

    /** The new target is `base`; its rule, checks and conditions are numbered after it. */
    method CreateTargetWithConditions(f: Form, conds: seq<TargetCondition>, creator: Option<Id>, base: Id, now: int) returns (done: Outcome<Id>)
      requires KeysBelow(db.checks, base)
      modifies this
      ensures done.Ok? <==> !CreateFails(old(db), f, conds, creator)
      ensures done.Ok? ==> done.value == base && db == Created(old(db), f, conds, creator, base, now)
      ensures done.Err? ==> db == old(db)
    {
      var tx := CreateInTransaction(db, f, conds, creator, base, now);
      if tx.Err? {
        return Err(tx.reason);
      }
      db := tx.value;
      done := Ok(base);
    }
  
    /** A foreign or unknown check id, or any other error, leaves the whole store as it was. */
    method UpdateTargetWithConditions(tid: Id, f: Form, conds: seq<TargetCondition>, base: Id, now: int) returns (done: Outcome<()>)
      requires KeysBelow(db.checks, base) && Unguessed(conds, base)
      modifies this
      ensures done.Ok? <==> !UpdateFails(old(db), tid, f, conds)
      ensures done.Ok? ==> db == Updated(old(db), tid, f, conds, base, now)
      ensures done.Err? ==> db == old(db)
    {
      var tx := UpdateInTransaction(db, tid, f, conds, base, now);
      if tx.Err? {
        return Err(tx.reason);
      }
      db := tx.value;
      done := Ok(());
    }

    /** Two statements, not one transaction: the linked rule goes before the target. */
    method DeleteTarget(tid: Id) returns (done: Outcome<()>)
      modifies this
      ensures done.Ok? <==> tid in old(db).targets
      ensures done.Ok? ==> db == Deleted(old(db), tid)
      ensures done.Err? ==> db == old(db)
    {
      if tid in db.targets && db.targets[tid].ruleId.Some? {
        db := DeleteRules(db, {db.targets[tid].ruleId.value});
      } else {
        DeleteNoRules(db);
      }
      if tid !in db.targets {
        return Err("target not found");
      }
      db := DeleteTargets(db, {tid});
      done := Ok(());
    }

    method PauseTarget(tid: Id, row: Id, now: int) returns (done: Outcome<()>)
      modifies this
      ensures done.Ok? <==> tid in old(db).targets && old(db).targets[tid].pausedAt.None?
      ensures done.Ok? ==> db == Paused(old(db), tid, row, now)
      ensures done.Err? ==> db == old(db)
    {
      if tid !in db.targets {
        return Err("target not found");
      }
      if db.targets[tid].pausedAt.Some? {
        return Err("target already paused");
      }
      db := db.(targets := db.targets[tid := db.targets[tid].(pausedAt := Some(now))]);
      db := db.(pauses := db.pauses[row := Pause(tid, now, None, "")]);
      done := Ok(());
    }

    method UnpauseTarget(tid: Id, now: int) returns (done: Outcome<()>)
      modifies this
      ensures done.Ok? <==> tid in old(db).targets && old(db).targets[tid].pausedAt.Some?
      ensures done.Ok? ==> db == Unpaused(old(db), tid, now)
      ensures done.Err? ==> db == old(db)
    {
      if tid !in db.targets {
        return Err("target not found");
      }
      if db.targets[tid].pausedAt.None? {
        return Err("target not paused");
      }
      db := db.(targets := db.targets[tid := db.targets[tid].(pausedAt := None)]);
      db := db.(pauses := Closed(db.pauses, tid, now));
      done := Ok(());
    }

    /** The conditions of the target's rule in order, or its plain checks if there are none. */
    method GetTargetDetail(tid: Id) returns (detail: Option<seq<TargetCondition>>)
      ensures detail.Some? <==> tid in db.targets
      ensures detail.Some? ==> IsDetail(db, tid, detail.value)
    {
      if tid !in db.targets {
        return None;
      }
      var views: seq<TargetCondition> := [];
      if db.targets[tid].ruleId.Some? {
        views := QueryRows(db, tid, db.targets[tid].ruleId.value);
      }
      if views == [] {
        views := QueryChecks(db, tid);
      }
      detail := Some(views);
    }
  }

  // ---------- the queries ----------
}
