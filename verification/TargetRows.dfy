// What the target operations leave in each row, column by column, told by what was submitted
// (internal/store/targets.go).
module TargetRows {
  import opened Prelude
  import opened Schema
  import opened Targets
  import opened Ownership
  import opened TargetDetail
  import opened Lifecycle

  /** The target row shows what the form says. */
  predicate ShowsForm(t: Target, f: Form) {
    t.name == f.name && t.host == f.host && t.description == f.description && t.enabled == f.enabled &&
    t.notes == f.notes && t.contacts == f.contacts && t.project == f.project && t.location == f.location &&
    (t.operator == if f.operator == "" then "AND" else f.operator) && (t.category == if f.category == "" then "Other" else f.category)
  }

  /** The rule is switched on, critical, and named and combined after the form. */
  predicate RuleShowsForm(r: Rule, f: Form, now: int) {
    r.enabled && r.severity == "critical" && r.name == f.name + " rule" && (r.operator == if f.operator == "" then "AND" else f.operator) &&
    r.updatedAt == now
  }

  /** The tables that no operation on checks and rules touches. */
  ghost predicate SameElsewhere(db: Database, e: Database) {
    e.users == db.users && e.settings == db.settings && e.alerts == db.alerts && e.audit == db.audit &&
    e.sessions == db.sessions && e.tagOptions == db.tagOptions && e.tokens == db.tokens
  }

  ghost predicate OthersSame<T>(before: map<Id, T>, after: map<Id, T>, id: Id) {
    forall k | k != id :: (k in after <==> k in before) && (k in before ==> after[k] == before[k])
  }

  // ---------- the target and its rule ----------

  /** The preferred kind: the form's if a condition has it, otherwise the first condition's or, after an update that names another, the old one. */
  ghost predicate PrefersAfterUpdate(before: CheckKind, after: CheckKind, f: Form, conds: seq<TargetCondition>) {
    if conds == [] then after == before
    else if f.preferred == Unknown("") then after == conds[0].kind
    else if exists i | 0 <= i < |conds| :: conds[i].kind == f.preferred then after == f.preferred
    else after == before
  }

  lemma StripLeaves(d: Database, tid: Id)
    requires tid in d.targets
    ensures var e := WithoutRuleAndChecks(d, tid);
            e.targets == d.targets[tid := d.targets[tid].(ruleId := None)] && SameElsewhere(d, e) &&
            e.recipients == d.recipients && e.pauses == d.pauses
    ensures var e := WithoutRuleAndChecks(d, tid);
            forall r :: (r in e.rules <==> r in d.rules && d.targets[tid].ruleId != Some(r)) && (r in e.rules ==> e.rules[r] == d.rules[r]) &&
                        (r in e.states <==> r in d.states && d.targets[tid].ruleId != Some(r)) && (r in e.states ==> e.states[r] == d.states[r])
  {}

  /** After an update, the target has the form's columns, keeps its pause and creation time, and no other target changed. */
  lemma UpdatedTarget(db: Database, tid: Id, f: Form, conds: seq<TargetCondition>, base: Id, now: int)
    requires !UpdateFails(db, tid, f, conds)
    ensures var e := Updated(db, tid, f, conds, base, now);
            tid in e.targets && OthersSame(db.targets, e.targets, tid) && ShowsForm(e.targets[tid], f) &&
            e.targets[tid].pausedAt == db.targets[tid].pausedAt && e.targets[tid].createdAt == db.targets[tid].createdAt &&
            e.targets[tid].updatedAt == now && PrefersAfterUpdate(db.targets[tid].preferred, e.targets[tid].preferred, f, conds) &&
            e.targets[tid].ruleId == if conds == [] then None else if db.targets[tid].ruleId.Some? then db.targets[tid].ruleId else Some(base + 1)
  {
    var d := WithTargetEdited(db, tid, f, PreferredAfter(db.targets[tid].preferred, f, conds), now);
    if conds == [] {
      StripLeaves(d, tid);
    }
  }

  /** And nothing but the target, its rule, its checks and their conditions and results changed. */
  lemma UpdateTouchesNothingElse(db: Database, tid: Id, f: Form, conds: seq<TargetCondition>, base: Id, now: int)
    requires !UpdateFails(db, tid, f, conds)
    ensures var e := Updated(db, tid, f, conds, base, now);
            SameElsewhere(db, e) && e.recipients == db.recipients && e.pauses == db.pauses
  {
    var d := WithTargetEdited(db, tid, f, PreferredAfter(db.targets[tid].preferred, f, conds), now);
    if conds == [] {
      StripLeaves(d, tid);
    }
  }

  lemma RuleWritten(d: Database, tid: Id, f: Form, base: Id, now: int)
    requires tid in d.targets && !RuleMissing(d, tid) && base + 1 !in d.rules
    ensures var e, rid := WithRule(d, tid, f, base, now), RuleOf(d.targets, tid, base);
            rid in e.rules && RuleShowsForm(e.rules[rid], f, now) && OthersSame(d.rules, e.rules, rid) && OthersSame(d.states, e.states, rid) &&
            if d.targets[tid].ruleId.Some?
            then e.rules[rid].createdAt == d.rules[rid].createdAt && e.rules[rid].description == d.rules[rid].description && e.states == d.states
            else e.rules[rid].createdAt == now && e.rules[rid].description == "" && rid in e.states && e.states[rid] == RuleState(Healthy, None, None)
  {}

  /** An update with conditions leaves the target's rule as the form says, new or edited; a new one starts healthy, an old one keeps its state. */
  lemma UpdatedRule(db: Database, tid: Id, f: Form, conds: seq<TargetCondition>, base: Id, now: int)
    requires !UpdateFails(db, tid, f, conds) && conds != [] && base + 1 !in db.rules
    ensures var e, rid := Updated(db, tid, f, conds, base, now), RuleOf(db.targets, tid, base);
            rid in e.rules && RuleShowsForm(e.rules[rid], f, now) && OthersSame(db.rules, e.rules, rid) && OthersSame(db.states, e.states, rid) &&
            if db.targets[tid].ruleId.Some?
            then e.rules[rid].createdAt == db.rules[rid].createdAt && e.rules[rid].description == db.rules[rid].description && e.states == db.states
            else e.rules[rid].createdAt == now && e.rules[rid].description == "" && rid in e.states && e.states[rid] == RuleState(Healthy, None, None)
  {
    var d := WithTargetEdited(db, tid, f, PreferredAfter(db.targets[tid].preferred, f, conds), now);
    RuleWritten(d, tid, f, base, now);
  }

  /** An update without conditions removes the linked rule, its state and nothing else of the rules. */
  lemma UpdatedWithoutRule(db: Database, tid: Id, f: Form, base: Id, now: int)
    requires !UpdateFails(db, tid, f, [])
    ensures var e := Updated(db, tid, f, [], base, now);
            forall r :: (r in e.rules <==> r in db.rules && db.targets[tid].ruleId != Some(r)) && (r in e.rules ==> e.rules[r] == db.rules[r]) &&
                        (r in e.states <==> r in db.states && db.targets[tid].ruleId != Some(r)) && (r in e.states ==> e.states[r] == db.states[r])
  {
    StripLeaves(WithTargetEdited(db, tid, f, db.targets[tid].preferred, now), tid);
  }

  ghost predicate PrefersAtFirst(after: CheckKind, f: Form, conds: seq<TargetCondition>) {
    if conds == [] then after == f.preferred
    else if f.preferred != Unknown("") && exists i | 0 <= i < |conds| :: conds[i].kind == f.preferred then after == f.preferred
    else after == conds[0].kind
  }

  /** A new target: the form's columns, not paused, with a rule if there are conditions. */
  lemma CreatedTarget(db: Database, f: Form, conds: seq<TargetCondition>, creator: Option<Id>, base: Id, now: int)
    ensures var e := Created(db, f, conds, creator, base, now);
            base in e.targets && OthersSame(db.targets, e.targets, base) && ShowsForm(e.targets[base], f) &&
            e.targets[base].pausedAt == None && e.targets[base].createdAt == e.targets[base].updatedAt == now &&
            e.targets[base].ruleId == (if conds == [] then None else Some(base + 1)) && PrefersAtFirst(e.targets[base].preferred, f, conds)
  {
    var t := NewTarget(f, now);
    if conds == [] {
      assert Created(db, f, conds, creator, base, now).targets == db.targets[base := t];
    } else {
      assert Created(db, f, conds, creator, base, now).targets == db.targets[base := t][base := t.(ruleId := Some(base + 1), preferred := FirstPreferred(f, conds))];
    }
  }

  /** Its creator, if there is one, is its first recipient. */
  lemma CreatedRecipients(db: Database, f: Form, conds: seq<TargetCondition>, creator: Option<Id>, base: Id, now: int, t: Id, u: Id)
    ensures (t, u) in Created(db, f, conds, creator, base, now).recipients <==> (t, u) in db.recipients || (t == base && creator == Some(u))
  {
    assert Created(db, f, conds, creator, base, now).recipients == WithTarget(db, base, NewTarget(f, now), creator).recipients;
  }

  /** Nothing but the target, its recipient, its rule, checks and conditions is new. */
  lemma CreationTouchesNothingElse(db: Database, f: Form, conds: seq<TargetCondition>, creator: Option<Id>, base: Id, now: int)
    ensures var e := Created(db, f, conds, creator, base, now);
            SameElsewhere(db, e) && e.pauses == db.pauses && e.readings == db.readings
  {
    var d := WithTarget(db, base, NewTarget(f, now), creator);
    if conds == [] {
      assert Created(db, f, conds, creator, base, now) == d;
    } else {
      var e := WithNewRule(d, base, FirstPreferred(f, conds), base + 1, NewRule(f, now));
      assert Created(db, f, conds, creator, base, now) == WithConditions(e, base, base + 1, Unowned(conds), base, now);
    }
  }

  /** The rule of a new target with conditions, and its state; a target without conditions gets none. */
  lemma CreatedRule(db: Database, f: Form, conds: seq<TargetCondition>, creator: Option<Id>, base: Id, now: int)
    ensures var e, rid := Created(db, f, conds, creator, base, now), base + 1;
            if conds == [] then e.rules == db.rules && e.states == db.states && e.checks == db.checks && e.conditions == db.conditions
            else rid in e.rules && RuleShowsForm(e.rules[rid], f, now) && e.rules[rid].createdAt == now && e.rules[rid].description == "" &&
                 rid in e.states && e.states[rid] == RuleState(Healthy, None, None) &&
                 OthersSame(db.rules, e.rules, rid) && OthersSame(db.states, e.states, rid)
  {}

  // ---------- the checks ----------

  /** No later condition mentions the check that this one mentions. */
  ghost predicate LastMention(conds: seq<TargetCondition>, i: nat) {
    i < |conds| && forall j | i < j < |conds| && conds[i].checkId.Some? :: conds[j].checkId != conds[i].checkId
  }

  /** The check's columns are the condition's; its type and creation time are those it had, or are new with it. */
  predicate CheckShows(check: Check, c: TargetCondition, tid: Id, before: map<Id, Check>, now: int) {
    check.targetId == tid && check.name == c.name && check.config == c.config && check.intervalS == c.intervalS &&
    check.enabled && check.updatedAt == now &&
    if c.checkId.Some? then c.checkId.value in before && check.kind == before[c.checkId.value].kind && check.createdAt == before[c.checkId.value].createdAt
    else check.kind == c.kind && check.createdAt == now
  }

  /** The upsert loop: where a check is mentioned several times, the last mention stands. */
  lemma {:induction false} LastMentionStands(checks: map<Id, Check>, tid: Id, conds: seq<TargetCondition>, base: Id, now: int, i: nat)
    requires KeysBelow(checks, base) && Unguessed(conds, base) && LastMention(conds, i) && Writable(checks, tid, conds[i])
    ensures var k, after := if conds[i].checkId.Some? then conds[i].checkId.value else base + 2 + 2 * i, WriteChecks(checks, tid, conds, base, now);
            k in after && CheckShows(after[k], conds[i], tid, checks, now)
  {
    var n := |conds| - 1;
    var init := conds[..n];
    if i < n {
      assert init[i] == conds[i] && forall j | 0 <= j < n :: init[j] == conds[j];
      LastMentionStands(checks, tid, init, base, now, i);
      assert CheckIdOf(conds[n], base, n) != CheckIdOf(conds[i], base, i);
    } else if conds[n].checkId.Some? {
      ChecksWritten(checks, tid, init, base, now, conds[n].checkId.value);
    }
  }

  lemma {:induction false} WrittenIsEnabled(checks: map<Id, Check>, tid: Id, conds: seq<TargetCondition>, base: Id, now: int, k: Id)
    requires KeysBelow(checks, base) && Unguessed(conds, base) && AllWritable(checks, tid, conds)
    requires k in WriteChecks(checks, tid, conds, base, now) && (k in checks ==> Mentioned(conds, k))
    ensures WriteChecks(checks, tid, conds, base, now)[k].enabled && WriteChecks(checks, tid, conds, base, now)[k].updatedAt == now
  {
    if conds != [] {
      var n := |conds| - 1;
      var init := conds[..n];
      assert forall i | 0 <= i < n :: Writable(checks, tid, init[i]);
      MentionedBefore(conds, k);
      if k == CheckIdOf(conds[n], base, n) {
        if conds[n].checkId.Some? {
          assert Writable(checks, tid, conds[n]);
          ChecksWritten(checks, tid, init, base, now, k);
        }
      } else {
        WrittenIsEnabled(checks, tid, init, base, now, k);
      }
    }
  }

  /** What the whole update writes to the checks. */
  lemma UpdatedChecks(db: Database, tid: Id, f: Form, conds: seq<TargetCondition>, base: Id, now: int) returns (before: map<Id, Check>)
    requires !UpdateFails(db, tid, f, conds) && conds != [] && Below(db, base) && Unguessed(conds, base)
    ensures Updated(db, tid, f, conds, base, now).checks == WriteChecks(before, tid, conds, base, now)
    ensures KeysBelow(before, base) && AllWritable(before, tid, conds)
    ensures forall k :: k in before <==> k in db.checks && (db.checks[k].targetId != tid || Mentioned(conds, k))
    ensures forall k | k in before :: before[k] == db.checks[k]
  {
    var rid := RuleOf(db.targets, tid, base);
    var d := WithRule(WithTargetEdited(db, tid, f, PreferredAfter(db.targets[tid].preferred, f, conds), now), tid, f, base, now);
    before := WithGaps(d, tid, rid, conds).checks;
    GapsKeepWritable(d, tid, rid, conds);
  }

  /** After an update, the check of each condition, by its last mention, has the condition's columns and is enabled. */
  lemma UpdatedCheckShows(db: Database, tid: Id, f: Form, conds: seq<TargetCondition>, base: Id, now: int, i: nat)
    requires !UpdateFails(db, tid, f, conds) && Below(db, base) && Unguessed(conds, base) && LastMention(conds, i)
    ensures var e, k := Updated(db, tid, f, conds, base, now), if conds[i].checkId.Some? then conds[i].checkId.value else base + 2 + 2 * i;
            k in e.checks && CheckShows(e.checks[k], conds[i], tid, db.checks, now)
  {
    var before := UpdatedChecks(db, tid, f, conds, base, now);
    assert Writable(before, tid, conds[i]);
    LastMentionStands(before, tid, conds, base, now, i);
  }

  /** The target's checks after an update are those of its conditions, all enabled; other targets' are as they were. */
  lemma UpdatedChecksAre(db: Database, tid: Id, f: Form, conds: seq<TargetCondition>, base: Id, now: int, k: Id)
    requires !UpdateFails(db, tid, f, conds) && Below(db, base) && Unguessed(conds, base)
    ensures var e := Updated(db, tid, f, conds, base, now);
            (k in db.checks && db.checks[k].targetId != tid ==> k in e.checks && e.checks[k] == db.checks[k]) &&
            (k in e.checks && (k !in db.checks || db.checks[k].targetId == tid) ==>
               e.checks[k].targetId == tid && e.checks[k].enabled && exists i: nat | i < |conds| :: CheckIdOf(conds[i], base, i) == k)
  {
    var e := Updated(db, tid, f, conds, base, now);
    if conds == [] {
      if k in db.checks {
        UpdatedCheck(db, tid, f, conds, base, now, k);
      }
    } else {
      var before := UpdatedChecks(db, tid, f, conds, base, now);
      ChecksWritten(before, tid, conds, base, now, k);
      if k in e.checks && (k !in db.checks || db.checks[k].targetId == tid) {
        assert k in WriteChecks(before, tid, conds, base, now) && (k in before ==> Mentioned(conds, k));
        WrittenIsEnabled(before, tid, conds, base, now, k);
        var i := WrittenBy(before, tid, conds, base, now, k);
      }
    }
  }

  /** The checks of a new target: one for each condition, new, enabled and with its columns. */
  lemma CreatedCheckShows(db: Database, f: Form, conds: seq<TargetCondition>, creator: Option<Id>, base: Id, now: int, i: nat)
    requires !CreateFails(db, f, conds, creator) && KeysBelow(db.checks, base) && i < |conds|
    ensures var e, k := Created(db, f, conds, creator, base, now), base + 2 + 2 * i;
            k in e.checks && CheckShows(e.checks[k], conds[i].(checkId := None), base, db.checks, now)
  {
    LastMentionStands(db.checks, base, Unowned(conds), base, now, i);
  }

  // ---------- the conditions ----------

  /** The condition row: the submitted columns, with the defaults of the schema for what was left out. */
  predicate RowShows(row: RuleCondition, c: TargetCondition, rid: Id, check: Id, i: nat) {
    row.ruleId == rid && row.checkId == check && (row.field == if c.field == "" then "status" else c.field) &&
    (row.comparator == if c.comparator == "" then "eq" else c.comparator) && row.value == c.value &&
    (row.failCount == if c.failCount <= 0 then 1 else c.failCount) && row.failWindow == c.failWindow && row.sortOrder == i &&
    row.group == c.group && (row.groupOp == if c.groupOp == "" then "AND" else c.groupOp)
  }

  lemma RowsWritten(rows: map<Id, RuleCondition>, rid: Id, conds: seq<TargetCondition>, base: Id, i: nat)
    requires KeysBelow(rows, base) && i < |conds|
    ensures var after, c := WriteConditions(rows, rid, conds, base), base + 3 + 2 * i;
            c in after && RowShows(after[c], conds[i], rid, if conds[i].checkId.Some? then conds[i].checkId.value else base + 2 + 2 * i, i)
  {
    ConditionsWritten(rows, rid, conds, base, base + 3 + 2 * i);
  }

  /** After an update, each submitted condition has its row under the target's rule. */
  lemma UpdatedRowShows(db: Database, tid: Id, f: Form, conds: seq<TargetCondition>, base: Id, now: int, i: nat)
    requires !UpdateFails(db, tid, f, conds) && Below(db, base) && i < |conds|
    ensures var e, c := Updated(db, tid, f, conds, base, now), base + 3 + 2 * i;
            c in e.conditions && RowShows(e.conditions[c], conds[i], RuleOf(db.targets, tid, base),
                                          if conds[i].checkId.Some? then conds[i].checkId.value else base + 2 + 2 * i, i)
  {
    var rid := RuleOf(db.targets, tid, base);
    var d := WithRule(WithTargetEdited(db, tid, f, PreferredAfter(db.targets[tid].preferred, f, conds), now), tid, f, base, now);
    RowsWritten(WithGaps(d, tid, rid, conds).conditions, rid, conds, base, i);
  }

  lemma CreatedRowShows(db: Database, f: Form, conds: seq<TargetCondition>, creator: Option<Id>, base: Id, now: int, i: nat)
    requires !CreateFails(db, f, conds, creator) && KeysBelow(db.conditions, base) && i < |conds|
    ensures var e, c := Created(db, f, conds, creator, base, now), base + 3 + 2 * i;
            c in e.conditions && RowShows(e.conditions[c], conds[i], base + 1, base + 2 + 2 * i, i)
  {
    RowsWritten(db.conditions, base + 1, Unowned(conds), base, i);
  }

  // ---------- deletion, pause and unpause ----------

  /** A deletion takes the target, its rule and its checks with all that belongs to them, and nothing else. */
  lemma DeletedRows(db: Database, tid: Id)
    requires tid in db.targets
    ensures var e := Deleted(db, tid);
            tid !in e.targets && OthersSame(db.targets, e.targets, tid) && SameElsewhere(db, e) &&
            (forall r :: (r in e.rules <==> r in db.rules && db.targets[tid].ruleId != Some(r)) && (r in e.rules ==> e.rules[r] == db.rules[r])) &&
            (forall r :: (r in e.states <==> r in db.states && db.targets[tid].ruleId != Some(r)) && (r in e.states ==> e.states[r] == db.states[r])) &&
            (forall k :: (k in e.checks <==> k in db.checks && db.checks[k].targetId != tid) && (k in e.checks ==> e.checks[k] == db.checks[k]))
  {}

  lemma DeletedLinks(db: Database, tid: Id)
    requires tid in db.targets
    ensures var e := Deleted(db, tid);
            (forall c :: c in e.conditions <==>
               c in db.conditions && db.targets[tid].ruleId != Some(db.conditions[c].ruleId) &&
               !(db.conditions[c].checkId in db.checks && db.checks[db.conditions[c].checkId].targetId == tid)) &&
            (forall c | c in e.conditions :: e.conditions[c] == db.conditions[c]) &&
            (forall r: (Id, Id) :: r in e.recipients <==> r in db.recipients && r.0 != tid) &&
            (forall g: (Id, Id) :: g in e.targetTags <==> g in db.targetTags && g.0 != tid) &&
            (forall p :: (p in e.pauses <==> p in db.pauses && db.pauses[p].targetId != tid) && (p in e.pauses ==> e.pauses[p] == db.pauses[p]))
  {}

  /** The results of the target's checks go with them, those of other checks stay. */
  lemma DeletedResults(db: Database, tid: Id, k: Id)
    requires tid in db.targets && k in db.checks
    ensures if db.checks[k].targetId == tid then NoReadings(Deleted(db, tid).readings, k) else SameReadings(db.readings, Deleted(db, tid).readings, k)
  {
    DropReadingsOf(db.readings, ChecksOf(db, {tid}), k);
  }

  /** An unpause ends the open pause of the target at the time of the call, and changes nothing else. */
  lemma UnpauseCloses(db: Database, tid: Id, now: int)
    requires tid in db.targets
    ensures var e := Unpaused(db, tid, now);
            e == db.(targets := e.targets, pauses := e.pauses) && OthersSame(db.targets, e.targets, tid) &&
            tid in e.targets && e.targets[tid] == db.targets[tid].(pausedAt := None) && e.pauses.Keys == db.pauses.Keys &&
            forall p | p in db.pauses ::
              if db.pauses[p].targetId == tid && db.pauses[p].resumedAt.None?
              then e.pauses[p] == Pause(tid, db.pauses[p].pausedAt, Some(now), db.pauses[p].reason)
              else e.pauses[p] == db.pauses[p]
  {}

  lemma ClosesOne(pauses: map<Id, Pause>, tid: Id, row: Id, from: int, to: int)
    requires row !in pauses && forall p :: !IsOpen(pauses, tid, p)
    ensures Closed(pauses[row := Pause(tid, from, None, "")], tid, to) == pauses[row := Pause(tid, from, Some(to), "")]
  {
    var paused := pauses[row := Pause(tid, from, None, "")];
    assert forall p | p in pauses :: IsOpen(paused, tid, p) <==> IsOpen(pauses, tid, p);
  }

  /** A pause and the unpause after it leave the store as it was, but for one row of the history with the times of the two calls. */
  lemma PauseRoundTrip(db: Database, tid: Id, row: Id, from: int, to: int)
    requires PausesOk(db.targets, db.pauses, from) && tid in db.targets && db.targets[tid].pausedAt.None? && row !in db.pauses
    ensures Paused(db, tid, row, from).targets[tid].pausedAt == Some(from)
    ensures Unpaused(Paused(db, tid, row, from), tid, to) == db.(pauses := db.pauses[row := Pause(tid, from, Some(to), "")])
  {
    assert ShowsPause(db.targets[tid], db.pauses, tid);
    ClosesOne(db.pauses, tid, row, from, to);
    assert Unpaused(Paused(db, tid, row, from), tid, to).targets == db.targets;
  }

  // ---------- when the operations fail ----------

  /** Creation fails exactly if the name is taken, the creator unknown, or, with conditions, the operator or a check type is not one of the schema's. */
  lemma CreateFailsIff(db: Database, f: Form, conds: seq<TargetCondition>, creator: Option<Id>)
    ensures CreateFails(db, f, conds, creator) <==>
            (exists t | t in db.targets :: db.targets[t].name == f.name) || (creator.Some? && creator.value !in db.users) ||
            (conds != [] && ((f.operator != "" && f.operator != "AND" && f.operator != "OR") || exists i | 0 <= i < |conds| :: conds[i].kind.Unknown?))
  {}

  /** A mentioned check must be the target's own, a new one of a type of the schema. */
  predicate Refused(checks: map<Id, Check>, tid: Id, c: TargetCondition) {
    if c.checkId.Some? then c.checkId.value !in checks || checks[c.checkId.value].targetId != tid else c.kind.Unknown?
  }

  /** An update fails exactly if the target is unknown, another has the name, or, with conditions, the operator, a check or the linked rule is not there. */
  lemma UpdateFailsIff(db: Database, tid: Id, f: Form, conds: seq<TargetCondition>)
    ensures UpdateFails(db, tid, f, conds) <==>
            tid !in db.targets || (exists t | t in db.targets :: t != tid && db.targets[t].name == f.name) ||
            (conds != [] && ((f.operator != "" && f.operator != "AND" && f.operator != "OR") ||
                             (exists i | 0 <= i < |conds| :: Refused(db.checks, tid, conds[i])) ||
                             (db.targets[tid].ruleId.Some? && db.targets[tid].ruleId.value !in db.rules)))
  {
    assert AllWritable(db.checks, tid, conds) <==> forall i | 0 <= i < |conds| :: !Refused(db.checks, tid, conds[i]) by {
      if forall i | 0 <= i < |conds| :: !Refused(db.checks, tid, conds[i]) {
        forall i | 0 <= i < |conds| ensures Writable(db.checks, tid, conds[i]) {
          assert !Refused(db.checks, tid, conds[i]);
        }
      }
      if AllWritable(db.checks, tid, conds) {
        forall i | 0 <= i < |conds| ensures !Refused(db.checks, tid, conds[i]) {
          assert Writable(db.checks, tid, conds[i]);
        }
      }
    }
  }

  // ---------- what the detail shows ----------

  /** The row belongs to the rule, and its check to the target. */
  predicate Shown(db: Database, tid: Id, rid: Id, c: Id) {
    c in db.conditions && db.conditions[c].ruleId == rid && db.conditions[c].checkId in db.checks &&
    db.checks[db.conditions[c].checkId].targetId == tid
  }

  ghost predicate ShowsRow(db: Database, c: Id, view: TargetCondition) {
    c in db.conditions && db.conditions[c].checkId in db.checks &&
    var row, check := db.conditions[c], db.checks[db.conditions[c].checkId];
    view == TargetCondition(Some(row.checkId), check.kind, check.name, check.config, check.intervalS,
                            row.field, row.comparator, row.value, row.failCount, row.failWindow, row.group, row.groupOp)
  }

  /** The order of the detail: by group, within a group by sort order. */
  predicate RowsAscend(rows: map<Id, RuleCondition>, c: Id, d: Id) {
    c in rows && d in rows && (rows[c].group < rows[d].group || (rows[c].group == rows[d].group && rows[c].sortOrder <= rows[d].sortOrder))
  }

  /** Each row of the rule with its check, column by column, in order. */
  lemma RowDetailShows(db: Database, tid: Id, rid: Id, views: seq<TargetCondition>, ids: seq<Id>, i: nat, j: nat)
    requires IsRowDetail(db, tid, rid, views, ids) && i < j < |views|
    ensures ids[i] != ids[j] && RowsAscend(db.conditions, ids[i], ids[j])
    ensures Shown(db, tid, rid, ids[i]) && Shown(db, tid, rid, ids[j]) && ShowsRow(db, ids[i], views[i]) && ShowsRow(db, ids[j], views[j])
  {
    assert !Precedes(db.conditions[ids[j]], db.conditions[ids[i]]);
  }

  /** None is left out, and a single one is shown as well. */
  lemma RowDetailIsComplete(db: Database, tid: Id, rid: Id, views: seq<TargetCondition>, ids: seq<Id>, c: Id)
    requires IsRowDetail(db, tid, rid, views, ids)
    ensures |ids| == |views| && (c in ids <==> Shown(db, tid, rid, c))
    ensures forall i | 0 <= i < |ids| :: ShowsRow(db, ids[i], views[i])
  {
    assert c in RowsOf(db, tid, rid) <==> Shown(db, tid, rid, c);
  }

  // ---------- what a target without conditions shows ----------

  /** Each check once, as a plain down-check. */
  lemma PlainDetailShows(db: Database, tid: Id, views: seq<TargetCondition>)
    requires IsDetail(db, tid, views) && !HasRows(db, tid)
    ensures |views| == |ChecksOf(db, {tid})|
    ensures forall i | 0 <= i < |views| ::
              views[i].checkId.Some? && views[i].checkId.value in db.checks &&
              var check := db.checks[views[i].checkId.value];
              check.targetId == tid && views[i] == TargetCondition(views[i].checkId, check.kind, check.name, check.config, check.intervalS,
                                                                   "status", "eq", "down", 1, 0, 0, "")
  {
    var ids :| IsPlainDetail(db, tid, views, ids);
    ListLength(ids, ChecksOf(db, {tid}));
    assert forall i | 0 <= i < |ids| :: ids[i] in ids;
  }
}
