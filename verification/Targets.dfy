// What the target operations do to the rows (internal/store/targets.go): a target with its checks,
// hidden rule and conditions is created, updated by a smart diff, or deleted. New ids are numbered
// from `base`: no id the store holds or a request mentions is as large, as no random identifier repeats.
module Targets {
  import opened Prelude
  import opened Schema

  /** A check and its condition, as the API submits and returns them. */
  datatype TargetCondition = TargetCondition(checkId: Option<Id>, kind: CheckKind, name: string, config: string,
                                             intervalS: int, field: string, comparator: string, value: string,
                                             failCount: int, failWindow: int, group: int, groupOp: string)

  datatype Form = Form(name: string, host: string, description: string, enabled: bool, operator: string,
                       category: string, preferred: CheckKind, notes: Option<string>, contacts: Option<string>,
                       project: Option<string>, location: Option<string>)

  function OrElse(s: string, default: string): string {
    if s == "" then default else s
  }

  // ---------- rows ----------

  function CheckIdOf(c: TargetCondition, base: Id, i: nat): Id {
    if c.checkId.Some? then c.checkId.value else base + 2 + 2 * i
  }

  function ConditionId(base: Id, i: nat): Id {
    base + 3 + 2 * i
  }

  function ConditionRow(c: TargetCondition, rid: Id, check: Id, i: nat): RuleCondition {
    RuleCondition(rid, check, OrElse(c.field, "status"), OrElse(c.comparator, "eq"), c.value,
                  if c.failCount <= 0 then 1 else c.failCount, c.failWindow, i, c.group, OrElse(c.groupOp, "AND"))
  }

  function NewCheck(c: TargetCondition, tid: Id, now: int): Check {
    Check(tid, c.kind, c.name, c.config, c.intervalS, true, now, now)
  }

  /** The kind of a check never changes. */
  function EditedCheck(before: Check, c: TargetCondition, now: int): Check {
    before.(name := c.name, config := c.config, intervalS := c.intervalS, enabled := true, updatedAt := now)
  }

  /** A submitted check id must be one of the target's own; a new check must be of a known kind. */
  predicate Writable(checks: map<Id, Check>, tid: Id, c: TargetCondition) {
    match c.checkId
    case Some(k) => k in checks && checks[k].targetId == tid
    case None => !c.kind.Unknown?
  }

  /** UPDATE checks ... WHERE id = ? AND target_id = ?, or an insert. */
  function WriteCheck(checks: map<Id, Check>, tid: Id, c: TargetCondition, k: Id, now: int): map<Id, Check> {
    if c.checkId.None? then checks[k := NewCheck(c, tid, now)]
    else if k in checks && checks[k].targetId == tid then checks[k := EditedCheck(checks[k], c, now)]
    else checks
  }

  /** The upsert loop over the submitted conditions, as it acts on the checks. */
  function WriteChecks(checks: map<Id, Check>, tid: Id, conds: seq<TargetCondition>, base: Id, now: int): map<Id, Check> {
    if conds == [] then checks else
      var n := |conds| - 1;
      WriteCheck(WriteChecks(checks, tid, conds[..n], base, now), tid, conds[n], CheckIdOf(conds[n], base, n), now)
  }

  /** The same loop, as it acts on the conditions. */
  function WriteConditions(rows: map<Id, RuleCondition>, rid: Id, conds: seq<TargetCondition>, base: Id): map<Id, RuleCondition> {
    if conds == [] then rows else
      var n := |conds| - 1;
      WriteConditions(rows, rid, conds[..n], base)[ConditionId(base, n) := ConditionRow(conds[n], rid, CheckIdOf(conds[n], base, n), n)]
  }

  ghost predicate AllWritable(checks: map<Id, Check>, tid: Id, conds: seq<TargetCondition>) {
    forall i | 0 <= i < |conds| :: Writable(checks, tid, conds[i])
  }

  ghost predicate KeysBelow<T>(m: map<Id, T>, base: Id) {
    forall k | k in m :: k < base
  }

  ghost predicate Unguessed(conds: seq<TargetCondition>, base: Id) {
    forall i | 0 <= i < |conds| && conds[i].checkId.Some? :: conds[i].checkId.value < base
  }

  ghost predicate Mentioned(conds: seq<TargetCondition>, k: Id) {
    exists i :: 0 <= i < |conds| && conds[i].checkId == Some(k)
  }

  lemma MentionedBefore(conds: seq<TargetCondition>, k: Id)
    requires conds != []
    ensures Mentioned(conds, k) <==> Mentioned(conds[..|conds| - 1], k) || conds[|conds| - 1].checkId == Some(k)
  {
    if Mentioned(conds[..|conds| - 1], k) {
      var i :| 0 <= i < |conds| - 1 && conds[..|conds| - 1][i].checkId == Some(k);
      assert conds[i].checkId == Some(k);
    }
    if Mentioned(conds, k) {
      var i :| 0 <= i < |conds| && conds[i].checkId == Some(k);
      assert i < |conds| - 1 ==> conds[..|conds| - 1][i].checkId == Some(k);
    }
  }

  /** No check is lost, moved to another target or retyped; only the target's mentioned ones are edited; new ones are its own. */
  ghost predicate CheckWritten(before: map<Id, Check>, after: map<Id, Check>, tid: Id, conds: seq<TargetCondition>, base: Id, k: Id) {
    (k in before ==> k in after && after[k].targetId == before[k].targetId && after[k].kind == before[k].kind &&
                     after[k].createdAt == before[k].createdAt &&
                     (before[k].targetId != tid || !Mentioned(conds, k) ==> after[k] == before[k])) &&
    (k in after && k !in before ==> base <= k < base + 2 + 2 * |conds| && after[k].targetId == tid) &&
    (forall i | 0 <= i < |conds| && conds[i].checkId.None? && CheckIdOf(conds[i], base, i) == k :: k in after)
  }

  lemma {:induction false} ChecksWritten(checks: map<Id, Check>, tid: Id, conds: seq<TargetCondition>, base: Id, now: int, k: Id)
    requires KeysBelow(checks, base) && Unguessed(conds, base)
    ensures CheckWritten(checks, WriteChecks(checks, tid, conds, base, now), tid, conds, base, k)
  {
    if conds != [] {
      var n := |conds| - 1;
      ChecksWritten(checks, tid, conds[..n], base, now, k);
      MentionedBefore(conds, k);
    }
  }

  predicate IsConditionId(base: Id, n: nat, c: Id) {
    c >= base + 3 && (c - base - 3) % 2 == 0 && (c - base - 3) / 2 < n
  }

  function PositionOf(base: Id, c: Id): nat
    requires c >= base + 3
  {
    (c - base - 3) / 2
  }

  /** The conditions there were are untouched, and each submitted condition has its row. */
  lemma {:induction false} ConditionsWritten(rows: map<Id, RuleCondition>, rid: Id, conds: seq<TargetCondition>, base: Id, c: Id)
    requires KeysBelow(rows, base)
    ensures var rows' := WriteConditions(rows, rid, conds, base);
            (c in rows' <==> c in rows || IsConditionId(base, |conds|, c)) &&
            (c in rows ==> rows'[c] == rows[c]) &&
            (IsConditionId(base, |conds|, c) ==>
               var i := PositionOf(base, c); rows'[c] == ConditionRow(conds[i], rid, CheckIdOf(conds[i], base, i), i))
  {
    if conds != [] {
      var n := |conds| - 1;
      ConditionsWritten(rows, rid, conds[..n], base, c);
      assert IsConditionId(base, |conds|, c) <==> IsConditionId(base, n, c) || c == ConditionId(base, n);
    }
  }

  /** The row a check has in the end, if no check id is submitted twice. */
  function FinalCheck(checks: map<Id, Check>, tid: Id, c: TargetCondition, now: int): Check
    requires Writable(checks, tid, c)
  {
    if c.checkId.Some? then EditedCheck(checks[c.checkId.value], c, now) else NewCheck(c, tid, now)
  }

  ghost predicate DistinctChecks(conds: seq<TargetCondition>) {
    forall i, j | 0 <= i < j < |conds| && conds[i].checkId.Some? :: conds[i].checkId != conds[j].checkId
  }

  lemma {:induction false} FinalChecks(checks: map<Id, Check>, tid: Id, conds: seq<TargetCondition>, base: Id, now: int, i: nat)
    requires KeysBelow(checks, base) && Unguessed(conds, base) && DistinctChecks(conds) && i < |conds| && Writable(checks, tid, conds[i])
    ensures var k, checks' := CheckIdOf(conds[i], base, i), WriteChecks(checks, tid, conds, base, now);
            k in checks' && checks'[k] == FinalCheck(checks, tid, conds[i], now)
  {
    var n := |conds| - 1;
    var init := conds[..n];
    if i < n {
      assert init[i] == conds[i] && forall j | 0 <= j < n :: init[j] == conds[j];
      FinalChecks(checks, tid, init, base, now, i);
      assert CheckIdOf(conds[n], base, n) != CheckIdOf(conds[i], base, i);
    } else if conds[n].checkId.Some? {
      var k := conds[n].checkId.value;
      assert !Mentioned(init, k);
      ChecksWritten(checks, tid, init, base, now, k);
    }
  }

  // ---------- the transactions, statement group by statement group ----------

  const OPERATORS := {"AND", "OR"}

  predicate NameTaken(targets: map<Id, Target>, name: string, but: Option<Id>) {
    exists t | t in targets :: Some(t) != but && targets[t].name == name
  }

  predicate Offers(conds: seq<TargetCondition>, kind: CheckKind) {
    exists i :: 0 <= i < |conds| && conds[i].kind == kind
  }

  function NewTarget(f: Form, now: int): Target {
    Target(f.name, f.host, f.description, f.enabled, f.preferred, OrElse(f.operator, "AND"), OrElse(f.category, "Other"),
           None, None, f.notes, f.contacts, f.project, f.location, now, now)
  }

  /** An update leaves the rule, the pause and the creation time of a target alone. */
  function EditedTarget(t: Target, f: Form, preferred: CheckKind, now: int): Target {
    t.(name := f.name, host := f.host, description := f.description, enabled := f.enabled, preferred := preferred,
       operator := OrElse(f.operator, "AND"), category := OrElse(f.category, "Other"),
       notes := f.notes, contacts := f.contacts, project := f.project, location := f.location, updatedAt := now)
  }

  function NewRule(f: Form, now: int): Rule {
    Rule(f.name + " rule", "", OrElse(f.operator, "AND"), "critical", true, now, now)
  }

  function EditedRule(r: Rule, f: Form, now: int): Rule {
    r.(name := f.name + " rule", operator := OrElse(f.operator, "AND"), severity := "critical", enabled := true, updatedAt := now)
  }

  /** The requested conditions, as creation takes them: a check id a caller sends along is overwritten. */
  function Unowned(conds: seq<TargetCondition>): (cs: seq<TargetCondition>)
    ensures |cs| == |conds| && forall i | 0 <= i < |cs| :: cs[i] == conds[i].(checkId := None)
  {
    seq(|conds|, i requires 0 <= i < |conds| => conds[i].(checkId := None))
  }

  /** The new target and its first recipient. */
  function WithTarget(db: Database, tid: Id, t: Target, creator: Option<Id>): Database {
    db.(targets := db.targets[tid := t],
        recipients := db.recipients + if creator.Some? then {(tid, creator.value)} else {})
  }

  /** The hidden rule, its state, and the link from the target. */
  function WithNewRule(db: Database, tid: Id, preferred: CheckKind, rid: Id, rule: Rule): Database
    requires tid in db.targets
  {
    db.(targets := db.targets[tid := db.targets[tid].(ruleId := Some(rid), preferred := preferred)],
        rules := db.rules[rid := rule], states := db.states[rid := RuleState(Healthy, None, None)])
  }

  /** Writes the submitted conditions of a target. */
  function WithConditions(db: Database, tid: Id, rid: Id, conds: seq<TargetCondition>, base: Id, now: int): Database {
    db.(checks := WriteChecks(db.checks, tid, conds, base, now), conditions := WriteConditions(db.conditions, rid, conds, base))
  }

  /** The preferred kind of a new target with conditions. */
  function FirstPreferred(f: Form, conds: seq<TargetCondition>): CheckKind
    requires conds != []
  {
    if f.preferred != NO_KIND && Offers(conds, f.preferred) then f.preferred else conds[0].kind
  }

  ghost predicate CreateFails(db: Database, f: Form, conds: seq<TargetCondition>, creator: Option<Id>) {
    NameTaken(db.targets, f.name, None) || (creator.Some? && creator.value !in db.users) ||
    (conds != [] && (OrElse(f.operator, "AND") !in OPERATORS || exists i :: 0 <= i < |conds| && conds[i].kind.Unknown?))
  }

  /** The store after a creation that does not fail. */
  function Created(db: Database, f: Form, conds: seq<TargetCondition>, creator: Option<Id>, base: Id, now: int): Database {
    var d := WithTarget(db, base, NewTarget(f, now), creator);
    if conds == [] then d else
      WithConditions(WithNewRule(d, base, FirstPreferred(f, conds), base + 1, NewRule(f, now)), base, base + 1, Unowned(conds), base, now)
  }

  /** The target's checks that a request does not mention. */
  ghost function Unmentioned(checks: map<Id, Check>, tid: Id, conds: seq<TargetCondition>): set<Id> {
    set k | k in checks && checks[k].targetId == tid && !Mentioned(conds, k)
  }

  function WithTargetEdited(db: Database, tid: Id, f: Form, preferred: CheckKind, now: int): Database
    requires tid in db.targets
  {
    db.(targets := db.targets[tid := EditedTarget(db.targets[tid], f, preferred, now)])
  }

  /** The rule a target has, or the one an update gives it. */
  function RuleOf(targets: map<Id, Target>, tid: Id, base: Id): Id
    requires tid in targets
  {
    if targets[tid].ruleId.Some? then targets[tid].ruleId.value else base + 1
  }

  /** UPDATE rules ... WHERE id = ? */
  function RulesEdited(rules: map<Id, Rule>, rid: Id, f: Form, now: int): map<Id, Rule> {
    if rid in rules then rules[rid := EditedRule(rules[rid], f, now)] else rules
  }

  /** An update that leaves conditions edits the target's rule, or gives it one. */
  function WithRule(db: Database, tid: Id, f: Form, base: Id, now: int): Database
    requires tid in db.targets
  {
    var t := db.targets[tid];
    db.(targets := if t.ruleId.None? then db.targets[tid := t.(ruleId := Some(base + 1))] else db.targets,
        rules := if t.ruleId.None? then db.rules[base + 1 := NewRule(f, now)] else RulesEdited(db.rules, t.ruleId.value, f, now),
        states := if t.ruleId.None? then db.states[base + 1 := RuleState(Healthy, None, None)] else db.states)
  }

  /** The rule a target has, if any. */
  function LinkedRule(targets: map<Id, Target>, tid: Id): set<Id>
    requires tid in targets
  {
    if targets[tid].ruleId.Some? then {targets[tid].ruleId.value} else {}
  }

  /** An update without conditions removes the target's rule and all its checks. */
  function WithoutRule(db: Database, tid: Id): Database
    requires tid in db.targets
  {
    var d := DeleteRules(db, LinkedRule(db.targets, tid));
    d.(targets := d.targets[tid := d.targets[tid].(ruleId := None)])
  }

  function WithoutRuleAndChecks(db: Database, tid: Id): Database
    requires tid in db.targets
  {
    DeleteChecks(WithoutRule(db, tid), ChecksOf(db, {tid}))
  }

  function RowsOfOtherRules(rows: map<Id, RuleCondition>, rid: Id): map<Id, RuleCondition> {
    map c | c in rows && rows[c].ruleId != rid :: rows[c]
  }

  /** The smart diff up to the upsert: unmentioned checks go, and so do all conditions of the rule. */
  ghost function WithGaps(db: Database, tid: Id, rid: Id, conds: seq<TargetCondition>): Database {
    var d := DeleteChecks(db, Unmentioned(db.checks, tid, conds));
    d.(conditions := RowsOfOtherRules(d.conditions, rid))
  }

  function PreferredAfter(preferred: CheckKind, f: Form, conds: seq<TargetCondition>): CheckKind {
    if conds == [] then preferred
    else if f.preferred == NO_KIND then conds[0].kind
    else if Offers(conds, f.preferred) then f.preferred
    else preferred
  }

  /** The link to the rule is no foreign key: a restored target may name a rule there is not. */
  predicate RuleMissing(db: Database, tid: Id)
    requires tid in db.targets
  {
    db.targets[tid].ruleId.Some? && db.targets[tid].ruleId.value !in db.rules
  }

  ghost predicate UpdateFails(db: Database, tid: Id, f: Form, conds: seq<TargetCondition>) {
    tid !in db.targets || NameTaken(db.targets, f.name, Some(tid)) ||
    (conds != [] && (OrElse(f.operator, "AND") !in OPERATORS || !AllWritable(db.checks, tid, conds) || RuleMissing(db, tid)))
  }

  /** The store after an update that does not fail. */
  ghost function Updated(db: Database, tid: Id, f: Form, conds: seq<TargetCondition>, base: Id, now: int): Database
    requires tid in db.targets
  {
    var d := WithTargetEdited(db, tid, f, PreferredAfter(db.targets[tid].preferred, f, conds), now);
    if conds == [] then WithoutRuleAndChecks(d, tid)
    else
      var rid := RuleOf(db.targets, tid, base);
      WithConditions(WithGaps(WithRule(d, tid, f, base, now), tid, rid, conds), tid, rid, conds, base, now)
  }

  /** The store after the deletion of a target it has: the linked rule goes first. */
  function Deleted(db: Database, tid: Id): Database
    requires tid in db.targets
  {
    DeleteTargets(DeleteRules(db, LinkedRule(db.targets, tid)), {tid})
  }
}
