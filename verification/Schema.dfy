// Rows of the relational store (internal/store/store.go). A table is a map from its primary key,
// except the raw results, an append-only log kept in insertion order. Ids stand for the random
// identifiers of the source; a point in time is a whole number of seconds.
module Schema {
  import opened Prelude

  type Id = nat

  datatype Status = Up | Down

  datatype Health = Healthy | Unhealthy

  /** The check types the schema admits; a request may name any other. */
  datatype CheckKind = Http | Tcp | Ping | Dns | PageHash | TlsCert | SnmpV2c | SnmpV3 | Unknown(name: string)

  const NO_KIND := Unknown("")

  datatype CheckResult = CheckResult(checkId: Id, status: Status, responseMs: int, message: string,
                                     metrics: string, checkedAt: int)

  datatype Rollup = Rollup(total: nat, up: nat, down: nat, avg: int, max: int)

  /** The three tables SaveResult writes: check_results, check_state and check_daily_rollups. */
  datatype Readings = Readings(raw: seq<CheckResult>, current: map<Id, CheckResult>,
                               rollups: map<(Id, int), Rollup>)

  const NO_READINGS := Readings([], map[], map[])

  datatype RuleCondition = RuleCondition(ruleId: Id, checkId: Id, field: string, comparator: string,
                                         value: string, failCount: int, failWindow: int,
                                         sortOrder: int, group: int, groupOp: string)

  datatype Rule = Rule(name: string, description: string, operator: string, severity: string,
                       enabled: bool, createdAt: int, updatedAt: int)

  datatype RuleState = RuleState(current: Health, lastChange: Option<int>, lastEvaluated: Option<int>)

  datatype Target = Target(name: string, host: string, description: string, enabled: bool,
                           preferred: CheckKind, operator: string, category: string,
                           ruleId: Option<Id>, pausedAt: Option<int>,
                           notes: Option<string>, contacts: Option<string>,
                           project: Option<string>, location: Option<string>,
                           createdAt: int, updatedAt: int)

  datatype Check = Check(targetId: Id, kind: CheckKind, name: string, config: string, intervalS: int,
                         enabled: bool, createdAt: int, updatedAt: int)

  datatype Pause = Pause(targetId: Id, pausedAt: int, resumedAt: Option<int>, reason: string)

  /** Days are numbered from the epoch. */
  function DayOf(t: int): int {
    t / 86400
  }

  datatype User = User(username: string, email: string, phone: string, passwordHash: string, role: string,
                       status: string, createdAt: int, updatedAt: int)

  /** An alert_history row, reduced to its only foreign key. */
  datatype Alert = Alert(acknowledgedBy: Option<Id>, message: string)

  /** The whole database. Sessions map to their user, tag options to group and value. */
  datatype Database = Database(users: map<Id, User>, settings: map<string, string>, rules: map<Id, Rule>,
                               targets: map<Id, Target>, checks: map<Id, Check>, conditions: map<Id, RuleCondition>,
                               states: map<Id, RuleState>, recipients: set<(Id, Id)>, pauses: map<Id, Pause>,
                               readings: Readings, alerts: map<Id, Alert>, audit: map<Id, string>,
                               sessions: map<Id, Id>, tagOptions: map<Id, (string, string)>,
                               targetTags: set<(Id, Id)>, tokens: map<Id, string>)

  // ---------- foreign keys ----------

  ghost predicate CheckKeys(checks: map<Id, Check>, targets: set<Id>) {
    forall c | c in checks :: checks[c].targetId in targets
  }

  ghost predicate ConditionKeys(conditions: map<Id, RuleCondition>, rules: set<Id>, checks: set<Id>) {
    forall c | c in conditions :: conditions[c].ruleId in rules && conditions[c].checkId in checks
  }

  ghost predicate RecipientKeys(recipients: set<(Id, Id)>, targets: set<Id>, users: set<Id>) {
    forall r | r in recipients :: r.0 in targets && r.1 in users
  }

  ghost predicate PauseKeys(pauses: map<Id, Pause>, targets: set<Id>) {
    forall p | p in pauses :: pauses[p].targetId in targets
  }

  ghost predicate ReadingKeys(rd: Readings, checks: set<Id>) {
    (forall r | r in rd.raw :: r.checkId in checks) && rd.current.Keys <= checks &&
    forall k | k in rd.rollups :: k.0 in checks
  }

  ghost predicate AlertKeys(alerts: map<Id, Alert>, users: set<Id>) {
    forall a | a in alerts && alerts[a].acknowledgedBy.Some? :: alerts[a].acknowledgedBy.value in users
  }

  ghost predicate SessionKeys(sessions: map<Id, Id>, users: set<Id>) {
    forall s | s in sessions :: sessions[s] in users
  }

  ghost predicate TagKeys(targetTags: set<(Id, Id)>, targets: set<Id>, tagOptions: set<Id>) {
    forall t | t in targetTags :: t.0 in targets && t.1 in tagOptions
  }

  /** Every foreign key of the schema points to a row. */
  ghost predicate ForeignKeysHold(db: Database) {
    CheckKeys(db.checks, db.targets.Keys) &&
    ConditionKeys(db.conditions, db.rules.Keys, db.checks.Keys) &&
    db.states.Keys <= db.rules.Keys &&
    RecipientKeys(db.recipients, db.targets.Keys, db.users.Keys) &&
    PauseKeys(db.pauses, db.targets.Keys) &&
    ReadingKeys(db.readings, db.checks.Keys) &&
    AlertKeys(db.alerts, db.users.Keys) &&
    SessionKeys(db.sessions, db.users.Keys) &&
    TagKeys(db.targetTags, db.targets.Keys, db.tagOptions.Keys)
  }

  // ---------- deletes, with their cascades ----------

  function WithoutChecks(rows: seq<CheckResult>, gone: set<Id>): (kept: seq<CheckResult>)
    ensures forall r :: r in kept <==> r in rows && r.checkId !in gone
  {
    if rows == [] then [] else
      var r := rows[|rows| - 1];
      assert rows == rows[..|rows| - 1] + [r];
      if r.checkId in gone then WithoutChecks(rows[..|rows| - 1], gone) else WithoutChecks(rows[..|rows| - 1], gone) + [r]
  }

  function DropReadings(rd: Readings, gone: set<Id>): Readings {
    Readings(WithoutChecks(rd.raw, gone), rd.current - gone, map k | k in rd.rollups && k.0 !in gone :: rd.rollups[k])
  }

  /** DELETE FROM checks WHERE id IN gone */
  function DeleteChecks(db: Database, gone: set<Id>): Database {
    db.(checks := db.checks - gone,
        conditions := (map c | c in db.conditions && db.conditions[c].checkId !in gone :: db.conditions[c]),
        readings := DropReadings(db.readings, gone))
  }

  /** DELETE FROM rules WHERE id IN gone */
  function DeleteRules(db: Database, gone: set<Id>): Database {
    db.(rules := db.rules - gone, states := db.states - gone,
        conditions := map c | c in db.conditions && db.conditions[c].ruleId !in gone :: db.conditions[c])
  }

  function ChecksOf(db: Database, targets: set<Id>): set<Id> {
    set c | c in db.checks && db.checks[c].targetId in targets
  }

  /** DELETE FROM targets WHERE id IN gone */
  function DeleteTargets(db: Database, gone: set<Id>): Database {
    DeleteChecks(db, ChecksOf(db, gone)).(
      targets := db.targets - gone,
      recipients := (set r | r in db.recipients && r.0 !in gone),
      pauses := (map p | p in db.pauses && db.pauses[p].targetId !in gone :: db.pauses[p]),
      targetTags := (set t | t in db.targetTags && t.0 !in gone))
  }

  lemma DeleteChecksKeepsKeys(db: Database, gone: set<Id>)
    requires ForeignKeysHold(db)
    ensures ForeignKeysHold(DeleteChecks(db, gone))
  {}

  lemma DeleteRulesKeepsKeys(db: Database, gone: set<Id>)
    requires ForeignKeysHold(db)
    ensures ForeignKeysHold(DeleteRules(db, gone))
  {}

  lemma DeleteTargetsKeepsKeys(db: Database, gone: set<Id>)
    requires ForeignKeysHold(db)
    ensures ForeignKeysHold(DeleteTargets(db, gone))
  {
    DeleteChecksKeepsKeys(db, ChecksOf(db, gone));
  }
}
