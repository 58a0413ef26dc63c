// Configuration backup (internal/store/backup.go): export lists every configuration table once, in the
// order of the query; restore wipes the tables leaf to root and inserts the backup root to leaf, in one
// transaction. Foreign keys are enforced statement by statement.
module Backup {
  import opened Prelude
  import opened Schema

  // ---------- what a backup holds ----------

  /** A target without its notes, contacts, project and location, which the backup does not carry. */
  datatype TargetCopy = TargetCopy(name: string, host: string, description: string, enabled: bool, preferred: CheckKind,
                                   operator: string, category: string, ruleId: Option<Id>, pausedAt: Option<int>,
                                   createdAt: int, updatedAt: int)

  datatype Data = Data(users: seq<(Id, User)>, settings: map<string, string>, rules: seq<(Id, Rule)>,
                       targets: seq<(Id, TargetCopy)>, checks: seq<(Id, Check)>, conditions: seq<(Id, RuleCondition)>,
                       states: seq<(Id, RuleState)>, recipients: seq<(Id, Id)>, pauses: seq<(Id, Pause)>)

  function CopyOf(t: Target): TargetCopy {
    TargetCopy(t.name, t.host, t.description, t.enabled, t.preferred, t.operator, t.category, t.ruleId, t.pausedAt, t.createdAt, t.updatedAt)
  }

  function TargetFrom(c: TargetCopy): Target {
    Target(c.name, c.host, c.description, c.enabled, c.preferred, c.operator, c.category, c.ruleId, c.pausedAt,
           None, None, None, None, c.createdAt, c.updatedAt)
  }

  /** Old backups lack the group operator. */
  function ConditionFrom(c: RuleCondition): RuleCondition {
    c.(groupOp := if c.groupOp == "" then "AND" else c.groupOp)
  }

  // ---------- tables and their listings ----------

  function TableOf<R>(rows: seq<(Id, R)>): map<Id, R> {
    if rows == [] then map[] else TableOf(rows[..|rows| - 1])[rows[|rows| - 1].0 := rows[|rows| - 1].1]
  }

  ghost predicate DistinctKeys<R>(rows: seq<(Id, R)>) {
    forall i, j | 0 <= i < j < |rows| :: rows[i].0 != rows[j].0
  }

  lemma {:induction false} RowIn<R>(rows: seq<(Id, R)>, k: Id) returns (i: nat)
    requires k in TableOf(rows)
    ensures i < |rows| && rows[i].0 == k && rows[i].1 == TableOf(rows)[k]
  {
    var n := |rows| - 1;
    if rows[n].0 == k {
      i := n;
    } else {
      i := RowIn(rows[..n], k);
    }
  }

  lemma {:induction false} KeyIn<R>(rows: seq<(Id, R)>, i: nat)
    requires i < |rows|
    ensures rows[i].0 in TableOf(rows)
    ensures DistinctKeys(rows) ==> TableOf(rows)[rows[i].0] == rows[i].1
  {
    var n := |rows| - 1;
    if i < n {
      KeyIn(rows[..n], i);
    }
  }

  /** A listing of a table loads back as the table. */
  lemma ListingLoads<R>(rows: seq<(Id, R)>, table: map<Id, R>)
    requires Lists(rows, table.Items)
    ensures DistinctKeys(rows) && TableOf(rows) == table
  {
    forall i, j | 0 <= i < j < |rows| ensures rows[i].0 != rows[j].0 {
      assert rows[i] in rows && rows[j] in rows;
    }
    forall k | k in TableOf(rows) ensures k in table && TableOf(rows)[k] == table[k] {
      var i := RowIn(rows, k);
      assert rows[i] in rows;
    }
    forall k | k in table ensures k in TableOf(rows) {
      assert (k, table[k]) in table.Items;
      var i :| 0 <= i < |rows| && rows[i] == (k, table[k]);
      KeyIn(rows, i);
    }
  }

  // ---------- ORDER BY ----------

  /** Comparison of sort keys, column by column; texts by their characters. */
  predicate Less(a: seq<int>, b: seq<int>) {
    b != [] && (a == [] || a[0] < b[0] || (a[0] == b[0] && Less(a[1..], b[1..])))
  }

  lemma {:induction false} LessIsTransitive(a: seq<int>, b: seq<int>, c: seq<int>)
    requires !Less(b, a) && !Less(c, b)
    ensures !Less(c, a)
  {
    if a != [] && b != [] && c != [] && a[0] == b[0] == c[0] {
      LessIsTransitive(a[1..], b[1..], c[1..]);
    }
  }

  lemma {:induction false} LessIsAsymmetric(a: seq<int>, b: seq<int>)
    requires Less(a, b)
    ensures !Less(b, a)
  {
    if a != [] && a[0] == b[0] {
      LessIsAsymmetric(a[1..], b[1..]);
    }
  }

  ghost predicate SortedBy<T>(rows: seq<T>, key: T -> seq<int>) {
    forall i, j | 0 <= i < j < |rows| :: !Less(key(rows[j]), key(rows[i]))
  }

  method FirstBy<T>(s: set<T>, key: T -> seq<int>) returns (first: T)
    requires s != {}
    ensures first in s && forall x | x in s :: !Less(key(x), key(first))
  {
    first := Pick(s);
    var rest := s - {first};
    if Less(key(first), key(first)) {
      LessIsAsymmetric(key(first), key(first));
    }
    while rest != {}
      invariant first in s && rest <= s
      invariant forall x | x in s - rest :: !Less(key(x), key(first))
      decreases |rest|
    {
      var x := Pick(rest);
      rest := rest - {x};
      if Less(key(x), key(first)) {
        LessIsAsymmetric(key(x), key(first));
        forall y | y in s - rest && y != x ensures !Less(key(y), key(x)) {
          LessIsTransitive(key(x), key(first), key(y));
        }
        if Less(key(x), key(x)) {
          LessIsAsymmetric(key(x), key(x));
        }
        first := x;
      }
    }
  }

  /** SELECT ... FROM table ORDER BY key */
  method ListBy<T>(s: set<T>, key: T -> seq<int>) returns (rows: seq<T>)
    ensures Lists(rows, s) && SortedBy(rows, key)
  {
    rows := [];
    var rest := s;
    while rest != {}
      invariant rest <= s && Lists(rows, s - rest) && SortedBy(rows, key)
      invariant forall x, y | x in rows && y in rest :: !Less(key(y), key(x))
      decreases |rest|
    {
      var x := FirstBy(rest, key);
      rows, rest := rows + [x], rest - {x};
    }
  }

  function Letters(s: string): seq<int> {
    seq(|s|, i requires 0 <= i < |s| => s[i] as int)
  }

  // ---------- export ----------

  function Copies(targets: map<Id, Target>): map<Id, TargetCopy> {
    map t | t in targets :: CopyOf(targets[t])
  }

  /** Every configuration table, each row once. */
  ghost predicate IsExport(db: Database, data: Data) {
    Lists(data.users, db.users.Items) && data.settings == db.settings && Lists(data.rules, db.rules.Items) &&
    Lists(data.targets, Copies(db.targets).Items) && Lists(data.checks, db.checks.Items) &&
    Lists(data.conditions, db.conditions.Items) && Lists(data.states, db.states.Items) &&
    Lists(data.recipients, db.recipients) && Lists(data.pauses, db.pauses.Items)
  }

  /** Users, rules and checks by age, targets by name, conditions in evaluation order, the rest by id. */
  ghost predicate InExportOrder(data: Data) {
    SortedBy(data.users, (u: (Id, User)) => [u.1.createdAt]) &&
    SortedBy(data.rules, (r: (Id, Rule)) => [r.1.createdAt]) &&
    SortedBy(data.targets, (t: (Id, TargetCopy)) => Letters(t.1.name)) &&
    SortedBy(data.checks, (c: (Id, Check)) => [c.1.createdAt]) &&
    SortedBy(data.conditions, (c: (Id, RuleCondition)) => [c.1.ruleId, c.1.group, c.1.sortOrder]) &&
    SortedBy(data.states, (s: (Id, RuleState)) => [s.0]) &&
    SortedBy(data.recipients, (r: (Id, Id)) => [r.0, r.1]) &&
    SortedBy(data.pauses, (p: (Id, Pause)) => [p.0])
  }

  method ExportBackup(db: Database) returns (data: Data)
    ensures IsExport(db, data) && InExportOrder(data)
  {
    var users := ListBy(db.users.Items, (u: (Id, User)) => [u.1.createdAt]);
    var rules := ListBy(db.rules.Items, (r: (Id, Rule)) => [r.1.createdAt]);
    var targets := ListBy(Copies(db.targets).Items, (t: (Id, TargetCopy)) => Letters(t.1.name));
    var checks := ListBy(db.checks.Items, (c: (Id, Check)) => [c.1.createdAt]);
    var conditions := ListBy(db.conditions.Items, (c: (Id, RuleCondition)) => [c.1.ruleId, c.1.group, c.1.sortOrder]);
    var states := ListBy(db.states.Items, (s: (Id, RuleState)) => [s.0]);
    var recipients := ListBy(db.recipients, (r: (Id, Id)) => [r.0, r.1]);
    var pauses := ListBy(db.pauses.Items, (p: (Id, Pause)) => [p.0]);
    data := Data(users, db.settings, rules, targets, checks, conditions, states, recipients, pauses);
  }

  /** Comparison goes by the first difference, upwards. */
  lemma {:induction false} FirstDifference(a: seq<int>, b: seq<int>, k: nat)
    requires k < |a| && k < |b| && a[..k] == b[..k] && a[k] < b[k]
    ensures Less(a, b)
  {
    if k > 0 {
      assert a[0] == a[..k][0] == b[..k][0] == b[0];
      assert a[1..][..k - 1] == a[..k][1..] && b[1..][..k - 1] == b[..k][1..];
      FirstDifference(a[1..], b[1..], k - 1);
    }
  }

  lemma LessThree(x: int, y: int, z: int, u: int, v: int, w: int)
    ensures Less([x, y, z], [u, v, w]) <==> x < u || (x == u && (y < v || (y == v && z < w)))
  {
    assert [x, y, z][1..] == [y, z] && [u, v, w][1..] == [v, w];
    assert [y, z][1..] == [z] && [v, w][1..] == [w];
    assert Less([z], [w]) <==> z < w;
    assert Less([y, z], [v, w]) <==> y < v || (y == v && z < w);
  }

  /** Oldest first, and among target names, the earlier letter first. */
  lemma ExportIsOrdered(data: Data, i: nat, j: nat)
    requires InExportOrder(data) && i < j
    ensures j < |data.users| ==> data.users[i].1.createdAt <= data.users[j].1.createdAt
    ensures j < |data.rules| ==> data.rules[i].1.createdAt <= data.rules[j].1.createdAt
    ensures j < |data.checks| ==> data.checks[i].1.createdAt <= data.checks[j].1.createdAt
    ensures j < |data.conditions| ==>
              var a, b := data.conditions[i].1, data.conditions[j].1;
              a.ruleId < b.ruleId || (a.ruleId == b.ruleId && (a.group < b.group || (a.group == b.group && a.sortOrder <= b.sortOrder)))
  {
    if j < |data.conditions| {
      var a, b := data.conditions[i].1, data.conditions[j].1;
      LessThree(b.ruleId, b.group, b.sortOrder, a.ruleId, a.group, a.sortOrder);
    }
  }

  lemma NamesAreOrdered(data: Data, i: nat, j: nat, k: nat)
    requires InExportOrder(data) && i < j < |data.targets|
    requires var a, b := data.targets[i].1.name, data.targets[j].1.name; k < |a| && k < |b| && a[..k] == b[..k]
    ensures data.targets[i].1.name[k] <= data.targets[j].1.name[k]
  {
    var a, b := data.targets[i].1.name, data.targets[j].1.name;
    if b[k] < a[k] {
      assert Letters(b)[..k] == Letters(b[..k]) == Letters(a[..k]) == Letters(a)[..k];
      FirstDifference(Letters(b), Letters(a), k);
    }
  }

  // ---------- the wipe ----------

  datatype Table = AuditLogs | RuleConditions | RuleStates | AlertHistory | Recipients | PauseHistory | CheckResults
                 | Checks | Targets | Rules | Sessions | Users | Settings

  const WIPE_ORDER := [AuditLogs, RuleConditions, RuleStates, AlertHistory, Recipients, PauseHistory, CheckResults,
                       Checks, Targets, Rules, Sessions, Users, Settings]

  ghost predicate IsEmpty(db: Database, t: Table) {
    match t
    case AuditLogs => db.audit == map[]
    case RuleConditions => db.conditions == map[]
    case RuleStates => db.states == map[]
    case AlertHistory => db.alerts == map[]
    case Recipients => db.recipients == {}
    case PauseHistory => db.pauses == map[]
    case CheckResults => db.readings.raw == []
    case Checks => db.checks == map[]
    case Targets => db.targets == map[]
    case Rules => db.rules == map[]
    case Sessions => db.sessions == map[]
    case Users => db.users == map[]
    case Settings => db.settings == map[]
  }

  /** An acknowledged alert keeps its user from being deleted: that reference does not cascade. */
  predicate HoldsUsers(alerts: map<Id, Alert>, users: set<Id>) {
    exists a | a in alerts :: alerts[a].acknowledgedBy.Some? && alerts[a].acknowledgedBy.value in users
  }

  /** DELETE FROM users: sessions and recipients cascade. */
  function DeleteUsers(db: Database): Outcome<Database> {
    if HoldsUsers(db.alerts, db.users.Keys) then Err("FOREIGN KEY constraint failed") else
      Ok(db.(users := map[], sessions := (map s | s in db.sessions && db.sessions[s] !in db.users :: db.sessions[s]),
             recipients := (set r | r in db.recipients && r.1 !in db.users)))
  }

  /** DELETE FROM table, with its cascades. */
  function Clear(db: Database, t: Table): Outcome<Database> {
    match t
    case AuditLogs => Ok(db.(audit := map[]))
    case RuleConditions => Ok(db.(conditions := map[]))
    case RuleStates => Ok(db.(states := map[]))
    case AlertHistory => Ok(db.(alerts := map[]))
    case Recipients => Ok(db.(recipients := {}))
    case PauseHistory => Ok(db.(pauses := map[]))
    case CheckResults => Ok(db.(readings := db.readings.(raw := [])))
    case Checks => Ok(DeleteChecks(db, db.checks.Keys))
    case Targets => Ok(DeleteTargets(db, db.targets.Keys))
    case Rules => Ok(DeleteRules(db, db.rules.Keys))
    case Sessions => Ok(db.(sessions := map[]))
    case Users => DeleteUsers(db)
    case Settings => Ok(db.(settings := map[]))
  }

  /** Every configuration and monitoring row gone; tag options and API tokens stay. */
  function Wiped(db: Database): Database {
    Database(map[], map[], map[], map[], map[], map[], map[], {}, map[], NO_READINGS, map[], map[], map[], db.tagOptions, {}, db.tokens)
  }

  lemma ClearKeepsKeys(db: Database, t: Table)
    requires ForeignKeysHold(db) && Clear(db, t).Ok?
    ensures ForeignKeysHold(Clear(db, t).value)
  {
    match t
    case Checks => DeleteChecksKeepsKeys(db, db.checks.Keys);
    case Targets => DeleteTargetsKeepsKeys(db, db.targets.Keys);
    case Rules => DeleteRulesKeepsKeys(db, db.rules.Keys);
    case _ =>
  }

  lemma ClearEmpties(db: Database, t: Table)
    requires Clear(db, t).Ok?
    ensures IsEmpty(Clear(db, t).value, t)
  {}

  /** Clearing takes rows away, and adds none anywhere. */
  ghost predicate Shrinks(db: Database, e: Database) {
    e.audit.Keys <= db.audit.Keys && e.conditions.Keys <= db.conditions.Keys && e.states.Keys <= db.states.Keys &&
    e.alerts.Keys <= db.alerts.Keys && e.recipients <= db.recipients && e.pauses.Keys <= db.pauses.Keys &&
    (db.readings.raw == [] ==> e.readings.raw == []) && e.checks.Keys <= db.checks.Keys && e.targets.Keys <= db.targets.Keys &&
    e.rules.Keys <= db.rules.Keys && e.sessions.Keys <= db.sessions.Keys && e.users.Keys <= db.users.Keys && e.settings.Keys <= db.settings.Keys
  }

  lemma ClearShrinks(db: Database, t: Table)
    requires Clear(db, t).Ok?
    ensures Shrinks(db, Clear(db, t).value)
  {}

  lemma ClearKeepsEmpty(db: Database, t: Table, u: Table)
    requires Clear(db, t).Ok? && IsEmpty(db, u)
    ensures IsEmpty(Clear(db, t).value, u)
  {
    ClearShrinks(db, t);
  }

  lemma ClearKeepsOthers(db: Database, t: Table)
    requires Clear(db, t).Ok?
    ensures Clear(db, t).value.tagOptions == db.tagOptions && Clear(db, t).value.tokens == db.tokens
  {}

  /** The foreign keys take the tables that are only cascaded to along. */
  lemma AllEmptyIsWiped(db: Database, was: Database)
    requires ForeignKeysHold(db) && forall t: Table :: IsEmpty(db, t)
    requires db.tagOptions == was.tagOptions && db.tokens == was.tokens
    ensures db == Wiped(was)
  {
    assert IsEmpty(db, AuditLogs) && IsEmpty(db, RuleConditions) && IsEmpty(db, RuleStates) && IsEmpty(db, AlertHistory);
    assert IsEmpty(db, Recipients) && IsEmpty(db, PauseHistory) && IsEmpty(db, CheckResults) && IsEmpty(db, Checks);
    assert IsEmpty(db, Targets) && IsEmpty(db, Rules) && IsEmpty(db, Sessions) && IsEmpty(db, Users) && IsEmpty(db, Settings);
    assert db.readings.current == map[] && db.readings.rollups == map[];
    assert db.targetTags == {};
  }

  lemma WipeIsComplete(t: Table)
    ensures t in WIPE_ORDER
  {
    assert WIPE_ORDER[0] == AuditLogs && WIPE_ORDER[1] == RuleConditions && WIPE_ORDER[2] == RuleStates && WIPE_ORDER[3] == AlertHistory;
    assert WIPE_ORDER[4] == Recipients && WIPE_ORDER[5] == PauseHistory && WIPE_ORDER[6] == CheckResults && WIPE_ORDER[7] == Checks;
    assert WIPE_ORDER[8] == Targets && WIPE_ORDER[9] == Rules && WIPE_ORDER[10] == Sessions && WIPE_ORDER[11] == Users && WIPE_ORDER[12] == Settings;
  }

  /** When a table's turn comes, nothing refers to its rows any more but what cascades. */
  lemma ClearInOrder(d: Database, i: nat)
    requires ForeignKeysHold(d) && i < |WIPE_ORDER| && forall j | 0 <= j < i :: IsEmpty(d, WIPE_ORDER[j])
    ensures var r := Clear(d, WIPE_ORDER[i]);
            r.Ok? && ForeignKeysHold(r.value) && r.value.tagOptions == d.tagOptions && r.value.tokens == d.tokens &&
            forall j | 0 <= j <= i :: IsEmpty(r.value, WIPE_ORDER[j])
  {
    var t := WIPE_ORDER[i];
    assert t == Users ==> IsEmpty(d, WIPE_ORDER[3]);
    ClearKeepsKeys(d, t);
    ClearEmpties(d, t);
    ClearKeepsOthers(d, t);
    forall j | 0 <= j < i ensures IsEmpty(Clear(d, t).value, WIPE_ORDER[j]) {
      ClearKeepsEmpty(d, t, WIPE_ORDER[j]);
    }
  }

  /** In its order the wipe never meets a foreign key, and leaves nothing but tag options and tokens. */
  method Wipe(db: Database) returns (tx: Outcome<Database>, ghost trace: seq<Database>)
    requires ForeignKeysHold(db)
    ensures tx == Ok(Wiped(db))
    ensures |trace| == |WIPE_ORDER| + 1 && trace[0] == db && forall i | 0 <= i < |trace| :: ForeignKeysHold(trace[i])
    ensures forall i | 0 <= i < |WIPE_ORDER| :: Clear(trace[i], WIPE_ORDER[i]) == Ok(trace[i + 1])
  {
    var d := db;
    trace := [d];
    for i := 0 to |WIPE_ORDER|
      invariant ForeignKeysHold(d) && d.tagOptions == db.tagOptions && d.tokens == db.tokens
      invariant forall j | 0 <= j < i :: IsEmpty(d, WIPE_ORDER[j])
      invariant |trace| == i + 1 && trace[0] == db && trace[i] == d && forall j | 0 <= j <= i :: ForeignKeysHold(trace[j])
      invariant forall j | 0 <= j < i :: Clear(trace[j], WIPE_ORDER[j]) == Ok(trace[j + 1])
    {
      ClearInOrder(d, i);
      var r := Clear(d, WIPE_ORDER[i]);
      d := r.value;
      trace := trace + [d];
    }
    forall t: Table ensures IsEmpty(d, t) {
      WipeIsComplete(t);
    }
    AllEmptyIsWiped(d, db);
    tx := Ok(d);
  }

  /** The order matters: wiping the users first fails exactly when a user has acknowledged an alert. */
  lemma UsersFirstFailsIff(db: Database)
    requires ForeignKeysHold(db)
    ensures Clear(db, Users).Err? <==> exists a :: a in db.alerts && db.alerts[a].acknowledgedBy.Some?
  {
    if a :| a in db.alerts && db.alerts[a].acknowledgedBy.Some? {
      assert db.alerts[a].acknowledgedBy.value in db.users.Keys;
    }
  }

  // ---------- the inserts ----------

  /** Distinct keys, every row admitted by its checks and foreign keys, no two rows with the same unique value. */
  ghost predicate Loads<R>(rows: seq<(Id, R)>, admits: (Id, R) -> bool, clash: (R, R) -> bool) {
    DistinctKeys(rows) && (forall i | 0 <= i < |rows| :: admits(rows[i].0, rows[i].1)) &&
    forall i, j | 0 <= i < j < |rows| :: !clash(rows[i].1, rows[j].1)
  }

  predicate Clashes<R>(t: map<Id, R>, r: R, clash: (R, R) -> bool) {
    exists o | o in t :: clash(t[o], r)
  }

  lemma LoadsOneMore<R>(rows: seq<(Id, R)>, last: (Id, R), admits: (Id, R) -> bool, clash: (R, R) -> bool)
    requires Loads(rows, admits, clash) && last.0 !in TableOf(rows) && admits(last.0, last.1) && !Clashes(TableOf(rows), last.1, clash)
    ensures Loads(rows + [last], admits, clash)
  {
    var all := rows + [last];
    forall i | 0 <= i < |rows| ensures all[i].0 != last.0 && !clash(all[i].1, last.1) {
      KeyIn(rows, i);
    }
  }

  lemma LoadsNoMore<R>(rows: seq<(Id, R)>, last: (Id, R), admits: (Id, R) -> bool, clash: (R, R) -> bool)
    requires last.0 in TableOf(rows) || Clashes(TableOf(rows), last.1, clash) || !admits(last.0, last.1)
    ensures !Loads(rows + [last], admits, clash)
  {
    var all := rows + [last];
    assert all[|rows|] == last;
    if admits(last.0, last.1) {
      var k :| k in TableOf(rows) && (k == last.0 || clash(TableOf(rows)[k], last.1));
      var i := RowIn(rows, k);
      assert all[i] == rows[i];
    }
  }

  /** The table after each row, up to the one that was refused. */
  ghost predicate Passes<R>(trace: seq<map<Id, R>>, rows: seq<(Id, R)>, admits: (Id, R) -> bool) {
    1 <= |trace| <= |rows| + 1 && (forall i | 0 <= i < |trace| :: trace[i] == TableOf(rows[..i])) &&
    forall i, k | 0 <= i < |trace| && k in trace[i] :: admits(k, trace[i][k])
  }

  lemma PassesOneMore<R>(trace: seq<map<Id, R>>, rows: seq<(Id, R)>, admits: (Id, R) -> bool)
    requires Passes(trace, rows, admits) && |trace| <= |rows|
    requires var (k, r) := rows[|trace| - 1]; admits(k, r)
    ensures var (k, r) := rows[|trace| - 1]; Passes(trace + [trace[|trace| - 1][k := r]], rows, admits)
  {
    var n := |trace|;
    var (k, r) := rows[n - 1];
    assert rows[..n][..n - 1] == rows[..n - 1];
    var t := trace[n - 1][k := r];
    assert t == TableOf(rows[..n]);
    forall j | j in t ensures admits(j, t[j]) {
      assert j != k ==> j in trace[n - 1];
    }
  }

  /** The insert loop of one table, from empty; the first row that violates a constraint stops it. */
  method InsertRows<R>(rows: seq<(Id, R)>, admits: (Id, R) -> bool, clash: (R, R) -> bool)
    returns (table: Outcome<map<Id, R>>, ghost trace: seq<map<Id, R>>)
    ensures table.Ok? <==> Loads(rows, admits, clash)
    ensures Passes(trace, rows, admits)
    ensures table.Ok? ==> |trace| == |rows| + 1 && table.value == trace[|rows|] == TableOf(rows)
  {
    var t: map<Id, R> := map[];
    trace := [t];
    for i := 0 to |rows|
      invariant t == TableOf(rows[..i]) && Loads(rows[..i], admits, clash)
      invariant Passes(trace, rows, admits) && |trace| == i + 1 && trace[i] == t
    {
      var (k, r) := rows[i];
      assert rows[..i + 1] == rows[..i] + [rows[i]] && rows[..i + 1][..i] == rows[..i];
      if k in t || Clashes(t, r, clash) || !admits(k, r) {
        LoadsNoMore(rows[..i], rows[i], admits, clash);
        return Err("constraint failed"), trace;
      }
      LoadsOneMore(rows[..i], rows[i], admits, clash);
      PassesOneMore(trace, rows, admits);
      t := t[k := r];
      trace := trace + [t];
    }
    assert rows[..|rows|] == rows;
    table := Ok(t);
  }

  predicate UserOk(u: User) {
    u.role in {"admin", "operator", "viewer"} && u.status in {"active", "suspended"}
  }

  predicate RuleOk(r: Rule) {
    r.operator in {"AND", "OR"} && r.severity in {"critical", "warning", "info"}
  }

  predicate CheckOk(c: Check, targets: set<Id>) {
    c.targetId in targets && !c.kind.Unknown?
  }

  predicate ConditionOk(c: RuleCondition, rules: set<Id>, checks: set<Id>) {
    c.ruleId in rules && c.checkId in checks
  }

  predicate RecipientOk(r: (Id, Id), targets: set<Id>, users: set<Id>) {
    r.0 in targets && r.1 in users
  }

  function IdsOf<R>(rows: seq<(Id, R)>): set<Id> {
    TableOf(rows).Keys
  }

  /** What the constraints of the schema ask of the backup's rows, table by table. */
  ghost predicate UsersLoad(data: Data) {
    Loads(data.users, (k: Id, u: User) => UserOk(u), (u: User, v: User) => u.username == v.username)
  }

  ghost predicate RulesLoad(data: Data) {
    Loads(data.rules, (k: Id, r: Rule) => RuleOk(r), (r: Rule, q: Rule) => false)
  }

  ghost predicate TargetsLoad(data: Data) {
    Loads(data.targets, (k: Id, t: TargetCopy) => true, (t: TargetCopy, u: TargetCopy) => t.name == u.name)
  }

  ghost predicate ChecksLoad(data: Data) {
    var targets := IdsOf(data.targets);
    Loads(data.checks, (k: Id, c: Check) => CheckOk(c, targets), (c: Check, d: Check) => false)
  }

  ghost predicate RecipientsLoad(data: Data) {
    (forall i | 0 <= i < |data.recipients| :: RecipientOk(data.recipients[i], IdsOf(data.targets), IdsOf(data.users))) &&
    forall i, j | 0 <= i < j < |data.recipients| :: data.recipients[i] != data.recipients[j]
  }

  ghost predicate ConditionsLoad(data: Data) {
    var rules, checks := IdsOf(data.rules), IdsOf(data.checks);
    Loads(data.conditions, (k: Id, c: RuleCondition) => ConditionOk(c, rules, checks), (c: RuleCondition, d: RuleCondition) => false)
  }

  ghost predicate StatesLoad(data: Data) {
    var rules := IdsOf(data.rules);
    Loads(data.states, (k: Id, s: RuleState) => k in rules, (s: RuleState, q: RuleState) => false)
  }

  ghost predicate PausesLoad(data: Data) {
    var targets := IdsOf(data.targets);
    Loads(data.pauses, (k: Id, p: Pause) => p.targetId in targets, (p: Pause, q: Pause) => false)
  }

  ghost predicate Coherent(data: Data) {
    UsersLoad(data) && RulesLoad(data) && TargetsLoad(data) && ChecksLoad(data) && RecipientsLoad(data) &&
    ConditionsLoad(data) && StatesLoad(data) && PausesLoad(data)
  }

  method InsertRecipients(rows: seq<(Id, Id)>, targets: set<Id>, users: set<Id>)
    returns (recipients: Outcome<set<(Id, Id)>>, ghost trace: seq<set<(Id, Id)>>)
    ensures recipients.Ok? <==> (forall i | 0 <= i < |rows| :: RecipientOk(rows[i], targets, users)) &&
                                forall i, j | 0 <= i < j < |rows| :: rows[i] != rows[j]
    ensures 1 <= |trace| <= |rows| + 1 && forall i | 0 <= i < |trace| :: trace[i] == (set r | r in rows[..i]) && RecipientKeys(trace[i], targets, users)
    ensures recipients.Ok? ==> |trace| == |rows| + 1 && recipients.value == trace[|rows|] == set r | r in rows
  {
    var s: set<(Id, Id)> := {};
    trace := [s];
    for i := 0 to |rows|
      invariant |trace| == i + 1 && trace[i] == s
      invariant forall j | 0 <= j <= i :: trace[j] == (set r | r in rows[..j]) && RecipientKeys(trace[j], targets, users)
      invariant forall j | 0 <= j < i :: RecipientOk(rows[j], targets, users)
      invariant forall j, k | 0 <= j < k < i :: rows[j] != rows[k]
    {
      if rows[i] in s {
        ghost var j :| 0 <= j < i && rows[..i][j] == rows[i];
        return Err("UNIQUE constraint failed"), trace;
      }
      if !RecipientOk(rows[i], targets, users) {
        return Err("FOREIGN KEY constraint failed"), trace;
      }
      forall j | 0 <= j < i ensures rows[j] != rows[i] {
        assert rows[..i][j] in s;
      }
      s := s + {rows[i]};
      assert rows[..i + 1] == rows[..i] + [rows[i]];
      trace := trace + [s];
    }
    assert rows[..|rows|] == rows;
    recipients := Ok(s);
  }

  function TargetsFrom(copies: map<Id, TargetCopy>): map<Id, Target> {
    map t | t in copies :: TargetFrom(copies[t])
  }

  function ConditionsFrom(rows: map<Id, RuleCondition>): map<Id, RuleCondition> {
    map c | c in rows :: ConditionFrom(rows[c])
  }

  function Restored(db: Database, data: Data): Database {
    Wiped(db).(users := TableOf(data.users), settings := data.settings, rules := TableOf(data.rules),
               targets := TargetsFrom(TableOf(data.targets)), checks := TableOf(data.checks),
               conditions := ConditionsFrom(TableOf(data.conditions)), states := TableOf(data.states),
               recipients := (set r | r in data.recipients), pauses := TableOf(data.pauses))
  }

  // ---------- what a backup must look like ----------

  ghost predicate HasId<R>(rows: seq<(Id, R)>, id: Id) {
    exists i | 0 <= i < |rows| :: rows[i].0 == id
  }

  lemma HasIdIff<R>(rows: seq<(Id, R)>, id: Id)
    ensures HasId(rows, id) <==> id in IdsOf(rows)
  {
    if HasId(rows, id) {
      var i :| 0 <= i < |rows| && rows[i].0 == id;
      KeyIn(rows, i);
    }
    if id in IdsOf(rows) {
      var i := RowIn(rows, id);
    }
  }

  ghost predicate UsersFit(users: seq<(Id, User)>) {
    (forall i, j | 0 <= i < j < |users| :: users[i].0 != users[j].0 && users[i].1.username != users[j].1.username) &&
    forall i | 0 <= i < |users| ::
      (users[i].1.role == "admin" || users[i].1.role == "operator" || users[i].1.role == "viewer") &&
      (users[i].1.status == "active" || users[i].1.status == "suspended")
  }

  ghost predicate RulesFit(rules: seq<(Id, Rule)>) {
    (forall i, j | 0 <= i < j < |rules| :: rules[i].0 != rules[j].0) &&
    forall i | 0 <= i < |rules| ::
      (rules[i].1.operator == "AND" || rules[i].1.operator == "OR") &&
      (rules[i].1.severity == "critical" || rules[i].1.severity == "warning" || rules[i].1.severity == "info")
  }

  ghost predicate TargetsFit(targets: seq<(Id, TargetCopy)>) {
    forall i, j | 0 <= i < j < |targets| :: targets[i].0 != targets[j].0 && targets[i].1.name != targets[j].1.name
  }

  ghost predicate ChecksFit(checks: seq<(Id, Check)>, targets: seq<(Id, TargetCopy)>) {
    (forall i, j | 0 <= i < j < |checks| :: checks[i].0 != checks[j].0) &&
    forall i | 0 <= i < |checks| :: HasId(targets, checks[i].1.targetId) && !checks[i].1.kind.Unknown?
  }

  ghost predicate RecipientsFit(recipients: seq<(Id, Id)>, targets: seq<(Id, TargetCopy)>, users: seq<(Id, User)>) {
    (forall i, j | 0 <= i < j < |recipients| :: recipients[i] != recipients[j]) &&
    forall i | 0 <= i < |recipients| :: HasId(targets, recipients[i].0) && HasId(users, recipients[i].1)
  }

  ghost predicate ConditionsFit(conditions: seq<(Id, RuleCondition)>, rules: seq<(Id, Rule)>, checks: seq<(Id, Check)>) {
    (forall i, j | 0 <= i < j < |conditions| :: conditions[i].0 != conditions[j].0) &&
    forall i | 0 <= i < |conditions| :: HasId(rules, conditions[i].1.ruleId) && HasId(checks, conditions[i].1.checkId)
  }

  ghost predicate StatesFit(states: seq<(Id, RuleState)>, rules: seq<(Id, Rule)>) {
    (forall i, j | 0 <= i < j < |states| :: states[i].0 != states[j].0) && forall i | 0 <= i < |states| :: HasId(rules, states[i].0)
  }

  ghost predicate PausesFit(pauses: seq<(Id, Pause)>, targets: seq<(Id, TargetCopy)>) {
    (forall i, j | 0 <= i < j < |pauses| :: pauses[i].0 != pauses[j].0) && forall i | 0 <= i < |pauses| :: HasId(targets, pauses[i].1.targetId)
  }

  lemma RootsFitIff(data: Data)
    ensures UsersLoad(data) <==> UsersFit(data.users)
    ensures RulesLoad(data) <==> RulesFit(data.rules)
    ensures TargetsLoad(data) <==> TargetsFit(data.targets)
  {}

  lemma ChecksAndPausesFitIff(data: Data)
    ensures ChecksLoad(data) <==> ChecksFit(data.checks, data.targets)
    ensures PausesLoad(data) <==> PausesFit(data.pauses, data.targets)
  {
    assert forall id :: HasId(data.targets, id) <==> id in IdsOf(data.targets) by {
      forall id ensures HasId(data.targets, id) <==> id in IdsOf(data.targets) { HasIdIff(data.targets, id); }
    }
  }

  lemma LeavesFitIff(data: Data)
    ensures RecipientsLoad(data) <==> RecipientsFit(data.recipients, data.targets, data.users)
    ensures ConditionsLoad(data) <==> ConditionsFit(data.conditions, data.rules, data.checks)
    ensures StatesLoad(data) <==> StatesFit(data.states, data.rules)
  {
    forall id ensures HasId(data.targets, id) <==> id in IdsOf(data.targets) { HasIdIff(data.targets, id); }
    forall id ensures HasId(data.users, id) <==> id in IdsOf(data.users) { HasIdIff(data.users, id); }
    forall id ensures HasId(data.rules, id) <==> id in IdsOf(data.rules) { HasIdIff(data.rules, id); }
    forall id ensures HasId(data.checks, id) <==> id in IdsOf(data.checks) { HasIdIff(data.checks, id); }
  }

  /**
   * Row by row: a backup is coherent exactly if no table has an id, a user name, a target name or a recipient twice, all
   * values are the schema's, and every row a row refers to is in the backup. (The rule of a target need not be.)
   */
  lemma CoherentIff(data: Data)
    ensures Coherent(data) <==>
            UsersFit(data.users) && RulesFit(data.rules) && TargetsFit(data.targets) && ChecksFit(data.checks, data.targets) &&
            RecipientsFit(data.recipients, data.targets, data.users) && ConditionsFit(data.conditions, data.rules, data.checks) &&
            StatesFit(data.states, data.rules) && PausesFit(data.pauses, data.targets)
  {
    RootsFitIff(data);
    ChecksAndPausesFitIff(data);
    LeavesFitIff(data);
  }

  // ---------- table after table ----------

  /** What the insert loops leave behind: each table after each of its rows; a loop not reached leaves nothing. */
  datatype Roots = Roots(users: seq<map<Id, User>>, rules: seq<map<Id, Rule>>, targets: seq<map<Id, TargetCopy>>,
                         checks: seq<map<Id, Check>>)

  datatype Leaves = Leaves(recipients: seq<set<(Id, Id)>>, conditions: seq<map<Id, RuleCondition>>,
                           states: seq<map<Id, RuleState>>, pauses: seq<map<Id, Pause>>)

  ghost predicate Prefixes<R>(trace: seq<map<Id, R>>, rows: seq<(Id, R)>) {
    |trace| <= |rows| + 1 && forall i | 0 <= i < |trace| :: trace[i] == TableOf(rows[..i])
  }

  ghost predicate RecipientPrefixes(trace: seq<set<(Id, Id)>>, rows: seq<(Id, Id)>) {
    |trace| <= |rows| + 1 && forall i | 0 <= i < |trace| :: trace[i] == set r | r in rows[..i]
  }

  /** Users, rules, targets and checks passed through their rows one by one; each loop began when the one before was done. */
  ghost predicate RootsInTurn(log: Roots, data: Data) {
    Prefixes(log.users, data.users) && Prefixes(log.rules, data.rules) && Prefixes(log.targets, data.targets) &&
    Prefixes(log.checks, data.checks) && (log.rules != [] ==> |log.users| == |data.users| + 1) &&
    (log.targets != [] ==> |log.rules| == |data.rules| + 1) && (log.checks != [] ==> |log.targets| == |data.targets| + 1)
  }

  /** So did the tables that refer to them. */
  ghost predicate LeavesInTurn(log: Leaves, data: Data) {
    RecipientPrefixes(log.recipients, data.recipients) && Prefixes(log.conditions, data.conditions) &&
    Prefixes(log.states, data.states) && Prefixes(log.pauses, data.pauses) &&
    (log.conditions != [] ==> |log.recipients| == |data.recipients| + 1) &&
    (log.states != [] ==> |log.conditions| == |data.conditions| + 1) && (log.pauses != [] ==> |log.states| == |data.states| + 1)
  }

  ghost predicate CheckKeysInTurn(log: Roots, data: Data) {
    forall i | 0 <= i < |log.checks| :: CheckKeys(log.checks[i], IdsOf(data.targets))
  }

  ghost predicate RecipientKeysInTurn(trace: seq<set<(Id, Id)>>, data: Data) {
    forall i | 0 <= i < |trace| :: RecipientKeys(trace[i], IdsOf(data.targets), IdsOf(data.users))
  }

  ghost predicate ConditionKeysInTurn(trace: seq<map<Id, RuleCondition>>, data: Data) {
    forall i | 0 <= i < |trace| :: ConditionKeys(trace[i], IdsOf(data.rules), IdsOf(data.checks))
  }

  ghost predicate StateKeysInTurn(trace: seq<map<Id, RuleState>>, data: Data) {
    forall i | 0 <= i < |trace| :: trace[i].Keys <= IdsOf(data.rules)
  }

  ghost predicate PauseKeysInTurn(trace: seq<map<Id, Pause>>, data: Data) {
    forall i | 0 <= i < |trace| :: PauseKeys(trace[i], IdsOf(data.targets))
  }

  /** After each row, the rows refer to rows of the tables inserted before. */
  ghost predicate KeysInTurn(log: Leaves, data: Data) {
    RecipientKeysInTurn(log.recipients, data) && ConditionKeysInTurn(log.conditions, data) &&
    StateKeysInTurn(log.states, data) && PauseKeysInTurn(log.pauses, data)
  }

  /** Users, rules, targets and checks. */
  method InsertRoots(wiped: Database, data: Data) returns (tx: Outcome<Database>, ghost log: Roots)
    ensures tx.Ok? <==> UsersLoad(data) && RulesLoad(data) && TargetsLoad(data) && ChecksLoad(data)
    ensures tx.Ok? ==> tx.value == wiped.(users := TableOf(data.users), settings := data.settings, rules := TableOf(data.rules),
                                          targets := TargetsFrom(TableOf(data.targets)), checks := TableOf(data.checks))
    ensures RootsInTurn(log, data) && CheckKeysInTurn(log, data)
    ensures tx.Ok? ==> |log.checks| == |data.checks| + 1
  {
    log := Roots([], [], [], []);
    var users, us := InsertRows(data.users, (k: Id, u: User) => UserOk(u), (u: User, v: User) => u.username == v.username);
    log := log.(users := us);
    if users.Err? { return Err(users.reason), log; }
    var rules, rs := InsertRows(data.rules, (k: Id, r: Rule) => RuleOk(r), (r: Rule, q: Rule) => false);
    log := log.(rules := rs);
    if rules.Err? { return Err(rules.reason), log; }
    var copies, ts := InsertRows(data.targets, (k: Id, t: TargetCopy) => true, (t: TargetCopy, u: TargetCopy) => t.name == u.name);
    log := log.(targets := ts);
    if copies.Err? { return Err(copies.reason), log; }
    var targetIds := copies.value.Keys;
    var checks, cs := InsertRows(data.checks, (k: Id, c: Check) => CheckOk(c, targetIds), (c: Check, d: Check) => false);
    log := log.(checks := cs);
    if checks.Err? { return Err(checks.reason), log; }
    tx := Ok(wiped.(users := users.value, settings := data.settings, rules := rules.value,
                    targets := TargetsFrom(copies.value), checks := checks.value));
  }

  method InsertConditions(data: Data, rules: set<Id>, checks: set<Id>)
    returns (conditions: Outcome<map<Id, RuleCondition>>, ghost trace: seq<map<Id, RuleCondition>>)
    requires rules == IdsOf(data.rules) && checks == IdsOf(data.checks)
    ensures conditions.Ok? <==> ConditionsLoad(data)
    ensures Prefixes(trace, data.conditions) && ConditionKeysInTurn(trace, data)
    ensures conditions.Ok? ==> |trace| == |data.conditions| + 1 && conditions.value == TableOf(data.conditions)
  {
    conditions, trace := InsertRows(data.conditions, (k: Id, c: RuleCondition) => ConditionOk(c, rules, checks), (c: RuleCondition, d: RuleCondition) => false);
  }

  method InsertStates(data: Data, rules: set<Id>)
    returns (states: Outcome<map<Id, RuleState>>, ghost trace: seq<map<Id, RuleState>>)
    requires rules == IdsOf(data.rules)
    ensures states.Ok? <==> StatesLoad(data)
    ensures Prefixes(trace, data.states) && StateKeysInTurn(trace, data)
    ensures states.Ok? ==> |trace| == |data.states| + 1 && states.value == TableOf(data.states)
  {
    states, trace := InsertRows(data.states, (k: Id, s: RuleState) => k in rules, (s: RuleState, q: RuleState) => false);
  }

  method InsertPauses(data: Data, targets: set<Id>)
    returns (pauses: Outcome<map<Id, Pause>>, ghost trace: seq<map<Id, Pause>>)
    requires targets == IdsOf(data.targets)
    ensures pauses.Ok? <==> PausesLoad(data)
    ensures Prefixes(trace, data.pauses) && PauseKeysInTurn(trace, data)
    ensures pauses.Ok? ==> |trace| == |data.pauses| + 1 && pauses.value == TableOf(data.pauses)
  {
    pauses, trace := InsertRows(data.pauses, (k: Id, p: Pause) => p.targetId in targets, (p: Pause, q: Pause) => false);
  }

  /** The tables that refer to them: recipients, conditions, states and pauses. */
  method InsertLeaves(tx: Database, data: Data) returns (done: Outcome<Database>, ghost log: Leaves)
    requires tx.users.Keys == IdsOf(data.users) && tx.rules.Keys == IdsOf(data.rules)
    requires tx.targets.Keys == IdsOf(data.targets) && tx.checks.Keys == IdsOf(data.checks)
    ensures done.Ok? <==> RecipientsLoad(data) && ConditionsLoad(data) && StatesLoad(data) && PausesLoad(data)
    ensures done.Ok? ==> done.value == tx.(conditions := ConditionsFrom(TableOf(data.conditions)), states := TableOf(data.states),
                                           recipients := (set r | r in data.recipients), pauses := TableOf(data.pauses))
    ensures LeavesInTurn(log, data) && KeysInTurn(log, data)
    ensures done.Ok? ==> |log.pauses| == |data.pauses| + 1
  {
    log := Leaves([], [], [], []);
    var recipients, ps := InsertRecipients(data.recipients, tx.targets.Keys, tx.users.Keys);
    log := log.(recipients := ps);
    if recipients.Err? { return Err(recipients.reason), log; }
    var conditions, ds := InsertConditions(data, tx.rules.Keys, tx.checks.Keys);
    log := log.(conditions := ds);
    if conditions.Err? { return Err(conditions.reason), log; }
    var states, ss := InsertStates(data, tx.rules.Keys);
    log := log.(states := ss);
    if states.Err? { return Err(states.reason), log; }
    var pauses, hs := InsertPauses(data, tx.targets.Keys);
    log := log.(pauses := hs);
    if pauses.Err? { return Err(pauses.reason), log; }
    done := Ok(tx.(conditions := ConditionsFrom(conditions.value), states := states.value,
                   recipients := recipients.value, pauses := pauses.value));
  }

  /** Root to leaf: each table is inserted when the tables it refers to are complete. */
  method InsertAll(wiped: Database, data: Data) returns (tx: Outcome<Database>, ghost roots: Roots, ghost leaves: Leaves)
    ensures tx.Ok? <==> Coherent(data)
    ensures tx.Ok? ==> tx.value == wiped.(
              users := TableOf(data.users), settings := data.settings, rules := TableOf(data.rules),
              targets := TargetsFrom(TableOf(data.targets)), checks := TableOf(data.checks),
              conditions := ConditionsFrom(TableOf(data.conditions)), states := TableOf(data.states),
              recipients := (set r | r in data.recipients), pauses := TableOf(data.pauses))
    ensures RootsInTurn(roots, data) && CheckKeysInTurn(roots, data) && LeavesInTurn(leaves, data) && KeysInTurn(leaves, data)
    ensures leaves != Leaves([], [], [], []) ==> |roots.checks| == |data.checks| + 1
    ensures tx.Ok? ==> |leaves.pauses| == |data.pauses| + 1
  {
    leaves := Leaves([], [], [], []);
    tx, roots := InsertRoots(wiped, data);
    if tx.Ok? {
      tx, leaves := InsertLeaves(tx.value, data);
    }
  }

  /** A moment of the inserts: how many rows of each table are in. */
  datatype Moment = Moment(users: nat, rules: nat, targets: nat, checks: nat, recipients: nat, conditions: nat, states: nat, pauses: nat)

  predicate Until<T>(n: nat, trace: seq<T>) {
    n == 0 || n < |trace|
  }

  /** The moment lies in the logs: a table has rows only when the tables before it are done. */
  ghost predicate Reached(roots: Roots, leaves: Leaves, data: Data, m: Moment) {
    Until(m.users, roots.users) && Until(m.rules, roots.rules) && Until(m.targets, roots.targets) && Until(m.checks, roots.checks) &&
    Until(m.recipients, leaves.recipients) && Until(m.conditions, leaves.conditions) && Until(m.states, leaves.states) && Until(m.pauses, leaves.pauses) &&
    (m.rules > 0 ==> m.users == |data.users|) && (m.targets > 0 ==> m.users == |data.users| && m.rules == |data.rules|) &&
    (m.checks > 0 ==> m.users == |data.users| && m.rules == |data.rules| && m.targets == |data.targets|) &&
    (m.recipients > 0 ==> m.users == |data.users| && m.targets == |data.targets|) &&
    (m.conditions > 0 ==> m.rules == |data.rules| && m.checks == |data.checks|) &&
    (m.states > 0 ==> m.rules == |data.rules|) && (m.pauses > 0 ==> m.targets == |data.targets|)
  }

  function At<R>(trace: seq<map<Id, R>>, n: nat): map<Id, R> {
    if n < |trace| then trace[n] else map[]
  }

  function RecipientsAt(trace: seq<set<(Id, Id)>>, n: nat): set<(Id, Id)> {
    if n < |trace| then trace[n] else {}
  }

  /** The transaction's tables at that moment, as the loops left them. */
  function During(db: Database, roots: Roots, leaves: Leaves, m: Moment): Database {
    Wiped(db).(users := At(roots.users, m.users), rules := At(roots.rules, m.rules), targets := TargetsFrom(At(roots.targets, m.targets)),
               checks := At(roots.checks, m.checks), conditions := ConditionsFrom(At(leaves.conditions, m.conditions)),
               states := At(leaves.states, m.states), pauses := At(leaves.pauses, m.pauses),
               recipients := RecipientsAt(leaves.recipients, m.recipients))
  }

  /** Empty before its first row, complete after its last. */
  lemma AtTheEnds<R>(trace: seq<map<Id, R>>, rows: seq<(Id, R)>)
    requires Prefixes(trace, rows)
    ensures At(trace, 0) == map[] && (Until(|rows|, trace) ==> At(trace, |rows|) == TableOf(rows))
  {
    assert rows[..|rows|] == rows;
  }

  lemma CheckKeysAt(roots: Roots, leaves: Leaves, data: Data, m: Moment)
    requires RootsInTurn(roots, data) && CheckKeysInTurn(roots, data) && Reached(roots, leaves, data, m)
    ensures CheckKeys(At(roots.checks, m.checks), At(roots.targets, m.targets).Keys)
  {
    AtTheEnds(roots.checks, data.checks);
    AtTheEnds(roots.targets, data.targets);
  }

  lemma RecipientKeysAt(roots: Roots, leaves: Leaves, data: Data, m: Moment)
    requires RootsInTurn(roots, data) && LeavesInTurn(leaves, data) && KeysInTurn(leaves, data) && Reached(roots, leaves, data, m)
    ensures RecipientKeys(RecipientsAt(leaves.recipients, m.recipients), At(roots.targets, m.targets).Keys, At(roots.users, m.users).Keys)
  {
    AtTheEnds(roots.targets, data.targets);
    AtTheEnds(roots.users, data.users);
  }

  lemma ConditionKeysAt(roots: Roots, leaves: Leaves, data: Data, m: Moment)
    requires RootsInTurn(roots, data) && LeavesInTurn(leaves, data) && KeysInTurn(leaves, data) && Reached(roots, leaves, data, m)
    ensures ConditionKeys(ConditionsFrom(At(leaves.conditions, m.conditions)), At(roots.rules, m.rules).Keys, At(roots.checks, m.checks).Keys)
  {
    AtTheEnds(leaves.conditions, data.conditions);
    AtTheEnds(roots.rules, data.rules);
    AtTheEnds(roots.checks, data.checks);
  }

  lemma StateAndPauseKeysAt(roots: Roots, leaves: Leaves, data: Data, m: Moment)
    requires RootsInTurn(roots, data) && LeavesInTurn(leaves, data) && KeysInTurn(leaves, data) && Reached(roots, leaves, data, m)
    ensures At(leaves.states, m.states).Keys <= At(roots.rules, m.rules).Keys
    ensures PauseKeys(At(leaves.pauses, m.pauses), At(roots.targets, m.targets).Keys)
  {
    AtTheEnds(leaves.states, data.states);
    AtTheEnds(leaves.pauses, data.pauses);
    AtTheEnds(roots.rules, data.rules);
    AtTheEnds(roots.targets, data.targets);
  }

  /** Whatever the data, and whether or not a later row is refused: after any number of rows no foreign key dangles. */
  lemma EveryMomentKeepsKeys(db: Database, data: Data, roots: Roots, leaves: Leaves, m: Moment)
    requires RootsInTurn(roots, data) && CheckKeysInTurn(roots, data) && LeavesInTurn(leaves, data) && KeysInTurn(leaves, data)
    requires Reached(roots, leaves, data, m)
    ensures ForeignKeysHold(During(db, roots, leaves, m))
  {
    CheckKeysAt(roots, leaves, data, m);
    RecipientKeysAt(roots, leaves, data, m);
    ConditionKeysAt(roots, leaves, data, m);
    StateAndPauseKeysAt(roots, leaves, data, m);
    assert TargetsFrom(At(roots.targets, m.targets)).Keys == At(roots.targets, m.targets).Keys;
  }

  class Store {
    var db: Database

    constructor (db: Database)
      ensures this.db == db
    {
      this.db := db;
    }

    /** Succeeds exactly on coherent data, otherwise the store is as it was; the logs of the wipe and of the inserts are those of its loops. */
    method RestoreBackup(data: Data)
      returns (done: Outcome<()>, ghost wipes: seq<Database>, ghost roots: Roots, ghost leaves: Leaves)
      requires ForeignKeysHold(db)
      modifies this
      ensures done.Ok? <==> Coherent(data)
      ensures db == if Coherent(data) then Restored(old(db), data) else old(db)
      ensures |wipes| == |WIPE_ORDER| + 1 && wipes[0] == old(db) && forall i | 0 <= i < |wipes| :: ForeignKeysHold(wipes[i])
      ensures forall m | Reached(roots, leaves, data, m) :: ForeignKeysHold(During(old(db), roots, leaves, m))
      ensures RootsInTurn(roots, data) && LeavesInTurn(leaves, data) && (done.Ok? ==> |leaves.pauses| == |data.pauses| + 1)
    {
      var tx;
      tx, wipes := Wipe(db);
      tx, roots, leaves := InsertAll(tx.value, data);
      forall m | Reached(roots, leaves, data, m) ensures ForeignKeysHold(During(db, roots, leaves, m)) {
        EveryMomentKeepsKeys(db, data, roots, leaves, m);
      }
      if tx.Err? {
        return Err(tx.reason), wipes, roots, leaves;
      }
      db := tx.value;
      done := Ok(());
    }
  }

  // ---------- export and restore are inverse ----------

  /** The uniqueness and CHECK constraints of the schema. */
  ghost predicate ConstraintsHold(db: Database) {
    (forall u | u in db.users :: UserOk(db.users[u])) && (forall r | r in db.rules :: RuleOk(db.rules[r])) &&
    (forall c | c in db.checks :: !db.checks[c].kind.Unknown?) &&
    (forall u, v | u in db.users && v in db.users && u != v :: db.users[u].username != db.users[v].username) &&
    forall t, u | t in db.targets && u in db.targets && t != u :: db.targets[t].name != db.targets[u].name
  }

  /** A listed table loads if its rows are admitted and do not clash. */
  lemma ListingIsLoadable<R>(rows: seq<(Id, R)>, table: map<Id, R>, admits: (Id, R) -> bool, clash: (R, R) -> bool)
    requires Lists(rows, table.Items) && (forall k | k in table :: admits(k, table[k]))
    requires forall k, l | k in table && l in table && k != l :: !clash(table[k], table[l])
    ensures Loads(rows, admits, clash)
  {
    ListingLoads(rows, table);
    assert forall i | 0 <= i < |rows| :: rows[i] in rows;
  }

  lemma ExportLists(db: Database, data: Data)
    requires IsExport(db, data)
    ensures TableOf(data.users) == db.users && TableOf(data.rules) == db.rules && TableOf(data.targets) == Copies(db.targets)
    ensures TableOf(data.checks) == db.checks && TableOf(data.conditions) == db.conditions
    ensures TableOf(data.states) == db.states && TableOf(data.pauses) == db.pauses
    ensures (set r | r in data.recipients) == db.recipients
  {
    ListingLoads(data.users, db.users);
    ListingLoads(data.rules, db.rules);
    ListingLoads(data.targets, Copies(db.targets));
    ListingLoads(data.checks, db.checks);
    ListingLoads(data.conditions, db.conditions);
    ListingLoads(data.states, db.states);
    ListingLoads(data.pauses, db.pauses);
  }

  lemma ExportRootsLoad(db: Database, data: Data)
    requires ConstraintsHold(db) && IsExport(db, data)
    ensures UsersLoad(data) && RulesLoad(data) && TargetsLoad(data)
  {
    ListingIsLoadable(data.users, db.users, (k: Id, u: User) => UserOk(u), (u: User, v: User) => u.username == v.username);
    ListingIsLoadable(data.rules, db.rules, (k: Id, r: Rule) => RuleOk(r), (r: Rule, q: Rule) => false);
    ListingIsLoadable(data.targets, Copies(db.targets), (k: Id, t: TargetCopy) => true, (t: TargetCopy, u: TargetCopy) => t.name == u.name);
  }

  lemma ExportChecksLoad(db: Database, data: Data)
    requires CheckKeys(db.checks, db.targets.Keys) && ConstraintsHold(db) && IsExport(db, data)
    ensures ChecksLoad(data)
  {
    ExportLists(db, data);
    var targets := IdsOf(data.targets);
    assert targets == db.targets.Keys;
    ListingIsLoadable(data.checks, db.checks, (k: Id, c: Check) => CheckOk(c, targets), (c: Check, d: Check) => false);
  }

  lemma ExportConditionsLoad(db: Database, data: Data)
    requires ConditionKeys(db.conditions, db.rules.Keys, db.checks.Keys) && IsExport(db, data)
    ensures ConditionsLoad(data)
  {
    ExportLists(db, data);
    var rules, checks := IdsOf(data.rules), IdsOf(data.checks);
    ListingIsLoadable(data.conditions, db.conditions, (k: Id, c: RuleCondition) => ConditionOk(c, rules, checks), (c: RuleCondition, d: RuleCondition) => false);
  }

  lemma ExportStatesLoad(db: Database, data: Data)
    requires db.states.Keys <= db.rules.Keys && IsExport(db, data)
    ensures StatesLoad(data)
  {
    ExportLists(db, data);
    var rules := IdsOf(data.rules);
    ListingIsLoadable(data.states, db.states, (k: Id, s: RuleState) => k in rules, (s: RuleState, q: RuleState) => false);
  }

  lemma ExportPausesLoad(db: Database, data: Data)
    requires PauseKeys(db.pauses, db.targets.Keys) && IsExport(db, data)
    ensures PausesLoad(data)
  {
    ExportLists(db, data);
    var targets := IdsOf(data.targets);
    assert targets == db.targets.Keys;
    ListingIsLoadable(data.pauses, db.pauses, (k: Id, p: Pause) => p.targetId in targets, (p: Pause, q: Pause) => false);
  }

  lemma ExportRecipientsLoad(db: Database, data: Data)
    requires RecipientKeys(db.recipients, db.targets.Keys, db.users.Keys) && IsExport(db, data)
    ensures RecipientsLoad(data)
  {
    ExportLists(db, data);
    assert IdsOf(data.targets) == db.targets.Keys;
    forall i | 0 <= i < |data.recipients| ensures RecipientOk(data.recipients[i], IdsOf(data.targets), IdsOf(data.users)) {
      assert data.recipients[i] in data.recipients;
    }
  }

  /** What any store exports, any store can restore. */
  lemma ExportIsCoherent(db: Database, data: Data)
    requires ForeignKeysHold(db) && ConstraintsHold(db) && IsExport(db, data)
    ensures Coherent(data)
  {
    ExportRootsLoad(db, data);
    ExportChecksLoad(db, data);
    ExportConditionsLoad(db, data);
    ExportStatesLoad(db, data);
    ExportPausesLoad(db, data);
    ExportRecipientsLoad(db, data);
  }

  /** The condition as stored, or with "AND" where it has no group operator. */
  predicate ComesBackAs(c: RuleCondition, restored: RuleCondition) {
    restored == RuleCondition(c.ruleId, c.checkId, c.field, c.comparator, c.value, c.failCount, c.failWindow, c.sortOrder, c.group,
                              if c.groupOp == "" then "AND" else c.groupOp)
  }

  /** Restoring an export into any store reproduces the exported tables, wipes the monitoring data and keeps tag options and tokens. */
  lemma RestoreReproduces(db: Database, data: Data, into: Database)
    requires IsExport(db, data)
    ensures var e := Restored(into, data);
            e.users == db.users && e.settings == db.settings && e.rules == db.rules && e.checks == db.checks &&
            e.states == db.states && e.recipients == db.recipients && e.pauses == db.pauses &&
            e.targets.Keys == db.targets.Keys &&
            (forall t | t in db.targets :: e.targets[t] == db.targets[t].(notes := None, contacts := None, project := None, location := None)) &&
            e.conditions.Keys == db.conditions.Keys && forall c | c in db.conditions :: ComesBackAs(db.conditions[c], e.conditions[c])
    ensures var e := Restored(into, data);
            e.readings == Readings([], map[], map[]) && e.alerts == map[] && e.audit == map[] && e.sessions == map[] && e.targetTags == {} &&
            e.tagOptions == into.tagOptions && e.tokens == into.tokens
    ensures Restored(into, data).conditions == ConditionsFrom(db.conditions)
  {
    ExportLists(db, data);
  }

  lemma {:induction false} ListedOnce<T>(a: seq<T>, s: set<T>, x: T)
    requires Lists(a, s)
    ensures multiset(a)[x] == if x in s then 1 else 0
  {
    if a != [] {
      var n := |a| - 1;
      assert a == a[..n] + [a[n]];
      ListedOnce(a[..n], s - {a[n]}, x);
    }
  }

  lemma SameListing<T>(a: seq<T>, b: seq<T>, s: set<T>)
    requires Lists(a, s) && Lists(b, s)
    ensures multiset(a) == multiset(b)
  {
    forall x: T ensures multiset(a)[x] == multiset(b)[x] {
      ListedOnce(a, s, x);
      ListedOnce(b, s, x);
    }
  }

  /** Exporting what was restored gives the same rows. */
  lemma ReExportIsSame(db: Database, data: Data, into: Database, again: Data)
    requires IsExport(db, data) && IsExport(Restored(into, data), again)
    ensures again.settings == data.settings
    ensures multiset(again.users) == multiset(data.users) && multiset(again.rules) == multiset(data.rules)
    ensures multiset(again.targets) == multiset(data.targets) && multiset(again.checks) == multiset(data.checks)
    ensures multiset(again.states) == multiset(data.states) && multiset(again.recipients) == multiset(data.recipients)
    ensures multiset(again.pauses) == multiset(data.pauses)
  {
    RestoreReproduces(db, data, into);
    SameListing(again.users, data.users, db.users.Items);
    SameListing(again.rules, data.rules, db.rules.Items);
    SameListing(again.targets, data.targets, Copies(db.targets).Items);
    SameListing(again.checks, data.checks, db.checks.Items);
    SameListing(again.states, data.states, db.states.Items);
    SameListing(again.recipients, data.recipients, db.recipients);
    SameListing(again.pauses, data.pauses, db.pauses.Items);
  }

  /** The conditions come back the same exactly when none lacked its group operator. */
  lemma ReExportConditionsIff(db: Database, data: Data, into: Database, again: Data)
    requires IsExport(db, data) && IsExport(Restored(into, data), again)
    ensures multiset(again.conditions) == multiset(data.conditions) <==> forall c | c in db.conditions :: db.conditions[c].groupOp != ""
  {
    RestoreReproduces(db, data, into);
    if forall c | c in db.conditions :: db.conditions[c].groupOp != "" {
      SameListing(again.conditions, data.conditions, db.conditions.Items);
    }
    if multiset(again.conditions) == multiset(data.conditions) {
      ListingLoads(again.conditions, ConditionsFrom(db.conditions));
      ListingLoads(data.conditions, db.conditions);
      forall c | c in db.conditions ensures db.conditions[c].groupOp != "" {
        assert (c, ConditionFrom(db.conditions[c])) in ConditionsFrom(db.conditions).Items;
        assert (c, ConditionFrom(db.conditions[c])) in again.conditions;
        assert (c, ConditionFrom(db.conditions[c])) in multiset(again.conditions);
        assert (c, ConditionFrom(db.conditions[c])) in data.conditions;
      }
    }
  }
}
