// Rule evaluators interleaved step by step: every SQL statement, lock and channel operation of
// internal/engine/engine.go is one atomic action (the pool has a single connection). Saving a result
// starts an evaluator; evaluators of different checks, rules and runs interleave freely.
module EngineProtocol {
  import opened Schema
  import opened Results
  import opened Verdict
  import opened RuleStates

  const MAX_DISPATCHES := 10

  /**
   * What stays fixed over a run: the enabled rules with their conditions, the stored states at the
   * start, whether the per-rule mutex excludes, and whether statements may fail.
   */
  datatype Config = Config(matches: Matcher, rules: map<Id, seq<RuleCondition>>, start: map<Id, RuleState>,
                           mutexed: bool, faulty: bool)

  /** One condition read by an evaluator, and when. */
  datatype Sample = Sample(value: bool, at: int)

  type Evidence = map<nat, Sample>

  ghost function Values(ev: Evidence): map<nat, bool> {
    map i | i in ev :: ev[i].value
  }

  /** Where an evaluator stands; the names say what it does next. */
  datatype Pc =
    | Fetching
    | Idle
    | Done
    | Waiting(rule: Id, mu: nat)
    | Listing(rule: Id, mu: nat)
    | Reading(rule: Id, mu: nat, ev: Evidence)
    | Comparing(rule: Id, mu: nat, ev: Evidence, to: Health)
    | Inserting(rule: Id, mu: nat, ev: Evidence, from: Health, to: Health)
    | Swapping(rule: Id, mu: nat, ev: Evidence, from: Health, to: Health)
    | Touching(rule: Id, mu: nat, ev: Evidence)
    | Alerting(rule: Id, mu: nat, from: Health, to: Health)
    | Unlocking(rule: Id, mu: nat)

  datatype Evaluator = Evaluator(check: Id, todo: set<Id>, pc: Pc)

  /** `saved` (last save of a check), `changes`, `issued` and `last` only record what happened. */
  datatype State = State(now: int, rd: Readings, saved: map<Id, int>, table: map<Id, RuleState>,
                         mutexOf: map<Id, nat>, mutexes: nat, holder: map<nat, nat>,
                         evals: seq<Evaluator>, inflight: nat,
                         changes: seq<Change>, issued: seq<Change>, last: map<Id, Evidence>)

  /** One atomic step of an evaluator. */
  datatype Move =
    | FetchRules
    | TakeRule(rule: Id)
    | Lock
    | ListConditions
    | ReadCondition(i: nat)
    | FailToRead(i: nat)
    | Decide(to: Health)
    | Compare
    | Insert
    | Swap
    | Touch
    | Dispatch
    | Unlock
    | Finish
    | Abort

  datatype Action = Tick(t: int) | SaveResult(r: CheckResult) | DispatchDone | Act(k: nat, move: Move)

  ghost predicate Concerns(cfg: Config, check: Id, rule: Id) {
    rule in cfg.rules && exists i | 0 <= i < |cfg.rules[rule]| :: cfg.rules[rule][i].checkId == check
  }

  ghost function RulesFor(cfg: Config, check: Id): set<Id> {
    set rule | rule in cfg.rules && Concerns(cfg, check, rule)
  }

  ghost predicate Init(cfg: Config, s: State) {
    s.saved == map[] && s.table == cfg.start && s.mutexOf == map[] && s.mutexes == 0 && s.holder == map[] &&
    s.evals == [] && s.inflight == 0 && s.changes == [] && s.issued == [] && s.last == map[]
  }

  ghost predicate Environment(a: Action) {
    a.Tick? || a.SaveResult?
  }

  ghost predicate CanRead(cfg: Config, pc: Pc, i: nat) {
    pc.Reading? && pc.rule in cfg.rules && i < |cfg.rules[pc.rule]| && i !in pc.ev
  }

  /** What the evaluator has read fixes the verdict `to`. */
  ghost predicate Decided(cfg: Config, rule: Id, ev: Evidence, to: Health) {
    rule in cfg.rules && Decides(cfg.rules[rule], Values(ev), to.Unhealthy?)
  }

  ghost predicate CanMove(cfg: Config, s: State, e: Evaluator, move: Move) {
    match move
    case FetchRules => e.pc.Fetching?
    case TakeRule(rule) => e.pc.Idle? && rule in e.todo
    case Lock => e.pc.Waiting? && (cfg.mutexed ==> e.pc.mu !in s.holder)
    case ListConditions => e.pc.Listing?
    case ReadCondition(i) => CanRead(cfg, e.pc, i)
    case FailToRead(i) => cfg.faulty && CanRead(cfg, e.pc, i)
    case Decide(to) => e.pc.Reading? && Decided(cfg, e.pc.rule, e.pc.ev, to)
    case Compare => e.pc.Comparing?
    case Insert => e.pc.Inserting?
    case Swap => e.pc.Swapping?
    case Touch => e.pc.Touching?
    case Dispatch => e.pc.Alerting? && s.inflight < MAX_DISPATCHES
    case Unlock => e.pc.Unlocking?
    case Finish => e.pc.Idle? && e.todo == {}
    case Abort => cfg.faulty && (e.pc.Fetching? || e.pc.Listing? || e.pc.Comparing? || e.pc.Inserting? || e.pc.Swapping?)
  }

  ghost predicate Enabled(cfg: Config, s: State, a: Action) {
    match a
    case Tick(t) => t >= s.now
    case SaveResult(_) => true
    case DispatchDone => s.inflight > 0
    case Act(k, move) => k < |s.evals| && CanMove(cfg, s, s.evals[k], move)
  }

  predicate SwapSucceeds(s: State, pc: Pc)
    requires pc.Swapping?
  {
    pc.rule in s.table && s.table[pc.rule].current == pc.from
  }

  function MutexFor(s: State, rule: Id): nat {
    if rule in s.mutexOf then s.mutexOf[rule] else s.mutexes
  }

  ghost function NextPc(cfg: Config, s: State, e: Evaluator, move: Move): Pc
    requires CanMove(cfg, s, e, move)
  {
    var pc := e.pc;
    match move
    case FetchRules => Idle
    case TakeRule(rule) => Waiting(rule, MutexFor(s, rule))
    case Lock => Listing(pc.rule, pc.mu)
    case ListConditions =>
      if pc.rule in cfg.rules && cfg.rules[pc.rule] != [] then Reading(pc.rule, pc.mu, map[])
      else Touching(pc.rule, pc.mu, map[])
    case ReadCondition(i) =>
      var value := CondHolds(cfg.matches, s.rd, cfg.rules[pc.rule][i], s.now);
      Reading(pc.rule, pc.mu, pc.ev[i := Sample(value, s.now)])
    case FailToRead(i) => Reading(pc.rule, pc.mu, pc.ev[i := Sample(false, s.now)])
    case Decide(to) => Comparing(pc.rule, pc.mu, pc.ev, to)
    case Compare =>
      var from := StateOf(s.table, pc.rule);
      if pc.to != from then Inserting(pc.rule, pc.mu, pc.ev, from, pc.to) else Touching(pc.rule, pc.mu, pc.ev)
    case Insert => Swapping(pc.rule, pc.mu, pc.ev, pc.from, pc.to)
    case Swap => if SwapSucceeds(s, pc) then Alerting(pc.rule, pc.mu, pc.from, pc.to) else Unlocking(pc.rule, pc.mu)
    case Touch => Unlocking(pc.rule, pc.mu)
    case Dispatch => Unlocking(pc.rule, pc.mu)
    case Unlock => Idle
    case Finish => Done
    case Abort => if pc.Fetching? then Done else Unlocking(pc.rule, pc.mu)
  }

  ghost function NextTodo(cfg: Config, e: Evaluator, move: Move): set<Id> {
    if move.FetchRules? then RulesFor(cfg, e.check)
    else if move.TakeRule? then e.todo - {move.rule}
    else e.todo
  }

  ghost function NextEval(cfg: Config, s: State, e: Evaluator, move: Move): Evaluator
    requires CanMove(cfg, s, e, move)
  {
    Evaluator(e.check, NextTodo(cfg, e, move), NextPc(cfg, s, e, move))
  }

  ghost function NextTable(cfg: Config, s: State, e: Evaluator, move: Move): map<Id, RuleState>
    requires CanMove(cfg, s, e, move)
  {
    match move
    case Insert => InsertIgnore(s.table, e.pc.rule, e.pc.from, s.now)
    case Swap => UpdateWhere(s.table, e.pc.rule, e.pc.from, e.pc.to, s.now)
    case Touch => Touched(s.table, e.pc.rule, s.now)
    case _ => s.table
  }

  ghost function NextHolder(cfg: Config, s: State, k: nat, e: Evaluator, move: Move): map<nat, nat>
    requires CanMove(cfg, s, e, move)
  {
    if move.Lock? then s.holder[e.pc.mu := k]
    else if move.Unlock? then s.holder - {e.pc.mu}
    else s.holder
  }

  ghost predicate Swapped(cfg: Config, s: State, e: Evaluator, move: Move)
    requires CanMove(cfg, s, e, move)
  {
    move.Swap? && SwapSucceeds(s, e.pc)
  }

  ghost function Apply(cfg: Config, s: State, a: Action): State
    requires Enabled(cfg, s, a)
  {
    match a
    case Tick(t) => s.(now := t)
    case DispatchDone => s.(inflight := s.inflight - 1)
    case SaveResult(r) =>
      s.(rd := Save(s.rd, r), saved := s.saved[r.checkId := s.now], evals := s.evals + [Evaluator(r.checkId, {}, Fetching)])
    case Act(k, move) =>
      var e := s.evals[k];
      // TakeRule reads and extends the map of mutexes under the engine's own lock.
      var news := move.TakeRule? && move.rule !in s.mutexOf;
      State(s.now, s.rd, s.saved, NextTable(cfg, s, e, move),
            if news then s.mutexOf[move.rule := s.mutexes] else s.mutexOf,
            if news then s.mutexes + 1 else s.mutexes,
            NextHolder(cfg, s, k, e, move),
            s.evals[k := NextEval(cfg, s, e, move)],
            if move.Dispatch? then s.inflight + 1 else s.inflight,
            if Swapped(cfg, s, e, move) then s.changes + [Change(e.pc.rule, e.pc.from, e.pc.to)] else s.changes,
            if move.Dispatch? then s.issued + [Change(e.pc.rule, e.pc.from, e.pc.to)] else s.issued,
            if Swapped(cfg, s, e, move) || move.Touch? then s.last[e.pc.rule := e.pc.ev] else s.last)
  }

  /** A run: states joined by enabled actions, from an initial state. */
  ghost predicate Behavior(cfg: Config, ss: seq<State>, acts: seq<Action>) {
    |ss| == |acts| + 1 && Init(cfg, ss[0]) && forall n | 0 <= n < |acts| :: Enabled(cfg, ss[n], acts[n]) && ss[n + 1] == Apply(cfg, ss[n], acts[n])
  }

  // ---------- evaluators one by one ----------

  predicate Busy(pc: Pc) {
    !pc.Fetching? && !pc.Idle? && !pc.Done?
  }

  ghost predicate WellFormed(cfg: Config, s: State, e: Evaluator) {
    (forall rule | rule in e.todo :: rule in cfg.rules && cfg.rules[rule] != []) &&
    (e.pc.Fetching? || e.pc.Done? ==> e.todo == {}) &&
    (Busy(e.pc) ==>
       e.pc.rule in cfg.rules && cfg.rules[e.pc.rule] != [] && e.pc.rule !in e.todo &&
       e.pc.rule in s.mutexOf && s.mutexOf[e.pc.rule] == e.pc.mu) &&
    match e.pc
    case Reading(rule, _, ev) => forall i | i in ev :: i < |cfg.rules[rule]|
    case Comparing(rule, _, ev, to) => Decided(cfg, rule, ev, to)
    case Inserting(rule, _, ev, from, to) => Decided(cfg, rule, ev, to) && from != to && (rule !in s.table ==> from == Healthy)
    case Swapping(rule, _, ev, from, to) => Decided(cfg, rule, ev, to) && from != to && rule in s.table
    case Alerting(_, _, from, to) => from != to
    case _ => true
  }

  ghost predicate MutexesDistinct(s: State) {
    (forall r | r in s.mutexOf :: s.mutexOf[r] < s.mutexes) &&
    (forall r, q | r in s.mutexOf && q in s.mutexOf && s.mutexOf[r] == s.mutexOf[q] :: r == q)
  }

  ghost predicate AllWellFormed(cfg: Config, s: State) {
    MutexesDistinct(s) && s.inflight <= MAX_DISPATCHES && forall k | 0 <= k < |s.evals| :: WellFormed(cfg, s, s.evals[k])
  }

  lemma StaysWellFormed(cfg: Config, s: State, a: Action, e: Evaluator)
    requires Enabled(cfg, s, a) && WellFormed(cfg, s, e)
    ensures WellFormed(cfg, Apply(cfg, s, a), e)
  {}

  lemma MoverStaysWellFormed(cfg: Config, s: State, k: nat, move: Move)
    requires AllWellFormed(cfg, s) && Enabled(cfg, s, Act(k, move))
    ensures var s' := Apply(cfg, s, Act(k, move)); WellFormed(cfg, s', s'.evals[k])
  {
    assert WellFormed(cfg, s, s.evals[k]);
  }

  lemma WellFormedStep(cfg: Config, s: State, a: Action)
    requires AllWellFormed(cfg, s) && Enabled(cfg, s, a)
    ensures AllWellFormed(cfg, Apply(cfg, s, a))
  {
    var s' := Apply(cfg, s, a);
    forall k | 0 <= k < |s'.evals|
      ensures WellFormed(cfg, s', s'.evals[k])
    {
      if a.Act? && a.k == k {
        MoverStaysWellFormed(cfg, s, k, a.move);
      } else if k < |s.evals| {
        StaysWellFormed(cfg, s, a, s.evals[k]);
      }
    }
  }

  // ---------- transitions and alerts: no mutex needed ----------

  /** The state the last change of a rule led to, starting from what was stored. */
  ghost function EndOf(cfg: Config, changes: seq<Change>, rule: Id): Health {
    if changes == [] then StateOf(cfg.start, rule) else
      var c := changes[|changes| - 1];
      if c.rule == rule then c.to else EndOf(cfg, changes[..|changes| - 1], rule)
  }

  /** Every change of a rule starts where its previous one ended, and is a change. */
  ghost predicate Alternates(cfg: Config, changes: seq<Change>) {
    forall i | 0 <= i < |changes| :: changes[i].from == EndOf(cfg, changes[..i], changes[i].rule) && changes[i].to != changes[i].from
  }

  ghost predicate ChainOk(cfg: Config, s: State) {
    Alternates(cfg, s.changes) && forall rule :: StateOf(s.table, rule) == EndOf(cfg, s.changes, rule)
  }

  /** Only a successful swap changes what is stored of any rule. */
  lemma StatesAfterMove(cfg: Config, s: State, e: Evaluator, move: Move, rule: Id)
    requires WellFormed(cfg, s, e) && CanMove(cfg, s, e, move)
    ensures StateOf(NextTable(cfg, s, e, move), rule) ==
            if Swapped(cfg, s, e, move) && rule == e.pc.rule then e.pc.to else StateOf(s.table, rule)
  {}

  lemma ChainSwap(cfg: Config, changes: seq<Change>, c: Change)
    requires Alternates(cfg, changes) && c.from == EndOf(cfg, changes, c.rule) && c.to != c.from
    ensures Alternates(cfg, changes + [c])
    ensures forall rule :: EndOf(cfg, changes + [c], rule) == if rule == c.rule then c.to else EndOf(cfg, changes, rule)
  {
    var longer := changes + [c];
    forall i | 0 <= i < |longer|
      ensures longer[i].from == EndOf(cfg, longer[..i], longer[i].rule) && longer[i].to != longer[i].from
    {
      assert longer[..i] == if i < |changes| then changes[..i] else changes;
    }
    assert longer[..|longer| - 1] == changes;
  }

  lemma ChainMove(cfg: Config, s: State, k: nat, move: Move)
    requires AllWellFormed(cfg, s) && ChainOk(cfg, s) && Enabled(cfg, s, Act(k, move))
    ensures ChainOk(cfg, Apply(cfg, s, Act(k, move)))
  {
    var s', e := Apply(cfg, s, Act(k, move)), s.evals[k];
    assert WellFormed(cfg, s, e);
    if Swapped(cfg, s, e, move) {
      ChainSwap(cfg, s.changes, Change(e.pc.rule, e.pc.from, e.pc.to));
    }
    forall rule ensures StateOf(s'.table, rule) == EndOf(cfg, s'.changes, rule) {
      StatesAfterMove(cfg, s, e, move, rule);
    }
  }

  lemma ChainStep(cfg: Config, s: State, a: Action)
    requires AllWellFormed(cfg, s) && ChainOk(cfg, s) && Enabled(cfg, s, a)
    ensures ChainOk(cfg, Apply(cfg, s, a))
  {
    if a.Act? {
      ChainMove(cfg, s, a.k, a.move);
    }
  }

  ghost function OwedBy(e: Evaluator, c: Change): nat {
    if e.pc.Alerting? && Change(e.pc.rule, e.pc.from, e.pc.to) == c then 1 else 0
  }

  /** How many evaluators are still to dispatch the alert of a change. */
  ghost function Owed(evals: seq<Evaluator>, c: Change): nat {
    if evals == [] then 0 else Owed(evals[..|evals| - 1], c) + OwedBy(evals[|evals| - 1], c)
  }

  lemma {:induction false} OwedUpdate(evals: seq<Evaluator>, k: nat, e: Evaluator, c: Change)
    requires k < |evals|
    ensures Owed(evals[k := e], c) + OwedBy(evals[k], c) == Owed(evals, c) + OwedBy(e, c)
  {
    var n := |evals| - 1;
    var up := evals[k := e];
    if k == n {
      assert up[..n] == evals[..n];
    } else {
      OwedUpdate(evals[..n], k, e, c);
      assert up[..n] == evals[..n][k := e];
    }
  }

  function Times(changes: seq<Change>, c: Change): nat {
    multiset(changes)[c]
  }

  /** Every change has been dispatched exactly once, or is owed by exactly one evaluator. */
  ghost predicate AlertsOk(s: State) {
    forall c :: Times(s.changes, c) == Times(s.issued, c) + Owed(s.evals, c)
  }

  lemma AlertsMove(cfg: Config, s: State, k: nat, move: Move, c: Change)
    requires Enabled(cfg, s, Act(k, move))
    requires Times(s.changes, c) == Times(s.issued, c) + Owed(s.evals, c)
    ensures var s' := Apply(cfg, s, Act(k, move)); Times(s'.changes, c) == Times(s'.issued, c) + Owed(s'.evals, c)
  {
    OwedUpdate(s.evals, k, NextEval(cfg, s, s.evals[k], move), c);
  }

  lemma AlertsStep(cfg: Config, s: State, a: Action)
    requires AlertsOk(s) && Enabled(cfg, s, a)
    ensures AlertsOk(Apply(cfg, s, a))
  {
    var s' := Apply(cfg, s, a);
    forall c
      ensures Times(s'.changes, c) == Times(s'.issued, c) + Owed(s'.evals, c)
    {
      if a.Act? {
        AlertsMove(cfg, s, a.k, a.move, c);
      } else if a.SaveResult? {
        assert s'.evals[..|s.evals|] == s.evals;
      }
    }
  }

  // ---------- mutual exclusion ----------

  /** Between taking the rule's mutex and releasing it. */
  predicate Critical(pc: Pc) {
    Busy(pc) && !pc.Waiting?
  }

  ghost predicate InsideHolds(s: State, k: nat)
    requires k < |s.evals|
  {
    Critical(s.evals[k].pc) ==> s.evals[k].pc.mu in s.holder && s.holder[s.evals[k].pc.mu] == k
  }

  ghost predicate HolderInside(s: State, mu: nat)
    requires mu in s.holder
  {
    s.holder[mu] < |s.evals| && Critical(s.evals[s.holder[mu]].pc) && s.evals[s.holder[mu]].pc.mu == mu
  }

  /** The holder of a mutex is the one evaluator inside. */
  ghost predicate Exclusive(s: State) {
    (forall k: nat | k < |s.evals| :: InsideHolds(s, k)) && forall mu | mu in s.holder :: HolderInside(s, mu)
  }

  lemma MoverHolds(cfg: Config, s: State, k: nat, move: Move)
    requires cfg.mutexed && Enabled(cfg, s, Act(k, move)) && WellFormed(cfg, s, s.evals[k]) && InsideHolds(s, k)
    ensures InsideHolds(Apply(cfg, s, Act(k, move)), k)
  {}

  lemma OthersHold(cfg: Config, s: State, k: nat, move: Move, j: nat)
    requires cfg.mutexed && Enabled(cfg, s, Act(k, move)) && j < |s.evals| && j != k && InsideHolds(s, j) && InsideHolds(s, k)
    ensures InsideHolds(Apply(cfg, s, Act(k, move)), j)
  {
    var pc := s.evals[j].pc;
    if Critical(pc) {
      assert pc.mu in NextHolder(cfg, s, k, s.evals[k], move) && NextHolder(cfg, s, k, s.evals[k], move)[pc.mu] == j;
    }
  }

  lemma ExclusiveStep(cfg: Config, s: State, a: Action)
    requires cfg.mutexed && AllWellFormed(cfg, s) && Exclusive(s) && Enabled(cfg, s, a)
    ensures Exclusive(Apply(cfg, s, a))
  {
    var s' := Apply(cfg, s, a);
    forall k: nat | k < |s'.evals| ensures InsideHolds(s', k) {
      if a.Act? {
        assert WellFormed(cfg, s, s.evals[a.k]) && InsideHolds(s, a.k) && InsideHolds(s, k);
        if k == a.k {
          MoverHolds(cfg, s, k, a.move);
        } else {
          OthersHold(cfg, s, a.k, a.move, k);
        }
      } else if k < |s.evals| {
        assert InsideHolds(s, k);
      }
    }
    forall mu | mu in s'.holder ensures HolderInside(s', mu) {
      if !a.Act? {
        assert HolderInside(s, mu);
      }
    }
  }

  /** At most one evaluator is inside a rule. */
  lemma OneInside(cfg: Config, s: State, j: nat, k: nat)
    requires AllWellFormed(cfg, s) && Exclusive(s) && j < |s.evals| && k < |s.evals|
    requires Critical(s.evals[j].pc) && Critical(s.evals[k].pc) && s.evals[j].pc.rule == s.evals[k].pc.rule
    ensures j == k
  {
    assert WellFormed(cfg, s, s.evals[j]) && WellFormed(cfg, s, s.evals[k]);
    assert InsideHolds(s, j) && InsideHolds(s, k);
  }

  /** What an evaluator has read of the rule's state stays true while it holds the mutex. */
  ghost predicate KnowsState(cfg: Config, s: State, e: Evaluator) {
    match e.pc
    case Inserting(rule, _, _, from, _) => StateOf(s.table, rule) == from
    case Swapping(rule, _, _, from, _) => StateOf(s.table, rule) == from
    case Touching(rule, _, ev) => Decided(cfg, rule, ev, StateOf(s.table, rule))
    case _ => true
  }

  ghost predicate AllKnowState(cfg: Config, s: State) {
    forall k | 0 <= k < |s.evals| :: KnowsState(cfg, s, s.evals[k])
  }

  /** Nobody else moves the state of a rule while an evaluator is inside it. */
  lemma OthersKnowState(cfg: Config, s: State, k: nat, move: Move, j: nat)
    requires cfg.mutexed && AllWellFormed(cfg, s) && Exclusive(s) && Enabled(cfg, s, Act(k, move)) && j < |s.evals| && j != k
    requires KnowsState(cfg, s, s.evals[j])
    ensures KnowsState(cfg, Apply(cfg, s, Act(k, move)), s.evals[j])
  {
    var e, o := s.evals[k], s.evals[j];
    assert WellFormed(cfg, s, e) && WellFormed(cfg, s, o);
    if Critical(o.pc) {
      StatesAfterMove(cfg, s, e, move, o.pc.rule);
      if Critical(e.pc) && e.pc.rule == o.pc.rule {
        OneInside(cfg, s, j, k);
      }
    }
  }

  lemma KnowsStateStep(cfg: Config, s: State, a: Action)
    requires cfg.mutexed && AllWellFormed(cfg, s) && Exclusive(s) && AllKnowState(cfg, s) && Enabled(cfg, s, a)
    ensures AllKnowState(cfg, Apply(cfg, s, a))
  {
    var s' := Apply(cfg, s, a);
    forall k: nat | k < |s'.evals| ensures KnowsState(cfg, s', s'.evals[k]) {
      if a.Act? {
        assert KnowsState(cfg, s, s.evals[k]) && WellFormed(cfg, s, s.evals[k]);
        if k != a.k {
          OthersKnowState(cfg, s, a.k, a.move, k);
        }
      } else if k < |s.evals| {
        assert KnowsState(cfg, s, s.evals[k]);
      }
    }
  }

  // ---------- convergence ----------

  /** No check of the rule was saved after `at`. */
  ghost predicate NothingSavedSince(cfg: Config, s: State, rule: Id, at: int) {
    forall c | c in s.saved && Concerns(cfg, c, rule) :: s.saved[c] <= at
  }

  ghost predicate SampleCurrent(cfg: Config, s: State, rule: Id, i: nat, x: Sample)
    requires rule in cfg.rules
  {
    i < |cfg.rules[rule]| && x.value == CondHolds(cfg.matches, s.rd, cfg.rules[rule][i], x.at) &&
    x.at <= s.now && NothingSavedSince(cfg, s, rule, x.at)
  }

  /** Everything read still is what the tables say, and was read after the rule's last result was saved. */
  ghost predicate Current(cfg: Config, s: State, rule: Id, ev: Evidence)
    requires rule in cfg.rules
  {
    forall i | i in ev :: SampleCurrent(cfg, s, rule, i, ev[i])
  }

  /** The evaluator is still to read all of the rule's conditions. */
  ghost predicate WillRead(cfg: Config, e: Evaluator, rule: Id) {
    rule in e.todo || (e.pc.Fetching? && Concerns(cfg, e.check, rule)) ||
    ((e.pc.Waiting? || e.pc.Listing?) && e.pc.rule == rule) || (e.pc.Reading? && e.pc.rule == rule && e.pc.ev == map[])
  }

  ghost predicate SomeoneWillRead(cfg: Config, s: State, rule: Id) {
    exists k | 0 <= k < |s.evals| :: WillRead(cfg, s.evals[k], rule)
  }

  predicate Deciding(pc: Pc, rule: Id) {
    (pc.Reading? || pc.Comparing? || pc.Inserting? || pc.Swapping? || pc.Touching?) && pc.rule == rule
  }

  ghost predicate SavedFor(cfg: Config, s: State, rule: Id) {
    exists c | c in s.saved :: Concerns(cfg, c, rule)
  }

  /** The stored state is the verdict of the last evaluation, whose readings are current. */
  ghost predicate Settled(cfg: Config, s: State, rule: Id)
    requires rule in cfg.rules
  {
    rule in s.last && Current(cfg, s, rule, s.last[rule]) && Decided(cfg, rule, s.last[rule], StateOf(s.table, rule))
  }

  ghost predicate Converging(cfg: Config, s: State, rule: Id)
    requires rule in cfg.rules
  {
    SomeoneWillRead(cfg, s, rule) ||
    ((forall k | 0 <= k < |s.evals| && Deciding(s.evals[k].pc, rule) :: Current(cfg, s, rule, s.evals[k].pc.ev)) &&
     (SavedFor(cfg, s, rule) ==> (exists k | 0 <= k < |s.evals| :: Deciding(s.evals[k].pc, rule)) || Settled(cfg, s, rule)))
  }

  ghost predicate Invariant(cfg: Config, s: State) {
    AllWellFormed(cfg, s) && ChainOk(cfg, s) && AlertsOk(s) &&
    (cfg.mutexed ==> Exclusive(s) && AllKnowState(cfg, s)) &&
    (cfg.mutexed && !cfg.faulty ==>
       (forall c | c in s.saved :: s.saved[c] <= s.now) && forall rule | rule in cfg.rules :: Converging(cfg, s, rule))
  }

  lemma OtherCheckSaved(matches: Matcher, rd: Readings, r: CheckResult, cond: RuleCondition, now: int)
    requires r.checkId != cond.checkId
    ensures CondHolds(matches, Save(rd, r), cond, now) == CondHolds(matches, rd, cond, now)
  {
    assert Save(rd, r).raw[..|rd.raw|] == rd.raw;
  }

  lemma CurrentAfterSave(cfg: Config, s: State, r: CheckResult, rule: Id, ev: Evidence)
    requires rule in cfg.rules && !Concerns(cfg, r.checkId, rule) && Current(cfg, s, rule, ev)
    ensures Current(cfg, Apply(cfg, s, SaveResult(r)), rule, ev)
  {
    var s' := Apply(cfg, s, SaveResult(r));
    forall i | i in ev
      ensures SampleCurrent(cfg, s', rule, i, ev[i])
    {
      assert SampleCurrent(cfg, s, rule, i, ev[i]);
      OtherCheckSaved(cfg.matches, s.rd, r, cfg.rules[rule][i], ev[i].at);
    }
  }

  lemma ConvergingEnvironment(cfg: Config, s: State, a: Action, rule: Id)
    requires rule in cfg.rules && Converging(cfg, s, rule) && Enabled(cfg, s, a) && !a.Act?
    ensures Converging(cfg, Apply(cfg, s, a), rule)
  {
    var s' := Apply(cfg, s, a);
    if a.SaveResult? {
      assert s'.evals[|s.evals|] == Evaluator(a.r.checkId, {}, Fetching);
      assert forall k | 0 <= k < |s.evals| :: s'.evals[k] == s.evals[k];
      if !Concerns(cfg, a.r.checkId, rule) {
        if !SomeoneWillRead(cfg, s, rule) {
          forall k | 0 <= k < |s'.evals| && Deciding(s'.evals[k].pc, rule)
            ensures Current(cfg, s', rule, s'.evals[k].pc.ev)
          {
            CurrentAfterSave(cfg, s, a.r, rule, s.evals[k].pc.ev);
          }
          if Settled(cfg, s, rule) {
            CurrentAfterSave(cfg, s, a.r, rule, s.last[rule]);
          }
        } else {
          var k :| 0 <= k < |s.evals| && WillRead(cfg, s.evals[k], rule);
          assert WillRead(cfg, s'.evals[k], rule);
        }
      } else {
        assert WillRead(cfg, s'.evals[|s.evals|], rule);
      }
    } else {
      assert s'.evals == s.evals;
      assert forall ev | Current(cfg, s, rule, ev) :: Current(cfg, s', rule, ev) by {
        forall ev | Current(cfg, s, rule, ev)
          ensures Current(cfg, s', rule, ev)
        {
          forall i | i in ev
            ensures SampleCurrent(cfg, s', rule, i, ev[i])
          {
            assert SampleCurrent(cfg, s, rule, i, ev[i]);
          }
        }
      }
    }
  }

  lemma SameCurrent(cfg: Config, s: State, k: nat, move: Move, rule: Id, ev: Evidence)
    requires Enabled(cfg, s, Act(k, move)) && rule in cfg.rules && Current(cfg, s, rule, ev)
    ensures Current(cfg, Apply(cfg, s, Act(k, move)), rule, ev)
  {
    var s' := Apply(cfg, s, Act(k, move));
    forall i | i in ev
      ensures SampleCurrent(cfg, s', rule, i, ev[i])
    {
      assert SampleCurrent(cfg, s, rule, i, ev[i]);
    }
  }

  /** Leaving the deciding phase settles the rule. */
  lemma DecisionSettles(cfg: Config, s: State, k: nat, move: Move, rule: Id)
    requires !cfg.faulty && AllWellFormed(cfg, s) && AllKnowState(cfg, s) && Enabled(cfg, s, Act(k, move)) && rule in cfg.rules
    requires Deciding(s.evals[k].pc, rule) && !Deciding(NextEval(cfg, s, s.evals[k], move).pc, rule)
    requires Current(cfg, s, rule, s.evals[k].pc.ev)
    ensures Settled(cfg, Apply(cfg, s, Act(k, move)), rule)
  {
    assert WellFormed(cfg, s, s.evals[k]) && KnowsState(cfg, s, s.evals[k]);
    SameCurrent(cfg, s, k, move, rule, s.evals[k].pc.ev);
  }

  /** Nobody outside the deciding phase disturbs a settled rule. */
  lemma StaysSettled(cfg: Config, s: State, k: nat, move: Move, rule: Id)
    requires Enabled(cfg, s, Act(k, move)) && rule in cfg.rules && Settled(cfg, s, rule) && !Deciding(s.evals[k].pc, rule)
    ensures Settled(cfg, Apply(cfg, s, Act(k, move)), rule)
  {
    SameCurrent(cfg, s, k, move, rule, s.last[rule]);
  }

  lemma EvidenceStaysCurrent(cfg: Config, s: State, k: nat, move: Move, rule: Id)
    requires !cfg.faulty && AllWellFormed(cfg, s) && Enabled(cfg, s, Act(k, move)) && rule in cfg.rules
    requires forall c | c in s.saved :: s.saved[c] <= s.now
    requires forall j | 0 <= j < |s.evals| && Deciding(s.evals[j].pc, rule) :: Current(cfg, s, rule, s.evals[j].pc.ev)
    ensures var s' := Apply(cfg, s, Act(k, move));
            forall j: nat | j < |s'.evals| && Deciding(s'.evals[j].pc, rule) :: Current(cfg, s', rule, s'.evals[j].pc.ev)
  {
    var s' := Apply(cfg, s, Act(k, move));
    forall j: nat | j < |s'.evals| && Deciding(s'.evals[j].pc, rule)
      ensures Current(cfg, s', rule, s'.evals[j].pc.ev)
    {
      if j != k {
        SameCurrent(cfg, s, k, move, rule, s.evals[j].pc.ev);
      }
    }
  }

  lemma SomebodyDecidesOrSettled(cfg: Config, s: State, k: nat, move: Move, rule: Id)
    requires !cfg.faulty && AllWellFormed(cfg, s) && AllKnowState(cfg, s) && Enabled(cfg, s, Act(k, move)) && rule in cfg.rules
    requires forall j | 0 <= j < |s.evals| && Deciding(s.evals[j].pc, rule) :: Current(cfg, s, rule, s.evals[j].pc.ev)
    requires (exists j | 0 <= j < |s.evals| :: Deciding(s.evals[j].pc, rule)) || Settled(cfg, s, rule)
    ensures var s' := Apply(cfg, s, Act(k, move)); (exists j | 0 <= j < |s'.evals| :: Deciding(s'.evals[j].pc, rule)) || Settled(cfg, s', rule)
  {
    var s', e := Apply(cfg, s, Act(k, move)), s.evals[k];
    if Deciding(e.pc, rule) {
      if Deciding(NextEval(cfg, s, e, move).pc, rule) {
        assert Deciding(s'.evals[k].pc, rule);
      } else {
        DecisionSettles(cfg, s, k, move, rule);
      }
    } else if exists j | 0 <= j < |s.evals| :: Deciding(s.evals[j].pc, rule) {
      var j :| 0 <= j < |s.evals| && Deciding(s.evals[j].pc, rule);
      assert Deciding(s'.evals[j].pc, rule);
    } else {
      StaysSettled(cfg, s, k, move, rule);
    }
  }

  lemma OnlyMoverDecides(cfg: Config, s: State, k: nat, move: Move, rule: Id)
    requires !cfg.faulty && AllWellFormed(cfg, s) && Exclusive(s) && Enabled(cfg, s, Act(k, move)) && rule in cfg.rules
    requires forall c | c in s.saved :: s.saved[c] <= s.now
    requires s.evals[k].pc.Reading? && s.evals[k].pc.rule == rule && s.evals[k].pc.ev == map[]
    requires Deciding(NextEval(cfg, s, s.evals[k], move).pc, rule)
    ensures Converging(cfg, Apply(cfg, s, Act(k, move)), rule)
  {
    var s' := Apply(cfg, s, Act(k, move));
    assert Deciding(s'.evals[k].pc, rule);
    forall j: nat | j < |s'.evals| && Deciding(s'.evals[j].pc, rule)
      ensures Current(cfg, s', rule, s'.evals[j].pc.ev)
    {
      if j != k {
        OneInside(cfg, s, j, k);
      }
    }
  }

  lemma ConvergingMove(cfg: Config, s: State, k: nat, move: Move, rule: Id)
    requires cfg.mutexed && !cfg.faulty && Invariant(cfg, s) && Enabled(cfg, s, Act(k, move)) && rule in cfg.rules
    ensures Converging(cfg, Apply(cfg, s, Act(k, move)), rule)
  {
    var s', e := Apply(cfg, s, Act(k, move)), s.evals[k];
    var e' := NextEval(cfg, s, e, move);
    assert WellFormed(cfg, s, e) && s'.evals[k] == e' && forall j | 0 <= j < |s.evals| && j != k :: s'.evals[j] == s.evals[j];
    assert Converging(cfg, s, rule);
    if SomeoneWillRead(cfg, s, rule) {
      var j :| 0 <= j < |s.evals| && WillRead(cfg, s.evals[j], rule);
      if j != k {
        assert WillRead(cfg, s'.evals[j], rule);
      } else {
        if WillRead(cfg, e', rule) {
          assert WillRead(cfg, s'.evals[k], rule);
        } else {
          OnlyMoverDecides(cfg, s, k, move, rule);
        }
      }
    } else {
      EvidenceStaysCurrent(cfg, s, k, move, rule);
      if SavedFor(cfg, s', rule) {
        assert SavedFor(cfg, s, rule);
        SomebodyDecidesOrSettled(cfg, s, k, move, rule);
      }
    }
  }

  lemma InvariantStep(cfg: Config, s: State, a: Action)
    requires Invariant(cfg, s) && Enabled(cfg, s, a)
    ensures Invariant(cfg, Apply(cfg, s, a))
  {
    WellFormedStep(cfg, s, a);
    ChainStep(cfg, s, a);
    AlertsStep(cfg, s, a);
    if cfg.mutexed {
      ExclusiveStep(cfg, s, a);
      KnowsStateStep(cfg, s, a);
      if !cfg.faulty {
        forall rule | rule in cfg.rules
          ensures Converging(cfg, Apply(cfg, s, a), rule)
        {
          if a.Act? {
            ConvergingMove(cfg, s, a.k, a.move, rule);
          } else {
            ConvergingEnvironment(cfg, s, a, rule);
          }
        }
      }
    }
  }

  lemma {:induction false} Reachable(cfg: Config, ss: seq<State>, acts: seq<Action>, n: nat)
    requires Behavior(cfg, ss, acts) && n < |ss|
    ensures Invariant(cfg, ss[n])
  {
    if n > 0 {
      Reachable(cfg, ss, acts, n - 1);
      InvariantStep(cfg, ss[n - 1], acts[n - 1]);
    } else {
      assert forall c :: Times([], c) == 0;
    }
  }

  // ---------- what holds in every run ----------

  ghost predicate Quiet(s: State) {
    s.inflight == 0 && forall k | 0 <= k < |s.evals| :: s.evals[k].pc.Done?
  }

  /**
   * With or without the mutex, and even if statements fail: each rule's changes alternate, each
   * starting where the previous one ended and the first from the stored state; the table holds the
   * end of the chain; every change is dispatched exactly once or owed by one evaluator; and at most
   * ten dispatches are in flight.
   */
  lemma ChangesAlternate(cfg: Config, ss: seq<State>, acts: seq<Action>, n: nat)
    requires Behavior(cfg, ss, acts) && n < |ss|
    ensures Alternates(cfg, ss[n].changes)
    ensures forall rule :: StateOf(ss[n].table, rule) == EndOf(cfg, ss[n].changes, rule)
    ensures forall c :: Times(ss[n].changes, c) == Times(ss[n].issued, c) + Owed(ss[n].evals, c)
    ensures ss[n].inflight <= 10
  {
    Reachable(cfg, ss, acts, n);
  }

  lemma {:induction false} NothingOwed(evals: seq<Evaluator>, c: Change)
    requires forall k | 0 <= k < |evals| :: evals[k].pc.Done?
    ensures Owed(evals, c) == 0
  {
    if evals != [] {
      NothingOwed(evals[..|evals| - 1], c);
    }
  }

  /** When all is quiet, the alerts dispatched are the changes made, one for one. */
  lemma OneAlertPerChange(cfg: Config, ss: seq<State>, acts: seq<Action>, n: nat)
    requires Behavior(cfg, ss, acts) && n < |ss| && Quiet(ss[n])
    ensures multiset(ss[n].changes) == multiset(ss[n].issued)
  {
    Reachable(cfg, ss, acts, n);
    forall c
      ensures multiset(ss[n].changes)[c] == multiset(ss[n].issued)[c]
    {
      NothingOwed(ss[n].evals, c);
      assert Times(ss[n].changes, c) == Times(ss[n].issued, c) + Owed(ss[n].evals, c);
    }
  }

  /** The rule's verdict when its i-th condition is read from the final tables at times[i]. */
  ghost predicate UnhealthyAt(cfg: Config, s: State, rule: Id, times: seq<int>)
    requires rule in cfg.rules && |times| == |cfg.rules[rule]|
  {
    Triggered(cfg.rules[rule], ValuesAt(cfg.matches, cfg.rules[rule], seq(|times|, i requires 0 <= i < |times| => Moment(s.rd, times[i]))))
  }

  /** The read times of the last evaluation; a condition it never had to read counts as read now. */
  ghost function ReadTimes(cfg: Config, s: State, rule: Id): (times: seq<int>)
    requires rule in cfg.rules
    ensures |times| == |cfg.rules[rule]|
  {
    var ev := if rule in s.last then s.last[rule] else map[];
    seq(|cfg.rules[rule]|, i requires 0 <= i < |cfg.rules[rule]| => if i in ev then ev[i].at else s.now)
  }

  /**
   * Convergence. With the mutex, for every interleaving of saves and evaluators: once every
   * evaluation has finished, the stored state of a rule is the verdict over the final results, its
   * conditions read after the last of those results was saved (so the times only matter to windows).
   */
  lemma Convergence(cfg: Config, ss: seq<State>, acts: seq<Action>, n: nat, rule: Id)
    requires Behavior(cfg, ss, acts) && n < |ss| && cfg.mutexed && !cfg.faulty && rule in cfg.rules
    requires (forall k | 0 <= k < |ss[n].evals| :: ss[n].evals[k].pc.Done?) && SavedFor(cfg, ss[n], rule)
    ensures var s, times := ss[n], ReadTimes(cfg, ss[n], rule);
            (StateOf(s.table, rule) == Unhealthy <==> UnhealthyAt(cfg, s, rule, times)) &&
            forall i | 0 <= i < |times| :: times[i] <= s.now && NothingSavedSince(cfg, s, rule, times[i])
  {
    var s, times, conds := ss[n], ReadTimes(cfg, ss[n], rule), cfg.rules[rule];
    Reachable(cfg, ss, acts, n);
    forall k | 0 <= k < |s.evals|
      ensures !WillRead(cfg, s.evals[k], rule)
    {
      assert WellFormed(cfg, s, s.evals[k]);
    }
    assert Converging(cfg, s, rule);
    assert Settled(cfg, s, rule);
    var vals := ValuesAt(cfg.matches, conds, seq(|times|, i requires 0 <= i < |times| => Moment(s.rd, times[i])));
    forall i | i in s.last[rule]
      ensures i < |vals| && vals[i] == s.last[rule][i].value
    {
      assert SampleCurrent(cfg, s, rule, i, s.last[rule][i]);
    }
    forall i | 0 <= i < |times|
      ensures times[i] <= s.now && NothingSavedSince(cfg, s, rule, times[i])
    {
      if i in s.last[rule] {
        assert SampleCurrent(cfg, s, rule, i, s.last[rule][i]);
      }
    }
    DecidedIsTriggered(conds, Values(s.last[rule]), StateOf(s.table, rule).Unhealthy?, vals);
  }

  /** A rule whose conditions all look at the last result only: its state is the verdict over the last results. */
  lemma ConvergenceOfSingleResultRules(cfg: Config, ss: seq<State>, acts: seq<Action>, n: nat, rule: Id, at: int)
    requires Behavior(cfg, ss, acts) && n < |ss| && cfg.mutexed && !cfg.faulty && rule in cfg.rules
    requires (forall k | 0 <= k < |ss[n].evals| :: ss[n].evals[k].pc.Done?) && SavedFor(cfg, ss[n], rule)
    requires forall i | 0 <= i < |cfg.rules[rule]| :: cfg.rules[rule][i].failWindow <= 0
    ensures StateOf(ss[n].table, rule) == Unhealthy <==> UnhealthyAt(cfg, ss[n], rule, seq(|cfg.rules[rule]|, _ => at))
  {
    Convergence(cfg, ss, acts, n, rule);
    var s, conds := ss[n], cfg.rules[rule];
    var times, ats := ReadTimes(cfg, s, rule), seq(|conds|, _ => at);
    assert ValuesAt(cfg.matches, conds, seq(|times|, i requires 0 <= i < |times| => Moment(s.rd, times[i])))
        == ValuesAt(cfg.matches, conds, seq(|ats|, i requires 0 <= i < |ats| => Moment(s.rd, ats[i])));
  }

  // ---------- progress ----------

  lemma SomeMove(cfg: Config, s: State, e: Evaluator) returns (move: Move)
    requires WellFormed(cfg, s, e) && s.inflight < 10 && !e.pc.Done?
    requires e.pc.Waiting? ==> cfg.mutexed ==> e.pc.mu !in s.holder
    ensures CanMove(cfg, s, e, move)
  {
    match e.pc
    case Fetching => move := FetchRules;
    case Idle =>
      if e.todo == {} {
        move := Finish;
      } else {
        var rule :| rule in e.todo;
        move := TakeRule(rule);
      }
    case Waiting(_, _) => move := Lock;
    case Listing(_, _) => move := ListConditions;
    case Reading(rule, _, ev) =>
      if i: nat :| i < |cfg.rules[rule]| && i !in ev {
        move := ReadCondition(i);
      } else {
        move := Decide(if Decides(cfg.rules[rule], Values(ev), true) then Unhealthy else Healthy);
      }
    case Comparing(_, _, _, _) => move := Compare;
    case Inserting(_, _, _, _, _) => move := Insert;
    case Swapping(_, _, _, _, _) => move := Swap;
    case Touching(_, _, _) => move := Touch;
    case Alerting(_, _, _, _) => move := Dispatch;
    case Unlocking(_, _) => move := Unlock;
  }

  /** No reachable state is stuck: unless all is quiet, an evaluator can move, or ten dispatches are in flight and one of those ends. */
  lemma NoDeadlock(cfg: Config, ss: seq<State>, acts: seq<Action>, n: nat) returns (a: Action)
    requires Behavior(cfg, ss, acts) && n < |ss| && !Quiet(ss[n])
    ensures !Environment(a) && Enabled(cfg, ss[n], a)
    ensures a.DispatchDone? ==> ss[n].inflight == 10 || forall k | 0 <= k < |ss[n].evals| :: ss[n].evals[k].pc.Done?
  {
    var s := ss[n];
    Reachable(cfg, ss, acts, n);
    if s.inflight == 10 || forall k | 0 <= k < |s.evals| :: s.evals[k].pc.Done? {
      return DispatchDone;
    }
    var k: nat :| k < |s.evals| && !s.evals[k].pc.Done?;
    if s.evals[k].pc.Waiting? && cfg.mutexed && s.evals[k].pc.mu in s.holder {
      k := s.holder[s.evals[k].pc.mu];
    }
    assert WellFormed(cfg, s, s.evals[k]);
    var move := SomeMove(cfg, s, s.evals[k]);
    return Act(k, move);
  }

  /** No rule has more conditions than this. */
  ghost predicate Width(cfg: Config, w: nat) {
    forall rule | rule in cfg.rules :: |cfg.rules[rule]| <= w
  }

  lemma {:induction false} SomeWidth(cfg: Config, rules: set<Id>) returns (w: nat)
    requires rules <= cfg.rules.Keys
    ensures forall rule | rule in rules :: |cfg.rules[rule]| <= w
  {
    w := 0;
    if rules != {} {
      var rule :| rule in rules;
      w := SomeWidth(cfg, rules - {rule});
      w := if w < |cfg.rules[rule]| then |cfg.rules[rule]| else w;
    }
  }

  /** Steps an evaluator has left before its current rule is done. */
  ghost function StepsInRule(cfg: Config, pc: Pc, w: nat): int {
    match pc
    case Waiting(_, _) => w + 11
    case Listing(_, _) => w + 10
    case Reading(rule, _, ev) => w - |ev| + 9
    case Comparing(_, _, _, _) => 8
    case Inserting(_, _, _, _, _) => 7
    case Swapping(_, _, _, _, _) => 6
    case Touching(_, _, _) => 6
    case Alerting(_, _, _, _) => 5
    case Unlocking(_, _) => 3
    case Idle => 2
    case Fetching => 3
    case Done => 0
  }

  ghost function RulesLeft(cfg: Config, e: Evaluator): nat {
    if e.pc.Fetching? then |cfg.rules| else |e.todo|
  }

  /** n rules of w conditions each. */
  function StepsForRules(n: nat, w: nat): nat {
    if n == 0 then 0 else StepsForRules(n - 1, w) + w + 11
  }

  lemma {:induction false} StepsForMoreRules(n: nat, m: nat, w: nat)
    requires n <= m
    ensures StepsForRules(n, w) <= StepsForRules(m, w)
  {
    if n < m {
      StepsForMoreRules(n, m - 1, w);
    }
  }

  ghost function Rank(cfg: Config, e: Evaluator, w: nat): int {
    StepsInRule(cfg, e.pc, w) + StepsForRules(RulesLeft(cfg, e), w)
  }

  ghost function TotalRank(cfg: Config, evals: seq<Evaluator>, w: nat): int {
    if evals == [] then 0 else TotalRank(cfg, evals[..|evals| - 1], w) + Rank(cfg, evals[|evals| - 1], w)
  }

  /** An upper bound on the steps left until all is quiet, if nothing more is saved. */
  ghost function StepsLeft(cfg: Config, s: State, w: nat): int {
    TotalRank(cfg, s.evals, w) + s.inflight
  }

  lemma {:induction false} TotalRankUpdate(cfg: Config, evals: seq<Evaluator>, k: nat, e: Evaluator, w: nat)
    requires k < |evals|
    ensures TotalRank(cfg, evals[k := e], w) - Rank(cfg, e, w) == TotalRank(cfg, evals, w) - Rank(cfg, evals[k], w)
  {
    var n := |evals| - 1;
    var up := evals[k := e];
    if k == n {
      assert up[..n] == evals[..n];
    } else {
      TotalRankUpdate(cfg, evals[..n], k, e, w);
      assert up[..n] == evals[..n][k := e];
    }
  }

  function UpTo(n: nat): (all: set<nat>)
    ensures |all| == n && forall i: nat :: i in all <==> i < n
  {
    if n == 0 then {} else UpTo(n - 1) + {n - 1}
  }

  lemma {:induction false} SubsetSize<T>(a: set<T>, b: set<T>)
    requires a <= b
    ensures |a| <= |b|
  {
    if a != {} {
      var x :| x in a;
      SubsetSize(a - {x}, b - {x});
    }
  }

  lemma SampledBound(ev: Evidence, n: nat)
    requires forall i | i in ev :: i < n
    ensures |ev| <= n
  {
    SubsetSize(ev.Keys, UpTo(n));
  }

  lemma RankPositive(cfg: Config, s: State, e: Evaluator, w: nat)
    requires WellFormed(cfg, s, e) && Width(cfg, w)
    ensures Rank(cfg, e, w) >= 0
  {
    if e.pc.Reading? {
      SampledBound(e.pc.ev, |cfg.rules[e.pc.rule]|);
    }
  }

  lemma PcDrops(cfg: Config, s: State, e: Evaluator, move: Move, w: nat)
    requires WellFormed(cfg, s, e) && Width(cfg, w) && CanMove(cfg, s, e, move) && !move.FetchRules? && !move.TakeRule?
    ensures StepsInRule(cfg, NextPc(cfg, s, e, move), w) <= StepsInRule(cfg, e.pc, w) - (if move.Dispatch? then 2 else 1)
  {
    if e.pc.Reading? {
      SampledBound(e.pc.ev, |cfg.rules[e.pc.rule]|);
      var pc' := NextPc(cfg, s, e, move);
      assert pc'.Reading? ==> |pc'.ev| == |e.pc.ev| + 1;
    }
  }

  lemma RankDrops(cfg: Config, s: State, e: Evaluator, move: Move, w: nat)
    requires WellFormed(cfg, s, e) && Width(cfg, w) && CanMove(cfg, s, e, move)
    ensures Rank(cfg, NextEval(cfg, s, e, move), w) <= Rank(cfg, e, w) - (if move.Dispatch? then 2 else 1)
  {
    var e' := NextEval(cfg, s, e, move);
    if move.FetchRules? {
      SubsetSize(e'.todo, cfg.rules.Keys);
      StepsForMoreRules(|e'.todo|, |cfg.rules|, w);
    } else if move.TakeRule? {
      assert |e'.todo| == |e.todo| - 1;
    } else {
      PcDrops(cfg, s, e, move, w);
      StepsForMoreRules(RulesLeft(cfg, e'), RulesLeft(cfg, e), w);
    }
  }

  /** Every step of an evaluator or dispatch uses up one of the steps left; the clock uses none. */
  lemma StepsRunOut(cfg: Config, s: State, a: Action, w: nat)
    requires Invariant(cfg, s) && Width(cfg, w) && Enabled(cfg, s, a) && !a.SaveResult?
    ensures StepsLeft(cfg, Apply(cfg, s, a), w) <= StepsLeft(cfg, s, w) - (if a.Tick? then 0 else 1)
  {
    if a.Act? {
      var e := s.evals[a.k];
      assert WellFormed(cfg, s, e);
      RankDrops(cfg, s, e, a.move, w);
      TotalRankUpdate(cfg, s.evals, a.k, NextEval(cfg, s, e, a.move), w);
    }
  }

  lemma {:induction false} TotalRankPositive(cfg: Config, s: State, evals: seq<Evaluator>, w: nat)
    requires Width(cfg, w) && forall k | 0 <= k < |evals| :: WellFormed(cfg, s, evals[k])
    ensures TotalRank(cfg, evals, w) >= 0
  {
    if evals != [] {
      TotalRankPositive(cfg, s, evals[..|evals| - 1], w);
      RankPositive(cfg, s, evals[|evals| - 1], w);
    }
  }

  ghost function Steps(acts: seq<Action>): nat {
    if acts == [] then 0 else Steps(acts[..|acts| - 1]) + (if acts[|acts| - 1].Tick? then 0 else 1)
  }

  lemma StepsLeftPositive(cfg: Config, ss: seq<State>, acts: seq<Action>, n: nat, w: nat)
    requires Behavior(cfg, ss, acts) && Width(cfg, w) && n < |ss|
    ensures StepsLeft(cfg, ss[n], w) >= 0
  {
    Reachable(cfg, ss, acts, n);
    TotalRankPositive(cfg, ss[n], ss[n].evals, w);
  }

  lemma OneMoreStep(acts: seq<Action>, m: nat, n: nat)
    requires m < n <= |acts|
    ensures Steps(acts[m..n]) == Steps(acts[m..n - 1]) + (if acts[n - 1].Tick? then 0 else 1)
  {
    assert acts[m..n][..n - 1 - m] == acts[m..n - 1];
  }

  /**
   * Whenever saving stops (after action m), at most StepsLeft more steps are taken, however they are
   * scheduled. With NoDeadlock: every evaluation finishes and every owed alert is dispatched.
   */
  lemma {:induction false} EvaluationsFinish(cfg: Config, ss: seq<State>, acts: seq<Action>, m: nat, n: nat, w: nat)
    requires Behavior(cfg, ss, acts) && Width(cfg, w) && m <= n < |ss|
    requires forall i | m <= i < n :: !acts[i].SaveResult?
    ensures 0 <= StepsLeft(cfg, ss[n], w) <= StepsLeft(cfg, ss[m], w) - Steps(acts[m..n])
  {
    StepsLeftPositive(cfg, ss, acts, n, w);
    if m < n {
      EvaluationsFinish(cfg, ss, acts, m, n - 1, w);
      Reachable(cfg, ss, acts, n - 1);
      assert Enabled(cfg, ss[n - 1], acts[n - 1]) && ss[n] == Apply(cfg, ss[n - 1], acts[n - 1]);
      StepsRunOut(cfg, ss[n - 1], acts[n - 1], w);
      OneMoreStep(acts, m, n);
    } else {
      assert acts[m..n] == [];
    }
  }
}
