// Rule state rows and their compare-and-swap (internal/store/rules.go), and one evaluation of one
// rule with nobody interfering (internal/engine/engine.go). EngineProtocol has the interleavings.
module RuleStates {
  import opened Prelude
  import opened Schema
  import opened Verdict

  /** A state change, and the alert dispatched for it. */
  datatype Change = Change(rule: Id, from: Health, to: Health)

  /** The engine takes a rule without a row for healthy. */
  function StateOf(table: map<Id, RuleState>, rule: Id): Health {
    if rule in table then table[rule].current else Healthy
  }

  /** INSERT OR IGNORE INTO rule_states */
  function InsertIgnore(table: map<Id, RuleState>, rule: Id, h: Health, now: int): map<Id, RuleState> {
    if rule in table then table else table[rule := RuleState(h, Some(now), Some(now))]
  }

  /** UPDATE rule_states ... WHERE rule_id = ? AND current_state = ? */
  function UpdateWhere(table: map<Id, RuleState>, rule: Id, from: Health, to: Health, now: int): map<Id, RuleState> {
    if rule in table && table[rule].current == from then table[rule := RuleState(to, Some(now), Some(now))] else table
  }

  /** The upsert of TouchRuleEvaluated. */
  function Touched(table: map<Id, RuleState>, rule: Id, now: int): map<Id, RuleState> {
    if rule in table then table[rule := table[rule].(lastEvaluated := Some(now))]
    else table[rule := RuleState(Healthy, Some(now), Some(now))]
  }

  class RuleStore {
    const rules: set<Id>
    var states: map<Id, RuleState>

    constructor (rules: set<Id>)
      ensures states == map[] && this.rules == rules
    {
      this.rules := rules;
      states := map[];
    }

    /** Two statements: seed the row, then swap it if it still says `from`. */
    method UpdateRuleStateCAS(rule: Id, from: Health, to: Health, now: int) returns (out: Outcome<bool>)
      modifies this
      ensures out.Err? ==> rule !in rules && states == old(states)
      ensures out.Ok? && out.value <==> (rule in rules || rule in old(states)) && (rule in old(states) ==> old(states)[rule].current == from)
      ensures out == Ok(true) ==> states == old(states)[rule := RuleState(to, Some(now), Some(now))]
      ensures out == Ok(false) ==> states == old(states)
    {
      if rule !in states && rule !in rules {
        return Err("FOREIGN KEY constraint failed");
      }
      states := InsertIgnore(states, rule, from, now);
      var affected := rule in states && states[rule].current == from;
      states := UpdateWhere(states, rule, from, to, now);
      return Ok(affected);
    }

    method TouchRuleEvaluated(rule: Id, now: int) returns (out: Outcome<()>)
      modifies this
      ensures out.Ok? <==> rule in rules || rule in old(states)
      ensures out.Ok? && rule in old(states) ==> states == old(states)[rule := RuleState(old(states)[rule].current, old(states)[rule].lastChange, Some(now))]
      ensures out.Ok? && rule !in old(states) ==> states == old(states)[rule := RuleState(Healthy, Some(now), Some(now))]
      ensures out.Err? ==> states == old(states)
      ensures forall r :: StateOf(states, r) == StateOf(old(states), r)
    {
      if rule !in states && rule !in rules {
        return Err("FOREIGN KEY constraint failed");
      }
      states := Touched(states, rule, now);
      return Ok(());
    }
  }

  class Engine {
    const store: RuleStore
    var dispatched: seq<Change>

    constructor (store: RuleStore)
      ensures this.store == store && dispatched == []
    {
      this.store := store;
      dispatched := [];
    }

    /** Moves the rule to its verdict and dispatches exactly one alert if that changed its state; a deleted rule stays as it was. */
    method EvaluateRule(matches: Matcher, rule: Id, conds: seq<RuleCondition>, at: seq<Moment>, now: int)
      requires |at| == |conds|
      modifies this`dispatched, store
      ensures forall r | r != rule :: StateOf(store.states, r) == StateOf(old(store.states), r)
      ensures var there := rule in store.rules || rule in old(store.states);
        StateOf(store.states, rule) ==
          if conds == [] || !there then StateOf(old(store.states), rule)
          else if Triggered(conds, ValuesAt(matches, conds, at)) then Unhealthy else Healthy
      ensures var from, to := StateOf(old(store.states), rule), StateOf(store.states, rule);
        dispatched == old(dispatched) + (if from != to then [Change(rule, from, to)] else [])
    {
      if |conds| == 0 {
        var _ := store.TouchRuleEvaluated(rule, now);
        return;
      }
      var triggered, _ := EvaluateGroups(matches, conds, at);
      var to := if triggered then Unhealthy else Healthy;
      var from := StateOf(store.states, rule);
      if to != from {
        var changed := store.UpdateRuleStateCAS(rule, from, to, now);
        if changed != Ok(true) {
          return;
        }
        dispatched := dispatched + [Change(rule, from, to)];
      } else {
        var _ := store.TouchRuleEvaluated(rule, now);
      }
    }
  }
}
