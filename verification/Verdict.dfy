// How one rule's conditions become a verdict (internal/engine/engine.go, evaluateRule up to the
// state comparison, and evaluateCondition). What a condition says of a single result, extractField
// followed by compare, is an arbitrary predicate.
module Verdict {
  import opened Prelude
  import opened Schema
  import opened Results

  type Matcher = (CheckResult, RuleCondition) -> bool

  /** What a condition evaluates to on given tables at a given moment. */
  ghost predicate CondHolds(matches: Matcher, rd: Readings, cond: RuleCondition, now: int) {
    if cond.failWindow > 0 then
      var recent := Window(rd.raw, cond.checkId, now - cond.failWindow);
      cond.failCount <= |recent| && forall i | 0 <= i < cond.failCount :: matches(recent[i], cond)
    else
      cond.checkId in rd.current && matches(rd.current[cond.checkId], cond)
  }

  /** Counts the streak of matches from the newest result on. */
  method EvaluateCondition(matches: Matcher, rd: Readings, cond: RuleCondition, now: int) returns (b: bool)
    ensures b == CondHolds(matches, rd, cond, now)
  {
    if cond.failWindow > 0 {
      var results := Window(rd.raw, cond.checkId, now - cond.failWindow);
      var streak := 0;
      while streak < |results| && matches(results[streak], cond)
        invariant 0 <= streak <= |results|
        invariant forall i | 0 <= i < streak :: matches(results[i], cond)
      {
        streak := streak + 1;
      }
      return streak >= cond.failCount;
    }
    return cond.checkId in rd.current && matches(rd.current[cond.checkId], cond);
  }

  // ---------- groups ----------

  predicate InGroup(conds: seq<RuleCondition>, g: int, i: nat) {
    i < |conds| && conds[i].group == g
  }

  /** The operator of a group: that of its last condition in sort order. */
  function OperatorOf(conds: seq<RuleCondition>, g: int): string {
    if conds == [] then "" else
      var last := conds[|conds| - 1];
      if last.group == g then last.groupOp else OperatorOf(conds[..|conds| - 1], g)
  }

  ghost predicate GroupHolds(conds: seq<RuleCondition>, vals: seq<bool>, g: int)
    requires |vals| == |conds|
  {
    if OperatorOf(conds, g) == "OR" then exists i: nat :: InGroup(conds, g, i) && vals[i]
    else forall i: nat :: InGroup(conds, g, i) ==> vals[i]
  }

  /** A rule is triggered when some group holds: any-of under OR, all-of otherwise. */
  ghost predicate Triggered(conds: seq<RuleCondition>, vals: seq<bool>)
    requires |vals| == |conds|
  {
    exists i | 0 <= i < |conds| :: GroupHolds(conds, vals, conds[i].group)
  }

  lemma {:induction false} OperatorOfLast(conds: seq<RuleCondition>, last: nat)
    requires last < |conds| && forall i | last < i < |conds| :: conds[i].group != conds[last].group
    ensures OperatorOf(conds, conds[last].group) == conds[last].groupOp
  {
    var n := |conds| - 1;
    if last < n {
      assert conds[n].group != conds[last].group;
      OperatorOfLast(conds[..n], last);
    }
  }

  lemma {:induction false} LastOfGroup(conds: seq<RuleCondition>, i: nat) returns (last: nat)
    requires i < |conds|
    ensures i <= last < |conds| && conds[last].group == conds[i].group
    ensures forall j | last < j < |conds| :: conds[j].group != conds[i].group
  {
    var n := |conds| - 1;
    if conds[n].group == conds[i].group {
      last := n;
    } else {
      last := LastOfGroup(conds[..n], i);
    }
  }

  /** The last condition of its group, under its own operator, and with it the group, speaks for the rule. */
  ghost predicate Speaks(conds: seq<RuleCondition>, vals: seq<bool>, last: nat)
    requires |vals| == |conds| && last < |conds|
  {
    (forall i | last < i < |conds| :: conds[i].group != conds[last].group) &&
    if conds[last].groupOp == "OR" then exists i | 0 <= i < |conds| :: conds[i].group == conds[last].group && vals[i]
    else forall i | 0 <= i < |conds| :: conds[i].group == conds[last].group ==> vals[i]
  }

  /**
   * A rule is triggered exactly if in some group, as the operator of its last condition says, one
   * condition holds ("OR") or all do (any other operator).
   */
  lemma TriggeredIff(conds: seq<RuleCondition>, vals: seq<bool>)
    requires |vals| == |conds|
    ensures Triggered(conds, vals) <==> exists last: nat | last < |conds| :: Speaks(conds, vals, last)
  {
    if Triggered(conds, vals) {
      var i :| 0 <= i < |conds| && GroupHolds(conds, vals, conds[i].group);
      var last := LastOfGroup(conds, i);
      OperatorOfLast(conds, last);
      assert InGroup(conds, conds[i].group, i);
      assert Speaks(conds, vals, last);
    }
    if last: nat :| last < |conds| && Speaks(conds, vals, last) {
      OperatorOfLast(conds, last);
      if conds[last].groupOp == "OR" {
        var i :| 0 <= i < |conds| && conds[i].group == conds[last].group && vals[i];
        assert InGroup(conds, conds[last].group, i);
      }
      assert GroupHolds(conds, vals, conds[last].group);
    }
  }

  // ---------- verdicts from some of the conditions ----------

  ghost predicate Refuted(conds: seq<RuleCondition>, seen: map<nat, bool>, g: int) {
    if OperatorOf(conds, g) == "OR" then forall i: nat :: InGroup(conds, g, i) ==> i in seen && !seen[i]
    else exists i: nat :: InGroup(conds, g, i) && i in seen && !seen[i]
  }

  ghost predicate Established(conds: seq<RuleCondition>, seen: map<nat, bool>, g: int) {
    if OperatorOf(conds, g) == "OR" then exists i: nat :: InGroup(conds, g, i) && i in seen && seen[i]
    else forall i: nat :: InGroup(conds, g, i) ==> i in seen && seen[i]
  }

  /** The values seen so far already fix the verdict. */
  ghost predicate Decides(conds: seq<RuleCondition>, seen: map<nat, bool>, verdict: bool) {
    if verdict then exists i | 0 <= i < |conds| :: Established(conds, seen, conds[i].group)
    else forall i | 0 <= i < |conds| :: Refuted(conds, seen, conds[i].group)
  }

  ghost predicate Extends(vals: seq<bool>, seen: map<nat, bool>) {
    forall i | i in seen :: i < |vals| && vals[i] == seen[i]
  }

  /** Short-circuiting is sound: whatever the conditions left unread would have said, the verdict stands. */
  lemma DecidedIsTriggered(conds: seq<RuleCondition>, seen: map<nat, bool>, verdict: bool, vals: seq<bool>)
    requires |vals| == |conds| && Extends(vals, seen) && Decides(conds, seen, verdict)
    ensures Triggered(conds, vals) == verdict
  {
    if verdict {
      var i :| 0 <= i < |conds| && Established(conds, seen, conds[i].group);
      assert GroupHolds(conds, vals, conds[i].group);
    } else {
      forall i | 0 <= i < |conds|
        ensures !GroupHolds(conds, vals, conds[i].group)
      {
        assert Refuted(conds, seen, conds[i].group);
      }
    }
  }

  // ---------- the loops of evaluateRule ----------

  /** What the database and the clock show when a condition is read. */
  datatype Moment = Moment(rd: Readings, now: int)

  /** What every condition would say if read at its moment. */
  ghost function ValuesAt(matches: Matcher, conds: seq<RuleCondition>, at: seq<Moment>): (vals: seq<bool>)
    requires |at| == |conds|
    ensures |vals| == |conds|
  {
    seq(|conds|, i requires 0 <= i < |conds| => CondHolds(matches, at[i].rd, conds[i], at[i].now))
  }

  ghost predicate Partition(conds: seq<RuleCondition>, groups: map<int, seq<nat>>) {
    (forall i: nat | i < |conds| :: conds[i].group in groups && i in groups[conds[i].group]) &&
    (forall g, i: nat | g in groups && i in groups[g] :: InGroup(conds, g, i)) &&
    (forall g | g in groups :: groups[g] != [])
  }

  /** Groups the conditions (by position) and records each group's operator. */
  method GroupConditions(conds: seq<RuleCondition>) returns (groups: map<int, seq<nat>>, ops: map<int, string>)
    ensures Partition(conds, groups) && ops.Keys == groups.Keys
    ensures forall g | g in ops :: ops[g] == OperatorOf(conds, g)
  {
    groups, ops := map[], map[];
    for i := 0 to |conds|
      invariant Partition(conds[..i], groups) && ops.Keys == groups.Keys
      invariant forall g | g in ops :: ops[g] == OperatorOf(conds[..i], g)
    {
      var g := conds[i].group;
      assert conds[..i + 1][..i] == conds[..i];
      groups := groups[g := (if g in groups then groups[g] else []) + [i]];
      ops := ops[g := conds[i].groupOp];
    }
    assert conds[..|conds|] == conds;
  }

  lemma StaysRefuted(conds: seq<RuleCondition>, seen: map<nat, bool>, more: map<nat, bool>, g: int)
    requires Refuted(conds, seen, g)
    requires forall i | i in seen :: i in more && more[i] == seen[i]
    ensures Refuted(conds, more, g)
  {}

  /** One group, left to right, stopping at the first decisive condition. */
  method EvaluateGroup(matches: Matcher, conds: seq<RuleCondition>, at: seq<Moment>, g: int, members: seq<nat>,
                       op: string, ghost seen0: map<nat, bool>, ghost vals: seq<bool>)
    returns (result: bool, ghost seen: map<nat, bool>)
    requires |at| == |conds| == |vals| && op == OperatorOf(conds, g) && Extends(vals, seen0)
    requires forall i: nat | i < |conds| :: vals[i] == CondHolds(matches, at[i].rd, conds[i], at[i].now)
    requires forall i: nat :: i in members <==> InGroup(conds, g, i)
    ensures Extends(vals, seen) && forall i | i in seen0 :: i in seen && seen[i] == seen0[i]
    ensures if result then Established(conds, seen, g) else Refuted(conds, seen, g)
  {
    var any := op == "OR";
    seen := seen0;
    for k := 0 to |members|
      invariant Extends(vals, seen) && forall i | i in seen0 :: i in seen && seen[i] == seen0[i]
      invariant forall j | 0 <= j < k :: members[j] in seen && seen[members[j]] != any
    {
      var i := members[k];
      assert InGroup(conds, g, i);
      var holds := EvaluateCondition(matches, at[i].rd, conds[i], at[i].now);
      seen := seen[i := holds];
      if holds == any {
        return any, seen;
      }
    }
    return !any, seen;
  }

  /**
   * Evaluates group after group, in whatever order the map yields them, and stops as soon as one
   * holds. `at[i]` is the moment condition i is read; results may be saved between two reads.
   */
  method EvaluateGroups(matches: Matcher, conds: seq<RuleCondition>, at: seq<Moment>)
    returns (triggered: bool, ghost seen: map<nat, bool>)
    requires |at| == |conds|
    ensures forall i | i in seen :: i < |conds| && seen[i] == CondHolds(matches, at[i].rd, conds[i], at[i].now)
    ensures Decides(conds, seen, triggered)
    ensures triggered == Triggered(conds, ValuesAt(matches, conds, at))
  {
    var groups, ops := GroupConditions(conds);
    ghost var vals := ValuesAt(matches, conds, at);
    triggered, seen := false, map[];
    var todo: set<int> := groups.Keys;
    while todo != {}
      invariant todo <= groups.Keys && Extends(vals, seen) && !triggered
      invariant forall g | g in groups.Keys - todo :: Refuted(conds, seen, g)
    {
      var g := Pick(todo);
      todo := todo - {g};
      ghost var before := seen;
      triggered, seen := EvaluateGroup(matches, conds, at, g, groups[g], ops[g], seen, vals);
      if triggered {
        var i := groups[g][0];
        assert i in groups[g] && InGroup(conds, g, i);
        break;
      }
      forall h | h in groups.Keys - todo && h != g
        ensures Refuted(conds, seen, h)
      {
        StaysRefuted(conds, before, seen, h);
      }
    }
    DecidedIsTriggered(conds, seen, triggered, vals);
  }
}
