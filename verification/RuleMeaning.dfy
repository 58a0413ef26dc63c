// What the conditions of a rule say of the results ever saved (internal/engine/engine.go,
// internal/store/results.go): over every run of saves and purges, in terms of the saves alone.
module RuleMeaning {
  import opened Schema
  import opened Results
  import opened Verdict
  import opened FailWindow

  /** Without a window, a condition holds exactly if the check has a result and its last one matches. */
  lemma LastResultDecides(matches: Matcher, ops: seq<Op>, cond: RuleCondition, now: int)
    requires cond.failWindow <= 0
    ensures var mine := Of(Ever(ops), cond.checkId);
            CondHolds(matches, Run(ops), cond, now) <==> mine != [] && matches(mine[|mine| - 1], cond)
  {
    CurrentIsLastSaved(ops, cond.checkId);
  }

  // ---------- purges behind the window ----------

  /** No purge of the run reaches into the time since `from`. */
  ghost predicate PurgesBefore(ops: seq<Op>, from: int) {
    forall i | 0 <= i < |ops| && ops[i].Purging? :: ops[i].now - ops[i].days * 86400 <= from
  }

  lemma WindowAppend(rows: seq<CheckResult>, r: CheckResult, check: Id, from: int)
    ensures Window(rows + [r], check, from) ==
            if r.checkId == check && r.checkedAt >= from then InsertNewest(r, Window(rows, check, from)) else Window(rows, check, from)
  {
    assert (rows + [r])[..|rows|] == rows;
  }

  lemma {:induction false} WindowOfYounger(rows: seq<CheckResult>, cutoff: int, check: Id, from: int)
    requires cutoff <= from
    ensures Window(Younger(rows, cutoff), check, from) == Window(rows, check, from)
  {
    if rows != [] {
      var init, r := rows[..|rows| - 1], rows[|rows| - 1];
      WindowOfYounger(init, cutoff, check, from);
      if r.checkedAt >= cutoff {
        WindowAppend(Younger(init, cutoff), r, check, from);
      }
    }
  }

  /** Then the window shows what it would show had nothing ever been purged. */
  lemma {:induction false} WindowForgetsNothing(ops: seq<Op>, check: Id, from: int)
    requires PurgesBefore(ops, from)
    ensures Window(Run(ops).raw, check, from) == Window(Ever(ops), check, from)
  {
    if ops != [] {
      var init, op := ops[..|ops| - 1], ops[|ops| - 1];
      WindowForgetsNothing(init, check, from);
      if op.Saving? {
        WindowAppend(Run(init).raw, op.r, check, from);
        WindowAppend(Ever(init), op.r, check, from);
      } else {
        var cutoff := op.now - op.days * 86400;
        RawAfterPurge(init, ops, cutoff);
        WindowOfYounger(Run(init).raw, cutoff, check, from);
      }
    }
  }

  /** The last n results exist, match and are no older than `from`. */
  ghost predicate LastMatch(matches: Matcher, cond: RuleCondition, mine: seq<CheckResult>, n: nat, from: int) {
    1 <= n <= |mine| && mine[|mine| - n].checkedAt >= from && forall i | |mine| - n <= i < |mine| :: matches(mine[i], cond)
  }

  lemma LastIsNewest(matches: Matcher, cond: RuleCondition, mine: seq<CheckResult>)
    requires 1 <= cond.failCount <= |mine|
    ensures AllMatch(matches, cond, mine) <==> forall i | |mine| - cond.failCount <= i < |mine| :: matches(mine[i], cond)
  {
    var n := cond.failCount;
    assert forall i | |mine| - n <= i < |mine| :: mine[i] == Newest(mine, |mine| - 1 - i);
  }

  lemma LastMatchIff(matches: Matcher, rd: Readings, cond: RuleCondition, now: int)
    requires cond.failWindow > 0 && cond.failCount >= 1 && InTimeOrder(Of(rd.raw, cond.checkId))
    ensures CondHolds(matches, rd, cond, now) <==> LastMatch(matches, cond, Of(rd.raw, cond.checkId), cond.failCount, now - cond.failWindow)
  {
    TriggersIff(matches, rd, cond, now);
    if cond.failCount <= |Of(rd.raw, cond.checkId)| {
      LastIsNewest(matches, cond, Of(rd.raw, cond.checkId));
    }
  }

  /** A log that shows the same window as all the rows would. */
  lemma SameWindowDecides(matches: Matcher, rd: Readings, rows: seq<CheckResult>, cond: RuleCondition, now: int)
    requires cond.failWindow > 0 && cond.failCount >= 1 && InTimeOrder(Of(rows, cond.checkId))
    requires Window(rd.raw, cond.checkId, now - cond.failWindow) == Window(rows, cond.checkId, now - cond.failWindow)
    ensures CondHolds(matches, rd, cond, now) <==> LastMatch(matches, cond, Of(rows, cond.checkId), cond.failCount, now - cond.failWindow)
  {
    var all := Readings(rows, map[], map[]);
    LastMatchIff(matches, all, cond, now);
    assert CondHolds(matches, rd, cond, now) == CondHolds(matches, all, cond, now);
  }

  /**
   * With a window, a condition holds exactly if the last failCount results saved for the check exist, all match and
   * lie in the window; for results saved in time order and purges that leave the window alone.
   */
  lemma LastResultsInWindowDecide(matches: Matcher, ops: seq<Op>, cond: RuleCondition, now: int)
    requires cond.failWindow > 0 && cond.failCount >= 1
    requires InTimeOrder(Of(Ever(ops), cond.checkId)) && PurgesBefore(ops, now - cond.failWindow)
    ensures CondHolds(matches, Run(ops), cond, now) <==>
            LastMatch(matches, cond, Of(Ever(ops), cond.checkId), cond.failCount, now - cond.failWindow)
  {
    var rd, rows, from := Run(ops), Ever(ops), now - cond.failWindow;
    assert Window(rd.raw, cond.checkId, from) == Window(rows, cond.checkId, from) by {
      WindowForgetsNothing(ops, cond.checkId, from);
    }
    SameWindowDecides(matches, rd, rows, cond, now);
  }

  // ---------- rules nobody has reported on ----------

  lemma NoRowsNoHold(matches: Matcher, ops: seq<Op>, cond: RuleCondition, now: int)
    requires Of(Ever(ops), cond.checkId) == [] && cond.failCount >= 1
    ensures !CondHolds(matches, Run(ops), cond, now)
  {
    if cond.failWindow <= 0 {
      LastResultDecides(matches, ops, cond, now);
    } else {
      RawIsKept(ops, cond.checkId);
      KeptIsFewer(ops, cond.checkId, |ops|);
      assert ops[..|ops|] == ops;
      TriggersIff(matches, Run(ops), cond, now);
    }
  }

  /**
   * A rule none of whose checks has any result is not triggered, whatever its groups and operators; its
   * conditions may be read at different moments, that is, after different runs.
   */
  lemma UnreportedIsHealthy(matches: Matcher, conds: seq<RuleCondition>, runs: seq<seq<Op>>, at: seq<Moment>)
    requires |at| == |conds| == |runs|
    requires forall i | 0 <= i < |conds| :: conds[i].failCount >= 1 && at[i].rd == Run(runs[i]) && Of(Ever(runs[i]), conds[i].checkId) == []
    ensures !Triggered(conds, ValuesAt(matches, conds, at))
  {
    var vals := ValuesAt(matches, conds, at);
    forall i | 0 <= i < |conds| ensures !vals[i] {
      NoRowsNoHold(matches, runs[i], conds[i], at[i].now);
    }
    forall i | 0 <= i < |conds| ensures !GroupHolds(conds, vals, conds[i].group) {
      assert InGroup(conds, conds[i].group, i);
    }
  }
}
