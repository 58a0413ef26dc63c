// Why rule evaluation takes the per-rule mutex (internal/engine/engine.go): without it, some run ends
// with a rule's stored state contradicting its last result for good.
module MutexNeeded {
  import opened Schema
  import opened Verdict
  import opened RuleStates
  import opened EngineProtocol

  const CONDITION := RuleCondition(0, 0, "status", "eq", "down", 1, 0, 0, 0, "AND")

  /** One rule, unhealthy when its one check is down; the lock is taken without excluding anybody. */
  function Unmutexed(): Config {
    Config((r: CheckResult, c: RuleCondition) => r.status == Down, map[0 := [CONDITION]], map[], false, false)
  }

  function Result(status: Status): CheckResult {
    CheckResult(0, status, 0, "", "", 0)
  }

  /** A run so far. */
  datatype Run = Run(states: seq<State>, acts: seq<Action>)

  ghost predicate IsRun(run: Run) {
    Behavior(Unmutexed(), run.states, run.acts)
  }

  function Last(run: Run): State
    requires run.states != []
  {
    run.states[|run.states| - 1]
  }

  lemma Extend(run: Run, a: Action) returns (longer: Run)
    requires IsRun(run) && Enabled(Unmutexed(), Last(run), a)
    ensures IsRun(longer) && Last(longer) == Apply(Unmutexed(), Last(run), a)
  {
    longer := Run(run.states + [Apply(Unmutexed(), Last(run), a)], run.acts + [a]);
  }

  lemma RuleConcerned()
    ensures RulesFor(Unmutexed(), 0) == {0}
  {
    assert Unmutexed().rules[0][0].checkId == 0;
  }

  ghost predicate IsDown(s: State) {
    0 in s.rd.current && s.rd.current[0].status == Down
  }

  lemma OneConditionDecides(value: bool)
    ensures Decided(Unmutexed(), 0, map[0 := Sample(value, 0)], if value then Unhealthy else Healthy)
  {
    var conds, seen := [CONDITION], Values(map[0 := Sample(value, 0)]);
    assert OperatorOf(conds, 0) == "AND";
    assert InGroup(conds, 0, 0);
    assert conds[0].group == 0;
  }

  ghost function Verdict0(s: State): Health {
    if IsDown(s) then Unhealthy else Healthy
  }

  ghost function Evidence0(s: State): Evidence {
    map[0 := Sample(IsDown(s), 0)]
  }

  /** Ready for the one rule, whose mutex, once made, is number 0. */
  ghost predicate Ready(s: State, k: nat) {
    s.now == 0 && k < |s.evals| && s.evals[k] == Evaluator(0, {}, Fetching) &&
    if 0 in s.mutexOf then s.mutexOf[0] == 0 else s.mutexes == 0
  }

  /** The same but for one evaluator, the mutexes and who holds them. */
  ghost predicate OnlyMoved(s: State, t: State, k: nat, e: Evaluator) {
    k < |s.evals| && t.evals == s.evals[k := e] && t.now == s.now && t.rd == s.rd && t.saved == s.saved &&
    t.table == s.table && t.inflight == s.inflight && t.mutexOf == s.mutexOf[0 := 0]
  }

  lemma Enter(run: Run, k: nat) returns (longer: Run)
    requires IsRun(run) && Ready(Last(run), k)
    ensures IsRun(longer) && OnlyMoved(Last(run), Last(longer), k, Evaluator(0, {}, Listing(0, 0)))
  {
    RuleConcerned();
    longer := Extend(run, Act(k, FetchRules));
    assert Last(longer).evals[k] == Evaluator(0, {0}, Idle);
    longer := Extend(longer, Act(k, TakeRule(0)));
    assert {0} - {0} == {};
    assert Last(longer).evals[k] == Evaluator(0, {}, Waiting(0, 0));
    longer := Extend(longer, Act(k, Lock));
  }

  lemma ReadAndDecide(run: Run, k: nat) returns (longer: Run)
    requires IsRun(run) && Last(run).now == 0 && k < |Last(run).evals| && Last(run).evals[k] == Evaluator(0, {}, Listing(0, 0))
    requires 0 in Last(run).mutexOf && Last(run).mutexOf[0] == 0
    ensures IsRun(longer) && OnlyMoved(Last(run), Last(longer), k, Evaluator(0, {}, Comparing(0, 0, Evidence0(Last(run)), Verdict0(Last(run)))))
  {
    longer := Extend(run, Act(k, ListConditions));
    assert Last(longer).evals[k].pc == Reading(0, 0, map[]);
    longer := Extend(longer, Act(k, ReadCondition(0)));
    assert Last(longer).evals[k].pc == Reading(0, 0, Evidence0(Last(run)));
    OneConditionDecides(IsDown(Last(run)));
    longer := Extend(longer, Act(k, Decide(Verdict0(Last(run)))));
  }

  lemma Leave(run: Run, k: nat) returns (longer: Run)
    requires IsRun(run) && k < |Last(run).evals| && Last(run).evals[k] == Evaluator(0, {}, Unlocking(0, 0))
    ensures IsRun(longer) && var s, t := Last(run), Last(longer);
            t.evals == s.evals[k := Evaluator(0, {}, Done)] && t.rd == s.rd && t.saved == s.saved && t.inflight == s.inflight && t.table == s.table
  {
    longer := Extend(run, Act(k, Unlock));
    longer := Extend(longer, Act(k, Finish));
  }

  /** A verdict equal to the stored state is only recorded. */
  lemma FinishUnchanged(run: Run, k: nat, ev: Evidence) returns (longer: Run)
    requires IsRun(run) && k < |Last(run).evals| && Last(run).evals[k] == Evaluator(0, {}, Comparing(0, 0, ev, Healthy))
    requires Last(run).table == map[]
    ensures IsRun(longer) && var s, t := Last(run), Last(longer);
            t.evals == s.evals[k := Evaluator(0, {}, Done)] && t.rd == s.rd && t.saved == s.saved && t.inflight == s.inflight &&
            StateOf(t.table, 0) == Healthy && 0 in t.table
  {
    longer := Extend(run, Act(k, Compare));
    assert Last(longer).evals[k].pc == Touching(0, 0, ev);
    longer := Extend(longer, Act(k, Touch));
    longer := Leave(longer, k);
  }

  lemma SwapIn(run: Run, k: nat, ev: Evidence) returns (longer: Run)
    requires IsRun(run) && k < |Last(run).evals| && Last(run).evals[k] == Evaluator(0, {}, Comparing(0, 0, ev, Unhealthy))
    requires 0 in Last(run).table && Last(run).table[0].current == Healthy
    ensures IsRun(longer) && var s, t := Last(run), Last(longer);
            t.evals == s.evals[k := Evaluator(0, {}, Alerting(0, 0, Healthy, Unhealthy))] && t.rd == s.rd && t.saved == s.saved &&
            t.inflight == s.inflight && StateOf(t.table, 0) == Unhealthy
  {
    longer := Extend(run, Act(k, Compare));
    assert Last(longer).evals[k].pc == Inserting(0, 0, ev, Healthy, Unhealthy);
    longer := Extend(longer, Act(k, Insert));
    longer := Extend(longer, Act(k, Swap));
  }

  lemma Alert(run: Run, k: nat) returns (longer: Run)
    requires IsRun(run) && k < |Last(run).evals| && Last(run).evals[k] == Evaluator(0, {}, Alerting(0, 0, Healthy, Unhealthy))
    requires Last(run).inflight == 0
    ensures IsRun(longer) && var s, t := Last(run), Last(longer);
            t.evals == s.evals[k := Evaluator(0, {}, Done)] && t.rd == s.rd && t.saved == s.saved && t.table == s.table
  {
    longer := Extend(run, Act(k, Dispatch));
    longer := Leave(longer, k);
  }

  lemma FirstJudge() returns (run: Run)
    ensures IsRun(run) && var s := Last(run);
            s.now == 0 && s.table == map[] && s.inflight == 0 && 0 in s.mutexOf && s.mutexOf[0] == 0 &&
            exists ev :: s.evals == [Evaluator(0, {}, Comparing(0, 0, ev, Unhealthy))]
  {
    run := Run([State(0, NO_READINGS, map[], map[], map[], 0, map[], [], 0, [], [], map[])], []);
    run := Extend(run, SaveResult(Result(Down)));
    assert Last(run).evals == [Evaluator(0, {}, Fetching)] && IsDown(Last(run));
    run := Enter(run, 0);
    run := ReadAndDecide(run, 0);
    assert Last(run).evals == [Evaluator(0, {}, Comparing(0, 0, Evidence0(Last(run)), Unhealthy))];
  }

  /** Down is saved and judged; before that verdict is compared and swapped, up is saved, judged and recorded. */
  lemma TwoJudges() returns (run: Run)
    ensures IsRun(run) && var s := Last(run);
            0 in s.rd.current && s.rd.current[0].status == Up && 0 in s.saved && s.inflight == 0 && 0 in s.table && s.table[0].current == Healthy &&
            exists ev :: s.evals == [Evaluator(0, {}, Comparing(0, 0, ev, Unhealthy)), Evaluator(0, {}, Done)]
  {
    run := FirstJudge();
    var ev := Last(run).evals[0].pc.ev;
    run := Extend(run, SaveResult(Result(Up)));
    run := Enter(run, 1);
    run := ReadAndDecide(run, 1);
    assert Last(run).evals == [Evaluator(0, {}, Comparing(0, 0, ev, Unhealthy)), Evaluator(0, {}, Comparing(0, 0, Evidence0(Last(run)), Healthy))];
    run := FinishUnchanged(run, 1, Evidence0(Last(run)));
    assert Last(run).evals == [Evaluator(0, {}, Comparing(0, 0, ev, Unhealthy)), Evaluator(0, {}, Done)];
  }

  lemma UpIsHealthy(s: State, at: int)
    requires 0 in s.rd.current && s.rd.current[0].status == Up
    ensures !UnhealthyAt(Unmutexed(), s, 0, [at])
  {
    var conds := [CONDITION];
    var vals := ValuesAt(Unmutexed().matches, conds, seq(1, i requires 0 <= i < 1 => Moment(s.rd, [at][i])));
    assert OperatorOf(conds, 0) == "AND";
    assert InGroup(conds, 0, 0) && !vals[0];
  }

  /** All evaluations finish, the last result is up, and the rule stays unhealthy. */
  lemma WithoutMutexTheStoredStateIsWrong() returns (run: Run)
    ensures IsRun(run) && !Unmutexed().mutexed && !Unmutexed().faulty
    ensures var s := Last(run); (forall k | 0 <= k < |s.evals| :: s.evals[k].pc.Done?) && SavedFor(Unmutexed(), s, 0)
    ensures StateOf(Last(run).table, 0) == Unhealthy
    ensures forall at :: !UnhealthyAt(Unmutexed(), Last(run), 0, [at])
  {
    run := TwoJudges();
    run := SwapIn(run, 0, Last(run).evals[0].pc.ev);
    run := Alert(run, 0);
    assert Unmutexed().rules[0][0].checkId == 0;
    assert Concerns(Unmutexed(), 0, 0);
    forall at ensures !UnhealthyAt(Unmutexed(), Last(run), 0, [at]) {
      UpIsHealthy(Last(run), at);
    }
  }
}
