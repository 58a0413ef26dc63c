// Check results: the raw log, the current-state cache and the daily rollups
// (internal/store/results.go).
module Results {
  import opened Prelude
  import opened Schema

  const ROLLUP_DAYS := 90

  // ---------- what one statement does to the tables ----------

  /** SQLite integer division truncates toward zero. */
  function TruncDiv(a: int, b: int): int
    requires b > 0
  {
    if a >= 0 then a / b else -((-a) / b)
  }

  /** (avg * n + x) / (n + 1) */
  function NextAvg(avg: int, n: nat, x: int): int {
    TruncDiv(avg * n + x, n + 1)
  }

  function Max(a: int, b: int): int {
    if a >= b then a else b
  }

  function Lookup<K, V>(m: map<K, V>, k: K): Option<V> {
    if k in m then Some(m[k]) else None
  }

  function UpOf(r: CheckResult): nat {
    if r.status.Up? then 1 else 0
  }

  function KeyOf(r: CheckResult): (Id, int) {
    (r.checkId, DayOf(r.checkedAt))
  }

  /** The rollup row of a day after one more result of that day. */
  function Absorb(row: Option<Rollup>, r: CheckResult): Rollup {
    match row
    case None => Rollup(1, UpOf(r), 1 - UpOf(r), r.responseMs, r.responseMs)
    case Some(o) =>
      Rollup(o.total + 1, o.up + UpOf(r), o.down + 1 - UpOf(r),
             NextAvg(o.avg, o.total, r.responseMs), Max(o.max, r.responseMs))
  }

  function Save(rd: Readings, r: CheckResult): Readings {
    Readings(rd.raw + [r], rd.current[r.checkId := r],
             rd.rollups[KeyOf(r) := Absorb(Lookup(rd.rollups, KeyOf(r)), r)])
  }

  function Younger(rows: seq<CheckResult>, cutoff: int): (kept: seq<CheckResult>)
    ensures forall r :: r in kept <==> r in rows && r.checkedAt >= cutoff
  {
    if rows == [] then [] else
      var r := rows[|rows| - 1];
      var kept := Younger(rows[..|rows| - 1], cutoff);
      assert rows == rows[..|rows| - 1] + [r];
      if r.checkedAt >= cutoff then kept + [r] else kept
  }

  function Purge(rd: Readings, now: int, days: int): Readings {
    Readings(Younger(rd.raw, now - days * 86400), rd.current,
             map k | k in rd.rollups && k.1 >= DayOf(now) - ROLLUP_DAYS :: rd.rollups[k])
  }

  // ---------- queries ----------

  /** Inserts a row into a list kept newest first, before rows of the same instant. */
  function InsertNewest(r: CheckResult, rows: seq<CheckResult>): seq<CheckResult> {
    if rows == [] || r.checkedAt >= rows[0].checkedAt then [r] + rows
    else [rows[0]] + InsertNewest(r, rows[1..])
  }

  /** The results of a check since the cutoff, newest first (ties: the later row first). */
  function Window(rows: seq<CheckResult>, check: Id, cutoff: int): seq<CheckResult> {
    if rows == [] then [] else
      var r := rows[|rows| - 1];
      var older := Window(rows[..|rows| - 1], check, cutoff);
      if r.checkId == check && r.checkedAt >= cutoff then InsertNewest(r, older) else older
  }

  ghost function KeysSince(rd: Readings, check: Id, day: int): set<(Id, int)> {
    set k | k in rd.rollups && k.0 == check && k.1 >= day
  }

  ghost function Ups(rd: Readings): ((Id, int)) -> int {
    (k: (Id, int)) => if k in rd.rollups then rd.rollups[k].up else 0
  }

  ghost function Totals(rd: Readings): ((Id, int)) -> int {
    (k: (Id, int)) => if k in rd.rollups then rd.rollups[k].total else 0
  }

  /** A percentage, or -1 when there is nothing to count. */
  function Percent(up: int, total: int): real {
    if total == 0 then -1.0 else 100.0 * up as real / total as real
  }

  ghost function UptimePercent(rd: Readings, check: Id, days: int, today: int): real {
    Percent(Sum(KeysSince(rd, check, today - days), Ups(rd)), Sum(KeysSince(rd, check, today - days), Totals(rd)))
  }

  // ---------- whole runs ----------

  datatype Op = Saving(r: CheckResult) | Purging(now: int, days: int)

  function Step(rd: Readings, op: Op): Readings {
    match op
    case Saving(r) => Save(rd, r)
    case Purging(now, days) => Purge(rd, now, days)
  }

  function Run(ops: seq<Op>): Readings {
    if ops == [] then NO_READINGS else Step(Run(ops[..|ops| - 1]), ops[|ops| - 1])
  }

  /** Every result ever saved in a run, purged or not. */
  function Ever(ops: seq<Op>): seq<CheckResult> {
    if ops == [] then [] else
      var before := Ever(ops[..|ops| - 1]);
      match ops[|ops| - 1]
      case Saving(r) => before + [r]
      case Purging(_, _) => before
  }

  /** Results of a check on or after a day. */
  function CountSince(rows: seq<CheckResult>, check: Id, day: int): nat {
    if rows == [] then 0 else
      var r := rows[|rows| - 1];
      CountSince(rows[..|rows| - 1], check, day) + (if r.checkId == check && r.checkedAt / 86400 >= day then 1 else 0)
  }

  function UpsSince(rows: seq<CheckResult>, check: Id, day: int): nat {
    if rows == [] then 0 else
      var r := rows[|rows| - 1];
      UpsSince(rows[..|rows| - 1], check, day) + (if r.checkId == check && r.checkedAt / 86400 >= day && r.status == Up then 1 else 0)
  }

  ghost predicate PurgedBefore(ops: seq<Op>, today: int) {
    forall i | 0 <= i < |ops| :: ops[i].Purging? ==> ops[i].now / 86400 <= today
  }

  lemma {:induction false} SumAfterSave(rd: Readings, r: CheckResult, check: Id, day: int)
    ensures Sum(KeysSince(Save(rd, r), check, day), Totals(Save(rd, r))) ==
            Sum(KeysSince(rd, check, day), Totals(rd)) +
            (if r.checkId == check && DayOf(r.checkedAt) >= day then 1 else 0)
    ensures Sum(KeysSince(Save(rd, r), check, day), Ups(Save(rd, r))) ==
            Sum(KeysSince(rd, check, day), Ups(rd)) +
            (if r.checkId == check && DayOf(r.checkedAt) >= day then UpOf(r) else 0)
  {
    var rd', k := Save(rd, r), KeyOf(r);
    var before, after := KeysSince(rd, check, day), KeysSince(rd', check, day);
    if r.checkId == check && DayOf(r.checkedAt) >= day {
      assert after == before + {k};
      assert after - {k} == before - {k};
      SumExtract(after, Totals(rd'), k);
      SumExtract(after, Ups(rd'), k);
      SumAgree(before - {k}, Totals(rd), Totals(rd'));
      SumAgree(before - {k}, Ups(rd), Ups(rd'));
      if k in before {
        SumExtract(before, Totals(rd), k);
        SumExtract(before, Ups(rd), k);
      } else {
        assert before - {k} == before;
      }
    } else {
      assert after == before;
      SumAgree(before, Totals(rd), Totals(rd'));
      SumAgree(before, Ups(rd), Ups(rd'));
    }
  }

  lemma {:induction false} SumAfterPurge(rd: Readings, now: int, days: int, check: Id, day: int)
    requires day >= DayOf(now) - ROLLUP_DAYS
    ensures Sum(KeysSince(Purge(rd, now, days), check, day), Totals(Purge(rd, now, days))) ==
            Sum(KeysSince(rd, check, day), Totals(rd))
    ensures Sum(KeysSince(Purge(rd, now, days), check, day), Ups(Purge(rd, now, days))) ==
            Sum(KeysSince(rd, check, day), Ups(rd))
  {
    var rd' := Purge(rd, now, days);
    assert KeysSince(rd', check, day) == KeysSince(rd, check, day);
    SumAgree(KeysSince(rd, check, day), Totals(rd), Totals(rd'));
    SumAgree(KeysSince(rd, check, day), Ups(rd), Ups(rd'));
  }

  /** However saves and purges interleave, the rollups of the last 90 days count every result ever saved. */
  lemma {:induction false} RollupsCountEverything(ops: seq<Op>, check: Id, day: int, today: int)
    requires PurgedBefore(ops, today) && today - 90 <= day
    ensures Sum(KeysSince(Run(ops), check, day), Totals(Run(ops))) == CountSince(Ever(ops), check, day)
    ensures Sum(KeysSince(Run(ops), check, day), Ups(Run(ops))) == UpsSince(Ever(ops), check, day)
  {
    if ops == [] {
      assert KeysSince(NO_READINGS, check, day) == {};
    } else {
      var before, op := ops[..|ops| - 1], ops[|ops| - 1];
      RollupsCountEverything(before, check, day, today);
      match op
      case Saving(r) =>
        SumAfterSave(Run(before), r, check, day);
        assert Ever(ops)[..|Ever(ops)| - 1] == Ever(before);
      case Purging(now, days) =>
        SumAfterPurge(Run(before), now, days, check, day);
    }
  }

  /** p is the percentage of ups in total, or -1 when there is nothing to count. */
  ghost predicate IsPercentage(p: real, ups: nat, total: nat) {
    if total == 0 then p == -1.0 else 0.0 <= p <= 100.0 && p * total as real == 100.0 * ups as real
  }

  lemma {:induction false} UpsAmongAll(rows: seq<CheckResult>, check: Id, day: int)
    ensures UpsSince(rows, check, day) <= CountSince(rows, check, day)
  {
    if rows != [] {
      UpsAmongAll(rows[..|rows| - 1], check, day);
    }
  }

  lemma RealProduct(a: real, b: real, t: real)
    requires a < b && t > 0.0
    ensures a * t < b * t
  {}

  lemma PercentIsPercentage(ups: nat, total: nat)
    requires ups <= total
    ensures IsPercentage(Percent(ups, total), ups, total)
  {
    if total > 0 {
      var p, t := Percent(ups, total), total as real;
      assert p * t == 100.0 * ups as real;
      if p < 0.0 {
        RealProduct(p, 0.0, t);
        assert false;
      }
      if p > 100.0 {
        RealProduct(100.0, p, t);
        assert false;
      }
    }
  }

  lemma UptimeIsPercent(ops: seq<Op>, check: Id, days: int, today: int, ups: nat, total: nat)
    requires PurgedBefore(ops, today) && days <= 90
    requires ups == UpsSince(Ever(ops), check, today - days) && total == CountSince(Ever(ops), check, today - days)
    ensures UptimePercent(Run(ops), check, days, today) == Percent(ups, total)
  {
    RollupsCountEverything(ops, check, today - days, today);
  }

  /** Uptime over at most 90 days is the percentage of ups among all results ever saved for those days. */
  lemma UptimeIsExact(ops: seq<Op>, check: Id, days: int, today: int)
    requires PurgedBefore(ops, today) && days <= 90
    ensures IsPercentage(UptimePercent(Run(ops), check, days, today),
                         UpsSince(Ever(ops), check, today - days), CountSince(Ever(ops), check, today - days))
  {
    var ups, total := UpsSince(Ever(ops), check, today - days), CountSince(Ever(ops), check, today - days);
    UptimeIsPercent(ops, check, days, today, ups, total);
    UpsAmongAll(Ever(ops), check, today - days);
    PercentIsPercentage(ups, total);
  }

  lemma ForgottenDay(rd: Readings, r: CheckResult, now: int)
    requires rd.rollups.Keys == {KeyOf(r)} && DayOf(r.checkedAt) < DayOf(now) - ROLLUP_DAYS
    ensures forall check, day :: KeysSince(Purge(rd, now, 1), check, day) == {}
  {}

  /** One old result, up, and one purge. */
  function OldResult(days: int): seq<Op> {
    [Saving(CheckResult(0, Up, 1, "", "", 0)), Purging(days * 86400, 1)]
  }

  lemma OldResultCounts(days: int)
    ensures UpsSince(Ever(OldResult(days)), 0, 0) == CountSince(Ever(OldResult(days)), 0, 0) == 1
  {
    var ops := OldResult(days);
    var r := ops[0].r;
    assert ops[..1] == [Saving(r)] && [Saving(r)][..0] == [];
    assert Ever(ops[..1]) == [r] && Ever(ops) == [r];
    assert [r][..0] == [];
  }

  /** Beyond 90 days the claim fails: after the purge there is nothing left to count. */
  lemma LongerSpansForget(days: int)
    requires days > 90
    ensures var ops := OldResult(days);
            PurgedBefore(ops, days) && UpsSince(Ever(ops), 0, 0) == CountSince(Ever(ops), 0, 0) == 1 &&
            UptimePercent(Run(ops), 0, days, days) == -1.0
  {
    var ops := OldResult(days);
    OldResultCounts(days);
    assert ops[..1] == [ops[0]] && ops[..1][..0] == [];
    assert Run(ops[..1]) == Save(NO_READINGS, ops[0].r);
    ForgottenDay(Run(ops[..1]), ops[0].r, days * 86400);
  }

  lemma {:induction false} TotalIsUpPlusDown(ops: seq<Op>)
    ensures forall k | k in Run(ops).rollups ::
              Run(ops).rollups[k].total == Run(ops).rollups[k].up + Run(ops).rollups[k].down && Run(ops).rollups[k].total >= 1
  {
    if ops != [] {
      TotalIsUpPlusDown(ops[..|ops| - 1]);
    }
  }

  // ---------- the current-state row ----------

  /** The results of one check, in the order they were saved. */
  function Of(rows: seq<CheckResult>, check: Id): seq<CheckResult> {
    if rows == [] then [] else
      var r := rows[|rows| - 1];
      var mine := Of(rows[..|rows| - 1], check);
      if r.checkId == check then mine + [r] else mine
  }

  lemma {:induction false} OfMember(rows: seq<CheckResult>, check: Id, r: CheckResult)
    ensures r in Of(rows, check) <==> r in rows && r.checkId == check
  {
    if rows != [] {
      OfMember(rows[..|rows| - 1], check, r);
      assert rows == rows[..|rows| - 1] + [rows[|rows| - 1]];
    }
  }

  ghost predicate InTimeOrder(rows: seq<CheckResult>) {
    forall i, j | 0 <= i < j < |rows| :: rows[i].checkedAt <= rows[j].checkedAt
  }

  ghost predicate LastOf(current: map<Id, CheckResult>, mine: seq<CheckResult>, check: Id) {
    (check in current <==> mine != []) && (mine != [] ==> current[check] == mine[|mine| - 1])
  }

  lemma OfAppend(rows: seq<CheckResult>, r: CheckResult, check: Id)
    ensures Of(rows + [r], check) == if r.checkId == check then Of(rows, check) + [r] else Of(rows, check)
  {
    assert (rows + [r])[..|rows|] == rows;
  }

  lemma {:induction false} CurrentIsLastSaved(ops: seq<Op>, check: Id)
    ensures LastOf(Run(ops).current, Of(Ever(ops), check), check)
  {
    if ops != [] {
      var before, op := ops[..|ops| - 1], ops[|ops| - 1];
      CurrentIsLastSaved(before, check);
      match op
      case Saving(r) =>
        assert Ever(ops) == Ever(before) + [r];
        OfAppend(Ever(before), r, check);
      case Purging(_, _) =>
    }
  }

  ghost predicate IsNewest(current: map<Id, CheckResult>, rows: seq<CheckResult>, check: Id) {
    (check in current ==> current[check] in rows && current[check].checkId == check) &&
    forall r | r in rows && r.checkId == check :: check in current && r.checkedAt <= current[check].checkedAt
  }

  /**
   * If a check's results are saved in time order, as the scheduler guarantees, its current-state
   * row is the newest result ever saved, whatever has been purged from the raw log.
   */
  lemma CurrentIsNewest(ops: seq<Op>, check: Id)
    requires InTimeOrder(Of(Ever(ops), check))
    ensures IsNewest(Run(ops).current, Ever(ops), check)
  {
    CurrentIsLastSaved(ops, check);
    var rows, mine, current := Ever(ops), Of(Ever(ops), check), Run(ops).current;
    forall r | r in rows && r.checkId == check
      ensures check in current && r.checkedAt <= current[check].checkedAt
    {
      OfMember(rows, check, r);
      var i :| 0 <= i < |mine| && mine[i] == r;
    }
    if check in current {
      OfMember(rows, check, current[check]);
    }
  }

  // ---------- the raw log ----------

  /** The result saved by step i was older than the retention of a later purge. */
  ghost predicate CutOff(ops: seq<Op>, i: nat)
    requires i < |ops| && ops[i].Saving?
  {
    exists j | i < j < |ops| :: ops[j].Purging? && ops[i].r.checkedAt < ops[j].now - ops[j].days * 86400
  }

  /** The results of a check that the first n steps saved and no purge of the run cut off, in order. */
  ghost function Kept(ops: seq<Op>, check: Id, n: nat): seq<CheckResult>
    requires n <= |ops|
  {
    if n == 0 then [] else
      var before := Kept(ops, check, n - 1);
      if ops[n - 1].Saving? && ops[n - 1].r.checkId == check && !CutOff(ops, n - 1) then before + [ops[n - 1].r] else before
  }

  lemma {:induction false} OfYounger(rows: seq<CheckResult>, check: Id, cutoff: int)
    ensures Of(Younger(rows, cutoff), check) == Younger(Of(rows, check), cutoff)
  {
    if rows != [] {
      var init, r := rows[..|rows| - 1], rows[|rows| - 1];
      OfYounger(init, check, cutoff);
      OfAppend(Younger(init, cutoff), r, check);
      assert (Of(init, check) + [r])[..|Of(init, check)|] == Of(init, check);
    }
  }

  lemma CutOffLater(init: seq<Op>, ops: seq<Op>, i: nat)
    requires |ops| == |init| + 1 && (forall j | 0 <= j < |init| :: ops[j] == init[j]) && i < |init| && init[i].Saving?
    ensures var op := ops[|init|];
            CutOff(ops, i) <==> CutOff(init, i) || (op.Purging? && init[i].r.checkedAt < op.now - op.days * 86400)
  {}

  lemma YoungerAppend(rows: seq<CheckResult>, r: CheckResult, cutoff: int)
    ensures Younger(rows + [r], cutoff) == if r.checkedAt >= cutoff then Younger(rows, cutoff) + [r] else Younger(rows, cutoff)
  {
    assert (rows + [r])[..|rows|] == rows;
  }

  /** A save cuts nothing off. */
  lemma {:induction false} KeptBySave(init: seq<Op>, ops: seq<Op>, check: Id, n: nat)
    requires |ops| == |init| + 1 && (forall j | 0 <= j < |init| :: ops[j] == init[j]) && ops[|init|].Saving? && n <= |init|
    ensures Kept(ops, check, n) == Kept(init, check, n)
  {
    if n > 0 {
      KeptBySave(init, ops, check, n - 1);
      if init[n - 1].Saving? {
        CutOffLater(init, ops, n - 1);
      }
    }
  }

  /** A purge cuts off all that is older than its retention. */
  lemma {:induction false} KeptByPurge(init: seq<Op>, ops: seq<Op>, check: Id, n: nat, cutoff: int)
    requires |ops| == |init| + 1 && (forall j | 0 <= j < |init| :: ops[j] == init[j]) && n <= |init|
    requires ops[|init|].Purging? && cutoff == ops[|init|].now - ops[|init|].days * 86400
    ensures Kept(ops, check, n) == Younger(Kept(init, check, n), cutoff)
  {
    if n > 0 {
      KeptByPurge(init, ops, check, n - 1, cutoff);
      if init[n - 1].Saving? {
        CutOffLater(init, ops, n - 1);
        YoungerAppend(Kept(init, check, n - 1), init[n - 1].r, cutoff);
      }
    }
  }

  lemma RawAfterSave(init: seq<Op>, ops: seq<Op>, check: Id)
    requires ops != [] && init == ops[..|ops| - 1] && ops[|ops| - 1].Saving? && Of(Run(init).raw, check) == Kept(init, check, |init|)
    ensures Of(Run(ops).raw, check) == Kept(ops, check, |ops|)
  {
    var r := ops[|ops| - 1].r;
    KeptBySave(init, ops, check, |init|);
    OfAppend(Run(init).raw, r, check);
    assert Run(ops).raw == Run(init).raw + [r];
    assert !CutOff(ops, |init|);
  }

  lemma RawAfterPurge(init: seq<Op>, ops: seq<Op>, cutoff: int)
    requires ops != [] && init == ops[..|ops| - 1] && ops[|ops| - 1].Purging? && cutoff == ops[|ops| - 1].now - ops[|ops| - 1].days * 86400
    ensures Run(ops).raw == Younger(Run(init).raw, cutoff)
  {}

  lemma KeptAfterPurge(init: seq<Op>, ops: seq<Op>, check: Id, cutoff: int)
    requires ops != [] && init == ops[..|ops| - 1] && ops[|ops| - 1].Purging? && cutoff == ops[|ops| - 1].now - ops[|ops| - 1].days * 86400
    ensures Kept(ops, check, |ops|) == Younger(Kept(init, check, |init|), cutoff)
  {
    KeptByPurge(init, ops, check, |init|, cutoff);
  }

  /** In every run, the raw log holds of each check exactly the saved results that no later purge cut off, in order. */
  lemma {:induction false} RawIsKept(ops: seq<Op>, check: Id)
    ensures Of(Run(ops).raw, check) == Kept(ops, check, |ops|)
  {
    if ops != [] {
      var init := ops[..|ops| - 1];
      RawIsKept(init, check);
      if ops[|ops| - 1].Saving? {
        RawAfterSave(init, ops, check);
      } else {
        var cutoff := ops[|ops| - 1].now - ops[|ops| - 1].days * 86400;
        RawAfterPurge(init, ops, cutoff);
        KeptAfterPurge(init, ops, check, cutoff);
        OfYounger(Run(init).raw, check, cutoff);
      }
    }
  }

  /** Nothing is lost that no purge cut off. */
  lemma {:induction false} KeptIsEver(ops: seq<Op>, check: Id, n: nat)
    requires n <= |ops|
    requires forall i: nat | i < n && ops[i].Saving? && ops[i].r.checkId == check :: !CutOff(ops, i)
    ensures Kept(ops, check, n) == Of(Ever(ops[..n]), check)
  {
    if n > 0 {
      KeptIsEver(ops, check, n - 1);
      var part := ops[..n];
      assert part[..|part| - 1] == ops[..n - 1];
      if ops[n - 1].Saving? {
        OfAppend(Ever(ops[..n - 1]), ops[n - 1].r, check);
      }
    }
  }

  /** Without purges the raw log of a check is all that was ever saved for it. */
  lemma WithoutPurgesAllIsKept(ops: seq<Op>, check: Id)
    requires forall i | 0 <= i < |ops| :: ops[i].Saving?
    ensures Of(Run(ops).raw, check) == Of(Ever(ops), check)
  {
    RawIsKept(ops, check);
    KeptIsEver(ops, check, |ops|);
    assert ops[..|ops|] == ops;
  }

  lemma {:induction false} KeptIsFewer(ops: seq<Op>, check: Id, n: nat)
    requires n <= |ops|
    ensures |Kept(ops, check, n)| <= |Of(Ever(ops[..n]), check)|
  {
    if n > 0 {
      KeptIsFewer(ops, check, n - 1);
      var part := ops[..n];
      assert part[..|part| - 1] == ops[..n - 1];
      if ops[n - 1].Saving? {
        OfAppend(Ever(ops[..n - 1]), ops[n - 1].r, check);
      }
    }
  }

  // ---------- the average and maximum of one day ----------

  /** The response times saved for a check on a day, in order. */
  function TimesOn(rows: seq<CheckResult>, key: (Id, int)): seq<int> {
    if rows == [] then [] else
      var r := rows[|rows| - 1];
      var times := TimesOn(rows[..|rows| - 1], key);
      if KeyOf(r) == key then times + [r.responseMs] else times
  }

  /** The average the upsert keeps, one integer division a result. */
  function RunningAvg(times: seq<int>): int {
    if |times| <= 1 then (if times == [] then 0 else times[0]) else
      var n := |times| - 1;
      NextAvg(RunningAvg(times[..n]), n, times[n])
  }

  function Total(times: seq<int>): int {
    if times == [] then 0 else Total(times[..|times| - 1]) + times[|times| - 1]
  }

  ghost predicate IsMax(m: int, times: seq<int>) {
    m in times && forall x | x in times :: x <= m
  }

  ghost predicate Summarizes(row: Option<Rollup>, times: seq<int>) {
    match row
    case None => times == []
    case Some(o) => times != [] && o.total == |times| && o.avg == RunningAvg(times) && IsMax(o.max, times)
  }

  lemma AvgAppend(times: seq<int>, x: int)
    requires times != []
    ensures RunningAvg(times + [x]) == NextAvg(RunningAvg(times), |times|, x)
  {
    assert (times + [x])[..|times|] == times;
  }

  lemma MaxAppend(m: int, times: seq<int>, x: int)
    requires IsMax(m, times)
    ensures IsMax(Max(m, x), times + [x])
  {
    assert x in times + [x];
  }

  lemma AbsorbAvg(o: Rollup, times: seq<int>, r: CheckResult)
    requires times != [] && o.total == |times| && o.avg == RunningAvg(times)
    ensures Absorb(Some(o), r).avg == RunningAvg(times + [r.responseMs])
  {
    AvgAppend(times, r.responseMs);
  }

  lemma AbsorbFirst(r: CheckResult)
    ensures Summarizes(Some(Absorb(None, r)), [r.responseMs])
  {}

  lemma AbsorbSummarizes(row: Option<Rollup>, times: seq<int>, r: CheckResult)
    requires Summarizes(row, times)
    ensures Summarizes(Some(Absorb(row, r)), times + [r.responseMs])
  {
    match row
    case None =>
      AbsorbFirst(r);
      assert times + [r.responseMs] == [r.responseMs];
    case Some(o) =>
      AbsorbAvg(o, times, r);
      MaxAppend(o.max, times, r.responseMs);
  }

  /** Within the retention, a rollup row carries the running average and the exact maximum of its day. */
  lemma {:induction false} RollupOfDay(ops: seq<Op>, key: (Id, int), today: int)
    requires PurgedBefore(ops, today) && today - 90 <= key.1
    ensures Summarizes(Lookup(Run(ops).rollups, key), TimesOn(Ever(ops), key))
  {
    if ops != [] {
      var before, op := ops[..|ops| - 1], ops[|ops| - 1];
      RollupOfDay(before, key, today);
      match op
      case Saving(r) =>
        assert Ever(ops) == Ever(before) + [r];
        assert Ever(ops)[..|Ever(before)|] == Ever(before);
        if KeyOf(r) == key {
          AbsorbSummarizes(Lookup(Run(before).rollups, key), TimesOn(Ever(before), key), r);
        }
      case Purging(_, _) =>
    }
  }

  lemma DivBounds(a: nat, b: int)
    requires b > 0
    ensures 0 <= a - b * (a / b) <= b - 1
  {}

  lemma TruncDivError(a: int, b: int)
    requires b > 0
    ensures -(b - 1) <= a - b * TruncDiv(a, b) <= b - 1
    ensures a >= 0 ==> 0 <= a - b * TruncDiv(a, b)
  {
    DivBounds(if a >= 0 then a else -a, b);
  }

  function Triangle(n: nat): nat {
    if n == 0 then 0 else Triangle(n - 1) + n - 1
  }

  lemma {:induction false} TriangleClosed(n: nat)
    ensures 2 * Triangle(n) == n * (n - 1)
  {
    if n > 0 { TriangleClosed(n - 1); }
  }

  lemma StepArithmetic(n: int, a: int, x: int, q: int, total: int)
    requires -n <= a * n + x - (n + 1) * q <= n
    requires a * n + x >= 0 ==> a * n + x - (n + 1) * q >= 0
    ensures -n <= (total + x - (n + 1) * q) - (total - n * a) <= n
    ensures a * n + x >= 0 ==> total + x - (n + 1) * q >= total - n * a
  {
    assert a * n == n * a;
  }

  lemma AvgStep(times: seq<int>)
    requires |times| > 1
    ensures var n, init, x := |times| - 1, times[..|times| - 1], times[|times| - 1];
            var before := Total(init) - n * RunningAvg(init);
            var after := Total(times) - (n + 1) * RunningAvg(times);
            0 - n <= after - before <= n && (RunningAvg(init) * n + x >= 0 ==> after >= before)
  {
    var n, init, x := |times| - 1, times[..|times| - 1], times[|times| - 1];
    var a, q := RunningAvg(init), RunningAvg(times);
    assert Total(times) == Total(init) + x;
    TruncDivError(a * n + x, n + 1);
    StepArithmetic(n, a, x, q, Total(init));
  }

  /** The deficit of the kept average against the true total grows by at most n - 1 at the n-th result. */
  lemma {:induction false} AvgDeficit(times: seq<int>)
    ensures 0 - Triangle(|times|) <= Total(times) - |times| * RunningAvg(times) <= Triangle(|times|)
  {
    var k := |times|;
    if k > 1 {
      AvgDeficit(times[..k - 1]);
      AvgStep(times);
    } else if k == 1 {
      assert times[..0] == [];
    }
  }

  lemma NonNegative(a: int, n: int, x: int, k: int)
    requires a >= 0 && n >= 0 && x >= 0 && k > 0
    ensures a * n + x >= 0 && (a * n + x) / k >= 0
  {}

  lemma {:induction false} AvgBelowMean(times: seq<int>)
    requires forall x | x in times :: x >= 0
    ensures RunningAvg(times) >= 0 && Total(times) - |times| * RunningAvg(times) >= 0
  {
    var n := |times| - 1;
    if n > 0 {
      var init := times[..n];
      assert forall x | x in init :: x in times;
      assert times[n] in times;
      AvgBelowMean(init);
      NonNegative(RunningAvg(init), n, times[n], n + 1);
      AvgStep(times);
    } else if n == 0 {
      assert times[..0] == [] && times[0] in times;
    }
  }

  lemma ProductMonotone(n: nat, a: int, b: int)
    requires a <= b
    ensures n * a <= n * b
  {}

  lemma QuotientAtLeast(a: int, n: nat, x: int, low: nat)
    requires a >= low && x >= low
    ensures a * n + x >= 0 && (a * n + x) / (n + 1) >= low
  {
    assert a * n >= low * n;
    DivBounds(a * n + x, n + 1);
    var q := (a * n + x) / (n + 1);
    if q < low {
      ProductMonotone(n + 1, q + 1, low);
      assert false;
    }
  }

  lemma {:induction false} AvgAtLeast(times: seq<int>, low: nat)
    requires times != [] && forall x | x in times :: x >= low
    ensures RunningAvg(times) >= low
  {
    var n := |times| - 1;
    assert times[n] in times;
    if n > 0 {
      var init := times[..n];
      assert forall x | x in init :: x in times;
      AvgAtLeast(init, low);
      QuotientAtLeast(RunningAvg(init), n, times[n], low);
    }
  }

  /**
   * Drift of the stored average: for n response times (never negative) it lies between the minimum
   * and the true mean, at most (n - 1) / 2 below the mean. In integers: the mean times n is the total.
   */
  lemma AverageDrift(times: seq<int>, low: nat)
    requires times != [] && forall x | x in times :: x >= low
    ensures low <= RunningAvg(times)
    ensures |times| * RunningAvg(times) <= Total(times)
    ensures 2 * (Total(times) - |times| * RunningAvg(times)) <= |times| * (|times| - 1)
  {
    AvgAtLeast(times, low);
    AvgDeficit(times);
    AvgBelowMean(times);
    TriangleClosed(|times|);
  }

  /** 0, 1, 2, ..., n - 1 */
  function Ramp(n: nat): (s: seq<int>)
    ensures |s| == n && forall x | x in s :: x >= 0
  {
    if n == 0 then [] else Ramp(n - 1) + [n - 1]
  }

  /** The bound is attained by 0, 1, 2, ..., n - 1: the stored average never leaves 0. */
  lemma {:induction false} DriftIsTight(n: nat)
    requires n > 0
    ensures RunningAvg(Ramp(n)) == 0 && 2 * Total(Ramp(n)) == n * (n - 1)
  {
    var ramp := Ramp(n);
    assert ramp[..n - 1] == Ramp(n - 1) && ramp[n - 1] == n - 1;
    if n == 1 {
      assert Total(Ramp(0)) == 0;
    } else {
      DriftIsTight(n - 1);
      DivBounds(n - 1, n);
      assert (n - 1) / n == 0;
      assert RunningAvg(ramp) == TruncDiv(n - 1, n);
      assert Total(ramp) == Total(Ramp(n - 1)) + n - 1;
    }
  }

  // ---------- the store ----------

  datatype Tally = Tally(up: int, total: int)

  /** What the rows outside `todo` contribute to the uptime of a check. */
  ghost function TallyOutside(rd: Readings, check: Id, from: int, todo: set<(Id, int)>): Tally {
    Tally(Sum(KeysSince(rd, check, from) - todo, Ups(rd)), Sum(KeysSince(rd, check, from) - todo, Totals(rd)))
  }

  function Bump(t: Tally, row: Rollup): Tally {
    Tally(t.up + row.up, t.total + row.total)
  }

  lemma OneMoreRow(rd: Readings, check: Id, from: int, todo: set<(Id, int)>, k: (Id, int))
    requires k in todo && k in rd.rollups
    ensures TallyOutside(rd, check, from, todo - {k}) ==
            if check == k.0 && k.1 >= from then Bump(TallyOutside(rd, check, from, todo), rd.rollups[k])
            else TallyOutside(rd, check, from, todo)
  {
    var keys := KeysSince(rd, check, from);
    if k in keys {
      SumExtract(keys - (todo - {k}), Ups(rd), k);
      SumExtract(keys - (todo - {k}), Totals(rd), k);
      assert keys - (todo - {k}) - {k} == keys - todo;
    } else {
      assert keys - (todo - {k}) == keys - todo;
    }
  }

  datatype Summary = Summary(status: Status, message: string, responseMs: int, uptime90d: real)

  /** The part of the store that holds results; `checks` are the primary keys a result may refer to. */
  class ResultStore {
    var checks: set<Id>
    var raw: seq<CheckResult>
    var current: map<Id, CheckResult>
    var rollups: map<(Id, int), Rollup>

    ghost function Tables(): Readings
      reads this
    {
      Readings(raw, current, rollups)
    }

    constructor (checks: set<Id>)
      ensures Tables() == NO_READINGS && this.checks == checks
    {
      this.checks := checks;
      raw, current, rollups := [], map[], map[];
    }

    /** Three upserts in one transaction; the foreign key of the first may refuse them all. */
    method SaveResult(r: CheckResult) returns (out: Outcome<()>)
      modifies this`raw, this`current, this`rollups
      ensures out.Ok? <==> r.checkId in checks
      ensures Tables() == if out.Ok? then Save(old(Tables()), r) else old(Tables())
    {
      if r.checkId !in checks {
        return Err("insert check_results: FOREIGN KEY constraint failed");
      }
      raw := raw + [r];
      current := current[r.checkId := r];
      var row := Lookup(rollups, KeyOf(r));
      rollups := rollups[KeyOf(r) := Absorb(row, r)];
      return Ok(());
    }

    method PurgeOldResults(days: int, now: int) returns (purged: nat)
      modifies this`raw, this`rollups
      ensures Tables() == Purge(old(Tables()), now, days)
      ensures purged == |old(raw)| - |raw|
    {
      var cutoff, kept := now - days * 86400, [];
      for i := 0 to |raw|
        invariant raw == old(raw) && rollups == old(rollups)
        invariant kept == Younger(raw[..i], cutoff) && |kept| <= i
      {
        assert raw[..i + 1][..i] == raw[..i];
        if raw[i].checkedAt >= cutoff {
          kept := kept + [raw[i]];
        }
      }
      assert raw[..|raw|] == raw;
      purged := |raw| - |kept|;
      raw := kept;

      var todo := rollups.Keys;
      while todo != {}
        invariant todo <= rollups.Keys <= old(rollups).Keys
        invariant raw == kept
        invariant forall k | k in rollups :: rollups[k] == old(rollups)[k]
        invariant forall k | k in old(rollups) ::
          k in rollups <==> k in todo || k.1 >= DayOf(now) - ROLLUP_DAYS
      {
        var k :| k in todo;
        todo := todo - {k};
        if k.1 < DayOf(now) - ROLLUP_DAYS {
          rollups := rollups - {k};
        }
      }
    }

    method GetUptimePercent(check: Id, days: int, today: int) returns (percent: real)
      ensures percent == UptimePercent(Tables(), check, days, today)
    {
      var up, total, todo := 0, 0, rollups.Keys;
      ghost var all, done := KeysSince(Tables(), check, today - days), {};
      while todo != {}
        invariant todo <= rollups.Keys && done == all - todo
        invariant up == Sum(done, Ups(Tables())) && total == Sum(done, Totals(Tables()))
      {
        var k :| k in todo;
        todo := todo - {k};
        if k.0 == check && k.1 >= today - days {
          up, total := up + rollups[k].up, total + rollups[k].total;
          SumExtract(done + {k}, Ups(Tables()), k);
          SumExtract(done + {k}, Totals(Tables()), k);
          assert done + {k} - {k} == done;
          done := done + {k};
        }
      }
      assert done == all;
      percent := Percent(up, total);
    }

    /** One pass over the rollups, grouped by check, joined to the current-state rows. */
    method GetBatchLastResultAndUptime(today: int) returns (batch: map<Id, Summary>)
      ensures batch.Keys == current.Keys
      ensures forall c | c in batch ::
        batch[c] == Summary(current[c].status, current[c].message, current[c].responseMs,
                            UptimePercent(Tables(), c, 90, today))
    {
      var tallies := GroupTallies(today - ROLLUP_DAYS);
      batch := map c | c in current ::
        Summary(current[c].status, current[c].message, current[c].responseMs, Percent(tallies[c].up, tallies[c].total));
    }

    method GroupTallies(from: int) returns (tallies: map<Id, Tally>)
      ensures tallies.Keys == current.Keys
      ensures forall c | c in tallies :: tallies[c] == TallyOutside(Tables(), c, from, {})
      ensures forall c | c in tallies :: KeysSince(Tables(), c, from) - {} == KeysSince(Tables(), c, from)
    {
      tallies := map c | c in current :: Tally(0, 0);
      var todo := rollups.Keys;
      ghost var rd := Tables();
      assert forall c :: KeysSince(rd, c, from) - todo == {};
      while todo != {}
        invariant todo <= rollups.Keys && tallies.Keys == current.Keys
        invariant forall c | c in tallies :: tallies[c] == TallyOutside(rd, c, from, todo)
      {
        var k :| k in todo;
        forall c | c in tallies {
          OneMoreRow(rd, c, from, todo, k);
        }
        if k.0 in tallies && k.1 >= from {
          tallies := tallies[k.0 := Bump(tallies[k.0], rollups[k])];
        }
        todo := todo - {k};
      }
    }
  }
}
