// How the API normalises a condition's window (internal/api/target_handlers.go) and what that means
// for detecting a failing check.
module FailWindow {
  import opened Schema
  import opened Results
  import opened Verdict

  const MAX_WINDOW := 1800

  /** normalizeFailWindow; the handlers pass failCount in 1..100 and intervalS in 10..86400. */
  function Normalize(failCount: int, failWindow: int, intervalS: int): (w: int)
    ensures failCount <= 1 ==> w == failWindow
    ensures failCount > 1 && failCount * intervalS >= 0 ==>
      (w == failWindow || w == failCount * intervalS || w == 1800) && w <= 1800 &&
      if failWindow > 1800 || failCount * intervalS > 1800 then w == 1800 else w >= failWindow && w >= failCount * intervalS
  {
    if failCount <= 1 then failWindow else
      var minWindow := failCount * intervalS;
      var w := if failWindow <= 0 then minWindow else failWindow;
      var w := if w < minWindow then minWindow else w;
      if w > MAX_WINDOW then MAX_WINDOW else w
  }

  // ---------- what the window query returns on a log in time order ----------

  /** The i-th newest. */
  function Newest(mine: seq<CheckResult>, i: int): CheckResult
    requires 0 <= i < |mine|
  {
    mine[|mine| - 1 - i]
  }

  ghost predicate NewestRun(w: seq<CheckResult>, mine: seq<CheckResult>, cutoff: int) {
    |w| <= |mine| &&
    (forall i | 0 <= i < |w| :: w[i] == Newest(mine, i) && w[i].checkedAt >= cutoff) &&
    (|w| < |mine| ==> Newest(mine, |w|).checkedAt < cutoff)
  }

  lemma NewestShifts(mine: seq<CheckResult>, r: CheckResult)
    ensures Newest(mine + [r], 0) == r && forall i | 0 <= i < |mine| :: Newest(mine + [r], i + 1) == Newest(mine, i)
  {}

  lemma PushNewest(w: seq<CheckResult>, mine: seq<CheckResult>, r: CheckResult, cutoff: int)
    requires NewestRun(w, mine, cutoff) && InTimeOrder(mine + [r])
    ensures NewestRun(if r.checkedAt >= cutoff then InsertNewest(r, w) else w, mine + [r], cutoff)
  {
    var more := mine + [r];
    NewestShifts(mine, r);
    assert forall j | 0 <= j < |mine| :: more[j].checkedAt <= more[|mine|].checkedAt;
    if r.checkedAt >= cutoff {
      assert w == [] || w[0] == Newest(mine, 0);
      assert InsertNewest(r, w) == [r] + w;
    }
  }

  lemma {:induction false} WindowIsNewestRun(rows: seq<CheckResult>, check: Id, cutoff: int)
    requires InTimeOrder(Of(rows, check))
    ensures NewestRun(Window(rows, check, cutoff), Of(rows, check), cutoff)
  {
    if rows != [] {
      var init, r := rows[..|rows| - 1], rows[|rows| - 1];
      var mine := Of(init, check);
      assert rows == init + [r];
      OfAppend(init, r, check);
      forall i, j | 0 <= i < j < |mine|
        ensures mine[i].checkedAt <= mine[j].checkedAt
      {
        assert Of(rows, check)[i] == mine[i] && Of(rows, check)[j] == mine[j];
      }
      WindowIsNewestRun(init, check, cutoff);
      var w := Window(init, check, cutoff);
      if r.checkId == check {
        PushNewest(w, mine, r, cutoff);
      }
    }
  }

  ghost predicate AllMatch(matches: Matcher, cond: RuleCondition, mine: seq<CheckResult>)
    requires cond.failCount <= |mine|
  {
    forall i | 0 <= i < cond.failCount :: matches(Newest(mine, i), cond)
  }

  /** Exactly when a windowed condition triggers: its failCount newest results match and fit the window. */
  lemma TriggersIff(matches: Matcher, rd: Readings, cond: RuleCondition, now: int)
    requires cond.failWindow > 0 && cond.failCount >= 1 && InTimeOrder(Of(rd.raw, cond.checkId))
    ensures var mine := Of(rd.raw, cond.checkId);
            CondHolds(matches, rd, cond, now) <==>
            cond.failCount <= |mine| && AllMatch(matches, cond, mine) &&
            Newest(mine, cond.failCount - 1).checkedAt >= now - cond.failWindow
  {
    var mine, cutoff := Of(rd.raw, cond.checkId), now - cond.failWindow;
    var w := Window(rd.raw, cond.checkId, cutoff);
    WindowIsNewestRun(rd.raw, cond.checkId, cutoff);
    if cond.failCount <= |mine| {
      if cond.failCount > |w| {
        var i, j := |mine| - cond.failCount, |mine| - 1 - |w|;
        assert mine[i].checkedAt <= mine[j].checkedAt < cutoff;
      } else {
        assert w[cond.failCount - 1] == Newest(mine, cond.failCount - 1);
        assert forall i | 0 <= i < cond.failCount :: w[i] == Newest(mine, i);
      }
    }
  }

  // ---------- detection ----------

  /** Time between the i-th newest result and the one before it. */
  function Gap(mine: seq<CheckResult>, i: int): int
    requires 0 <= i < |mine| - 1
  {
    Newest(mine, i).checkedAt - Newest(mine, i + 1).checkedAt
  }

  lemma {:induction false} SpanAtMost(mine: seq<CheckResult>, k: nat, gap: int)
    requires k < |mine| && forall i | 0 <= i < k :: Gap(mine, i) <= gap
    ensures Newest(mine, 0).checkedAt - Newest(mine, k).checkedAt <= k * gap
  {
    if k > 0 {
      SpanAtMost(mine, k - 1, gap);
      assert Gap(mine, k - 1) <= gap;
      assert k * gap == (k - 1) * gap + gap;
    }
  }

  lemma {:induction false} SpanAtLeast(mine: seq<CheckResult>, k: nat, gap: int)
    requires k < |mine| && forall i | 0 <= i < k :: Gap(mine, i) >= gap
    ensures Newest(mine, 0).checkedAt - Newest(mine, k).checkedAt >= k * gap
  {
    if k > 0 {
      SpanAtLeast(mine, k - 1, gap);
      assert Gap(mine, k - 1) >= gap;
      assert k * gap == (k - 1) * gap + gap;
    }
  }

  /** A condition as the API stores it for a check run every `interval` seconds. */
  ghost predicate Normalized(cond: RuleCondition, failWindow: int, interval: int) {
    cond.failCount >= 2 && interval > 0 && cond.failWindow == Normalize(cond.failCount, failWindow, interval)
  }

  lemma WindowBounds(cond: RuleCondition, failWindow: int, interval: int)
    requires Normalized(cond, failWindow, interval)
    ensures 0 < cond.failWindow <= 1800
    ensures cond.failWindow >= cond.failCount * interval || cond.failWindow == 1800
    ensures cond.failCount * interval == (cond.failCount - 1) * interval + interval
  {
  }

  /** Results at most `late` seconds behind schedule, evaluated within `delay` of the newest, are detected. */
  lemma DetectsWithinSlack(matches: Matcher, rd: Readings, cond: RuleCondition, failWindow: int, interval: int,
                           late: int, delay: int, now: int)
    requires Normalized(cond, failWindow, interval) && cond.failCount * interval <= 1800
    requires delay + (cond.failCount - 1) * late <= interval
    requires var mine := Of(rd.raw, cond.checkId);
             InTimeOrder(mine) && cond.failCount <= |mine| && AllMatch(matches, cond, mine) &&
             (forall i | 0 <= i < cond.failCount - 1 :: Gap(mine, i) <= interval + late) &&
             now <= Newest(mine, 0).checkedAt + delay
    ensures CondHolds(matches, rd, cond, now)
  {
    var mine, k := Of(rd.raw, cond.checkId), cond.failCount - 1;
    WindowBounds(cond, failWindow, interval);
    SpanAtMost(mine, k, interval + late);
    assert k * (interval + late) == k * interval + k * late;
    TriggersIff(matches, rd, cond, now);
  }

  /** If failCount results cannot fit the window, the condition never triggers, however long the check fails. */
  lemma NeverDetects(matches: Matcher, rd: Readings, cond: RuleCondition, failWindow: int, interval: int, now: int)
    requires Normalized(cond, failWindow, interval) && (cond.failCount - 1) * interval > cond.failWindow
    requires var mine := Of(rd.raw, cond.checkId);
             InTimeOrder(mine) && (forall i | 0 <= i < |mine| - 1 :: Gap(mine, i) >= interval) &&
             (mine != [] ==> Newest(mine, 0).checkedAt <= now)
    ensures !CondHolds(matches, rd, cond, now)
  {
    var mine, k := Of(rd.raw, cond.checkId), cond.failCount - 1;
    WindowBounds(cond, failWindow, interval);
    if k < |mine| {
      SpanAtLeast(mine, k, interval);
    }
    TriggersIff(matches, rd, cond, now);
  }

  /**
   * A check failing exactly on schedule and evaluated at once is detected if and only if
   * (failCount - 1) * interval is at most 1800, whatever window was asked for.
   */
  lemma DetectsOnScheduleIff(matches: Matcher, rd: Readings, cond: RuleCondition, failWindow: int, interval: int)
    requires Normalized(cond, failWindow, interval)
    requires var mine := Of(rd.raw, cond.checkId);
             InTimeOrder(mine) && cond.failCount <= |mine| && AllMatch(matches, cond, mine) &&
             forall i | 0 <= i < |mine| - 1 :: Gap(mine, i) == interval
    ensures CondHolds(matches, rd, cond, Newest(Of(rd.raw, cond.checkId), 0).checkedAt)
            <==> (cond.failCount - 1) * interval <= 1800
  {
    var mine, k := Of(rd.raw, cond.checkId), cond.failCount - 1;
    WindowBounds(cond, failWindow, interval);
    SpanAtMost(mine, k, interval);
    SpanAtLeast(mine, k, interval);
    TriggersIff(matches, rd, cond, Newest(mine, 0).checkedAt);
  }

  // ---------- a failing check nobody hears of ----------

  /** "Down seven times in a row" on a check run every 301 seconds, with the window the API stores for it. */
  function SevenFailures(): RuleCondition {
    RuleCondition(0, 0, "status", "eq", "down", 7, Normalize(7, 0, 301), 0, 0, "AND")
  }

  /** n results down, exactly on schedule. */
  function DownOnSchedule(n: nat): (rows: seq<CheckResult>)
    ensures |rows| == n && forall i | 0 <= i < n :: rows[i] == CheckResult(0, Down, 0, "", "", i * 301)
  {
    if n == 0 then [] else DownOnSchedule(n - 1) + [CheckResult(0, Down, 0, "", "", (n - 1) * 301)]
  }

  lemma {:induction false} AllOfOneCheck(rows: seq<CheckResult>)
    requires forall r | r in rows :: r.checkId == 0
    ensures Of(rows, 0) == rows
  {
    if rows != [] {
      var n := |rows| - 1;
      assert rows[n] in rows && rows == rows[..n] + [rows[n]];
      AllOfOneCheck(rows[..n]);
    }
  }

  function IsDown(): Matcher {
    (r: CheckResult, c: RuleCondition) => r.status == Down
  }

  /** The API admits the condition, every result matches it, there are as many as it asks for or more, and it never triggers. */
  lemma FailingUnnoticed(n: nat, rd: Readings, now: int)
    requires n >= 7 && rd.raw == DownOnSchedule(n) && now >= (n - 1) * 301
    ensures Normalized(SevenFailures(), 0, 301)
    ensures |Of(rd.raw, 0)| >= 7 && AllMatch(IsDown(), SevenFailures(), Of(rd.raw, 0))
    ensures !CondHolds(IsDown(), rd, SevenFailures(), now)
  {
    AllOfOneCheck(rd.raw);
    NeverDetects(IsDown(), rd, SevenFailures(), 0, 301, now);
  }
}
