// The per-token limiter of the machine API (internal/api/v1_rate_limit.go). Times are nanoseconds.
module TokenLimiter {
  import opened Prelude

  const SECOND := 1_000_000_000
  const WINDOW := 60 * SECOND
  const STALE := 300 * SECOND

  /** A token's window: when it opened and how many requests it admitted. */
  datatype Span = Span(start: int, count: int)

  datatype Decision = Decision(ok: bool, retryAfter: int, span: Option<Span>)

  function Decide(span: Option<Span>, limit: int, now: int): (d: Decision)
    ensures d.ok ==> d.retryAfter == 0
    ensures !d.ok ==> d.span == span && d.retryAfter >= 1 && (span.Some? && span.value.start <= now ==> d.retryAfter <= 60)
  {
    if limit <= 0 then Decision(true, 0, span)
    else if span.None? || now - span.value.start >= WINDOW then Decision(true, 0, Some(Span(now, 1)))
    else if span.value.count >= limit then
      var secs := (WINDOW - (now - span.value.start)) / SECOND;
      Decision(false, if secs < 1 then 1 else secs, span)
    else Decision(true, 0, Some(span.value.(count := span.value.count + 1)))
  }

  // ---------- whole runs ----------

  datatype Event = Request(token: string, limit: int, now: int) | Purge(now: int)

  type Spans = map<string, Span>

  function SpanOf(m: Spans, token: string): Option<Span> {
    if token in m then Some(m[token]) else None
  }

  function Put(m: Spans, token: string, span: Option<Span>): Spans {
    if span.Some? then m[token := span.value] else m
  }

  function Purged(m: Spans, now: int): Spans {
    map token | token in m && m[token].start >= now - STALE :: m[token]
  }

  function Step(m: Spans, e: Event): Spans {
    match e
    case Request(token, limit, now) => Put(m, token, Decide(SpanOf(m, token), limit, now).span)
    case Purge(now) => Purged(m, now)
  }

  function After(events: seq<Event>): Spans {
    if events == [] then map[] else Step(After(events[..|events| - 1]), events[|events| - 1])
  }

  /** What the last event of a run, a request, is answered. */
  function Answer(events: seq<Event>): Decision
    requires events != [] && events[|events| - 1].Request?
  {
    var e := events[|events| - 1];
    Decide(SpanOf(After(events[..|events| - 1]), e.token), e.limit, e.now)
  }

  function Answers(events: seq<Event>): seq<(bool, int)> {
    if events == [] then [] else
      var before := Answers(events[..|events| - 1]);
      if events[|events| - 1].Request? then before + [(Answer(events).ok, Answer(events).retryAfter)] else before
  }

  function WithoutPurges(events: seq<Event>): seq<Event> {
    if events == [] then [] else
      var before := WithoutPurges(events[..|events| - 1]);
      if events[|events| - 1].Request? then before + [events[|events| - 1]] else before
  }

  /** The clock never runs backwards. */
  ghost predicate Timely(events: seq<Event>) {
    forall i, j | 0 <= i < j < |events| :: events[i].now <= events[j].now
  }

  // ---------- purging is unobservable ----------

  function Live(m: Spans, token: string, now: int): Option<Span> {
    if token in m && now - m[token].start < WINDOW then Some(m[token]) else None
  }

  ghost predicate Alike(m: Spans, n: Spans, now: int) {
    forall token :: Live(m, token, now) == Live(n, token, now)
  }

  lemma AlikeLater(m: Spans, n: Spans, now: int, later: int)
    requires Alike(m, n, now) && now <= later
    ensures Alike(m, n, later)
  {
    forall token
      ensures Live(m, token, later) == Live(n, token, later)
    {
      assert Live(m, token, now) == Live(n, token, now);
    }
  }

  lemma AlikeStep(m: Spans, n: Spans, e: Event)
    requires Alike(m, n, e.now)
    ensures e.Request? ==> Alike(Step(m, e), Step(n, e), e.now)
    ensures e.Purge? ==> Alike(Step(m, e), n, e.now)
    ensures e.Request? ==>
      var a, b := Decide(SpanOf(m, e.token), e.limit, e.now), Decide(SpanOf(n, e.token), e.limit, e.now);
      a.ok == b.ok && a.retryAfter == b.retryAfter
  {
    if e.Request? {
      assert Live(m, e.token, e.now) == Live(n, e.token, e.now);
      forall token
        ensures Live(Step(m, e), token, e.now) == Live(Step(n, e), token, e.now)
      {
        assert Live(m, token, e.now) == Live(n, token, e.now);
      }
    } else {
      forall token
        ensures Live(Step(m, e), token, e.now) == Live(n, token, e.now)
      {
        assert Live(m, token, e.now) == Live(n, token, e.now);
      }
    }
  }

  lemma {:induction false} PurgesLeaveAlike(events: seq<Event>, now: int)
    requires Timely(events) && forall i | 0 <= i < |events| :: events[i].now <= now
    ensures Alike(After(events), After(WithoutPurges(events)), now)
    ensures Answers(events) == Answers(WithoutPurges(events))
  {
    if events != [] {
      var init, e := events[..|events| - 1], events[|events| - 1];
      var bare := WithoutPurges(init);
      PurgesLeaveAlike(init, e.now);
      AlikeStep(After(init), After(bare), e);
      if e.Request? {
        assert (bare + [e])[..|bare|] == bare;
      }
      AlikeLater(After(events), After(WithoutPurges(events)), e.now, now);
    }
  }

  /** Purging at any moments of a run never changes an answer. */
  lemma PurgingIsUnobservable(events: seq<Event>, others: seq<Event>)
    requires Timely(events) && Timely(others) && WithoutPurges(events) == WithoutPurges(others)
    ensures Answers(events) == Answers(others)
  {
    PurgesLeaveAlike(events, if events == [] then 0 else events[|events| - 1].now);
    PurgesLeaveAlike(others, if others == [] then 0 else others[|others| - 1].now);
  }

  // ---------- how many requests an interval admits ----------

  ghost predicate ConstantLimit(events: seq<Event>, limit: int) {
    forall i | 0 <= i < |events| && events[i].Request? :: events[i].limit == limit
  }

  /** Requests of a token admitted in the half-open minute from `from` on. */
  function Admitted(events: seq<Event>, token: string, from: int): nat {
    if events == [] then 0 else
      var e := events[|events| - 1];
      Admitted(events[..|events| - 1], token, from) +
      (if e.Request? && e.token == token && from <= e.now < from + 60_000_000_000 && Answer(events).ok then 1 else 0)
  }

  /** How many the minute can have admitted, given the token's window and the time of the last event. */
  ghost predicate Bounded(span: Option<Span>, limit: int, from: int, n: nat, last: int) {
    match span
    case None => n <= limit - 1 || (last >= from + WINDOW && n <= 2 * limit - 1)
    case Some(w) =>
      1 <= w.count <= limit && w.start <= last &&
      (if w.start < from then n <= w.count - 1
       else if w.start < from + WINDOW then n <= limit - 1 + w.count
       else n <= 2 * limit - 1)
  }

  lemma {:induction false} AdmittedBounded(events: seq<Event>, limit: int, token: string, from: int, last: int)
    requires Timely(events) && ConstantLimit(events, limit) && limit >= 1
    requires forall i | 0 <= i < |events| :: events[i].now <= last
    ensures Bounded(SpanOf(After(events), token), limit, from, Admitted(events, token, from), last)
    ensures last < from ==> Admitted(events, token, from) == 0
  {
    if events != [] {
      var init, e := events[..|events| - 1], events[|events| - 1];
      AdmittedBounded(init, limit, token, from, e.now);
    }
  }

  /** With a constant limit, any minute admits at most 2 * limit - 1 requests of a token. */
  lemma MinuteBound(events: seq<Event>, limit: int, token: string, from: int)
    requires Timely(events) && ConstantLimit(events, limit) && limit >= 1
    ensures Admitted(events, token, from) <= 2 * limit - 1
  {
    AdmittedBounded(events, limit, token, from, if events == [] then 0 else events[|events| - 1].now);
  }

  /** A limit of zero or less lets every request pass and leaves no trace. */
  lemma UnlimitedPasses(events: seq<Event>, token: string, limit: int, now: int)
    requires limit <= 0
    ensures var run := events + [Request(token, limit, now)];
            Answer(run).ok && Answer(run).retryAfter == 0 && After(run) == After(events)
  {
    assert (events + [Request(token, limit, now)])[..|events|] == events;
  }

  /** A window counts no more requests than were admitted since it opened. */
  lemma {:induction false} CountedWereAdmitted(events: seq<Event>, token: string)
    requires Timely(events) && token in After(events)
    ensures events != [] && After(events)[token].start <= events[|events| - 1].now
    ensures After(events)[token].count <= Admitted(events, token, After(events)[token].start)
  {
    var init, e := events[..|events| - 1], events[|events| - 1];
    if token in After(init) {
      CountedWereAdmitted(init, token);
    }
  }

  /** Nobody is refused for nothing: when a request is refused, at least the limit was admitted in the sixty seconds before it. */
  lemma RefusedMeansUsedUp(events: seq<Event>, token: string, limit: int, now: int)
    requires Timely(events + [Request(token, limit, now)]) && !Answer(events + [Request(token, limit, now)]).ok
    ensures limit >= 1 && exists from :: now - 60_000_000_000 < from <= now && Admitted(events, token, from) >= limit
  {
    var run := events + [Request(token, limit, now)];
    assert run[..|events|] == events && Timely(events) by {
      assert forall i | 0 <= i < |events| :: run[i] == events[i];
    }
    CountedWereAdmitted(events, token);
    assert run[|events| - 1].now <= run[|events|].now;
    assert Admitted(events, token, After(events)[token].start) >= limit;
  }

  /** k requests of a token at one instant. */
  function Burst(token: string, limit: int, now: int, k: nat): (events: seq<Event>)
    ensures |events| == k && forall i | 0 <= i < k :: events[i] == Request(token, limit, now)
  {
    if k == 0 then [] else Burst(token, limit, now, k - 1) + [Request(token, limit, now)]
  }

  /** The run admitted k more requests of the token than `events`, all at `now` and in the same window. */
  ghost predicate Grew(events: seq<Event>, run: seq<Event>, token: string, now: int, k: nat, from: int) {
    token in After(events) && token in After(run) &&
    After(run)[token] == After(events)[token].(count := After(events)[token].count + k) &&
    Admitted(run, token, from) == Admitted(events, token, from) + (if from <= now < from + WINDOW then k else 0)
  }

  lemma OneMore(events: seq<Event>, run: seq<Event>, token: string, limit: int, now: int, k: nat, from: int)
    requires limit >= 1 && Grew(events, run, token, now, k, from)
    requires now - After(events)[token].start < WINDOW && After(events)[token].count + k < limit
    ensures Grew(events, run + [Request(token, limit, now)], token, now, k + 1, from)
  {
    assert (run + [Request(token, limit, now)])[..|run|] == run;
  }

  lemma {:induction false} BurstAdmitted(events: seq<Event>, token: string, limit: int, now: int, k: nat, from: int)
    requires limit >= 1 && token in After(events)
    requires now - After(events)[token].start < WINDOW && After(events)[token].count + k <= limit
    ensures Grew(events, events + Burst(token, limit, now, k), token, now, k, from)
  {
    if k == 0 {
      assert events + Burst(token, limit, now, k) == events;
    } else {
      var shorter := events + Burst(token, limit, now, k - 1);
      BurstAdmitted(events, token, limit, now, k - 1, from);
      OneMore(events, shorter, token, limit, now, k - 1, from);
      assert events + Burst(token, limit, now, k) == shorter + [Request(token, limit, now)];
    }
  }

  /** A request outside any window opens a new one. */
  lemma FreshWindow(events: seq<Event>, token: string, limit: int, now: int, from: int)
    requires limit >= 1 && (token in After(events) ==> now - After(events)[token].start >= WINDOW)
    ensures var run := events + [Request(token, limit, now)];
            token in After(run) && After(run)[token] == Span(now, 1) &&
            Admitted(run, token, from) == Admitted(events, token, from) + (if from <= now < from + WINDOW then 1 else 0)
  {
    assert (events + [Request(token, limit, now)])[..|events|] == events;
  }

  /** A fresh window used up to the limit at one later moment. */
  lemma FullWindow(events: seq<Event>, token: string, limit: int, now: int, later: int, from: int)
    requires limit >= 1 && (token in After(events) ==> now - After(events)[token].start >= WINDOW) && now <= later < now + WINDOW
    ensures var run := events + [Request(token, limit, now)] + Burst(token, limit, later, limit - 1);
            token in After(run) && After(run)[token] == Span(now, limit) &&
            Admitted(run, token, from) == Admitted(events, token, from) + (if from <= now < from + WINDOW then 1 else 0) +
                                          (if from <= later < from + WINDOW then limit - 1 else 0)
  {
    FreshWindow(events, token, limit, now, from);
    BurstAdmitted(events + [Request(token, limit, now)], token, limit, later, limit - 1, from);
  }

  /** The bound is attained: one request opens a window, the rest of it is used late, the next one at once. */
  function WorstRun(token: string, limit: int): seq<Event>
    requires limit >= 1
  {
    [Request(token, limit, 0)] + Burst(token, limit, WINDOW - 1, limit - 1) +
    [Request(token, limit, WINDOW)] + Burst(token, limit, WINDOW, limit - 1)
  }

  lemma WorstRunTimes(token: string, limit: int)
    requires limit >= 1
    ensures Timely(WorstRun(token, limit)) && ConstantLimit(WorstRun(token, limit), limit)
  {
    var run := WorstRun(token, limit);
    assert forall i | 0 <= i < |run| ::
      run[i] == Request(token, limit, if i == 0 then 0 else if i < limit then WINDOW - 1 else WINDOW);
  }

  lemma BoundIsTight(token: string, limit: int)
    requires limit >= 1
    ensures Timely(WorstRun(token, limit)) && ConstantLimit(WorstRun(token, limit), limit)
    ensures Admitted(WorstRun(token, limit), token, 1) == 2 * limit - 1
  {
    WorstRunTimes(token, limit);
    var early := [Request(token, limit, 0)] + Burst(token, limit, WINDOW - 1, limit - 1);
    assert [] + [Request(token, limit, 0)] == [Request(token, limit, 0)];
    FullWindow([], token, limit, 0, WINDOW - 1, 1);
    FullWindow(early, token, limit, WINDOW, WINDOW, 1);
  }

  /** "No more than `limit` in any minute", as the comment promises, holds exactly for limit 1. */
  lemma PromisedCapHoldsIff(limit: int)
    requires limit >= 1
    ensures (forall events: seq<Event>, token: string, from: int ::
               Timely(events) && ConstantLimit(events, limit) ==> Admitted(events, token, from) <= limit)
            <==> limit == 1
  {
    if limit == 1 {
      forall events: seq<Event>, token: string, from: int | Timely(events) && ConstantLimit(events, limit)
        ensures Admitted(events, token, from) <= limit
      {
        MinuteBound(events, limit, token, from);
      }
    } else {
      BoundIsTight("t", limit);
      assert Admitted(WorstRun("t", limit), "t", 1) > limit;
    }
  }

  /**
   * Waiting the advertised whole seconds after a refusal is enough exactly when what remained of the
   * window was a whole number of seconds, or less than one.
   */
  lemma RetryAfterSufficesIff(span: Span, limit: int, now: int)
    requires limit >= 1 && !Decide(Some(span), limit, now).ok && span.start <= now
    ensures var remaining := WINDOW - (now - span.start);
            Decide(Some(span), limit, now + Decide(Some(span), limit, now).retryAfter * SECOND).ok
            <==> remaining % SECOND == 0 || remaining < SECOND
  {
    var remaining := WINDOW - (now - span.start);
    assert remaining == remaining / SECOND * SECOND + remaining % SECOND;
  }

  /** Three requests of a token under limit 1: the second comes after half a second, the third waits as long as it was told. */
  function PatientRun(token: string): seq<Event> {
    [Request(token, 1, 0), Request(token, 1, SECOND / 2), Request(token, 1, SECOND / 2 + 59 * SECOND)]
  }

  /** The second is told to wait 59 seconds, and having waited 59 seconds is refused again. */
  lemma PatientIsRefused(token: string)
    ensures var run := PatientRun(token); Timely(run) && run[2].now == run[1].now + 59 * SECOND
    ensures var run := PatientRun(token);
            Answer(run[..1]).ok && Answer(run[..2]) == Decision(false, 59, Some(Span(0, 1))) && !Answer(run).ok
  {
    var run := PatientRun(token);
    assert run[..1][..0] == [] && run[..2][..1] == run[..1] && run[..1] == [run[0]] && run[..2] == [run[0], run[1]];
    assert After(run[..1]) == map[token := Span(0, 1)];
    assert After(run[..2]) == map[token := Span(0, 1)];
  }

  // ---------- the limiter ----------

  class Window {
    var start: int
    var count: int

    constructor (start: int, count: int)
      ensures this.start == start && this.count == count
    {
      this.start, this.count := start, count;
    }
  }

  class V1RateLimiter {
    var windows: map<string, Window>

    /** No two tokens share a window. */
    ghost predicate Valid()
      reads this
    {
      forall a, b | a in windows && b in windows && a != b :: windows[a] != windows[b]
    }

    ghost function State(): Spans
      reads this, windows.Values
    {
      map token | token in windows :: Span(windows[token].start, windows[token].count)
    }

    constructor ()
      ensures Valid() && State() == map[]
    {
      windows := map[];
    }

    /** A new window with one request. */
    method Open(token: string, now: int)
      requires Valid()
      modifies this
      ensures Valid() && fresh(windows.Values - old(windows.Values)) && State() == old(State())[token := Span(now, 1)]
    {
      var w := new Window(now, 1);
      windows := windows[token := w];
    }

    /** One more request in a token's window. */
    method Count(token: string)
      requires Valid() && token in windows
      modifies windows.Values
      ensures windows == old(windows)
      ensures var w := old(State())[token]; State() == old(State())[token := w.(count := w.count + 1)]
    {
      var w := windows[token];
      w.count := w.count + 1;
      assert forall t | t in windows && t != token :: windows[t] != w;
    }

    method Allow(token: string, limit: int, now: int) returns (ok: bool, retryAfter: int)
      requires Valid()
      modifies this, windows.Values
      ensures Valid() && fresh(windows.Values - old(windows.Values))
      ensures var d := Decide(SpanOf(old(State()), token), limit, now);
        ok == d.ok && retryAfter == d.retryAfter && State() == Put(old(State()), token, d.span)
    {
      if limit <= 0 {
        return true, 0;
      }
      if token !in windows || now - windows[token].start >= WINDOW {
        Open(token, now);
        return true, 0;
      }
      var w := windows[token];
      if w.count >= limit {
        var secs := (WINDOW - (now - w.start)) / SECOND;
        return false, if secs < 1 then 1 else secs;
      }
      Count(token);
      return true, 0;
    }

    method PurgeStale(now: int)
      requires Valid()
      modifies this
      ensures Valid() && windows.Values <= old(windows.Values)
      ensures State() == Purged(old(State()), now)
      ensures forall t :: t in State() <==> t in old(State()) && now - old(State())[t].start <= 300_000_000_000
      ensures forall t | t in State() :: State()[t] == old(State())[t]
    {
      var cutoff, todo := now - STALE, windows.Keys;
      while todo != {}
        invariant todo <= windows.Keys <= old(windows).Keys
        invariant forall t | t in windows :: windows[t] == old(windows)[t]
        invariant forall t | t in old(windows) :: t in windows <==> t in todo || old(windows)[t].start >= cutoff
      {
        var token :| token in todo;
        todo := todo - {token};
        if windows[token].start < cutoff {
          windows := windows - {token};
        }
      }
    }
  }
}
