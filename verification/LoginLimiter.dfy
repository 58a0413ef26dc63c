// The limiter of failed logins (internal/api/ratelimit.go), one instance keyed by address and one by
// user name. Times are nanoseconds.
module LoginLimiter {
  import opened Prelude

  const MINUTE := 60_000_000_000
  const MAX_ATTEMPTS := 5
  const LOGIN_WINDOW := 5 * MINUTE
  const LOCKOUT := 15 * MINUTE

  datatype Entry = Entry(count: int, start: int, lockedUntil: Option<int>)

  type Entries = map<string, Entry>

  predicate Expired(r: Entry, now: int) {
    now - r.start > LOGIN_WINDOW
  }

  predicate LockedAt(r: Entry, now: int) {
    r.lockedUntil.Some? && now < r.lockedUntil.value
  }

  /** The cleanup's notion of a lock that is over is a moment later than allow's. */
  predicate Stale(r: Entry, now: int) {
    Expired(r, now) && (r.lockedUntil.None? || now > r.lockedUntil.value)
  }

  function Allowed(m: Entries, key: string, now: int): bool {
    key !in m || (!LockedAt(m[key], now) && (Expired(m[key], now) || m[key].count < MAX_ATTEMPTS))
  }

  function Attempted(m: Entries, key: string, now: int): Entries {
    if key in m && !LockedAt(m[key], now) && Expired(m[key], now) then m - {key} else m
  }

  function Failed(m: Entries, key: string, now: int): Entries {
    if key !in m || Expired(m[key], now) then m[key := Entry(1, now, None)] else
      var r := m[key];
      var locked := if r.count + 1 >= MAX_ATTEMPTS then Some(now + LOCKOUT) else r.lockedUntil;
      m[key := Entry(r.count + 1, r.start, locked)]
  }

  function Cleaned(m: Entries, now: int): Entries {
    map key | key in m && !Stale(m[key], now) :: m[key]
  }

  // ---------- whole runs ----------

  /** One call on the limiter, or one round of its cleanup. */
  datatype Event =
    | Attempt(key: string, now: int)
    | Failure(key: string, now: int)
    | Success(key: string, now: int)
    | Cleanup(now: int)

  function Step(m: Entries, e: Event): Entries {
    match e
    case Attempt(key, now) => Attempted(m, key, now)
    case Failure(key, now) => Failed(m, key, now)
    case Success(key, _) => m - {key}
    case Cleanup(now) => Cleaned(m, now)
  }

  function After(events: seq<Event>): Entries {
    if events == [] then map[] else Step(After(events[..|events| - 1]), events[|events| - 1])
  }

  /** What the last event of a run, an attempt, is answered. */
  function Answer(events: seq<Event>): bool
    requires events != [] && events[|events| - 1].Attempt?
  {
    var e := events[|events| - 1];
    Allowed(After(events[..|events| - 1]), e.key, e.now)
  }

  ghost predicate Timely(events: seq<Event>) {
    forall i, j | 0 <= i < j < |events| :: events[i].now <= events[j].now
  }

  function Answers(events: seq<Event>): seq<bool> {
    if events == [] then [] else
      var before := Answers(events[..|events| - 1]);
      if events[|events| - 1].Attempt? then before + [Answer(events)] else before
  }

  function WithoutCleanups(events: seq<Event>): seq<Event> {
    if events == [] then [] else
      var before := WithoutCleanups(events[..|events| - 1]);
      if events[|events| - 1].Cleanup? then before else before + [events[|events| - 1]]
  }

  // ---------- cleanup is unobservable ----------

  function Live(m: Entries, key: string, now: int): Option<Entry> {
    if key in m && !Stale(m[key], now) then Some(m[key]) else None
  }

  ghost predicate Alike(m: Entries, n: Entries, now: int) {
    forall key :: Live(m, key, now) == Live(n, key, now)
  }

  lemma AlikeLater(m: Entries, n: Entries, now: int, later: int)
    requires Alike(m, n, now) && now <= later
    ensures Alike(m, n, later)
  {
    forall key
      ensures Live(m, key, later) == Live(n, key, later)
    {
      assert Live(m, key, now) == Live(n, key, now);
    }
  }

  lemma AlikeStep(m: Entries, n: Entries, e: Event)
    requires Alike(m, n, e.now)
    ensures Alike(Step(m, e), if e.Cleanup? then n else Step(n, e), e.now)
    ensures e.Attempt? ==> Allowed(m, e.key, e.now) == Allowed(n, e.key, e.now)
  {
    if !e.Cleanup? {
      assert Live(m, e.key, e.now) == Live(n, e.key, e.now);
    }
    forall key
      ensures Live(Step(m, e), key, e.now) == Live(if e.Cleanup? then n else Step(n, e), key, e.now)
    {
      assert Live(m, key, e.now) == Live(n, key, e.now);
    }
  }

  lemma {:induction false} CleanupsLeaveAlike(events: seq<Event>, now: int)
    requires Timely(events) && forall i | 0 <= i < |events| :: events[i].now <= now
    ensures Alike(After(events), After(WithoutCleanups(events)), now)
    ensures Answers(events) == Answers(WithoutCleanups(events))
  {
    if events != [] {
      var init, e := events[..|events| - 1], events[|events| - 1];
      var bare := WithoutCleanups(init);
      CleanupsLeaveAlike(init, e.now);
      AlikeStep(After(init), After(bare), e);
      if !e.Cleanup? {
        assert (bare + [e])[..|bare|] == bare;
      }
      AlikeLater(After(events), After(WithoutCleanups(events)), e.now, now);
    }
  }

  /** Cleaning up at any moments of a run never changes an answer, sequential attempts or not. */
  lemma CleanupIsUnobservable(events: seq<Event>, others: seq<Event>)
    requires Timely(events) && Timely(others) && WithoutCleanups(events) == WithoutCleanups(others)
    ensures Answers(events) == Answers(others)
  {
    CleanupsLeaveAlike(events, if events == [] then 0 else events[|events| - 1].now);
    CleanupsLeaveAlike(others, if others == [] then 0 else others[|others| - 1].now);
  }

  // ---------- sequential attempts of one key ----------

  /** The key's last event is an attempt that was allowed: the login handler is checking the password. */
  predicate Permitted(events: seq<Event>, key: string) {
    if events == [] then false else
      var e := events[|events| - 1];
      if e.Cleanup? || e.key != key then Permitted(events[..|events| - 1], key)
      else e.Attempt? && Answer(events)
  }

  /** The key's attempts come one after the other, each failure after its own permitted attempt, none succeeds. */
  predicate FailingInTurn(events: seq<Event>, key: string) {
    if events == [] then true else
      var init, e := events[..|events| - 1], events[|events| - 1];
      FailingInTurn(init, key) && !(e.Success? && e.key == key) && (e.Failure? && e.key == key ==> Permitted(init, key))
  }

  /** Failures of a key recorded in the closed five minutes from `from` on. */
  function Failures(events: seq<Event>, key: string, from: int): nat {
    if events == [] then 0 else
      var e := events[|events| - 1];
      Failures(events[..|events| - 1], key, from) +
      (if e.Failure? && e.key == key && from <= e.now <= from + 300_000_000_000 then 1 else 0)
  }

  function EntryOf(m: Entries, key: string): Option<Entry> {
    if key in m then Some(m[key]) else None
  }

  /** How many failures the five minutes can hold, given the key's record and the time of the last event. */
  ghost predicate Bounded(entry: Option<Entry>, from: int, n: nat, last: int) {
    match entry
    case None => n <= 3 || (last > from + LOGIN_WINDOW && n <= 8)
    case Some(r) =>
      1 <= r.count <= MAX_ATTEMPTS && r.start <= last &&
      (r.lockedUntil.Some? <==> r.count == MAX_ATTEMPTS) &&
      (r.lockedUntil.Some? ==> r.lockedUntil.value >= r.start + LOCKOUT) &&
      (if r.start < from then n <= r.count - 1 && (r.lockedUntil.Some? && n > 0 ==> r.lockedUntil.value >= from + LOCKOUT)
       else if r.start <= from + LOGIN_WINDOW then n <= 3 + r.count
       else n <= 8)
  }

  lemma {:induction false} FailuresBounded(events: seq<Event>, key: string, from: int, last: int)
    requires Timely(events) && FailingInTurn(events, key)
    requires forall i | 0 <= i < |events| :: events[i].now <= last
    ensures Bounded(EntryOf(After(events), key), from, Failures(events, key, from), last)
    ensures last < from ==> Failures(events, key, from) == 0
    ensures Permitted(events, key) && key in After(events) ==> After(events)[key].count < MAX_ATTEMPTS
  {
    if events != [] {
      FailuresBounded(events[..|events| - 1], key, from, events[|events| - 1].now);
    }
  }

  /** Sequential failing attempts record at most 8 failures in any five minutes; the count never passes 5. */
  lemma FiveMinuteBound(events: seq<Event>, key: string, from: int)
    requires Timely(events) && FailingInTurn(events, key)
    ensures Failures(events, key, from) <= 8
    ensures key in After(events) ==> 1 <= After(events)[key].count <= 5
  {
    FailuresBounded(events, key, from, if events == [] then 0 else events[|events| - 1].now);
  }

  /** One permitted attempt that fails. */
  function Try(key: string, now: int): seq<Event> {
    [Attempt(key, now), Failure(key, now)]
  }

  lemma TryFails(events: seq<Event>, key: string, now: int, from: int)
    requires FailingInTurn(events, key) && Allowed(After(events), key, now)
    ensures var run := events + Try(key, now);
            FailingInTurn(run, key) && After(run) == Failed(Attempted(After(events), key, now), key, now) &&
            Failures(run, key, from) == Failures(events, key, from) + (if from <= now <= from + LOGIN_WINDOW then 1 else 0)
  {
    var attempted, run := events + [Attempt(key, now)], events + Try(key, now);
    assert attempted[..|events|] == events && run[..|events| + 1] == attempted;
  }

  /** k failing attempts at one instant. */
  function Tries(key: string, now: int, k: nat): (events: seq<Event>)
    ensures forall i | 0 <= i < |events| :: events[i].now == now
  {
    if k == 0 then [] else Tries(key, now, k - 1) + Try(key, now)
  }

  lemma {:induction false} TriesFail(events: seq<Event>, key: string, now: int, k: nat, from: int)
    requires FailingInTurn(events, key) && key in After(events)
    requires var r := After(events)[key]; r.count + k <= MAX_ATTEMPTS && !Expired(r, now) && r.lockedUntil.None?
    ensures var run, r := events + Tries(key, now, k), After(events)[key];
            FailingInTurn(run, key) && key in After(run) &&
            After(run)[key].count == r.count + k && After(run)[key].start == r.start &&
            (r.count + k < MAX_ATTEMPTS ==> After(run)[key].lockedUntil.None?) &&
            Failures(run, key, from) == Failures(events, key, from) + (if from <= now <= from + LOGIN_WINDOW then k else 0)
  {
    if k == 0 {
      assert events + Tries(key, now, k) == events;
    } else {
      var shorter := events + Tries(key, now, k - 1);
      TriesFail(events, key, now, k - 1, from);
      assert events + Tries(key, now, k) == shorter + Try(key, now);
      TryFails(shorter, key, now, from);
    }
  }

  /** Four failures in one window, the first just before the five minutes from 1 on. */
  lemma FourFailures(key: string)
    ensures var run := Try(key, 0) + Tries(key, 1, 3);
            FailingInTurn(run, key) && key in After(run) && After(run)[key].count == 4 && After(run)[key].start == 0 &&
            After(run)[key].lockedUntil.None? && Failures(run, key, 1) == 3
  {
    TryFails([], key, 0, 1);
    assert [] + Try(key, 0) == Try(key, 0);
    TriesFail(Try(key, 0), key, 1, 3, 1);
  }

  /** Five more when that window has just expired. */
  lemma FiveMore(events: seq<Event>, key: string, now: int, from: int)
    requires FailingInTurn(events, key) && key in After(events)
    requires Expired(After(events)[key], now) && !LockedAt(After(events)[key], now) && from <= now <= from + LOGIN_WINDOW
    ensures var run := events + Try(key, now) + Tries(key, now, 4); FailingInTurn(run, key) && Failures(run, key, from) == Failures(events, key, from) + 5
  {
    TryFails(events, key, now, from);
    var run := events + Try(key, now);
    assert After(run)[key] == Entry(1, now, None);
    TriesFail(run, key, now, 4, from);
  }

  lemma TriesAreTimely(key: string, early: int, now: int, late: int)
    requires early <= now <= late
    ensures Timely(Try(key, early) + Tries(key, now, 3) + Try(key, late) + Tries(key, late, 4))
  {
    var second := Try(key, early) + Tries(key, now, 3);
    var run := second + Try(key, late) + Tries(key, late, 4);
    assert forall i | 0 <= i < |run| :: run[i].now == if i < 2 then early else if i < |second| then now else late;
  }

  /** The bound is attained: four failures in one window, the first just too early, and five in the next. */
  lemma BoundIsTight(key: string)
    ensures exists events: seq<Event> :: Timely(events) && FailingInTurn(events, key) && Failures(events, key, 1) == 8
  {
    var late := LOGIN_WINDOW + 1;
    var run := Try(key, 0) + Tries(key, 1, 3) + Try(key, late) + Tries(key, late, 4);
    FourFailures(key);
    FiveMore(Try(key, 0) + Tries(key, 1, 3), key, late, 1);
    TriesAreTimely(key, 0, 1, late);
    assert FailingInTurn(run, key);
  }

  /** One more event of a key in turn, while its record says locked, leaves the record alone. */
  lemma LockedStep(run: seq<Event>, e: Event, key: string)
    requires FailingInTurn(run + [e], key) && !Permitted(run, key) && key in After(run) && LockedAt(After(run)[key], e.now)
    ensures EntryOf(After(run + [e]), key) == EntryOf(After(run), key)
    ensures !Permitted(run + [e], key)
    ensures e.Attempt? && e.key == key ==> !Answer(run + [e])
  {
    assert (run + [e])[..|run|] == run;
  }

  /**
   * The fifth failure of a window locks the key: whatever else happens in the next fifteen minutes, no
   * attempt is allowed and the record stays.
   */
  lemma {:induction false} FifthFailureLocks(events: seq<Event>, more: seq<Event>, key: string, t: int)
    requires Timely(events + more) && FailingInTurn(events + more, key)
    requires events != [] && events[|events| - 1] == Failure(key, t) && key in After(events) && After(events)[key].count == 5
    requires forall i | 0 <= i < |more| :: more[i].now < t + 900_000_000_000
    ensures EntryOf(After(events + more), key) == EntryOf(After(events), key)
    ensures After(events)[key].lockedUntil == Some(t + 900_000_000_000)
    ensures !Permitted(events + more, key)
    ensures more != [] && more[|more| - 1].Attempt? && more[|more| - 1].key == key ==> !Answer(events + more)
  {
    if more == [] {
      assert events + more == events;
    } else {
      var init, e := more[..|more| - 1], more[|more| - 1];
      assert events + more == events + init + [e];
      FifthFailureLocks(events, init, key, t);
      LockedStep(events + init, e, key);
    }
  }

  lemma StartsBeforeLock(events: seq<Event>, more: seq<Event>, key: string, t: int)
    requires Timely(events + more) && FailingInTurn(events + more, key)
    requires events != [] && events[|events| - 1] == Failure(key, t) && key in After(events)
    ensures After(events)[key].start <= t
    decreases |more|
  {
    if more == [] {
      assert events + more == events;
      FailuresBounded(events, key, 0, t);
    } else {
      var init := more[..|more| - 1];
      assert (events + more)[..|events + init|] == events + init;
      StartsBeforeLock(events, init, key, t);
    }
  }

  /** The first attempt at or after the fifteen minutes is allowed again. */
  lemma LockEnds(events: seq<Event>, more: seq<Event>, key: string, t: int, now: int)
    requires Timely(events + more) && FailingInTurn(events + more, key)
    requires events != [] && events[|events| - 1] == Failure(key, t) && key in After(events) && After(events)[key].count == 5
    requires (forall i | 0 <= i < |more| :: more[i].now < t + 900_000_000_000) && now >= t + 900_000_000_000
    ensures Answer(events + more + [Attempt(key, now)])
  {
    FifthFailureLocks(events, more, key, t);
    var run := events + more + [Attempt(key, now)];
    assert run[..|run| - 1] == events + more;
    StartsBeforeLock(events, more, key, t);
    assert key in After(events + more) && After(events + more)[key] == After(events)[key];
  }

  /** A record counts no more failures than its five minutes saw, and locks at five for at most twenty minutes from its start. */
  lemma {:induction false} CountedWereFailures(events: seq<Event>, key: string)
    requires Timely(events) && key in After(events)
    ensures events != [] && After(events)[key].start <= events[|events| - 1].now
    ensures After(events)[key].count <= Failures(events, key, After(events)[key].start)
    ensures var r := After(events)[key]; r.lockedUntil.Some? ==> r.count >= 5 && r.lockedUntil.value <= r.start + 1_200_000_000_000
  {
    var init := events[..|events| - 1];
    if key in After(init) {
      CountedWereFailures(init, key);
    }
  }

  /** Nobody is refused for nothing, sequential attempts or not: there were five failures within five minutes, which began less than twenty minutes ago. */
  lemma RefusedMeansFive(events: seq<Event>, key: string, now: int)
    requires Timely(events + [Attempt(key, now)]) && !Answer(events + [Attempt(key, now)])
    ensures exists from :: now - 1_200_000_000_000 < from <= now && Failures(events, key, from) >= 5
  {
    var run := events + [Attempt(key, now)];
    assert run[..|events|] == events && Timely(events) by {
      assert forall i | 0 <= i < |events| :: run[i] == events[i];
    }
    CountedWereFailures(events, key);
    assert run[|events| - 1].now <= run[|events|].now;
    assert Failures(events, key, After(events)[key].start) >= 5;
  }

  /** A success wipes the key's record and no other: the next attempt is allowed. */
  lemma SuccessForgives(events: seq<Event>, key: string, now: int, later: int)
    ensures var run := events + [Success(key, now)];
            key !in After(run) && (forall k | k != key :: EntryOf(After(run), k) == EntryOf(After(events), k)) &&
            Answer(run + [Attempt(key, later)])
  {
    var run := events + [Success(key, now)];
    assert run[..|events|] == events && (run + [Attempt(key, later)])[..|run|] == run;
  }

  // ---------- the limiter ----------

  class IpRecord {
    var count: int
    var start: int
    var lockedUntil: Option<int>

    constructor (count: int, start: int)
      ensures this.count == count && this.start == start && lockedUntil == None
    {
      this.count, this.start, lockedUntil := count, start, None;
    }
  }

  class Limiter {
    var attempts: map<string, IpRecord>

    /** No two keys share a record. */
    ghost predicate Valid()
      reads this
    {
      forall a, b | a in attempts && b in attempts && a != b :: attempts[a] != attempts[b]
    }

    ghost function State(): Entries
      reads this, attempts.Values
    {
      map key | key in attempts :: Entry(attempts[key].count, attempts[key].start, attempts[key].lockedUntil)
    }

    constructor ()
      ensures Valid() && State() == map[]
    {
      attempts := map[];
    }

    method Allow(key: string, now: int) returns (ok: bool)
      requires Valid()
      modifies this
      ensures Valid() && attempts.Values <= old(attempts.Values)
      ensures ok == Allowed(old(State()), key, now) && State() == Attempted(old(State()), key, now)
      ensures State() == (if ok && key in old(State()) && now - old(State())[key].start > 300_000_000_000 then old(State()) - {key} else old(State()))
    {
      if key !in attempts {
        return true;
      }
      var r := attempts[key];
      if r.lockedUntil.Some? && now < r.lockedUntil.value {
        return false;
      }
      if now - r.start > LOGIN_WINDOW {
        attempts := attempts - {key};
        assert State() == old(State()) - {key};
        return true;
      }
      return r.count < MAX_ATTEMPTS;
    }

    method RecordFailure(key: string, now: int)
      requires Valid()
      modifies this, attempts.Values
      ensures Valid() && fresh(attempts.Values - old(attempts.Values))
      ensures State() == Failed(old(State()), key, now)
    {
      if key !in attempts {
        var r := new IpRecord(1, now);
        attempts := attempts[key := r];
        assert State() == old(State())[key := Entry(1, now, None)];
        return;
      }
      var r := attempts[key];
      if now - r.start > LOGIN_WINDOW {
        r.count, r.start, r.lockedUntil := 1, now, None;
      } else {
        r.count := r.count + 1;
        if r.count >= MAX_ATTEMPTS {
          r.lockedUntil := Some(now + LOCKOUT);
        }
      }
      assert forall k | k in attempts && k != key :: attempts[k] != r;
      assert State() == old(State())[key := Entry(r.count, r.start, r.lockedUntil)];
    }

    method ResetSuccess(key: string)
      requires Valid()
      modifies this
      ensures Valid() && attempts.Values <= old(attempts.Values)
      ensures State() == old(State()) - {key}
    {
      attempts := attempts - {key};
    }

    /** One round of cleanupLoop. */
    method CleanUp(now: int)
      requires Valid()
      modifies this
      ensures Valid() && attempts.Values <= old(attempts.Values)
      ensures State() == Cleaned(old(State()), now)
      ensures forall k :: k in State() <==> k in old(State()) && var r := old(State())[k];
                now - r.start <= 300_000_000_000 || (r.lockedUntil.Some? && now <= r.lockedUntil.value)
    {
      var todo := attempts.Keys;
      while todo != {}
        invariant todo <= attempts.Keys <= old(attempts).Keys
        invariant forall k | k in attempts :: attempts[k] == old(attempts)[k]
        invariant forall k | k in old(attempts) :: k in attempts <==> k in todo || !Stale(old(State())[k], now)
      {
        var key :| key in todo;
        todo := todo - {key};
        var r := attempts[key];
        var windowExpired := now - r.start > LOGIN_WINDOW;
        var lockExpired := r.lockedUntil.None? || now > r.lockedUntil.value;
        if windowExpired && lockExpired {
          attempts := attempts - {key};
        }
      }
    }
  }
}
