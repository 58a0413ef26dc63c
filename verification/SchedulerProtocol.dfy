// The running scheduler, before Stop, as interleaved atomic steps (internal/scheduler/scheduler.go):
// reloads of arbitrary check lists, timers firing at any time, on-demand runs, and runs that take a
// slot, find and try the check's mutex, probe, save and, if a timer started them, reschedule.
module SchedulerProtocol {
  import opened Schema
  import Results
  import opened Scheduler

  const MAX_RUNS := 200
  const MAX_QUEUE := 100

  datatype Origin = FromTimer(n: nat) | OnDemand

  /** Where a run stands; the names say what it does next. */
  datatype Pc =
    | TakingSlot
    | FindingMutex
    | TryingLock(mu: nat)
    | Probing(mu: nat)
    | Saving(mu: nat, at: int)
    | Releasing(mu: nat)
    | GivingSlot
    | Rescheduling
    | Finished

  datatype Run = Run(check: Id, origin: Origin, pc: Pc)

  datatype Stamp = Stamp(check: Id, at: int)

  /** `saved` and `active` (the last reload's checks) record what happened; `locked` maps a mutex to its run. */
  datatype State = State(table: Table, runs: seq<Run>, locked: map<nat, nat>, slots: int, queue: seq<Id>,
                         now: int, saved: seq<Stamp>, active: set<Id>)

  datatype Move = TakeSlot | FindMutex | TryLock | GiveUp | Probe | Save | FailSave | Release | GiveSlot | Reschedule

  datatype Action =
    | Tick(t: int)
    | Load(checks: seq<EnabledCheck>)
    | Fire(n: nat)
    | Request(id: Id)
    | Drain
    | Go(k: nat, move: Move)

  predicate Init(s: State) {
    s.table == Table(map[], map[], map[], [], 0) && s.runs == [] && s.locked == map[] && s.slots == 0 &&
    s.queue == [] && s.saved == [] && s.active == {}
  }

  ghost predicate CanMove(s: State, r: Run, move: Move) {
    match move
    case TakeSlot => r.pc.TakingSlot? && s.slots < MAX_RUNS
    case FindMutex => r.pc.FindingMutex?
    case TryLock => r.pc.TryingLock?
    case GiveUp => r.pc.Probing? // check or target is gone
    case Probe => r.pc.Probing?
    case Save => r.pc.Saving?
    case FailSave => r.pc.Saving?
    case Release => r.pc.Releasing?
    case GiveSlot => r.pc.GivingSlot?
    case Reschedule => r.pc.Rescheduling? && r.origin.FromTimer? && r.origin.n < |s.table.pool|
  }

  ghost predicate Enabled(s: State, a: Action) {
    match a
    case Tick(t) => t >= s.now
    case Load(checks) => TableOk(s.table) && DistinctIds(checks)
    case Fire(n) => n < |s.table.pool| && s.table.pool[n].st.Pending?
    case Request(_) => true
    case Drain => s.queue != []
    case Go(k, move) => k < |s.runs| && CanMove(s, s.runs[k], move)
  }

  ghost function NextPc(s: State, r: Run, move: Move): Pc
    requires CanMove(s, r, move)
  {
    match move
    case TakeSlot => FindingMutex
    case FindMutex => TryingLock(EnsureMutex(s.table, r.check).checkMu[r.check])
    case TryLock => if r.pc.mu in s.locked then GivingSlot else Probing(r.pc.mu)
    case GiveUp => Releasing(r.pc.mu)
    case Probe => Saving(r.pc.mu, s.now)
    case Save => Releasing(r.pc.mu)
    case FailSave => Releasing(r.pc.mu)
    case Release => GivingSlot
    case GiveSlot => if r.origin.FromTimer? then Rescheduling else Finished
    case Reschedule => Finished
  }

  ghost function NextTable(s: State, r: Run, move: Move): Table
    requires CanMove(s, r, move)
  {
    match move
    case FindMutex => EnsureMutex(s.table, r.check)
    case Reschedule => Rescheduled(s.table, r.check, r.origin.n)
    case _ => s.table
  }

  ghost function NextLocked(s: State, k: nat, r: Run, move: Move): map<nat, nat>
    requires CanMove(s, r, move)
  {
    if move.TryLock? && r.pc.mu !in s.locked then s.locked[r.pc.mu := k]
    else if move.Release? then s.locked - {r.pc.mu}
    else s.locked
  }

  ghost function Apply(s: State, a: Action): State
    requires Enabled(s, a)
  {
    match a
    case Tick(t) => s.(now := t)
    case Load(checks) => s.(table := Reload(s.table, checks), active := Wanted(checks).Keys)
    case Fire(n) =>
      var t := s.table.pool[n];
      s.(table := s.table.(pool := s.table.pool[n := t.(st := Running(|s.runs|))]),
         runs := s.runs + [Run(t.check, FromTimer(n), TakingSlot)])
    case Request(id) => if |s.queue| < MAX_QUEUE then s.(queue := s.queue + [id]) else s
    case Drain => s.(queue := s.queue[1..], runs := s.runs + [Run(s.queue[0], OnDemand, TakingSlot)])
    case Go(k, move) =>
      var r := s.runs[k];
      State(NextTable(s, r, move), s.runs[k := r.(pc := NextPc(s, r, move))], NextLocked(s, k, r, move),
            if move.TakeSlot? then s.slots + 1 else if move.GiveSlot? then s.slots - 1 else s.slots,
            s.queue, s.now, if move.Save? then s.saved + [Stamp(r.check, r.pc.at)] else s.saved, s.active)
  }

  ghost predicate Behavior(ss: seq<State>, acts: seq<Action>) {
    |ss| == |acts| + 1 && Init(ss[0]) && forall n | 0 <= n < |acts| :: Enabled(ss[n], acts[n]) && ss[n + 1] == Apply(ss[n], acts[n])
  }

  // ---------- timers and the runs they started ----------

  ghost predicate TimerOk(s: State, n: nat)
    requires n < |s.table.pool|
  {
    var t := s.table.pool[n];
    t.st.Running? ==> t.st.run < |s.runs| && s.runs[t.st.run].origin == FromTimer(n) &&
                      !s.runs[t.st.run].pc.Finished? && s.runs[t.st.run].check == t.check
  }

  predicate HoldsLock(pc: Pc) {
    pc.Probing? || pc.Saving? || pc.Releasing?
  }

  ghost predicate RunOk(s: State, k: nat)
    requires k < |s.runs|
  {
    var r := s.runs[k];
    (r.pc.Rescheduling? ==> r.origin.FromTimer?) &&
    (r.origin.FromTimer? && !r.pc.Finished? ==>
       r.origin.n < |s.table.pool| && s.table.pool[r.origin.n].st == Running(k) && s.table.pool[r.origin.n].check == r.check) &&
    (!r.pc.TakingSlot? && !r.pc.FindingMutex? ==> r.check in s.table.checkMu) &&
    (r.pc.TryingLock? || HoldsLock(r.pc) ==> s.table.checkMu[r.check] == r.pc.mu)
  }

  /** The scheduler still runs every check it was last told to, and every timer on the map is alive. */
  ghost predicate AllAlive(s: State)
    requires TableOk(s.table)
  {
    s.active <= s.table.timers.Keys && forall id | id in s.table.timers :: !s.table.pool[s.table.timers[id]].st.Over?
  }

  ghost predicate TimersInv(s: State) {
    TableOk(s.table) && AllAlive(s) &&
    (forall n: nat | n < |s.table.pool| :: TimerOk(s, n)) && forall k: nat | k < |s.runs| :: RunOk(s, k)
  }

  lemma LoadKeepsTimers(s: State, checks: seq<EnabledCheck>)
    requires TimersInv(s) && DistinctIds(checks)
    ensures TimersInv(Apply(s, Load(checks)))
  {
    var s', wanted := Apply(s, Load(checks)), Wanted(checks);
    ReloadReconciles(s.table, checks);
    forall n: nat | n < |s'.table.pool|
      ensures TimerOk(s', n)
    {
      assert TimerReconciled(s.table, s'.table, wanted, n);
      if n < |s.table.pool| {
        assert TimerOk(s, n);
      } else {
        assert EntryReconciled(s.table, s'.table, wanted, s'.table.pool[n].check);
      }
    }
    forall k: nat | k < |s'.runs|
      ensures RunOk(s', k)
    {
      assert RunOk(s, k);
      if s.runs[k].origin.FromTimer? && !s.runs[k].pc.Finished? {
        assert TimerReconciled(s.table, s'.table, wanted, s.runs[k].origin.n);
      }
    }
    assert forall id | id in s'.active :: EntryReconciled(s.table, s'.table, wanted, id);
    forall id | id in s'.table.timers
      ensures !s'.table.pool[s'.table.timers[id]].st.Over?
    {
      assert EntryReconciled(s.table, s'.table, wanted, id);
      assert TimerReconciled(s.table, s'.table, wanted, s'.table.timers[id]);
    }
  }

  lemma FireKeepsTimers(s: State, n: nat)
    requires TimersInv(s) && Enabled(s, Fire(n))
    ensures TimersInv(Apply(s, Fire(n)))
  {
    var s' := Apply(s, Fire(n));
    forall m: nat | m < |s'.table.pool|
      ensures TimerOk(s', m)
    {
      assert TimerOk(s, m);
    }
    forall k: nat | k < |s'.runs|
      ensures RunOk(s', k)
    {
      if k < |s.runs| {
        assert RunOk(s, k);
      }
    }
  }

  lemma RescheduleKeepsTimers(s: State, k: nat)
    requires TimersInv(s) && Enabled(s, Go(k, Reschedule))
    ensures TimersInv(Apply(s, Go(k, Reschedule)))
  {
    var s', r := Apply(s, Go(k, Reschedule)), s.runs[k];
    assert RunOk(s, k);
    assert TableOk(s'.table);
    forall m: nat | m < |s'.table.pool|
      ensures TimerOk(s', m)
    {
      if m < |s.table.pool| {
        assert TimerOk(s, m);
      }
    }
    forall j: nat | j < |s'.runs|
      ensures RunOk(s', j)
    {
      assert RunOk(s, j);
    }
    assert AllAlive(s') by {
      forall id | id in s'.table.timers && id != r.check
        ensures !s'.table.pool[s'.table.timers[id]].st.Over?
      {
        assert s.table.timers[id] != r.origin.n;
      }
    }
  }

  lemma MoverRunOk(s: State, k: nat, move: Move)
    requires TimersInv(s) && Enabled(s, Go(k, move)) && !move.Reschedule?
    ensures RunOk(Apply(s, Go(k, move)), k)
  {
    assert RunOk(s, k);
  }

  lemma MoveKeepsTimers(s: State, k: nat, move: Move)
    requires TimersInv(s) && Enabled(s, Go(k, move)) && !move.Reschedule?
    ensures TimersInv(Apply(s, Go(k, move)))
  {
    var s' := Apply(s, Go(k, move));
    assert RunOk(s, k);
    forall m: nat | m < |s'.table.pool| ensures TimerOk(s', m) {
      assert TimerOk(s, m);
    }
    forall j: nat | j < |s'.runs| ensures RunOk(s', j) {
      assert RunOk(s, j);
      if j == k {
        MoverRunOk(s, k, move);
      }
    }
  }

  lemma TimersStep(s: State, a: Action)
    requires TimersInv(s) && Enabled(s, a)
    ensures TimersInv(Apply(s, a))
  {
    match a
    case Load(checks) => LoadKeepsTimers(s, checks);
    case Fire(n) => FireKeepsTimers(s, n);
    case Go(k, move) => if move.Reschedule? { RescheduleKeepsTimers(s, k); } else { MoveKeepsTimers(s, k, move); }
    case _ =>
      var s' := Apply(s, a);
      forall n: nat | n < |s'.table.pool| ensures TimerOk(s', n) { assert TimerOk(s, n); }
      forall k: nat | k < |s'.runs| ensures RunOk(s', k) {
        if k < |s.runs| { assert RunOk(s, k); }
      }
  }

  // ---------- locks, slots and the order of saves ----------

  ghost predicate LocksOk(s: State) {
    (forall k: nat | k < |s.runs| && HoldsLock(s.runs[k].pc) :: s.runs[k].pc.mu in s.locked && s.locked[s.runs[k].pc.mu] == k) &&
    (forall mu | mu in s.locked :: s.locked[mu] < |s.runs| && HoldsLock(s.runs[s.locked[mu]].pc) && s.runs[s.locked[mu]].pc.mu == mu)
  }

  lemma LocksStep(s: State, a: Action)
    requires LocksOk(s) && Enabled(s, a)
    ensures LocksOk(Apply(s, a))
  {
    var s' := Apply(s, a);
    if a.Go? {
      var r := s.runs[a.k];
      forall k: nat | k < |s'.runs| && HoldsLock(s'.runs[k].pc)
        ensures s'.runs[k].pc.mu in s'.locked && s'.locked[s'.runs[k].pc.mu] == k
      {
        assert k == a.k || HoldsLock(s.runs[k].pc);
      }
      forall mu | mu in s'.locked
        ensures s'.locked[mu] < |s'.runs| && HoldsLock(s'.runs[s'.locked[mu]].pc) && s'.runs[s'.locked[mu]].pc.mu == mu
      {
        assert (a.move.TryLock? && mu == r.pc.mu) || mu in s.locked;
      }
    } else {
      assert forall k | 0 <= k < |s.runs| :: s'.runs[k] == s.runs[k];
    }
  }

  predicate HoldsSlot(pc: Pc) {
    !pc.TakingSlot? && !pc.Rescheduling? && !pc.Finished?
  }

  ghost function SlotsHeld(runs: seq<Run>): nat {
    if runs == [] then 0 else SlotsHeld(runs[..|runs| - 1]) + (if HoldsSlot(runs[|runs| - 1].pc) then 1 else 0)
  }

  lemma {:induction false} SlotsUpdate(runs: seq<Run>, k: nat, r: Run)
    requires k < |runs|
    ensures SlotsHeld(runs[k := r]) + (if HoldsSlot(runs[k].pc) then 1 else 0) == SlotsHeld(runs) + (if HoldsSlot(r.pc) then 1 else 0)
  {
    var n, up := |runs| - 1, runs[k := r];
    if k == n {
      assert up[..n] == runs[..n];
    } else {
      SlotsUpdate(runs[..n], k, r);
      assert up[..n] == runs[..n][k := r];
    }
  }

  ghost predicate SlotsOk(s: State) {
    s.slots == SlotsHeld(s.runs) <= MAX_RUNS && |s.queue| <= MAX_QUEUE
  }

  lemma SlotsMove(s: State, k: nat, move: Move)
    requires SlotsOk(s) && Enabled(s, Go(k, move))
    ensures SlotsOk(Apply(s, Go(k, move)))
  {
    var r := s.runs[k];
    var moved := r.(pc := NextPc(s, r, move));
    SlotsUpdate(s.runs, k, moved);
    assert Apply(s, Go(k, move)).runs == s.runs[k := moved];
    assert HoldsSlot(moved.pc) <==> (HoldsSlot(r.pc) && !move.GiveSlot?) || move.TakeSlot?;
  }

  lemma SlotsStep(s: State, a: Action)
    requires SlotsOk(s) && Enabled(s, a)
    ensures SlotsOk(Apply(s, a))
  {
    if a.Go? {
      SlotsMove(s, a.k, a.move);
    }
  }

  ghost predicate NewestStamp(s: State, check: Id, at: int) {
    forall i | 0 <= i < |s.saved| && s.saved[i].check == check :: s.saved[i].at <= at
  }

  /** Saves of one check happen in the order of their stamps, and a run about to save has the newest. */
  ghost predicate SavesOk(s: State) {
    (forall i, j | 0 <= i < j < |s.saved| && s.saved[i].check == s.saved[j].check :: s.saved[i].at <= s.saved[j].at) &&
    (forall i | 0 <= i < |s.saved| :: s.saved[i].at <= s.now) &&
    (forall k: nat | k < |s.runs| && s.runs[k].pc.Saving? :: s.runs[k].pc.at <= s.now && NewestStamp(s, s.runs[k].check, s.runs[k].pc.at))
  }

  /** At most one run of a check is past its lock. */
  lemma OneInside(s: State, j: nat, k: nat)
    requires TimersInv(s) && LocksOk(s) && j < |s.runs| && k < |s.runs|
    requires s.runs[j].check == s.runs[k].check && HoldsLock(s.runs[j].pc) && HoldsLock(s.runs[k].pc)
    ensures j == k
  {
    assert RunOk(s, j) && RunOk(s, k);
  }

  lemma SavesStep(s: State, a: Action)
    requires TimersInv(s) && LocksOk(s) && SavesOk(s) && Enabled(s, a)
    ensures SavesOk(Apply(s, a))
  {
    var s' := Apply(s, a);
    forall k: nat | k < |s'.runs| && s'.runs[k].pc.Saving?
      ensures s'.runs[k].pc.at <= s'.now && NewestStamp(s', s'.runs[k].check, s'.runs[k].pc.at)
    {
      if !(a.Go? && a.k == k) {
        assert s'.runs[k] == s.runs[k];
        if a.Go? && a.move.Save? && s.runs[a.k].check == s.runs[k].check {
          OneInside(s, a.k, k);
        }
      }
    }
    if a.Go? && a.move.Save? {
      var r := s.runs[a.k];
      assert NewestStamp(s, r.check, r.pc.at);
    }
  }

  // ---------- what holds in every run ----------

  ghost predicate Invariant(s: State) {
    TimersInv(s) && LocksOk(s) && SlotsOk(s) && SavesOk(s)
  }

  lemma {:induction false} Reachable(ss: seq<State>, acts: seq<Action>, n: nat)
    requires Behavior(ss, acts) && n < |ss|
    ensures Invariant(ss[n])
  {
    if n > 0 {
      Reachable(ss, acts, n - 1);
      TimersStep(ss[n - 1], acts[n - 1]);
      LocksStep(ss[n - 1], acts[n - 1]);
      SlotsStep(ss[n - 1], acts[n - 1]);
      SavesStep(ss[n - 1], acts[n - 1]);
    }
  }

  ghost predicate Alive(s: State, n: nat) {
    n < |s.table.pool| && !s.table.pool[n].st.Over?
  }

  /**
   * However reloads, firings and runs interleave, a check of the last reload never silently drops
   * out: its timer on the map is pending, or an unfinished run of it is going to reschedule it.
   */
  lemma NoCheckDropsOut(ss: seq<State>, acts: seq<Action>, n: nat, id: Id)
    requires Behavior(ss, acts) && n < |ss| && id in ss[n].active
    ensures var s := ss[n];
            id in s.table.timers && var m := s.table.timers[id];
            m < |s.table.pool| && s.table.pool[m].check == id &&
            (s.table.pool[m].st.Pending? ||
             exists k :: 0 <= k < |s.runs| && s.runs[k].check == id && s.runs[k].origin == FromTimer(m) && !s.runs[k].pc.Finished?)
  {
    Reachable(ss, acts, n);
    assert TimerOk(ss[n], ss[n].table.timers[id]);
  }

  /** Every check has at most one run past its lock, at most 200 runs hold a slot, and saves are in order. */
  lemma RunsAreBounded(ss: seq<State>, acts: seq<Action>, n: nat)
    requires Behavior(ss, acts) && n < |ss|
    ensures SlotsHeld(ss[n].runs) <= 200 && |ss[n].queue| <= 100
    ensures forall j: nat, k: nat | j < |ss[n].runs| && k < |ss[n].runs| && ss[n].runs[j].check == ss[n].runs[k].check &&
              HoldsLock(ss[n].runs[j].pc) && HoldsLock(ss[n].runs[k].pc) :: j == k
  {
    Reachable(ss, acts, n);
    forall j: nat, k: nat | j < |ss[n].runs| && k < |ss[n].runs| && ss[n].runs[j].check == ss[n].runs[k].check &&
      HoldsLock(ss[n].runs[j].pc) && HoldsLock(ss[n].runs[k].pc)
      ensures j == k
    {
      OneInside(ss[n], j, k);
    }
  }

  /** The saves of the run are the rows of a results log. */
  ghost predicate Logged(saved: seq<Stamp>, rows: seq<CheckResult>) {
    |rows| == |saved| && forall i | 0 <= i < |rows| :: rows[i].checkId == saved[i].check && rows[i].checkedAt == saved[i].at
  }

  ghost predicate OrderedPerCheck(rows: seq<CheckResult>) {
    forall i, j | 0 <= i < j < |rows| && rows[i].checkId == rows[j].checkId :: rows[i].checkedAt <= rows[j].checkedAt
  }

  lemma {:induction false} OneCheckInOrder(rows: seq<CheckResult>, check: Id)
    requires OrderedPerCheck(rows)
    ensures Results.InTimeOrder(Results.Of(rows, check))
  {
    if rows != [] {
      var init, r := rows[..|rows| - 1], rows[|rows| - 1];
      OneCheckInOrder(init, check);
      forall q | q in Results.Of(init, check) && r.checkId == check
        ensures q.checkedAt <= r.checkedAt
      {
        Results.OfMember(init, check, q);
        var i :| 0 <= i < |init| && init[i] == q;
        assert rows[i] == q;
      }
      var mine := Results.Of(init, check);
      assert forall i | 0 <= i < |mine| :: mine[i] in mine;
    }
  }

  /**
   * What per-check exclusion is for: in every run, with purges at any time, the current-state row of a
   * check is the newest result ever saved for it.
   */
  lemma CurrentRowIsNewest(ss: seq<State>, acts: seq<Action>, n: nat, ops: seq<Results.Op>, check: Id)
    requires Behavior(ss, acts) && n < |ss| && Logged(ss[n].saved, Results.Ever(ops))
    ensures Results.InTimeOrder(Results.Of(Results.Ever(ops), check))
    ensures Results.IsNewest(Results.Run(ops).current, Results.Ever(ops), check)
  {
    Reachable(ss, acts, n);
    OneCheckInOrder(Results.Ever(ops), check);
    Results.CurrentIsNewest(ops, check);
  }

  lemma {:induction false} SomeHolder(runs: seq<Run>) returns (k: nat)
    requires SlotsHeld(runs) > 0
    ensures k < |runs| && HoldsSlot(runs[k].pc)
  {
    k := |runs| - 1;
    if !HoldsSlot(runs[k].pc) {
      k := SomeHolder(runs[..k]);
    }
  }

  /** An unfinished run can move, unless 200 others hold slots; then one of those can. */
  lemma NoDeadlock(ss: seq<State>, acts: seq<Action>, n: nat, k: nat) returns (a: Action)
    requires Behavior(ss, acts) && n < |ss| && k < |ss[n].runs| && !ss[n].runs[k].pc.Finished?
    ensures a.Go? && Enabled(ss[n], a)
    ensures a.k != k ==> ss[n].runs[k].pc.TakingSlot? && SlotsHeld(ss[n].runs) == 200
  {
    var s, j := ss[n], k;
    Reachable(ss, acts, n);
    if s.runs[k].pc.TakingSlot? && s.slots == MAX_RUNS {
      j := SomeHolder(s.runs);
    }
    assert RunOk(s, j);
    var move :=
      match s.runs[j].pc
      case TakingSlot => TakeSlot
      case FindingMutex => FindMutex
      case TryingLock(_) => TryLock
      case Probing(_) => Probe
      case Saving(_, _) => Save
      case Releasing(_) => Release
      case GivingSlot => GiveSlot
      case Rescheduling => Reschedule
      case Finished => Reschedule;
    a := Go(j, move);
  }

  // ---------- requested runs ----------

  /** The requests of the first n steps that found fewer than a hundred waiting; the others are dropped. */
  ghost function Accepted(ss: seq<State>, acts: seq<Action>, n: nat): seq<Id>
    requires n < |ss| == |acts| + 1
  {
    if n == 0 then [] else
      var before := Accepted(ss, acts, n - 1);
      if acts[n - 1].Request? && |ss[n - 1].queue| < 100 then before + [acts[n - 1].id] else before
  }

  /** The checks of the runs that were started on request, in order. */
  function Requested(runs: seq<Run>): seq<Id> {
    if runs == [] then [] else
      var r := runs[|runs| - 1];
      var before := Requested(runs[..|runs| - 1]);
      if r.origin.OnDemand? then before + [r.check] else before
  }

  lemma {:induction false} MovingKeepsRequested(runs: seq<Run>, k: nat, r: Run)
    requires k < |runs| && r.check == runs[k].check && r.origin == runs[k].origin
    ensures Requested(runs[k := r]) == Requested(runs)
  {
    var n := |runs| - 1;
    if k < n {
      MovingKeepsRequested(runs[..n], k, r);
      assert runs[k := r][..n] == runs[..n][k := r];
    } else {
      assert runs[k := r][..n] == runs[..n];
    }
  }

  lemma RequestedAppend(runs: seq<Run>, r: Run)
    ensures Requested(runs + [r]) == if r.origin.OnDemand? then Requested(runs) + [r.check] else Requested(runs)
  {
    assert (runs + [r])[..|runs|] == runs;
  }

  lemma RequestedStep(s: State, a: Action)
    requires Enabled(s, a)
    ensures var s' := Apply(s, a);
            Requested(s'.runs) + s'.queue == Requested(s.runs) + s.queue + (if a.Request? && |s.queue| < 100 then [a.id] else [])
  {
    match a
    case Fire(n) => RequestedAppend(s.runs, Run(s.table.pool[n].check, FromTimer(n), TakingSlot));
    case Drain =>
      RequestedAppend(s.runs, Run(s.queue[0], OnDemand, TakingSlot));
      assert s.queue == [s.queue[0]] + s.queue[1..];
    case Go(k, move) => MovingKeepsRequested(s.runs, k, s.runs[k].(pc := NextPc(s, s.runs[k], move)));
    case _ =>
  }

  /** In every run, accepted requests are run in the order they came, each once; what is not yet running waits. */
  lemma {:induction false} RequestsRunInOrder(ss: seq<State>, acts: seq<Action>, n: nat)
    requires Behavior(ss, acts) && n < |ss|
    ensures Requested(ss[n].runs) + ss[n].queue == Accepted(ss, acts, n)
  {
    if n > 0 {
      RequestsRunInOrder(ss, acts, n - 1);
      RequestedStep(ss[n - 1], acts[n - 1]);
    }
  }

  // ---------- chains of timers ----------

  /** No check has two timers that still fire or whose callback still runs. */
  ghost predicate OneLive(s: State) {
    forall i: nat, j: nat | Alive(s, i) && Alive(s, j) && s.table.pool[i].check == s.table.pool[j].check :: i == j
  }

  ghost predicate PendingTracked(s: State) {
    forall n: nat | n < |s.table.pool| && s.table.pool[n].st.Pending? :: Tracked(s.table, n)
  }

  /**
   * The reload gives no new timer to a check whose callback is running, be it re-timed or, dropped before, active
   * again. Dropping such a check is harmless.
   */
  ghost predicate Careful(s: State, checks: seq<EnabledCheck>) {
    forall n: nat | n < |s.table.pool| && s.table.pool[n].st.Running? && s.table.pool[n].check in Wanted(checks) ::
      Keeps(s.table, Wanted(checks), s.table.pool[n].check)
  }

  /** Re-timing a check while its callback runs leaves it with two live timers, that is, two chains. */
  lemma RetimingDoubles(s: State, checks: seq<EnabledCheck>, n: nat)
    requires TableOk(s.table) && DistinctIds(checks) && n < |s.table.pool| && s.table.pool[n].st.Running?
    requires s.table.pool[n].check in Wanted(checks) && !Keeps(s.table, Wanted(checks), s.table.pool[n].check)
    ensures var s', id := Apply(s, Load(checks)), s.table.pool[n].check;
            id in s'.table.timers && var m := s'.table.timers[id];
            m != n && Alive(s', m) && Alive(s', n) && s'.table.pool[m].check == s'.table.pool[n].check == id &&
            s'.table.pool[m].st.Pending? && s'.table.pool[n] == s.table.pool[n]
  {
    ReloadReconciles(s.table, checks);
    var t' := Apply(s, Load(checks)).table;
    assert TimerReconciled(s.table, t', Wanted(checks), n);
    assert EntryReconciled(s.table, t', Wanted(checks), s.table.pool[n].check);
  }

  lemma LoadKeepsPendingTracked(s: State, checks: seq<EnabledCheck>)
    requires TableOk(s.table) && PendingTracked(s) && DistinctIds(checks)
    ensures PendingTracked(Apply(s, Load(checks)))
  {
    var s', wanted := Apply(s, Load(checks)), Wanted(checks);
    ReloadReconciles(s.table, checks);
    forall n: nat | n < |s'.table.pool| && s'.table.pool[n].st.Pending? ensures Tracked(s'.table, n) {
      assert TimerReconciled(s.table, s'.table, wanted, n);
      if n < |s.table.pool| {
        assert EntryReconciled(s.table, s'.table, wanted, s.table.pool[n].check);
      }
    }
  }

  /** A new timer next to an old live one of the same check is the mark of a careless reload. */
  lemma NewBesideOld(s: State, checks: seq<EnabledCheck>, i: nat, j: nat)
    requires TableOk(s.table) && PendingTracked(s) && DistinctIds(checks) && i < |s.table.pool| <= j
    requires var s' := Apply(s, Load(checks)); Alive(s', i) && Alive(s', j) && s'.table.pool[i].check == s'.table.pool[j].check
    ensures !Careful(s, checks)
  {
    var t', wanted, id := Apply(s, Load(checks)).table, Wanted(checks), s.table.pool[i].check;
    ReloadReconciles(s.table, checks);
    assert TimerReconciled(s.table, t', wanted, i) && TimerReconciled(s.table, t', wanted, j);
    assert EntryReconciled(s.table, t', wanted, id);
    assert s.table.pool[i].st.Running? && id in wanted && !Keeps(s.table, wanted, id);
  }

  /** Exactly when a reload keeps every check at one live timer. */
  lemma LoadKeepsOneLiveIff(s: State, checks: seq<EnabledCheck>)
    requires TableOk(s.table) && OneLive(s) && PendingTracked(s) && DistinctIds(checks)
    ensures OneLive(Apply(s, Load(checks))) <==> Careful(s, checks)
  {
    var s', wanted := Apply(s, Load(checks)), Wanted(checks);
    if Careful(s, checks) {
      ReloadReconciles(s.table, checks);
      forall i: nat, j: nat | Alive(s', i) && Alive(s', j) && s'.table.pool[i].check == s'.table.pool[j].check ensures i == j {
        assert TimerReconciled(s.table, s'.table, wanted, i) && TimerReconciled(s.table, s'.table, wanted, j);
        if i < |s.table.pool| <= j {
          NewBesideOld(s, checks, i, j);
        } else if j < |s.table.pool| <= i {
          NewBesideOld(s, checks, j, i);
        } else if i < |s.table.pool| {
          assert Alive(s, i) && Alive(s, j);
        }
      }
    } else {
      var n: nat :| n < |s.table.pool| && s.table.pool[n].st.Running? && s.table.pool[n].check in wanted &&
                    !Keeps(s.table, wanted, s.table.pool[n].check);
      RetimingDoubles(s, checks, n);
    }
  }

  lemma RescheduleKeepsOneLive(s: State, k: nat)
    requires TimersInv(s) && OneLive(s) && PendingTracked(s) && Enabled(s, Go(k, Reschedule))
    ensures OneLive(Apply(s, Go(k, Reschedule))) && PendingTracked(Apply(s, Go(k, Reschedule)))
  {
    var s', n := Apply(s, Go(k, Reschedule)), s.runs[k].origin.n;
    assert RunOk(s, k) && Alive(s, n);
    assert forall i: nat | Alive(s', i) && i < |s.table.pool| :: Alive(s, i) && i != n;
  }

  /** No other step starts a second chain. */
  lemma OthersKeepOneLive(s: State, a: Action)
    requires TimersInv(s) && OneLive(s) && PendingTracked(s) && Enabled(s, a) && !a.Load?
    ensures OneLive(Apply(s, a)) && PendingTracked(Apply(s, a))
  {
    if a.Go? && a.move.Reschedule? {
      RescheduleKeepsOneLive(s, a.k);
    } else {
      var s' := Apply(s, a);
      assert s'.table.timers == s.table.timers && |s'.table.pool| == |s.table.pool|;
      assert forall i: nat | Alive(s', i) :: Alive(s, i);
    }
  }

  /** So far, no check ever had two live timers. */
  ghost predicate OneLiveUpTo(ss: seq<State>, n: nat)
    requires n < |ss|
  {
    forall m | 0 <= m <= n :: OneLive(ss[m])
  }

  ghost predicate CarefulUpTo(ss: seq<State>, acts: seq<Action>, n: nat)
    requires n < |ss| == |acts| + 1
  {
    forall i | 0 <= i < n && acts[i].Load? :: Careful(ss[i], acts[i].checks)
  }

  /** Over every run: no check ever has two timer chains if and only if no reload gives a check a new timer while its callback runs. */
  lemma {:induction false} OneChainPerCheck(ss: seq<State>, acts: seq<Action>, n: nat)
    requires Behavior(ss, acts) && n < |ss|
    ensures OneLiveUpTo(ss, n) <==> CarefulUpTo(ss, acts, n)
    ensures OneLiveUpTo(ss, n) ==> PendingTracked(ss[n])
  {
    if n > 0 {
      var s, a := ss[n - 1], acts[n - 1];
      OneChainPerCheck(ss, acts, n - 1);
      Reachable(ss, acts, n - 1);
      assert OneLiveUpTo(ss, n) <==> OneLiveUpTo(ss, n - 1) && OneLive(ss[n]);
      assert CarefulUpTo(ss, acts, n) <==> CarefulUpTo(ss, acts, n - 1) && (a.Load? ==> Careful(s, a.checks));
      if OneLiveUpTo(ss, n - 1) {
        if a.Load? {
          LoadKeepsOneLiveIff(s, a.checks);
          LoadKeepsPendingTracked(s, a.checks);
        } else {
          OthersKeepOneLive(s, a);
        }
      }
    }
  }

  // ---------- live timers the map has lost ----------

  /** Every live timer is on the map, so reloads see all of them. */
  ghost predicate AllTracked(s: State) {
    forall n: nat | Alive(s, n) :: Tracked(s.table, n)
  }

  /** The reload neither drops nor re-times a check whose callback is running. */
  ghost predicate Clean(s: State, checks: seq<EnabledCheck>) {
    forall n: nat | n < |s.table.pool| && s.table.pool[n].st.Running? :: Keeps(s.table, Wanted(checks), s.table.pool[n].check)
  }

  /** Exactly when a reload keeps all live timers on the map: a running callback must keep its entry. */
  lemma LoadKeepsAllTrackedIff(s: State, checks: seq<EnabledCheck>)
    requires TableOk(s.table) && AllTracked(s) && DistinctIds(checks)
    ensures AllTracked(Apply(s, Load(checks))) <==> Clean(s, checks)
  {
    var s', wanted := Apply(s, Load(checks)), Wanted(checks);
    ReloadReconciles(s.table, checks);
    if Clean(s, checks) {
      forall n: nat | Alive(s', n)
        ensures Tracked(s'.table, n)
      {
        assert TimerReconciled(s.table, s'.table, wanted, n);
        if n < |s.table.pool| {
          assert Alive(s, n) && EntryReconciled(s.table, s'.table, wanted, s.table.pool[n].check);
        }
      }
    } else {
      var n: nat :| n < |s.table.pool| && s.table.pool[n].st.Running? && !Keeps(s.table, wanted, s.table.pool[n].check);
      assert Alive(s, n) && TimerReconciled(s.table, s'.table, wanted, n);
      assert Alive(s', n) && EntryReconciled(s.table, s'.table, wanted, s.table.pool[n].check);
      assert !Tracked(s'.table, n);
    }
  }

  lemma OthersKeepAllTracked(s: State, a: Action)
    requires TimersInv(s) && AllTracked(s) && Enabled(s, a) && !a.Load?
    ensures AllTracked(Apply(s, a))
  {
    var s' := Apply(s, a);
    if a.Go? {
      assert RunOk(s, a.k);
      assert a.move.Reschedule? ==> Alive(s, s.runs[a.k].origin.n);
    }
    assert forall n: nat | Alive(s', n) && n < |s.table.pool| :: Alive(s, n);
  }

  ghost predicate TrackedUpTo(ss: seq<State>, n: nat)
    requires n < |ss|
  {
    forall m | 0 <= m <= n :: AllTracked(ss[m])
  }

  ghost predicate CleanUpTo(ss: seq<State>, acts: seq<Action>, n: nat)
    requires n < |ss| == |acts| + 1
  {
    forall i | 0 <= i < n && acts[i].Load? :: Clean(ss[i], acts[i].checks)
  }

  /** Over every run: no live timer is ever off the map if and only if no reload drops or re-times a check while its callback runs. */
  lemma {:induction false} NoTimerIsLost(ss: seq<State>, acts: seq<Action>, n: nat)
    requires Behavior(ss, acts) && n < |ss|
    ensures TrackedUpTo(ss, n) <==> CleanUpTo(ss, acts, n)
  {
    if n > 0 {
      var s, a := ss[n - 1], acts[n - 1];
      NoTimerIsLost(ss, acts, n - 1);
      Reachable(ss, acts, n - 1);
      assert TrackedUpTo(ss, n) <==> TrackedUpTo(ss, n - 1) && AllTracked(ss[n]);
      assert CleanUpTo(ss, acts, n) <==> CleanUpTo(ss, acts, n - 1) && (a.Load? ==> Clean(s, a.checks));
      if TrackedUpTo(ss, n - 1) {
        if a.Load? {
          LoadKeepsAllTrackedIff(s, a.checks);
        } else {
          OthersKeepAllTracked(s, a);
        }
      }
    }
  }
}
