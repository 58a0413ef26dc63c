// Which alerts are logged when (internal/alerter/alerter.go, internal/store/alerts.go). Whether a
// message is delivered is irrelevant: every attempt is logged. Settings, targets and recipients are
// fixed; the clock counts whole seconds.
module Alerter {
  import opened Prelude
  import opened Schema

  const DEFAULT_COOLDOWN := 1800

  datatype Channel = NoChannel | Email | Signal | EmailAndSignal | OtherChannel

  datatype Recipient = Recipient(id: Id, hasEmail: bool, hasPhone: bool)

  datatype Kind = Firing | Recovery | Realert

  /** To = None is the webhook. */
  datatype Entry = Entry(rule: Id, kind: Kind, recipient: Option<Id>, at: int)

  /** Settings reduced to what the control flow asks of them, and the targets and active recipients of rules. */
  datatype World = World(channel: Channel, hasFrom: bool, smtp: bool, hasApiKey: bool, signalReady: bool,
                         webhookEnabled: bool, hasWebhookUrl: bool, cooldownS: int, realertS: int,
                         targetOf: map<Id, Id>, targets: set<Id>, recipients: map<Id, seq<Recipient>>)
  {
    function Cooldown(): (c: int)
      ensures c > 0
    {
      if cooldownS <= 0 then DEFAULT_COOLDOWN else cooldownS
    }

    predicate Configured() {
      channel != NoChannel || webhookEnabled
    }

    predicate UsesEmail() {
      (channel == Email || channel == EmailAndSignal) && hasFrom
    }

    predicate UsesSignal() {
      (channel == Signal || channel == EmailAndSignal) && signalReady
    }

    predicate UsesWebhook() {
      webhookEnabled && hasWebhookUrl
    }

    predicate MailsTo(r: Recipient) {
      r.hasEmail && (smtp || hasApiKey)
    }
  }

  // ---------- what one dispatch logs ----------

  function Mailed(w: World, rs: seq<Recipient>): seq<Option<Id>> {
    if rs == [] then [] else
      var r := rs[|rs| - 1];
      Mailed(w, rs[..|rs| - 1]) + (if w.MailsTo(r) then [Some(r.id)] else [])
  }

  function Phoned(rs: seq<Recipient>): seq<Option<Id>> {
    if rs == [] then [] else
      var r := rs[|rs| - 1];
      Phoned(rs[..|rs| - 1]) + (if r.hasPhone then [Some(r.id)] else [])
  }

  /** Everyone an alert of a rule goes to, in order; nobody if the target has no recipients. */
  function Destinations(w: World, rule: Id): seq<Option<Id>> {
    if rule !in w.targetOf || w.targetOf[rule] !in w.targets || w.targetOf[rule] !in w.recipients
    then [] else
      var rs := w.recipients[w.targetOf[rule]];
      if rs == [] then [] else
        (if w.UsesEmail() then Mailed(w, rs) else []) + (if w.UsesSignal() then Phoned(rs) else []) +
        (if w.UsesWebhook() then [None] else [])
  }

  /** The clock when the i-th entry of a batch is logged. */
  function TickAt(ticks: seq<int>, at: int, i: nat): int {
    if i < |ticks| then ticks[i] else at
  }

  function Batch(rule: Id, kind: Kind, to: seq<Option<Id>>, at: int, ticks: seq<int>): seq<Entry> {
    seq(|to|, i requires 0 <= i < |to| => Entry(rule, kind, to[i], TickAt(ticks, at, i)))
  }

  // ---------- the two gates ----------

  /** The two selections of alert types the gates query. */
  datatype Selection = Transition | Problem
  {
    predicate Has(k: Kind) {
      k.Firing? || (if Transition? then k.Recovery? else k.Realert?)
    }
  }

  /** SELECT sent_at ... ORDER BY sent_at DESC LIMIT 1 over a rule's entries of some kinds. */
  function Latest(history: seq<Entry>, rule: Id, kinds: Selection): Option<int> {
    if history == [] then None else
      var e, t := history[|history| - 1], Latest(history[..|history| - 1], rule, kinds);
      if e.rule == rule && kinds.Has(e.kind) && (t.None? || e.at > t.value) then Some(e.at) else t
  }

  predicate DispatchOpen(w: World, history: seq<Entry>, rule: Id, at: int) {
    rule in w.targetOf && w.Configured() &&
    var last := Latest(history, rule, Transition);
    last.None? || at - last.value >= w.Cooldown()
  }

  predicate RealertOpen(w: World, history: seq<Entry>, rule: Id, at: int) {
    w.realertS > 0 && w.Configured() && rule in w.targetOf &&
    var last := Latest(history, rule, Problem);
    last.Some? && at - last.value >= w.realertS
  }

  function KindOf(to: Health): Kind {
    if to == Healthy then Recovery else Firing
  }

  // ---------- whole runs ----------

  /** A dispatch for a state change, or the turn of one firing rule in CheckRealerts. */
  datatype Event = Dispatch(rule: Id, to: Health, at: int, ticks: seq<int>) | Remind(rule: Id, at: int, ticks: seq<int>)

  predicate Logs(w: World, history: seq<Entry>, e: Event) {
    Destinations(w, e.rule) != [] &&
    if e.Dispatch? then DispatchOpen(w, history, e.rule, e.at) else RealertOpen(w, history, e.rule, e.at)
  }

  function Step(w: World, history: seq<Entry>, e: Event): seq<Entry> {
    if Logs(w, history, e)
    then history + Batch(e.rule, if e.Dispatch? then KindOf(e.to) else Realert, Destinations(w, e.rule), e.at, e.ticks)
    else history
  }

  function After(w: World, events: seq<Event>): seq<Entry> {
    if events == [] then [] else Step(w, After(w, events[..|events| - 1]), events[|events| - 1])
  }

  function Finish(e: Event): int {
    if e.ticks == [] then e.at else e.ticks[|e.ticks| - 1]
  }

  ghost predicate InOrder(e: Event) {
    forall i | 0 <= i < |e.ticks| :: e.at <= e.ticks[i] <= Finish(e)
  }

  /** Dispatches and reminders follow one another, each finished before the next starts. */
  ghost predicate Sequential(events: seq<Event>) {
    (forall i | 0 <= i < |events| :: InOrder(events[i])) &&
    forall i, j | 0 <= i < j < |events| :: Finish(events[i]) <= events[j].at
  }

  /** When the dispatches of a rule that logged something were made. */
  function Openings(w: World, events: seq<Event>, rule: Id): seq<int> {
    if events == [] then [] else
      var init, e := events[..|events| - 1], events[|events| - 1];
      Openings(w, init, rule) + (if e.Dispatch? && e.rule == rule && Logs(w, After(w, init), e) then [e.at] else [])
  }

  lemma {:induction false} LatestIsNewest(history: seq<Entry>, rule: Id, kinds: Selection)
    ensures forall i | 0 <= i < |history| && history[i].rule == rule && kinds.Has(history[i].kind) ::
              Latest(history, rule, kinds).Some? && history[i].at <= Latest(history, rule, kinds).value
    ensures Latest(history, rule, kinds).Some? ==>
              exists i | 0 <= i < |history| :: history[i].rule == rule && kinds.Has(history[i].kind) && history[i].at == Latest(history, rule, kinds).value
  {
    if history != [] {
      LatestIsNewest(history[..|history| - 1], rule, kinds);
    }
  }

  lemma LatestAfterBatch(history: seq<Entry>, rule: Id, kinds: Selection, batch: seq<Entry>, at: int)
    requires batch != [] && forall i | 0 <= i < |batch| :: batch[i].rule == rule && kinds.Has(batch[i].kind) && batch[i].at >= at
    ensures Latest(history + batch, rule, kinds).Some? && Latest(history + batch, rule, kinds).value >= at
  {
    LatestIsNewest(history + batch, rule, kinds);
    assert (history + batch)[|history|] == batch[0];
  }

  lemma {:induction false} LatestSkips(history: seq<Entry>, rule: Id, kinds: Selection, batch: seq<Entry>)
    requires forall i | 0 <= i < |batch| :: batch[i].rule != rule || !kinds.Has(batch[i].kind)
    ensures Latest(history + batch, rule, kinds) == Latest(history, rule, kinds)
  {
    if batch == [] {
      assert history + batch == history;
    } else {
      var init := batch[..|batch| - 1];
      assert (history + batch)[..|history + batch| - 1] == history + init;
      LatestSkips(history, rule, kinds, init);
    }
  }

  ghost predicate Spaced(times: seq<int>, gap: int) {
    forall i, j | 0 <= i < j < |times| :: times[j] - times[i] >= gap
  }

  /** The rule's openings so far are a cooldown apart, and its latest transition entry is no older than the last of them. */
  ghost predicate Paced(w: World, events: seq<Event>, rule: Id) {
    var times, last := Openings(w, events, rule), Latest(After(w, events), rule, Transition);
    Spaced(times, w.Cooldown()) &&
    (times != [] ==> last.Some? && forall i | 0 <= i < |times| :: times[i] <= last.value)
  }

  /** Other rules and reminders move neither a rule's openings nor its latest transition entry. */
  lemma LatestUnmoved(w: World, init: seq<Event>, e: Event, rule: Id)
    requires !(e.Dispatch? && e.rule == rule && Logs(w, After(w, init), e))
    ensures Latest(After(w, init + [e]), rule, Transition) == Latest(After(w, init), rule, Transition)
    ensures Openings(w, init + [e], rule) == Openings(w, init, rule)
  {
    var h := After(w, init);
    assert (init + [e])[..|init|] == init;
    if Logs(w, h, e) {
      var batch := Batch(e.rule, if e.Dispatch? then KindOf(e.to) else Realert, Destinations(w, e.rule), e.at, e.ticks);
      assert After(w, init + [e]) == h + batch;
      LatestSkips(h, rule, Transition, batch);
    }
  }

  lemma PacedOpening(w: World, init: seq<Event>, e: Event)
    requires InOrder(e) && Paced(w, init, e.rule) && e.Dispatch? && Logs(w, After(w, init), e)
    ensures Paced(w, init + [e], e.rule)
  {
    var h, times := After(w, init), Openings(w, init, e.rule);
    assert (init + [e])[..|init|] == init;
    var batch := Batch(e.rule, KindOf(e.to), Destinations(w, e.rule), e.at, e.ticks);
    LatestAfterBatch(h, e.rule, Transition, batch, e.at);
    assert Openings(w, init + [e], e.rule) == times + [e.at];
    assert forall i | 0 <= i < |times| :: e.at - times[i] >= w.Cooldown();
  }

  lemma PacedStep(w: World, init: seq<Event>, e: Event, rule: Id)
    requires InOrder(e) && Paced(w, init, rule)
    ensures Paced(w, init + [e], rule)
  {
    if e.Dispatch? && e.rule == rule && Logs(w, After(w, init), e) {
      PacedOpening(w, init, e);
    } else {
      LatestUnmoved(w, init, e, rule);
    }
  }

  lemma {:induction false} OpeningsPaced(w: World, events: seq<Event>, rule: Id)
    requires Sequential(events)
    ensures Paced(w, events, rule)
  {
    if events != [] {
      var init, e := events[..|events| - 1], events[|events| - 1];
      OpeningsPaced(w, init, rule);
      PacedStep(w, init, e, rule);
      assert events == init + [e];
    }
  }

  /** However a rule flaps, its logged dispatches are at least the cooldown apart, 1800 seconds if none is set. */
  lemma TransitionsAreSpaced(w: World, events: seq<Event>, rule: Id)
    requires Sequential(events)
    ensures Spaced(Openings(w, events, rule), if w.cooldownS <= 0 then 1800 else w.cooldownS)
  {
    OpeningsPaced(w, events, rule);
  }

  lemma {:induction false} ManyGaps(times: seq<int>, gap: int, i: nat, j: nat)
    requires Spaced(times, gap) && i <= j < |times|
    ensures times[j] - times[i] >= (j - i) * gap
  {
    if i < j {
      ManyGaps(times, gap, i, j - 1);
      assert times[j] - times[j - 1] >= gap;
      assert (j - i) * gap == (j - 1 - i) * gap + gap;
    }
  }

  lemma Monotone(a: int, b: int, c: int)
    requires a <= b && c > 0
    ensures a * c <= b * c
  {}

  lemma Quotient(k: nat, c: int, span: int)
    requires c > 0 && k * c <= span
    ensures k <= span / c
  {
    var q := span / c;
    if q < k {
      assert span < (q + 1) * c;
      Monotone(q + 1, k, c);
      assert false;
    }
  }

  /** So a span of T seconds holds at most T / cooldown + 1 of them. */
  lemma FlappingBound(w: World, events: seq<Event>, rule: Id, i: nat, j: nat, span: int)
    requires Sequential(events) && i <= j < |Openings(w, events, rule)|
    requires Openings(w, events, rule)[j] - Openings(w, events, rule)[i] <= span
    ensures j - i + 1 <= span / (if w.cooldownS <= 0 then 1800 else w.cooldownS) + 1
  {
    OpeningsPaced(w, events, rule);
    ManyGaps(Openings(w, events, rule), w.Cooldown(), i, j);
    Quotient(j - i, w.Cooldown(), span);
  }

  /** A re-alert comes at least the re-alert period after every problem alert already logged for the rule. */
  lemma RealertsWait(w: World, events: seq<Event>, e: Event, i: nat)
    requires e.Remind? && Logs(w, After(w, events), e)
    requires i < |After(w, events)| && After(w, events)[i].rule == e.rule && Problem.Has(After(w, events)[i].kind)
    ensures e.at - After(w, events)[i].at >= w.realertS > 0
  {
    LatestIsNewest(After(w, events), e.rule, Problem);
  }

  // ---------- re-alerts never delay a transition alert ----------

  function WithoutReminders(events: seq<Event>): seq<Event> {
    if events == [] then [] else
      var before := WithoutReminders(events[..|events| - 1]);
      if events[|events| - 1].Dispatch? then before + [events[|events| - 1]] else before
  }

  /** The transition entries of a history. */
  function Transitions(history: seq<Entry>): seq<Entry> {
    if history == [] then [] else
      var e := history[|history| - 1];
      Transitions(history[..|history| - 1]) + (if Transition.Has(e.kind) then [e] else [])
  }

  lemma {:induction false} TransitionsOfBatch(history: seq<Entry>, batch: seq<Entry>, keep: bool)
    requires forall i | 0 <= i < |batch| :: Transition.Has(batch[i].kind) == keep
    ensures Transitions(history + batch) == Transitions(history) + (if keep then batch else [])
  {
    if batch == [] {
      assert history + batch == history;
    } else {
      var init := batch[..|batch| - 1];
      assert (history + batch)[..|history + batch| - 1] == history + init;
      assert batch == init + [batch[|batch| - 1]];
      TransitionsOfBatch(history, init, keep);
    }
  }

  lemma {:induction false} LatestOfTransitions(history: seq<Entry>, rule: Id)
    ensures Latest(Transitions(history), rule, Transition) == Latest(history, rule, Transition)
  {
    if history != [] {
      var init, e := history[..|history| - 1], history[|history| - 1];
      LatestOfTransitions(init, rule);
      if Transition.Has(e.kind) {
        assert (Transitions(init) + [e])[..|Transitions(init)|] == Transitions(init);
      } else {
        assert Transitions(history) == Transitions(init);
      }
    }
  }

  /** With or without re-alerts in between, a run logs the same transition alerts at the same times. */
  lemma {:induction false} RealertsNeverDelay(w: World, events: seq<Event>, rule: Id)
    ensures Transitions(After(w, events)) == Transitions(After(w, WithoutReminders(events)))
    ensures Openings(w, events, rule) == Openings(w, WithoutReminders(events), rule)
  {
    if events != [] {
      var init, e := events[..|events| - 1], events[|events| - 1];
      var bare := WithoutReminders(init);
      RealertsNeverDelay(w, init, rule);
      var h, g := After(w, init), After(w, bare);
      var to := Destinations(w, e.rule);
      if e.Dispatch? {
        assert (bare + [e])[..|bare|] == bare;
        LatestOfTransitions(h, e.rule);
        LatestOfTransitions(g, e.rule);
        assert Logs(w, h, e) == Logs(w, g, e);
        TransitionsOfBatch(h, Batch(e.rule, KindOf(e.to), to, e.at, e.ticks), true);
        TransitionsOfBatch(g, Batch(e.rule, KindOf(e.to), to, e.at, e.ticks), true);
      } else {
        TransitionsOfBatch(h, Batch(e.rule, Realert, to, e.at, e.ticks), false);
      }
    }
  }

  // ---------- the service ----------

  lemma BatchGrows(rule: Id, kind: Kind, to: seq<Option<Id>>, next: Option<Id>, at: int, ticks: seq<int>)
    ensures Batch(rule, kind, to + [next], at, ticks) ==
            Batch(rule, kind, to, at, ticks) + [Entry(rule, kind, next, TickAt(ticks, at, |to|))]
  {}

  function Steps(w: World, history: seq<Entry>, events: seq<Event>): seq<Entry> {
    if events == [] then history else Step(w, Steps(w, history, events[..|events| - 1]), events[|events| - 1])
  }

  class AlertService {
    const w: World
    var history: seq<Entry>

    constructor (w: World)
      ensures this.w == w && history == []
    {
      this.w := w;
      history := [];
    }

    method LogAlert(rule: Id, kind: Kind, recipient: Option<Id>, at: int)
      modifies this
      ensures history == old(history) + [Entry(rule, kind, recipient, at)]
    {
      history := history + [Entry(rule, kind, recipient, at)];
    }

    /** Mails the recipients; `sent` lists everyone logged so far in this batch. */
    method SendMails(rule: Id, kind: Kind, rs: seq<Recipient>, at: int, ticks: seq<int>)
      returns (sent: seq<Option<Id>>)
      modifies this
      ensures sent == Mailed(w, rs) && history == old(history) + Batch(rule, kind, sent, at, ticks)
    {
      sent := [];
      for i := 0 to |rs|
        invariant sent == Mailed(w, rs[..i]) && history == old(history) + Batch(rule, kind, sent, at, ticks)
      {
        assert rs[..i + 1][..i] == rs[..i];
        if w.MailsTo(rs[i]) {
          BatchGrows(rule, kind, sent, Some(rs[i].id), at, ticks);
          LogAlert(rule, kind, Some(rs[i].id), TickAt(ticks, at, |sent|));
          sent := sent + [Some(rs[i].id)];
        }
      }
      assert rs[..|rs|] == rs;
    }

    method SendSignals(rule: Id, kind: Kind, rs: seq<Recipient>, at: int, ticks: seq<int>, mailed: seq<Option<Id>>)
      returns (sent: seq<Option<Id>>)
      modifies this
      ensures sent == mailed + Phoned(rs)
      ensures forall before: seq<Entry> :: old(history) == before + Batch(rule, kind, mailed, at, ticks) ==>
        history == before + Batch(rule, kind, sent, at, ticks)
    {
      sent := mailed;
      for i := 0 to |rs|
        invariant sent == mailed + Phoned(rs[..i])
        invariant forall before: seq<Entry> :: old(history) == before + Batch(rule, kind, mailed, at, ticks) ==>
          history == before + Batch(rule, kind, sent, at, ticks)
      {
        assert rs[..i + 1][..i] == rs[..i];
        if rs[i].hasPhone {
          BatchGrows(rule, kind, sent, Some(rs[i].id), at, ticks);
          LogAlert(rule, kind, Some(rs[i].id), TickAt(ticks, at, |sent|));
          sent := sent + [Some(rs[i].id)];
        }
      }
      assert rs[..|rs|] == rs;
    }

    /** Sends over every configured channel, logging each message. */
    method SendAll(rule: Id, kind: Kind, rs: seq<Recipient>, at: int, ticks: seq<int>)
      requires rule in w.targetOf && w.targetOf[rule] in w.targets && w.targetOf[rule] in w.recipients
      requires rs == w.recipients[w.targetOf[rule]] && rs != []
      modifies this
      ensures history == old(history) + Batch(rule, kind, Destinations(w, rule), at, ticks)
    {
      var sent: seq<Option<Id>> := [];
      if w.UsesEmail() {
        sent := SendMails(rule, kind, rs, at, ticks);
      }
      assert history == old(history) + Batch(rule, kind, sent, at, ticks);
      if w.UsesSignal() {
        sent := SendSignals(rule, kind, rs, at, ticks, sent);
      }
      if w.UsesWebhook() {
        BatchGrows(rule, kind, sent, None, at, ticks);
        LogAlert(rule, kind, None, TickAt(ticks, at, |sent|));
        sent := sent + [None];
      }
      assert sent == Destinations(w, rule);
    }

    method Dispatch(rule: Id, to: Health, at: int, ticks: seq<int>)
      modifies this
      ensures history == Step(w, old(history), Event.Dispatch(rule, to, at, ticks))
    {
      if rule !in w.targetOf || !w.Configured() {
        return;
      }
      var last := Latest(history, rule, Transition);
      if last.Some? && at - last.value < w.Cooldown() {
        return;
      }
      var target := w.targetOf[rule];
      if target !in w.targets || target !in w.recipients || |w.recipients[target]| == 0 {
        return;
      }
      SendAll(rule, if to == Healthy then Recovery else Firing, w.recipients[target], at, ticks);
    }

    /** One turn of the loop of CheckRealerts, for a rule that is firing. */
    method Remind(rule: Id, at: int, ticks: seq<int>)
      requires rule in w.targetOf
      modifies this
      ensures history == Step(w, old(history), Event.Remind(rule, at, ticks))
    {
      if w.realertS <= 0 || !w.Configured() {
        return;
      }
      var last := Latest(history, rule, Problem);
      if last.None? || at - last.value < w.realertS {
        return;
      }
      var target := w.targetOf[rule];
      if target !in w.targets || target !in w.recipients || |w.recipients[target]| == 0 {
        return;
      }
      SendAll(rule, Realert, w.recipients[target], at, ticks);
    }

    /** CheckRealerts over the firing rules; turns[i] holds the clock readings of the i-th. */
    method CheckRealerts(turns: seq<Event>)
      requires forall i | 0 <= i < |turns| :: turns[i].Remind? && turns[i].rule in w.targetOf
      modifies this
      ensures history == Steps(w, old(history), turns)
    {
      for i := 0 to |turns|
        invariant history == Steps(w, old(history), turns[..i])
      {
        assert turns[..i + 1][..i] == turns[..i];
        Remind(turns[i].rule, turns[i].at, turns[i].ticks);
      }
      assert turns[..|turns|] == turns;
    }
  }
}
