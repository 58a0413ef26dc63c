// What reaches whom, as which kind of alert, and when it must: the alert log over whole runs, told by the
// entries themselves (internal/alerter/alerter.go).
module AlertLaws {
  import opened Prelude
  import opened Schema
  import opened Alerter

  // ---------- what an event adds to the log ----------

  /** Problems are logged as firing, recoveries as recovery, reminders as re-alerts. */
  predicate RightKind(e: Event, k: Kind) {
    match e
    case Dispatch(_, to, _, _) => if to == Unhealthy then k == Firing else k == Recovery
    case Remind(_, _, _) => k == Realert
  }

  /** The log grew by one entry for each destination, in order, each at its tick of the clock. */
  ghost predicate Extended(w: World, e: Event, h: seq<Entry>, g: seq<Entry>) {
    var to := Destinations(w, e.rule);
    |g| == |h| + |to| && g[..|h|] == h &&
    forall i | |h| <= i < |g| ::
      g[i].rule == e.rule && g[i].recipient == to[i - |h|] && RightKind(e, g[i].kind) &&
      g[i].at == if i - |h| < |e.ticks| then e.ticks[i - |h|] else e.at
  }

  /** In every run, an event logs nothing, or exactly one alert of its kind to every destination of the rule. */
  lemma WhatIsLogged(w: World, events: seq<Event>, e: Event)
    ensures var h, g := After(w, events), After(w, events + [e]); g == h || Extended(w, e, h, g)
  {
    var h, g := After(w, events), After(w, events + [e]);
    assert (events + [e])[..|events|] == events;
    if Logs(w, h, e) {
      var batch := g[|h|..];
      assert g == h + batch;
    }
  }

  /** Some event of the run logged the entry. */
  ghost predicate HasEvent(events: seq<Event>, x: Entry) {
    exists i | 0 <= i < |events| :: events[i].rule == x.rule && RightKind(events[i], x.kind)
  }

  lemma HasEventLater(events: seq<Event>, e: Event, x: Entry)
    requires HasEvent(events, x) || (e.rule == x.rule && RightKind(e, x.kind))
    ensures HasEvent(events + [e], x)
  {
    var more := events + [e];
    assert more[|events|] == e && forall i | 0 <= i < |events| :: more[i] == events[i];
  }

  /** No alert without its cause: a firing entry has its change to unhealthy, a recovery its change to healthy. */
  lemma {:induction false} EveryEntryHasItsEvent(w: World, events: seq<Event>)
    ensures forall x | x in After(w, events) :: HasEvent(events, x)
  {
    if events != [] {
      var init, e := events[..|events| - 1], events[|events| - 1];
      var h, g := After(w, init), After(w, events);
      EveryEntryHasItsEvent(w, init);
      WhatIsLogged(w, init, e);
      assert events == init + [e];
      forall x | x in g ensures HasEvent(events, x) {
        var i :| 0 <= i < |g| && g[i] == x;
        assert i < |h| && Extended(w, e, h, g) ==> g[..|h|][i] == h[i];
        HasEventLater(init, e, x);
      }
    }
  }

  // ---------- when an event must log ----------

  /** Alerting is set up, and the alert has somebody to go to. */
  predicate Reachable(w: World, rule: Id) {
    (w.channel != NoChannel || w.webhookEnabled) && rule in w.targetOf && Destinations(w, rule) != []
  }

  /** Every firing or recovery entry of the rule is at least so old. */
  ghost predicate TransitionsOlder(h: seq<Entry>, rule: Id, at: int, age: int) {
    forall i | 0 <= i < |h| && h[i].rule == rule && h[i].kind != Realert :: at - h[i].at >= age
  }

  /** There is a firing or re-alert entry of the rule, and all of them are at least so old. */
  ghost predicate ProblemsOlder(h: seq<Entry>, rule: Id, at: int, age: int) {
    (exists i | 0 <= i < |h| :: h[i].rule == rule && h[i].kind != Recovery) &&
    forall i | 0 <= i < |h| && h[i].rule == rule && h[i].kind != Recovery :: at - h[i].at >= age
  }

  lemma OpenIffOlder(h: seq<Entry>, rule: Id, at: int, age: int)
    ensures (var last := Latest(h, rule, Transition); last.None? || at - last.value >= age) <==> TransitionsOlder(h, rule, at, age)
    ensures (var last := Latest(h, rule, Problem); last.Some? && at - last.value >= age) <==> ProblemsOlder(h, rule, at, age)
  {
    LatestIsNewest(h, rule, Transition);
    LatestIsNewest(h, rule, Problem);
    assert forall k: Kind :: Transition.Has(k) <==> k != Realert;
    assert forall k: Kind :: Problem.Has(k) <==> k != Recovery;
  }

  lemma LogsIffGrows(w: World, events: seq<Event>, e: Event)
    ensures After(w, events + [e]) != After(w, events) <==> Logs(w, After(w, events), e)
  {
    assert (events + [e])[..|events|] == events;
    var h, g := After(w, events), After(w, events + [e]);
    if Logs(w, h, e) {
      assert |g| > |h|;
    }
  }

  /** In every run: a dispatch logs exactly if somebody is to be alerted and the rule has no transition entry within the cooldown. */
  lemma DispatchLogsIff(w: World, events: seq<Event>, e: Event)
    requires e.Dispatch?
    ensures After(w, events + [e]) != After(w, events) <==>
            Reachable(w, e.rule) && TransitionsOlder(After(w, events), e.rule, e.at, if w.cooldownS <= 0 then 1800 else w.cooldownS)
  {
    LogsIffGrows(w, events, e);
    OpenIffOlder(After(w, events), e.rule, e.at, w.Cooldown());
  }

  /** A reminder logs exactly if re-alerts are on and the last problem entry of the rule is at least their period old. */
  lemma ReminderLogsIff(w: World, events: seq<Event>, e: Event)
    requires e.Remind?
    ensures After(w, events + [e]) != After(w, events) <==>
            w.realertS > 0 && Reachable(w, e.rule) && ProblemsOlder(After(w, events), e.rule, e.at, w.realertS)
  {
    LogsIffGrows(w, events, e);
    OpenIffOlder(After(w, events), e.rule, e.at, w.realertS);
  }

  /** A round of CheckRealerts is the reminders of its rules, one after the other. */
  lemma {:induction false} RoundIsReminders(w: World, events: seq<Event>, turns: seq<Event>)
    ensures After(w, events + turns) == Steps(w, After(w, events), turns)
  {
    if turns == [] {
      assert events + turns == events;
    } else {
      var init := turns[..|turns| - 1];
      assert (events + turns)[..|events + turns| - 1] == events + init;
      RoundIsReminders(w, events, init);
    }
  }

  // ---------- to whom ----------

  /** The recipient has an address, and mail can be sent. */
  predicate ByMail(w: World, r: Recipient) {
    (w.channel == Email || w.channel == EmailAndSignal) && w.hasFrom && r.hasEmail && (w.smtp || w.hasApiKey)
  }

  predicate BySignal(w: World, r: Recipient) {
    (w.channel == Signal || w.channel == EmailAndSignal) && w.signalReady && r.hasPhone
  }

  ghost predicate DistinctRecipients(rs: seq<Recipient>) {
    forall i, j | 0 <= i < j < |rs| :: rs[i].id != rs[j].id
  }

  function Times(b: bool): nat {
    if b then 1 else 0
  }

  lemma {:induction false} OnlyRecipients(w: World, rs: seq<Recipient>, x: Option<Id>)
    requires forall r | r in rs :: Some(r.id) != x
    ensures x !in Mailed(w, rs) && x !in Phoned(rs)
  {
    if rs != [] {
      var n := |rs| - 1;
      assert rs[n] in rs && forall r | r in rs[..n] :: r in rs;
      OnlyRecipients(w, rs[..n], x);
    }
  }

  lemma {:induction false} OnceEach(w: World, rs: seq<Recipient>, k: nat)
    requires DistinctRecipients(rs) && k < |rs|
    ensures multiset(Mailed(w, rs))[Some(rs[k].id)] == Times(w.MailsTo(rs[k]))
    ensures multiset(Phoned(rs))[Some(rs[k].id)] == Times(rs[k].hasPhone)
  {
    var n := |rs| - 1;
    if k < n {
      OnceEach(w, rs[..n], k);
    } else {
      OnlyRecipients(w, rs[..n], Some(rs[n].id));
    }
  }

  /** In the order of the recipients. */
  lemma {:induction false} SentInOrder(w: World, rs: seq<Recipient>, more: seq<Recipient>)
    ensures Mailed(w, rs + more) == Mailed(w, rs) + Mailed(w, more) && Phoned(rs + more) == Phoned(rs) + Phoned(more)
  {
    if more == [] {
      assert rs + more == rs;
    } else {
      var n := |more| - 1;
      assert (rs + more)[..|rs| + n] == rs + more[..n];
      SentInOrder(w, rs, more[..n]);
    }
  }

  /** The rule's target is there and has these recipients. */
  predicate GoesTo(w: World, rule: Id, rs: seq<Recipient>) {
    rule in w.targetOf && w.targetOf[rule] in w.targets && w.targetOf[rule] in w.recipients && rs == w.recipients[w.targetOf[rule]] && rs != []
  }

  /** Mails first, then Signal messages, then the webhook. */
  lemma ThreeChannels(w: World, rule: Id, rs: seq<Recipient>) returns (mails: seq<Option<Id>>, calls: seq<Option<Id>>, hook: seq<Option<Id>>)
    requires GoesTo(w, rule, rs)
    ensures Destinations(w, rule) == mails + calls + hook
    ensures mails == if w.UsesEmail() then Mailed(w, rs) else []
    ensures calls == if w.UsesSignal() then Phoned(rs) else []
    ensures hook == if w.UsesWebhook() then [None] else []
  {
    mails, calls := if w.UsesEmail() then Mailed(w, rs) else [], if w.UsesSignal() then Phoned(rs) else [];
    hook := if w.UsesWebhook() then [None] else [];
  }

  /** Each recipient is alerted once by mail and once by Signal, as far as these are set up and reach them. */
  lemma WhoIsAlerted(w: World, rule: Id, rs: seq<Recipient>, k: nat)
    requires GoesTo(w, rule, rs) && DistinctRecipients(rs) && k < |rs|
    ensures multiset(Destinations(w, rule))[Some(rs[k].id)] == Times(ByMail(w, rs[k])) + Times(BySignal(w, rs[k]))
  {
    var mails, calls, hook := ThreeChannels(w, rule, rs);
    OnceEach(w, rs, k);
    assert multiset(mails)[Some(rs[k].id)] == Times(ByMail(w, rs[k]));
    assert multiset(calls)[Some(rs[k].id)] == Times(BySignal(w, rs[k]));
  }

  /** The webhook is called once, if it is set up; nobody else is alerted. */
  lemma NobodyElseIsAlerted(w: World, rule: Id, rs: seq<Recipient>, x: Option<Id>)
    requires GoesTo(w, rule, rs) && forall r | r in rs :: Some(r.id) != x
    ensures multiset(Destinations(w, rule))[x] == Times(x == None && w.webhookEnabled && w.hasWebhookUrl)
  {
    var mails, calls, hook := ThreeChannels(w, rule, rs);
    OnlyRecipients(w, rs, x);
    assert multiset(mails)[x] == 0 && multiset(calls)[x] == 0;
  }

  /** Without a target, or a target that is there, or recipients, nobody is. */
  lemma NobodyIsAlerted(w: World, rule: Id)
    requires rule !in w.targetOf || w.targetOf[rule] !in w.targets || w.targetOf[rule] !in w.recipients || w.recipients[w.targetOf[rule]] == []
    ensures Destinations(w, rule) == []
  {}
}
