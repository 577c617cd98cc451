/** The store with a server behind it: whatever the order in which promises
    settle, it computes what its accepted actions do. */
module ServedRuns {
  import opened Float64
  import opened Engine
  import opened Options
  import opened CalculatorStores
  import opened StoreTheorems
  import opened StoreInvariants
  import opened ExpressionTheorems

  // Somebody is wired up to answer, and promises settle, in any order or never,
  // with the server's answer to what they asked.
  ghost predicate Honest(app: App, server: Server, events: seq<Event>) {
    events != [] ==>
      var front, event := events[..|events| - 1], events[|events| - 1];
      var s := Run(app, front);
      && Honest(app, server, front)
      && (event.KeyPressed? || event.Retry? ==> s.wired)
      && (event.Deliver? && event.index < |s.inFlight| ==> event.outcome == server(s.inFlight[event.index].request))
  }

  // The event that issued the current ticket made the promise that carries it.
  lemma NewTicketCarries(app: App, s: Store, event: Event, i: nat)
    requires TicketsOk(s)
    requires var s' := Handle(app, s, event); s'.ticket != s.ticket && Carries(s'.inFlight, s'.ticket, i)
    ensures var s' := Handle(app, s, event); s'.lastSent == Some(s'.inFlight[i].request)
  {
    assert i >= |s.inFlight|;
  }

  lemma DeliveredTicketCarries(app: App, s: Store, index: nat, outcome: Outcome, i: nat)
    requires var s' := Handle(app, s, Deliver(index, outcome)); Carries(s'.inFlight, s'.ticket, i)
    ensures var s' := Handle(app, s, Deliver(index, outcome));
            s'.lastSent == s.lastSent && exists k :: Carries(s.inFlight, s.ticket, k) && s.inFlight[k] == s'.inFlight[i]
  {
    if index < |s.inFlight| {
      WithoutKeeps(s.inFlight, index);
      assert Carries(s.inFlight, s.ticket, if i < index then i else i + 1);
    } else {
      assert Carries(s.inFlight, s.ticket, i);
    }
  }

  lemma OldTicketCarries(app: App, s: Store, event: Event, i: nat)
    requires var s' := Handle(app, s, event); s'.ticket == s.ticket && Carries(s'.inFlight, s'.ticket, i)
    ensures var s' := Handle(app, s, event);
            s'.lastSent == s.lastSent && exists k :: Carries(s.inFlight, s.ticket, k) && s.inFlight[k] == s'.inFlight[i]
  {
    if event.Deliver? {
      DeliveredTicketCarries(app, s, event.index, event.outcome, i);
    } else {
      assert Handle(app, s, event).inFlight == s.inFlight;
      assert Carries(s.inFlight, s.ticket, i);
    }
  }

  lemma {:induction false} CarriedRequest(app: App, events: seq<Event>, i: nat)
    requires Carries(Run(app, events).inFlight, Run(app, events).ticket, i)
    ensures Run(app, events).lastSent == Some(Run(app, events).inFlight[i].request)
  {
    var front, event := events[..|events| - 1], events[|events| - 1];
    var s := Run(app, front);
    if Handle(app, s, event).ticket == s.ticket {
      OldTicketCarries(app, s, event, i);
      var k :| Carries(s.inFlight, s.ticket, k) && s.inFlight[k] == Run(app, events).inFlight[i];
      CarriedRequest(app, front, k);
    } else {
      TicketsInRun(app, front);
      NewTicketCarries(app, s, event, i);
    }
  }

  // What an action asked is either still open or answered by the server.
  ghost predicate ServedBy(app: App, server: Server, h: seq<Accepted>, k: int)
    requires 0 <= k < |h|
  {
    RequestOf(app, h, k).Some? ==>
      Waits(h[k]) || h[k].outcome == Some(server(RequestOf(app, h, k).value))
  }

  ghost predicate AllServed(app: App, server: Server, h: seq<Accepted>) {
    forall k :: 0 <= k < |h| ==> ServedBy(app, server, h, k)
  }

  lemma ServedAppends(app: App, server: Server, h: seq<Accepted>, step: Accepted)
    requires AllServed(app, server, h)
    requires var request := Asks(app, SyncRun(app, h), step.action).effect;
             request.Some? ==> Waits(step) || step.outcome == Some(server(request.value))
    ensures AllServed(app, server, h + [step])
  {
    var h' := h + [step];
    forall k | 0 <= k < |h'| ensures ServedBy(app, server, h', k) {
      assert h'[..k] == h[..k];
      if k < |h| {
        assert ServedBy(app, server, h, k);
      } else {
        assert h[..k] == h;
      }
    }
  }

  lemma ServedFront(app: App, server: Server, h: seq<Accepted>)
    requires AllServed(app, server, h) && h != []
    ensures AllServed(app, server, h[..|h| - 1])
  {
    var front := h[..|h| - 1];
    forall k | 0 <= k < |front| ensures ServedBy(app, server, front, k) {
      assert front[..k] == h[..k] && ServedBy(app, server, h, k);
    }
  }

  // The last accepted action of a history that ends in a waiting one.
  lemma LastIsServed(app: App, server: Server, h: seq<Accepted>, outcome: Outcome)
    requires AllServed(app, server, h) && h != []
    requires RequestOf(app, h, |h| - 1).Some? ==> outcome == server(RequestOf(app, h, |h| - 1).value)
    ensures AllServed(app, server, h[..|h| - 1] + [h[|h| - 1].(outcome := Some(outcome))])
  {
    var before, last := h[..|h| - 1], h[|h| - 1];
    ServedFront(app, server, h);
    assert ServedBy(app, server, h, |h| - 1);
    ServedAppends(app, server, before, last.(outcome := Some(outcome)));
  }

  // The request that is waited for is the one the last accepted action made.
  lemma WaitingRequest(app: App, s: Store, h: seq<Accepted>, index: nat)
    requires Link(app, s, h) && Carries(s.inFlight, s.ticket, index)
    requires s.lastSent == Some(s.inFlight[index].request)
    ensures h != [] && RequestOf(app, h, |h| - 1) == Some(s.inFlight[index].request)
  {
    var front, last := h[..|h| - 1], h[|h| - 1];
    assert h == front + [last];
    SyncAppends(app, front, last);
  }

  lemma CurrentServes(app: App, server: Server, s: Store, h: seq<Accepted>, index: nat, outcome: Outcome)
    requires AllServed(app, server, h) && Link(app, s, h) && Carries(s.inFlight, s.ticket, index)
    requires s.lastSent == Some(s.inFlight[index].request) && outcome == server(s.inFlight[index].request)
    ensures AllServed(app, server, Answered(h, s.inFlight[index].id, outcome))
  {
    WaitingRequest(app, s, h, index);
    CurrentAnswerLinks(app, s, h, index, outcome);
    LastIsServed(app, server, h, outcome);
  }

  lemma DeliveryServes(app: App, server: Server, front: seq<Event>, index: nat, outcome: Outcome)
    requires AllServed(app, server, History(app, front)) && index < |Run(app, front).inFlight|
    requires outcome == server(Run(app, front).inFlight[index].request)
    ensures AllServed(app, server, Answered(History(app, front), Run(app, front).inFlight[index].id, outcome))
  {
    var s := Run(app, front);
    if Carries(s.inFlight, s.ticket, index) {
      RunLinks(app, front);
      CarriedRequest(app, front, index);
      CurrentServes(app, server, s, History(app, front), index, outcome);
    } else {
      RunLinks(app, front);
      StaleAnswerLinks(app, s, History(app, front), index, outcome);
    }
  }

  lemma {:induction false} HonestIsServed(app: App, server: Server, events: seq<Event>)
    requires Honest(app, server, events)
    ensures AllServed(app, server, History(app, events))
  {
    if events == [] {
    } else {
      var front, event := events[..|events| - 1], events[|events| - 1];
      var s, h := Run(app, front), History(app, front);
      HonestIsServed(app, server, front);
      RunLinks(app, front);
      match event
      case KeyPressed(input) =>
        if !s.pending {
          ServedAppends(app, server, h, Accept(s, Key(input), Press(app.js, s.calcState, input).effect.Some?));
        }
      case Retry =>
        if CanResend(s) {
          ServedAppends(app, server, h, Accept(s, Resend, true));
        }
      case Recall(value) =>
        if !s.pending {
          ServedAppends(app, server, h, Accept(s, Recalled(value), false));
        }
      case Deliver(index, outcome) =>
        if index < |s.inFlight| {
          DeliveryServes(app, server, front, index, outcome);
        }
      case _ =>
    }
  }

  // --- the reference: every action answered on the spot --------------------------

  function Respond(app: App, server: Server, sync: Sync, action: Action): Sync {
    var request := Asks(app, sync, action).effect;
    SyncStep(app, sync, Accepted(action, None, if request.Some? then Some(server(request.value)) else None))
  }

  function Perform(app: App, server: Server, actions: seq<Action>): Sync {
    if actions == [] then Sync(INITIAL_STATE, None, false, None)
    else Respond(app, server, Perform(app, server, actions[..|actions| - 1]), actions[|actions| - 1])
  }

  function ActionsIn(h: seq<Accepted>): seq<Action> {
    if h == [] then [] else ActionsIn(h[..|h| - 1]) + [h[|h| - 1].action]
  }

  lemma {:induction false} ServedIsPerformed(app: App, server: Server, h: seq<Accepted>)
    requires AllServed(app, server, h) && forall k :: 0 <= k < |h| ==> !Waits(h[k])
    ensures SyncRun(app, h) == Perform(app, server, ActionsIn(h))
  {
    if h == [] {
    } else {
      var front, last := h[..|h| - 1], h[|h| - 1];
      ServedFront(app, server, h);
      ServedIsPerformed(app, server, front);
      assert ServedBy(app, server, h, |h| - 1);
      assert ActionsIn(h)[..|ActionsIn(h)| - 1] == ActionsIn(front);
    }
  }

  /** With a server behind it the store is, once nothing is pending, what taking
      the keys, retries and recalls accepted since AC one by one and waiting for
      each answer would make it: neither the order in which promises settle nor
      what is pressed meanwhile matters. */
  lemma StoreComputesActions(app: App, server: Server, events: seq<Event>)
    requires Honest(app, server, events) && !Run(app, events).pending
    ensures var s, sync := Run(app, events), Perform(app, server, ActionsIn(History(app, events)));
            && s.calcState == sync.calcState
            && s.errorRequestId == sync.errorRequestId && s.canRetry == sync.canRetry
  {
    AsyncIsSync(app, events);
    HonestIsServed(app, server, events);
    ServedIsPerformed(app, server, History(app, events));
  }

  function KeyActions(keys: seq<Input>): seq<Action> {
    if keys == [] then [] else KeyActions(keys[..|keys| - 1]) + [Key(keys[|keys| - 1])]
  }

  lemma {:induction false} PerformedKeys(app: App, server: Server, keys: seq<Input>)
    ensures Perform(app, server, KeyActions(keys)).calcState == Play(app, server, INITIAL_STATE, keys)
  {
    if keys == [] {
    } else {
      PerformedKeys(app, server, keys[..|keys| - 1]);
      var actions := KeyActions(keys);
      assert actions[..|actions| - 1] == KeyActions(keys[..|keys| - 1]);
    }
  }

  /** In every run in which the actions accepted since AC are the keys of an
      expression, the store shows its fold once nothing is pending, with a fresh
      start behind every failure. */
  lemma StoreShowsExpression(app: App, server: Server, events: seq<Event>, first: seq<Input>, terms: seq<Term>)
    requires Honest(app, server, events) && !Run(app, events).pending
    requires IsOperand(first) && AreTerms(terms)
    requires ActionsIn(History(app, events)) == KeyActions(KeysSoFar(first, terms) + [Equals])
    ensures Shown(app, Run(app, events).calcState, Resumed(app, server, ValueOf(app, first), terms))
  {
    StoreComputesActions(app, server, events);
    PerformedKeys(app, server, KeysSoFar(first, terms) + [Equals]);
    ExpressionResumes(app, server, first, terms);
  }

  // --- such runs exist ------------------------------------------------------------

  // Every key is pressed, and its request, if any, answered before the next.
  function ServeAll(app: App, server: Server, keys: seq<Input>): seq<Event> {
    if keys == [] then [SetEvaluator(true)]
    else
      var before, key := ServeAll(app, server, keys[..|keys| - 1]), keys[|keys| - 1];
      before + [KeyPressed(key)] + Answers(app, server, Run(app, before).calcState, key)
  }

  function Answers(app: App, server: Server, c: CalcState, key: Input): seq<Event> {
    var request := Press(app.js, c, key).effect;
    if request.Some? then [Deliver(0, server(request.value))] else []
  }

  // Wired, and nothing in flight.
  predicate Settled(s: Store) {
    s.wired && !s.pending && s.inFlight == []
  }

  lemma KeyIsServed(app: App, server: Server, s: Store, key: Input)
    requires Settled(s)
    ensures var pressed, request := Handle(app, s, KeyPressed(key)), Press(app.js, s.calcState, key).effect;
            if request.None? then Settled(pressed) && pressed.calcState == PressAnswered(app, server, s.calcState, key)
            else
              var answered := Handle(app, pressed, Deliver(0, server(request.value)));
              && |pressed.inFlight| == 1 && pressed.inFlight[0].request == request.value
              && Settled(answered) && answered.calcState == PressAnswered(app, server, s.calcState, key)
  {
  }

  lemma HonestAppends(app: App, server: Server, events: seq<Event>, event: Event)
    requires Honest(app, server, events)
    requires var s := Run(app, events);
             && (event.KeyPressed? || event.Retry? ==> s.wired)
             && (event.Deliver? && event.index < |s.inFlight| ==> event.outcome == server(s.inFlight[event.index].request))
    ensures Honest(app, server, events + [event])
  {
    assert (events + [event])[..|events|] == events;
  }

  lemma HistoryAppends(app: App, events: seq<Event>, event: Event)
    ensures History(app, events + [event]) == Extend(app, Run(app, events), History(app, events), event)
  {
    assert (events + [event])[..|events|] == events;
  }

  lemma {:induction false} AnsweringKeepsActions(h: seq<Accepted>, promise: nat, outcome: Outcome)
    ensures ActionsIn(Answered(h, promise, outcome)) == ActionsIn(h)
  {
    if h == [] {
    } else {
      AnsweringKeepsActions(h[..|h| - 1], promise, outcome);
      assert Answered(h, promise, outcome)[..|h| - 1] == Answered(h[..|h| - 1], promise, outcome);
    }
  }

  lemma KeyIsAccepted(app: App, events: seq<Event>, key: Input)
    requires !Run(app, events).pending
    ensures ActionsIn(History(app, events + [KeyPressed(key)])) == ActionsIn(History(app, events)) + [Key(key)]
  {
    HistoryAppends(app, events, KeyPressed(key));
    var h, more := History(app, events), History(app, events + [KeyPressed(key)]);
    assert more[..|more| - 1] == h;
  }

  lemma AnswerIsNoAction(app: App, events: seq<Event>, outcome: Outcome)
    ensures ActionsIn(History(app, events + [Deliver(0, outcome)])) == ActionsIn(History(app, events))
  {
    HistoryAppends(app, events, Deliver(0, outcome));
    if Run(app, events).inFlight != [] {
      AnsweringKeepsActions(History(app, events), Run(app, events).inFlight[0].id, outcome);
    }
  }

  lemma KeysAreTheActions(app: App, server: Server, before: seq<Event>, key: Input)
    requires !Run(app, before).pending
    ensures var events := before + [KeyPressed(key)] + Answers(app, server, Run(app, before).calcState, key);
            ActionsIn(History(app, events)) == ActionsIn(History(app, before)) + [Key(key)]
  {
    var pressed, answers := before + [KeyPressed(key)], Answers(app, server, Run(app, before).calcState, key);
    KeyIsAccepted(app, before, key);
    if answers == [] {
      assert pressed + answers == pressed;
    } else {
      AnswerIsNoAction(app, pressed, answers[0].outcome);
    }
  }

  /** Every sequence of keys is played by an honest run of the store that accepts
      just these. */
  lemma {:induction false} PlayIsARun(app: App, server: Server, keys: seq<Input>)
    ensures var events := ServeAll(app, server, keys);
            && Honest(app, server, events) && Settled(Run(app, events))
            && Run(app, events).calcState == Play(app, server, INITIAL_STATE, keys)
            && ActionsIn(History(app, events)) == KeyActions(keys)
  {
    if keys == [] {
      HistoryAppends(app, [], SetEvaluator(true));
      assert [SetEvaluator(true)] == [] + [SetEvaluator(true)];
      HonestAppends(app, server, [], SetEvaluator(true));
      RunAppends(app, [], SetEvaluator(true));
    } else {
      PlayIsARun(app, server, keys[..|keys| - 1]);
      KeyIsPlayed(app, server, keys[..|keys| - 1], keys[|keys| - 1]);
      KeysAreTheActions(app, server, ServeAll(app, server, keys[..|keys| - 1]), keys[|keys| - 1]);
    }
  }

  lemma KeyIsPlayed(app: App, server: Server, keys: seq<Input>, key: Input)
    requires var events := ServeAll(app, server, keys); Honest(app, server, events) && Settled(Run(app, events))
    ensures var before := ServeAll(app, server, keys);
            var events := before + [KeyPressed(key)] + Answers(app, server, Run(app, before).calcState, key);
            && Honest(app, server, events) && Settled(Run(app, events))
            && Run(app, events).calcState == PressAnswered(app, server, Run(app, before).calcState, key)
  {
    var before := ServeAll(app, server, keys);
    var s, pressed := Run(app, before), before + [KeyPressed(key)];
    var answers := Answers(app, server, s.calcState, key);
    KeyIsServed(app, server, s, key);
    HonestAppends(app, server, before, KeyPressed(key));
    RunAppends(app, before, KeyPressed(key));
    if answers == [] {
      assert pressed + answers == pressed;
    } else {
      HonestAppends(app, server, pressed, answers[0]);
      RunAppends(app, pressed, answers[0]);
    }
  }
}
