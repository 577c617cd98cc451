/** Runs of the calculator store: any sequence of keys, AC, retries, recalls,
    evaluator changes, and promises settling in any order. */
module StoreTheorems {
  import opened Float64
  import opened Engine
  import opened Options
  import opened CalculatorStores

  // --- tickets --------------------------------------------------------------

  // Tickets and promises only ever get newer.
  ghost predicate Ordered(inFlight: seq<Promise>) {
    forall i, j :: 0 <= i < j < |inFlight| ==>
      inFlight[i].ticket < inFlight[j].ticket && inFlight[i].id < inFlight[j].id
  }

  predicate Carries(inFlight: seq<Promise>, ticket: nat, i: int) {
    0 <= i < |inFlight| && inFlight[i].ticket == ticket
  }

  ghost predicate TicketsOk(s: Store) {
    && Ordered(s.inFlight)
    && (forall i :: 0 <= i < |s.inFlight| ==> s.inFlight[i].ticket <= s.ticket && s.inFlight[i].id < s.created)
    && (s.pending <==> exists i :: Carries(s.inFlight, s.ticket, i))
  }

  lemma WithoutKeeps(s: seq<Promise>, i: nat)
    requires i < |s|
    ensures var r := Without(s, i);
            && (forall k :: 0 <= k < |r| ==> r[k] == if k < i then s[k] else s[k + 1])
            && (forall k :: 0 <= k < |s| && k != i ==> r[if k < i then k else k - 1] == s[k])
  {
  }

  lemma WithoutKeepsOrder(s: seq<Promise>, i: nat)
    requires i < |s| && Ordered(s)
    ensures Ordered(Without(s, i))
  {
    WithoutKeeps(s, i);
  }

  lemma SendKeepsTickets(app: App, s: Store, calcState: CalcState, request: CalculateRequest)
    requires TicketsOk(s)
    ensures TicketsOk(Send(app, s, calcState, request))
  {
    var s' := Send(app, s, calcState, request);
    if s.wired {
      assert Carries(s'.inFlight, s'.ticket, |s.inFlight|);
    }
  }

  // Taking out the promise with this ticket leaves none, taking out another one
  // leaves it.
  lemma CarriersWithout(inFlight: seq<Promise>, ticket: nat, index: nat)
    requires index < |inFlight| && Ordered(inFlight)
    ensures (exists i :: Carries(Without(inFlight, index), ticket, i)) <==>
            !Carries(inFlight, ticket, index) && exists i :: Carries(inFlight, ticket, i)
  {
    WithoutKeeps(inFlight, index);
    var rest := Without(inFlight, index);
    if Carries(inFlight, ticket, index) {
      forall i ensures !Carries(rest, ticket, i) {
        if 0 <= i < |rest| {
          assert rest[i] == inFlight[if i < index then i else i + 1];
        }
      }
    } else if i :| Carries(inFlight, ticket, i) {
      assert Carries(rest, ticket, if i < index then i else i - 1);
    } else {
      forall i ensures !Carries(rest, ticket, i) {
        assert !Carries(inFlight, ticket, if i < index then i else i + 1);
      }
    }
  }

  lemma BoundsWithout(inFlight: seq<Promise>, ticket: nat, created: nat, index: nat)
    requires index < |inFlight|
    requires forall i :: 0 <= i < |inFlight| ==> inFlight[i].ticket <= ticket && inFlight[i].id < created
    ensures var r := Without(inFlight, index);
            forall i :: 0 <= i < |r| ==> r[i].ticket <= ticket && r[i].id < created
  {
    WithoutKeeps(inFlight, index);
  }

  // A delivery takes its promise out, and ends the wait if its ticket is current.
  lemma DeliverPending(app: App, s: Store, index: nat, outcome: Outcome)
    requires index < |s.inFlight|
    ensures var s' := Handle(app, s, Deliver(index, outcome));
            && s'.inFlight == Without(s.inFlight, index) && s'.ticket == s.ticket && s'.created == s.created
            && s'.pending == (s.pending && !Carries(s.inFlight, s.ticket, index))
  {
  }

  lemma DeliverKeepsTickets(app: App, s: Store, index: nat, outcome: Outcome)
    requires TicketsOk(s) && index < |s.inFlight|
    ensures TicketsOk(Handle(app, s, Deliver(index, outcome)))
  {
    DeliverPending(app, s, index, outcome);
    BoundsWithout(s.inFlight, s.ticket, s.created, index);
    WithoutKeepsOrder(s.inFlight, index);
    CarriersWithout(s.inFlight, s.ticket, index);
  }

  lemma {:induction false} TicketsInRun(app: App, events: seq<Event>)
    ensures TicketsOk(Run(app, events))
  {
    if events == [] {
    } else {
      var s, event := Run(app, events[..|events| - 1]), events[|events| - 1];
      TicketsInRun(app, events[..|events| - 1]);
      match event
      case KeyPressed(input) =>
        if !s.pending && Press(app.js, s.calcState, input).effect.Some? {
          var t := Press(app.js, s.calcState, input);
          SendKeepsTickets(app, s, t.state, t.effect.value);
        }
      case Retry =>
        if CanResend(s) {
          SendKeepsTickets(app, s, s.calcState, s.lastSent.value);
        }
      case Deliver(index, outcome) =>
        if index < |s.inFlight| {
          DeliverKeepsTickets(app, s, index, outcome);
        }
      case _ =>
    }
  }

  /** The store waits exactly when one promise carries the current ticket, and
      only one ever does; all others are older. */
  lemma PendingIsOnePromise(app: App, events: seq<Event>)
    ensures var s := Run(app, events);
            && (s.pending <==> exists i :: Carries(s.inFlight, s.ticket, i))
            && (forall i, j :: Carries(s.inFlight, s.ticket, i) && Carries(s.inFlight, s.ticket, j) ==> i == j)
            && (forall i :: 0 <= i < |s.inFlight| && !Carries(s.inFlight, s.ticket, i) ==> s.inFlight[i].ticket < s.ticket)
  {
    TicketsInRun(app, events);
  }

  // --- from any store on -------------------------------------------------------

  lemma RunAppends(app: App, events: seq<Event>, event: Event)
    ensures Run(app, events + [event]) == Handle(app, Run(app, events), event)
  {
    assert (events + [event])[..|events|] == events;
  }

  // The store after more events.
  function Continue(app: App, s: Store, events: seq<Event>): Store {
    if events == [] then s
    else Handle(app, Continue(app, s, events[..|events| - 1]), events[|events| - 1])
  }

  lemma ContinueAppends(app: App, s: Store, events: seq<Event>, event: Event)
    ensures Continue(app, s, events + [event]) == Handle(app, Continue(app, s, events), event)
  {
    assert (events + [event])[..|events|] == events;
  }

  lemma {:induction false} RunContinues(app: App, a: seq<Event>, b: seq<Event>)
    ensures Run(app, a + b) == Continue(app, Run(app, a), b)
  {
    if b == [] {
      assert a + b == a;
    } else {
      assert (a + b)[..|a + b| - 1] == a + b[..|b| - 1];
      RunContinues(app, a, b[..|b| - 1]);
    }
  }

  // Everything the user can see, and all that later keys depend on.
  function Visible(s: Store): Store {
    s.(inFlight := [])
  }

  // Every delivery is of a promise that is there and whose ticket is not current.
  predicate AllStale(s: Store, deliveries: seq<(nat, Outcome)>)
    decreases |deliveries|
  {
    deliveries == [] ||
    (var index := deliveries[0].0;
     && index < |s.inFlight| && !Carries(s.inFlight, s.ticket, index)
     && AllStale(s.(inFlight := Without(s.inFlight, index)), deliveries[1..]))
  }

  function DeliverAll(app: App, s: Store, deliveries: seq<(nat, Outcome)>): Store
    decreases |deliveries|
  {
    if deliveries == [] then s
    else DeliverAll(app, Handle(app, s, Deliver(deliveries[0].0, deliveries[0].1)), deliveries[1..])
  }

  /** Stale answers change nothing, in any order and number. */
  lemma {:induction false} StaleAnswersAreDropped(app: App, s: Store, deliveries: seq<(nat, Outcome)>)
    requires AllStale(s, deliveries)
    ensures Visible(DeliverAll(app, s, deliveries)) == Visible(s)
    decreases |deliveries|
  {
    if deliveries == [] {
    } else {
      StaleAnswersAreDropped(app, Handle(app, s, Deliver(deliveries[0].0, deliveries[0].1)), deliveries[1..]);
    }
  }

  // --- the reference: every press is answered at once ------------------------

  datatype Action = Key(input: Input) | Resend | Recalled(value: Float)

  // An accepted action, the promise it waits for, and the answer once there is one.
  datatype Accepted = Accepted(action: Action, promise: Option<nat>, outcome: Option<Outcome>)

  // A calculator without tickets, promises or a pending flag.
  datatype Sync = Sync(calcState: CalcState, errorRequestId: Option<string>, canRetry: bool, lastSent: Option<CalculateRequest>)

  function SyncAnswer(app: App, calcState: CalcState, request: CalculateRequest, outcome: Option<Outcome>): Sync {
    match outcome
    case None => Sync(calcState, None, false, Some(request))
    case Some(Answer(value)) => Sync(ApplyResult(app.js, calcState, value), None, false, Some(request))
    case Some(Failed(failure)) =>
      Sync(ApplyError(calcState, app.message(failure)), RequestIdOf(failure), Retryable(failure), Some(request))
  }

  // The request an action makes, and the state it leaves the answer to.
  function Asks(app: App, sync: Sync, action: Action): Transition {
    match action
    case Key(input) => Press(app.js, sync.calcState, input)
    case Resend => Transition(sync.calcState, sync.lastSent)
    case Recalled(value) => Stay(RecalledState(app.js, value))
  }

  function SyncStep(app: App, sync: Sync, step: Accepted): Sync {
    var t := Asks(app, sync, step.action);
    if t.effect.Some? then SyncAnswer(app, t.state, t.effect.value, step.outcome)
    else if step.action.Recalled? then Sync(t.state, None, false, sync.lastSent)
    else sync.(calcState := t.state)
  }

  function SyncRun(app: App, history: seq<Accepted>): Sync {
    if history == [] then Sync(INITIAL_STATE, None, false, None)
    else SyncStep(app, SyncRun(app, history[..|history| - 1]), history[|history| - 1])
  }

  // An action that asks for a calculation waits for the promise made for it, or
  // is answered on the spot if there is nobody to ask.
  function Accept(s: Store, action: Action, asks: bool): Accepted {
    if !asks then Accepted(action, None, None)
    else if s.wired then Accepted(action, Some(s.created), None)
    else Accepted(action, None, Some(Failed(OtherFailure)))
  }

  function Extend(app: App, s: Store, h: seq<Accepted>, event: Event): seq<Accepted> {
    match event
    case KeyPressed(input) =>
      if s.pending then h else h + [Accept(s, Key(input), Press(app.js, s.calcState, input).effect.Some?)]
    case AC => []
    case Retry => if CanResend(s) then h + [Accept(s, Resend, true)] else h
    case Recall(value) => if s.pending then h else h + [Accept(s, Recalled(value), false)]
    case SetEvaluator(_) => h
    case Deliver(index, outcome) =>
      if index < |s.inFlight| then Answered(h, s.inFlight[index].id, outcome) else h
  }

  // The actions accepted since the last AC, each with the answer its own
  // promise has given so far.
  function History(app: App, events: seq<Event>): seq<Accepted> {
    if events == [] then []
    else
      var front := events[..|events| - 1];
      Extend(app, Run(app, front), History(app, front), events[|events| - 1])
  }

  function Answered(h: seq<Accepted>, promise: nat, outcome: Outcome): seq<Accepted> {
    seq(|h|, i requires 0 <= i < |h| => if h[i].promise == Some(promise) then h[i].(outcome := Some(outcome)) else h[i])
  }

  // --- the store is the reference, delayed -----------------------------------

  predicate Waits(step: Accepted) {
    step.promise.Some? && step.outcome.None?
  }

  ghost predicate SameState(s: Store, sync: Sync) {
    && s.calcState == sync.calcState
    && s.errorRequestId == sync.errorRequestId
    && s.canRetry == sync.canRetry
    && (s.canRetry || s.pending ==> s.lastSent == sync.lastSent)
  }

  // The last action, and no other, is waiting if the store is.
  ghost predicate WaitsLast(app: App, s: Store, h: seq<Accepted>) {
    && (s.pending ==> h != [] && Waits(h[|h| - 1]) && Asks(app, SyncRun(app, h[..|h| - 1]), h[|h| - 1].action).effect.Some?)
    && (forall k :: 0 <= k < |h| && Waits(h[k]) ==> s.pending && k == |h| - 1)
    && (forall k :: 0 <= k < |h| && h[k].promise.Some? ==> h[k].promise.value < s.created)
  }

  // Only the promise with the current ticket belongs to an action since the last AC.
  ghost predicate Matched(s: Store, h: seq<Accepted>) {
    forall i, k :: 0 <= i < |s.inFlight| && 0 <= k < |h| && h[k].promise == Some(s.inFlight[i].id) ==>
      Carries(s.inFlight, s.ticket, i) && k == |h| - 1 && Waits(h[k])
  }

  ghost predicate Owned(s: Store, h: seq<Accepted>) {
    forall i :: Carries(s.inFlight, s.ticket, i) ==> h != [] && h[|h| - 1].promise == Some(s.inFlight[i].id)
  }

  ghost predicate Link(app: App, s: Store, h: seq<Accepted>) {
    TicketsOk(s) && SameState(s, SyncRun(app, h)) && WaitsLast(app, s, h) && Matched(s, h) && Owned(s, h)
  }

  lemma SyncAppends(app: App, h: seq<Accepted>, step: Accepted)
    ensures SyncRun(app, h + [step]) == SyncStep(app, SyncRun(app, h), step)
  {
    assert (h + [step])[..|h|] == h;
  }

  lemma StayLinks(app: App, s: Store, h: seq<Accepted>, action: Action)
    requires Link(app, s, h) && !s.pending && Asks(app, SyncRun(app, h), action).effect.None?
    requires action.Recalled? || action.Key?
    ensures var t := Asks(app, SyncRun(app, h), action);
            var s' := if action.Recalled? then s.(calcState := t.state, errorRequestId := None, canRetry := false)
                      else s.(calcState := t.state);
            Link(app, s', h + [Accept(s, action, false)])
  {
    var h' := h + [Accept(s, action, false)];
    SyncAppends(app, h, Accept(s, action, false));
    assert forall k :: 0 <= k < |h| ==> h'[k] == h[k];
    assert forall i :: !Carries(s.inFlight, s.ticket, i);
  }

  lemma SendLinks(app: App, s: Store, h: seq<Accepted>, action: Action)
    requires Link(app, s, h) && !s.pending && Asks(app, SyncRun(app, h), action).effect.Some?
    ensures var t := Asks(app, SyncRun(app, h), action);
            Link(app, Send(app, s, t.state, t.effect.value), h + [Accept(s, action, true)])
  {
    var t := Asks(app, SyncRun(app, h), action);
    var h' := h + [Accept(s, action, true)];
    var s' := Send(app, s, t.state, t.effect.value);
    SyncAppends(app, h, Accept(s, action, true));
    SendKeepsTickets(app, s, t.state, t.effect.value);
    assert forall k :: 0 <= k < |h| ==> h'[k] == h[k];
    assert forall i :: 0 <= i < |s.inFlight| ==> s'.inFlight[i] == s.inFlight[i];
  }

  lemma CurrentAnswerLinks(app: App, s: Store, h: seq<Accepted>, index: nat, outcome: Outcome)
    requires Link(app, s, h) && Carries(s.inFlight, s.ticket, index)
    ensures SameState(Handle(app, s, Deliver(index, outcome)), SyncRun(app, Answered(h, s.inFlight[index].id, outcome)))
    ensures var h' := Answered(h, s.inFlight[index].id, outcome);
            && h' == h[..|h| - 1] + [h[|h| - 1].(outcome := Some(outcome))]
            && forall k :: 0 <= k < |h'| ==> !Waits(h'[k])
  {
    var front, last := h[..|h| - 1], h[|h| - 1];
    var h' := Answered(h, s.inFlight[index].id, outcome);
    assert h' == front + [last.(outcome := Some(outcome))];
    SyncAppends(app, front, last);
    SyncAppends(app, front, last.(outcome := Some(outcome)));
    assert h == front + [last];
  }

  lemma StillMatched(s: Store, h: seq<Accepted>, index: nat)
    requires TicketsOk(s) && Matched(s, h) && Owned(s, h) && index < |s.inFlight|
    ensures Matched(s.(inFlight := Without(s.inFlight, index)), h)
    ensures Owned(s.(inFlight := Without(s.inFlight, index)), h)
  {
    WithoutKeeps(s.inFlight, index);
    var rest := Without(s.inFlight, index);
    forall i, k | 0 <= i < |rest| && 0 <= k < |h| && h[k].promise == Some(rest[i].id)
      ensures Carries(rest, s.ticket, i) && k == |h| - 1 && Waits(h[k])
    {
      assert rest[i] == s.inFlight[if i < index then i else i + 1];
    }
    forall i | Carries(rest, s.ticket, i)
      ensures h != [] && h[|h| - 1].promise == Some(rest[i].id)
    {
      assert Carries(s.inFlight, s.ticket, if i < index then i else i + 1);
    }
  }

  lemma StaleAnswerLinks(app: App, s: Store, h: seq<Accepted>, index: nat, outcome: Outcome)
    requires Link(app, s, h) && index < |s.inFlight| && !Carries(s.inFlight, s.ticket, index)
    ensures Answered(h, s.inFlight[index].id, outcome) == h
    ensures Link(app, Handle(app, s, Deliver(index, outcome)), h)
  {
    DeliverKeepsTickets(app, s, index, outcome);
    StillMatched(s, h, index);
    assert Answered(h, s.inFlight[index].id, outcome) == h;
  }

  // With the current promise gone no other one belongs to the history.
  lemma NoneMatched(s: Store, h: seq<Accepted>, index: nat, outcome: Outcome, s': Store)
    requires TicketsOk(s) && Matched(s, h) && Carries(s.inFlight, s.ticket, index)
    requires s'.inFlight == Without(s.inFlight, index) && s'.ticket == s.ticket
    ensures Matched(s', Answered(h, s.inFlight[index].id, outcome))
    ensures forall i :: !Carries(s'.inFlight, s'.ticket, i)
  {
    WithoutKeeps(s.inFlight, index);
    CarriersWithout(s.inFlight, s.ticket, index);
    var h' := Answered(h, s.inFlight[index].id, outcome);
    forall i, k | 0 <= i < |s'.inFlight| && 0 <= k < |h'|
      ensures h'[k].promise != Some(s'.inFlight[i].id)
    {
      var j := if i < index then i else i + 1;
      assert s'.inFlight[i] == s.inFlight[j] && h'[k].promise == h[k].promise;
      assert !Carries(s'.inFlight, s'.ticket, i);
      assert !Carries(s.inFlight, s.ticket, j);
    }
  }

  lemma DeliverLinks(app: App, s: Store, h: seq<Accepted>, index: nat, outcome: Outcome)
    requires Link(app, s, h) && index < |s.inFlight|
    ensures Link(app, Handle(app, s, Deliver(index, outcome)), Answered(h, s.inFlight[index].id, outcome))
  {
    if Carries(s.inFlight, s.ticket, index) {
      var s' := Handle(app, s, Deliver(index, outcome));
      DeliverKeepsTickets(app, s, index, outcome);
      CurrentAnswerLinks(app, s, h, index, outcome);
      NoneMatched(s, h, index, outcome, s');
    } else {
      StaleAnswerLinks(app, s, h, index, outcome);
    }
  }

  lemma ACLinks(app: App, s: Store, h: seq<Accepted>)
    requires Link(app, s, h)
    ensures Link(app, Handle(app, s, AC), [])
  {
    var next := s.ticket + 1;
    forall i ensures !Carries(s.inFlight, next, i) {}
  }

  lemma KeyLinks(app: App, s: Store, h: seq<Accepted>, input: Input)
    requires Link(app, s, h)
    ensures Link(app, Handle(app, s, KeyPressed(input)), Extend(app, s, h, KeyPressed(input)))
  {
    if !s.pending {
      if Press(app.js, s.calcState, input).effect.Some? {
        SendLinks(app, s, h, Key(input));
      } else {
        StayLinks(app, s, h, Key(input));
      }
    }
  }

  lemma EventLinks(app: App, s: Store, h: seq<Accepted>, event: Event)
    requires Link(app, s, h)
    ensures Link(app, Handle(app, s, event), Extend(app, s, h, event))
  {
    match event
    case KeyPressed(input) => KeyLinks(app, s, h, input);
    case AC => ACLinks(app, s, h);
    case Retry =>
      if CanResend(s) {
        SendLinks(app, s, h, Resend);
      }
    case Recall(value) =>
      if !s.pending {
        StayLinks(app, s, h, Recalled(value));
      }
    case SetEvaluator(_) =>
    case Deliver(index, outcome) =>
      if index < |s.inFlight| {
        DeliverLinks(app, s, h, index, outcome);
      }
  }

  lemma {:induction false} RunLinks(app: App, events: seq<Event>)
    ensures Link(app, Run(app, events), History(app, events))
  {
    if events == [] {
    } else {
      var front := events[..|events| - 1];
      RunLinks(app, front);
      EventLinks(app, Run(app, front), History(app, front), events[|events| - 1]);
    }
  }

  /** Whatever order promises settle in, the store shows what the synchronous
      calculator shows for the actions accepted since the last AC; once nothing
      is pending, every one of those that asked has its own answer. */
  lemma AsyncIsSync(app: App, events: seq<Event>)
    ensures var s, sync := Run(app, events), SyncRun(app, History(app, events));
            && s.calcState == sync.calcState
            && s.errorRequestId == sync.errorRequestId
            && s.canRetry == sync.canRetry
            && (s.canRetry || s.pending ==> s.lastSent == sync.lastSent)
    ensures !Run(app, events).pending ==>
              forall k :: 0 <= k < |History(app, events)| ==> !Waits(History(app, events)[k])
  {
    RunLinks(app, events);
  }
}
