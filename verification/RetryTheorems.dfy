/** Waiting for an answer, and retrying a request that never got one: whatever
    is pressed and settles meanwhile. */
module RetryTheorems {
  import opened Engine
  import opened CalculatorStores
  import opened ExpressionTheorems
  import opened Float64
  import opened Options
  import opened StoreInvariants
  import opened StoreTheorems

  // Nobody presses AC, and this promise does not settle.
  ghost predicate LeftAlone(app: App, s: Store, promise: Promise, events: seq<Event>) {
    events != [] ==>
      var front, event := events[..|events| - 1], events[|events| - 1];
      var t := Continue(app, s, front);
      && LeftAlone(app, s, promise, front)
      && !event.AC?
      && (event.Deliver? && event.index < |t.inFlight| ==> t.inFlight[event.index] != promise)
  }

  // The store waits for this promise.
  ghost predicate WaitsFor(s: Store, promise: Promise) {
    TicketsOk(s) && promise in s.inFlight && promise.ticket == s.ticket
  }

  lemma WaitingIsPending(s: Store, promise: Promise)
    requires WaitsFor(s, promise)
    ensures s.pending && forall i :: 0 <= i < |s.inFlight| ==> (s.inFlight[i] == promise <==> Carries(s.inFlight, s.ticket, i))
  {
    var k :| 0 <= k < |s.inFlight| && s.inFlight[k] == promise;
    assert Carries(s.inFlight, s.ticket, k);
  }

  lemma StaleSettles(app: App, s: Store, promise: Promise, index: nat, outcome: Outcome)
    requires WaitsFor(s, promise) && index < |s.inFlight| && s.inFlight[index] != promise
    ensures var t := Handle(app, s, Deliver(index, outcome));
            WaitsFor(t, promise) && Visible(t) == Visible(s)
  {
    WaitingIsPending(s, promise);
    DeliverKeepsTickets(app, s, index, outcome);
    WithoutKeeps(s.inFlight, index);
    var k :| 0 <= k < |s.inFlight| && s.inFlight[k] == promise;
    assert Without(s.inFlight, index)[if k < index then k else k - 1] == promise;
  }

  lemma EventLeavesAlone(app: App, s: Store, promise: Promise, event: Event)
    requires WaitsFor(s, promise) && !event.AC?
    requires event.Deliver? && event.index < |s.inFlight| ==> s.inFlight[event.index] != promise
    ensures var t := Handle(app, s, event);
            WaitsFor(t, promise) && Visible(t).(wired := s.wired) == Visible(s)
  {
    WaitingIsPending(s, promise);
    if event.Deliver? && event.index < |s.inFlight| {
      StaleSettles(app, s, promise, event.index, event.outcome);
    }
  }

  /** While an answer is awaited nothing but AC and that answer changes anything:
      keys, recalls, retries and answers to anything else, in any order and
      number, are ignored. */
  lemma {:induction false} WaitingIsUndisturbed(app: App, s: Store, promise: Promise, events: seq<Event>)
    requires WaitsFor(s, promise) && LeftAlone(app, s, promise, events)
    ensures var t := Continue(app, s, events);
            WaitsFor(t, promise) && Visible(t).(wired := s.wired) == Visible(s)
  {
    if events == [] {
    } else {
      var front := events[..|events| - 1];
      WaitingIsUndisturbed(app, s, promise, front);
      EventLeavesAlone(app, Continue(app, s, front), promise, events[|events| - 1]);
    }
  }

  // An outcome takes the place of what was on show: of an error, of a value, or
  // of a number being typed.
  ghost predicate TakesPlace(app: App, c: CalcState, r: CalcState, outcome: Outcome) {
    if outcome.Failed? then r == c.(phase := Error, error := Some(app.message(outcome.failure)))
    else
      var shown := app.js.show(outcome.value);
      && (c.phase.EnteringA? || c.phase.EnteringB? ==> r == c.(display := shown, error := None))
      && (c.phase.OperatorSelected? || c.phase.Result? ==>
            r == c.(a := Some(outcome.value), b := None, display := shown, error := None))
      && (c.phase.Idle? || c.phase.Error? ==>
            r == CalcState(Result, shown, Some(outcome.value), None, None, None, None))
  }

  // What a store is left with when the answer it waits for comes.
  ghost predicate AnsweredWith(app: App, s: Store, t: Store, outcome: Outcome) {
    && !t.pending && t.ticket == s.ticket && t.lastSent == s.lastSent
    && TakesPlace(app, s.calcState, t.calcState, outcome)
    && (outcome.Failed? ==> Describes(t.errorRequestId, t.canRetry, outcome.failure))
    && (outcome.Answer? ==> t.errorRequestId.None? && !t.canRetry)
  }

  lemma AnswerComes(app: App, s: Store, promise: Promise, index: nat, outcome: Outcome)
    requires WaitsFor(s, promise) && index < |s.inFlight| && s.inFlight[index] == promise
    ensures AnsweredWith(app, s, Handle(app, s, Deliver(index, outcome)), outcome)
  {
  }

  lemma RetryAsks(app: App, s: Store, request: CalculateRequest)
    requires TicketsOk(s) && s.wired && CanResend(s) && s.lastSent == Some(request)
    ensures var t, promise := Handle(app, s, Retry), Promise(s.created, s.ticket + 1, request);
            && WaitsFor(t, promise) && t.inFlight == s.inFlight + [promise]
            && t.calcState == s.calcState && t.lastSent == Some(request)
            && !t.canRetry && t.errorRequestId.None? && t.wired
  {
    SendKeepsTickets(app, s, s.calcState, request);
  }

  lemma RefusedCanBeResent(app: App, events: seq<Event>, k: int)
    requires RefusedAt(app, History(app, events), k)
    ensures var s, h := Run(app, events), History(app, events);
            && TicketsOk(s) && CanResend(s) && RequestOf(app, h, k).Some? && s.lastSent == RequestOf(app, h, k)
            && (k == |h| - 1 ==> s.calcState.phase.Error?)
  {
    CanRetryMeans(app, events);
    TicketsInRun(app, events);
    EveryFailureKept(app, History(app, events));
    AsyncIsSync(app, events);
  }

  // The promise that sending this request now would make.
  function NextPromise(s: Store, request: CalculateRequest): Promise {
    Promise(s.created, s.ticket + 1, request)
  }

  lemma RetriedIsAnswered(app: App, s: Store, request: CalculateRequest, more: seq<Event>, index: nat, outcome: Outcome)
    requires TicketsOk(s) && s.wired && CanResend(s) && s.lastSent == Some(request)
    requires var asked := Handle(app, s, Retry);
             && LeftAlone(app, asked, NextPromise(s, request), more)
             && index < |Continue(app, asked, more).inFlight|
             && Continue(app, asked, more).inFlight[index] == NextPromise(s, request)
    ensures var waiting := Continue(app, Handle(app, s, Retry), more);
            && waiting.pending && waiting.calcState == s.calcState && waiting.ticket == s.ticket + 1
            && AnsweredWith(app, waiting, Handle(app, waiting, Deliver(index, outcome)), outcome)
  {
    var asked := Handle(app, s, Retry);
    RetryAsks(app, s, request);
    WaitingIsUndisturbed(app, asked, NextPromise(s, request), more);
    WaitingIsPending(Continue(app, asked, more), NextPromise(s, request));
    AnswerComes(app, Continue(app, asked, more), NextPromise(s, request), index, outcome);
  }

  /** The retry key after any run in which action k was the last to ask anything
      and was refused for a transport reason: it asks again what action k asked.
      Whatever is pressed and settles before that promise does, short of AC, the
      store goes on waiting with the same on show, and the outcome then takes its
      place; if that was the error of action k, the value or the new error is
      shown. */
  lemma RetryShowsAnswer(app: App, events: seq<Event>, k: int, more: seq<Event>, index: nat, outcome: Outcome)
    requires RefusedAt(app, History(app, events), k) && Run(app, events).wired
    requires var s, asked := Run(app, events), Handle(app, Run(app, events), Retry);
             var promise := NextPromise(s, RequestOf(app, History(app, events), k).value);
             && LeftAlone(app, asked, promise, more)
             && index < |Continue(app, asked, more).inFlight| && Continue(app, asked, more).inFlight[index] == promise
    ensures var s, asked := Run(app, events), Handle(app, Run(app, events), Retry);
            && asked.inFlight == s.inFlight + [NextPromise(s, RequestOf(app, History(app, events), k).value)]
            && asked.pending && asked.calcState == s.calcState
    ensures var s, waiting := Run(app, events), Continue(app, Handle(app, Run(app, events), Retry), more);
            var answered := Handle(app, waiting, Deliver(index, outcome));
            && waiting.pending && waiting.calcState == s.calcState
            && AnsweredWith(app, waiting, answered, outcome)
            && (k == |History(app, events)| - 1 ==> Shown(app, answered.calcState, outcome))
  {
    var s, request := Run(app, events), RequestOf(app, History(app, events), k).value;
    RefusedCanBeResent(app, events, k);
    RetryAsks(app, s, request);
    RetriedIsAnswered(app, s, request, more, index, outcome);
  }

  // What an event asks of a store that is not waiting.
  function Asked(app: App, s: Store, event: Event): Option<CalculateRequest> {
    match event
    case KeyPressed(input) => Press(app.js, s.calcState, input).effect
    case Retry => if s.canRetry then s.lastSent else None
    case _ => None
  }

  /** With nobody wired up to answer, whatever asks fails on the spot: the error
      is shown, nothing is awaited and no retry is offered. */
  lemma NobodyAnswers(app: App, events: seq<Event>, event: Event)
    requires var s := Run(app, events); !s.wired && !s.pending && Asked(app, s, event).Some?
    ensures var s, t := Run(app, events), Run(app, events + [event]);
            && !t.pending && t.inFlight == s.inFlight && !t.canRetry && t.errorRequestId.None?
            && t.lastSent == Asked(app, s, event)
            && t.calcState.phase.Error? && t.calcState.error == Some(app.message(OtherFailure))
  {
    RunAppends(app, events, event);
  }
}
