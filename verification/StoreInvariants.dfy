/** What holds of the calculator in every reachable state of the store, and what
    `canRetry` really says. */
module StoreInvariants {
  import opened Float64
  import opened Entry
  import opened Engine
  import opened Options
  import opened CalculatorStores
  import opened StoreTheorems

  ghost predicate LawfulJs(js: Js) {
    && Lawful(js.fpu)
    && js.show(Zero(false)) == "0"
    // Number(String(x)) is x, for every value a binary64 can hold but -0.
    && (forall x :: Finite(x) && Representable(js.fpu, x) && x != Zero(true) ==>
          Number(js.fpu, js.other, js.show(x)) == x)
    // String writes an entry-like decimal or an exponent.
    && (forall x :: Finite(x) ==> InRange(js.show(x)) || 'e' in js.show(x))
    // An exponent form cut off right after its e is not a numeral.
    && (forall x, k :: Finite(x) && 0 < k <= |js.show(x)| && js.show(x)[k - 1] == 'e' ==>
          js.other(js.show(x)[..k]).NaN?)
  }

  // --- the shape of a state ---------------------------------------------------

  ghost predicate Consistent(js: Js, c: CalcState, pending: bool) {
    && (c.error.Some? <==> c.phase.Error?)
    && (c.phase.Idle? ==> c == INITIAL_STATE)
    && (c.phase.EnteringA? ==> c == INITIAL_STATE.(phase := EnteringA, display := c.display))
    && (c.phase.OperatorSelected? ==> c.operator.Some?)
    && (c.phase.EnteringB? ==> c.operator.Some? && c.a.Some? && c.b.None?)
    && (!pending && (c.phase.OperatorSelected? || c.phase.Result?) ==>
          c.a.Some? && c.b.None? && c.display == js.show(c.a.value))
    && (c.lastRequest.Some? ==>
          c.lastRequest.value.operation != Sqrt && c.lastRequest.value.operation != Percent
          && c.lastRequest.value.b.Some?)
  }

  lemma PressKeepsConsistent(js: Js, c: CalcState, input: Input)
    requires js.show(Zero(false)) == "0" && Consistent(js, c, false)
    ensures var t := Press(js, c, input);
            Consistent(js, t.state, t.effect.Some?)
  {
  }

  lemma OutcomeKeepsConsistent(app: App, c: CalcState, pending: bool, request: CalculateRequest, outcome: Option<Outcome>)
    requires Consistent(app.js, c, pending)
    ensures Consistent(app.js, SyncAnswer(app, c, request, outcome).calcState, pending && outcome.None?)
  {
  }

  lemma SendKeepsConsistent(app: App, s: Store, c: CalcState, request: CalculateRequest)
    requires Consistent(app.js, c, true)
    ensures var s' := Send(app, s, c, request);
            Consistent(app.js, s'.calcState, s'.pending)
  {
  }

  lemma SettleKeepsConsistent(app: App, s: Store, sent: nat, outcome: Outcome)
    requires Consistent(app.js, s.calcState, s.pending)
    ensures var s' := SettleWith(app, s, sent, outcome);
            Consistent(app.js, s'.calcState, s'.pending)
  {
    OutcomeKeepsConsistent(app, s.calcState, s.pending, SqrtRequest(NaN), Some(outcome));
  }

  lemma EventKeepsConsistent(app: App, s: Store, event: Event)
    requires app.js.show(Zero(false)) == "0" && Consistent(app.js, s.calcState, s.pending)
    ensures var s' := Handle(app, s, event);
            Consistent(app.js, s'.calcState, s'.pending)
  {
    match event
    case KeyPressed(input) =>
      if !s.pending {
        var t := Press(app.js, s.calcState, input);
        PressKeepsConsistent(app.js, s.calcState, input);
        if t.effect.Some? {
          SendKeepsConsistent(app, s, t.state, t.effect.value);
        }
      }
    case Retry =>
      if CanResend(s) {
        SendKeepsConsistent(app, s, s.calcState, s.lastSent.value);
      }
    case Deliver(index, outcome) =>
      if index < |s.inFlight| {
        SettleKeepsConsistent(app, s.(inFlight := Without(s.inFlight, index)), s.inFlight[index].ticket, outcome);
      }
    case _ =>
  }

  /** In every reachable state: an error is shown exactly in the error phase,
      idle is the initial state, and when nothing is pending the operands and
      the operator that a request is built from are there and on the display. */
  lemma {:induction false} AlwaysConsistent(app: App, events: seq<Event>)
    requires app.js.show(Zero(false)) == "0"
    ensures Consistent(app.js, Run(app, events).calcState, Run(app, events).pending)
  {
    if events == [] {
    } else {
      var front := events[..|events| - 1];
      AlwaysConsistent(app, front);
      EventKeepsConsistent(app, Run(app, front), events[|events| - 1]);
    }
  }

  // The request builders with other stand-ins for what is missing.
  function WithFallbacks(c: CalcState, operator: BinaryOperation, a: Float): CalcState {
    if c.phase.OperatorSelected? || c.phase.EnteringB? || c.phase.Result? then
      c.(operator := if c.operator.None? && !c.phase.Result? then Some(operator) else c.operator,
         a := if c.a.None? then Some(a) else c.a)
    else c
  }

  /** The fallbacks for a missing operator or operand are never used: putting
      anything else in their place changes no press. */
  lemma FallbacksUnused(app: App, events: seq<Event>, input: Input, operator: BinaryOperation, a: Float)
    requires app.js.show(Zero(false)) == "0" && !Run(app, events).pending
    ensures var c := Run(app, events).calcState;
            Press(app.js, WithFallbacks(c, operator, a), input) == Press(app.js, c, input)
  {
    AlwaysConsistent(app, events);
  }

  // --- failures, and retrying them --------------------------------------------------

  // No connection, no answer in time, or too many requests.
  predicate Transient(failure: Failure) {
    failure.ApiError? && (failure.code == "NETWORK" || failure.code == "TIMEOUT" || failure.code == "RATE_LIMITED")
  }

  // The two fields are about this failure.
  predicate Describes(errorRequestId: Option<string>, canRetry: bool, failure: Failure) {
    && canRetry == Transient(failure)
    && (failure.ApiError? ==> errorRequestId == failure.requestId)
    && (failure.OtherFailure? ==> errorRequestId.None?)
  }

  // Action k asked, its request failed, and only keys that ask for nothing came
  // after it.
  ghost predicate FailedAt(app: App, h: seq<Accepted>, k: int) {
    && 0 <= k < |h|
    && Asks(app, SyncRun(app, h[..k]), h[k].action).effect.Some?
    && h[k].outcome.Some? && h[k].outcome.value.Failed?
    && forall i :: k < i < |h| ==> h[i].action.Key? && Asks(app, SyncRun(app, h[..i]), h[i].action).effect.None?
  }

  // The failure of action k.
  function FailureAt(h: seq<Accepted>, k: nat): Failure
    requires k < |h| && h[k].outcome.Some? && h[k].outcome.value.Failed?
  {
    h[k].outcome.value.failure
  }

  // The request of action k.
  function RequestOf(app: App, h: seq<Accepted>, k: nat): Option<CalculateRequest>
    requires k < |h|
  {
    Asks(app, SyncRun(app, h[..k]), h[k].action).effect
  }

  predicate Quiet(app: App, h: seq<Accepted>, step: Accepted) {
    step.action.Key? && Asks(app, SyncRun(app, h), step.action).effect.None?
  }

  lemma FailureGrows(app: App, h: seq<Accepted>, step: Accepted, k: int)
    requires k < |h|
    ensures FailedAt(app, h + [step], k) <==> FailedAt(app, h, k) && Quiet(app, h, step)
  {
    var h' := h + [step];
    assert forall i :: 0 <= i <= |h| ==> h'[..i] == h[..i];
    assert h[..|h|] == h && h'[|h|] == step;
    if FailedAt(app, h', k) {
      assert forall i :: k < i < |h| ==> h'[i] == h[i];
      assert Asks(app, SyncRun(app, h'[..|h|]), h'[|h|].action).effect.None?;
    }
  }

  lemma FailedLast(app: App, h: seq<Accepted>, step: Accepted)
    ensures FailedAt(app, h + [step], |h|) <==>
            Asks(app, SyncRun(app, h), step.action).effect.Some? && step.outcome.Some? && step.outcome.value.Failed?
  {
    assert (h + [step])[..|h|] == h;
  }

  // A key that asks for nothing leaves no error behind.
  lemma QuietKeyClearsError(js: Js, c: CalcState, input: Input)
    requires c.error.Some? <==> c.phase.Error?
    ensures var t := Press(js, c, input);
            (t.effect.None? ==> t.state.error.None?) && (t.state.error.Some? <==> t.state.phase.Error?)
  {
  }

  // What the reference keeps of the failure of action k.
  ghost predicate Keeps(app: App, h: seq<Accepted>, k: nat)
    requires FailedAt(app, h, k)
  {
    var sync, failure := SyncRun(app, h), FailureAt(h, k);
    && Describes(sync.errorRequestId, sync.canRetry, failure)
    && sync.lastSent == RequestOf(app, h, k)
    && (sync.calcState.error.Some? <==> k == |h| - 1)
    && (k == |h| - 1 ==> sync.calcState.error == Some(app.message(failure)))
  }

  ghost predicate FailuresKept(app: App, h: seq<Accepted>) {
    var sync := SyncRun(app, h);
    && (sync.calcState.error.Some? <==> sync.calcState.phase.Error?)
    && (forall k :: FailedAt(app, h, k) ==> Keeps(app, h, k))
    && ((forall k :: !FailedAt(app, h, k)) ==>
          sync.errorRequestId.None? && !sync.canRetry && (sync.calcState.error.Some? ==> Unanswered(app, h)))
  }

  // The last action asked, and there is no answer yet.
  predicate Unanswered(app: App, h: seq<Accepted>) {
    h != [] && RequestOf(app, h, |h| - 1).Some? && h[|h| - 1].outcome.None?
  }

  lemma FailuresCarryOver(app: App, h: seq<Accepted>, step: Accepted)
    ensures forall k :: 0 <= k < |h| ==> (FailedAt(app, h + [step], k) <==> FailedAt(app, h, k) && Quiet(app, h, step))
    ensures forall k :: 0 <= k < |h| ==> RequestOf(app, h + [step], k) == RequestOf(app, h, k)
    ensures RequestOf(app, h + [step], |h|) == Asks(app, SyncRun(app, h), step.action).effect
  {
    var h' := h + [step];
    forall k | 0 <= k < |h|
      ensures FailedAt(app, h', k) <==> FailedAt(app, h, k) && Quiet(app, h, step)
      ensures RequestOf(app, h', k) == RequestOf(app, h, k)
    {
      FailureGrows(app, h, step, k);
      assert h'[..k] == h[..k];
    }
    assert h'[..|h|] == h;
  }

  lemma QuietStepKeeps(app: App, h: seq<Accepted>, step: Accepted)
    requires FailuresKept(app, h) && Quiet(app, h, step)
    ensures FailuresKept(app, h + [step])
  {
    SyncAppends(app, h, step);
    FailedLast(app, h, step);
    FailuresCarryOver(app, h, step);
    QuietKeyClearsError(app.js, SyncRun(app, h).calcState, step.action.input);
    forall k | FailedAt(app, h + [step], k) ensures Keeps(app, h + [step], k) {
      assert k < |h| && Keeps(app, h, k);
      assert FailureAt(h + [step], k) == FailureAt(h, k);
    }
    if k :| FailedAt(app, h, k) {
      assert FailedAt(app, h + [step], k);
    }
  }

  lemma AnswerSetsRetry(app: App, c: CalcState, request: CalculateRequest, outcome: Option<Outcome>)
    requires c.error.Some? <==> c.phase.Error?
    ensures var sync := SyncAnswer(app, c, request, outcome);
            && (sync.calcState.error.Some? <==> sync.calcState.phase.Error?)
            && sync.lastSent == Some(request)
            && (outcome.Some? && outcome.value.Failed? ==>
                  && Describes(sync.errorRequestId, sync.canRetry, outcome.value.failure)
                  && sync.calcState.error == Some(app.message(outcome.value.failure)))
            && (outcome.None? || outcome.value.Answer? ==> sync.errorRequestId.None? && !sync.canRetry)
            && (outcome.Some? && outcome.value.Answer? ==> sync.calcState.error.None?)
            && (outcome.None? ==> sync.calcState == c)
  {
  }

  lemma OnlyTheLastFailed(app: App, h: seq<Accepted>, step: Accepted)
    requires Asks(app, SyncRun(app, h), step.action).effect.Some?
    ensures forall k :: FailedAt(app, h + [step], k) <==>
              k == |h| && step.outcome.Some? && step.outcome.value.Failed?
  {
    FailedLast(app, h, step);
    FailuresCarryOver(app, h, step);
  }

  lemma AskingStepKeeps(app: App, h: seq<Accepted>, step: Accepted)
    requires FailuresKept(app, h) && Asks(app, SyncRun(app, h), step.action).effect.Some?
    ensures FailuresKept(app, h + [step])
  {
    var sync := SyncRun(app, h);
    var t := Asks(app, sync, step.action);
    if step.action.Key? {
      QuietKeyClearsError(app.js, sync.calcState, step.action.input);
    }
    AnswerSetsRetry(app, t.state, t.effect.value, step.outcome);
    SyncAppends(app, h, step);
    OnlyTheLastFailed(app, h, step);
    LastRequest(app, h, step);
    if step.outcome.Some? && step.outcome.value.Failed? {
      assert FailedAt(app, h + [step], |h|);
    }
  }

  lemma LastRequest(app: App, h: seq<Accepted>, step: Accepted)
    ensures RequestOf(app, h + [step], |h|) == Asks(app, SyncRun(app, h), step.action).effect
    ensures (h + [step])[|h|] == step
  {
    assert (h + [step])[..|h|] == h;
  }

  lemma UnaskedStepKeeps(app: App, h: seq<Accepted>, step: Accepted)
    requires FailuresKept(app, h) && Asks(app, SyncRun(app, h), step.action).effect.None? && !step.action.Key?
    ensures FailuresKept(app, h + [step])
  {
    var sync := SyncRun(app, h);
    SyncAppends(app, h, step);
    FailedLast(app, h, step);
    FailuresCarryOver(app, h, step);
    forall k ensures !FailedAt(app, h + [step], k) {}
    forall k | FailedAt(app, h, k) ensures sync.lastSent.Some? {
      FailedRequestIsKept(app, h, k);
    }
  }

  lemma FailedRequestIsKept(app: App, h: seq<Accepted>, k: int)
    requires FailuresKept(app, h) && FailedAt(app, h, k)
    ensures SyncRun(app, h).lastSent.Some?
  {
    assert Keeps(app, h, k);
  }

  lemma StepKeeps(app: App, h: seq<Accepted>, step: Accepted)
    requires FailuresKept(app, h)
    ensures FailuresKept(app, h + [step])
  {
    if Asks(app, SyncRun(app, h), step.action).effect.Some? {
      AskingStepKeeps(app, h, step);
    } else if step.action.Key? {
      QuietStepKeeps(app, h, step);
    } else {
      UnaskedStepKeeps(app, h, step);
    }
  }

  lemma NothingFailed(app: App)
    ensures FailuresKept(app, [])
  {
    assert SyncRun(app, []) == Sync(INITIAL_STATE, None, false, None);
  }

  lemma {:induction false} EveryFailureKept(app: App, h: seq<Accepted>)
    ensures FailuresKept(app, h)
  {
    if h == [] {
      NothingFailed(app);
    } else {
      EveryFailureKept(app, h[..|h| - 1]);
      StepKeeps(app, h[..|h| - 1], h[|h| - 1]);
      assert h == h[..|h| - 1] + [h[|h| - 1]];
    }
  }

  // Whatever asked has a promise or an outcome.
  predicate Promised(app: App, h: seq<Accepted>, k: int)
    requires 0 <= k < |h|
  {
    RequestOf(app, h, k).Some? ==> h[k].promise.Some? || h[k].outcome.Some?
  }

  predicate AllPromised(app: App, h: seq<Accepted>) {
    forall k :: 0 <= k < |h| ==> Promised(app, h, k)
  }

  lemma PromisedAppends(app: App, h: seq<Accepted>, step: Accepted)
    requires AllPromised(app, h)
    requires Asks(app, SyncRun(app, h), step.action).effect.Some? ==> step.promise.Some? || step.outcome.Some?
    ensures AllPromised(app, h + [step])
  {
    var h' := h + [step];
    forall k | 0 <= k < |h'| ensures Promised(app, h', k) {
      assert h'[..k] == h[..k];
      if k < |h| {
        assert Promised(app, h, k);
      } else {
        assert h[..k] == h;
      }
    }
  }

  lemma PromisedFront(app: App, h: seq<Accepted>)
    requires AllPromised(app, h) && h != []
    ensures AllPromised(app, h[..|h| - 1])
  {
    var front := h[..|h| - 1];
    forall k | 0 <= k < |front| ensures Promised(app, front, k) {
      assert front[..k] == h[..k] && Promised(app, h, k);
    }
  }

  lemma AnswerKeepsPromised(app: App, s: Store, h: seq<Accepted>, index: nat, outcome: Outcome)
    requires Link(app, s, h) && AllPromised(app, h) && index < |s.inFlight|
    ensures AllPromised(app, Answered(h, s.inFlight[index].id, outcome))
  {
    if Carries(s.inFlight, s.ticket, index) {
      CurrentAnswerLinks(app, s, h, index, outcome);
      if h != [] {
        PromisedFront(app, h);
        PromisedAppends(app, h[..|h| - 1], h[|h| - 1].(outcome := Some(outcome)));
      }
    } else {
      StaleAnswerLinks(app, s, h, index, outcome);
    }
  }

  lemma EventKeepsPromised(app: App, s: Store, h: seq<Accepted>, event: Event)
    requires Link(app, s, h) && AllPromised(app, h)
    ensures AllPromised(app, Extend(app, s, h, event))
  {
    match event
    case KeyPressed(input) =>
      if !s.pending {
        PromisedAppends(app, h, Accept(s, Key(input), Press(app.js, s.calcState, input).effect.Some?));
      }
    case Retry =>
      if CanResend(s) {
        PromisedAppends(app, h, Accept(s, Resend, true));
      }
    case Recall(value) =>
      if !s.pending {
        PromisedAppends(app, h, Accept(s, Recalled(value), false));
      }
    case Deliver(index, outcome) =>
      if index < |s.inFlight| {
        AnswerKeepsPromised(app, s, h, index, outcome);
      }
    case _ =>
  }

  lemma {:induction false} RunKeepsPromised(app: App, events: seq<Event>)
    ensures AllPromised(app, History(app, events))
  {
    if events == [] {
    } else {
      var front := events[..|events| - 1];
      RunKeepsPromised(app, front);
      RunLinks(app, front);
      EventKeepsPromised(app, Run(app, front), History(app, front), events[|events| - 1]);
    }
  }

  lemma UnansweredIsPending(app: App, events: seq<Event>)
    requires Unanswered(app, History(app, events))
    ensures Run(app, events).pending
  {
    var h := History(app, events);
    RunKeepsPromised(app, events);
    assert Promised(app, h, |h| - 1);
    RunLinks(app, events);
    assert Waits(h[|h| - 1]);
  }

  // What the store keeps of the failure of action k.
  ghost predicate StoreKeeps(app: App, s: Store, h: seq<Accepted>, k: nat)
    requires FailedAt(app, h, k)
  {
    var failure := FailureAt(h, k);
    && Describes(s.errorRequestId, s.canRetry, failure)
    && (s.calcState.error.Some? <==> k == |h| - 1)
    && (k == |h| - 1 ==> s.calcState.error == Some(app.message(failure)))
  }

  /** What `errorRequestId` and `canRetry` describe: the failure of the last
      request since AC, as long as only quiet keys came after it, and nothing
      otherwise.  The error itself is on show only while there was no such key,
      and, with nothing pending, only then. */
  lemma ErrorFieldsMean(app: App, events: seq<Event>)
    ensures var s, h := Run(app, events), History(app, events);
            && (forall k :: FailedAt(app, h, k) ==> StoreKeeps(app, s, h, k))
            && ((forall k :: !FailedAt(app, h, k)) ==>
                  s.errorRequestId.None? && !s.canRetry && (s.calcState.error.Some? ==> s.pending))
  {
    var h := History(app, events);
    AsyncIsSync(app, events);
    EveryFailureKept(app, h);
    forall k | FailedAt(app, h, k) ensures StoreKeeps(app, Run(app, events), h, k) {
      assert Keeps(app, h, k);
    }
    if Unanswered(app, h) {
      UnansweredIsPending(app, events);
    }
  }

  // Failed for a reason worth retrying.
  ghost predicate RefusedAt(app: App, h: seq<Accepted>, k: int) {
    FailedAt(app, h, k) && Transient(FailureAt(h, k))
  }

  /** A retry is offered exactly when the last thing asked since AC was refused
      for a transport reason and only quiet keys came after it; it then re-sends
      that request.  An error is still on show only if there was no such key. */
  lemma CanRetryMeans(app: App, events: seq<Event>)
    ensures var s, h := Run(app, events), History(app, events);
            && (s.canRetry <==> exists k :: RefusedAt(app, h, k))
            && (s.canRetry ==> !s.pending)
            && forall k :: RefusedAt(app, h, k) ==>
                 s.lastSent == RequestOf(app, h, k) && (s.calcState.error.Some? <==> k == |h| - 1)
  {
    var s, h := Run(app, events), History(app, events);
    AsyncIsSync(app, events);
    EveryFailureKept(app, h);
    ErrorFieldsMean(app, events);
    forall k | RefusedAt(app, h, k) ensures Keeps(app, h, k) && StoreKeeps(app, s, h, k) {}
    if s.canRetry {
      var k :| FailedAt(app, h, k);
      assert StoreKeeps(app, s, h, k);
      assert RefusedAt(app, h, k);
    }
    RunLinks(app, events);
  }

  // The square root key, a failure, and then a digit.
  function FailThenType(failure: Failure): seq<Event> {
    [SetEvaluator(true), KeyPressed(Unary(Sqrt)), Deliver(0, Failed(failure)), KeyPressed(Digit('5'))]
  }

  /** So neither describes the current error: for every failure there is a run
      after which both are still set as it set them and no error is on show. */
  lemma ErrorFieldsCanBeStale(app: App, failure: Failure)
    ensures var s := Run(app, FailThenType(failure));
            && s.calcState == INITIAL_STATE.(phase := EnteringA, display := "5") && !s.pending
            && Describes(s.errorRequestId, s.canRetry, failure)
            && s.lastSent == Some(SqrtRequest(Zero(false))) && s.wired && s.inFlight == []
  {
    var events := FailThenType(failure);
    assert events == [] + [events[0]] + [events[1]] + [events[2]] + [events[3]];
    RunAppends(app, [], events[0]);
    RunAppends(app, [] + [events[0]], events[1]);
    RunAppends(app, [] + [events[0]] + [events[1]], events[2]);
    RunAppends(app, [] + [events[0]] + [events[1]] + [events[2]], events[3]);
    assert CountDigits("0") <= 1;
  }

  /** And retrying then puts the answer in place of the number being typed. */
  lemma RetryCanBeStale(app: App, failure: Failure, value: Float)
    requires Transient(failure)
    ensures var s := Run(app, FailThenType(failure) + [Retry] + [Deliver(0, Answer(value))]);
            s.calcState == INITIAL_STATE.(phase := EnteringA, display := app.js.show(value))
  {
    ErrorFieldsCanBeStale(app, failure);
    RunAppends(app, FailThenType(failure), Retry);
    RunAppends(app, FailThenType(failure) + [Retry], Deliver(0, Answer(value)));
  }
}
