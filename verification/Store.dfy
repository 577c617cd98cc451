/** The calculator store: the engine and the one request it may be waiting for.

    A promise is an evaluation in flight.  It may settle at any time, in any
    order with the others, or never.  Its `id` is the promise itself; the
    `ticket` is all the store knows about it. */
module CalculatorStores {
  import opened Float64
  import opened Engine
  import opened Options

  datatype Failure = ApiError(code: string, requestId: Option<string>) | OtherFailure

  datatype Outcome = Answer(value: Float) | Failed(failure: Failure)

  // The engine's JavaScript and messageForError.
  datatype App = App(js: Js, message: Failure -> string)

  datatype Promise = Promise(id: nat, ticket: nat, request: CalculateRequest)

  datatype Store = Store(
    calcState: CalcState,
    pending: bool,
    errorRequestId: Option<string>,
    canRetry: bool,
    ticket: nat,
    lastSent: Option<CalculateRequest>,
    wired: bool,
    inFlight: seq<Promise>,
    created: nat)

  const INITIAL_STORE := Store(INITIAL_STATE, false, None, false, 0, None, false, [], 0)

  const RETRYABLE_ERROR_CODES: set<string> := {"NETWORK", "TIMEOUT", "RATE_LIMITED"}

  predicate Retryable(failure: Failure) {
    failure.ApiError? && failure.code in RETRYABLE_ERROR_CODES
  }

  function RequestIdOf(failure: Failure): Option<string> {
    if failure.ApiError? then failure.requestId else None
  }

  // --- settling ------------------------------------------------------------

  function Settle(app: App, s: Store, sent: nat, value: Float): Store {
    if sent != s.ticket then s
    else s.(calcState := ApplyResult(app.js, s.calcState, value), pending := false, errorRequestId := None, canRetry := false)
  }

  function SettleError(app: App, s: Store, sent: nat, failure: Failure): Store {
    if sent != s.ticket then s
    else s.(calcState := ApplyError(s.calcState, app.message(failure)), pending := false,
            errorRequestId := RequestIdOf(failure), canRetry := Retryable(failure))
  }

  function SettleWith(app: App, s: Store, sent: nat, outcome: Outcome): Store {
    match outcome
    case Answer(value) => Settle(app, s, sent, value)
    case Failed(failure) => SettleError(app, s, sent, failure)
  }

  // --- sending -------------------------------------------------------------

  // With nobody wired up to answer, the press fails at once.
  function Send(app: App, s: Store, calcState: CalcState, request: CalculateRequest): Store {
    var sent := s.ticket + 1;
    var s := s.(ticket := sent, lastSent := Some(request), calcState := calcState, pending := true,
                errorRequestId := None, canRetry := false);
    if s.wired then s.(inFlight := s.inFlight + [Promise(s.created, sent, request)], created := s.created + 1)
    else SettleError(app, s, sent, OtherFailure)
  }

  function Apply(app: App, s: Store, t: Transition): Store {
    if t.effect.None? then s.(calcState := t.state) else Send(app, s, t.state, t.effect.value)
  }

  // --- the actions ---------------------------------------------------------

  datatype Event =
    | KeyPressed(input: Input)
    | AC
    | Retry
    | Recall(value: Float)
    | SetEvaluator(wired: bool)
    | Deliver(index: nat, outcome: Outcome)

  predicate CanResend(s: Store) {
    !s.pending && s.canRetry && s.lastSent.Some?
  }

  function RecalledState(js: Js, value: Float): CalcState {
    INITIAL_STATE.(phase := EnteringA, display := js.show(value))
  }

  function Without<T>(s: seq<T>, i: nat): seq<T>
    requires i < |s|
  {
    s[..i] + s[i + 1..]
  }

  function Handle(app: App, s: Store, event: Event): Store {
    match event
    case KeyPressed(input) => if s.pending then s else Apply(app, s, Press(app.js, s.calcState, input))
    case AC =>
      s.(ticket := s.ticket + 1, calcState := ClearAll(s.calcState).state, pending := false,
         errorRequestId := None, canRetry := false)
    case Retry => if CanResend(s) then Send(app, s, s.calcState, s.lastSent.value) else s
    case Recall(value) =>
      if s.pending then s
      else s.(calcState := RecalledState(app.js, value), errorRequestId := None, canRetry := false)
    case SetEvaluator(wired) => s.(wired := wired)
    case Deliver(index, outcome) =>
      if index >= |s.inFlight| then s
      else SettleWith(app, s.(inFlight := Without(s.inFlight, index)), s.inFlight[index].ticket, outcome)
  }

  function Run(app: App, events: seq<Event>): Store {
    if events == [] then INITIAL_STORE
    else Handle(app, Run(app, events[..|events| - 1]), events[|events| - 1])
  }

  // --- the store as the object it is ---------------------------------------

  class CalculatorStore {
    const app: App
    var calcState: CalcState
    var pending: bool
    var errorRequestId: Option<string>
    var canRetry: bool
    var ticket: nat
    var lastSent: Option<CalculateRequest>
    var wired: bool
    var inFlight: seq<Promise>
    var created: nat

    function Value(): Store
      reads this
    {
      Store(calcState, pending, errorRequestId, canRetry, ticket, lastSent, wired, inFlight, created)
    }

    constructor (app: App)
      ensures this.app == app && Value() == INITIAL_STORE
    {
      this.app := app;
      calcState, pending, errorRequestId, canRetry := INITIAL_STATE, false, None, false;
      ticket, lastSent, wired, inFlight, created := 0, None, false, [], 0;
    }

    method SettleResult(sent: nat, value: Float)
      modifies this
      ensures Value() == Settle(app, old(Value()), sent, value)
    {
      if sent != ticket {
        return;
      }
      calcState, pending, errorRequestId, canRetry := ApplyResult(app.js, calcState, value), false, None, false;
    }

    method SettleFailure(sent: nat, failure: Failure)
      modifies this
      ensures Value() == SettleError(app, old(Value()), sent, failure)
    {
      if sent != ticket {
        return;
      }
      var requestId := RequestIdOf(failure);
      var retryable := Retryable(failure);
      calcState, pending := ApplyError(calcState, app.message(failure)), false;
      errorRequestId, canRetry := requestId, retryable;
    }

    method SendRequest(state: CalcState, request: CalculateRequest)
      modifies this
      ensures Value() == Send(app, old(Value()), state, request)
    {
      ticket := ticket + 1;
      var sent := ticket;
      lastSent := Some(request);
      calcState, pending, errorRequestId, canRetry := state, true, None, false;
      if !wired {
        SettleFailure(sent, OtherFailure);
        return;
      }
      inFlight := inFlight + [Promise(created, sent, request)];
      created := created + 1;
    }

    method PressKey(input: Input)
      modifies this
      ensures Value() == Handle(app, old(Value()), KeyPressed(input))
    {
      if pending {
        return;
      }
      var t := Press(app.js, calcState, input);
      if t.effect.None? {
        calcState := t.state;
      } else {
        SendRequest(t.state, t.effect.value);
      }
    }

    // Never guarded by pending: the new ticket is what makes an answer stale.
    method PressAC()
      modifies this
      ensures Value() == Handle(app, old(Value()), AC)
    {
      ticket := ticket + 1;
      calcState, pending, errorRequestId, canRetry := ClearAll(calcState).state, false, None, false;
    }

    method PressRetry()
      modifies this
      ensures Value() == Handle(app, old(Value()), Retry)
    {
      if pending || !canRetry || lastSent.None? {
        return;
      }
      SendRequest(calcState, lastSent.value);
    }

    method RecallValue(value: Float)
      modifies this
      ensures Value() == Handle(app, old(Value()), Recall(value))
    {
      if pending {
        return;
      }
      calcState, errorRequestId, canRetry := RecalledState(app.js, value), None, false;
    }

    // A promise settles: its callback runs with the ticket it was sent under.
    method PromiseSettles(index: nat, outcome: Outcome)
      requires index < |inFlight|
      modifies this
      ensures Value() == Handle(app, old(Value()), Deliver(index, outcome))
    {
      var sent := inFlight[index].ticket;
      inFlight := Without(inFlight, index);
      match outcome
      case Answer(value) => SettleResult(sent, value);
      case Failed(failure) => SettleFailure(sent, failure);
    }
  }
}
