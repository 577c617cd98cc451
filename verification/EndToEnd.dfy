/** The calculator and the service together: what the one sends is what the
    other accepts. */
module EndToEnd {
  import Api = HttpApi
  import Calc
  import opened CalcTheorems
  import opened CalculatorStores
  import opened Decimal
  import opened Engine
  import opened Entry
  import opened ExpressionTheorems
  import opened Float64
  import HttpTheorems
  import opened Options
  import opened ServedRuns
  import opened StoreInvariants
  import opened StoreTheorems

  // --- the wire ------------------------------------------------------------------

  function OperationName(operation: Operation): string {
    match operation
    case Add => "add"
    case Subtract => "subtract"
    case Multiply => "multiply"
    case Divide => "divide"
    case Power => "power"
    case Sqrt => "sqrt"
    case Percent => "percent"
  }

  // The symbol on an operation's key.
  function SymbolOf(operation: Operation): string {
    match operation
    case Add => "+"
    case Subtract => "\U{2212}"
    case Multiply => "\U{d7}"
    case Divide => "\U{f7}"
    case Power => "^"
    case Sqrt => "\U{221a}"
    case Percent => "%"
  }

  // An operation's place in the service's list.
  function PlaceOf(operation: Operation): (i: nat)
    ensures i < |Calc.SPECS|
  {
    match operation
    case Add => 0
    case Subtract => 1
    case Multiply => 2
    case Divide => 3
    case Power => 4
    case Sqrt => 5
    case Percent => 6
  }

  /** The service lists every operation of the calculator, and no other, under
      the same symbol, with as many operands as the calculator sends. */
  lemma ListsAgree(r: Calc.Registry, operation: Operation)
    requires Calc.Standard(r)
    ensures var spec := Calc.Lookup(r, OperationName(operation));
            && spec.Some? && spec.value.symbol == SymbolOf(operation)
            && spec.value.arity == (if operation == Sqrt then 1 else 2)
            && spec == Some(r.specs[PlaceOf(operation)]) && |r.specs| == 7
  {
    Calc.LookupFinds(r, PlaceOf(operation));
  }

  // JSON has no NaN and no infinity: they are written as null, which reads as a
  // missing operand.  It writes -0 as 0.
  function NumberOnWire(x: Float): Option<Float> {
    if Finite(x) then Some(DropNegativeZero(x)) else None
  }

  function OnWire(request: CalculateRequest): Api.CalculateRequest {
    Api.CalculateRequest(OperationName(request.operation), NumberOnWire(request.a),
      if request.b.None? then None else NumberOnWire(request.b.value))
  }

  // A number the calculator may hold.
  predicate Sound(fpu: Fpu, x: Float) {
    Operand(fpu, x) && x != Zero(true)
  }

  predicate Sendable(fpu: Fpu, request: CalculateRequest) {
    && Sound(fpu, request.a) && (request.b.Some? ==> Sound(fpu, request.b.value))
    && (request.b.Some? <==> request.operation != Sqrt)
  }

  lemma SendableIsAccepted(fpu: Fpu, request: CalculateRequest)
    requires Sendable(fpu, request)
    ensures HttpTheorems.Acceptable(OnWire(request)) && HttpTheorems.Holds(fpu, OnWire(request))
    ensures OnWire(request) == Api.CalculateRequest(OperationName(request.operation), Some(request.a), request.b)
  {
  }

  // --- every request is accepted ---------------------------------------------------

  // Typed text, or a number String wrote with an exponent.
  ghost predicate GoodEntry(js: Js, entry: string) {
    InRange(entry) || exists x :: Writes(js, x, entry)
  }

  predicate Writes(js: Js, x: Float, text: string) {
    Sound(js.fpu, x) && text == js.show(x)
  }

  ghost predicate Healthy(js: Js, c: CalcState, pending: bool) {
    && Consistent(js, c, pending)
    && (c.phase.EnteringA? || c.phase.EnteringB? ==> GoodEntry(js, c.display))
    && (c.a.Some? ==> Sound(js.fpu, c.a.value))
    && (c.lastRequest.Some? ==> Sendable(js.fpu, c.lastRequest.value))
  }

  // An editing key on an entry in exponent form.
  predicate EditsExponent(c: CalcState, input: Input) {
    Edits(input) && (c.phase.EnteringA? || c.phase.EnteringB?) && 'e' in c.display
  }

  lemma DecimalsHaveNoExponent(entry: string)
    requires IsDecimal(entry)
    ensures 'e' !in entry
  {
    var s := Unsigned(entry);
    forall i | 0 <= i < |s| ensures s[i] != 'e' {
      var p := Point(s);
      if i < p {
        assert s[..p][i] == s[i];
      } else if i > p {
        assert FractionPart(s)[i - p - 1] == s[i];
      }
    }
  }

  lemma GoodEntryParses(js: Js, entry: string)
    requires LawfulJs(js) && GoodEntry(js, entry)
    ensures Sound(js.fpu, js.Parse(entry))
  {
    if InRange(entry) {
      ParseIsTotal(js.fpu, js.other, entry);
    } else {
      var x :| Writes(js, x, entry);
      ShownParses(js, x);
    }
  }

  lemma ShownParses(js: Js, x: Float)
    requires LawfulJs(js) && Sound(js.fpu, x)
    ensures js.Parse(js.show(x)) == x
  {
  }

  lemma ShownIsGoodEntry(js: Js, x: Float)
    requires LawfulJs(js) && Sound(js.fpu, x)
    ensures GoodEntry(js, js.show(x)) && js.Parse(js.show(x)) == x
  {
    ShownParses(js, x);
    assert Writes(js, x, js.show(x));
  }

  lemma EditInRange(entry: string, key: Input)
    requires Edits(key) && InRange(entry)
    ensures InRange(Edit(entry, key))
  {
    KeysCloseGrammar(entry, if key.Digit? then key.digit else '0');
  }

  lemma StartInRange(digit: Entry.Digit)
    ensures InRange(AppendDigit("0", digit)) && InRange("0.")
  {
    ZeroIsEntry();
    KeysCloseGrammar("0", digit);
    assert AppendDecimal("0") == "0.";
  }

  lemma EntryEdited(js: Js, c: CalcState, input: Input)
    requires LawfulJs(js) && Healthy(js, c, false) && Edits(input) && (c.phase.EnteringA? || c.phase.EnteringB?)
    requires 'e' !in c.display
    ensures Healthy(js, Press(js, c, input).state, false) && Press(js, c, input).effect.None?
  {
    EditInRange(c.display, input);
    assert Press(js, c, input) == Stay(c.(display := Edit(c.display, input)));
  }

  lemma NegatedIsSound(fpu: Fpu, x: Float)
    requires Lawful(fpu) && Sound(fpu, x)
    ensures Sound(fpu, NegateValue(Some(x)))
  {
    assert Representable(fpu, Negate(x));
  }

  lemma EntryStarted(js: Js, c: CalcState, input: Input)
    requires Healthy(js, c, false) && Edits(input) && !c.phase.EnteringA? && !c.phase.EnteringB?
    requires c.a.Some? ==> Sound(js.fpu, NegateValue(c.a))
    ensures Healthy(js, Press(js, c, input).state, false) && Press(js, c, input).effect.None?
  {
    StartInRange(if input.Digit? then input.digit else '0');
  }

  lemma CloseKeyIsHealthy(js: Js, c: CalcState, input: Input)
    requires LawfulJs(js) && Healthy(js, c, false) && (input.Operator? || input.Equals?)
    ensures var t := Press(js, c, input);
            Healthy(js, t.state, t.effect.Some?) && (t.effect.Some? ==> Sendable(js.fpu, t.effect.value))
  {
    PressKeepsConsistent(js, c, input);
    ZeroAndOneAreSound(js.fpu);
    if c.phase.EnteringA? || c.phase.EnteringB? {
      GoodEntryParses(js, c.display);
    }
  }

  lemma ClearEntryIsHealthy(js: Js, c: CalcState)
    requires js.show(Zero(false)) == "0" && Healthy(js, c, false)
    ensures var t := Press(js, c, ClearEntry);
            Healthy(js, t.state, false) && t.effect.None?
  {
    PressKeepsConsistent(js, c, ClearEntry);
  }

  lemma UnaryKeyIsHealthy(js: Js, c: CalcState, key: UnaryKey)
    requires LawfulJs(js) && Healthy(js, c, false)
    ensures var t := Press(js, c, Unary(key));
            Healthy(js, t.state, true) && t.effect.Some? && Sendable(js.fpu, t.effect.value)
  {
    PressKeepsConsistent(js, c, Unary(key));
    ZeroAndOneAreSound(js.fpu);
    if c.phase.EnteringA? || c.phase.EnteringB? {
      GoodEntryParses(js, c.display);
    }
  }

  lemma ZeroAndOneAreSound(fpu: Fpu)
    requires Lawful(fpu)
    ensures Sound(fpu, Zero(false)) && Sound(fpu, Num(1.0))
  {
    assert 1.0 == (1.0 as real).Floor as real;
  }

  lemma PressIsHealthy(js: Js, c: CalcState, input: Input)
    requires LawfulJs(js) && Healthy(js, c, false) && !EditsExponent(c, input)
    ensures var t := Press(js, c, input);
            Healthy(js, t.state, t.effect.Some?) && (t.effect.Some? ==> Sendable(js.fpu, t.effect.value))
  {
    if Edits(input) {
      if c.phase.EnteringA? || c.phase.EnteringB? {
        EntryEdited(js, c, input);
      } else {
        if c.a.Some? {
          NegatedIsSound(js.fpu, c.a.value);
        }
        EntryStarted(js, c, input);
      }
    } else if input.ClearEntry? {
      ClearEntryIsHealthy(js, c);
    } else if input.Unary? {
      UnaryKeyIsHealthy(js, c, input.key);
    } else {
      CloseKeyIsHealthy(js, c, input);
    }
  }

  ghost predicate AllSendable(fpu: Fpu, s: Store) {
    && (s.lastSent.Some? ==> Sendable(fpu, s.lastSent.value))
    && (forall i :: 0 <= i < |s.inFlight| ==> Sendable(fpu, s.inFlight[i].request))
  }

  ghost predicate HealthyStore(app: App, s: Store) {
    Healthy(app.js, s.calcState, s.pending) && AllSendable(app.js.fpu, s)
  }

  lemma SendIsHealthy(app: App, s: Store, c: CalcState, request: CalculateRequest)
    requires HealthyStore(app, s) && Healthy(app.js, c, true) && Sendable(app.js.fpu, request)
    ensures HealthyStore(app, Send(app, s, c, request))
  {
    SendKeepsConsistent(app, s, c, request);
  }

  lemma OutcomeIsHealthy(app: App, s: Store, sent: nat, outcome: Outcome)
    requires LawfulJs(app.js) && HealthyStore(app, s) && (outcome.Answer? ==> Sound(app.js.fpu, outcome.value))
    ensures HealthyStore(app, SettleWith(app, s, sent, outcome))
  {
    SettleKeepsConsistent(app, s, sent, outcome);
    if outcome.Answer? {
      ShownIsGoodEntry(app.js, outcome.value);
    }
  }

  // Answers and recalled values are numbers the calculator may hold, and no
  // entry in exponent form is edited.
  predicate Orderly(app: App, s: Store, event: Event) {
    match event
    case KeyPressed(input) => s.pending || !EditsExponent(s.calcState, input)
    case Recall(value) => Sound(app.js.fpu, value)
    case Deliver(index, Answer(value)) => index < |s.inFlight| ==> Sound(app.js.fpu, value)
    case _ => true
  }

  lemma EventIsHealthy(app: App, s: Store, event: Event)
    requires LawfulJs(app.js) && HealthyStore(app, s) && Orderly(app, s, event)
    ensures HealthyStore(app, Handle(app, s, event))
  {
    match event
    case KeyPressed(input) =>
      if !s.pending {
        var t := Press(app.js, s.calcState, input);
        PressIsHealthy(app.js, s.calcState, input);
        if t.effect.Some? {
          SendIsHealthy(app, s, t.state, t.effect.value);
        }
      }
    case Retry =>
      if CanResend(s) {
        assert Consistent(app.js, s.calcState, true);
        SendIsHealthy(app, s, s.calcState, s.lastSent.value);
      }
    case Recall(value) => ShownIsGoodEntry(app.js, value);
    case Deliver(index, outcome) =>
      if index < |s.inFlight| {
        WithoutKeeps(s.inFlight, index);
        OutcomeIsHealthy(app, s.(inFlight := Without(s.inFlight, index)), s.inFlight[index].ticket, outcome);
      }
    case _ =>
  }

  ghost predicate OrderlyRun(app: App, events: seq<Event>) {
    events != [] ==>
      var front := events[..|events| - 1];
      OrderlyRun(app, front) && Orderly(app, Run(app, front), events[|events| - 1])
  }

  lemma {:induction false} RunIsHealthy(app: App, events: seq<Event>)
    requires LawfulJs(app.js) && OrderlyRun(app, events)
    ensures HealthyStore(app, Run(app, events))
  {
    if events == [] {
    } else {
      RunIsHealthy(app, events[..|events| - 1]);
      EventIsHealthy(app, Run(app, events[..|events| - 1]), events[|events| - 1]);
    }
  }

  /** In every orderly run, whatever the promises do, validation accepts every
      request: the one sent last, and all that are still open. */
  lemma EveryRequestIsAccepted(app: App, events: seq<Event>)
    requires LawfulJs(app.js) && OrderlyRun(app, events)
    ensures var s := Run(app, events);
            && (s.lastSent.Some? ==> HttpTheorems.Acceptable(OnWire(s.lastSent.value)))
            && (forall i :: 0 <= i < |s.inFlight| ==> HttpTheorems.Acceptable(OnWire(s.inFlight[i].request)))
  {
    RunIsHealthy(app, events);
    var s := Run(app, events);
    if s.lastSent.Some? {
      SendableIsAccepted(app.js.fpu, s.lastSent.value);
    }
    forall i | 0 <= i < |s.inFlight| ensures HttpTheorems.Acceptable(OnWire(s.inFlight[i].request)) {
      SendableIsAccepted(app.js.fpu, s.inFlight[i].request);
    }
  }

  // --- the service as the server -----------------------------------------------------

  // The answer to a request, and the failure for a problem.
  function Service(fpu: Fpu, r: Calc.Registry): Server
    requires Calc.Indexed(r)
  {
    (request: CalculateRequest) =>
      var answer := Api.Attempted(fpu, r, Api.Body(OnWire(request))).answer;
      if answer.OK? then Answer(answer.response.result)
      else Failed(ApiError(Api.Name(answer.problem.code), None))
  }

  // The failure the calculator sees for an evaluation that failed.
  function FailureFor(error: Calc.Error): Failure {
    ApiError(
      match error
      case DivisionByZero => "DIVISION_BY_ZERO"
      case Domain => "DOMAIN_ERROR"
      case NotFinite => "RESULT_NOT_FINITE"
      case UnknownOperation => "UNSUPPORTED_OPERATION"
      case Arity => "INTERNAL",
      None)
  }

  // What a request means.
  function Meant(fpu: Fpu, request: CalculateRequest): Calc.Result
    requires Sendable(fpu, request)
  {
    Meaning(fpu, OperationName(request.operation), request.a, request.b.GetOr(Zero(false)))
  }

  lemma MeantIsSound(fpu: Fpu, request: CalculateRequest)
    requires Lawful(fpu) && Sendable(fpu, request)
    ensures var res := Meant(fpu, request);
            && (res.Ok? ==> Sound(fpu, res.value))
            && (res.Err? ==> res.error in {Calc.DivisionByZero, Calc.Domain, Calc.NotFinite})
  {
    var name, a, b := OperationName(request.operation), request.a, request.b.GetOr(Zero(false));
    if Meant(fpu, request).Ok? {
      RoundedInRange(fpu, name, a, b);
    }
  }

  lemma MapsToFailure(r: Calc.Registry, operation: string, error: Calc.Error)
    ensures ApiError(Api.Name(Api.MapError(r, Api.Sentinel(operation, error)).code), None) == FailureFor(error)
  {
  }

  lemma ServiceAnswers(fpu: Fpu, r: Calc.Registry, request: CalculateRequest)
    requires Lawful(fpu) && Calc.Standard(r) && Sendable(fpu, request)
    ensures Service(fpu, r)(request) == AsOutcome(Meant(fpu, request))
  {
    var res := Meant(fpu, request);
    SendableIsAccepted(fpu, request);
    HttpTheorems.AcceptedIsEvaluated(fpu, r, OnWire(request));
    if res.Err? {
      MapsToFailure(r, OperationName(request.operation), res.error);
    }
  }

  function AsOutcome(res: Calc.Result): Outcome {
    if res.Ok? then Answer(res.value) else Failed(FailureFor(res.error))
  }

  // The failures a calculation itself can have.
  predicate CalculationFailure(failure: Failure) {
    failure in {FailureFor(Calc.DivisionByZero), FailureFor(Calc.Domain), FailureFor(Calc.NotFinite)}
  }

  lemma CalculationFailuresStay(failure: Failure)
    requires CalculationFailure(failure)
    ensures !Transient(failure)
  {
  }

  // A result out of range is refused, and a negative zero is a zero.
  function InRangeOnly(x: Float): Outcome {
    if x.Inf? then Failed(ApiError("RESULT_NOT_FINITE", None)) else Answer(DropNegativeZero(x))
  }

  function Undefined(): Outcome {
    Failed(ApiError("DOMAIN_ERROR", None))
  }

  function NoQuotient(): Outcome {
    Failed(ApiError("DIVISION_BY_ZERO", None))
  }

  // b hundredths of a: of the rounded product, or if that is out of range of the
  // rounded share.
  function Hundredths(fpu: Fpu, a: Float, b: Float): Float
    requires Finite(a) && Finite(b)
  {
    var product, share := fpu.round(Product(a, b)), fpu.round(RealOf(b) / 100.0);
    if Finite(product) then fpu.round(RealOf(product) / 100.0)
    else if Finite(share) then fpu.round(Product(a, share))
    else share
  }

  function Sum(fpu: Fpu, a: Float, b: Float): Outcome
    requires Finite(a) && Finite(b)
  {
    InRangeOnly(fpu.round(RealOf(a) + RealOf(b)))
  }

  function Difference(fpu: Fpu, a: Float, b: Float): Outcome
    requires Finite(a) && Finite(b)
  {
    InRangeOnly(fpu.round(RealOf(a) - RealOf(b)))
  }

  function RoundedProduct(fpu: Fpu, a: Float, b: Float): Outcome
    requires Finite(a) && Finite(b)
  {
    InRangeOnly(fpu.round(Product(a, b)))
  }

  function Quotient(fpu: Fpu, a: Float, b: Float): Outcome
    requires Finite(a) && Finite(b)
  {
    if b.Zero? then NoQuotient() else InRangeOnly(fpu.round(RealOf(a) / RealOf(b)))
  }

  function Powered(fpu: Fpu, a: Float, b: Float): Outcome
    requires Finite(a) && Finite(b)
  {
    if a.Zero? && Negative(b) then NoQuotient()
    else if Negative(a) && !IsInteger(b) then Undefined()
    else InRangeOnly(fpu.pow(a, b))
  }

  function Root(fpu: Fpu, a: Float): Outcome {
    if Negative(a) then Undefined() else InRangeOnly(fpu.sqrt(a))
  }

  // What each operation of the calculator computes.
  function Computes(fpu: Fpu, operation: Operation, a: Float, b: Float): Outcome
    requires Finite(a) && Finite(b)
  {
    match operation
    case Add => Sum(fpu, a, b)
    case Subtract => Difference(fpu, a, b)
    case Multiply => RoundedProduct(fpu, a, b)
    case Divide => Quotient(fpu, a, b)
    case Power => Powered(fpu, a, b)
    case Sqrt => Root(fpu, a)
    case Percent => InRangeOnly(Hundredths(fpu, a, b))
  }

  function MeantBy(fpu: Fpu, operation: Operation, a: Float, b: Float): Outcome
    requires Finite(a) && Finite(b)
  {
    AsOutcome(Meaning(fpu, OperationName(operation), a, b))
  }

  lemma SumMeans(fpu: Fpu, a: Float, b: Float)
    requires Lawful(fpu) && Operand(fpu, a) && Operand(fpu, b)
    ensures MeantBy(fpu, Add, a, b) == Sum(fpu, a, b)
  {
  }

  lemma DifferenceMeans(fpu: Fpu, a: Float, b: Float)
    requires Lawful(fpu) && Operand(fpu, a) && Operand(fpu, b)
    ensures MeantBy(fpu, Subtract, a, b) == Difference(fpu, a, b)
  {
  }

  lemma ProductMeans(fpu: Fpu, a: Float, b: Float)
    requires Lawful(fpu) && Operand(fpu, a) && Operand(fpu, b)
    ensures MeantBy(fpu, Multiply, a, b) == RoundedProduct(fpu, a, b)
  {
  }

  lemma QuotientMeans(fpu: Fpu, a: Float, b: Float)
    requires Lawful(fpu) && Operand(fpu, a) && Operand(fpu, b)
    ensures MeantBy(fpu, Divide, a, b) == Quotient(fpu, a, b)
  {
  }

  lemma PowerMeans(fpu: Fpu, a: Float, b: Float)
    requires Lawful(fpu) && Operand(fpu, a) && Operand(fpu, b)
    ensures MeantBy(fpu, Power, a, b) == Powered(fpu, a, b)
    ensures MeantBy(fpu, Sqrt, a, b) == Root(fpu, a)
  {
  }

  lemma HundredthsRound(fpu: Fpu, a: Float, b: Float)
    requires Lawful(fpu) && Operand(fpu, a) && Operand(fpu, b)
    ensures Hundredths(fpu, a, b) ==
            if PercentOfProduct(fpu, a, b).Inf? then PercentAtOnce(fpu, a, b) else PercentOfProduct(fpu, a, b)
  {
    PercentOverflows(fpu, a, b);
  }

  lemma PercentMeans(fpu: Fpu, a: Float, b: Float)
    requires Lawful(fpu) && Operand(fpu, a) && Operand(fpu, b)
    ensures MeantBy(fpu, Percent, a, b) == InRangeOnly(Hundredths(fpu, a, b))
  {
    HundredthsRound(fpu, a, b);
    PercentOverflows(fpu, a, b);
  }

  lemma MeaningComputes(fpu: Fpu, operation: Operation, a: Float, b: Float)
    requires Lawful(fpu) && Operand(fpu, a) && Operand(fpu, b)
    ensures MeantBy(fpu, operation, a, b) == Computes(fpu, operation, a, b)
  {
    match operation
    case Add => SumMeans(fpu, a, b);
    case Subtract => DifferenceMeans(fpu, a, b);
    case Multiply => ProductMeans(fpu, a, b);
    case Divide => QuotientMeans(fpu, a, b);
    case Power => PowerMeans(fpu, a, b);
    case Sqrt => PowerMeans(fpu, a, b);
    case Percent => PercentMeans(fpu, a, b);
  }

  /** The service answers every request the calculator can send with what its
      operation computes: a number the calculator may hold, or one of three
      failures, none of them worth retrying. */
  lemma ServiceMeans(fpu: Fpu, r: Calc.Registry, request: CalculateRequest)
    requires Lawful(fpu) && Calc.Standard(r) && Sendable(fpu, request)
    ensures var outcome := Service(fpu, r)(request);
            && outcome == Computes(fpu, request.operation, request.a, request.b.GetOr(Zero(false)))
            && (outcome.Answer? ==> Sound(fpu, outcome.value))
            && (outcome.Failed? ==> CalculationFailure(outcome.failure) && !Transient(outcome.failure))
  {
    ServiceAnswers(fpu, r, request);
    MeantIsSound(fpu, request);
    MeaningComputes(fpu, request.operation, request.a, request.b.GetOr(Zero(false)));
    if Meant(fpu, request).Err? {
      CalculationFailuresStay(FailureFor(Meant(fpu, request).error));
    }
  }

  // --- the two of them -----------------------------------------------------------

  // A failure on the way: no connection, a deadline, or the service's own limits.
  predicate InTransit(outcome: Outcome) {
    outcome.Failed? && Transient(outcome.failure)
  }

  // Somebody is wired up to answer, recalled values are numbers the calculator
  // may hold, no entry in exponent form is edited, and promises settle with the
  // service's answer or fail in transit.
  predicate Attended(app: App, server: Server, s: Store, event: Event) {
    match event
    case KeyPressed(input) => s.wired && (s.pending || !EditsExponent(s.calcState, input))
    case Retry => s.wired
    case Recall(value) => Sound(app.js.fpu, value)
    case Deliver(index, outcome) =>
      index < |s.inFlight| ==> outcome == server(s.inFlight[index].request) || InTransit(outcome)
    case _ => true
  }

  ghost predicate AttendedRun(app: App, server: Server, events: seq<Event>) {
    events != [] ==>
      var front := events[..|events| - 1];
      AttendedRun(app, server, front) && Attended(app, server, Run(app, front), events[|events| - 1])
  }

  lemma AttendedIsOrderly(app: App, r: Calc.Registry, s: Store, event: Event)
    requires LawfulJs(app.js) && Calc.Standard(r) && AllSendable(app.js.fpu, s)
    requires Attended(app, Service(app.js.fpu, r), s, event)
    ensures Orderly(app, s, event)
  {
    if event.Deliver? && event.index < |s.inFlight| {
      ServiceMeans(app.js.fpu, r, s.inFlight[event.index].request);
    }
  }

  lemma {:induction false} AttendedRunIsOrderly(app: App, r: Calc.Registry, events: seq<Event>)
    requires LawfulJs(app.js) && Calc.Standard(r) && AttendedRun(app, Service(app.js.fpu, r), events)
    ensures OrderlyRun(app, events)
  {
    if events == [] {
    } else {
      var front := events[..|events| - 1];
      AttendedRunIsOrderly(app, r, front);
      RunIsHealthy(app, front);
      AttendedIsOrderly(app, r, Run(app, front), events[|events| - 1]);
    }
  }

  // The failures that can be on show.
  predicate Explained(failure: Failure) {
    CalculationFailure(failure) || Transient(failure)
  }

  // The store shows this failure, and unless it is being retried offers to retry
  // it exactly if it happened in transit.
  predicate ShowsError(app: App, s: Store, failure: Failure) {
    && s.calcState.error == Some(app.message(failure))
    && (s.pending || Describes(s.errorRequestId, s.canRetry, failure))
  }

  ghost predicate ExplainsErrors(app: App, s: Store) {
    && (s.calcState.error.Some? <==> s.calcState.phase.Error?)
    && (s.calcState.error.Some? ==> exists failure :: Explained(failure) && ShowsError(app, s, failure))
  }

  lemma SettlingExplains(app: App, s: Store, sent: nat, outcome: Outcome)
    requires ExplainsErrors(app, s)
    requires outcome.Failed? ==> Explained(outcome.failure)
    ensures ExplainsErrors(app, SettleWith(app, s, sent, outcome))
  {
    var s' := SettleWith(app, s, sent, outcome);
    if sent == s.ticket && outcome.Failed? {
      assert ShowsError(app, s', outcome.failure);
    }
  }

  // Taking a promise out of the air shows nothing.
  lemma TakingOutExplains(app: App, s: Store, index: nat)
    requires ExplainsErrors(app, s) && index < |s.inFlight|
    ensures ExplainsErrors(app, s.(inFlight := Without(s.inFlight, index)))
  {
    if s.calcState.error.Some? {
      var failure :| Explained(failure) && ShowsError(app, s, failure);
      assert ShowsError(app, s.(inFlight := Without(s.inFlight, index)), failure);
    }
  }

  lemma PressExplains(app: App, s: Store, input: Input)
    requires ExplainsErrors(app, s) && s.wired
    ensures ExplainsErrors(app, Handle(app, s, KeyPressed(input)))
  {
    if !s.pending {
      QuietKeyClearsError(app.js, s.calcState, input);
      var t := Press(app.js, s.calcState, input);
      assert t.effect.Some? ==> t.state.error.None?;
    }
  }

  lemma RetryExplains(app: App, s: Store)
    requires ExplainsErrors(app, s) && s.wired
    ensures ExplainsErrors(app, Handle(app, s, Retry))
  {
    if s.calcState.error.Some? {
      var failure :| Explained(failure) && ShowsError(app, s, failure);
      assert ShowsError(app, Handle(app, s, Retry), failure);
    }
  }

  lemma EventExplains(app: App, r: Calc.Registry, s: Store, event: Event)
    requires LawfulJs(app.js) && Calc.Standard(r) && AllSendable(app.js.fpu, s)
    requires Attended(app, Service(app.js.fpu, r), s, event) && ExplainsErrors(app, s)
    ensures ExplainsErrors(app, Handle(app, s, event))
  {
    match event
    case KeyPressed(input) => PressExplains(app, s, input);
    case Retry => RetryExplains(app, s);
    case SetEvaluator(wired) =>
      if failure :| Explained(failure) && ShowsError(app, s, failure) {
        assert ShowsError(app, s.(wired := wired), failure);
      }
    case Deliver(index, outcome) =>
      if index < |s.inFlight| {
        ServiceMeans(app.js.fpu, r, s.inFlight[index].request);
        TakingOutExplains(app, s, index);
        SettlingExplains(app, s.(inFlight := Without(s.inFlight, index)), s.inFlight[index].ticket, outcome);
      }
    case _ =>
  }

  lemma {:induction false} AttendedRunExplains(app: App, r: Calc.Registry, events: seq<Event>)
    requires LawfulJs(app.js) && Calc.Standard(r) && AttendedRun(app, Service(app.js.fpu, r), events)
    ensures ExplainsErrors(app, Run(app, events))
  {
    if events == [] {
    } else {
      var front := events[..|events| - 1];
      AttendedRunExplains(app, r, front);
      AttendedRunIsOrderly(app, r, front);
      RunIsHealthy(app, front);
      EventExplains(app, r, Run(app, front), events[|events| - 1]);
    }
  }

  // Event j is a failure in transit.
  predicate TransitAt(events: seq<Event>, j: int) {
    0 <= j < |events| && events[j].Deliver? && InTransit(events[j].outcome)
  }

  /** The calculator with the service behind it, in every attended run of keys,
      AC, retries, recalls, and promises that settle in any order with the
      service's answer or fail in transit: all requests pass validation, every
      number held is finite and not a negative zero, the only errors are division
      by zero, a result that is not real, one out of range and failures in
      transit, and a retry is offered for the last of these only. */
  lemma CalculatorAndService(app: App, r: Calc.Registry, events: seq<Event>)
    requires LawfulJs(app.js) && Calc.Standard(r) && AttendedRun(app, Service(app.js.fpu, r), events)
    ensures var s := Run(app, events);
            && (s.lastSent.Some? ==> HttpTheorems.Acceptable(OnWire(s.lastSent.value)))
            && (forall i :: 0 <= i < |s.inFlight| ==> HttpTheorems.Acceptable(OnWire(s.inFlight[i].request)))
            && (s.calcState.a.Some? ==> Sound(app.js.fpu, s.calcState.a.value))
            && ExplainsErrors(app, s)
            && (s.canRetry ==> exists j :: TransitAt(events, j))
  {
    AttendedRunIsOrderly(app, r, events);
    RunIsHealthy(app, events);
    EveryRequestIsAccepted(app, events);
    AttendedRunExplains(app, r, events);
    RetryNeedsTransit(app, events);
  }

  // A retry is only ever offered after a failure in transit.
  lemma {:induction false} RetryNeedsTransit(app: App, events: seq<Event>)
    ensures Run(app, events).canRetry ==> exists j :: TransitAt(events, j)
  {
    if events == [] {
    } else {
      var front, last := events[..|events| - 1], |events| - 1;
      RetryNeedsTransit(app, front);
      if j :| TransitAt(front, j) {
        assert TransitAt(events, j);
      }
      RetryIsSet(app, Run(app, front), events[last]);
      assert events[last].Deliver? && InTransit(events[last].outcome) ==> TransitAt(events, last);
    }
  }

  lemma RetryIsSet(app: App, s: Store, event: Event)
    ensures Handle(app, s, event).canRetry ==> s.canRetry || (event.Deliver? && InTransit(event.outcome))
  {
  }

  // --- what an expression means ----------------------------------------------------

  lemma TypedIsSound(app: App, operand: seq<Input>)
    requires LawfulJs(app.js) && IsOperand(operand)
    ensures Sound(app.js.fpu, ValueOf(app, operand))
  {
    TypedIsEntry(operand);
    ParseIsTotal(app.js.fpu, app.js.other, Typed(operand));
  }

  lemma ComputesSound(fpu: Fpu, operator: BinaryOperation, a: Float, b: Float)
    requires Lawful(fpu) && Sound(fpu, a) && Sound(fpu, b)
    ensures var outcome := Computes(fpu, operator, a, b); outcome.Answer? ==> Sound(fpu, outcome.value)
  {
    MeantIsSound(fpu, CalculateRequest(operator, a, Some(b)));
    MeaningComputes(fpu, operator, a, b);
  }

  // One operation of an expression, by what it computes.
  function MeantTerm(app: App, left: Float, term: Term): Outcome
    requires IsOperand(term.operand) && Sound(app.js.fpu, left) && Sound(app.js.fpu, ValueOf(app, term.operand))
  {
    Computes(app.js.fpu, term.operator, left, ValueOf(app, term.operand))
  }

  // n1 op1 n2 op2 ... from the left, to the first operation that has no answer.
  ghost function MeantFold(app: App, first: Float, terms: seq<Term>): (outcome: Outcome)
    requires LawfulJs(app.js) && AreTerms(terms) && Sound(app.js.fpu, first)
    ensures outcome.Answer? ==> Sound(app.js.fpu, outcome.value)
  {
    if terms == [] then Answer(first)
    else
      var left, last := MeantFold(app, first, terms[..|terms| - 1]), terms[|terms| - 1];
      if left.Failed? then left
      else
        TypedIsSound(app, last.operand);
        ComputesSound(app.js.fpu, last.operator, left.value, ValueOf(app, last.operand));
        MeantTerm(app, left.value, last)
  }

  // The same, with a fresh start behind every operation without an answer.
  ghost function MeantResumed(app: App, first: Float, terms: seq<Term>): (outcome: Outcome)
    requires LawfulJs(app.js) && AreTerms(terms) && Sound(app.js.fpu, first)
    ensures outcome.Answer? ==> Sound(app.js.fpu, outcome.value)
  {
    if terms == [] then Answer(first)
    else
      var left, last := MeantResumed(app, first, terms[..|terms| - 1]), terms[|terms| - 1];
      TypedIsSound(app, last.operand);
      if left.Failed? then Answer(ValueOf(app, last.operand))
      else
        ComputesSound(app.js.fpu, last.operator, left.value, ValueOf(app, last.operand));
        MeantTerm(app, left.value, last)
  }

  lemma {:induction false} ResumedMeans(app: App, r: Calc.Registry, first: Float, terms: seq<Term>)
    requires LawfulJs(app.js) && Calc.Standard(r) && AreTerms(terms) && Sound(app.js.fpu, first)
    ensures Resumed(app, Service(app.js.fpu, r), first, terms) == MeantResumed(app, first, terms)
  {
    if terms == [] {
    } else {
      var front, last := terms[..|terms| - 1], terms[|terms| - 1];
      ResumedMeans(app, r, first, front);
      var left := MeantResumed(app, first, front);
      if left.Answer? {
        TypedIsSound(app, last.operand);
        ServiceMeans(app.js.fpu, r, CalculateRequest(last.operator, left.value, Some(ValueOf(app, last.operand))));
      }
    }
  }

  lemma {:induction false} MeantResumedIsFold(app: App, first: Float, terms: seq<Term>)
    requires LawfulJs(app.js) && AreTerms(terms) && Sound(app.js.fpu, first)
    requires terms != [] ==> MeantFold(app, first, terms[..|terms| - 1]).Answer?
    ensures MeantResumed(app, first, terms) == MeantFold(app, first, terms)
  {
    if terms == [] {
    } else {
      MeantResumedIsFold(app, first, terms[..|terms| - 1]);
    }
  }

  /** In every run, whatever the order in which promises settle, in which the
      actions accepted since AC are the keys `n1 op1 n2 op2 ... nk =`, the store
      with the service behind it shows, once nothing is pending, the left fold of
      what the operations compute, with a fresh start behind each that has no
      answer; if only the last one may have none, that is simply the left fold. */
  lemma {:induction false} ExpressionMeans(app: App, r: Calc.Registry, events: seq<Event>, first: seq<Input>, terms: seq<Term>)
    requires LawfulJs(app.js) && Calc.Standard(r) && IsOperand(first) && AreTerms(terms)
    requires Honest(app, Service(app.js.fpu, r), events) && !Run(app, events).pending
    requires ActionsIn(History(app, events)) == KeyActions(KeysSoFar(first, terms) + [Equals])
    ensures Sound(app.js.fpu, ValueOf(app, first))
    ensures Shown(app, Run(app, events).calcState, MeantResumed(app, ValueOf(app, first), terms))
    ensures (terms != [] ==> MeantFold(app, ValueOf(app, first), terms[..|terms| - 1]).Answer?) ==>
              Shown(app, Run(app, events).calcState, MeantFold(app, ValueOf(app, first), terms))
  {
    TypedIsSound(app, first);
    StoreShowsExpression(app, Service(app.js.fpu, r), events, first, terms);
    ResumedMeans(app, r, ValueOf(app, first), terms);
    if terms != [] ==> MeantFold(app, ValueOf(app, first), terms[..|terms| - 1]).Answer? {
      MeantResumedIsFold(app, ValueOf(app, first), terms);
    }
  }

  // --- what the square root and per cent keys mean ---------------------------------

  lemma HundredthOfOne(fpu: Fpu, x: Float)
    requires Lawful(fpu) && Operand(fpu, x)
    ensures Hundredths(fpu, x, Num(1.0)) == fpu.round(RealOf(x) / 100.0) && Finite(fpu.round(RealOf(x) / 100.0))
  {
    ProductIsExact(x, Num(1.0));
    ShareIsSmaller(fpu, x);
  }

  // x's root, or its hundredth.
  function AloneMeans(fpu: Fpu, key: UnaryKey, x: Float): Outcome
    requires Finite(x)
  {
    if key == Sqrt then Root(fpu, x) else Answer(DropNegativeZero(fpu.round(RealOf(x) / 100.0)))
  }

  lemma AloneComputes(fpu: Fpu, key: UnaryKey, x: Float)
    requires Lawful(fpu) && Sound(fpu, x)
    ensures Computes(fpu, key, x, if key == Sqrt then Zero(false) else Num(1.0)) == AloneMeans(fpu, key, x)
  {
    HundredthOfOne(fpu, x);
  }

  lemma UnaryOnlyIsSendable(fpu: Fpu, key: UnaryKey, x: Float)
    requires Lawful(fpu) && Sound(fpu, x)
    ensures Sendable(fpu, UnaryOnly(key, x))
  {
    ZeroAndOneAreSound(fpu);
  }

  lemma UnaryOnlyMeans(fpu: Fpu, r: Calc.Registry, key: UnaryKey, x: Float)
    requires Lawful(fpu) && Calc.Standard(r) && Sound(fpu, x)
    ensures Service(fpu, r)(UnaryOnly(key, x)) == AloneMeans(fpu, key, x)
  {
    UnaryOnlyIsSendable(fpu, key, x);
    ServiceMeans(fpu, r, UnaryOnly(key, x));
    AloneComputes(fpu, key, x);
  }

  /** In every run in which the actions accepted since AC are `n1 sqrt` or `n1 %`,
      the store with the service behind it shows the root of n1, or n1 / 100. */
  lemma UnaryMeans(app: App, r: Calc.Registry, events: seq<Event>, first: seq<Input>, key: UnaryKey)
    requires LawfulJs(app.js) && Calc.Standard(r) && IsOperand(first)
    requires Honest(app, Service(app.js.fpu, r), events) && !Run(app, events).pending
    requires ActionsIn(History(app, events)) == KeyActions(first + [Unary(key)])
    ensures Sound(app.js.fpu, ValueOf(app, first))
    ensures Shown(app, Run(app, events).calcState, AloneMeans(app.js.fpu, key, ValueOf(app, first)))
  {
    var server := Service(app.js.fpu, r);
    TypedIsSound(app, first);
    StoreComputesActions(app, server, events);
    PerformedKeys(app, server, first + [Unary(key)]);
    UnaryAlone(app, server, first, key);
    UnaryOnlyMeans(app.js.fpu, r, key, ValueOf(app, first));
  }

  // y's root, or y per cent of x.
  function EntryMeans(fpu: Fpu, key: UnaryKey, x: Float, y: Float): Outcome
    requires Finite(x) && Finite(y)
  {
    if key == Sqrt then Root(fpu, y) else InRangeOnly(Hundredths(fpu, x, y))
  }

  lemma UnaryOnSecondMeans(fpu: Fpu, r: Calc.Registry, key: UnaryKey, x: Float, y: Float)
    requires Lawful(fpu) && Calc.Standard(r) && Sound(fpu, x) && Sound(fpu, y)
    ensures var outcome := Service(fpu, r)(UnaryOnSecond(key, x, y));
            outcome == EntryMeans(fpu, key, x, y) && (outcome.Answer? ==> Sound(fpu, outcome.value))
  {
    ServiceMeans(fpu, r, UnaryOnSecond(key, x, y));
  }

  /** In every run in which they are `n1 op n2 sqrt =` or `n1 op n2 % =`, it shows
      n1 op the root of n2, or n1 op n2 per cent of n1, provided that has a value. */
  lemma UnaryInExpressionMeans(app: App, r: Calc.Registry, events: seq<Event>, first: seq<Input>, term: Term, key: UnaryKey)
    requires LawfulJs(app.js) && Calc.Standard(r) && IsOperand(first) && IsOperand(term.operand)
    requires Honest(app, Service(app.js.fpu, r), events) && !Run(app, events).pending
    requires ActionsIn(History(app, events)) == KeyActions((KeysSoFar(first, [term]) + [Unary(key)]) + [Equals])
    ensures Sound(app.js.fpu, ValueOf(app, first)) && Sound(app.js.fpu, ValueOf(app, term.operand))
    ensures var x, y := ValueOf(app, first), EntryMeans(app.js.fpu, key, ValueOf(app, first), ValueOf(app, term.operand));
            y.Answer? ==>
              && Sound(app.js.fpu, y.value)
              && Shown(app, Run(app, events).calcState, Computes(app.js.fpu, term.operator, x, y.value))
  {
    var server, x, y := Service(app.js.fpu, r), ValueOf(app, first), ValueOf(app, term.operand);
    TypedIsSound(app, first);
    TypedIsSound(app, term.operand);
    UnaryOnSecondMeans(app.js.fpu, r, key, x, y);
    var entry := EntryMeans(app.js.fpu, key, x, y);
    if entry.Answer? {
      StoreComputesActions(app, server, events);
      PerformedKeys(app, server, (KeysSoFar(first, [term]) + [Unary(key)]) + [Equals]);
      UnaryReplacesEntry(app, server, first, term, key);
      ServiceMeans(app.js.fpu, r, CalculateRequest(term.operator, x, Some(entry.value)));
    }
  }

  // --- whole numbers -----------------------------------------------------------------

  function WholeNumber(n: int): Float {
    if n == 0 then Zero(false) else Num(n as real)
  }

  // The keys for a whole number.
  function NumberKeys(n: nat): seq<Input> {
    Keystrokes(Numeral(n))
  }

  lemma {:induction false} NumeralIsShort(n: nat, k: nat)
    requires k > 0 && n < Pow10(k)
    ensures |Numeral(n)| <= k
  {
    if n >= 10 {
      NumeralIsShort(n / 10, k - 1);
    }
  }

  lemma Pow16()
    ensures Pow10(16) == 10_000_000_000_000_000
  {
    Pow10Adds(8, 8);
    Pow10Adds(4, 4);
    assert Pow10(4) == 10_000;
  }

  lemma NumeralIsWhole(s: string)
    requires IsNumeral(s)
    ensures IsDecimal(s) && !Signed(s) && IsEntry(s) && Magnitude(s) == Value(s) as real && CountDigits(s) == |s|
  {
    CountOfDigits(s);
    NoPoint(s);
    WholeMagnitude(s);
  }

  lemma NoPoint(s: string)
    requires AllDigits(s)
    ensures Point(s) == |s| && IntegerPart(s) == s && FractionPart(s) == ""
  {
  }

  lemma WholeMagnitude(s: string)
    requires IsUnsignedDecimal(s) && IntegerPart(s) == s && FractionPart(s) == ""
    ensures Magnitude(s) == Value(s) as real
  {
    assert Value("") == 0 && Pow10(0) == 1;
  }

  lemma NumberIsTyped(app: App, n: nat)
    requires LawfulJs(app.js) && n as real <= EXACT_INTEGER_BOUND
    ensures IsOperand(NumberKeys(n)) && ValueOf(app, NumberKeys(n)) == WholeNumber(n)
  {
    var s := Numeral(n);
    ValueOfNumeral(n);
    Pow16();
    NumeralIsShort(n, 16);
    NumeralIsWhole(s);
    EntryCanBeTyped(s);
    WholeNumbersAreExact(app.js.fpu, n);
  }

  lemma WholeReal(n: int)
    ensures Finite(WholeNumber(n)) && RealOf(WholeNumber(n)) == n as real
  {
  }

  lemma WholeRounds(fpu: Fpu, n: int)
    requires Lawful(fpu) && -EXACT_INTEGER_BOUND <= n as real <= EXACT_INTEGER_BOUND
    ensures InRangeOnly(fpu.round(n as real)) == Answer(WholeNumber(n))
  {
    WholeNumbersAreExact(fpu, n);
  }

  lemma WholeSums(fpu: Fpu, m: int, n: int)
    requires Lawful(fpu) && -EXACT_INTEGER_BOUND <= (m + n) as real <= EXACT_INTEGER_BOUND
    ensures Finite(WholeNumber(m)) && Finite(WholeNumber(n))
    ensures Sum(fpu, WholeNumber(m), WholeNumber(n)) == Answer(WholeNumber(m + n))
  {
    WholeReal(m);
    WholeReal(n);
    WholeRounds(fpu, m + n);
  }

  lemma WholeDifferences(fpu: Fpu, m: int, n: int)
    requires Lawful(fpu) && -EXACT_INTEGER_BOUND <= (m - n) as real <= EXACT_INTEGER_BOUND
    ensures Finite(WholeNumber(m)) && Finite(WholeNumber(n))
    ensures Difference(fpu, WholeNumber(m), WholeNumber(n)) == Answer(WholeNumber(m - n))
  {
    WholeReal(m);
    WholeReal(n);
    WholeRounds(fpu, m - n);
  }

  lemma ProductOfWholes(m: int, n: int)
    ensures Finite(WholeNumber(m)) && Finite(WholeNumber(n))
    ensures Product(WholeNumber(m), WholeNumber(n)) == (m * n) as real
  {
    ProductIsExact(WholeNumber(m), WholeNumber(n));
    TimesAsReals(m, n);
  }

  lemma TimesAsReals(m: int, n: int)
    ensures m as real * n as real == (m * n) as real
  {
  }

  lemma WholeProducts(fpu: Fpu, m: int, n: int, mn: int)
    requires Lawful(fpu) && mn == m * n && -EXACT_INTEGER_BOUND <= mn as real <= EXACT_INTEGER_BOUND
    ensures Finite(WholeNumber(m)) && Finite(WholeNumber(n))
    ensures RoundedProduct(fpu, WholeNumber(m), WholeNumber(n)) == Answer(WholeNumber(mn))
  {
    ProductOfWholes(m, n);
    WholeRounds(fpu, mn);
  }

  // m op n, on whole numbers.
  ghost predicate Exactly(operator: BinaryOperation, m: nat, n: nat, result: int) {
    && -EXACT_INTEGER_BOUND <= result as real <= EXACT_INTEGER_BOUND
    && match operator
       case Add => result == m + n
       case Subtract => result == m - n
       case Multiply => result == m * n
       case _ => false
  }

  lemma WholesCompute(fpu: Fpu, m: nat, operator: BinaryOperation, n: nat, result: int)
    requires Lawful(fpu) && Exactly(operator, m, n, result)
    ensures Finite(WholeNumber(m)) && Finite(WholeNumber(n))
    ensures Computes(fpu, operator, WholeNumber(m), WholeNumber(n)) == Answer(WholeNumber(result))
  {
    if operator == Add {
      WholeSums(fpu, m, n);
    } else if operator == Subtract {
      WholeDifferences(fpu, m, n);
    } else {
      WholeProducts(fpu, m, n, result);
    }
  }

  lemma OneTermFold(app: App, first: Float, term: Term)
    requires LawfulJs(app.js) && IsOperand(term.operand) && Sound(app.js.fpu, first) && Finite(ValueOf(app, term.operand))
    ensures AreTerms([term]) && MeantFold(app, first, [term][..0]) == Answer(first)
    ensures MeantFold(app, first, [term]) == Computes(app.js.fpu, term.operator, first, ValueOf(app, term.operand))
  {
    assert [term][..0] == [];
    assert [term][..|[term]| - 1] == [];
  }

  /** On whole numbers up to 2^53 the calculator is exact: typing `m op n =` in
      any asynchronous run shows the sum, the difference or the product, as long
      as that is itself at most 2^53. */
  lemma {:induction false} WholeNumbersCompute(app: App, r: Calc.Registry, events: seq<Event>, m: nat, operator: BinaryOperation,
                                               n: nat, result: int)
    requires LawfulJs(app.js) && Calc.Standard(r) && m as real <= EXACT_INTEGER_BOUND && n as real <= EXACT_INTEGER_BOUND
    requires Exactly(operator, m, n, result)
    requires Honest(app, Service(app.js.fpu, r), events) && !Run(app, events).pending
    requires ActionsIn(History(app, events)) ==
             KeyActions(KeysSoFar(NumberKeys(m), [Term(operator, NumberKeys(n))]) + [Equals])
    ensures Shown(app, Run(app, events).calcState, Answer(WholeNumber(result)))
  {
    var first, term := NumberKeys(m), Term(operator, NumberKeys(n));
    NumberIsTyped(app, m);
    NumberIsTyped(app, n);
    WholesCompute(app.js.fpu, m, operator, n, result);
    TypedIsSound(app, first);
    OneTermFold(app, WholeNumber(m), term);
    ExpressionMeans(app, r, events, first, [term]);
  }
}
