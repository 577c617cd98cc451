/** How every decoded request is classified, and what is counted. */
module HttpTheorems {
  import Calc
  import opened CalcTheorems
  import opened Float64
  import opened HttpApi
  import opened Options

  // --- validation --------------------------------------------------------------

  predicate BadOperation(req: CalculateRequest) {
    req.operation == ""
  }

  predicate BadA(req: CalculateRequest) {
    req.a.None? || !Finite(req.a.value)
  }

  predicate BadB(req: CalculateRequest) {
    if req.b.Some? then !Finite(req.b.value) else req.operation in BINARY
  }

  predicate Malformed(req: CalculateRequest) {
    BadOperation(req) || BadA(req) || BadB(req)
  }

  // The operation is known, and its operands are there, finite, and no more
  // than it takes.
  predicate Acceptable(req: CalculateRequest) {
    && Known(req.operation)
    && req.a.Some? && Finite(req.a.value)
    && TakesOperands(req.operation, req.b) && (req.b.Some? ==> Finite(req.b.value))
  }

  function Listed(bad: bool, field: string): seq<string> {
    if bad then [field] else []
  }

  lemma FieldsOfConcat(x: seq<FieldError>, y: seq<FieldError>)
    ensures FieldsOf(x + y) == FieldsOf(x) + FieldsOf(y)
  {
  }

  /** A validation problem lists each bad field once, in order. */
  lemma BadFieldsListed(r: Calc.Registry, req: CalculateRequest)
    requires Calc.Standard(r)
    ensures FieldsOf(FieldErrors(r, req)) ==
            Listed(BadOperation(req), "operation") + Listed(BadA(req), "a") + Listed(BadB(req), "b")
    ensures FieldErrors(r, req) != [] <==> Malformed(req)
  {
    LookupKnows(r, req.operation);
    var spec := Calc.Lookup(r, req.operation);
    FieldsOfConcat(OperationErrors(req) + AErrors(req), BErrors(spec, req));
    FieldsOfConcat(OperationErrors(req), AErrors(req));
    assert |FieldsOf(FieldErrors(r, req))| == |FieldErrors(r, req)|;
  }

  lemma MalformedOrNot(req: CalculateRequest)
    ensures Acceptable(req) <==> !Malformed(req) && Known(req.operation) && !(req.operation == "sqrt" && req.b.Some?)
  {
  }

  function WhyInvalid(req: CalculateRequest): Code {
    if Malformed(req) then ValidationFailed
    else if !Known(req.operation) then UnsupportedOperation
    else UnexpectedOperand
  }

  /** Validation accepts exactly the requests an operation can be carried out
      for, and says what is wrong with the others. */
  lemma ValidatesExactly(r: Calc.Registry, req: CalculateRequest)
    requires Calc.Standard(r)
    ensures var v := Validated(r, req);
            && (v.Valid? <==> Acceptable(req))
            && (v.Invalid? ==> v.problem.code == WhyInvalid(req))
            && (v.Invalid? ==> v.problem.status == if Malformed(req) then 400 else 422)
  {
    BadFieldsListed(r, req);
    LookupKnows(r, req.operation);
    MalformedOrNot(req);
  }

  // --- classification ------------------------------------------------------------

  // The numbers in a request are ones a binary64 can hold.
  predicate Holds(fpu: Fpu, req: CalculateRequest) {
    (req.a.Some? ==> Representable(fpu, req.a.value)) && (req.b.Some? ==> Representable(fpu, req.b.value))
  }

  // The code a request is refused with, or none.
  function Classified(fpu: Fpu, req: CalculateRequest): Option<Code> {
    if Malformed(req) then Some(ValidationFailed)
    else if !Known(req.operation) then Some(UnsupportedOperation)
    else if req.operation == "sqrt" && req.b.Some? then Some(UnexpectedOperand)
    else
      var a, b := req.a.value, req.b.GetOr(Zero(false));
      if DividesByZero(req.operation, a, b) then Some(DivisionByZero)
      else if NotReal(req.operation, a, b) then Some(DomainError)
      else if Overflows(fpu, req.operation, a, b) then Some(ResultNotFinite)
      else None
  }

  lemma AcceptedIsEvaluated(fpu: Fpu, r: Calc.Registry, req: CalculateRequest)
    requires Lawful(fpu) && Calc.Standard(r) && Holds(fpu, req) && Acceptable(req)
    ensures Attempted(fpu, r, Body(req)) ==
            var res := Meaning(fpu, req.operation, req.a.value, req.b.GetOr(Zero(false)));
            Attempt(req.operation, AnswerFor(r, req, res))
  {
    ValidatesExactly(r, req);
    EvaluateMeans(fpu, r, req.operation, req.a.value, req.b);
  }

  function CodeOf(answer: Answer): Option<Code> {
    if answer.OK? then None else Some(answer.problem.code)
  }

  // The code for an evaluation's outcome.
  function CodeFor(res: Calc.Result): Option<Code> {
    match res
    case Ok(_) => None
    case Err(DivisionByZero) => Some(DivisionByZero)
    case Err(Domain) => Some(DomainError)
    case Err(NotFinite) => Some(ResultNotFinite)
    case Err(UnknownOperation) => Some(UnsupportedOperation)
    case Err(Arity) => Some(Internal)
  }

  lemma MeaningIsClassified(fpu: Fpu, req: CalculateRequest)
    requires Lawful(fpu) && Holds(fpu, req) && Acceptable(req)
    ensures var res := Meaning(fpu, req.operation, req.a.value, req.b.GetOr(Zero(false)));
            && CodeFor(res) == Classified(fpu, req)
            && (res.Ok? ==> AnswersRight(fpu, req, CalculateResponse(req.operation, req.a.value, req.b, res.value)))
  {
    MalformedOrNot(req);
    if Classified(fpu, req).None? {
      RoundedInRange(fpu, req.operation, req.a.value, req.b.GetOr(Zero(false)));
    }
  }

  function AnswerFor(r: Calc.Registry, req: CalculateRequest, res: Calc.Result): Answer
    requires req.a.Some?
  {
    if res.Err? then Refused(MapError(r, Sentinel(req.operation, res.error)))
    else OK(CalculateResponse(req.operation, req.a.value, req.b, res.value))
  }

  // Everything the client is promised about an answer.
  predicate IsDescribed(fpu: Fpu, req: CalculateRequest, answer: Answer, code: Option<Code>)
    requires Acceptable(req)
  {
    && CodeOf(answer) == code
    && (answer.Refused? ==> answer.problem.status == 422 && answer.problem.code != Internal)
    && (answer.OK? ==> AnswersRight(fpu, req, answer.response))
  }

  // Everything that makes an answer right, about an evaluation `res` of which
  // nothing else is known.
  ghost predicate Evaluated(fpu: Fpu, r: Calc.Registry, req: CalculateRequest, res: Calc.Result)
    requires Calc.Indexed(r) && Acceptable(req)
  {
    && Attempted(fpu, r, Body(req)) == Attempt(req.operation, AnswerFor(r, req, res))
    && CodeFor(res) == Classified(fpu, req)
    && (res.Ok? ==> AnswersRight(fpu, req, CalculateResponse(req.operation, req.a.value, req.b, res.value)))
  }

  lemma AcceptedHasResult(fpu: Fpu, r: Calc.Registry, req: CalculateRequest)
    requires Lawful(fpu) && Calc.Standard(r) && Holds(fpu, req) && Acceptable(req)
    ensures exists res :: Evaluated(fpu, r, req, res)
  {
    var res := Meaning(fpu, req.operation, req.a.value, req.b.GetOr(Zero(false)));
    AcceptedIsEvaluated(fpu, r, req);
    MeaningIsClassified(fpu, req);
    assert Evaluated(fpu, r, req, res);
  }

  lemma ResultIsDescribed(fpu: Fpu, r: Calc.Registry, req: CalculateRequest, res: Calc.Result)
    requires Calc.Indexed(r) && Acceptable(req) && Evaluated(fpu, r, req, res)
    ensures IsDescribed(fpu, req, Attempted(fpu, r, Body(req)).answer, Classified(fpu, req))
  {
    MalformedOrNot(req);
    assert CodeFor(res) != Some(Internal);
  }

  lemma AcceptedIsClassified(fpu: Fpu, r: Calc.Registry, req: CalculateRequest)
    requires Lawful(fpu) && Calc.Standard(r) && Holds(fpu, req) && Acceptable(req)
    ensures IsDescribed(fpu, req, Attempted(fpu, r, Body(req)).answer, Classified(fpu, req))
  {
    AcceptedHasResult(fpu, r, req);
    var res :| Evaluated(fpu, r, req, res);
    ResultIsDescribed(fpu, r, req, res);
  }

  /** Every decoded request gets the one code that describes it, with status 400
      or 422 and never as an internal error, or else its result: the meaning of
      the operation, finite and never a negative zero. */
  lemma ClassifiesEveryRequest(fpu: Fpu, r: Calc.Registry, req: CalculateRequest)
    requires Lawful(fpu) && Calc.Standard(r) && Holds(fpu, req)
    ensures var answer := Attempted(fpu, r, Body(req)).answer;
            && CodeOf(answer) == Classified(fpu, req)
            && (answer.Refused? ==> answer.problem.status in {400, 422} && answer.problem.code != Internal)
            && (answer.OK? ==> Acceptable(req) && AnswersRight(fpu, req, answer.response))
  {
    MalformedOrNot(req);
    if Acceptable(req) {
      AcceptedIsClassified(fpu, r, req);
    } else {
      ValidatesExactly(r, req);
    }
  }

  predicate AnswersRight(fpu: Fpu, req: CalculateRequest, response: CalculateResponse)
    requires Acceptable(req)
  {
    var a, b := req.a.value, req.b.GetOr(Zero(false));
    && response.operation == req.operation && response.a == a && response.b == req.b
    && !DividesByZero(req.operation, a, b)
    && response.result == DropNegativeZero(Rounded(fpu, req.operation, a, b))
    && Operand(fpu, response.result) && response.result != Zero(true)
  }

  // The answer to a calculation that failed, with the field it blames.
  predicate BlamesDivisor(operation: string, answer: Answer, code: Option<Code>) {
    && answer.Refused?
    && answer.problem.errors ==
       (if operation == "divide" && code == Some(DivisionByZero) then [FieldError("b", MustBeNonZero)] else [])
    && answer.problem.detail ==
       (if code == Some(DomainError) then NoRealResult(operation)
        else if code == Some(ResultNotFinite) then OutOfRange(operation)
        else if operation == "divide" then NonZeroNeededFor(operation)
        else NoQuotient(operation))
  }

  lemma ErrorBlames(r: Calc.Registry, req: CalculateRequest, res: Calc.Result)
    requires req.a.Some? && CodeFor(res) in {Some(DivisionByZero), Some(DomainError), Some(ResultNotFinite)}
    ensures BlamesDivisor(req.operation, AnswerFor(r, req, res), CodeFor(res))
  {
  }

  /** The field that is wrong is named when it is the client's to mend: a zero
      divisor is, a zero raised to a negative power is not. */
  lemma DivisorIsNamed(fpu: Fpu, r: Calc.Registry, req: CalculateRequest)
    requires Lawful(fpu) && Calc.Standard(r) && Holds(fpu, req)
    requires Classified(fpu, req) in {Some(DivisionByZero), Some(DomainError), Some(ResultNotFinite)}
    ensures BlamesDivisor(req.operation, Attempted(fpu, r, Body(req)).answer, Classified(fpu, req))
  {
    MalformedOrNot(req);
    AcceptedIsEvaluated(fpu, r, req);
    MeaningIsClassified(fpu, req);
    ErrorBlames(r, req, Meaning(fpu, req.operation, req.a.value, req.b.GetOr(Zero(false))));
  }

  // --- what a refusal says -------------------------------------------------------

  // The operations, as a client would have to spell them.
  const OPERATIONS: seq<string> := ["add", "subtract", "multiply", "divide", "power", "sqrt", "percent"]

  // The problem for a request that is not acceptable.
  ghost predicate Explains(req: CalculateRequest, p: Problem)
    requires !Acceptable(req)
  {
    if Malformed(req) then
      && p.code == ValidationFailed && p.status == 400
      && FieldsOf(p.errors) ==
         Listed(BadOperation(req), "operation") + Listed(BadA(req), "a") + Listed(BadB(req), "b")
      && p.errors == (if BadOperation(req) then [FieldError("operation", IsRequired)] else [])
                     + (if BadA(req) then [FieldError("a", if req.a.None? then IsRequired else MustBeFinite)] else [])
                     + MissingOrBadB(req)
      && p.detail == BadFields(FieldsOf(p.errors))
    else if !Known(req.operation) then
      p == Problem(UnsupportedOperation, 422, NotSupported(req.operation),
                   [FieldError("operation", MustBeOneOf(OPERATIONS))])
    else
      p == Problem(UnexpectedOperand, 422, TakesOneOperand("sqrt"), [FieldError("b", MustBeOmittedFor("sqrt"))])
  }

  function MissingOrBadB(req: CalculateRequest): seq<FieldError> {
    if !BadB(req) then []
    else [FieldError("b", if req.b.Some? then MustBeFinite else IsRequiredFor(req.operation))]
  }

  lemma BErrorsMean(r: Calc.Registry, req: CalculateRequest)
    requires Calc.Standard(r)
    ensures BErrors(Calc.Lookup(r, req.operation), req) == MissingOrBadB(req)
  {
    LookupKnows(r, req.operation);
  }

  lemma NamesOfOperations(r: Calc.Registry)
    requires Calc.Standard(r)
    ensures NamesOf(r.specs) == OPERATIONS
  {
  }

  lemma InvalidIsExplained(r: Calc.Registry, req: CalculateRequest)
    requires Calc.Standard(r) && !Acceptable(req)
    ensures Validated(r, req).Invalid? && Explains(req, Validated(r, req).problem)
  {
    ValidatesExactly(r, req);
    BadFieldsListed(r, req);
    BErrorsMean(r, req);
    NamesOfOperations(r);
    LookupKnows(r, req.operation);
  }

  /** The answer to a request that is not acceptable says what is wrong with it:
      each bad field once and in order, or the operations there are, or the
      operand that is too much. */
  lemma RefusalsExplain(fpu: Fpu, r: Calc.Registry, req: CalculateRequest)
    requires Calc.Standard(r) && !Acceptable(req)
    ensures var answer := Attempted(fpu, r, Body(req)).answer;
            answer.Refused? && Explains(req, answer.problem)
  {
    InvalidIsExplained(r, req);
  }

  /** A body that could not be decoded is answered with the problem decoding gave. */
  lemma UndecodableIsReported(fpu: Fpu, r: Calc.Registry, problem: Problem)
    requires Calc.Standard(r)
    ensures Attempted(fpu, r, Undecodable(problem)).answer == Refused(problem)
    ensures Series(Attempted(fpu, r, Undecodable(problem))) == ("unknown", Name(problem.code))
  {
  }

  // --- counting ------------------------------------------------------------------

  const LABELS: set<string> := BINARY + {"sqrt", UNKNOWN_OPERATION}

  const OUTCOMES: set<string> := (set code: Code :: Name(code)) + {OUTCOME_OK}

  // What a handler has counted after these requests.
  function Traffic(fpu: Fpu, r: Calc.Registry, requests: seq<Decoded>): Counters
    requires Calc.Indexed(r)
  {
    if requests == [] then map[]
    else Counted(Traffic(fpu, r, requests[..|requests| - 1]), Attempted(fpu, r, requests[|requests| - 1]))
  }

  // How many of these requests belong to this series.
  function Occurrences(fpu: Fpu, r: Calc.Registry, requests: seq<Decoded>, series: (string, string)): nat
    requires Calc.Indexed(r)
  {
    if requests == [] then 0
    else
      Occurrences(fpu, r, requests[..|requests| - 1], series)
      + if Series(Attempted(fpu, r, requests[|requests| - 1])) == series then 1 else 0
  }

  lemma LabelIsBounded(fpu: Fpu, r: Calc.Registry, decoded: Decoded)
    requires Calc.Standard(r)
    ensures var attempt := Attempted(fpu, r, decoded);
            && Series(attempt).0 in LABELS && Series(attempt).1 in OUTCOMES
            && attempt.operation == if decoded.Body? && Acceptable(decoded.request) then decoded.request.operation else ""
  {
    if decoded.Body? {
      ValidatesExactly(r, decoded.request);
    }
  }

  // What a request is counted as.
  function OutcomeLabel(code: Option<Code>): string {
    match code
    case None => "ok"
    case Some(ValidationFailed) => "VALIDATION_FAILED"
    case Some(UnsupportedOperation) => "UNSUPPORTED_OPERATION"
    case Some(UnexpectedOperand) => "UNEXPECTED_OPERAND"
    case Some(DivisionByZero) => "DIVISION_BY_ZERO"
    case Some(DomainError) => "DOMAIN_ERROR"
    case Some(ResultNotFinite) => "RESULT_NOT_FINITE"
    case Some(_) => "INTERNAL"
  }

  /** A request is counted under its operation, if it is acceptable, and under
      the code it is refused with. */
  lemma SeriesMeans(fpu: Fpu, r: Calc.Registry, req: CalculateRequest)
    requires Lawful(fpu) && Calc.Standard(r) && Holds(fpu, req)
    ensures Series(Attempted(fpu, r, Body(req))) ==
            (if Acceptable(req) then req.operation else "unknown", OutcomeLabel(Classified(fpu, req)))
  {
    ClassifiesEveryRequest(fpu, r, req);
    LabelIsBounded(fpu, r, Body(req));
    LabelFits(Attempted(fpu, r, Body(req)), Classified(fpu, req));
    MalformedOrNot(req);
  }

  lemma LabelFits(attempt: Attempt, code: Option<Code>)
    requires CodeOf(attempt.answer) == code
    requires code in {None, Some(ValidationFailed), Some(UnsupportedOperation), Some(UnexpectedOperand),
                      Some(DivisionByZero), Some(DomainError), Some(ResultNotFinite)}
    ensures Series(attempt) == (if attempt.operation == "" then "unknown" else attempt.operation, OutcomeLabel(code))
  {
  }

  /** Whatever clients send, every attempt is counted once, in its own series,
      and the series come from a fixed set: an operation the registry does not
      know never names one. */
  lemma {:induction false} CountsEveryAttempt(fpu: Fpu, r: Calc.Registry, requests: seq<Decoded>, series: (string, string))
    requires Calc.Standard(r)
    ensures var counters := Traffic(fpu, r, requests);
            && Count(counters, series) == Occurrences(fpu, r, requests, series)
            && (series in counters ==> series.0 in LABELS && series.1 in OUTCOMES)
  {
    if requests == [] {
    } else {
      CountsEveryAttempt(fpu, r, requests[..|requests| - 1], series);
      LabelIsBounded(fpu, r, requests[|requests| - 1]);
    }
  }

  // There is only one registry, so all instances of the service answer alike.
  lemma InstancesAgree(fpu: Fpu, r: Calc.Registry, s: Calc.Registry, decoded: Decoded)
    requires Calc.Standard(r) && Calc.Standard(s)
    ensures Attempted(fpu, r, decoded) == Attempted(fpu, s, decoded)
  {
    Calc.StandardIsUnique(r, s);
  }
}
