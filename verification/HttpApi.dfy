/** POST /calculate from the decoded body on: validation, evaluation, the
    problem for every error, and the counter of attempts. */
module HttpApi {
  import Calc
  import opened Float64
  import opened Options

  // --- problems ------------------------------------------------------------

  datatype Code =
    | InvalidBody | ValidationFailed | UnsupportedOperation | UnexpectedOperand
    | DivisionByZero | DomainError | ResultNotFinite
    | UnsupportedMediaType | PayloadTooLarge | NotFound | NotReady | MethodNotAllowed
    | RateLimited | Timeout | Internal

  function Name(code: Code): string {
    match code
    case InvalidBody => "INVALID_BODY"
    case ValidationFailed => "VALIDATION_FAILED"
    case UnsupportedOperation => "UNSUPPORTED_OPERATION"
    case UnexpectedOperand => "UNEXPECTED_OPERAND"
    case DivisionByZero => "DIVISION_BY_ZERO"
    case DomainError => "DOMAIN_ERROR"
    case ResultNotFinite => "RESULT_NOT_FINITE"
    case UnsupportedMediaType => "UNSUPPORTED_MEDIA_TYPE"
    case PayloadTooLarge => "PAYLOAD_TOO_LARGE"
    case NotFound => "NOT_FOUND"
    case NotReady => "NOT_READY"
    case MethodNotAllowed => "METHOD_NOT_ALLOWED"
    case RateLimited => "RATE_LIMITED"
    case Timeout => "TIMEOUT"
    case Internal => "INTERNAL"
  }

  function Status(code: Code): nat {
    match code
    case InvalidBody | ValidationFailed => 400
    case UnsupportedOperation | UnexpectedOperand | DivisionByZero | DomainError | ResultNotFinite => 422
    case UnsupportedMediaType => 415
    case PayloadTooLarge => 413
    case NotFound => 404
    case MethodNotAllowed => 405
    case RateLimited => 429
    case Timeout | NotReady => 503
    case Internal => 500
  }

  // What a text says; how it says it is not modelled.
  datatype Text =
    | IsRequired
    | IsRequiredFor(operation: string)
    | MustBeFinite
    | MustBeOmittedFor(operation: string)
    | MustBeNonZero
    | MustBeOneOf(names: seq<string>)
    | BadFields(fields: seq<string>)
    | NotSupported(operation: string)
    | TakesOneOperand(operation: string)
    | NonZeroNeededFor(operation: string)
    | NoQuotient(operation: string)
    | NoRealResult(operation: string)
    | OutOfRange(operation: string)
    | Unexplained
    | Other(text: string)

  datatype FieldError = FieldError(field: string, message: Text)

  datatype Problem = Problem(code: Code, status: nat, detail: Text, errors: seq<FieldError>)

  function NewProblem(code: Code, detail: Text, errors: seq<FieldError>): Problem {
    Problem(code, Status(code), detail, errors)
  }

  // An error on its way to being a problem.  A sentinel names the operation it
  // came from, or none.
  datatype GoError = Reported(problem: Problem) | Sentinel(operation: string, error: Calc.Error) | Unknown

  function NamesOf(specs: seq<Calc.Spec>): seq<string> {
    seq(|specs|, i requires 0 <= i < |specs| => specs[i].name)
  }

  function Unsupported(r: Calc.Registry, operation: string): Problem {
    NewProblem(UnsupportedOperation, NotSupported(operation),
      [FieldError("operation", MustBeOneOf(NamesOf(r.specs)))])
  }

  method ReportUnsupported(r: Calc.Registry, operation: string) returns (p: Problem)
    ensures p == Unsupported(r, operation)
  {
    var names := new string[|r.specs|];
    for i := 0 to |r.specs|
      invariant forall k :: 0 <= k < i ==> names[k] == r.specs[k].name
    {
      names[i] := r.specs[i].name;
    }
    assert names[..] == NamesOf(r.specs);
    p := NewProblem(UnsupportedOperation, NotSupported(operation), [FieldError("operation", MustBeOneOf(names[..]))]);
  }

  function MapError(r: Calc.Registry, err: GoError): Problem {
    match err
    case Reported(problem) => problem
    case Sentinel(operation, DivisionByZero) =>
      if operation == "divide" then
        NewProblem(DivisionByZero, NonZeroNeededFor(operation), [FieldError("b", MustBeNonZero)])
      else NewProblem(DivisionByZero, NoQuotient(operation), [])
    case Sentinel(operation, Domain) => NewProblem(DomainError, NoRealResult(operation), [])
    case Sentinel(operation, NotFinite) => NewProblem(ResultNotFinite, OutOfRange(operation), [])
    case Sentinel(operation, UnknownOperation) => Unsupported(r, operation)
    case Sentinel(_, Arity) => NewProblem(Internal, Unexplained, [])
    case Unknown => NewProblem(Internal, Unexplained, [])
  }

  // --- validation ----------------------------------------------------------

  datatype CalculateRequest = CalculateRequest(operation: string, a: Option<Float>, b: Option<Float>)

  datatype Validation = Valid(spec: Calc.Spec) | Invalid(problem: Problem)

  function OperationErrors(req: CalculateRequest): seq<FieldError> {
    if req.operation == "" then [FieldError("operation", IsRequired)] else []
  }

  function AErrors(req: CalculateRequest): seq<FieldError> {
    if req.a.None? then [FieldError("a", IsRequired)]
    else if !Finite(req.a.value) then [FieldError("a", MustBeFinite)]
    else []
  }

  function BErrors(spec: Option<Calc.Spec>, req: CalculateRequest): seq<FieldError> {
    if req.b.Some? then if Finite(req.b.value) then [] else [FieldError("b", MustBeFinite)]
    else if spec.Some? && spec.value.arity == 2 then [FieldError("b", IsRequiredFor(spec.value.name))]
    else []
  }

  // Every bad field, in order, with what is wrong with it.
  function FieldErrors(r: Calc.Registry, req: CalculateRequest): seq<FieldError>
    requires Calc.Indexed(r)
  {
    OperationErrors(req) + AErrors(req) + BErrors(Calc.Lookup(r, req.operation), req)
  }

  function FieldsOf(errors: seq<FieldError>): seq<string> {
    seq(|errors|, i requires 0 <= i < |errors| => errors[i].field)
  }

  function BadRequest(errors: seq<FieldError>): Problem {
    NewProblem(ValidationFailed, BadFields(FieldsOf(errors)), errors)
  }

  function Validated(r: Calc.Registry, req: CalculateRequest): (v: Validation)
    requires Calc.Indexed(r)
    ensures v.Valid? ==> req.a.Some? && v.spec.name == req.operation && v.spec in r.specs
  {
    assert |AErrors(req)| <= |FieldErrors(r, req)|;
    var spec, errors := Calc.Lookup(r, req.operation), FieldErrors(r, req);
    if errors != [] then Invalid(BadRequest(errors))
    else if spec.None? then Invalid(Unsupported(r, req.operation))
    else if spec.value.arity == 1 && req.b.Some? then
      Invalid(NewProblem(UnexpectedOperand, TakesOneOperand(req.operation),
                         [FieldError("b", MustBeOmittedFor(req.operation))]))
    else Valid(spec.value)
  }

  method ReportFields(errs: seq<FieldError>) returns (p: Problem)
    ensures p == BadRequest(errs)
  {
    var fields := new string[|errs|];
    for i := 0 to |errs|
      invariant forall k :: 0 <= k < i ==> fields[k] == errs[k].field
    {
      fields[i] := errs[i].field;
    }
    assert fields[..] == FieldsOf(errs);
    p := NewProblem(ValidationFailed, BadFields(fields[..]), errs);
  }

  method Validate(r: Calc.Registry, req: CalculateRequest) returns (v: Validation)
    requires Calc.Indexed(r)
    ensures v == Validated(r, req)
  {
    var errs: seq<FieldError> := [];
    if req.operation == "" {
      errs := errs + [FieldError("operation", IsRequired)];
    }
    assert errs == OperationErrors(req);
    if req.a.None? {
      errs := errs + [FieldError("a", IsRequired)];
    } else if !Finite(req.a.value) {
      errs := errs + [FieldError("a", MustBeFinite)];
    }
    assert errs == OperationErrors(req) + AErrors(req);
    if req.b.Some? && !Finite(req.b.value) {
      errs := errs + [FieldError("b", MustBeFinite)];
    }
    var spec := Calc.Lookup(r, req.operation);
    if spec.Some? && spec.value.arity == 2 && req.b.None? {
      errs := errs + [FieldError("b", IsRequiredFor(spec.value.name))];
    }
    assert errs == FieldErrors(r, req);
    if |errs| > 0 {
      var p := ReportFields(errs);
      return Invalid(p);
    }
    if spec.None? {
      var p := ReportUnsupported(r, req.operation);
      return Invalid(p);
    }
    if spec.value.arity == 1 && req.b.Some? {
      return Invalid(NewProblem(UnexpectedOperand, TakesOneOperand(spec.value.name),
                                [FieldError("b", MustBeOmittedFor(spec.value.name))]));
    }
    v := Valid(spec.value);
  }

  // --- the handler ---------------------------------------------------------

  // What decoding the body gave.
  datatype Decoded = Body(request: CalculateRequest) | Undecodable(problem: Problem)

  datatype CalculateResponse = CalculateResponse(operation: string, a: Float, b: Option<Float>, result: Float)

  datatype Answer = OK(response: CalculateResponse) | Refused(problem: Problem)

  // The operation, empty until validation has confirmed it, and the answer.
  datatype Attempt = Attempt(operation: string, answer: Answer)

  function Attempted(fpu: Fpu, r: Calc.Registry, decoded: Decoded): Attempt
    requires Calc.Indexed(r)
  {
    if decoded.Undecodable? then Attempt("", Refused(MapError(r, Reported(decoded.problem))))
    else
      var req := decoded.request;
      var v := Validated(r, req);
      if v.Invalid? then Attempt("", Refused(MapError(r, Reported(v.problem))))
      else
        var res := Calc.Evaluate(fpu, r, v.spec.name, req.a.value, req.b);
        Attempt(v.spec.name,
          if res.Err? then Refused(MapError(r, Sentinel(v.spec.name, res.error)))
          else OK(CalculateResponse(v.spec.name, req.a.value, req.b, res.value)))
  }

  const UNKNOWN_OPERATION := "unknown"
  const OUTCOME_OK := "ok"

  type Counters = map<(string, string), nat>

  function Series(attempt: Attempt): (string, string) {
    (if attempt.operation == "" then UNKNOWN_OPERATION else attempt.operation,
     if attempt.answer.OK? then OUTCOME_OK else Name(attempt.answer.problem.code))
  }

  function Count(counters: Counters, series: (string, string)): nat {
    if series in counters then counters[series] else 0
  }

  function Counted(counters: Counters, attempt: Attempt): Counters {
    counters[Series(attempt) := Count(counters, Series(attempt)) + 1]
  }

  class Handler {
    const fpu: Fpu
    const registry: Calc.Registry
    // None without a metrics registry.
    var counters: Option<Counters>

    ghost predicate Ready() {
      Calc.Standard(registry)
    }

    constructor (fpu: Fpu, registry: Calc.Registry, metrics: bool)
      requires Calc.Standard(registry)
      ensures Ready() && this.fpu == fpu && this.registry == registry
      ensures counters == if metrics then Some(map[]) else None
    {
      this.fpu := fpu;
      this.registry := registry;
      counters := if metrics then Some(map[]) else None;
    }

    method Evaluate(decoded: Decoded) returns (attempt: Attempt)
      requires Ready()
      ensures attempt == Attempted(fpu, registry, decoded)
    {
      if decoded.Undecodable? {
        return Attempt("", Refused(MapError(registry, Reported(decoded.problem))));
      }
      var req := decoded.request;
      var v := Validate(registry, req);
      if v.Invalid? {
        return Attempt("", Refused(MapError(registry, Reported(v.problem))));
      }
      var spec := v.spec;
      var res := Calc.Evaluate(fpu, registry, spec.name, req.a.value, req.b);
      if res.Err? {
        return Attempt(spec.name, Refused(MapError(registry, Sentinel(spec.name, res.error))));
      }
      attempt := Attempt(spec.name, OK(CalculateResponse(spec.name, req.a.value, req.b, res.value)));
    }

    method Record(attempt: Attempt)
      modifies this`counters
      ensures counters == if old(counters).None? then None else Some(Counted(old(counters).value, attempt))
    {
      if counters.None? {
        return;
      }
      var outcome := OUTCOME_OK;
      if attempt.answer.Refused? {
        outcome := Name(attempt.answer.problem.code);
      }
      var op := attempt.operation;
      if op == "" {
        op := UNKNOWN_OPERATION;
      }
      var series := (op, outcome);
      counters := Some(counters.value[series := Count(counters.value, series) + 1]);
    }

    method Calculate(decoded: Decoded) returns (answer: Answer)
      requires Ready()
      modifies this`counters
      ensures answer == Attempted(fpu, registry, decoded).answer
      ensures counters ==
              if old(counters).None? then None else Some(Counted(old(counters).value, Attempted(fpu, registry, decoded)))
    {
      var attempt := Evaluate(decoded);
      Record(attempt);
      answer := attempt.answer;
    }
  }
}
