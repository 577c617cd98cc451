/** The calculator's state machine: a key press takes a state to a state and may
    ask for one calculation. */
module Engine {
  import opened Float64
  import opened Entry
  import opened Options

  datatype Operation = Add | Subtract | Multiply | Divide | Power | Sqrt | Percent

  // The operations an operator key can select.
  type BinaryOperation = op: Operation | op != Sqrt && op != Percent witness Add

  type UnaryKey = op: Operation | op == Sqrt || op == Percent witness Sqrt

  datatype CalculateRequest = CalculateRequest(operation: Operation, a: Float, b: Option<Float>)

  datatype Phase = Idle | EnteringA | OperatorSelected | EnteringB | Result | Error

  datatype CalcState = CalcState(
    phase: Phase,
    display: string,
    a: Option<Float>,
    b: Option<Float>,
    operator: Option<BinaryOperation>,
    error: Option<string>,
    lastRequest: Option<CalculateRequest>)

  const INITIAL_STATE := CalcState(Idle, "0", None, None, None, None, None)

  datatype Transition = Transition(state: CalcState, effect: Option<CalculateRequest>)

  // The JavaScript the engine relies on: binary64, String() and, for strings
  // that are not plain decimals, Number().
  datatype Js = Js(fpu: Fpu, show: Float -> string, other: string -> Float) {
    function Parse(entry: string): Float {
      ParseEntry(fpu, other, entry)
    }
  }

  datatype Input =
    | Digit(digit: Entry.Digit)
    | DecimalPoint
    | Sign
    | Backspace
    | ClearEntry
    | Operator(operator: BinaryOperation)
    | Equals
    | Unary(key: UnaryKey)

  function Stay(state: CalcState): Transition {
    Transition(state, None)
  }

  function Emit(state: CalcState, request: CalculateRequest): Transition {
    Transition(state, Some(request))
  }

  // --- requests ------------------------------------------------------------

  function BinaryRequest(operator: Option<BinaryOperation>, a: Option<Float>, b: Float): CalculateRequest {
    CalculateRequest(operator.GetOr(Add), a.GetOr(Zero(false)), Some(b))
  }

  function SqrtRequest(a: Float): CalculateRequest {
    CalculateRequest(Sqrt, a, None)
  }

  function PercentRequest(a: Float, b: Float): CalculateRequest {
    CalculateRequest(Percent, a, Some(b))
  }

  // `%` with nothing to work against asks for one per cent of the value, times one.
  function UnaryRequest(key: UnaryKey, value: Float): CalculateRequest {
    if key == Sqrt then SqrtRequest(value) else PercentRequest(value, Num(1.0))
  }

  // --- keys ----------------------------------------------------------------

  function InputDigit(state: CalcState, digit: Entry.Digit): Transition {
    match state.phase
    case Idle | Result | Error => Stay(INITIAL_STATE.(phase := EnteringA, display := AppendDigit("0", digit)))
    case EnteringA | EnteringB => Stay(state.(display := AppendDigit(state.display, digit)))
    case OperatorSelected => Stay(state.(phase := EnteringB, display := AppendDigit("0", digit), b := None))
  }

  function InputDecimal(state: CalcState): Transition {
    match state.phase
    case Idle | Result | Error => Stay(INITIAL_STATE.(phase := EnteringA, display := "0."))
    case EnteringA | EnteringB => Stay(state.(display := AppendDecimal(state.display)))
    case OperatorSelected => Stay(state.(phase := EnteringB, display := "0.", b := None))
  }

  function NegateValue(value: Option<Float>): Float {
    DropNegativeZero(Negate(value.GetOr(Zero(false))))
  }

  function InputSign(js: Js, state: CalcState): Transition {
    match state.phase
    case Idle | Error => Stay(INITIAL_STATE)
    case EnteringA | EnteringB => Stay(state.(display := ToggleSign(state.display)))
    case OperatorSelected | Result =>
      var value := NegateValue(state.a);
      Stay(state.(a := Some(value), display := js.show(value)))
  }

  function InputBackspace(state: CalcState): Transition {
    match state.phase
    case Idle | Error => Stay(INITIAL_STATE)
    case EnteringA | EnteringB => Stay(state.(display := DropLastChar(state.display)))
    case OperatorSelected | Result => Stay(state)
  }

  function InputClearEntry(js: Js, state: CalcState): Transition {
    match state.phase
    case Idle | EnteringA | Result | Error => Stay(INITIAL_STATE)
    case OperatorSelected => Stay(state)
    case EnteringB =>
      Stay(state.(phase := OperatorSelected, display := js.show(state.a.GetOr(Zero(false))), b := None))
  }

  function ClearAll(state: CalcState): Transition {
    Stay(INITIAL_STATE)
  }

  function SetOperator(js: Js, state: CalcState, operator: BinaryOperation): Transition {
    match state.phase
    case Idle | Error =>
      Stay(INITIAL_STATE.(phase := OperatorSelected, a := Some(Zero(false)), operator := Some(operator)))
    case EnteringA =>
      var a := js.Parse(state.display);
      Stay(state.(phase := OperatorSelected, a := Some(a), display := js.show(a), operator := Some(operator)))
    case OperatorSelected => Stay(state.(operator := Some(operator)))
    case Result => Stay(state.(phase := OperatorSelected, operator := Some(operator), b := None))
    case EnteringB =>
      Emit(state.(phase := OperatorSelected, a := None, b := None, operator := Some(operator)),
           BinaryRequest(state.operator, state.a, js.Parse(state.display)))
  }

  function RequestEvaluate(js: Js, state: CalcState): Transition {
    match state.phase
    case Idle | Error => Stay(INITIAL_STATE)
    case EnteringA =>
      var a := js.Parse(state.display);
      Stay(INITIAL_STATE.(phase := Result, a := Some(a), display := js.show(a)))
    case OperatorSelected =>
      var a := state.a.GetOr(Zero(false));
      var request := BinaryRequest(state.operator, Some(a), a);
      Emit(state.(phase := Result, b := Some(a), lastRequest := Some(request)), request)
    case EnteringB =>
      var b := js.Parse(state.display);
      var request := BinaryRequest(state.operator, state.a, b);
      Emit(state.(phase := Result, b := Some(b), lastRequest := Some(request)), request)
    case Result =>
      if state.lastRequest.None? then Stay(state)
      else
        var request := state.lastRequest.value.(a := state.a.GetOr(Zero(false)));
        Emit(state.(lastRequest := Some(request)), request)
  }

  function ApplyUnary(js: Js, state: CalcState, key: UnaryKey): Transition {
    match state.phase
    case Idle | Error => Emit(INITIAL_STATE.(phase := Result), UnaryRequest(key, Zero(false)))
    case EnteringA => Emit(state.(phase := Result), UnaryRequest(key, js.Parse(state.display)))
    case OperatorSelected | Result => Emit(state, UnaryRequest(key, state.a.GetOr(Zero(false))))
    case EnteringB =>
      var entry := js.Parse(state.display);
      Emit(state, if key == Sqrt then SqrtRequest(entry) else PercentRequest(state.a.GetOr(Zero(false)), entry))
  }

  function Press(js: Js, state: CalcState, input: Input): Transition {
    match input
    case Digit(digit) => InputDigit(state, digit)
    case DecimalPoint => InputDecimal(state)
    case Sign => InputSign(js, state)
    case Backspace => InputBackspace(state)
    case ClearEntry => InputClearEntry(js, state)
    case Operator(operator) => SetOperator(js, state, operator)
    case Equals => RequestEvaluate(js, state)
    case Unary(key) => ApplyUnary(js, state, key)
  }

  // --- answers -------------------------------------------------------------

  function ApplyResult(js: Js, state: CalcState, value: Float): CalcState {
    match state.phase
    case EnteringA | EnteringB => state.(display := js.show(value), error := None)
    case OperatorSelected | Result =>
      state.(a := Some(value), b := None, display := js.show(value), error := None)
    case Idle | Error => INITIAL_STATE.(phase := Result, a := Some(value), display := js.show(value))
  }

  function ApplyError(state: CalcState, message: string): CalcState {
    state.(phase := Error, error := Some(message))
  }
}
