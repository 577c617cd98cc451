/** What typing an expression computes, whatever the server is. */
module ExpressionTheorems {
  import opened Decimal
  import opened Float64
  import opened Entry
  import opened Engine
  import opened Options
  import opened CalculatorStores
  import opened StoreTheorems
  import opened StoreInvariants

  // The server, or as much of it as the calculator can see.
  type Server = CalculateRequest -> Outcome

  // One press, answered at once.
  function PressAnswered(app: App, server: Server, c: CalcState, input: Input): CalcState {
    var t := Press(app.js, c, input);
    if t.effect.None? then t.state
    else SyncAnswer(app, t.state, t.effect.value, Some(server(t.effect.value))).calcState
  }

  function Play(app: App, server: Server, c: CalcState, keys: seq<Input>): CalcState {
    if keys == [] then c
    else PressAnswered(app, server, Play(app, server, c, keys[..|keys| - 1]), keys[|keys| - 1])
  }

  // The same, stopping where an error shows.
  function PlayUntilError(app: App, server: Server, c: CalcState, keys: seq<Input>): CalcState {
    if keys == [] then c
    else
      var before := PlayUntilError(app, server, c, keys[..|keys| - 1]);
      if before.phase.Error? then before else PressAnswered(app, server, before, keys[|keys| - 1])
  }

  lemma {:induction false} PlayConcat(app: App, server: Server, c: CalcState, a: seq<Input>, b: seq<Input>)
    ensures PlayUntilError(app, server, c, a + b) ==
            PlayUntilError(app, server, PlayUntilError(app, server, c, a), b)
  {
    if b == [] {
      assert a + b == a;
    } else {
      assert (a + b)[..|a + b| - 1] == a + b[..|b| - 1];
      PlayConcat(app, server, c, a, b[..|b| - 1]);
    }
  }

  lemma {:induction false} PlayOne(app: App, server: Server, c: CalcState, input: Input)
    requires !c.phase.Error?
    ensures PlayUntilError(app, server, c, [input]) == PressAnswered(app, server, c, input)
  {
    assert [input][..0] == [];
    assert PlayUntilError(app, server, c, []) == c;
  }

  lemma PlayAppends(app: App, server: Server, c: CalcState, keys: seq<Input>, input: Input)
    ensures Play(app, server, c, keys + [input]) == PressAnswered(app, server, Play(app, server, c, keys), input)
  {
    assert (keys + [input])[..|keys|] == keys;
  }

  lemma {:induction false} PlayJoins(app: App, server: Server, c: CalcState, a: seq<Input>, b: seq<Input>)
    ensures Play(app, server, c, a + b) == Play(app, server, Play(app, server, c, a), b)
  {
    if b == [] {
      assert a + b == a;
    } else {
      assert (a + b)[..|a + b| - 1] == a + b[..|b| - 1];
      PlayJoins(app, server, c, a, b[..|b| - 1]);
    }
  }

  /** Without an error the two ways of playing keys agree. */
  lemma {:induction false} PlayedWithoutError(app: App, server: Server, c: CalcState, keys: seq<Input>)
    requires !PlayUntilError(app, server, c, keys).phase.Error?
    ensures Play(app, server, c, keys) == PlayUntilError(app, server, c, keys)
  {
    if keys == [] {
    } else {
      PlayedWithoutError(app, server, c, keys[..|keys| - 1]);
    }
  }

  // --- operands ---------------------------------------------------------------

  predicate Opens(key: Input) {
    key.Digit? || key.DecimalPoint?
  }

  predicate Edits(key: Input) {
    Opens(key) || key.Sign? || key.Backspace?
  }

  function Edit(entry: string, key: Input): string
    requires Edits(key)
  {
    match key
    case Digit(digit) => AppendDigit(entry, digit)
    case DecimalPoint => AppendDecimal(entry)
    case Sign => ToggleSign(entry)
    case Backspace => DropLastChar(entry)
  }

  // A digit or a point, and then any editing keys.
  predicate IsOperand(keys: seq<Input>) {
    keys != [] && Opens(keys[0]) && forall i :: 0 <= i < |keys| ==> Edits(keys[i])
  }

  // What the keys leave on a display that showed a bare zero.
  function Typed(keys: seq<Input>): string
    requires forall i :: 0 <= i < |keys| ==> Edits(keys[i])
  {
    if keys == [] then "0" else Edit(Typed(keys[..|keys| - 1]), keys[|keys| - 1])
  }

  function ValueOf(app: App, keys: seq<Input>): Float
    requires IsOperand(keys)
  {
    app.js.Parse(Typed(keys))
  }

  lemma {:induction false} TypeOperand(app: App, server: Server, c: CalcState, keys: seq<Input>)
    requires IsOperand(keys) && (c.phase.Idle? || c.phase.OperatorSelected?)
    ensures PlayUntilError(app, server, c, keys) ==
              if c.phase.Idle? then INITIAL_STATE.(phase := EnteringA, display := Typed(keys))
              else c.(phase := EnteringB, display := Typed(keys), b := None)
  {
    var front := keys[..|keys| - 1];
    if front == [] {
      assert PlayUntilError(app, server, c, front) == c;
      assert AppendDecimal("0") == "0.";
    } else {
      TypeOperand(app, server, c, front);
    }
  }

  lemma EditKeepsEntry(entry: string, key: Input)
    requires Edits(key) && InRange(entry) && CountDigits(entry) <= MAX_ENTRY_DIGITS
    ensures InRange(Edit(entry, key)) && CountDigits(Edit(entry, key)) <= MAX_ENTRY_DIGITS
  {
    KeysCloseGrammar(entry, if key.Digit? then key.digit else '0');
  }

  lemma {:induction false} TypedIsEntry(keys: seq<Input>)
    requires forall i :: 0 <= i < |keys| ==> Edits(keys[i])
    ensures InRange(Typed(keys)) && CountDigits(Typed(keys)) <= MAX_ENTRY_DIGITS
  {
    if keys == [] {
      ZeroIsEntry();
      CountOfDigits("0");
    } else {
      TypedIsEntry(keys[..|keys| - 1]);
      EditKeepsEntry(Typed(keys[..|keys| - 1]), keys[|keys| - 1]);
    }
  }

  // --- every entry can be typed -------------------------------------------------

  function KeyOf(c: char): Input {
    if IsDigit(c) then Digit(c) else DecimalPoint
  }

  function KeysOf(s: string): seq<Input> {
    if s == "" then [] else KeysOf(s[..|s| - 1]) + [KeyOf(s[|s| - 1])]
  }

  function Keystrokes(entry: string): seq<Input> {
    KeysOf(Unsigned(entry)) + if Signed(entry) then [Sign] else []
  }

  lemma {:induction false} KeysOfIsOperand(s: string)
    requires s != "" && (IsDigit(s[0]) || s[0] == '.')
    ensures IsOperand(KeysOf(s)) && |KeysOf(s)| == |s|
  {
    if |s| == 1 {
      assert KeysOf(s[..0]) == [];
    } else {
      KeysOfIsOperand(s[..|s| - 1]);
    }
  }

  // An unsigned decimal, cut off anywhere, is still one of the strings on the
  // way to it.
  lemma PrefixShape(s: string, k: nat)
    requires IsUnsignedDecimal(s) && 0 < k < |s|
    ensures IsDigit(s[0])
    ensures IsDigit(s[k]) || s[k] == '.'
    ensures s[k] == '.' ==> '.' !in s[..k]
    ensures s[k] != '.' ==> s[..k] != "0"
  {
    var p := Point(s);
    assert s[..p][0] == s[0];
    if k < p {
      assert s[..p][k] == s[k];
    } else if k > p {
      assert FractionPart(s)[k - p - 1] == s[k];
      assert '.' in s[..k] by {
        assert s[..k][p] == '.';
      }
    } else {
      assert s[..k] == s[..p];
    }
  }

  lemma {:induction false} PrefixCounts(s: string, k: nat)
    requires k < |s|
    ensures CountDigits(s[..k]) + (if IsDigit(s[k]) then 1 else 0) <= CountDigits(s)
  {
    assert s == s[..k + 1] + s[k + 1..];
    CountAppends(s[..k + 1], s[k + 1..]);
    assert s[..k + 1][..k] == s[..k];
  }

  lemma TypeNext(prefix: string, c: char)
    requires CanFollow(prefix, c)
    ensures Edit(prefix, KeyOf(c)) == prefix + [c]
  {
  }

  // Each character of s can be typed after the ones before it.
  ghost predicate Typable(s: string) {
    && s != "" && IsDigit(s[0])
    && forall k :: 0 < k < |s| ==> CanFollow(s[..k], s[k])
  }

  predicate CanFollow(prefix: string, c: char) {
    if c == '.' then '.' !in prefix
    else IsDigit(c) && prefix != "0" && CountDigits(prefix) < MAX_ENTRY_DIGITS
  }

  lemma DecimalIsTypable(s: string)
    requires IsUnsignedDecimal(s) && CountDigits(s) <= MAX_ENTRY_DIGITS
    ensures Typable(s)
  {
    assert s[..Point(s)][0] == s[0];
    forall k | 0 < k < |s|
      ensures CanFollow(s[..k], s[k])
    {
      PrefixShape(s, k);
      PrefixCounts(s, k);
    }
  }

  lemma TypeOneMore(front: string, c: char)
    requires front != "" && LeavesItself(front) && CanFollow(front, c)
    ensures LeavesItself(front + [c])
  {
    var keys := KeysOf(front + [c]);
    assert (front + [c])[..|front|] == front;
    KeysOfIsOperand(front + [c]);
    TypeNext(front, c);
    assert keys[..|keys| - 1] == KeysOf(front);
  }

  // The characters, pressed one by one, leave themselves on the display.
  predicate LeavesItself(s: string) {
    s != "" && (IsDigit(s[0]) || s[0] == '.') && IsOperand(KeysOf(s)) && Typed(KeysOf(s)) == s
  }

  lemma TypeFirst(s: string)
    requires |s| == 1 && IsDigit(s[0])
    ensures LeavesItself(s)
  {
    KeysOfIsOperand(s);
    assert s[..0] == "" && KeysOf(s) == [KeyOf(s[0])];
    assert CountDigits("0") <= 1;
  }

  lemma {:induction false} TypePrefix(s: string, k: nat)
    requires Typable(s) && 0 < k <= |s|
    ensures LeavesItself(s[..k])
  {
    if k == 1 {
      TypeFirst(s[..1]);
    } else {
      TypePrefix(s, k - 1);
      TypeOneMore(s[..k - 1], s[k - 1]);
      assert s[..k] == s[..k - 1] + [s[k - 1]];
    }
  }

  /** Every entry of at most MAX_ENTRY_DIGITS digits can be typed. */
  lemma EntryCanBeTyped(entry: string)
    requires IsEntry(entry) && CountDigits(entry) <= MAX_ENTRY_DIGITS
    ensures IsOperand(Keystrokes(entry)) && Typed(Keystrokes(entry)) == entry
  {
    var s := Unsigned(entry);
    if Signed(entry) {
      assert entry == "-" + s;
      SignCounts(s);
    }
    DecimalIsTypable(s);
    TypePrefix(s, |s|);
    assert s[..|s|] == s;
    if Signed(entry) {
      assert Keystrokes(entry)[..|Keystrokes(entry)| - 1] == KeysOf(s);
    } else {
      assert Keystrokes(entry) == KeysOf(s);
    }
  }

  // --- immediate execution is a left fold --------------------------------------

  datatype Term = Term(operator: BinaryOperation, operand: seq<Input>)

  predicate AreTerms(terms: seq<Term>) {
    forall i :: 0 <= i < |terms| ==> IsOperand(terms[i].operand)
  }

  function TermKeys(terms: seq<Term>): seq<Input> {
    if terms == [] then []
    else
      var last := terms[|terms| - 1];
      TermKeys(terms[..|terms| - 1]) + ([Operator(last.operator)] + last.operand)
  }

  function ApplyTerm(app: App, server: Server, left: Outcome, term: Term): Outcome
    requires IsOperand(term.operand)
  {
    match left
    case Answer(x) => server(CalculateRequest(term.operator, x, Some(ValueOf(app, term.operand))))
    case Failed(_) => left
  }

  // n1 op1 n2 op2 ... from the left, through the server, to the first failure.
  function Fold(app: App, server: Server, first: Float, terms: seq<Term>): Outcome
    requires AreTerms(terms)
  {
    if terms == [] then Answer(first)
    else ApplyTerm(app, server, Fold(app, server, first, terms[..|terms| - 1]), terms[|terms| - 1])
  }

  function EnteringFirst(entry: string): CalcState {
    INITIAL_STATE.(phase := EnteringA, display := entry)
  }

  function EnteringSecond(x: Float, operator: BinaryOperation, entry: string): CalcState {
    CalcState(EnteringB, entry, Some(x), None, Some(operator), None, None)
  }

  function Selected(app: App, x: Float, operator: BinaryOperation): CalcState {
    CalcState(OperatorSelected, app.js.show(x), Some(x), None, Some(operator), None, None)
  }

  ghost predicate ShowsFailure(app: App, c: CalcState, failure: Failure) {
    c.phase.Error? && c.error == Some(app.message(failure))
  }

  // An operator key after n1, and after n1 op n2.
  lemma OperatorAfterFirst(app: App, server: Server, entry: string, operator: BinaryOperation)
    ensures PressAnswered(app, server, EnteringFirst(entry), Operator(operator)) ==
            Selected(app, app.js.Parse(entry), operator)
  {
  }

  lemma OperatorAfterSecond(app: App, server: Server, x: Float, pending: BinaryOperation, entry: string, operator: BinaryOperation)
    ensures var outcome := server(CalculateRequest(pending, x, Some(app.js.Parse(entry))));
            var r := PressAnswered(app, server, EnteringSecond(x, pending, entry), Operator(operator));
            && (outcome.Answer? ==> r == Selected(app, outcome.value, operator))
            && (outcome.Failed? ==> ShowsFailure(app, r, outcome.failure))
  {
  }

  // An answer on the display, or the sentence for a failure.
  ghost predicate Shown(app: App, c: CalcState, outcome: Outcome) {
    match outcome
    case Answer(x) => c.phase.Result? && c.a == Some(x) && c.display == app.js.show(x) && c.error.None?
    case Failed(f) => ShowsFailure(app, c, f)
  }

  lemma EqualsAfterFirst(app: App, server: Server, entry: string)
    ensures Shown(app, PressAnswered(app, server, EnteringFirst(entry), Equals), Answer(app.js.Parse(entry)))
  {
  }

  // `=` records the operation it closes, for repeating.
  lemma EqualsAfterSecond(app: App, server: Server, x: Float, pending: BinaryOperation, entry: string)
    ensures var request := CalculateRequest(pending, x, Some(app.js.Parse(entry)));
            var r := PressAnswered(app, server, EnteringSecond(x, pending, entry), Equals);
            Shown(app, r, server(request)) && r.lastRequest == Some(request)
  {
  }

  // Where typing the last operand of an expression starts from.
  ghost predicate Typing(app: App, c: CalcState, left: Outcome, term: Term)
    requires IsOperand(term.operand)
  {
    match left
    case Answer(x) => c == EnteringSecond(x, term.operator, Typed(term.operand))
    case Failed(f) => ShowsFailure(app, c, f)
  }

  lemma TermCloses(app: App, server: Server, c: CalcState, left: Outcome, term: Term, operator: BinaryOperation)
    requires IsOperand(term.operand) && Typing(app, c, left, term)
    ensures var outcome := ApplyTerm(app, server, left, term);
            OperatorTaken(app, PlayUntilError(app, server, c, [Operator(operator)]), outcome, operator)
  {
    if left.Failed? {
      ErrorStops(app, server, c, [Operator(operator)]);
    } else {
      PlayOne(app, server, c, Operator(operator));
      OperatorAfterSecond(app, server, left.value, term.operator, Typed(term.operand), operator);
    }
  }

  lemma {:induction false} ErrorStops(app: App, server: Server, c: CalcState, keys: seq<Input>)
    requires c.phase.Error?
    ensures PlayUntilError(app, server, c, keys) == c
  {
    if keys == [] {
    } else {
      ErrorStops(app, server, c, keys[..|keys| - 1]);
    }
  }

  lemma OperandFollows(app: App, server: Server, c: CalcState, left: Outcome, term: Term)
    requires IsOperand(term.operand)
    requires OperatorTaken(app, c, left, term.operator)
    ensures Typing(app, PlayUntilError(app, server, c, term.operand), left, term)
  {
    if left.Failed? {
      ErrorStops(app, server, c, term.operand);
    } else {
      TypeOperand(app, server, c, term.operand);
    }
  }

  function KeysSoFar(first: seq<Input>, terms: seq<Term>): seq<Input> {
    first + TermKeys(terms)
  }

  // The operator key has been taken, and the operation before it is closed.
  ghost predicate OperatorTaken(app: App, c: CalcState, outcome: Outcome, operator: BinaryOperation) {
    match outcome
    case Answer(x) => c == Selected(app, x, operator)
    case Failed(f) => ShowsFailure(app, c, f)
  }

  lemma TermFollows(app: App, server: Server, keys: seq<Input>, outcome: Outcome, term: Term)
    requires IsOperand(term.operand)
    requires OperatorTaken(app, PlayUntilError(app, server, PlayUntilError(app, server, INITIAL_STATE, keys), [Operator(term.operator)]),
                           outcome, term.operator)
    ensures Typing(app, PlayUntilError(app, server, INITIAL_STATE, keys + ([Operator(term.operator)] + term.operand)), outcome, term)
  {
    var c, key := PlayUntilError(app, server, INITIAL_STATE, keys), [Operator(term.operator)];
    PlayConcat(app, server, INITIAL_STATE, keys, key + term.operand);
    PlayConcat(app, server, c, key, term.operand);
    OperandFollows(app, server, PlayUntilError(app, server, c, key), outcome, term);
  }

  lemma FirstTerm(app: App, server: Server, first: seq<Input>, operator: BinaryOperation)
    requires IsOperand(first)
    ensures OperatorTaken(app, PlayUntilError(app, server, PlayUntilError(app, server, INITIAL_STATE, first), [Operator(operator)]),
                          Answer(ValueOf(app, first)), operator)
  {
    TypeOperand(app, server, INITIAL_STATE, first);
    PlayOne(app, server, EnteringFirst(Typed(first)), Operator(operator));
    OperatorAfterFirst(app, server, Typed(first), operator);
  }

  lemma KeysAssociate(a: seq<Input>, b: seq<Input>, c: seq<Input>)
    ensures a + (b + c) == (a + b) + c
  {
  }

  lemma KeysGrow(first: seq<Input>, terms: seq<Term>)
    requires terms != []
    ensures var front, last := terms[..|terms| - 1], terms[|terms| - 1];
            KeysSoFar(first, terms) == KeysSoFar(first, front) + ([Operator(last.operator)] + last.operand)
  {
    var last := terms[|terms| - 1];
    KeysAssociate(first, TermKeys(terms[..|terms| - 1]), [Operator(last.operator)] + last.operand);
  }

  ghost predicate TypingLast(app: App, server: Server, first: seq<Input>, terms: seq<Term>)
    requires IsOperand(first) && AreTerms(terms) && terms != []
  {
    Typing(app, PlayUntilError(app, server, INITIAL_STATE, KeysSoFar(first, terms)),
           Fold(app, server, ValueOf(app, first), terms[..|terms| - 1]), terms[|terms| - 1])
  }

  lemma OperatorTakesFold(app: App, server: Server, first: seq<Input>, terms: seq<Term>, operator: BinaryOperation)
    requires IsOperand(first) && AreTerms(terms)
    requires terms != [] ==> TypingLast(app, server, first, terms)
    ensures OperatorTaken(app, PlayUntilError(app, server, PlayUntilError(app, server, INITIAL_STATE, KeysSoFar(first, terms)), [Operator(operator)]),
                          Fold(app, server, ValueOf(app, first), terms), operator)
  {
    if terms == [] {
      assert KeysSoFar(first, terms) == first;
      FirstTerm(app, server, first, operator);
    } else {
      TermCloses(app, server, PlayUntilError(app, server, INITIAL_STATE, KeysSoFar(first, terms)),
        Fold(app, server, ValueOf(app, first), terms[..|terms| - 1]), terms[|terms| - 1], operator);
    }
  }

  lemma {:induction false} TypeTerms(app: App, server: Server, first: seq<Input>, terms: seq<Term>)
    requires IsOperand(first) && AreTerms(terms) && terms != []
    ensures TypingLast(app, server, first, terms)
  {
    var front, last := terms[..|terms| - 1], terms[|terms| - 1];
    if front != [] {
      TypeTerms(app, server, first, front);
    }
    OperatorTakesFold(app, server, first, front, last.operator);
    KeysGrow(first, terms);
    TermFollows(app, server, KeysSoFar(first, front), Fold(app, server, ValueOf(app, first), front), last);
  }

  lemma TermEquals(app: App, server: Server, c: CalcState, left: Outcome, term: Term)
    requires IsOperand(term.operand) && Typing(app, c, left, term)
    ensures var outcome, r := ApplyTerm(app, server, left, term), PlayUntilError(app, server, c, [Equals]);
            Shown(app, r, outcome) && (outcome.Answer? ==> Repeats(app, r, outcome, term.operator, ValueOf(app, term.operand)))
  {
    if left.Failed? {
      ErrorStops(app, server, c, [Equals]);
    } else {
      PlayOne(app, server, c, Equals);
      EqualsAfterSecond(app, server, left.value, term.operator, Typed(term.operand));
    }
  }

  /** Typing `n1 op1 n2 op2 ... nk =` shows the left fold of the server over the
      typed values, or the first failure. */
  lemma ExpressionIsLeftFold(app: App, server: Server, first: seq<Input>, terms: seq<Term>)
    requires IsOperand(first) && AreTerms(terms)
    ensures Shown(app, PlayUntilError(app, server, INITIAL_STATE, KeysSoFar(first, terms) + [Equals]),
                  Fold(app, server, ValueOf(app, first), terms))
  {
    var c := PlayUntilError(app, server, INITIAL_STATE, KeysSoFar(first, terms));
    PlayConcat(app, server, INITIAL_STATE, KeysSoFar(first, terms), [Equals]);
    if terms == [] {
      assert KeysSoFar(first, terms) == first;
      TypeOperand(app, server, INITIAL_STATE, first);
      PlayOne(app, server, c, Equals);
      EqualsAfterFirst(app, server, Typed(first));
    } else {
      TypeTerms(app, server, first, terms);
      TermEquals(app, server, c, Fold(app, server, ValueOf(app, first), terms[..|terms| - 1]), terms[|terms| - 1]);
    }
  }

  // --- repeating `=` --------------------------------------------------------------

  function Iterate(server: Server, operator: BinaryOperation, b: Float, x: Float, k: nat): Outcome {
    if k == 0 then Answer(x)
    else
      var before := Iterate(server, operator, b, x, k - 1);
      if before.Failed? then before else server(CalculateRequest(operator, before.value, Some(b)))
  }

  function Times(key: Input, k: nat): seq<Input> {
    if k == 0 then [] else Times(key, k - 1) + [key]
  }

  // A result that `=` would repeat with this operation and second operand.
  ghost predicate Repeats(app: App, c: CalcState, outcome: Outcome, operator: BinaryOperation, b: Float) {
    Shown(app, c, outcome) && c.lastRequest.Some?
    && c.lastRequest.value.operation == operator && c.lastRequest.value.b == Some(b)
  }

  lemma EqualsRepeats(app: App, server: Server, c: CalcState, operator: BinaryOperation, b: Float, x: Float)
    requires Repeats(app, c, Answer(x), operator, b)
    ensures Repeats(app, PressAnswered(app, server, c, Equals), server(CalculateRequest(operator, x, Some(b))), operator, b)
  {
  }

  lemma RepeatStep(app: App, server: Server, c: CalcState, outcome: Outcome, operator: BinaryOperation, b: Float)
    requires Repeats(app, c, outcome, operator, b)
    ensures Repeats(app, PlayUntilError(app, server, c, [Equals]),
                    if outcome.Failed? then outcome else server(CalculateRequest(operator, outcome.value, Some(b))),
                    operator, b)
  {
    if outcome.Failed? {
      ErrorStops(app, server, c, [Equals]);
    } else {
      PlayOne(app, server, c, Equals);
      EqualsRepeats(app, server, c, operator, b, outcome.value);
    }
  }

  // k presses of `=` on a result are k iterations of the operation it repeats.
  ghost predicate RepeatsAfter(app: App, server: Server, c: CalcState, operator: BinaryOperation, b: Float, x: Float, k: nat) {
    Repeats(app, PlayUntilError(app, server, c, Times(Equals, k)), Iterate(server, operator, b, x, k), operator, b)
  }

  lemma NoRepeatYet(app: App, server: Server, c: CalcState, operator: BinaryOperation, b: Float, x: Float)
    requires Repeats(app, c, Answer(x), operator, b)
    ensures RepeatsAfter(app, server, c, operator, b, x, 0)
  {
    assert PlayUntilError(app, server, c, Times(Equals, 0)) == c;
  }

  lemma RepeatsOnceMore(app: App, server: Server, c: CalcState, operator: BinaryOperation, b: Float, x: Float, k: nat)
    requires k > 0 && RepeatsAfter(app, server, c, operator, b, x, k - 1)
    ensures RepeatsAfter(app, server, c, operator, b, x, k)
  {
    PlayConcat(app, server, c, Times(Equals, k - 1), [Equals]);
    RepeatStep(app, server, PlayUntilError(app, server, c, Times(Equals, k - 1)),
      Iterate(server, operator, b, x, k - 1), operator, b);
  }

  /** Each further `=` applies the last operation and its second operand to the
      running result, and keeps both. */
  lemma {:induction false} RepeatedEquals(app: App, server: Server, c: CalcState, operator: BinaryOperation, b: Float, x: Float, k: nat)
    requires Repeats(app, c, Answer(x), operator, b)
    ensures RepeatsAfter(app, server, c, operator, b, x, k)
    decreases k
  {
    if k == 0 {
      NoRepeatYet(app, server, c, operator, b, x);
    } else {
      RepeatedEquals(app, server, c, operator, b, x, k - 1);
      RepeatsOnceMore(app, server, c, operator, b, x, k);
    }
  }

  lemma {:induction false} ExpressionCanRepeat(app: App, server: Server, first: seq<Input>, terms: seq<Term>)
    requires IsOperand(first) && AreTerms(terms) && terms != []
    requires Fold(app, server, ValueOf(app, first), terms).Answer?
    ensures var last := terms[|terms| - 1];
            Repeats(app, PlayUntilError(app, server, INITIAL_STATE, KeysSoFar(first, terms) + [Equals]),
                    Fold(app, server, ValueOf(app, first), terms), last.operator, ValueOf(app, last.operand))
  {
    TypeTerms(app, server, first, terms);
    PlayConcat(app, server, INITIAL_STATE, KeysSoFar(first, terms), [Equals]);
    TermEquals(app, server, PlayUntilError(app, server, INITIAL_STATE, KeysSoFar(first, terms)),
      Fold(app, server, ValueOf(app, first), terms[..|terms| - 1]), terms[|terms| - 1]);
  }

  /** `n1 op n2 = = =`: after the first, each `=` repeats `op n2`. */
  lemma {:induction false} ExpressionRepeats(app: App, server: Server, first: seq<Input>, terms: seq<Term>, k: nat)
    requires IsOperand(first) && AreTerms(terms) && terms != []
    requires Fold(app, server, ValueOf(app, first), terms).Answer?
    ensures var last := terms[|terms| - 1];
            Repeats(app, PlayUntilError(app, server, INITIAL_STATE, (KeysSoFar(first, terms) + [Equals]) + Times(Equals, k)),
                    Iterate(server, last.operator, ValueOf(app, last.operand), Fold(app, server, ValueOf(app, first), terms).value, k),
                    last.operator, ValueOf(app, last.operand))
  {
    var keys, last := KeysSoFar(first, terms) + [Equals], terms[|terms| - 1];
    ExpressionCanRepeat(app, server, first, terms);
    PlayConcat(app, server, INITIAL_STATE, keys, Times(Equals, k));
    RepeatedEquals(app, server, PlayUntilError(app, server, INITIAL_STATE, keys), last.operator,
      ValueOf(app, last.operand), Fold(app, server, ValueOf(app, first), terms).value, k);
  }

  // --- keys in the middle of an expression ------------------------------------------

  // y's square root, or y per cent of x.
  function UnaryOnSecond(key: UnaryKey, x: Float, y: Float): CalculateRequest {
    if key == Sqrt then CalculateRequest(Sqrt, y, None) else CalculateRequest(Percent, x, Some(y))
  }

  // x's square root, or its hundredth: x hundredths of one.
  function UnaryOnly(key: UnaryKey, x: Float): CalculateRequest {
    if key == Sqrt then CalculateRequest(Sqrt, x, None) else CalculateRequest(Percent, x, Some(Num(1.0)))
  }

  lemma UnaryThenEquals(app: App, server: Server, x: Float, operator: BinaryOperation, entry: string, key: UnaryKey)
    requires LawfulJs(app.js)
    requires var y := server(UnaryOnSecond(key, x, app.js.Parse(entry)));
             y.Answer? && Finite(y.value) && Representable(app.js.fpu, y.value) && y.value != Zero(true)
    ensures var y := server(UnaryOnSecond(key, x, app.js.Parse(entry))).value;
            var c := PressAnswered(app, server, EnteringSecond(x, operator, entry), Unary(key));
            && c == EnteringSecond(x, operator, app.js.show(y))
            && app.js.Parse(c.display) == y
  {
  }

  lemma UnaryInPlace(app: App, server: Server, first: seq<Input>, term: Term, key: UnaryKey)
    requires LawfulJs(app.js) && IsOperand(first) && IsOperand(term.operand)
    requires var y := server(UnaryOnSecond(key, ValueOf(app, first), ValueOf(app, term.operand)));
             y.Answer? && Finite(y.value) && Representable(app.js.fpu, y.value) && y.value != Zero(true)
    ensures var x := ValueOf(app, first);
            var y := server(UnaryOnSecond(key, x, ValueOf(app, term.operand))).value;
            var c := Play(app, server, INITIAL_STATE, KeysSoFar(first, [term]) + [Unary(key)]);
            && c == EnteringSecond(x, term.operator, app.js.show(y)) && app.js.Parse(c.display) == y
            && c == PlayUntilError(app, server, INITIAL_STATE, KeysSoFar(first, [term]) + [Unary(key)])
  {
    var x, keys := ValueOf(app, first), KeysSoFar(first, [term]);
    TypeTerms(app, server, first, [term]);
    assert Fold(app, server, x, [term][..0]) == Answer(x);
    PlayConcat(app, server, INITIAL_STATE, keys, [Unary(key)]);
    PlayOne(app, server, PlayUntilError(app, server, INITIAL_STATE, keys), Unary(key));
    UnaryThenEquals(app, server, x, term.operator, Typed(term.operand), key);
    PlayedWithoutError(app, server, INITIAL_STATE, keys + [Unary(key)]);
  }

  /** `n1 op n2 %` puts n2 per cent of n1 in place of n2, and `n1 op n2 sqrt` its
      root; `=` then finishes the operation with it. */
  lemma UnaryReplacesEntry(app: App, server: Server, first: seq<Input>, term: Term, key: UnaryKey)
    requires LawfulJs(app.js) && IsOperand(first) && IsOperand(term.operand)
    requires var y := server(UnaryOnSecond(key, ValueOf(app, first), ValueOf(app, term.operand)));
             y.Answer? && Finite(y.value) && Representable(app.js.fpu, y.value) && y.value != Zero(true)
    ensures var x := ValueOf(app, first);
            var y := server(UnaryOnSecond(key, x, ValueOf(app, term.operand))).value;
            Shown(app, Play(app, server, INITIAL_STATE, (KeysSoFar(first, [term]) + [Unary(key)]) + [Equals]),
                  server(CalculateRequest(term.operator, x, Some(y))))
  {
    var keys := KeysSoFar(first, [term]) + [Unary(key)];
    UnaryInPlace(app, server, first, term, key);
    PlayAppends(app, server, INITIAL_STATE, keys, Equals);
    EqualsAfterSecond(app, server, ValueOf(app, first), term.operator, Play(app, server, INITIAL_STATE, keys).display);
  }

  /** CE takes back a second operand: the state is what it was before. */
  lemma ClearEntryUndoesOperand(app: App, server: Server, c: CalcState, operand: seq<Input>)
    requires IsOperand(operand) && Consistent(app.js, c, false) && c.phase.OperatorSelected?
    ensures PlayUntilError(app, server, c, operand + [ClearEntry]) == c
  {
    PlayConcat(app, server, c, operand, [ClearEntry]);
    TypeOperand(app, server, c, operand);
    PlayOne(app, server, PlayUntilError(app, server, c, operand), ClearEntry);
  }

  lemma LastOperatorCounts(app: App, server: Server, c: CalcState, o1: BinaryOperation, o2: BinaryOperation)
    requires PressAnswered(app, server, c, Operator(o1)).phase.OperatorSelected?
    ensures PressAnswered(app, server, PressAnswered(app, server, c, Operator(o1)), Operator(o2)) ==
            PressAnswered(app, server, c, Operator(o2))
    ensures PressAnswered(app, server, c, Operator(o2)).phase.OperatorSelected?
  {
  }

  function OperatorKeys(operators: seq<BinaryOperation>): seq<Input> {
    if operators == [] then []
    else OperatorKeys(operators[..|operators| - 1]) + [Operator(operators[|operators| - 1])]
  }

  /** Of any number of operators in a row only the last one counts, in any state
      in which the first of them is taken. */
  lemma {:induction false} OperatorsCollapse(app: App, server: Server, c: CalcState, operators: seq<BinaryOperation>)
    requires operators != [] && PressAnswered(app, server, c, Operator(operators[0])).phase.OperatorSelected?
    ensures var last := operators[|operators| - 1];
            && Play(app, server, c, OperatorKeys(operators)) == PressAnswered(app, server, c, Operator(last))
            && PressAnswered(app, server, c, Operator(last)).phase.OperatorSelected?
  {
    var front, last := operators[..|operators| - 1], operators[|operators| - 1];
    PlayAppends(app, server, c, OperatorKeys(front), Operator(last));
    if front == [] {
      assert Play(app, server, c, []) == c;
    } else {
      OperatorsCollapse(app, server, c, front);
      LastOperatorCounts(app, server, c, front[|front| - 1], last);
    }
  }

  // The same state with the opposite value.
  ghost predicate Negated(app: App, r: CalcState, c: CalcState)
    requires c.a.Some? && Finite(c.a.value)
  {
    && r.a.Some? && Finite(r.a.value) && r.a != Some(Zero(true)) && RealOf(r.a.value) == -RealOf(c.a.value)
    && r == c.(a := r.a, display := app.js.show(r.a.value))
  }

  // A value on show that is a number.
  ghost predicate OnShow(app: App, c: CalcState) {
    && Consistent(app.js, c, false) && (c.phase.OperatorSelected? || c.phase.Result?)
    && c.a != Some(Zero(true)) && Finite(c.a.value)
  }

  lemma SignNegates(app: App, server: Server, c: CalcState)
    requires OnShow(app, c)
    ensures Negated(app, PressAnswered(app, server, c, Sign), c)
  {
  }

  lemma SignRestores(app: App, server: Server, r: CalcState, c: CalcState)
    requires OnShow(app, c) && Negated(app, r, c)
    ensures PressAnswered(app, server, r, Sign) == c
  {
  }

  ghost predicate AfterSigns(app: App, r: CalcState, c: CalcState, k: nat)
    requires OnShow(app, c)
  {
    if k % 2 == 0 then r == c else Negated(app, r, c)
  }

  lemma OneMoreSign(app: App, server: Server, r: CalcState, c: CalcState, k: nat)
    requires OnShow(app, c) && AfterSigns(app, r, c, k)
    ensures AfterSigns(app, PressAnswered(app, server, r, Sign), c, k + 1)
  {
    if k % 2 == 0 {
      SignNegates(app, server, c);
    } else {
      SignRestores(app, server, r, c);
    }
  }

  /** Any number of sign keys on a value on show restores the whole state if it is
      even, and negates that value and nothing else if it is odd. */
  lemma {:induction false} SignParity(app: App, server: Server, c: CalcState, k: nat)
    requires OnShow(app, c)
    ensures AfterSigns(app, Play(app, server, c, Times(Sign, k)), c, k)
  {
    if k == 0 {
    } else {
      SignParity(app, server, c, k - 1);
      PlayAppends(app, server, c, Times(Sign, k - 1), Sign);
      OneMoreSign(app, server, Play(app, server, c, Times(Sign, k - 1)), c, k - 1);
    }
  }

  // A value on show, with the rest of the state as in c, or a failure.
  ghost predicate ShowsValue(app: App, r: CalcState, c: CalcState, outcome: Outcome) {
    match outcome
    case Answer(x) => r == c.(a := Some(x), display := app.js.show(x))
    case Failed(failure) => ShowsFailure(app, r, failure)
  }

  lemma UnaryOnValue(app: App, server: Server, c: CalcState, r: CalcState, x: Float, key: UnaryKey)
    requires Consistent(app.js, c, false) && (c.phase.OperatorSelected? || c.phase.Result?)
    requires ShowsValue(app, r, c, Answer(x))
    ensures ShowsValue(app, PressAnswered(app, server, r, Unary(key)), c, server(UnaryOnly(key, x)))
  {
  }

  function IterateUnary(server: Server, key: UnaryKey, x: Float, k: nat): Outcome {
    if k == 0 then Answer(x)
    else
      var before := IterateUnary(server, key, x, k - 1);
      if before.Failed? then before else server(UnaryOnly(key, before.value))
  }

  lemma UnaryStep(app: App, server: Server, c: CalcState, r: CalcState, outcome: Outcome, key: UnaryKey)
    requires Consistent(app.js, c, false) && (c.phase.OperatorSelected? || c.phase.Result?)
    requires ShowsValue(app, r, c, outcome)
    ensures ShowsValue(app, PlayUntilError(app, server, r, [Unary(key)]), c,
                       if outcome.Failed? then outcome else server(UnaryOnly(key, outcome.value)))
  {
    if outcome.Failed? {
      ErrorStops(app, server, r, [Unary(key)]);
    } else {
      PlayOne(app, server, r, Unary(key));
      UnaryOnValue(app, server, c, r, outcome.value, key);
    }
  }

  ghost predicate AfterUnaries(app: App, server: Server, c: CalcState, key: UnaryKey, k: nat)
    requires c.a.Some?
  {
    ShowsValue(app, PlayUntilError(app, server, c, Times(Unary(key), k)), c, IterateUnary(server, key, c.a.value, k))
  }

  lemma NoUnaries(app: App, server: Server, c: CalcState, key: UnaryKey)
    requires Consistent(app.js, c, false) && (c.phase.OperatorSelected? || c.phase.Result?)
    ensures AfterUnaries(app, server, c, key, 0)
  {
    assert PlayUntilError(app, server, c, []) == c;
  }

  lemma OneMoreUnary(app: App, server: Server, c: CalcState, key: UnaryKey, k: nat)
    requires Consistent(app.js, c, false) && (c.phase.OperatorSelected? || c.phase.Result?)
    requires k > 0 && AfterUnaries(app, server, c, key, k - 1)
    ensures AfterUnaries(app, server, c, key, k)
  {
    PlayConcat(app, server, c, Times(Unary(key), k - 1), [Unary(key)]);
    UnaryStep(app, server, c, PlayUntilError(app, server, c, Times(Unary(key), k - 1)),
      IterateUnary(server, key, c.a.value, k - 1), key);
  }

  /** The square root and per cent keys on a value on show, any number of times,
      apply the operation as often, and keep the pending operation. */
  lemma {:induction false} UnaryIterates(app: App, server: Server, c: CalcState, key: UnaryKey, k: nat)
    requires Consistent(app.js, c, false) && (c.phase.OperatorSelected? || c.phase.Result?)
    ensures AfterUnaries(app, server, c, key, k)
    decreases k
  {
    if k == 0 {
      NoUnaries(app, server, c, key);
    } else {
      UnaryIterates(app, server, c, key, k - 1);
      OneMoreUnary(app, server, c, key, k);
    }
  }

  // --- where a calculation starts again ----------------------------------------------

  // The next key does not depend on anything but being the first.
  predicate StartsAfresh(c: CalcState, key: Input) {
    c.phase.Error? || (Opens(key) && (c.phase.Idle? || c.phase.Result?))
  }

  lemma AfreshIsInitial(app: App, server: Server, c: CalcState, key: Input)
    requires StartsAfresh(c, key)
    ensures PressAnswered(app, server, c, key) == PressAnswered(app, server, INITIAL_STATE, key)
  {
  }

  /** After an error, whatever the next key, and after a result, if it types a
      number, everything that went before is forgotten. */
  lemma {:induction false} NothingIsCarriedOver(app: App, server: Server, c: CalcState, keys: seq<Input>)
    requires keys != [] && StartsAfresh(c, keys[0])
    ensures Play(app, server, c, keys) == Play(app, server, INITIAL_STATE, keys)
  {
    var front := keys[..|keys| - 1];
    if front == [] {
      AfreshIsInitial(app, server, c, keys[0]);
      assert Play(app, server, c, front) == c && Play(app, server, INITIAL_STATE, front) == INITIAL_STATE;
    } else {
      NothingIsCarriedOver(app, server, c, front);
    }
  }

  lemma PlayThen(app: App, server: Server, c: CalcState, a: seq<Input>, c': CalcState, b: seq<Input>)
    requires PlayUntilError(app, server, c, a) == c'
    ensures PlayUntilError(app, server, c, a + b) == PlayUntilError(app, server, c', b)
  {
    PlayConcat(app, server, c, a, b);
  }

  lemma EqualsOnSelected(app: App, server: Server, x: Float, operator: BinaryOperation)
    ensures Repeats(app, PressAnswered(app, server, Selected(app, x, operator), Equals),
                    server(CalculateRequest(operator, x, Some(x))), operator, x)
  {
  }

  /** `n1 op =` takes n1 for both operands, and further `=` keys would repeat
      `op n1`. */
  lemma EqualsReusesFirst(app: App, server: Server, first: seq<Input>, operator: BinaryOperation)
    requires IsOperand(first)
    ensures var x := ValueOf(app, first);
            Repeats(app, PlayUntilError(app, server, INITIAL_STATE, first + ([Operator(operator)] + [Equals])),
                    server(CalculateRequest(operator, x, Some(x))), operator, x)
  {
    var x, typed := ValueOf(app, first), PlayUntilError(app, server, INITIAL_STATE, first);
    FirstTerm(app, server, first, operator);
    PlayThen(app, server, INITIAL_STATE, first, typed, [Operator(operator)] + [Equals]);
    PlayThen(app, server, typed, [Operator(operator)], Selected(app, x, operator), [Equals]);
    PlayOne(app, server, Selected(app, x, operator), Equals);
    EqualsOnSelected(app, server, x, operator);
  }

  lemma UnaryAfterFirst(app: App, server: Server, entry: string, key: UnaryKey)
    ensures Shown(app, PressAnswered(app, server, EnteringFirst(entry), Unary(key)),
                  server(UnaryOnly(key, app.js.Parse(entry))))
  {
  }

  /** `n1 %` asks for one hundredth of n1, and `n1 sqrt` for its root. */
  lemma UnaryAlone(app: App, server: Server, first: seq<Input>, key: UnaryKey)
    requires IsOperand(first)
    ensures Shown(app, Play(app, server, INITIAL_STATE, first + [Unary(key)]),
                  server(UnaryOnly(key, ValueOf(app, first))))
  {
    OperandPlayed(app, server, INITIAL_STATE, first);
    PlayAppends(app, server, INITIAL_STATE, first, Unary(key));
    UnaryAfterFirst(app, server, Typed(first), key);
  }

  lemma EqualsShows(app: App, server: Server, c: CalcState, x: Float, operator: BinaryOperation)
    requires c.phase.EnteringB? && c.a == Some(x) && c.operator == Some(operator)
    ensures Shown(app, PressAnswered(app, server, c, Equals),
                  server(CalculateRequest(operator, x, Some(app.js.Parse(c.display)))))
  {
  }

  function OnResult(c: CalcState, operator: BinaryOperation): CalcState {
    c.(phase := OperatorSelected, operator := Some(operator), b := None)
  }

  lemma OperatorOnResult(app: App, server: Server, c: CalcState, operator: BinaryOperation)
    requires c.phase.Result?
    ensures PressAnswered(app, server, c, Operator(operator)) == OnResult(c, operator)
  {
  }

  /** An operator on a result goes on calculating with it. */
  lemma ResultGoesOn(app: App, server: Server, c: CalcState, x: Float, term: Term)
    requires Shown(app, c, Answer(x)) && IsOperand(term.operand)
    ensures Shown(app, PlayUntilError(app, server, c, [Operator(term.operator)] + (term.operand + [Equals])),
                  server(CalculateRequest(term.operator, x, Some(ValueOf(app, term.operand)))))
  {
    var selected := OnResult(c, term.operator);
    PlayOne(app, server, c, Operator(term.operator));
    OperatorOnResult(app, server, c, term.operator);
    PlayThen(app, server, c, [Operator(term.operator)], selected, term.operand + [Equals]);
    SelectedComputes(app, server, selected, x, term);
  }

  lemma SelectedComputes(app: App, server: Server, c: CalcState, x: Float, term: Term)
    requires IsOperand(term.operand)
    requires c.phase.OperatorSelected? && c.a == Some(x) && c.operator == Some(term.operator)
    ensures Shown(app, PlayUntilError(app, server, c, term.operand + [Equals]),
                  server(CalculateRequest(term.operator, x, Some(ValueOf(app, term.operand)))))
  {
    var typed := c.(phase := EnteringB, display := Typed(term.operand), b := None);
    TypeOperand(app, server, c, term.operand);
    PlayThen(app, server, c, term.operand, typed, [Equals]);
    PlayOne(app, server, typed, Equals);
    EqualsShows(app, server, typed, x, term.operator);
  }

  // --- keys with nothing to work on ---------------------------------------------------

  lemma {:induction false} PlayFirst(app: App, server: Server, c: CalcState, key: Input, keys: seq<Input>)
    ensures Play(app, server, c, [key] + keys) == Play(app, server, PressAnswered(app, server, c, key), keys)
  {
    PlayJoins(app, server, c, [key], keys);
    PlayAppends(app, server, c, [], key);
    assert [] + [key] == [key];
    assert Play(app, server, c, []) == c;
  }

  // CE anywhere but behind an operator, and the keys that change or finish a
  // number where there is none.
  predicate ClearsAll(c: CalcState, key: Input) {
    || (key.ClearEntry? && !c.phase.OperatorSelected? && !c.phase.EnteringB?)
    || ((key.Sign? || key.Backspace? || key.Equals?) && (c.phase.Idle? || c.phase.Error?))
  }

  /** These keys do what AC does: the rest of the keys run as from the initial
      state. */
  lemma {:induction false} ClearsLikeAC(app: App, server: Server, c: CalcState, key: Input, keys: seq<Input>)
    requires ClearsAll(c, key)
    ensures Play(app, server, c, [key] + keys) == Play(app, server, INITIAL_STATE, keys)
  {
    PlayFirst(app, server, c, key, keys);
  }

  // CE and backspace on a value that was not typed, and `=` with nothing to
  // repeat.
  predicate HasNoEffect(c: CalcState, key: Input) {
    || (key.ClearEntry? && c.phase.OperatorSelected?)
    || (key.Backspace? && (c.phase.OperatorSelected? || c.phase.Result?))
    || (key.Equals? && c.phase.Result? && c.lastRequest.None?)
  }

  /** These keys do nothing: the rest of the keys run as if they had not been
      pressed. */
  lemma {:induction false} IdleKeyIsIgnored(app: App, server: Server, c: CalcState, key: Input, keys: seq<Input>)
    requires HasNoEffect(c, key)
    ensures Play(app, server, c, [key] + keys) == Play(app, server, c, keys)
  {
    PlayFirst(app, server, c, key, keys);
  }

  lemma OperatorOnNothing(app: App, server: Server, c: CalcState, operator: BinaryOperation)
    requires c.phase.Idle? || c.phase.Error?
    ensures var r := PressAnswered(app, server, c, Operator(operator));
            && r.phase.OperatorSelected? && r.a == Some(Zero(false)) && r.operator == Some(operator)
            && r.display == "0" && r.b.None? && r.error.None? && r.lastRequest.None?
  {
  }

  /** An operator with nothing before it, or behind an error, takes zero for its
      first operand. */
  lemma {:induction false} OperatorTakesZero(app: App, server: Server, c: CalcState, term: Term)
    requires (c.phase.Idle? || c.phase.Error?) && IsOperand(term.operand)
    ensures Shown(app, Play(app, server, c, [Operator(term.operator)] + (term.operand + [Equals])),
                  server(CalculateRequest(term.operator, Zero(false), Some(ValueOf(app, term.operand)))))
  {
    var r := PressAnswered(app, server, c, Operator(term.operator));
    PlayFirst(app, server, c, Operator(term.operator), term.operand + [Equals]);
    OperatorOnNothing(app, server, c, term.operator);
    TypeOperand(app, server, r, term.operand);
    PlayedWithoutError(app, server, r, term.operand);
    PlayAppends(app, server, r, term.operand, Equals);
    EqualsShows(app, server, Play(app, server, r, term.operand), Zero(false), term.operator);
  }

  /** The square root and per cent keys with nothing before them, or behind an
      error, are about zero. */
  lemma UnaryTakesZero(app: App, server: Server, c: CalcState, key: UnaryKey)
    requires c.phase.Idle? || c.phase.Error?
    ensures Shown(app, PressAnswered(app, server, c, Unary(key)), server(UnaryOnly(key, Zero(false))))
  {
  }

  // --- going on after a failure --------------------------------------------------------

  // The next operand after a failure starts a calculation of its own.
  function ResumeTerm(app: App, server: Server, left: Outcome, term: Term): Outcome
    requires IsOperand(term.operand)
  {
    match left
    case Answer(x) => server(CalculateRequest(term.operator, x, Some(ValueOf(app, term.operand))))
    case Failed(_) => Answer(ValueOf(app, term.operand))
  }

  // n1 op1 n2 op2 ... from the left, through the server, with a fresh start behind
  // every failure.
  function Resumed(app: App, server: Server, first: Float, terms: seq<Term>): Outcome
    requires AreTerms(terms)
  {
    if terms == [] then Answer(first)
    else ResumeTerm(app, server, Resumed(app, server, first, terms[..|terms| - 1]), terms[|terms| - 1])
  }

  /** If no operation but the last one fails, that is the left fold. */
  lemma {:induction false} ResumedIsFold(app: App, server: Server, first: Float, terms: seq<Term>)
    requires AreTerms(terms) && (terms != [] ==> Fold(app, server, first, terms[..|terms| - 1]).Answer?)
    ensures Resumed(app, server, first, terms) == Fold(app, server, first, terms)
  {
    if terms == [] {
    } else {
      ResumedIsFold(app, server, first, terms[..|terms| - 1]);
    }
  }

  // The last operand has been typed.
  ghost predicate Entered(app: App, c: CalcState, left: Outcome, term: Term)
    requires IsOperand(term.operand)
  {
    match left
    case Answer(x) => c == EnteringSecond(x, term.operator, Typed(term.operand))
    case Failed(_) => c == EnteringFirst(Typed(term.operand))
  }

  lemma OperandPlayed(app: App, server: Server, c: CalcState, operand: seq<Input>)
    requires IsOperand(operand)
    ensures c.phase.OperatorSelected? ==>
              Play(app, server, c, operand) == c.(phase := EnteringB, display := Typed(operand), b := None)
    ensures c.phase.Error? || c == INITIAL_STATE ==>
              Play(app, server, c, operand) == EnteringFirst(Typed(operand))
  {
    if c.phase.OperatorSelected? {
      TypeOperand(app, server, c, operand);
      PlayedWithoutError(app, server, c, operand);
    } else if c.phase.Error? || c == INITIAL_STATE {
      NothingIsCarriedOver(app, server, c, operand);
      TypeOperand(app, server, INITIAL_STATE, operand);
      PlayedWithoutError(app, server, INITIAL_STATE, operand);
    }
  }

  lemma OperandEntered(app: App, server: Server, c: CalcState, left: Outcome, term: Term)
    requires IsOperand(term.operand) && OperatorTaken(app, c, left, term.operator)
    ensures Entered(app, Play(app, server, c, term.operand), left, term)
  {
    OperandPlayed(app, server, c, term.operand);
  }

  lemma OperatorCloses(app: App, server: Server, c: CalcState, left: Outcome, term: Term, operator: BinaryOperation)
    requires IsOperand(term.operand) && Entered(app, c, left, term)
    ensures OperatorTaken(app, PressAnswered(app, server, c, Operator(operator)), ResumeTerm(app, server, left, term), operator)
  {
    if left.Answer? {
      OperatorAfterSecond(app, server, left.value, term.operator, Typed(term.operand), operator);
    } else {
      OperatorAfterFirst(app, server, Typed(term.operand), operator);
    }
  }

  lemma EqualsCloses(app: App, server: Server, c: CalcState, left: Outcome, term: Term)
    requires IsOperand(term.operand) && Entered(app, c, left, term)
    ensures Shown(app, PressAnswered(app, server, c, Equals), ResumeTerm(app, server, left, term))
  {
    if left.Answer? {
      EqualsAfterSecond(app, server, left.value, term.operator, Typed(term.operand));
    } else {
      EqualsAfterFirst(app, server, Typed(term.operand));
    }
  }

  ghost predicate EnteredLast(app: App, server: Server, first: seq<Input>, terms: seq<Term>)
    requires IsOperand(first) && AreTerms(terms) && terms != []
  {
    Entered(app, Play(app, server, INITIAL_STATE, KeysSoFar(first, terms)),
            Resumed(app, server, ValueOf(app, first), terms[..|terms| - 1]), terms[|terms| - 1])
  }

  lemma OperatorTakesResumed(app: App, server: Server, first: seq<Input>, terms: seq<Term>, operator: BinaryOperation)
    requires IsOperand(first) && AreTerms(terms)
    requires terms != [] ==> EnteredLast(app, server, first, terms)
    ensures OperatorTaken(app, PressAnswered(app, server, Play(app, server, INITIAL_STATE, KeysSoFar(first, terms)), Operator(operator)),
                          Resumed(app, server, ValueOf(app, first), terms), operator)
  {
    if terms == [] {
      assert KeysSoFar(first, terms) == first;
      OperandPlayed(app, server, INITIAL_STATE, first);
      OperatorAfterFirst(app, server, Typed(first), operator);
    } else {
      OperatorCloses(app, server, Play(app, server, INITIAL_STATE, KeysSoFar(first, terms)),
        Resumed(app, server, ValueOf(app, first), terms[..|terms| - 1]), terms[|terms| - 1], operator);
    }
  }

  lemma TermEntered(app: App, server: Server, keys: seq<Input>, left: Outcome, term: Term)
    requires IsOperand(term.operand)
    requires OperatorTaken(app, PressAnswered(app, server, Play(app, server, INITIAL_STATE, keys), Operator(term.operator)), left, term.operator)
    ensures Entered(app, Play(app, server, INITIAL_STATE, keys + ([Operator(term.operator)] + term.operand)), left, term)
  {
    var key := [Operator(term.operator)];
    PlayAppends(app, server, INITIAL_STATE, keys, Operator(term.operator));
    PlayJoins(app, server, INITIAL_STATE, keys + key, term.operand);
    KeysAssociate(keys, key, term.operand);
    OperandEntered(app, server, Play(app, server, INITIAL_STATE, keys + key), left, term);
  }

  lemma {:induction false} TypeResumed(app: App, server: Server, first: seq<Input>, terms: seq<Term>)
    requires IsOperand(first) && AreTerms(terms) && terms != []
    ensures EnteredLast(app, server, first, terms)
  {
    var front, last := terms[..|terms| - 1], terms[|terms| - 1];
    if front != [] {
      TypeResumed(app, server, first, front);
    }
    OperatorTakesResumed(app, server, first, front, last.operator);
    KeysGrow(first, terms);
    TermEntered(app, server, KeysSoFar(first, front), Resumed(app, server, ValueOf(app, first), front), last);
  }

  /** Typing `n1 op1 n2 op2 ... nk =` right through, failures or not, shows the
      fold that starts afresh behind every failure. */
  lemma ExpressionResumes(app: App, server: Server, first: seq<Input>, terms: seq<Term>)
    requires IsOperand(first) && AreTerms(terms)
    ensures Shown(app, Play(app, server, INITIAL_STATE, KeysSoFar(first, terms) + [Equals]),
                  Resumed(app, server, ValueOf(app, first), terms))
  {
    PlayAppends(app, server, INITIAL_STATE, KeysSoFar(first, terms), Equals);
    if terms == [] {
      assert KeysSoFar(first, terms) == first;
      OperandPlayed(app, server, INITIAL_STATE, first);
      EqualsAfterFirst(app, server, Typed(first));
    } else {
      TypeResumed(app, server, first, terms);
      EqualsCloses(app, server, Play(app, server, INITIAL_STATE, KeysSoFar(first, terms)),
        Resumed(app, server, ValueOf(app, first), terms[..|terms| - 1]), terms[|terms| - 1]);
    }
  }
}
