/** Entries that String wrote with an exponent: how they come about, what can
    happen to them, and what recalling a value really does. */
module ExponentEntries {
  import opened CalculatorStores
  import opened EndToEnd
  import opened Engine
  import opened Entry
  import opened ExpressionTheorems
  import opened Float64
  import HttpTheorems
  import opened Options
  import opened ServedRuns
  import opened StoreInvariants
  import opened StoreTheorems

  // --- entries without an exponent stay that way ------------------------------------

  predicate Entering(c: CalcState) {
    c.phase.EnteringA? || c.phase.EnteringB?
  }

  predicate Plain(c: CalcState) {
    Entering(c) ==> InRange(c.display)
  }

  lemma PlainEdit(js: Js, c: CalcState, input: Input)
    requires Plain(c) && Edits(input) && Entering(c)
    ensures Plain(Press(js, c, input).state)
  {
    EditInRange(c.display, input);
    assert Press(js, c, input) == Stay(c.(display := Edit(c.display, input)));
  }

  lemma PlainStart(js: Js, c: CalcState, input: Input)
    requires Edits(input) && !Entering(c)
    ensures Plain(Press(js, c, input).state)
  {
    if input.Digit? {
      StartInRange(input.digit);
      assert InputDigit(c, input.digit).state.display == AppendDigit("0", input.digit);
    } else if input.DecimalPoint? {
      StartInRange('0');
      assert InputDecimal(c).state.display == "0.";
    } else {
      assert !Entering(Press(js, c, input).state);
    }
  }

  lemma PlainPress(js: Js, c: CalcState, input: Input)
    requires Plain(c)
    ensures Plain(Press(js, c, input).state)
  {
    if Edits(input) {
      if Entering(c) {
        PlainEdit(js, c, input);
      } else {
        PlainStart(js, c, input);
      }
    } else {
      var t := Press(js, c, input).state;
      assert Entering(t) ==> Entering(c) && t.display == c.display;
    }
  }

  // Answers and recalled values are numbers the calculator may hold, and none
  // that is written with an exponent becomes an entry.
  predicate Careful(app: App, s: Store, event: Event) {
    match event
    case Recall(value) => Sound(app.js.fpu, value) && (s.pending || 'e' !in app.js.show(value))
    case Deliver(index, Answer(value)) =>
      index < |s.inFlight| ==>
        Sound(app.js.fpu, value)
        && (Entering(s.calcState) && Carries(s.inFlight, s.ticket, index) ==> 'e' !in app.js.show(value))
    case _ => true
  }

  ghost predicate CarefulRun(app: App, s: Store, events: seq<Event>) {
    events != [] ==>
      var front := events[..|events| - 1];
      CarefulRun(app, s, front) && Careful(app, Continue(app, s, front), events[|events| - 1])
  }

  lemma PlainHasNoExponent(c: CalcState)
    requires Plain(c)
    ensures Entering(c) ==> 'e' !in c.display
  {
    if Entering(c) {
      DecimalsHaveNoExponent(c.display);
    }
  }

  lemma ShownIsPlain(js: Js, x: Float)
    requires LawfulJs(js) && Finite(x) && 'e' !in js.show(x)
    ensures InRange(js.show(x))
  {
  }

  lemma GoodIsPlain(js: Js, entry: string)
    requires LawfulJs(js) && GoodEntry(js, entry) && 'e' !in entry
    ensures InRange(entry)
  {
    if x :| Writes(js, x, entry) {
      ShownIsPlain(js, x);
    }
  }

  lemma CarefulIsOrderly(app: App, s: Store, event: Event)
    requires Plain(s.calcState) && Careful(app, s, event)
    ensures Orderly(app, s, event)
  {
    PlainHasNoExponent(s.calcState);
  }

  lemma PressStaysPlain(app: App, s: Store, input: Input)
    requires Plain(s.calcState)
    ensures Plain(Handle(app, s, KeyPressed(input)).calcState)
  {
    if !s.pending {
      PlainPress(app.js, s.calcState, input);
      var t := Press(app.js, s.calcState, input);
      assert t.effect.Some? && !s.wired ==> Handle(app, s, KeyPressed(input)).calcState.phase.Error?;
    }
  }

  function DisplayAfter(app: App, s: Store, index: nat, outcome: Outcome): string {
    if Carries(s.inFlight, s.ticket, index) && outcome.Answer? then app.js.show(outcome.value)
    else s.calcState.display
  }

  // An answer changes an entry only if it is the one that is waited for.
  lemma AnswerOnEntry(app: App, s: Store, index: nat, outcome: Outcome)
    requires index < |s.inFlight|
    ensures var c := Handle(app, s, Deliver(index, outcome)).calcState;
            Entering(c) ==> Entering(s.calcState) && c.display == DisplayAfter(app, s, index, outcome)
  {
  }

  lemma AnswerStaysPlain(app: App, s: Store, index: nat, outcome: Outcome)
    requires LawfulJs(app.js) && Plain(s.calcState) && index < |s.inFlight| && Careful(app, s, Deliver(index, outcome))
    ensures Plain(Handle(app, s, Deliver(index, outcome)).calcState)
  {
    AnswerOnEntry(app, s, index, outcome);
    if outcome.Answer? && 'e' !in app.js.show(outcome.value) {
      ShownIsPlain(app.js, outcome.value);
    }
  }

  lemma EventStaysPlain(app: App, s: Store, event: Event)
    requires LawfulJs(app.js) && Plain(s.calcState) && Careful(app, s, event)
    ensures Plain(Handle(app, s, event).calcState)
  {
    match event
    case KeyPressed(input) => PressStaysPlain(app, s, input);
    case Recall(value) =>
      if !s.pending {
        ShownIsPlain(app.js, value);
      }
    case Deliver(index, outcome) =>
      if index < |s.inFlight| {
        AnswerStaysPlain(app, s, index, outcome);
      }
    case _ =>
  }

  lemma {:induction false} CarefulStaysPlain(app: App, s: Store, events: seq<Event>)
    requires LawfulJs(app.js) && HealthyStore(app, s) && Plain(s.calcState) && CarefulRun(app, s, events)
    ensures HealthyStore(app, Continue(app, s, events)) && Plain(Continue(app, s, events).calcState)
  {
    if events == [] {
    } else {
      var front, event := events[..|events| - 1], events[|events| - 1];
      CarefulStaysPlain(app, s, front);
      CarefulIsOrderly(app, Continue(app, s, front), event);
      EventIsHealthy(app, Continue(app, s, front), event);
      EventStaysPlain(app, Continue(app, s, front), event);
    }
  }

  // Validation accepts every request that was sent.
  ghost predicate SendsAcceptable(s: Store) {
    && (s.lastSent.Some? ==> HttpTheorems.Acceptable(OnWire(s.lastSent.value)))
    && (forall i :: 0 <= i < |s.inFlight| ==> HttpTheorems.Acceptable(OnWire(s.inFlight[i].request)))
  }

  lemma HealthySendsAcceptable(app: App, s: Store)
    requires HealthyStore(app, s)
    ensures SendsAcceptable(s)
  {
    if s.lastSent.Some? {
      SendableIsAccepted(app.js.fpu, s.lastSent.value);
    }
    forall i | 0 <= i < |s.inFlight| ensures HttpTheorems.Acceptable(OnWire(s.inFlight[i].request)) {
      SendableIsAccepted(app.js.fpu, s.inFlight[i].request);
    }
  }

  // --- entries with one can be spoilt -------------------------------------------------

  lemma DropAfterExponent(text: string, k: nat, m: nat)
    requires k < m < |text| && text[k] == 'e'
    ensures DropLastChar(text[..m + 1]) == text[..m]
  {
    assert text[..m + 1][..m] == text[..m];
    assert text[..m][k] == 'e';
  }

  function Backspaced(text: string, n: nat): string {
    if n == 0 then text else DropLastChar(Backspaced(text, n - 1))
  }

  lemma {:induction false} BackspacedIsPrefix(text: string, k: nat, n: nat)
    requires k + n < |text| && text[k] == 'e'
    ensures Backspaced(text, n) == text[..|text| - n]
  {
    if n == 0 {
    } else {
      BackspacedIsPrefix(text, k, n - 1);
      DropAfterExponent(text, k, |text| - n);
    }
  }

  lemma CutOff(js: Js, value: Float, k: nat)
    requires LawfulJs(js) && Finite(value) && k < |js.show(value)| && js.show(value)[k] == 'e'
    ensures js.other(js.show(value)[..k + 1]).NaN?
  {
  }

  lemma NotDecimalIsOther(js: Js, text: string, k: nat)
    requires k < |text| && text[k] == 'e' && js.other(text).NaN?
    ensures js.Parse(text) == NaN
  {
    if IsDecimal(text) {
      DecimalsHaveNoExponent(text);
    }
  }

  lemma SpoiltIsNaN(js: Js, text: string, k: nat, n: nat)
    requires k + n + 1 == |text| && text[k] == 'e' && js.other(text[..k + 1]).NaN?
    ensures js.Parse(Backspaced(text, n)) == NaN
  {
    BackspacedIsPrefix(text, k, n);
    NotDecimalIsOther(js, text[..k + 1], k);
  }

  // The same store with other text in the entry.
  function WithDisplay(s: Store, text: string): Store {
    s.(calcState := s.calcState.(display := text))
  }

  function Backspaces(n: nat): seq<Event> {
    if n == 0 then [] else Backspaces(n - 1) + [KeyPressed(Backspace)]
  }

  lemma BackspaceOnce(app: App, s: Store, text: string)
    requires !s.pending && Entering(s.calcState)
    ensures Handle(app, WithDisplay(s, text), KeyPressed(Backspace)) == WithDisplay(s, DropLastChar(text))
  {
  }

  lemma OneMoreBackspace(app: App, s: Store, before: seq<Event>, text: string)
    requires !s.pending && Entering(s.calcState)
    requires CarefulRun(app, s, before) && Continue(app, s, before) == WithDisplay(s, text)
    ensures var more := before + [KeyPressed(Backspace)];
            CarefulRun(app, s, more) && Continue(app, s, more) == WithDisplay(s, DropLastChar(text))
  {
    ContinueAppends(app, s, before, KeyPressed(Backspace));
    CarefulAppends(app, s, before, KeyPressed(Backspace));
    BackspaceOnce(app, s, text);
  }

  lemma {:induction false} BackspacesEdit(app: App, s: Store, n: nat)
    requires !s.pending && Entering(s.calcState)
    ensures CarefulRun(app, s, Backspaces(n))
    ensures Continue(app, s, Backspaces(n)) == WithDisplay(s, Backspaced(s.calcState.display, n))
  {
    if n == 0 {
    } else {
      BackspacesEdit(app, s, n - 1);
      OneMoreBackspace(app, s, Backspaces(n - 1), Backspaced(s.calcState.display, n - 1));
    }
  }

  lemma CarefulAppends(app: App, s: Store, events: seq<Event>, event: Event)
    requires CarefulRun(app, s, events) && Careful(app, Continue(app, s, events), event)
    ensures CarefulRun(app, s, events + [event])
  {
    assert (events + [event])[..|events|] == events;
  }

  lemma SqrtSends(app: App, s: Store, text: string)
    requires !s.pending && Entering(s.calcState)
    ensures Handle(app, WithDisplay(s, text), KeyPressed(Unary(Sqrt))).lastSent == Some(SqrtRequest(app.js.Parse(text)))
  {
  }

  // Back to just after the e, and then the square root key.
  lemma BackspacesSpoil(app: App, s: Store, n: nat)
    requires !s.pending && Entering(s.calcState) && app.js.Parse(Backspaced(s.calcState.display, n)) == NaN
    ensures var more := Backspaces(n) + [KeyPressed(Unary(Sqrt))];
            && CarefulRun(app, s, more)
            && Continue(app, s, more).lastSent == Some(SqrtRequest(NaN))
  {
    BackspacesEdit(app, s, n);
    CarefulAppends(app, s, Backspaces(n), KeyPressed(Unary(Sqrt)));
    ContinueAppends(app, s, Backspaces(n), KeyPressed(Unary(Sqrt)));
    SqrtSends(app, s, Backspaced(s.calcState.display, n));
  }

  lemma NaNIsRefused()
    ensures !HttpTheorems.Acceptable(OnWire(SqrtRequest(NaN)))
  {
  }

  // What can come next, as long as it places no exponent form in an entry.
  ghost predicate SafeFrom(app: App, s: Store) {
    forall more :: CarefulRun(app, s, more) ==> SendsAcceptable(Continue(app, s, more))
  }

  lemma ExponentIsUnsafe(app: App, s: Store, x: Float, k: nat)
    requires LawfulJs(app.js) && !s.pending && Entering(s.calcState) && Finite(x) && s.calcState.display == app.js.show(x)
    requires k < |app.js.show(x)| && app.js.show(x)[k] == 'e'
    ensures !SafeFrom(app, s)
  {
    var n := |app.js.show(x)| - k - 1;
    CutOff(app.js, x, k);
    SpoiltIsNaN(app.js, app.js.show(x), k, n);
    BackspacesSpoil(app, s, n);
    NaNIsRefused();
    var more := Backspaces(n) + [KeyPressed(Unary(Sqrt))];
    assert CarefulRun(app, s, more) && !SendsAcceptable(Continue(app, s, more));
  }

  lemma PlainIsSafe(app: App, s: Store)
    requires LawfulJs(app.js) && HealthyStore(app, s) && Plain(s.calcState)
    ensures SafeFrom(app, s)
  {
    forall more | CarefulRun(app, s, more) ensures SendsAcceptable(Continue(app, s, more)) {
      CarefulStaysPlain(app, s, more);
      HealthySendsAcceptable(app, Continue(app, s, more));
    }
  }

  lemma ExponentWasWritten(js: Js, entry: string)
    requires LawfulJs(js) && GoodEntry(js, entry) && 'e' in entry
    ensures exists x, k :: WritesExponent(js, x, k, entry)
  {
    if InRange(entry) {
      DecimalsHaveNoExponent(entry);
    }
    var x :| Writes(js, x, entry);
    var k :| 0 <= k < |entry| && entry[k] == 'e';
    assert WritesExponent(js, x, k, entry);
  }

  predicate WritesExponent(js: Js, x: Float, k: int, text: string) {
    Writes(js, x, text) && 0 <= k < |text| && text[k] == 'e'
  }

  /** An entry is safe, whatever keys, answers, retries and recalls come next as
      long as they put no exponent form in an entry, exactly when it is not one
      itself: an exponent form can be cut down to text that is not a number, and
      that is then sent. */
  lemma EntryIsSafeIff(app: App, s: Store)
    requires LawfulJs(app.js) && HealthyStore(app, s) && !s.pending && Entering(s.calcState)
    ensures SafeFrom(app, s) <==> 'e' !in s.calcState.display
  {
    if 'e' in s.calcState.display {
      ExponentWasWritten(app.js, s.calcState.display);
      var x, k :| WritesExponent(app.js, x, k, s.calcState.display);
      ExponentIsUnsafe(app, s, x, k);
    } else {
      GoodIsPlain(app.js, s.calcState.display);
      PlainIsSafe(app, s);
    }
  }

  // --- how an exponent form gets into an entry ------------------------------------------

  lemma RecallEnters(app: App, s: Store, value: Float)
    requires LawfulJs(app.js) && HealthyStore(app, s) && !s.pending && Sound(app.js.fpu, value)
    ensures var s' := Handle(app, s, Recall(value));
            HealthyStore(app, s') && !s'.pending && Entering(s'.calcState) && s'.calcState.display == app.js.show(value)
  {
    EventIsHealthy(app, s, Recall(value));
  }

  /** By recalling it: in every orderly run, recalling a value is safe exactly
      when String writes it without an exponent. */
  lemma RecallIsSafeIff(app: App, events: seq<Event>, value: Float)
    requires LawfulJs(app.js) && OrderlyRun(app, events) && !Run(app, events).pending && Sound(app.js.fpu, value)
    ensures SafeFrom(app, Run(app, events + [Recall(value)])) <==> 'e' !in app.js.show(value)
  {
    RunIsHealthy(app, events);
    RecallEnters(app, Run(app, events), value);
    RunAppends(app, events, Recall(value));
    EntryIsSafeIff(app, Run(app, events + [Recall(value)]));
  }

  // n1 op n2, and then a key that puts its answer in place of n2.
  function UnaryKeys(first: seq<Input>, term: Term, key: UnaryKey): seq<Input> {
    KeysSoFar(first, [term]) + [Unary(key)]
  }

  lemma UnaryAnswerEnters(app: App, server: Server, first: seq<Input>, term: Term, key: UnaryKey)
    requires LawfulJs(app.js) && IsOperand(first) && IsOperand(term.operand)
    requires var y := server(UnaryOnSecond(key, ValueOf(app, first), ValueOf(app, term.operand)));
             y.Answer? && Sound(app.js.fpu, y.value)
    ensures var y := server(UnaryOnSecond(key, ValueOf(app, first), ValueOf(app, term.operand))).value;
            Play(app, server, INITIAL_STATE, UnaryKeys(first, term, key)) ==
            EnteringSecond(ValueOf(app, first), term.operator, app.js.show(y))
  {
    TypeResumed(app, server, first, [term]);
    assert [term][..0] == [] && Resumed(app, server, ValueOf(app, first), []) == Answer(ValueOf(app, first));
    PlayAppends(app, server, INITIAL_STATE, KeysSoFar(first, [term]), Unary(key));
    UnaryThenEquals(app, server, ValueOf(app, first), term.operator, Typed(term.operand), key);
  }

  /** Or by typing: if the answer to `n1 op n2 sqrt`, or to `n1 op n2 %`, is
      written with an exponent, as that to `5 + 0.000000000000001 sqrt` is, there
      is an honest run of these keys that ends with an unsafe entry. */
  lemma TypingCanBeUnsafe(app: App, server: Server, first: seq<Input>, term: Term, key: UnaryKey)
    requires LawfulJs(app.js) && IsOperand(first) && IsOperand(term.operand)
    requires var y := server(UnaryOnSecond(key, ValueOf(app, first), ValueOf(app, term.operand)));
             y.Answer? && Sound(app.js.fpu, y.value) && 'e' in app.js.show(y.value)
    ensures var events := ServeAll(app, server, UnaryKeys(first, term, key));
            && Honest(app, server, events) && Settled(Run(app, events))
            && Entering(Run(app, events).calcState) && !SafeFrom(app, Run(app, events))
  {
    var y := server(UnaryOnSecond(key, ValueOf(app, first), ValueOf(app, term.operand))).value;
    PlayIsARun(app, server, UnaryKeys(first, term, key));
    UnaryAnswerEnters(app, server, first, term, key);
    var k :| 0 <= k < |app.js.show(y)| && app.js.show(y)[k] == 'e';
    ExponentIsUnsafe(app, Run(app, ServeAll(app, server, UnaryKeys(first, term, key))), y, k);
  }

  // --- a recalled value as if it had been typed ---------------------------------------

  /** A recalled value is an entry exactly as if it had been keyed in if and only
      if String writes it as a decimal of at most MAX_ENTRY_DIGITS digits. */
  lemma RecallIsTypedIff(app: App, server: Server, value: Float)
    ensures (exists keys :: IsOperand(keys) && Play(app, server, INITIAL_STATE, keys) == RecalledState(app.js, value)) <==>
            IsEntry(app.js.show(value)) && CountDigits(app.js.show(value)) <= MAX_ENTRY_DIGITS
  {
    var text := app.js.show(value);
    forall keys | IsOperand(keys)
      ensures Play(app, server, INITIAL_STATE, keys) == RecalledState(app.js, value) <==> Typed(keys) == text
      ensures IsEntry(Typed(keys)) && CountDigits(Typed(keys)) <= MAX_ENTRY_DIGITS
    {
      OperandPlayed(app, server, INITIAL_STATE, keys);
      TypedIsEntry(keys);
    }
    if IsEntry(text) && CountDigits(text) <= MAX_ENTRY_DIGITS {
      EntryCanBeTyped(text);
      assert IsOperand(Keystrokes(text));
    }
  }

  // How String writes 0.1 + 0.2.
  const POINT_THREE := "0." + "30000000000000004"

  lemma PointThreeIsLong()
    ensures CountDigits(POINT_THREE) > MAX_ENTRY_DIGITS && 'e' !in POINT_THREE && IsEntry(POINT_THREE)
  {
    CountAppends("0.", "30000000000000004");
    CountOfDigits("30000000000000004");
    PartsOfAppend("0", '.');
    PointThreeIsDecimal();
  }

  lemma PointThreeIsDecimal()
    ensures IsEntry(POINT_THREE) && 'e' !in POINT_THREE
  {
    var s := POINT_THREE;
    assert s[1] == '.' && s[0] == '0';
    assert s[1..][0] == '.' && Point(s[1..]) == 0 && Point(s) == 1;
    assert IntegerPart(s) == "0" && FractionPart(s) == "30000000000000004";
  }

  /** So a value that needs no exponent may still be one that cannot be keyed in:
      0.1 + 0.2 has too many digits. */
  lemma RecallCanBeUntypable(app: App, server: Server, value: Float)
    requires app.js.show(value) == POINT_THREE
    ensures 'e' !in app.js.show(value) && IsEntry(app.js.show(value))
    ensures forall keys :: IsOperand(keys) ==> Play(app, server, INITIAL_STATE, keys) != RecalledState(app.js, value)
  {
    PointThreeIsLong();
    RecallIsTypedIff(app, server, value);
  }
}
