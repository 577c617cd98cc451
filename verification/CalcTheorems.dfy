/** What an evaluation answers, said without the code: when each error is
    given, and which number otherwise. */
module CalcTheorems {
  import opened Calc
  import opened Float64
  import opened Options

  const ARITHMETIC: set<string> := {"add", "subtract", "multiply", "divide"}
  const BINARY: set<string> := ARITHMETIC + {"power", "percent"}

  predicate Known(name: string) {
    name in BINARY || name == "sqrt"
  }

  // The number of operands the operation takes.
  predicate TakesOperands(name: string, b: Option<Float>) {
    b.Some? <==> name in BINARY
  }

  predicate Operand(fpu: Fpu, x: Float) {
    Finite(x) && Representable(fpu, x)
  }

  predicate DividesByZero(name: string, a: Float, b: Float) {
    (name == "divide" && b.Zero?) || (name == "power" && a.Zero? && Negative(b))
  }

  predicate NotReal(name: string, a: Float, b: Float)
    requires Finite(b)
  {
    (name == "sqrt" && Negative(a)) || (name == "power" && Negative(a) && !IsInteger(b))
  }

  // The real number an arithmetic operation stands for.
  function Exact(name: string, a: Float, b: Float): real
    requires name in ARITHMETIC && Finite(a) && Finite(b) && !DividesByZero(name, a, b)
  {
    if name == "add" then RealOf(a) + RealOf(b)
    else if name == "subtract" then RealOf(a) - RealOf(b)
    else if name == "multiply" then Product(a, b)
    else RealOf(a) / RealOf(b)
  }

  // b hundredths of a, with b / 100 rounded first.
  function PercentAtOnce(fpu: Fpu, a: Float, b: Float): Float
    requires Finite(a) && Finite(b)
  {
    var share := fpu.round(RealOf(b) / 100.0);
    if Finite(share) then fpu.round(Product(a, share)) else share
  }

  predicate Overflows(fpu: Fpu, name: string, a: Float, b: Float)
    requires Finite(a) && Finite(b) && !DividesByZero(name, a, b)
  {
    if name in ARITHMETIC then fpu.round(Exact(name, a, b)).Inf?
    else if name == "power" then fpu.pow(a, b).Inf?
    else if name == "percent" then PercentAtOnce(fpu, a, b).Inf?
    else false
  }

  // --- one operation at a time ----------------------------------------------

  // Where an operation stands in the registry.
  function Place(name: string): (i: nat)
    requires Known(name)
    ensures i < |SPECS| && SPECS[i].name == name
  {
    if name == "add" then 0
    else if name == "subtract" then 1
    else if name == "multiply" then 2
    else if name == "divide" then 3
    else if name == "power" then 4
    else if name == "sqrt" then 5
    else 6
  }

  lemma LookupKnows(r: Registry, name: string)
    requires Standard(r)
    ensures Known(name) <==> Lookup(r, name).Some?
    ensures Known(name) ==> (name in BINARY <==> Lookup(r, name).value.arity == 2)
    ensures Known(name) ==> (name == "sqrt" <==> Lookup(r, name).value.arity == 1)
  {
    if Known(name) {
      LookupFinds(r, Place(name));
    }
  }

  lemma SumRounds(fpu: Fpu, a: Float, b: Float)
    requires Lawful(fpu) && Finite(a) && Finite(b)
    ensures DropNegativeZero(Add(fpu, a, b)) == DropNegativeZero(fpu.round(RealOf(a) + RealOf(b)))
  {
  }

  lemma ProductRounds(fpu: Fpu, a: Float, b: Float)
    requires Lawful(fpu) && Finite(a) && Finite(b)
    ensures DropNegativeZero(Multiply(fpu, a, b)) == DropNegativeZero(fpu.round(Product(a, b)))
  {
  }

  lemma QuotientRounds(fpu: Fpu, a: Float, b: Float)
    requires Lawful(fpu) && Finite(a) && Finite(b) && !b.Zero?
    ensures DropNegativeZero(Divide(fpu, a, b)) == DropNegativeZero(fpu.round(RealOf(a) / RealOf(b)))
  {
  }

  lemma Between(fpu: Fpu, r: real, s: real)
    requires Lawful(fpu) && (0.0 <= r <= s || s <= r <= 0.0)
    ensures fpu.round(r).Inf? ==> fpu.round(s) == fpu.round(r)
    ensures Finite(fpu.round(s)) ==>
      Finite(fpu.round(r)) && (0.0 <= RealOf(fpu.round(r)) <= RealOf(fpu.round(s)) || RealOf(fpu.round(s)) <= RealOf(fpu.round(r)) <= 0.0)
  {
    if 0.0 <= r <= s {
      RoundsInOrder(fpu, 0.0, r);
      RoundsInOrder(fpu, r, s);
    } else {
      RoundsInOrder(fpu, s, r);
      RoundsInOrder(fpu, r, 0.0);
    }
  }

  // --- per cent ----------------------------------------------------------------

  // A hundredth of an operand lies between zero and the operand.
  lemma ShareIsSmaller(fpu: Fpu, b: Float)
    requires Lawful(fpu) && Operand(fpu, b)
    ensures var share := fpu.round(RealOf(b) / 100.0);
            && Finite(share)
            && (0.0 <= RealOf(share) <= RealOf(b) || RealOf(b) <= RealOf(share) <= 0.0)
  {
    Between(fpu, RealOf(b) / 100.0, RealOf(b));
  }

  lemma Scaled(a: real, share: real, b: real)
    requires 0.0 <= share <= b || b <= share <= 0.0
    ensures 0.0 <= a * share <= a * b || a * b <= a * share <= 0.0
  {
  }

  lemma ProductsInOrder(a: Float, share: Float, b: Float)
    requires Finite(a) && Finite(share) && Finite(b)
    requires 0.0 <= RealOf(share) <= RealOf(b) || RealOf(b) <= RealOf(share) <= 0.0
    ensures 0.0 <= Product(a, share) <= Product(a, b) || Product(a, b) <= Product(a, share) <= 0.0
  {
    Scaled(RealOf(a), RealOf(share), RealOf(b));
  }

  // Only a product out of range can put the fallback out of range.
  lemma FallbackIsInRange(fpu: Fpu, a: Float, b: Float)
    requires Lawful(fpu) && Operand(fpu, a) && Operand(fpu, b) && Finite(fpu.round(Product(a, b)))
    ensures !PercentAtOnce(fpu, a, b).Inf?
  {
    var share := fpu.round(RealOf(b) / 100.0);
    ShareIsSmaller(fpu, b);
    ProductsInOrder(a, share, b);
    Between(fpu, Product(a, share), Product(a, b));
  }

  // The first attempt: one rounded product, one hundredth of it.
  function PercentOfProduct(fpu: Fpu, a: Float, b: Float): Float
    requires Finite(a) && Finite(b)
  {
    var product := fpu.round(Product(a, b));
    if Finite(product) then fpu.round(RealOf(product) / 100.0) else product
  }

  lemma ProductFirst(fpu: Fpu, a: Float, b: Float)
    requires Lawful(fpu) && Finite(a) && Finite(b)
    ensures DropNegativeZero(Divide(fpu, Multiply(fpu, a, b), HUNDRED)) == DropNegativeZero(PercentOfProduct(fpu, a, b))
  {
    ProductRounds(fpu, a, b);
    var product := Multiply(fpu, a, b);
    if Finite(product) {
      QuotientRounds(fpu, product, HUNDRED);
    }
  }

  lemma ShareFirst(fpu: Fpu, a: Float, b: Float)
    requires Lawful(fpu) && Operand(fpu, a) && Operand(fpu, b)
    ensures DropNegativeZero(Multiply(fpu, a, Divide(fpu, b, HUNDRED))) == DropNegativeZero(PercentAtOnce(fpu, a, b))
  {
    ShareIsSmaller(fpu, b);
    var share := Divide(fpu, b, HUNDRED);
    QuotientRounds(fpu, b, HUNDRED);
    ProductRounds(fpu, a, share);
  }

  lemma PercentRounds(fpu: Fpu, a: Float, b: Float)
    requires Lawful(fpu) && Operand(fpu, a) && Operand(fpu, b)
    ensures DropNegativeZero(PercentOp(fpu, a, b).value) ==
              DropNegativeZero(if PercentOfProduct(fpu, a, b).Inf? then PercentAtOnce(fpu, a, b)
                               else PercentOfProduct(fpu, a, b))
  {
    ProductFirst(fpu, a, b);
    ShareFirst(fpu, a, b);
  }

  lemma ProductDecides(fpu: Fpu, a: Float, b: Float)
    requires Lawful(fpu) && Finite(a) && Finite(b)
    ensures PercentOfProduct(fpu, a, b).Inf? <==> fpu.round(Product(a, b)).Inf?
    ensures !PercentOfProduct(fpu, a, b).NaN?
  {
    var product := fpu.round(Product(a, b));
    if Finite(product) {
      ShareIsSmaller(fpu, product);
    }
  }

  lemma ShareDecides(fpu: Fpu, a: Float, b: Float)
    requires Lawful(fpu) && Operand(fpu, a) && Operand(fpu, b)
    ensures PercentAtOnce(fpu, a, b).Inf? ==> fpu.round(Product(a, b)).Inf?
    ensures !PercentAtOnce(fpu, a, b).NaN?
  {
    ShareIsSmaller(fpu, b);
    if Finite(fpu.round(Product(a, b))) {
      FallbackIsInRange(fpu, a, b);
    }
  }

  lemma PercentOverflows(fpu: Fpu, a: Float, b: Float)
    requires Lawful(fpu) && Operand(fpu, a) && Operand(fpu, b)
    ensures PercentOfProduct(fpu, a, b).Inf? <==> fpu.round(Product(a, b)).Inf?
    ensures PercentAtOnce(fpu, a, b).Inf? ==> fpu.round(Product(a, b)).Inf?
    ensures !PercentOfProduct(fpu, a, b).NaN? && !PercentAtOnce(fpu, a, b).NaN?
  {
    ProductDecides(fpu, a, b);
    ShareDecides(fpu, a, b);
  }

  // What an operation is carried out by.
  function FnOf(name: string): Fn
    requires Known(name)
  {
    if name == "add" then AddFn
    else if name == "subtract" then SubtractFn
    else if name == "multiply" then MultiplyFn
    else if name == "divide" then DivideFn
    else if name == "power" then PowerFn
    else if name == "sqrt" then SqrtFn
    else PercentFn
  }

  lemma FnInPlace(name: string)
    requires Known(name)
    ensures SPECS[Place(name)].fn == FnOf(name) && (SPECS[Place(name)].arity == 2 <==> name in BINARY)
  {
  }

  // The evaluation, once the operation is known and its operands are in order.
  lemma EvaluateCalls(fpu: Fpu, r: Registry, i: nat, a: Float, b: Option<Float>)
    requires Standard(r) && i < |SPECS| && Finite(a) && (b.Some? ==> Finite(b.value))
    requires b.Some? <==> SPECS[i].arity == 2
    ensures Evaluate(fpu, r, SPECS[i].name, a, b) == Checked(Call(fpu, SPECS[i].fn, a, b.GetOr(Zero(false))))
  {
    LookupFinds(r, i);
  }

  lemma AddCalls(fpu: Fpu, a: Float, b: Float)
    requires Lawful(fpu) && Finite(a) && Finite(b)
    ensures Checked(Call(fpu, AddFn, a, b)) == Checked(Ok(fpu.round(Exact("add", a, b))))
    ensures Checked(Call(fpu, SubtractFn, a, b)) == Checked(Ok(fpu.round(Exact("subtract", a, b))))
  {
    SumRounds(fpu, a, b);
    SumRounds(fpu, a, Negate(b));
  }

  lemma MultiplyCalls(fpu: Fpu, a: Float, b: Float)
    requires Lawful(fpu) && Finite(a) && Finite(b)
    ensures Checked(Call(fpu, MultiplyFn, a, b)) == Checked(Ok(fpu.round(Exact("multiply", a, b))))
  {
    ProductRounds(fpu, a, b);
  }

  lemma DivideCalls(fpu: Fpu, a: Float, b: Float)
    requires Lawful(fpu) && Finite(a) && Finite(b) && !b.Zero?
    ensures Checked(Call(fpu, DivideFn, a, b)) == Checked(Ok(fpu.round(Exact("divide", a, b))))
  {
    QuotientRounds(fpu, a, b);
  }

  lemma ArithmeticCalls(fpu: Fpu, name: string, a: Float, b: Float)
    requires Lawful(fpu) && name in ARITHMETIC && Finite(a) && Finite(b)
    requires !DividesByZero(name, a, b)
    ensures Checked(Call(fpu, FnOf(name), a, b)) == Checked(Ok(fpu.round(Exact(name, a, b))))
  {
    if name == "divide" {
      DivideCalls(fpu, a, b);
    } else if name == "multiply" {
      MultiplyCalls(fpu, a, b);
    } else {
      AddCalls(fpu, a, b);
    }
  }

  // --- every answer ------------------------------------------------------------

  // What the operation stands for, rounded, before the range check.
  function Rounded(fpu: Fpu, name: string, a: Float, b: Float): Float
    requires Known(name) && Finite(a) && Finite(b) && !DividesByZero(name, a, b)
  {
    if name in ARITHMETIC then fpu.round(Exact(name, a, b))
    else if name == "power" then fpu.pow(a, b)
    else if name == "sqrt" then fpu.sqrt(a)
    else if PercentOfProduct(fpu, a, b).Inf? then PercentAtOnce(fpu, a, b)
    else PercentOfProduct(fpu, a, b)
  }

  function Meaning(fpu: Fpu, name: string, a: Float, b: Float): Result
    requires Known(name) && Finite(a) && Finite(b)
  {
    if DividesByZero(name, a, b) then Err(DivisionByZero)
    else if NotReal(name, a, b) then Err(Domain)
    else if Overflows(fpu, name, a, b) then Err(NotFinite)
    else Ok(DropNegativeZero(Rounded(fpu, name, a, b)))
  }

  lemma RoundedInRange(fpu: Fpu, name: string, a: Float, b: Float)
    requires Lawful(fpu) && Known(name) && Operand(fpu, a) && Operand(fpu, b)
    requires !DividesByZero(name, a, b) && !NotReal(name, a, b)
    ensures Finite(Rounded(fpu, name, a, b)) <==> !Overflows(fpu, name, a, b)
    ensures Representable(fpu, Rounded(fpu, name, a, b))
  {
    if name == "percent" {
      PercentOverflows(fpu, a, b);
    }
  }

  lemma CallMeans(fpu: Fpu, name: string, a: Float, b: Float)
    requires Lawful(fpu) && Known(name) && Operand(fpu, a) && Operand(fpu, b)
    ensures Checked(Call(fpu, FnOf(name), a, b)) == Meaning(fpu, name, a, b)
  {
    if !DividesByZero(name, a, b) && !NotReal(name, a, b) {
      RoundedInRange(fpu, name, a, b);
      if name in ARITHMETIC {
        ArithmeticCalls(fpu, name, a, b);
      } else if name == "percent" {
        PercentRounds(fpu, a, b);
      }
    }
  }

  predicate InOrder(fpu: Fpu, name: string, a: Float, b: Option<Float>) {
    Known(name) && TakesOperands(name, b) && Operand(fpu, a) && (b.Some? ==> Operand(fpu, b.value))
  }

  /** The answer to a calculation whose operation is known and whose operands
      are there is what the operation means, or the one error that describes why
      there is none.  For the four arithmetic operations that is the exact result
      rounded once; for per cent the product and its hundredth are rounded, or if
      the product is out of range the hundredth of b and its product; power and
      square root are what binary64 gives. */
  lemma EvaluateMeans(fpu: Fpu, r: Registry, name: string, a: Float, b: Option<Float>)
    requires Lawful(fpu) && Standard(r) && InOrder(fpu, name, a, b)
    ensures Evaluate(fpu, r, name, a, b) == Meaning(fpu, name, a, b.GetOr(Zero(false)))
  {
    FnInPlace(name);
    EvaluateCalls(fpu, r, Place(name), a, b);
    CallMeans(fpu, name, a, b.GetOr(Zero(false)));
  }

  // An operand that is not finite, or a result that is not.
  predicate OutOfRange(fpu: Fpu, name: string, a: Float, b: Option<Float>) {
    var y := b.GetOr(Zero(false));
    Known(name) && TakesOperands(name, b) &&
    (!InOrder(fpu, name, a, b) ||
     (!DividesByZero(name, a, y) && !NotReal(name, a, y) && Overflows(fpu, name, a, y)))
  }

  /** Every calculation, whatever is asked: exactly when each error is given,
      and otherwise an answer that is finite, never a negative zero, and a value a
      binary64 can hold. */
  lemma EveryAnswer(fpu: Fpu, r: Registry, name: string, a: Float, b: Option<Float>)
    requires Lawful(fpu) && Standard(r) && Representable(fpu, a) && (b.Some? ==> Representable(fpu, b.value))
    ensures var e, y := Evaluate(fpu, r, name, a, b), b.GetOr(Zero(false));
            && (e == Err(UnknownOperation) <==> !Known(name))
            && (e == Err(Arity) <==> Known(name) && !TakesOperands(name, b))
            && (e == Err(DivisionByZero) <==> InOrder(fpu, name, a, b) && DividesByZero(name, a, y))
            && (e == Err(Domain) <==> InOrder(fpu, name, a, b) && NotReal(name, a, y))
            && (e == Err(NotFinite) <==> OutOfRange(fpu, name, a, b))
            && (e.Ok? ==> Operand(fpu, e.value) && e.value != Zero(true))
  {
    if InOrder(fpu, name, a, b) {
      EvaluateMeans(fpu, r, name, a, b);
      MeaningInRange(fpu, name, a, b.GetOr(Zero(false)));
    } else {
      RefusedOutright(fpu, r, name, a, b);
    }
  }

  lemma MeaningInRange(fpu: Fpu, name: string, a: Float, b: Float)
    requires Lawful(fpu) && Known(name) && Operand(fpu, a) && Operand(fpu, b)
    ensures var e := Meaning(fpu, name, a, b); e.Ok? ==> Operand(fpu, e.value) && e.value != Zero(true)
  {
    if Meaning(fpu, name, a, b).Ok? {
      RoundedInRange(fpu, name, a, b);
    }
  }

  lemma RefusedOutright(fpu: Fpu, r: Registry, name: string, a: Float, b: Option<Float>)
    requires Standard(r) && Representable(fpu, a) && (b.Some? ==> Representable(fpu, b.value)) && !InOrder(fpu, name, a, b)
    ensures Evaluate(fpu, r, name, a, b) ==
            Err(if !Known(name) then UnknownOperation else if !TakesOperands(name, b) then Arity else NotFinite)
  {
    LookupKnows(r, name);
  }

  lemma WholeNumbersAreExact(fpu: Fpu, n: int)
    requires Lawful(fpu) && -EXACT_INTEGER_BOUND <= n as real <= EXACT_INTEGER_BOUND
    ensures fpu.round(n as real) == if n == 0 then Zero(false) else Num(n as real)
  {
    var r := n as real;
    assert r == r.Floor as real;
  }

  lemma PercentOfWhole(fpu: Fpu, a: Float, b: Float, percent: int)
    requires Lawful(fpu) && Finite(a) && Finite(b)
    requires Product(a, b) == (100 * percent) as real && -EXACT_INTEGER_BOUND <= Product(a, b) <= EXACT_INTEGER_BOUND
    ensures PercentOfProduct(fpu, a, b) == if percent == 0 then Zero(false) else Num(percent as real)
  {
    WholeNumbersAreExact(fpu, 100 * percent);
    assert (100 * percent) as real / 100.0 == percent as real;
    WholeNumbersAreExact(fpu, percent);
  }

  /** b per cent of a is exact for whole numbers whose product is at most 2^53
      and a multiple of 100. */
  lemma PercentIsExact(fpu: Fpu, r: Registry, a: Float, b: Float, percent: int)
    requires Lawful(fpu) && Standard(r) && Operand(fpu, a) && Operand(fpu, b)
    requires Product(a, b) == (100 * percent) as real && -EXACT_INTEGER_BOUND <= Product(a, b) <= EXACT_INTEGER_BOUND
    ensures Evaluate(fpu, r, "percent", a, Some(b)) == Ok(if percent == 0 then Zero(false) else Num(percent as real))
  {
    PercentOfWhole(fpu, a, b, percent);
    PercentRounds(fpu, a, b);
    EvaluateCalls(fpu, r, 6, a, Some(b));
  }
}
