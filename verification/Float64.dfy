/** IEEE 754 binary64 as far as the calculator depends on it.

    A finite non-zero value is the real number it stands for.  Rounding, power
    and square root are parameters; what is assumed about them is Lawful.  The
    four basic operations are defined from rounding, so that which of them can
    give a NaN or an infinity is proved, not assumed. */
module Float64 {
  datatype Raw = NaN | Inf(neg: bool) | Zero(neg: bool) | Num(r: real)

  // A zero is never a Num.
  type Float = x: Raw | x.Num? ==> x.r != 0.0 witness Zero(false)

  datatype Fpu = Fpu(round: real -> Float, pow: (Float, Float) -> Float, sqrt: Float -> Float)

  predicate Finite(x: Float) {
    x.Zero? || x.Num?
  }

  predicate Negative(x: Float) {
    x == Inf(true) || (x.Num? && x.r < 0.0)
  }

  predicate SignBit(x: Float) {
    Negative(x) || x == Zero(true)
  }

  function RealOf(x: Float): real
    requires Finite(x)
  {
    if x.Zero? then 0.0 else x.r
  }

  function Product(x: Float, y: Float): (p: real)
    requires Finite(x) && Finite(y)
    ensures x.Zero? || y.Zero? ==> p == 0.0
  {
    RealOf(x) * RealOf(y)
  }

  lemma ProductIsExact(x: Float, y: Float)
    requires Finite(x) && Finite(y)
    ensures Product(x, y) == RealOf(x) * RealOf(y)
  {
  }

  predicate IsInteger(x: Float)
    requires Finite(x)
  {
    RealOf(x) == RealOf(x).Floor as real
  }

  function Negate(x: Float): Float {
    match x
    case NaN => NaN
    case Inf(neg) => Inf(!neg)
    case Zero(neg) => Zero(!neg)
    case Num(r) => Num(-r)
  }

  // The order of the numbers and the infinities.
  predicate AtMost(x: Float, y: Float) {
    && !x.NaN? && !y.NaN?
    && (x == Inf(true) || y == Inf(false) || (Finite(x) && Finite(y) && RealOf(x) <= RealOf(y)))
  }

  // `value === 0 ? 0 : value`
  function DropNegativeZero(x: Float): Float {
    if x.Zero? then Zero(false) else x
  }

  const EXACT_INTEGER_BOUND: real := 9007199254740992.0
  const PLAIN_BOUND: real := 10000000000000000000000.0

  ghost predicate RoundsLawfully(fpu: Fpu) {
    // Rounding gives a number, below 10^22 (far from overflow) a finite one, and
    // never swaps two values.
    && (forall r :: !fpu.round(r).NaN?)
    && (forall r :: -PLAIN_BOUND <= r <= PLAIN_BOUND ==> Finite(fpu.round(r)))
    && (forall r, s {:trigger AtMost(fpu.round(r), fpu.round(s))} :: r <= s ==> AtMost(fpu.round(r), fpu.round(s)))
    // Integers up to 2^53 are exact.
    && (forall r :: r != 0.0 && r == r.Floor as real && -EXACT_INTEGER_BOUND <= r <= EXACT_INTEGER_BOUND ==> fpu.round(r) == Num(r))
    && fpu.round(0.0) == Zero(false)
    // What rounding gives is representable, and so is its opposite.
    && (forall r {:trigger Representable(fpu, fpu.round(r))} :: Representable(fpu, fpu.round(r)))
    && (forall x :: Representable(fpu, x) ==> Representable(fpu, Negate(x)))
  }

  ghost predicate PowersLawfully(fpu: Fpu) {
    // Power of finite values is NaN for a negative base and a non-integer exponent.
    && (forall x, y :: Finite(x) && Finite(y) ==> (fpu.pow(x, y).NaN? <==> Negative(x) && !IsInteger(y)))
    // The square root of a finite value that is not negative is finite.
    && (forall x :: Finite(x) && !Negative(x) ==> Finite(fpu.sqrt(x)))
    && (forall x, y :: Representable(fpu, fpu.pow(x, y)))
    && (forall x :: Representable(fpu, fpu.sqrt(x)))
  }

  ghost predicate Lawful(fpu: Fpu) {
    RoundsLawfully(fpu) && PowersLawfully(fpu)
  }

  // The values a binary64 can hold.
  predicate Representable(fpu: Fpu, x: Float) {
    x.Num? ==> fpu.round(x.r) == x
  }

  function Add(fpu: Fpu, x: Float, y: Float): Float {
    if x.NaN? || y.NaN? then NaN
    else if x.Inf? && y.Inf? then if x == y then x else NaN
    else if x.Inf? then x
    else if y.Inf? then y
    else if x.Zero? && y.Zero? then Zero(x.neg && y.neg)
    else if RealOf(x) + RealOf(y) == 0.0 then Zero(false)
    else fpu.round(RealOf(x) + RealOf(y))
  }

  function Subtract(fpu: Fpu, x: Float, y: Float): Float {
    Add(fpu, x, Negate(y))
  }

  function Multiply(fpu: Fpu, x: Float, y: Float): Float {
    var neg := SignBit(x) != SignBit(y);
    if x.NaN? || y.NaN? then NaN
    else if x.Inf? || y.Inf? then if x.Zero? || y.Zero? then NaN else Inf(neg)
    else if x.Zero? || y.Zero? then Zero(neg)
    else fpu.round(Product(x, y))
  }

  function Divide(fpu: Fpu, x: Float, y: Float): Float {
    var neg := SignBit(x) != SignBit(y);
    if x.NaN? || y.NaN? then NaN
    else if x.Inf? then if y.Inf? then NaN else Inf(neg)
    else if y.Inf? then Zero(neg)
    else if y.Zero? then if x.Zero? then NaN else Inf(neg)
    else if x.Zero? then Zero(neg)
    else fpu.round(RealOf(x) / RealOf(y))
  }

  lemma RoundsInOrder(fpu: Fpu, r: real, s: real)
    requires Lawful(fpu) && r <= s
    ensures AtMost(fpu.round(r), fpu.round(s))
  {
    var x, y := fpu.round(r), fpu.round(s);
    assert AtMost(x, y);
  }
}
