/** What is assumed of arithmetic, of String and Number and of the locale can
    hold together: here is one arithmetic, of integers only, in which it does. */
module Assumptions {
  import opened Decimal
  import opened Engine
  import opened Entry
  import opened Float64
  import opened FormatNumber
  import opened StoreInvariants

  function Whole(n: int): Float {
    if n == 0 then Zero(false) else Num(n as real)
  }

  function SimplePow(x: Float, y: Float): Float {
    if Finite(x) && Finite(y) && Negative(x) && !IsInteger(y) then NaN else Zero(false)
  }

  const SIMPLE: Fpu := Fpu((r: real) => Whole(r.Floor), SimplePow, (x: Float) => Zero(false))

  lemma SimpleRounding(r: real)
    ensures SIMPLE.round(r) == Whole(r.Floor) && Finite(SIMPLE.round(r))
    ensures r == r.Floor as real && r != 0.0 ==> SIMPLE.round(r) == Num(r)
    ensures SIMPLE.round(r).Num? ==> SIMPLE.round(SIMPLE.round(r).r) == SIMPLE.round(r)
  {
  }

  lemma SimpleOrder(r: real, s: real)
    requires r <= s
    ensures AtMost(SIMPLE.round(r), SIMPLE.round(s))
  {
    SimpleRounding(r);
    SimpleRounding(s);
  }

  lemma NegatedInteger(r: real)
    requires r == r.Floor as real
    ensures -r == (-r).Floor as real
  {
    var n := -r.Floor;
    assert -r == n as real;
  }

  lemma SimpleNegation(x: Float)
    requires Representable(SIMPLE, x)
    ensures Representable(SIMPLE, Negate(x))
  {
    if x.Num? {
      SimpleRounding(x.r);
      NegatedInteger(x.r);
      var r := -x.r;
      SimpleRounding(r);
    }
  }

  lemma SimpleIsRepresentable(r: real)
    ensures Representable(SIMPLE, SIMPLE.round(r))
  {
    SimpleRounding(r);
  }

  lemma SimpleRounds()
    ensures RoundsLawfully(SIMPLE)
  {
    forall r: real
      ensures !SIMPLE.round(r).NaN? && Finite(SIMPLE.round(r))
      ensures r == r.Floor as real && r != 0.0 ==> SIMPLE.round(r) == Num(r)
    {
      SimpleRounding(r);
    }
    forall r: real ensures Representable(SIMPLE, SIMPLE.round(r)) {
      SimpleIsRepresentable(r);
    }
    forall r: real, s: real | r <= s ensures AtMost(SIMPLE.round(r), SIMPLE.round(s)) {
      SimpleOrder(r, s);
    }
    forall x | Representable(SIMPLE, x) ensures Representable(SIMPLE, Negate(x)) {
      SimpleNegation(x);
    }
  }

  lemma SimplePowers()
    ensures PowersLawfully(SIMPLE)
  {
  }

  lemma SimpleIsLawful()
    ensures Lawful(SIMPLE)
  {
    SimpleRounds();
    SimplePowers();
  }

  // --- writing and reading integers -------------------------------------------------

  const LONG: nat := 1_000_000_000_000_000_000_000

  function Sign(n: int): string {
    if n < 0 then "-" else ""
  }

  function Abs(n: int): nat {
    if n < 0 then -n else n
  }

  function ShowWhole(n: int): string {
    Sign(n) + ((if Abs(n) < LONG then "" else "e") + Numeral(Abs(n)))
  }

  function Show(x: Float): string {
    if x.Num? && x.r == x.r.Floor as real then ShowWhole(x.r.Floor) else "0"
  }

  function ReadLong(s: string): Float {
    var t := Unsigned(s);
    if |t| >= 2 && t[0] == 'e' && AllDigits(t[1..]) then
      var n: int := Value(t[1..]);
      Whole(if Signed(s) then -n else n)
    else NaN
  }

  const SIMPLE_JS := Js(SIMPLE, Show, ReadLong)

  lemma {:induction false} NumeralLength(n: nat, k: nat)
    requires k > 0 && n < Pow10(k)
    ensures |Numeral(n)| <= k
  {
    if n >= 10 {
      NumeralLength(n / 10, k - 1);
    }
  }

  lemma ShortNumeral(n: nat)
    requires n < LONG
    ensures |Numeral(n)| <= 21
  {
    Pow21();
    NumeralLength(n, 21);
  }

  lemma SignedNumeral(n: int, t: string)
    requires t != "" && t[0] != '-'
    ensures Signed(Sign(n) + t) == (n < 0) && Unsigned(Sign(n) + t) == t
  {
  }

  lemma NotZeroNumeral(t: string)
    requires IsNumeral(t) && Value(t) > 0
    ensures t != "0"
  {
    assert Value("0") == 0 by {
      assert "0"[..0] == "";
    }
  }

  lemma NumeralInRange(n: int, t: string)
    requires IsNumeral(t) && Value(t) == Abs(n) && |t| <= 21
    ensures InRange(Sign(n) + t)
  {
    SignedNumeral(n, t);
    WholePart(t);
    if n < 0 {
      NotZeroNumeral(t);
    }
  }

  // A numeral, with or without a sign, is read as it is written.
  lemma NumeralReads(n: int, t: string)
    requires IsNumeral(t) && Value(t) == Abs(n)
    ensures Number(SIMPLE, ReadLong, Sign(n) + t) == Whole(n)
  {
    SignedNumeral(n, t);
    WholePart(t);
    SimpleRounding(n as real);
    var s := Sign(n) + t;
    assert IsDecimal(s) && Magnitude(Unsigned(s)) == Abs(n) as real;
  }

  lemma ShortNumber(n: int)
    requires Abs(n) < LONG
    ensures InRange(ShowWhole(n)) && Number(SIMPLE, ReadLong, ShowWhole(n)) == Whole(n)
  {
    ValueOfNumeral(Abs(n));
    ShortNumeral(Abs(n));
    NumeralInRange(n, Numeral(Abs(n)));
    NumeralReads(n, Numeral(Abs(n)));
    assert ShowWhole(n) == Sign(n) + Numeral(Abs(n));
  }

  // A numeral behind an e, with or without a sign, is not a decimal, and is read
  // as it is written.
  lemma LongIsNotDecimal(sign: string, t: string)
    requires t != "" && t[0] == 'e' && (sign == "" || sign == "-")
    ensures !IsDecimal(sign + t) && 'e' in sign + t
  {
    var s := sign + t;
    assert s[|sign|] == 'e';
    assert Unsigned(s) == t;
    assert IntegerPart(t) == "" || IntegerPart(t)[0] == 'e';
  }

  lemma LongReads(n: int, digits: string)
    requires n != 0 && IsNumeral(digits) && Value(digits) == Abs(n)
    ensures ReadLong(Sign(n) + ("e" + digits)) == Whole(n)
  {
    var t := "e" + digits;
    SignedNumeral(n, t);
    assert t[1..] == digits;
  }

  lemma LongNumber(n: int)
    requires Abs(n) >= LONG
    ensures 'e' in ShowWhole(n) && Number(SIMPLE, ReadLong, ShowWhole(n)) == Whole(n)
  {
    ValueOfNumeral(Abs(n));
    LongReads(n, Numeral(Abs(n)));
    LongIsNotDecimal(Sign(n), "e" + Numeral(Abs(n)));
  }

  lemma DigitsHaveNoE(n: nat)
    ensures 'e' !in Numeral(n)
  {
    ValueOfNumeral(n);
  }

  lemma OnlyE(before: string, digits: string, k: nat)
    requires 'e' !in before && 'e' !in digits
    requires 0 < k <= |before + ("e" + digits)| && (before + ("e" + digits))[k - 1] == 'e'
    ensures (before + ("e" + digits))[..k] == before + "e"
  {
    var s := before + ("e" + digits);
    assert forall i :: 0 <= i < |before| ==> s[i] == before[i];
    assert forall i :: |before| < i < |s| ==> s[i] == digits[i - |before| - 1];
  }

  lemma CutAfterE(n: int, k: nat)
    requires 0 < k <= |ShowWhole(n)| && ShowWhole(n)[k - 1] == 'e'
    ensures ReadLong(ShowWhole(n)[..k]).NaN?
  {
    DigitsHaveNoE(Abs(n));
    if Abs(n) >= LONG {
      OnlyE(Sign(n), Numeral(Abs(n)), k);
      SignedNumeral(n, "e");
    } else {
      ShortHasNoE(n);
    }
  }

  lemma ShortHasNoE(n: int)
    requires Abs(n) < LONG
    ensures 'e' !in ShowWhole(n)
  {
    DigitsHaveNoE(Abs(n));
    assert ShowWhole(n) == Sign(n) + Numeral(Abs(n));
  }

  lemma SimpleJsIsLawful()
    ensures LawfulJs(SIMPLE_JS)
  {
    SimpleIsLawful();
    ZeroIsEntry();
    ShortNumber(0);
    forall x: Float | Finite(x) && Representable(SIMPLE, x) && x != Zero(true)
      ensures Number(SIMPLE, ReadLong, Show(x)) == x
    {
      if x.Num? {
        NumberBack(x.r.Floor);
      }
    }
    forall x: Float | Finite(x) ensures InRange(Show(x)) || 'e' in Show(x) {
      if x.Num? {
        NumberBack(x.r.Floor);
      }
    }
    forall x: Float, k | Finite(x) && 0 < k <= |Show(x)| && Show(x)[k - 1] == 'e'
      ensures ReadLong(Show(x)[..k]).NaN?
    {
      CutAfterE(x.r.Floor, k);
    }
  }

  lemma NumberBack(n: int)
    ensures Number(SIMPLE, ReadLong, ShowWhole(n)) == Whole(n)
    ensures InRange(ShowWhole(n)) || 'e' in ShowWhole(n)
  {
    if Abs(n) < LONG {
      ShortNumber(n);
    } else {
      LongNumber(n);
    }
  }

  function SimpleIntl(x: Float): string {
    if Finite(x) && RealOf(x) >= 0.0 then Group(Numeral(RealOf(x).Floor)) else ""
  }

  lemma SimpleLocaleIsLawful()
    ensures LawfulLocale(Locale(SIMPLE, ReadLong, SimpleIntl))
  {
    SimpleIsLawful();
    forall r: real | r == r.Floor as real ensures IsInteger(SIMPLE.round(r)) {
      SimpleRounding(r);
    }
  }

  /** The assumptions of every theorem here are met by something. */
  lemma AssumptionsHoldTogether()
    ensures exists fpu :: Lawful(fpu)
    ensures exists js :: LawfulJs(js)
    ensures exists l :: LawfulLocale(l)
  {
    SimpleIsLawful();
    SimpleJsIsLawful();
    SimpleLocaleIsLawful();
  }
}
