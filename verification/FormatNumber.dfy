/** How an entry is written on the screen, and read back. */
module FormatNumber {
  import opened Decimal
  import opened Entry
  import opened Float64

  // A comma after every three digits from the right.
  function Group(s: string): string {
    if |s| <= 3 then s else Group(s[..|s| - 3]) + "," + s[|s| - 3..]
  }

  // JavaScript's Number, and Intl.NumberFormat("en-US").
  datatype Locale = Locale(fpu: Fpu, other: string -> Float, intl: Float -> string)

  ghost predicate LawfulLocale(l: Locale) {
    && Lawful(l.fpu)
    // Rounding leaves an integer an integer.
    && (forall r: real :: r == r.Floor as real && Finite(l.fpu.round(r)) ==> IsInteger(l.fpu.round(r)))
    // An integer is written out in full.
    && (forall x :: Finite(x) && x != Zero(true) && IsInteger(x) && RealOf(x) >= 0.0 ==>
          l.intl(x) == Group(Numeral(RealOf(x).Floor)))
  }

  function GroupIntegerPart(l: Locale, s: string): string {
    if s == "" then s
    else
      var numeric := Number(l.fpu, l.other, s);
      if Finite(numeric) then l.intl(numeric) else s
  }

  function FormatEntry(l: Locale, raw: string): string {
    var unsigned := Unsigned(raw);
    (if Signed(raw) then "-" else "") + GroupIntegerPart(l, IntegerPart(unsigned)) + unsigned[Point(unsigned)..]
  }

  function StripCommas(s: string): string {
    if s == "" then ""
    else StripCommas(s[..|s| - 1]) + if s[|s| - 1] == ',' then "" else [s[|s| - 1]]
  }

  function ParseFormatted(l: Locale, raw: string): Float {
    DropNegativeZero(Number(l.fpu, l.other, StripCommas(raw)))
  }

  // --- grouping ----------------------------------------------------------------

  // Counting from the right and from zero, the commas are at 3, 7, 11, ...
  ghost predicate Grouped(g: string) {
    && (forall i :: 0 <= i < |g| ==> (g[i] == ',' <==> (|g| - 1 - i) % 4 == 3))
    && (g != "" ==> g[0] != ',')
  }

  lemma GroupedGrows(front: string, tail: string)
    requires Grouped(front) && front != "" && |tail| == 3 && ',' !in tail
    ensures Grouped(front + "," + tail)
  {
    var g := front + "," + tail;
    assert forall i :: 0 <= i < |front| ==> g[i] == front[i] && |g| - 1 - i == |front| - 1 - i + 4;
    assert forall i :: |front| < i < |g| ==> g[i] == tail[i - |front| - 1];
    assert g[0] == front[0];
  }

  lemma {:induction false} GroupIsGrouped(s: string)
    requires ',' !in s
    ensures Grouped(Group(s)) && (s != "" ==> Group(s) != "")
  {
    if |s| > 3 {
      GroupIsGrouped(s[..|s| - 3]);
      GroupedGrows(Group(s[..|s| - 3]), s[|s| - 3..]);
    }
  }

  lemma {:induction false} StripConcat(a: string, b: string)
    ensures StripCommas(a + b) == StripCommas(a) + StripCommas(b)
  {
    if b == "" {
      assert a + b == a;
    } else {
      assert (a + b)[..|a + b| - 1] == a + b[..|b| - 1];
      StripConcat(a, b[..|b| - 1]);
    }
  }

  lemma {:induction false} StripNothing(s: string)
    requires ',' !in s
    ensures StripCommas(s) == s
  {
    if s == "" {
    } else {
      StripNothing(s[..|s| - 1]);
    }
  }

  lemma {:induction false} StripGroup(s: string)
    requires ',' !in s
    ensures StripCommas(Group(s)) == s
  {
    if |s| > 3 {
      var front, tail := s[..|s| - 3], s[|s| - 3..];
      StripGroup(front);
      StripNothing(tail);
      StripConcat(Group(front) + ",", tail);
      StripConcat(Group(front), ",");
      assert ","[..0] == "" && StripCommas(",") == "";
    } else {
      StripNothing(s);
    }
  }

  // --- what an entry looks like ---------------------------------------------------

  // The integer part is a number JavaScript can hold, or one out of its range.
  predicate SurvivesNumber(l: Locale, entry: string)
    requires IsEntry(entry)
  {
    var whole := Value(IntegerPart(Unsigned(entry)));
    var numeric := l.fpu.round(whole as real);
    Finite(numeric) ==> RealOf(numeric) == whole as real
  }

  lemma PartsHaveNoCommas(s: string)
    requires IsUnsignedDecimal(s)
    ensures ',' !in IntegerPart(s) && ',' !in s[Point(s)..]
  {
    var p := Point(s);
    forall i | p < i < |s| ensures s[i] != ',' {
      assert FractionPart(s)[i - p - 1] == s[i];
    }
  }

  lemma WholePart(s: string)
    requires IsNumeral(s)
    ensures IsDecimal(s) && !Signed(s) && IntegerPart(s) == s && FractionPart(s) == ""
    ensures Magnitude(s) == Value(s) as real
  {
    assert Point(s) == |s|;
  }

  lemma NumberOfWhole(l: Locale, s: string)
    requires LawfulLocale(l) && IsNumeral(s)
    ensures Number(l.fpu, l.other, s) == l.fpu.round(Value(s) as real)
  {
    WholePart(s);
  }

  lemma RoundedWhole(l: Locale, n: nat)
    requires LawfulLocale(l)
    ensures var x := l.fpu.round(n as real);
            Finite(x) ==> RealOf(x) >= 0.0 && IsInteger(x) && x != Zero(true)
  {
    var whole := n as real;
    assert whole == whole.Floor as real;
    if n > 0 {
      assert 1.0 == (1.0 as real).Floor as real;
      RoundsInOrder(l.fpu, 1.0, whole);
    }
  }

  lemma WrittenInFull(l: Locale, x: Float)
    requires LawfulLocale(l) && Finite(x) && RealOf(x) >= 0.0 && IsInteger(x) && x != Zero(true)
    ensures l.intl(x) == Group(Numeral(RealOf(x).Floor))
  {
  }

  // The integer that is shown for an integer part.
  lemma GroupedWhole(l: Locale, s: string)
    requires LawfulLocale(l) && IsNumeral(s)
    ensures var numeric := l.fpu.round(Value(s) as real);
            if Finite(numeric) then
              RealOf(numeric) >= 0.0 && IsInteger(numeric)
              && GroupIntegerPart(l, s) == Group(Numeral(RealOf(numeric).Floor))
            else GroupIntegerPart(l, s) == s
  {
    NumberOfWhole(l, s);
    RoundedWhole(l, Value(s));
    if Finite(l.fpu.round(Value(s) as real)) {
      WrittenInFull(l, l.fpu.round(Value(s) as real));
    }
  }

  lemma FormatStrips(l: Locale, entry: string)
    requires IsEntry(entry)
    ensures var s := Unsigned(entry);
            StripCommas(FormatEntry(l, entry)) ==
              (if Signed(entry) then "-" else "") + StripCommas(GroupIntegerPart(l, IntegerPart(s))) + s[Point(s)..]
  {
    var s := Unsigned(entry);
    var sign, whole := if Signed(entry) then "-" else "", GroupIntegerPart(l, IntegerPart(s));
    PartsHaveNoCommas(s);
    StripConcat(sign + whole, s[Point(s)..]);
    StripConcat(sign, whole);
    StripNothing(sign);
    StripNothing(s[Point(s)..]);
  }

  lemma {:induction false} NumeralHasNoComma(n: nat)
    ensures ',' !in Numeral(n)
  {
    ValueOfNumeral(n);
  }

  lemma WholeStrips(l: Locale, s: string)
    requires LawfulLocale(l) && IsNumeral(s)
    ensures var numeric := l.fpu.round(Value(s) as real);
            StripCommas(GroupIntegerPart(l, s)) == s <==> (Finite(numeric) ==> RealOf(numeric) == Value(s) as real)
  {
    var numeric := l.fpu.round(Value(s) as real);
    GroupedWhole(l, s);
    NumeralOfValue(s);
    if Finite(numeric) {
      var n := RealOf(numeric).Floor;
      NumeralHasNoComma(n);
      ValueOfNumeral(n);
      StripGroup(Numeral(n));
    } else {
      StripNothing(s);
    }
  }

  lemma SplitAfterSign(sign: string, s: string, p: nat)
    requires p <= |s|
    ensures sign + s == sign + s[..p] + s[p..]
  {
    assert s == s[..p] + s[p..];
  }

  lemma SignParts(entry: string)
    ensures entry == (if Signed(entry) then "-" else "") + Unsigned(entry)
  {
  }

  /** Taking the commas out of a formatted entry gives the entry back exactly
      when its integer part survives Number: then the sign, the point and every
      fractional digit are as typed, and reading it back gives the same number. */
  lemma FormatRoundTripsIff(l: Locale, entry: string)
    requires LawfulLocale(l) && IsEntry(entry)
    ensures StripCommas(FormatEntry(l, entry)) == entry <==> SurvivesNumber(l, entry)
    ensures SurvivesNumber(l, entry) ==> ParseFormatted(l, FormatEntry(l, entry)) == ParseEntry(l.fpu, l.other, entry)
  {
    var s := Unsigned(entry);
    var whole := IntegerPart(s);
    FormatStrips(l, entry);
    SignParts(entry);
    SplitAfterSign(if Signed(entry) then "-" else "", s, Point(s));
    WholeStrips(l, whole);
    Framed(if Signed(entry) then "-" else "", StripCommas(GroupIntegerPart(l, whole)), whole, s[Point(s)..]);
  }

  lemma Framed(before: string, a: string, b: string, after: string)
    ensures before + a + after == before + b + after <==> a == b
  {
    var x, y := before + a + after, before + b + after;
    if x == y {
      assert a == x[|before|..|x| - |after|] && b == y[|before|..|y| - |after|];
    }
  }

  /** Every integer part up to 2^53 survives. */
  lemma SafeIntegersSurvive(l: Locale, entry: string)
    requires LawfulLocale(l) && IsEntry(entry)
    requires Value(IntegerPart(Unsigned(entry))) as real <= EXACT_INTEGER_BOUND
    ensures SurvivesNumber(l, entry)
    ensures StripCommas(FormatEntry(l, entry)) == entry
  {
    var whole := Value(IntegerPart(Unsigned(entry))) as real;
    assert whole == whole.Floor as real;
    FormatRoundTripsIff(l, entry);
  }

  /** The integer part of a formatted entry has its commas three digits apart,
      counted from the right, and none in front. */
  lemma FormatIsGrouped(l: Locale, entry: string)
    requires LawfulLocale(l) && IsEntry(entry) && SurvivesNumber(l, entry)
    requires Finite(l.fpu.round(Value(IntegerPart(Unsigned(entry))) as real))
    ensures exists g :: Grouped(g) && StripCommas(g) == IntegerPart(Unsigned(entry))
              && FormatEntry(l, entry) == (if Signed(entry) then "-" else "") + g + Unsigned(entry)[Point(Unsigned(entry))..]
  {
    var s := IntegerPart(Unsigned(entry));
    GroupedWhole(l, s);
    NumeralOfValue(s);
    GroupIsGrouped(s);
    WholeStrips(l, s);
    assert Grouped(GroupIntegerPart(l, s));
  }

  // --- trailing zeros --------------------------------------------------------------

  function DropZeros(s: string): string {
    if s != "" && s[|s| - 1] == '0' then DropZeros(s[..|s| - 1]) else s
  }

  function DropPoint(s: string): string {
    if s != "" && s[|s| - 1] == '.' then s[..|s| - 1] else s
  }

  function TrimTrailingZeros(mantissa: string): string {
    if '.' in mantissa then DropPoint(DropZeros(mantissa)) else mantissa
  }

  lemma ZeroEndsFraction(front: string)
    requires IsUnsignedDecimal(front + "0") && '.' in front
    ensures IsUnsignedDecimal(front) && IntegerPart(front + "0") == IntegerPart(front)
    ensures Value(FractionPart(front + "0")) == 10 * Value(FractionPart(front))
    ensures |FractionPart(front + "0")| == |FractionPart(front)| + 1
  {
    PartsOfAppend(front, '0');
    var f, g := FractionPart(front + "0"), FractionPart(front);
    assert front + "0" == front + ['0'];
    assert f == g + "0" && f[..|f| - 1] == g;
    assert forall i :: 0 <= i < |g| ==> g[i] == f[i];
  }

  lemma DropOneZero(front: string)
    requires IsUnsignedDecimal(front + "0") && '.' in front
    ensures IsUnsignedDecimal(front) && Magnitude(front) == Magnitude(front + "0")
  {
    ZeroEndsFraction(front);
    TenthOfTen(Value(FractionPart(front)), Pow10(|FractionPart(front)|));
  }

  lemma TenthOfTen(x: nat, y: nat)
    requires y > 0
    ensures (10 * x) as real / (10 * y) as real == x as real / y as real
  {
  }

  lemma {:induction false} DropZerosKeepsValue(s: string)
    requires IsUnsignedDecimal(s) && '.' in s
    ensures var d := DropZeros(s);
            IsUnsignedDecimal(d) && '.' in d && Magnitude(d) == Magnitude(s) && d[|d| - 1] != '0'
  {
    if s[|s| - 1] == '0' {
      var front := s[..|s| - 1];
      assert s == front + "0";
      PointBefore(s);
      DropOneZero(front);
      DropZerosKeepsValue(front);
    }
  }

  lemma PointBefore(s: string)
    requires '.' in s && s[|s| - 1] != '.'
    ensures '.' in s[..|s| - 1]
  {
    assert s[..|s| - 1][Point(s)] == '.';
  }

  lemma DropPointKeepsValue(s: string)
    requires IsUnsignedDecimal(s) && '.' in s && s[|s| - 1] == '.'
    ensures var d := s[..|s| - 1];
            IsUnsignedDecimal(d) && '.' !in d && Magnitude(d) == Magnitude(s)
  {
    var d := s[..|s| - 1];
    assert s == d + ['.'];
    PartsOfAppend(d, '.');
    assert !AllDigits(FractionPart(d) + ['.']) by {
      assert (FractionPart(d) + ['.'])[|FractionPart(d)|] == '.';
    }
  }

  // Neither a trailing zero behind a point nor a trailing point.
  predicate Trimmed(t: string) {
    '.' in t ==> t[|t| - 1] != '0' && t[|t| - 1] != '.'
  }

  lemma TrimmedStays(t: string)
    requires Trimmed(t)
    ensures TrimTrailingZeros(t) == t
  {
  }

  lemma DropPointTrims(d: string)
    requires IsUnsignedDecimal(d) && '.' in d && d[|d| - 1] != '0'
    ensures var t := DropPoint(d);
            IsUnsignedDecimal(t) && Magnitude(t) == Magnitude(d) && Trimmed(t)
  {
    if d[|d| - 1] == '.' {
      DropPointKeepsValue(d);
    }
  }

  lemma TrimUnsigned(s: string)
    requires IsUnsignedDecimal(s)
    ensures var t := TrimTrailingZeros(s);
            IsUnsignedDecimal(t) && Magnitude(t) == Magnitude(s) && Trimmed(t)
  {
    if '.' in s {
      DropZerosKeepsValue(s);
      DropPointTrims(DropZeros(s));
    }
  }

  lemma {:induction false} DropZerosBehindSign(s: string)
    requires '.' in s
    ensures DropZeros("-" + s) == "-" + DropZeros(s) && DropZeros(s) != ""
  {
    var signed := "-" + s;
    assert signed[|signed| - 1] == s[|s| - 1] && signed[..|signed| - 1] == "-" + s[..|s| - 1];
    if s[|s| - 1] == '0' {
      PointBefore(s);
      DropZerosBehindSign(s[..|s| - 1]);
    }
  }

  lemma DropPointBehindSign(d: string)
    requires d != ""
    ensures DropPoint("-" + d) == "-" + DropPoint(d)
  {
    assert ("-" + d)[..|d|] == "-" + d[..|d| - 1];
  }

  lemma TrimBehindSign(s: string)
    requires s != ""
    ensures TrimTrailingZeros("-" + s) == "-" + TrimTrailingZeros(s)
  {
    if '.' in s {
      DropZerosBehindSign(s);
      DropPointBehindSign(DropZeros(s));
      assert ("-" + s)[Point(s) + 1] == '.';
    }
  }

  lemma TrimmedBehindSign(t: string)
    requires t != "" && Trimmed(t)
    ensures Trimmed("-" + t)
  {
    var signed := "-" + t;
    assert signed[|signed| - 1] == t[|t| - 1];
    assert '.' in signed ==> '.' in t;
  }

  lemma TrimSigned(s: string)
    requires IsUnsignedDecimal(s)
    ensures var m, t := "-" + s, TrimTrailingZeros("-" + s);
            IsDecimal(m) && IsDecimal(t) && Signed(m) && Signed(t) && ExactValue(t) == ExactValue(m) && Trimmed(t)
  {
    var t := TrimTrailingZeros(s);
    TrimUnsigned(s);
    StartsWithDigit(s);
    StartsWithDigit(t);
    SignedAs(s);
    SignedAs(t);
    TrimBehindSign(s);
    TrimmedBehindSign(t);
  }

  /** Trimming a mantissa, of either sign, keeps its sign and its value, leaves
      neither a trailing zero behind a point nor a trailing point, and trimming
      again changes nothing. */
  lemma TrimKeepsValue(mantissa: string)
    requires IsDecimal(mantissa)
    ensures var t := TrimTrailingZeros(mantissa);
            && IsDecimal(t) && Signed(t) == Signed(mantissa) && ExactValue(t) == ExactValue(mantissa)
            && Trimmed(t) && TrimTrailingZeros(t) == t
  {
    if Signed(mantissa) {
      assert mantissa == "-" + mantissa[1..];
      TrimSigned(mantissa[1..]);
    } else {
      TrimUnsigned(mantissa);
      StartsWithDigit(TrimTrailingZeros(mantissa));
    }
    TrimmedStays(TrimTrailingZeros(mantissa));
  }
}
