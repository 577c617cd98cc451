/** The number being typed: its grammar, the keys that edit it, and its value. */
module Entry {
  import opened Decimal
  import opened Float64

  const MAX_ENTRY_DIGITS: nat := 16

  type Digit = c: char | IsDigit(c) witness '0'

  // --- the editing keys ----------------------------------------------------

  function CountDigits(entry: string): nat {
    if entry == "" then 0
    else CountDigits(entry[..|entry| - 1]) + if IsDigit(entry[|entry| - 1]) then 1 else 0
  }

  function AppendDigit(entry: string, digit: Digit): string {
    if CountDigits(entry) >= MAX_ENTRY_DIGITS then entry
    else if entry == "0" then [digit]
    else entry + [digit]
  }

  function AppendDecimal(entry: string): string {
    if '.' in entry then entry else entry + "."
  }

  function Normalise(entry: string): string {
    if entry == "" || entry == "-" || entry == "-0" then "0" else entry
  }

  function DropLastChar(entry: string): string {
    Normalise(if entry == "" then "" else entry[..|entry| - 1])
  }

  predicate Signed(entry: string) {
    entry != "" && entry[0] == '-'
  }

  function ToggleSign(entry: string): string {
    Normalise(if Signed(entry) then entry[1..] else "-" + entry)
  }

  // --- the grammar ---------------------------------------------------------

  function Unsigned(entry: string): string {
    if Signed(entry) then entry[1..] else entry
  }

  // Where the decimal point is, or the length without one.
  function Point(s: string): (k: nat)
    ensures k <= |s|
    ensures k < |s| <==> '.' in s
    ensures k < |s| ==> s[k] == '.'
    ensures '.' !in s[..k]
  {
    if s == "" || s[0] == '.' then 0
    else
      var k := Point(s[1..]);
      assert s[..k + 1] == [s[0]] + s[1..][..k];
      k + 1
  }

  function IntegerPart(s: string): string {
    s[..Point(s)]
  }

  function FractionPart(s: string): string {
    if '.' in s then s[Point(s) + 1..] else ""
  }

  predicate IsUnsignedDecimal(s: string) {
    IsNumeral(IntegerPart(s)) && AllDigits(FractionPart(s))
  }

  // -?(0|[1-9][0-9]*)(\.[0-9]*)?
  predicate IsDecimal(entry: string) {
    IsUnsignedDecimal(Unsigned(entry))
  }

  // What can be on the display while it is being typed.
  predicate IsEntry(entry: string) {
    IsDecimal(entry) && entry != "-0"
  }

  // Entries of up to 21 integer digits, the longest String() writes without an exponent.
  predicate InRange(entry: string) {
    IsEntry(entry) && |IntegerPart(Unsigned(entry))| <= 21
  }

  // --- its value -----------------------------------------------------------

  function Magnitude(s: string): real
    requires IsUnsignedDecimal(s)
  {
    Value(IntegerPart(s)) as real + Value(FractionPart(s)) as real / Pow10(|FractionPart(s)|) as real
  }

  // JavaScript's Number on strings: decimals are read exactly and rounded once,
  // everything else is left to `other`.
  function Number(fpu: Fpu, other: string -> Float, s: string): Float {
    if !IsDecimal(s) then other(s)
    else
      var m := Magnitude(Unsigned(s));
      if m == 0.0 then Zero(Signed(s)) else fpu.round(if Signed(s) then -m else m)
  }

  function ParseEntry(fpu: Fpu, other: string -> Float, entry: string): Float {
    DropNegativeZero(Number(fpu, other, entry))
  }

  // --- the keys keep the grammar -------------------------------------------

  lemma {:induction false} PointOfAppend(s: string, c: char)
    ensures Point(s + [c]) == if '.' in s then Point(s) else if c == '.' then |s| else |s| + 1
  {
    if s != "" && s[0] != '.' {
      assert (s + [c])[1..] == s[1..] + [c];
      PointOfAppend(s[1..], c);
    }
  }

  lemma PartsOfAppend(s: string, c: char)
    ensures '.' in s ==> IntegerPart(s + [c]) == IntegerPart(s) && FractionPart(s + [c]) == FractionPart(s) + [c]
    ensures '.' !in s && c != '.' ==> IntegerPart(s + [c]) == s + [c] && FractionPart(s + [c]) == ""
    ensures '.' !in s && c == '.' ==> IntegerPart(s + [c]) == s && FractionPart(s + [c]) == ""
    ensures '.' !in s ==> IntegerPart(s) == s && FractionPart(s) == ""
  {
    PointOfAppend(s, c);
    var p := Point(s);
    if '.' in s {
      assert (s + [c])[..p] == s[..p];
      assert (s + [c])[p + 1..] == s[p + 1..] + [c];
    } else if c == '.' {
      assert (s + [c])[..|s|] == s;
      assert (s + [c])[|s| + 1..] == "";
    }
  }

  lemma UnsignedOfAppend(entry: string, c: char)
    requires entry != ""
    ensures Unsigned(entry + [c]) == Unsigned(entry) + [c] && Signed(entry + [c]) == Signed(entry)
  {
  }

  lemma {:induction false} CountOfDigits(s: string)
    requires AllDigits(s)
    ensures CountDigits(s) == |s|
  {
    if s == "" {
    } else {
      CountOfDigits(s[..|s| - 1]);
    }
  }

  lemma {:induction false} CountAppends(a: string, b: string)
    ensures CountDigits(a + b) == CountDigits(a) + CountDigits(b)
  {
    if b == "" {
      assert a + b == a;
    } else {
      assert (a + b)[..|a + b| - 1] == a + b[..|b| - 1];
      CountAppends(a, b[..|b| - 1]);
    }
  }

  lemma PrefixDigitsCounted(s: string, p: nat)
    requires p <= |s| && AllDigits(s[..p])
    ensures p <= CountDigits(s)
  {
    CountOfDigits(s[..p]);
    assert s == s[..p] + s[p..];
    CountAppends(s[..p], s[p..]);
  }

  lemma IntegerDigitsCounted(entry: string)
    requires IsDecimal(entry)
    ensures |IntegerPart(Unsigned(entry))| <= CountDigits(entry)
  {
    var s := Unsigned(entry);
    PrefixDigitsCounted(s, Point(s));
    if Signed(entry) {
      assert entry == "-" + s;
      CountAppends("-", s);
    }
  }

  lemma DigitIsEntry(digit: Digit)
    ensures InRange([digit])
  {
    PartsOfAppend("", digit);
    assert "" + [digit] == [digit];
  }

  lemma LongerIsEntry(entry: string, digit: Digit)
    requires InRange(entry) && entry != "0" && CountDigits(entry) < MAX_ENTRY_DIGITS
    ensures InRange(entry + [digit])
  {
    PartsOfAppend(Unsigned(entry), digit);
    UnsignedOfAppend(entry, digit);
    IntegerDigitsCounted(entry);
  }

  lemma AppendDigitCloses(entry: string, digit: Digit)
    requires InRange(entry)
    ensures InRange(AppendDigit(entry, digit))
  {
    if CountDigits(entry) < MAX_ENTRY_DIGITS {
      if entry == "0" {
        DigitIsEntry(digit);
      } else {
        LongerIsEntry(entry, digit);
      }
    }
  }

  lemma AppendDecimalCloses(entry: string)
    requires InRange(entry)
    ensures InRange(AppendDecimal(entry))
  {
    if '.' !in entry {
      PartsOfAppend(Unsigned(entry), '.');
      UnsignedOfAppend(entry, '.');
    }
  }

  lemma ZeroIsEntry()
    ensures InRange("0") && Point("0") == 1
  {
    PartsOfAppend("", '0');
    assert "" + "0" == "0";
  }

  lemma UnsignedFront(s: string, c: char)
    requires IsUnsignedDecimal(s + [c]) && s != ""
    ensures IsUnsignedDecimal(s) && |IntegerPart(s)| <= |IntegerPart(s + [c])|
  {
    PartsOfAppend(s, c);
    if '.' in s {
      assert FractionPart(s) == FractionPart(s + [c])[..|FractionPart(s)|];
    } else {
      assert forall i :: 0 <= i < |s| ==> (s + [c])[i] == s[i];
      assert IsNumeral(s);
    }
  }

  lemma FrontIsEntry(front: string, c: char)
    requires IsEntry(front + [c]) && Normalise(front) == front
    ensures IsEntry(front) && |IntegerPart(Unsigned(front))| <= |IntegerPart(Unsigned(front + [c]))|
  {
    UnsignedOfAppend(front, c);
    UnsignedFront(Unsigned(front), c);
  }

  lemma DropLastCharCloses(entry: string)
    requires InRange(entry)
    ensures InRange(DropLastChar(entry))
  {
    ZeroIsEntry();
    var front, c := entry[..|entry| - 1], entry[|entry| - 1];
    assert entry == front + [c];
    if Normalise(front) == front {
      FrontIsEntry(front, c);
    }
  }

  lemma ToggleSignCloses(entry: string)
    requires InRange(entry)
    ensures InRange(ToggleSign(entry))
  {
    ZeroIsEntry();
  }

  /** Every key takes an entry to an entry, and none makes it longer than it was
      or than sixteen digits; with sixteen there the digit keys do nothing. */
  lemma KeysCloseGrammar(entry: string, digit: Digit)
    requires InRange(entry)
    ensures InRange(AppendDigit(entry, digit)) && InRange(AppendDecimal(entry))
    ensures InRange(ToggleSign(entry)) && InRange(DropLastChar(entry))
    ensures if CountDigits(entry) >= 16 then AppendDigit(entry, digit) == entry else CountDigits(AppendDigit(entry, digit)) <= 16
    ensures CountDigits(AppendDecimal(entry)) == CountDigits(entry)
    ensures CountDigits(ToggleSign(entry)) == CountDigits(entry)
    ensures CountDigits(DropLastChar(entry)) <= CountDigits(entry)
  {
    AppendDigitCloses(entry, digit);
    AppendDecimalCloses(entry);
    ToggleSignCloses(entry);
    DropLastCharCloses(entry);
    AppendDigitCounts(entry, digit);
    AppendDecimalCounts(entry);
    ToggleSignCounts(entry);
    DropLastCharCounts(entry);
  }

  lemma AppendDigitCounts(entry: string, digit: Digit)
    requires IsEntry(entry)
    ensures CountDigits(AppendDigit(entry, digit)) <= MAX_ENTRY_DIGITS || AppendDigit(entry, digit) == entry
  {
    CountOfDigits([digit]);
    CountAppends(entry, [digit]);
  }

  lemma AppendDecimalCounts(entry: string)
    ensures CountDigits(AppendDecimal(entry)) == CountDigits(entry)
  {
    CountAppends(entry, ".");
    assert "."[..0] == "";
  }

  lemma SignCounts(s: string)
    ensures CountDigits("-" + s) == CountDigits(s)
  {
    CountAppends("-", s);
    assert "-"[..0] == "";
  }

  lemma ToggleSignCounts(entry: string)
    requires IsEntry(entry)
    ensures CountDigits(ToggleSign(entry)) == CountDigits(entry)
  {
    if Signed(entry) {
      assert entry == "-" + entry[1..];
      SignCounts(entry[1..]);
    } else {
      SignCounts(entry);
      SignCounts("0");
    }
  }

  lemma DropLastCharCounts(entry: string)
    requires IsEntry(entry)
    ensures CountDigits(DropLastChar(entry)) <= CountDigits(entry)
  {
    ZeroIsEntry();
    CountOfDigits("0");
    IntegerDigitsCounted(entry);
    SignCounts("0");
  }

  /** Toggling the sign twice changes nothing. */
  lemma ToggleSignInvolution(entry: string)
    requires IsEntry(entry)
    ensures ToggleSign(ToggleSign(entry)) == entry
  {
    ZeroIsEntry();
    if Signed(entry) {
      assert entry == "-" + entry[1..];
    } else {
      assert ("-" + entry)[1..] == entry;
    }
  }

  /** Backspace takes back every digit that changed the entry. */
  lemma BackspaceUndoesDigit(entry: string, digit: Digit)
    requires IsEntry(entry) && AppendDigit(entry, digit) != entry
    ensures DropLastChar(AppendDigit(entry, digit)) == entry
  {
    if entry == "0" {
      assert [digit][..0] == "";
    } else {
      assert (entry + [digit])[..|entry|] == entry;
    }
  }

  /** Backspace takes off the last character, if what is left is an entry, and
      leaves a bare zero otherwise. */
  lemma BackspaceDropsOne(entry: string)
    requires IsEntry(entry)
    ensures entry != "" && DropLastChar(entry) == if IsEntry(entry[..|entry| - 1]) then entry[..|entry| - 1] else "0"
  {
    StartsWithDigit(Unsigned(entry));
    var front, c := entry[..|entry| - 1], entry[|entry| - 1];
    assert entry == front + [c];
    if Normalise(front) == front {
      FrontIsEntry(front, c);
    } else {
      NotEntries();
    }
  }

  lemma NotEntries()
    ensures !IsEntry("") && !IsEntry("-") && !IsEntry("-0")
  {
    assert "-"[1..] == "";
  }

  // --- what the keys do to the value ----------------------------------------

  // The number an entry stands for, before rounding.
  function ExactValue(entry: string): real
    requires IsDecimal(entry)
  {
    if Signed(entry) then -Magnitude(Unsigned(entry)) else Magnitude(Unsigned(entry))
  }

  lemma ZeroIsNothing()
    ensures Magnitude("0") == 0.0
  {
    ZeroIsEntry();
    assert "0"[..0] == "" && IntegerPart("0") == "0" && FractionPart("0") == "";
  }

  lemma StartsWithDigit(s: string)
    requires IsUnsignedDecimal(s)
    ensures s != "" && IsDigit(s[0]) && !Signed(s) && Normalise(s) == s
  {
    assert s[..Point(s)][0] == s[0];
  }

  lemma SignedAs(s: string)
    requires IsUnsignedDecimal(s)
    ensures Unsigned("-" + s) == s && Signed("-" + s) && ("-" + s == "-0" <==> s == "0")
  {
    assert ("-" + s)[1..] == s;
    assert "-0"[1..] == "0";
  }

  /** The sign key negates what the entry stands for. */
  lemma ToggleSignNegates(entry: string)
    requires IsEntry(entry)
    ensures IsEntry(ToggleSign(entry)) && ExactValue(ToggleSign(entry)) == -ExactValue(entry)
  {
    StartsWithDigit(Unsigned(entry));
    if !Signed(entry) {
      SignedAs(entry);
      ZeroIsEntry();
      ZeroIsNothing();
    }
  }

  lemma WholeDigit(s: string, digit: Digit)
    requires IsNumeral(s) && '.' !in s && IsUnsignedDecimal(s) && IsUnsignedDecimal(s + [digit])
    ensures Magnitude(s + [digit]) == 10.0 * Magnitude(s) + DigitValue(digit) as real
  {
    PartsOfAppend(s, digit);
    assert (s + [digit])[..|s|] == s;
  }

  lemma SmallerPart(x: nat, d: nat, y: nat)
    requires y > 0
    ensures (10 * x + d) as real / (10 * y) as real == x as real / y as real + d as real / (10 * y) as real
  {
  }

  lemma FractionDigit(s: string, digit: Digit)
    requires '.' in s && IsUnsignedDecimal(s)
    ensures IsUnsignedDecimal(s + [digit])
    ensures Magnitude(s + [digit]) == Magnitude(s) + DigitValue(digit) as real / Pow10(|FractionPart(s)| + 1) as real
  {
    PartsOfAppend(s, digit);
    var f := FractionPart(s);
    assert (f + [digit])[..|f|] == f;
    SmallerPart(Value(f), DigitValue(digit), Pow10(|f|));
  }

  // The magnitude once a digit is appended: the next place to the right.
  function WithDigit(s: string, digit: Digit): real
    requires IsUnsignedDecimal(s)
  {
    if '.' in s then Magnitude(s) + DigitValue(digit) as real / Pow10(|FractionPart(s)| + 1) as real
    else 10.0 * Magnitude(s) + DigitValue(digit) as real
  }

  lemma FirstDigit(digit: Digit)
    ensures IsUnsignedDecimal("0") && IsDecimal([digit]) && !Signed([digit])
    ensures Magnitude([digit]) == DigitValue(digit) as real == WithDigit("0", digit)
  {
    ZeroIsEntry();
    ZeroIsNothing();
    PartsOfAppend("", digit);
    assert "" + [digit] == [digit] && [digit][..0] == "";
  }

  lemma LaterDigit(s: string, digit: Digit)
    requires IsUnsignedDecimal(s) && s != "0"
    ensures IsUnsignedDecimal(s + [digit]) && Magnitude(s + [digit]) == WithDigit(s, digit)
  {
    if '.' in s {
      FractionDigit(s, digit);
    } else {
      PartsOfAppend(s, digit);
      assert IsNumeral(s + [digit]);
      WholeDigit(s, digit);
    }
  }

  /** A digit key appends one decimal place to what the entry stands for. */
  lemma DigitExtendsValue(entry: string, digit: Digit)
    requires IsEntry(entry) && CountDigits(entry) < 16
    ensures var r := AppendDigit(entry, digit);
            && IsDecimal(r) && Signed(r) == Signed(entry)
            && Magnitude(Unsigned(r)) == WithDigit(Unsigned(entry), digit)
  {
    if entry == "0" {
      FirstDigit(digit);
    } else {
      StartsWithDigit(Unsigned(entry));
      UnsignedOfAppend(entry, digit);
      LaterDigit(Unsigned(entry), digit);
    }
  }

  /** The point key puts a point there, once, and changes nothing about what the
      entry stands for. */
  lemma PointKeepsValue(entry: string)
    requires InRange(entry)
    ensures InRange(AppendDecimal(entry)) && ExactValue(AppendDecimal(entry)) == ExactValue(entry)
    ensures '.' in AppendDecimal(entry) && AppendDecimal(AppendDecimal(entry)) == AppendDecimal(entry)
  {
    AppendDecimalCloses(entry);
    if '.' !in entry {
      UnsignedOfAppend(entry, '.');
      PartsOfAppend(Unsigned(entry), '.');
    }
  }

  lemma {:induction false} Pow10Grows(m: nat, n: nat)
    requires m <= n
    ensures Pow10(m) <= Pow10(n)
    decreases n
  {
    if m < n {
      Pow10Grows(m, n - 1);
    }
  }

  lemma {:induction false} Pow10Adds(m: nat, n: nat)
    ensures Pow10(m + n) == Pow10(m) * Pow10(n)
  {
    if m == 0 {
    } else {
      Pow10Adds(m - 1, n);
    }
  }

  lemma Pow21()
    ensures Pow10(21) == 1_000_000_000_000_000_000_000
  {
    Pow10Adds(7, 14);
    Pow10Adds(7, 7);
    assert Pow10(4) == 10_000 && Pow10(7) == 10_000_000;
  }

  lemma WholeBound(s: string)
    requires AllDigits(s) && |s| <= 21
    ensures Value(s) < 1_000_000_000_000_000_000_000
  {
    ValueBound(s);
    Pow10Grows(|s|, 21);
    Pow21();
  }

  lemma ProperFraction(x: nat, y: nat)
    requires x < y
    ensures 0.0 <= x as real / y as real <= 1.0
  {
  }

  lemma FractionBound(s: string)
    requires AllDigits(s)
    ensures 0.0 <= Value(s) as real / Pow10(|s|) as real <= 1.0
  {
    ValueBound(s);
    ProperFraction(Value(s), Pow10(|s|));
  }

  lemma MagnitudeBound(s: string)
    requires IsUnsignedDecimal(s) && |IntegerPart(s)| <= 21
    ensures 0.0 <= Magnitude(s) <= PLAIN_BOUND
  {
    WholeBound(IntegerPart(s));
    FractionBound(FractionPart(s));
  }

  /** An entry is read exactly and rounded once. */
  lemma ParseRounds(fpu: Fpu, other: string -> Float, entry: string)
    requires Lawful(fpu) && IsEntry(entry)
    ensures ParseEntry(fpu, other, entry) == DropNegativeZero(fpu.round(ExactValue(entry)))
  {
  }

  /** An entry is always a number: finite, and never a negative zero. */
  lemma ParseIsTotal(fpu: Fpu, other: string -> Float, entry: string)
    requires Lawful(fpu) && InRange(entry)
    ensures var x := ParseEntry(fpu, other, entry);
            Finite(x) && x != Zero(true) && Representable(fpu, x)
  {
    MagnitudeBound(Unsigned(entry));
  }
}
