/**
 How the cost-patcher prints a cost (formatCost) and how the CLI reads it back
 (the number parsing of costAnnotationsFromMap).
 */
module CostFormat {
  import opened Options
  import opened Numerals

  /** The number of decimals that formatCost asks strconv.FormatFloat for. */
  const PLACES: nat := 12

  function Sign(v: real): string {
    if v < 0.0 then "-" else ""
  }

  /** |v| counted in units of 10^-places, rounded as strconv does. */
  function Units(v: real, places: nat): nat {
    UnitsOf(Abs(v), Pow10(places) as real)
  }

  function UnitsOf(a: real, p: real): nat
    requires a >= 0.0 && p > 0.0
  {
    RoundHalfEven(a * p)
  }

  /** The decimal digits of n, filled up with leading zeros to at least the given number of digits. */
  function DigitsOf(n: nat, atLeast: nat): (s: string)
    ensures |s| >= atLeast && |s| >= 1 && AllDigits(s)
  {
    var s := Decimal(n);
    if |s| < atLeast then Zeros(atLeast - |s|) + s else s
  }

  /** strconv.FormatFloat(v, 'f', places, 64) of a finite v: without a point if there are no places. */
  function FormatFixed(v: real, places: nat): string {
    var digits := DigitsOf(Units(v, places), places + 1);
    var point := |digits| - places;
    Sign(v) + digits[..point] + (if places == 0 then "" else "." + digits[point..])
  }

  /** strings.TrimRight with a one-character cutset. */
  function TrimRight(s: string, c: char): string {
    if s != "" && s[|s| - 1] == c then TrimRight(s[..|s| - 1], c) else s
  }

  function FormatCost(v: real): (s: string)
    ensures s != ""
  {
    var s := TrimRight(TrimRight(FormatFixed(v, PLACES), '0'), '.');
    if s == "" || s == "-" then "0" else s
  }

  /** v rounded to the given number of decimals. */
  function RoundTo(v: real, places: nat): real {
    var r := Units(v, places) as real / Pow10(places) as real;
    if v < 0.0 then -r else r
  }

  /** The cost that a printed annotation stands for. */
  function Rounded(v: real): real {
    RoundTo(v, PLACES)
  }

  predicate IsSpace(c: char) {
    c == ' ' || '\t' <= c <= '\r' || c == '\U{0085}' || c == '\U{00A0}'
  }

  /** strings.TrimSpace, for the white space of the Latin-1 range. */
  function TrimSpace(s: string): string {
    if s == "" then s
    else if IsSpace(s[0]) then TrimSpace(s[1..])
    else if IsSpace(s[|s| - 1]) then TrimSpace(s[..|s| - 1])
    else s
  }

  /** Index of the first c in s, or |s|. */
  function IndexOf(s: string, c: char): (i: nat)
    ensures i <= |s|
    ensures i < |s| ==> s[i] == c
    ensures forall j :: 0 <= j < i ==> s[j] != c
  {
    if s == "" || s[0] == c then 0 else 1 + IndexOf(s[1..], c)
  }

  /** strconv.ParseFloat on an unsigned decimal numeral without exponent. */
  function ParseUnsigned(s: string): Option<real> {
    var dot := IndexOf(s, '.');
    var whole := s[..dot];
    var frac := if dot < |s| then s[dot + 1..] else "";
    if AllDigits(whole) && AllDigits(frac) && |whole| + |frac| > 0 then
      Some(Value(whole + frac) as real / Pow10(|frac|) as real)
    else
      None
  }

  /** strconv.ParseFloat on decimal numerals without exponent. */
  function ParseFloat(s: string): Option<real> {
    if s != "" && s[0] == '-' then
      match ParseUnsigned(s[1..])
      case None => None
      case Some(x) => Some(-x)
    else if s != "" && s[0] == '+' then ParseUnsigned(s[1..])
    else ParseUnsigned(s)
  }

  // ---- trimming ----

  lemma {:induction false} TrimRightAppend(a: string, b: string, c: char)
    ensures TrimRight(a + b, c) == if TrimRight(b, c) == "" then TrimRight(a, c) else a + TrimRight(b, c)
  {
    if b == "" {
      assert a + b == a;
    } else if b[|b| - 1] == c {
      assert (a + b)[..|a + b| - 1] == a + b[..|b| - 1];
      TrimRightAppend(a, b[..|b| - 1], c);
    }
  }

  /** Trimming zeros cuts off zeros, all of them and nothing else. */
  lemma {:induction false} TrimZeros(s: string)
    ensures var t := TrimRight(s, '0');
            |t| <= |s| && s == t + Zeros(|s| - |t|) && (t != "" ==> t[|t| - 1] != '0')
  {
    if s != "" && s[|s| - 1] == '0' {
      var p := s[..|s| - 1];
      TrimZeros(p);
      var t := TrimRight(s, '0');
      assert s == p + "0" == t + Zeros(|p| - |t|) + "0";
      assert Zeros(|s| - |t|) == Zeros(|p| - |t|) + "0";
    }
  }

  lemma TrimZerosDigits(s: string)
    requires AllDigits(s)
    ensures AllDigits(TrimRight(s, '0'))
  {
    TrimZeros(s);
    var t := TrimRight(s, '0');
    assert t == s[..|t|];
  }

  // ---- the shape of a printed cost ----

  /** A fraction with its point, or nothing when there is no fraction left. */
  function Tail(frac: string): string {
    if frac == "" then "" else "." + frac
  }

  lemma TrimPoint(head: string)
    requires head != "" && head[|head| - 1] != '.'
    ensures TrimRight(head + ".", '0') == head + "."
    ensures TrimRight(head + ".", '.') == head
  {
    assert (head + ".")[..|head|] == head;
  }

  lemma TrimNumeral(head: string, digits: string)
    requires head != "" && head[|head| - 1] != '.' && AllDigits(digits)
    ensures TrimRight(TrimRight(head + "." + digits, '0'), '.') == head + Tail(TrimRight(digits, '0'))
  {
    var point := head + ".";
    var frac := TrimRight(digits, '0');
    TrimRightAppend(point, digits, '0');
    TrimZerosDigits(digits);
    TrimPoint(head);
    if frac != "" {
      assert IsDigit(frac[|frac| - 1]);
      TrimRightAppend(point, frac, '.');
      Associate(head, ".", frac);
    }
  }

  function WholePart(v: real, places: nat): (s: string)
    ensures s != "" && AllDigits(s)
  {
    var digits := DigitsOf(Units(v, places), places + 1);
    digits[..|digits| - places]
  }

  function FullFraction(v: real, places: nat): (s: string)
    ensures |s| == places && AllDigits(s)
  {
    var digits := DigitsOf(Units(v, places), places + 1);
    digits[|digits| - places..]
  }

  function Fraction(v: real, places: nat): string {
    TrimRight(FullFraction(v, places), '0')
  }

  /** Sign, whole part and, if any is left, the fraction without its trailing zeros. */
  function Numeral(v: real, places: nat): string {
    Sign(v) + (WholePart(v, places) + Tail(Fraction(v, places)))
  }

  lemma Associate(a: string, b: string, c: string)
    ensures (a + b) + c == a + (b + c)
  {
  }

  lemma TrimFixed(v: real, places: nat)
    requires places > 0
    ensures TrimRight(TrimRight(FormatFixed(v, places), '0'), '.') == Numeral(v, places)
  {
    var sign, whole, full := Sign(v), WholePart(v, places), FullFraction(v, places);
    assert (sign + whole)[|sign + whole| - 1] == whole[|whole| - 1];
    assert IsDigit(whole[|whole| - 1]);
    Associate(sign + whole, ".", full);
    TrimNumeral(sign + whole, full);
    Associate(sign, whole, Tail(Fraction(v, places)));
  }

  /** The fallback branch of formatCost is never taken. */
  lemma FormatCostIsNumeral(v: real)
    ensures FormatCost(v) == Numeral(v, PLACES)
  {
    TrimFixed(v, PLACES);
    NumeralNonEmpty(v, PLACES);
  }

  lemma NumeralNonEmpty(v: real, places: nat)
    ensures Numeral(v, places) != "" && Numeral(v, places) != "-"
  {
    if v >= 0.0 {
      assert IsDigit(Numeral(v, places)[0]);
    }
  }

  // ---- reading a printed cost ----

  lemma {:induction false} IndexOfFirst(a: string, b: string, c: char)
    requires forall j :: 0 <= j < |a| ==> a[j] != c
    requires b == "" || b[0] == c
    ensures IndexOf(a + b, c) == |a|
  {
    if a == "" {
      assert a + b == b;
    } else {
      assert (a + b)[1..] == a[1..] + b;
      IndexOfFirst(a[1..], b, c);
    }
  }

  lemma ParseOfParts(whole: string, frac: string)
    requires whole != "" && AllDigits(whole) && AllDigits(frac)
    ensures ParseUnsigned(whole + Tail(frac)) == Some(Value(whole + frac) as real / Pow10(|frac|) as real)
  {
    var s := whole + Tail(frac);
    IndexOfFirst(whole, Tail(frac), '.');
    assert s[..|whole|] == whole;
    if frac != "" {
      assert s[|whole| + 1..] == frac;
    }
  }

  lemma CancelFactor(x: nat, y: nat, z: nat)
    requires y > 0 && z > 0
    ensures y * z > 0 && (x * z) as real / (y * z) as real == x as real / y as real
  {
    var q := x as real / y as real;
    assert q * y as real == x as real;
    assert (y * z) as real == y as real * z as real > 0.0;
    assert q * (y * z) as real == (x * z) as real;
  }

  lemma ValueOfDigits(n: nat, atLeast: nat)
    ensures Value(DigitsOf(n, atLeast)) == n
  {
    ValueOfDecimal(n);
    var k := atLeast - |Decimal(n)|;
    if k > 0 {
      ValueOfLeadingZeros(k, Decimal(n));
    }
  }

  /** Dropping trailing zeros of a fraction does not change the number. */
  lemma DroppedZeros(s: string, have: nat, dropped: nat)
    requires AllDigits(s)
    ensures Value(s) as real / Pow10(have) as real
            == Value(s + Zeros(dropped)) as real / Pow10(have + dropped) as real
  {
    ValueOfTrailingZeros(s, dropped);
    Pow10Add(have, dropped);
    CancelFactor(Value(s), Pow10(have), Pow10(dropped));
  }

  lemma TrimmedFraction(whole: string, full: string)
    requires AllDigits(whole) && AllDigits(full)
    ensures AllDigits(TrimRight(full, '0'))
    ensures Value(whole + TrimRight(full, '0')) as real / Pow10(|TrimRight(full, '0')|) as real
            == Value(whole + full) as real / Pow10(|full|) as real
  {
    TrimZerosDigits(full);
    TrimZeros(full);
    var frac := TrimRight(full, '0');
    var k := |full| - |frac|;
    assert |frac| + k == |full|;
    DroppedZeros(whole + frac, |frac|, k);
    Associate(whole, frac, Zeros(k));
    assert (whole + frac) + Zeros(k) == whole + full;
  }

  lemma PartsDenoteUnits(v: real, places: nat)
    ensures AllDigits(Fraction(v, places))
    ensures Value(WholePart(v, places) + Fraction(v, places)) as real / Pow10(|Fraction(v, places)|) as real
            == Units(v, places) as real / Pow10(places) as real
  {
    TrimmedFraction(WholePart(v, places), FullFraction(v, places));
    ValueOfDigits(Units(v, places), places + 1);
    var digits := DigitsOf(Units(v, places), places + 1);
    assert digits == WholePart(v, places) + FullFraction(v, places);
  }

  lemma ParseSigned(v: real, u: string, x: real)
    requires u != "" && IsDigit(u[0]) && ParseUnsigned(u) == Some(x)
    ensures ParseFloat(Sign(v) + u) == Some(if v < 0.0 then -x else x)
  {
    hide ParseUnsigned;
    if v < 0.0 {
      assert (Sign(v) + u)[1..] == u;
    } else {
      assert Sign(v) + u == u;
    }
  }

  lemma ParseNumeral(v: real, places: nat)
    ensures ParseFloat(Numeral(v, places)) == Some(RoundTo(v, places))
  {
    hide ParseUnsigned, ParseFloat;
    PartsDenoteUnits(v, places);
    var whole, frac := WholePart(v, places), Fraction(v, places);
    ParseOfParts(whole, frac);
    ParseSigned(v, whole + Tail(frac), Units(v, places) as real / Pow10(places) as real);
  }

  /** A number printed with a fixed count of decimals has exactly that many, and is read as the rounded number. */
  lemma ParseFixed(v: real, places: nat)
    ensures ParseFloat(FormatFixed(v, places)) == Some(RoundTo(v, places))
    ensures places > 0 ==>
              && |FormatFixed(v, places)| > places + 1
              && FormatFixed(v, places)[|FormatFixed(v, places)| - 1 - places] == '.'
  {
    FixedParts(v, places);
    FixedUnsigned(v, places);
    hide ParseUnsigned, ParseFloat, FormatFixed, WholePart, FullFraction, Units, Pow10, Tail;
    var unsigned := WholePart(v, places) + Tail(FullFraction(v, places));
    assert unsigned[0] == WholePart(v, places)[0];
    ParseSigned(v, unsigned, Units(v, places) as real / Pow10(places) as real);
  }

  /** The whole part starts with a zero only if it is one. */
  lemma WholePartIsShort(v: real, places: nat)
    ensures WholePart(v, places)[0] == '0' ==> |WholePart(v, places)| == 1
  {
    var n := Units(v, places);
    DecimalIsShort(n);
    hide Units, Decimal;
    var s := Decimal(n);
    assert |s| > places + 1 ==> DigitsOf(n, places + 1) == s && WholePart(v, places)[0] == s[0];
    assert |s| > places + 1 ==> n >= 10;
  }

  lemma FixedUnsigned(v: real, places: nat)
    ensures ParseUnsigned(WholePart(v, places) + Tail(FullFraction(v, places))) ==
            Some(Units(v, places) as real / Pow10(places) as real)
  {
    hide ParseUnsigned, WholePart, FullFraction, Units, Pow10, Tail, Value;
    ParseOfParts(WholePart(v, places), FullFraction(v, places));
    FixedValue(v, places);
  }

  lemma FixedParts(v: real, places: nat)
    ensures FormatFixed(v, places) == Sign(v) + (WholePart(v, places) + Tail(FullFraction(v, places)))
    ensures places > 0 ==>
              && |FormatFixed(v, places)| > places + 1
              && FormatFixed(v, places)[|FormatFixed(v, places)| - 1 - places] == '.'
  {
    hide Units, DigitsOf;
    var whole, full := WholePart(v, places), FullFraction(v, places);
    Associate(Sign(v), whole, Tail(full));
  }

  lemma FixedValue(v: real, places: nat)
    ensures Value(WholePart(v, places) + FullFraction(v, places)) == Units(v, places)
  {
    ValueOfDigits(Units(v, places), places + 1);
    hide Units, DigitsOf;
    var digits := DigitsOf(Units(v, places), places + 1);
    assert digits == WholePart(v, places) + FullFraction(v, places);
  }

  /** The characters that strings.TrimSpace takes off an end. */
  predicate Blank(s: string) {
    forall i :: 0 <= i < |s| ==> s[i] in {' ', '\t', '\n', '\U{0B}', '\U{0C}', '\r', '\U{85}', '\U{A0}'}
  }

  lemma {:induction false} TrimShortens(s: string)
    ensures |TrimSpace(s)| <= |s|
    ensures s != "" && TrimSpace(s) == s ==> !IsSpace(s[0]) && !IsSpace(s[|s| - 1])
  {
    if s != "" && IsSpace(s[0]) {
      TrimShortens(s[1..]);
    } else if s != "" && IsSpace(s[|s| - 1]) {
      TrimShortens(s[..|s| - 1]);
    }
  }

  /** Blanks around a text that neither starts nor ends with one are cut off. */
  lemma {:induction false} TrimBlank(before: string, s: string, after: string)
    requires Blank(before) && Blank(after) && TrimSpace(s) == s
    ensures TrimSpace(before + s + after) == s
    decreases |before| + |after|
  {
    var t := before + s + after;
    if before != "" {
      assert t[1..] == before[1..] + s + after;
      TrimBlank(before[1..], s, after);
    } else if after != "" && s == "" {
      assert t[1..] == before + s + after[1..];
      TrimBlank(before, s, after[1..]);
    } else if after != "" {
      TrimShortens(s);
      assert t[..|t| - 1] == before + s + after[..|after| - 1];
      TrimBlank(before, s, after[..|after| - 1]);
    } else {
      assert t == s;
    }
  }

  /** An unsigned number may be written with a sign of either kind. */
  lemma ParseSigns(s: string, x: real)
    requires s != "" && IsDigit(s[0]) && ParseUnsigned(s) == Some(x)
    ensures ParseFloat(s) == ParseFloat("+" + s) == Some(x) && ParseFloat("-" + s) == Some(-x)
  {
    hide ParseUnsigned;
    assert ("+" + s)[1..] == s && ("-" + s)[1..] == s;
  }

  lemma FixedIsTight(v: real, places: nat)
    ensures TrimSpace(FormatFixed(v, places)) == FormatFixed(v, places) != ""
  {
    FixedParts(v, places);
    var s, whole, full := FormatFixed(v, places), WholePart(v, places), FullFraction(v, places);
    hide FormatFixed;
    assert s[|s| - 1] == if full == "" then whole[|whole| - 1] else full[|full| - 1];
    assert s[0] == if v < 0.0 then '-' else whole[0];
  }

  lemma NumeralIsTight(v: real, places: nat)
    ensures TrimSpace(Numeral(v, places)) == Numeral(v, places)
  {
    var s, whole, frac := Numeral(v, places), WholePart(v, places), Fraction(v, places);
    TrimZerosDigits(FullFraction(v, places));
    assert s[|s| - 1] == if frac == "" then whole[|whole| - 1] else frac[|frac| - 1];
    assert s[0] == if v < 0.0 then '-' else whole[0];
  }

  /** Reading a printed cost, surrounding spaces cut off, gives the cost rounded to twelve decimals. */
  lemma ParseFormatCost(v: real)
    ensures TrimSpace(FormatCost(v)) == FormatCost(v)
    ensures ParseFloat(FormatCost(v)) == Some(Rounded(v))
  {
    FormatCostIsNumeral(v);
    ParseNumeral(v, PLACES);
    NumeralIsTight(v, PLACES);
  }

  lemma RoundedQuotient(a: real, p: real)
    requires a >= 0.0 && p > 0.0
    ensures a - 0.5 / p <= UnitsOf(a, p) as real / p <= a + 0.5 / p
  {
    var n := UnitsOf(a, p) as real;
    RoundHalfEvenIsNearest(a * p);
    DivideMonotone(a * p - 0.5, n, p);
    DivideMonotone(n, a * p + 0.5, p);
    assert (a * p - 0.5) / p == a - 0.5 / p && (a * p + 0.5) / p == a + 0.5 / p;
  }

  lemma RoundToIsClose(v: real, places: nat)
    ensures v - 0.5 / Pow10(places) as real <= RoundTo(v, places) <= v + 0.5 / Pow10(places) as real
  {
    RoundedQuotient(Abs(v), Pow10(places) as real);
  }

  /** A printed cost is within 5e-13 of the true one. */
  lemma RoundedIsClose(v: real)
    ensures Abs(Rounded(v) - v) <= 0.0000000000005
  {
    RoundToIsClose(v, PLACES);
    assert Pow10(PLACES) == 1_000_000_000_000;
  }

  /** Two non-negative costs print alike exactly when they round to the same twelve-decimal number. */
  lemma FormatCostInjective(a: real, b: real)
    requires a >= 0.0 && b >= 0.0
    ensures FormatCost(a) == FormatCost(b) <==> Rounded(a) == Rounded(b)
  {
    ParseFormatCost(a);
    ParseFormatCost(b);
    if Rounded(a) == Rounded(b) {
      SameRoundingSameUnits(a, b, PLACES);
      SameUnitsSameNumeral(a, b, PLACES);
    }
  }

  lemma SameUnitsSameNumeral(a: real, b: real, places: nat)
    requires a >= 0.0 && b >= 0.0 && Units(a, places) == Units(b, places)
    ensures FormatFixed(a, places) == FormatFixed(b, places)
  {
  }

  lemma SameRoundingSameUnits(a: real, b: real, places: nat)
    requires a >= 0.0 && b >= 0.0 && RoundTo(a, places) == RoundTo(b, places)
    ensures Units(a, places) == Units(b, places)
  {
    SameQuotient(Units(a, places) as real, Units(b, places) as real, Pow10(places) as real);
  }

  lemma SameQuotient(m: real, n: real, p: real)
    requires p > 0.0 && m / p == n / p
    ensures m == n
  {
    assert m == m / p * p && n == n / p * p;
  }
}
