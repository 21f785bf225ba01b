/** Optional values, used for Go's nil pointers and its (value, ok) pairs. */
module Options {
  datatype Option<+T> = None | Some(value: T)
}

/**
 Decimal numerals as strings of ASCII digits, and the two rules by which the Go
 code rounds a real number to an integer.
 */
module Numerals {

  function Pow10(n: nat): (p: nat)
    ensures p >= 1
  {
    if n == 0 then 1 else 10 * Pow10(n - 1)
  }

  predicate IsDigit(c: char) {
    '0' <= c <= '9'
  }

  predicate AllDigits(s: string) {
    forall i :: 0 <= i < |s| ==> IsDigit(s[i])
  }

  function Digit(d: nat): (c: char)
    requires d < 10
    ensures IsDigit(c) && DigitValue(c) == d
  {
    ('0' as int + d) as char
  }

  function DigitValue(c: char): (d: nat)
    requires IsDigit(c)
    ensures d < 10
  {
    c as int - '0' as int
  }

  /** The decimal numeral of n, without leading zeros. */
  function Decimal(n: nat): (s: string)
    ensures |s| >= 1 && AllDigits(s)
  {
    if n < 10 then [Digit(n)] else Decimal(n / 10) + [Digit(n % 10)]
  }

  function Zeros(k: nat): (s: string)
    ensures |s| == k && AllDigits(s)
  {
    if k == 0 then "" else Zeros(k - 1) + "0"
  }

  /** The number that a digit string denotes; the empty string denotes 0. */
  function Value(s: string): nat
    requires AllDigits(s)
  {
    if s == "" then 0 else 10 * Value(s[..|s| - 1]) + DigitValue(s[|s| - 1])
  }

  /** A signed integer as strconv.FormatInt prints it in base 10. */
  function FormatInt(n: int): (s: string)
    ensures s != ""
  {
    if n < 0 then "-" + Decimal(-n) else Decimal(n)
  }

  lemma {:induction false} ValueOfDecimal(n: nat)
    ensures Value(Decimal(n)) == n
  {
    if n >= 10 {
      ValueOfDecimal(n / 10);
      var s := Decimal(n);
      assert s[..|s| - 1] == Decimal(n / 10);
    }
  }

  /** No numeral but "0" starts with a zero. */
  lemma {:induction false} DecimalIsShort(n: nat)
    ensures Decimal(n)[0] == '0' ==> n == 0
    ensures n < 10 ==> |Decimal(n)| == 1
  {
    if n >= 10 {
      DecimalIsShort(n / 10);
      assert Decimal(n)[0] == Decimal(n / 10)[0];
    }
  }

  /** A printed integer is a numeral of its size, after a minus sign if it is negative. */
  lemma IntIsNumeral(n: int)
    ensures if n < 0 then
              FormatInt(n)[0] == '-' && AllDigits(FormatInt(n)[1..]) && Value(FormatInt(n)[1..]) == -n
            else AllDigits(FormatInt(n)) && Value(FormatInt(n)) == n
  {
    ValueOfDecimal(if n < 0 then -n else n);
    hide Decimal, Value;
    assert n < 0 ==> FormatInt(n)[1..] == Decimal(-n);
  }

  lemma {:induction false} Pow10Add(a: nat, b: nat)
    ensures Pow10(a + b) == Pow10(a) * Pow10(b)
  {
    if b > 0 {
      Pow10Add(a, b - 1);
      assert Pow10(a + b) == 10 * (Pow10(a) * Pow10(b - 1)) == Pow10(a) * Pow10(b);
    }
  }

  lemma ValueOfSnoc(s: string, c: char)
    requires AllDigits(s) && IsDigit(c)
    ensures AllDigits(s + [c]) && Value(s + [c]) == 10 * Value(s) + DigitValue(c)
  {
    assert (s + [c])[..|s|] == s;
  }

  lemma {:induction false} ValueOfLeadingZeros(k: nat, s: string)
    requires AllDigits(s)
    ensures Value(Zeros(k) + s) == Value(s)
  {
    if s != "" {
      var p, c := s[..|s| - 1], s[|s| - 1];
      ValueOfLeadingZeros(k, p);
      ValueOfSnoc(Zeros(k) + p, c);
      assert Zeros(k) + s == (Zeros(k) + p) + [c];
    } else if k > 0 {
      ValueOfLeadingZeros(k - 1, "");
      ValueOfSnoc(Zeros(k - 1), '0');
      assert Zeros(k) + "" == Zeros(k - 1) + ['0'] && Zeros(k - 1) + "" == Zeros(k - 1);
    }
  }

  lemma TenfoldProduct(a: nat, b: nat)
    ensures a * (10 * b) == 10 * (a * b)
  {
  }

  lemma {:induction false} ValueOfTrailingZeros(s: string, k: nat)
    requires AllDigits(s)
    ensures Value(s + Zeros(k)) == Value(s) * Pow10(k)
  {
    if k == 0 {
      assert s + Zeros(0) == s;
    } else {
      ValueOfTrailingZeros(s, k - 1);
      ValueOfSnoc(s + Zeros(k - 1), '0');
      assert s + Zeros(k) == (s + Zeros(k - 1)) + ['0'];
      calc {
        Value(s + Zeros(k));
        10 * Value(s + Zeros(k - 1));
        10 * (Value(s) * Pow10(k - 1));
        { TenfoldProduct(Value(s), Pow10(k - 1)); }
        Value(s) * (10 * Pow10(k - 1));
        Value(s) * Pow10(k);
      }
    }
  }

  function Abs(x: real): (r: real)
    ensures r >= 0.0
  {
    if x < 0.0 then -x else x
  }

  /** Nearest integer, ties to the even neighbour: how strconv.FormatFloat rounds a decimal. */
  function RoundHalfEven(x: real): (n: nat)
    requires x >= 0.0
  {
    var f := x.Floor;
    var d := x - f as real;
    if d < 0.5 || (d == 0.5 && f % 2 == 0) then f else f + 1
  }

  /** Nearest integer, ties away from zero: math.Round. */
  function RoundHalfAway(x: real): int {
    if x >= 0.0 then (x + 0.5).Floor else -((0.5 - x).Floor)
  }

  lemma RoundHalfEvenIsNearest(x: real)
    requires x >= 0.0
    ensures Abs(RoundHalfEven(x) as real - x) <= 0.5
  {
  }

  lemma RoundHalfAwayIsNearest(x: real)
    ensures Abs(RoundHalfAway(x) as real - x) <= 0.5
  {
  }

  /** Halves go to the even neighbour. */
  lemma HalvesToEven(n: nat)
    ensures RoundHalfEven(n as real + 0.5) == if n % 2 == 0 then n else n + 1
  {
  }

  /** Halves go away from zero. */
  lemma HalvesAway(n: int)
    requires n >= 0
    ensures RoundHalfAway(n as real + 0.5) == n + 1 && RoundHalfAway(-(n as real) - 0.5) == -n - 1
  {
  }

  lemma DivideMonotone(a: real, b: real, p: real)
    requires p > 0.0 && a <= b
    ensures a / p <= b / p
  {
    assert b / p - a / p == (b - a) / p;
    assert (b - a) / p >= 0.0;
  }
}
