/** Thousands separators, as the webhook writes them into counts and the CLI into amounts of money. */
module Commas {
  import opened Options
  import opened Numerals
  import opened CostFormat

  /** What the loop has written after i characters of s. */
  function Written(s: string, i: nat): string
    requires i <= |s|
  {
    if i == 0 then ""
    else Written(s, i - 1) + (if i > 1 && (|s| - (i - 1)) % 3 == 0 then "," else "") + [s[i - 1]]
  }

  method GroupDigits(s: string) returns (b: string)
    ensures b == Written(s, |s|)
  {
    b := "";
    for i := 0 to |s|
      invariant b == Written(s, i)
    {
      if i > 0 && (|s| - i) % 3 == 0 {
        b := b + ",";
      }
      b := b + [s[i]];
    }
  }

  /** formatCount: negative counts are shown as 0. */
  method FormatCount(n: int) returns (r: string)
    ensures var s := Decimal(if n < 0 then 0 else n); r == Written(s, |s|)
  {
    var s := Decimal(if n < 0 then 0 else n);
    if |s| <= 3 {
      ShortIsItself(s, |s|);
      return s;
    }
    r := GroupDigits(s);
  }

  /** The sign, the whole part and, when there is a point, the decimals of a printed number. */
  function SplitNumber(s: string): (string, string, Option<string>) {
    var dot := IndexOf(s, '.');
    var whole := s[..dot];
    var decimals := if dot < |s| then Some(s[dot + 1..]) else None;
    if whole != "" && whole[0] == '-' then ("-", whole[1..], decimals) else ("", whole, decimals)
  }

  function Regrouped(s: string): string {
    var (sign, whole, decimals) := SplitNumber(s);
    sign + Written(whole, |whole|) + (if decimals.Some? then "." + decimals.value else "")
  }

  /** formatWithCommas: %.*f has no point when no decimals are asked for. */
  method FormatWithCommas(v: real, decimals: nat) returns (r: string)
    ensures r == Regrouped(FormatFixed(v, decimals))
  {
    hide FormatFixed;
    var s := FormatFixed(v, decimals);
    var dot := IndexOf(s, '.');
    var intPart := s[..dot];
    var neg := intPart != "" && intPart[0] == '-';
    if neg {
      intPart := intPart[1..];
    }
    r := GroupDigits(intPart);
    if neg {
      r := "-" + r;
    }
    if dot < |s| {
      r := r + "." + s[dot + 1..];
    }
  }

  lemma {:induction false} ShortIsItself(s: string, i: nat)
    requires i <= |s| <= 3
    ensures Written(s, i) == s[..i]
  {
    if i > 0 {
      ShortIsItself(s, i - 1);
    }
  }

  function RemoveCommas(s: string): string {
    if s == "" then ""
    else RemoveCommas(s[..|s| - 1]) + (if s[|s| - 1] == ',' then "" else [s[|s| - 1]])
  }

  predicate CommaFree(s: string) {
    ',' !in s
  }

  lemma RemoveSnoc(s: string, c: char)
    ensures RemoveCommas(s + [c]) == RemoveCommas(s) + (if c == ',' then "" else [c])
  {
    assert (s + [c])[..|s|] == s;
  }

  /** One round of the loop. */
  lemma WrittenStep(s: string, i: nat)
    requires 0 < i <= |s|
    ensures Written(s, i) ==
            (if i > 1 && (|s| - (i - 1)) % 3 == 0 then Written(s, i - 1) + "," else Written(s, i - 1)) + [s[i - 1]]
  {
  }

  /** Taking the commas out gives the digits back. */
  lemma {:induction false} RemoveWritten(s: string, i: nat)
    requires i <= |s| && CommaFree(s)
    ensures RemoveCommas(Written(s, i)) == s[..i]
  {
    if i > 0 {
      hide Written, RemoveCommas;
      var before, c := Written(s, i - 1), s[i - 1];
      RemoveWritten(s, i - 1);
      WrittenStep(s, i);
      CommaFreeAt(s, i - 1);
      RemoveSnoc(before, c);
      RemoveCommaAndSnoc(before, c);
      assert s[..i] == s[..i - 1] + [c];
      hide CommaFree;
    }
  }

  lemma CommaFreeAt(s: string, k: nat)
    requires k < |s| && CommaFree(s)
    ensures s[k] != ','
  {
    assert s[k] in s;
  }

  lemma RemoveCommaAndSnoc(s: string, c: char)
    requires c != ','
    ensures RemoveCommas(s + "," + [c]) == RemoveCommas(s) + [c]
  {
    RemoveSnoc(s, ',');
    RemoveSnoc(s + ",", c);
  }

  lemma {:induction false} CommaFreeIsItself(s: string)
    requires CommaFree(s)
    ensures RemoveCommas(s) == s
  {
    if s != "" {
      assert s[|s| - 1] in s;
      assert CommaFree(s[..|s| - 1]);
      CommaFreeIsItself(s[..|s| - 1]);
    }
  }

  /** The number of characters that are still to be written after i characters of n. */
  function Rest(n: nat, i: nat): nat
    requires i <= n
  {
    (n - i) + (if i == 0 then (if n == 0 then 0 else (n - 1) / 3) else (n - i) / 3)
  }

  /** Counted from the right end, every fourth character is a comma and no other. */
  predicate GroupedFromRight(t: string, missing: nat) {
    forall k :: 0 <= k < |t| ==> (t[k] == ',' <==> (missing + |t| - 1 - k) % 4 == 3)
  }

  lemma GroupedSnoc(t: string, missing: nat, c: char)
    requires missing > 0 && GroupedFromRight(t, missing) && (c == ',' <==> (missing - 1) % 4 == 3)
    ensures GroupedFromRight(t + [c], missing - 1)
  {
  }

  lemma ThirdsAndFourths(r: nat)
    ensures (r + 1) / 3 == r / 3 + (if (r + 1) % 3 == 0 then 1 else 0)
    ensures (r + r / 3) % 4 == r % 3
    ensures (r + 1) % 3 == 0 <==> r % 3 == 2
  {
    var q, m := r / 3, r % 3;
    assert r == 3 * q + m && r + r / 3 == 4 * q + m;
  }

  lemma RestStep(n: nat, i: nat)
    requires 0 < i <= n
    ensures if i > 1 && (n - (i - 1)) % 3 == 0 then
              Rest(n, i - 1) == Rest(n, i) + 2 && (Rest(n, i) + 1) % 4 == 3 && Rest(n, i) % 4 != 3
            else Rest(n, i - 1) == Rest(n, i) + 1 && Rest(n, i) % 4 != 3
  {
    ThirdsAndFourths(n - i);
    var r := n - i;
    assert Rest(n, i) == r + r / 3;
    assert i > 1 ==> Rest(n, i - 1) == (r + 1) + (r + 1) / 3;
  }

  lemma {:induction false} WrittenIsGrouped(s: string, i: nat)
    requires i <= |s| && CommaFree(s)
    ensures GroupedFromRight(Written(s, i), Rest(|s|, i))
    ensures |Written(s, i)| + Rest(|s|, i) == Rest(|s|, 0)
  {
    if i > 0 {
      WrittenIsGrouped(s, i - 1);
      WrittenStep(s, i);
      RestStep(|s|, i);
      hide Written, Rest, GroupedFromRight;
      var before := Written(s, i - 1);
      assert s[i - 1] != ',' by { assert s[i - 1] in s; }
      if i > 1 && (|s| - (i - 1)) % 3 == 0 {
        GroupedSnoc(before, Rest(|s|, i - 1), ',');
        GroupedSnoc(before + ",", Rest(|s|, i - 1) - 1, s[i - 1]);
      } else {
        GroupedSnoc(before, Rest(|s|, i - 1), s[i - 1]);
      }
    }
  }

  /**
   The groups are right: every fourth character from the right is a comma, so
   that all groups after the first have three digits, and the first has one to
   three.
   */
  lemma GroupsOfThree(s: string)
    requires s != "" && CommaFree(s)
    ensures var t := Written(s, |s|);
            && GroupedFromRight(t, 0)
            && t[0] != ',' && t[|t| - 1] != ','
            && RemoveCommas(t) == s
  {
    WrittenIsGrouped(s, |s|);
    RemoveWritten(s, |s|);
    var n, t := |s|, Written(s, |s|);
    assert s[0] in s && s[n - 1] in s;
    FirstWritten(s, n);
    assert s[..n] == s;
  }

  lemma {:induction false} FirstWritten(s: string, i: nat)
    requires 0 < i <= |s|
    ensures Written(s, i) != "" && Written(s, i)[0] == s[0]
  {
    if i > 1 {
      FirstWritten(s, i - 1);
    }
  }

  lemma DigitsAreCommaFree(s: string)
    requires AllDigits(s)
    ensures CommaFree(s)
  {
  }

  /** A printed count, commas taken out, denotes the count. */
  lemma CountRoundTrip(n: nat)
    ensures var s := Decimal(n);
            && AllDigits(RemoveCommas(Written(s, |s|)))
            && Value(RemoveCommas(Written(s, |s|))) == n
  {
    var s := Decimal(n);
    DigitsAreCommaFree(s);
    GroupsOfThree(s);
    ValueOfDecimal(n);
  }

  lemma {:induction false} RemoveAppend(a: string, b: string)
    ensures RemoveCommas(a + b) == RemoveCommas(a) + RemoveCommas(b)
  {
    if b == "" {
      assert a + b == a;
    } else {
      var front, last := b[..|b| - 1], b[|b| - 1];
      RemoveAppend(a, front);
      RemoveSnoc(a + front, last);
      assert a + b == (a + front) + [last];
    }
  }

  lemma SplitJoins(s: string)
    ensures var (sign, whole, decimals) := SplitNumber(s);
            var tail := if decimals.Some? then "." + decimals.value else "";
            s == sign + whole + tail
  {
    var dot := IndexOf(s, '.');
    assert s == s[..dot] + s[dot..];
  }

  lemma CommaFreeParts(a: string, b: string, c: string)
    requires CommaFree(a + b + c)
    ensures CommaFree(a) && CommaFree(b) && CommaFree(c)
  {
    assert forall x :: x in a ==> x in a + b + c;
    assert forall x :: x in b ==> x in a + b + c;
    assert forall x :: x in c ==> x in a + b + c;
  }

  /** An amount with commas, commas taken out, is the amount as it was printed. */
  lemma AmountRoundTrip(s: string)
    requires CommaFree(s)
    ensures RemoveCommas(Regrouped(s)) == s
  {
    hide Written, RemoveCommas, CommaFree, IndexOf;
    SplitJoins(s);
    var (sign, whole, decimals) := SplitNumber(s);
    hide SplitNumber;
    var tail := if decimals.Some? then "." + decimals.value else "";
    CommaFreeParts(sign, whole, tail);
    RemoveWritten(whole, |whole|);
    assert whole[..|whole|] == whole;
    RemoveAppend(sign + Written(whole, |whole|), tail);
    RemoveAppend(sign, Written(whole, |whole|));
    CommaFreeIsItself(sign);
    CommaFreeIsItself(tail);
  }

  /** The same for a printed number: grouping loses none of its digits. */
  lemma FormattedAmountRoundTrip(v: real, decimals: nat)
    ensures RemoveCommas(Regrouped(FormatFixed(v, decimals))) == FormatFixed(v, decimals)
  {
    hide RemoveCommas, Regrouped;
    var digits := DigitsOf(Units(v, decimals), decimals + 1);
    DigitsAreCommaFree(digits);
    AmountRoundTrip(FormatFixed(v, decimals));
  }

  /** An amount keeps its sign and its decimals, and its whole part is grouped in threes. */
  lemma AmountIsGrouped(sign: string, whole: string, tail: string)
    requires sign in {"", "-"} && whole != "" && AllDigits(whole)
    requires tail == "" || (tail[0] == '.' && AllDigits(tail[1..]))
    ensures exists t ::
              Regrouped(sign + whole + tail) == sign + t + tail
              && GroupedFromRight(t, 0) && t != "" && t[0] != ',' && t[|t| - 1] != ',' && RemoveCommas(t) == whole
  {
    DigitsAreCommaFree(whole);
    GroupsOfThree(whole);
    SplitOfParts(sign, whole, tail);
    hide Written, GroupedFromRight, RemoveCommas, SplitNumber, AllDigits, CommaFree;
    var t := Written(whole, |whole|);
    assert tail != "" ==> tail == "." + tail[1..];
    assert Regrouped(sign + whole + tail) == sign + t + tail;
  }

  lemma SplitOfParts(sign: string, whole: string, tail: string)
    requires sign in {"", "-"} && whole != "" && AllDigits(whole)
    requires tail == "" || (tail[0] == '.' && AllDigits(tail[1..]))
    ensures SplitNumber(sign + whole + tail) == (sign, whole, if tail == "" then None else Some(tail[1..]))
  {
    var s, dot := sign + whole + tail, |sign + whole|;
    assert '.' !in sign + whole;
    if tail == "" {
      assert s == sign + whole;
      assert IndexOf(s, '.') == |s|;
    } else {
      assert tail == "." + tail[1..];
      assert s == (sign + whole) + "." + tail[1..];
      assert IndexOf(s, '.') == dot;
    }
    hide IndexOf;
    assert s[..dot] == sign + whole;
    assert (sign + whole)[0] == if sign == "" then whole[0] else '-';
    assert sign == "-" ==> (sign + whole)[1..] == whole;
    assert sign == "" ==> sign + whole == whole;
  }

  /** A printed amount of any size. */
  lemma PrintedAmountIsGrouped(v: real, decimals: nat)
    ensures exists t ::
              Regrouped(FormatFixed(v, decimals)) == Sign(v) + t + Tail(FullFraction(v, decimals))
              && GroupedFromRight(t, 0) && t != "" && t[0] != ',' && t[|t| - 1] != ','
              && RemoveCommas(t) == WholePart(v, decimals)
  {
    FixedParts(v, decimals);
    var whole, tail := WholePart(v, decimals), Tail(FullFraction(v, decimals));
    Associate(Sign(v), whole, tail);
    hide WholePart, FullFraction, FormatFixed, GroupedFromRight, RemoveCommas, Regrouped;
    AmountIsGrouped(Sign(v), whole, tail);
  }
}
