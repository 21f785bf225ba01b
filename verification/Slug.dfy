/** ModelSlug: from a model name to a DNS label (section 2.1 of RFC 1123). */
module Slug {
  import opened CostFormat

  predicate IsSlugChar(c: char) {
    'a' <= c <= 'z' || '0' <= c <= '9' || c == '-'
  }

  predicate AllSlugChars(s: string) {
    forall i :: 0 <= i < |s| ==> IsSlugChar(s[i])
  }

  /** A host label: 1 to 63 lower-case letters, digits and hyphens, no hyphen at either end. */
  predicate IsLabel(s: string) {
    1 <= |s| <= 63 && AllSlugChars(s) && s[0] != '-' && s[|s| - 1] != '-'
  }

  /** Lower-casing, character by character; it leaves the characters of a slug alone. */
  ghost predicate IsLowering(lower: char -> char) {
    forall c :: IsSlugChar(c) ==> lower(c) == c
  }

  function MapChars(s: string, f: char -> char): (r: string)
    ensures |r| == |s| && forall i :: 0 <= i < |s| ==> r[i] == f(s[i])
  {
    if s == "" then "" else MapChars(s[..|s| - 1], f) + [f(s[|s| - 1])]
  }

  function SlashToHyphen(c: char): char {
    if c == '/' then '-' else c
  }

  /** Replaces every maximal run of other characters by one hyphen. */
  function Sanitize(s: string): string {
    if s == "" then ""
    else
      var front, last := s[..|s| - 1], s[|s| - 1];
      if IsSlugChar(last) then Sanitize(front) + [last]
      else if front != "" && !IsSlugChar(front[|front| - 1]) then Sanitize(front)
      else Sanitize(front) + "-"
  }

  function TrimLeft(s: string, c: char): string {
    if s != "" && s[0] == c then TrimLeft(s[1..], c) else s
  }

  function ModelSlug(model: string, lower: char -> char): string {
    var lowered := MapChars(TrimSpace(model), lower);
    var clean := Sanitize(MapChars(lowered, SlashToHyphen));
    var trimmed := TrimRight(TrimLeft(clean, '-'), '-');
    var s := if trimmed == "" then "model" else trimmed;
    if |s| > 63 then TrimRight(s[..63], '-') else s
  }

  lemma {:induction false} SanitizeGivesSlugChars(s: string)
    ensures AllSlugChars(Sanitize(s))
  {
    if s != "" {
      SanitizeGivesSlugChars(s[..|s| - 1]);
    }
  }

  lemma {:induction false} TrimLeftSuffix(s: string, c: char)
    ensures var t := TrimLeft(s, c);
            |t| <= |s| && t == s[|s| - |t|..] && (t != "" ==> t[0] != c)
  {
    if s != "" && s[0] == c {
      TrimLeftSuffix(s[1..], c);
    }
  }

  lemma {:induction false} TrimRightPrefix(s: string, c: char)
    ensures var t := TrimRight(s, c);
            && |t| <= |s| && t == s[..|t|]
            && (t != "" ==> t[|t| - 1] != c)
            && (s != "" && s[0] != c ==> t != "")
  {
    if s != "" && s[|s| - 1] == c {
      TrimRightPrefix(s[..|s| - 1], c);
    }
  }

  /** Every model name, whatever characters it is made of, gives a valid host label. */
  lemma SlugIsLabel(model: string, lower: char -> char)
    ensures IsLabel(ModelSlug(model, lower))
  {
    hide TrimRight, TrimLeft, Sanitize, TrimSpace, MapChars;
    var s := Sanitize(MapChars(MapChars(TrimSpace(model), lower), SlashToHyphen));
    SanitizeGivesSlugChars(MapChars(MapChars(TrimSpace(model), lower), SlashToHyphen));
    var l := TrimLeft(s, '-');
    TrimLeftSuffix(s, '-');
    assert AllSlugChars(l);
    var r := TrimRight(l, '-');
    TrimRightPrefix(l, '-');
    assert AllSlugChars(r);
    if |r| > 63 {
      TrimRightPrefix(r[..63], '-');
    }
  }

  lemma {:induction false} SanitizeKeeps(s: string)
    requires AllSlugChars(s)
    ensures Sanitize(s) == s
  {
    if s != "" {
      SanitizeKeeps(s[..|s| - 1]);
    }
  }

  /** A label is its own slug. */
  lemma LabelIsItsSlug(s: string, lower: char -> char)
    requires IsLabel(s) && IsLowering(lower)
    ensures ModelSlug(s, lower) == s
  {
    hide Sanitize;
    assert TrimSpace(s) == s;
    assert MapChars(s, lower) == s;
    assert MapChars(s, SlashToHyphen) == s;
    SanitizeKeeps(s);
    assert TrimLeft(s, '-') == s;
    assert TrimRight(s, '-') == s;
  }

  /** Taking the slug a second time changes nothing. */
  lemma SlugIsIdempotent(model: string, lower: char -> char)
    requires IsLowering(lower)
    ensures ModelSlug(ModelSlug(model, lower), lower) == ModelSlug(model, lower)
  {
    hide ModelSlug;
    SlugIsLabel(model, lower);
    LabelIsItsSlug(ModelSlug(model, lower), lower);
  }

  // ---- what the slug is made of ----

  /** A run of other characters at the end becomes one hyphen. */
  lemma {:induction false} RunAtEnd(a: string, run: string)
    requires run != "" && forall i :: 0 <= i < |run| ==> !IsSlugChar(run[i])
    requires a != "" ==> IsSlugChar(a[|a| - 1])
    ensures Sanitize(a + run) == Sanitize(a) + "-"
    decreases |run|
  {
    hide Sanitize, IsSlugChar;
    var n := |run| - 1;
    SanitizeSnoc(a + run[..n], run[n]);
    assert a + run == (a + run[..n]) + [run[n]];
    if n > 0 {
      RunAtEnd(a, run[..n]);
      assert (a + run[..n])[|a + run[..n]| - 1] == run[n - 1];
    } else {
      assert a + run[..n] == a;
    }
  }

  /** A run of other characters, which begins and ends where such characters begin and end, becomes one hyphen. */
  lemma {:induction false} RunBecomesHyphen(a: string, run: string, b: string)
    requires run != "" && forall i :: 0 <= i < |run| ==> !IsSlugChar(run[i])
    requires a != "" ==> IsSlugChar(a[|a| - 1])
    requires b != "" ==> IsSlugChar(b[0])
    ensures Sanitize(a + run + b) == Sanitize(a) + "-" + Sanitize(b)
    decreases |b|
  {
    hide Sanitize, IsSlugChar;
    if b == "" {
      RunAtEnd(a, run);
      assert a + run + b == a + run;
      SanitizeNothing();
    } else {
      var front, last := b[..|b| - 1], b[|b| - 1];
      RunBecomesHyphen(a, run, front);
      JoinedSnoc(a + run, front, last);
      assert b == front + [last] && front == "" ==> last == b[0];
      var t :| Sanitize(a + run + (front + [last])) == Sanitize(a + run + front) + t
        && Sanitize(front + [last]) == Sanitize(front) + t;
      assert Sanitize(a) + "-" + Sanitize(front) + t == Sanitize(a) + "-" + (Sanitize(front) + t);
    }
  }

  /** One more character does to a text what it does to its end. */
  lemma JoinedSnoc(a: string, b: string, c: char)
    requires IsSlugChar(c) || b != ""
    ensures exists t :: Sanitize(a + (b + [c])) == Sanitize(a + b) + t && Sanitize(b + [c]) == Sanitize(b) + t
  {
    hide Sanitize, IsSlugChar;
    assert a + (b + [c]) == (a + b) + [c];
    SanitizeSnoc(a + b, c);
    SanitizeSnoc(b, c);
    if b != "" {
      assert (a + b)[|a + b| - 1] == b[|b| - 1];
    }
    var t := if IsSlugChar(c) then [c] else if !IsSlugChar(b[|b| - 1]) then "" else "-";
    assert Sanitize((a + b) + [c]) == Sanitize(a + b) + t;
  }

  lemma SanitizeNothing()
    ensures Sanitize("") == ""
  {
  }

  lemma SanitizeSnoc(s: string, c: char)
    ensures Sanitize(s + [c]) ==
            if IsSlugChar(c) then Sanitize(s) + [c]
            else if s != "" && !IsSlugChar(s[|s| - 1]) then Sanitize(s)
            else Sanitize(s) + "-"
  {
    hide IsSlugChar;
    SanitizeLast(s + [c]);
    hide Sanitize;
    assert (s + [c])[..|s|] == s;
  }

  lemma SanitizeLast(s: string)
    requires s != ""
    ensures var front, last := s[..|s| - 1], s[|s| - 1];
            Sanitize(s) ==
            if IsSlugChar(last) then Sanitize(front) + [last]
            else if front != "" && !IsSlugChar(front[|front| - 1]) then Sanitize(front)
            else Sanitize(front) + "-"
  {
    hide IsSlugChar;
  }

  /** The characters of a label: the small letters, the digits and the hyphen of ASCII. */
  lemma SlugCharIff(c: char)
    ensures IsSlugChar(c) <==> 97 <= c as int <= 122 || 48 <= c as int <= 57 || c as int == 45
  {
  }

  /** Any run of characters that have no place in a label joins two labels by one hyphen. */
  lemma SlugOfTwo(a: string, run: string, b: string, lower: char -> char)
    requires IsLabel(a) && IsLabel(b) && |a| + 1 + |b| <= 63 && IsLowering(lower)
    requires run != "" && forall i :: 0 <= i < |run| ==> !IsSlugChar(lower(run[i])) && lower(run[i]) != '/'
    ensures ModelSlug(a + run + b, lower) == a + "-" + b
  {
    var middle := MapChars(MapChars(run, lower), SlashToHyphen);
    TwoMapped(a, run, b, lower);
    SanitizeTwo(a, middle, b);
    hide Sanitize, MapChars, TrimSpace;
    LabelsStay(a, "-", b);
  }

  /** Every slash between two labels becomes a hyphen of its own. */
  lemma SlugOfSlashes(a: string, slashes: string, b: string, hyphens: string, lower: char -> char)
    requires IsLabel(a) && IsLabel(b) && |a| + |slashes| + |b| <= 63 && IsLowering(lower) && lower('/') == '/'
    requires |slashes| == |hyphens|
    requires forall i :: 0 <= i < |slashes| ==> slashes[i] == '/' && hyphens[i] == '-'
    ensures ModelSlug(a + slashes + b, lower) == a + hyphens + b
  {
    TwoMapped(a, slashes, b, lower);
    SlashesMapped(slashes, hyphens, lower);
    HyphensKept(a, hyphens, b);
    LabelsStay(a, hyphens, b);
    hide Sanitize, MapChars, TrimSpace, IsLabel, TrimLeft, TrimRight, IsLowering;
  }

  lemma SlashesMapped(slashes: string, hyphens: string, lower: char -> char)
    requires lower('/') == '/' && |slashes| == |hyphens|
    requires forall i :: 0 <= i < |slashes| ==> slashes[i] == '/' && hyphens[i] == '-'
    ensures MapChars(MapChars(slashes, lower), SlashToHyphen) == hyphens
  {
    hide MapChars;
  }

  lemma HyphensKept(a: string, hyphens: string, b: string)
    requires IsLabel(a) && IsLabel(b) && forall i :: 0 <= i < |hyphens| ==> hyphens[i] == '-'
    ensures Sanitize(a + hyphens + b) == a + hyphens + b
  {
    SanitizeKeeps(a + hyphens + b);
    hide Sanitize;
  }

  lemma LabelsStay(a: string, middle: string, b: string)
    requires IsLabel(a) && IsLabel(b)
    ensures var s := a + middle + b; TrimLeft(s, '-') == s && TrimRight(s, '-') == s != ""
  {
    var s := a + middle + b;
    assert s[0] == a[0] && s[|s| - 1] == b[|b| - 1];
  }

  /** Two labels are mapped to themselves. */
  lemma TwoMapped(a: string, run: string, b: string, lower: char -> char)
    requires IsLabel(a) && IsLabel(b) && IsLowering(lower)
    ensures MapChars(MapChars(TrimSpace(a + run + b), lower), SlashToHyphen)
            == a + MapChars(MapChars(run, lower), SlashToHyphen) + b
  {
    NothingToTrim(a, run, b);
    MapJoined(a, run, b, lower);
    SlugIsMappedToItself(a, lower);
    SlugIsMappedToItself(b, lower);
    MapJoined(a, MapChars(run, lower), b, SlashToHyphen);
    hide MapChars, TrimSpace, IsLowering, IsLabel;
  }

  lemma SanitizeTwo(a: string, middle: string, b: string)
    requires IsLabel(a) && IsLabel(b)
    requires middle != "" && forall i :: 0 <= i < |middle| ==> !IsSlugChar(middle[i])
    ensures Sanitize(a + middle + b) == a + "-" + b
  {
    hide Sanitize;
    SanitizeKeeps(a);
    SanitizeKeeps(b);
    RunBecomesHyphen(a, middle, b);
  }

  lemma NothingToTrim(a: string, run: string, b: string)
    requires IsLabel(a) && IsLabel(b)
    ensures TrimSpace(a + run + b) == a + run + b
  {
    var s := a + run + b;
    assert s[0] == a[0] && s[|s| - 1] == b[|b| - 1];
  }

  lemma MapJoined(a: string, b: string, c: string, f: char -> char)
    ensures MapChars(a + b + c, f) == MapChars(a, f) + MapChars(b, f) + MapChars(c, f)
  {
    hide MapChars;
    var whole, parts := MapChars(a + b + c, f), MapChars(a, f) + MapChars(b, f) + MapChars(c, f);
    forall i | 0 <= i < |whole| ensures whole[i] == parts[i] {
      assert whole[i] == f((a + b + c)[i]);
    }
  }

  lemma SlugIsMappedToItself(s: string, lower: char -> char)
    requires AllSlugChars(s) && IsLowering(lower)
    ensures MapChars(s, lower) == s && MapChars(s, SlashToHyphen) == s
  {
    hide MapChars;
  }

  /** A name of hyphens, slashes and characters without a place in a label has the slug "model". */
  lemma NothingLeftIsModel(model: string, lower: char -> char)
    requires forall i :: 0 <= i < |model| ==> lower(model[i]) in {'-', '/'} || !IsSlugChar(lower(model[i]))
    ensures ModelSlug(model, lower) == "model"
  {
    hide Sanitize;
    TrimKeepsChars(model);
    var text := MapChars(MapChars(TrimSpace(model), lower), SlashToHyphen);
    OnlyHyphens(text);
    HyphensTrimmed(Sanitize(text));
  }

  lemma {:induction false} TrimKeepsChars(s: string)
    ensures forall i :: 0 <= i < |TrimSpace(s)| ==> TrimSpace(s)[i] in s
  {
    if s != "" && IsSpace(s[0]) {
      TrimKeepsChars(s[1..]);
    } else if s != "" && IsSpace(s[|s| - 1]) {
      TrimKeepsChars(s[..|s| - 1]);
    }
  }

  lemma {:induction false} OnlyHyphens(s: string)
    requires forall i :: 0 <= i < |s| ==> s[i] == '-' || !IsSlugChar(s[i])
    ensures forall i :: 0 <= i < |Sanitize(s)| ==> Sanitize(s)[i] == '-'
  {
    if s != "" {
      OnlyHyphens(s[..|s| - 1]);
    }
  }

  lemma {:induction false} HyphensTrimmed(s: string)
    requires forall i :: 0 <= i < |s| ==> s[i] == '-'
    ensures TrimLeft(s, '-') == ""
  {
    if s != "" {
      HyphensTrimmed(s[1..]);
    }
  }

  /** A long name is cut to 63 characters, and then to before the hyphens at its end. */
  lemma LongNameIsCut(s: string, lower: char -> char, n: nat)
    requires |s| > 63 && AllSlugChars(s) && s[0] != '-' && s[|s| - 1] != '-' && IsLowering(lower)
    requires 0 < n <= 63 && s[n - 1] != '-' && forall i :: n <= i < 63 ==> s[i] == '-'
    ensures ModelSlug(s, lower) == s[..n]
  {
    hide Sanitize;
    assert TrimSpace(s) == s;
    assert MapChars(s, lower) == s && MapChars(s, SlashToHyphen) == s;
    SanitizeKeeps(s);
    assert TrimLeft(s, '-') == s && TrimRight(s, '-') == s;
    TrimTo(s[..63], n);
    assert s[..63][..n] == s[..n];
  }

  lemma {:induction false} TrimTo(s: string, n: nat)
    requires 0 < n <= |s| && s[n - 1] != '-' && forall i :: n <= i < |s| ==> s[i] == '-'
    ensures TrimRight(s, '-') == s[..n]
  {
    if n < |s| {
      TrimTo(s[..|s| - 1], n);
      assert s[..|s| - 1][..n] == s[..n];
    } else {
      assert s[..n] == s;
    }
  }
}
