/** The price collector: label keys that only grow, kept sorted, and one row of label values per price rule. */
module Pricing {
  import opened Options

  // ---- the order of Go strings ----

  predicate Less(a: string, b: string) {
    b != "" && (a == "" || a[0] < b[0] || (a[0] == b[0] && Less(a[1..], b[1..])))
  }

  lemma {:induction false} LessTransitive(a: string, b: string, c: string)
    requires Less(a, b) && Less(b, c)
    ensures Less(a, c)
  {
    if a != "" && a[0] == b[0] && b[0] == c[0] {
      LessTransitive(a[1..], b[1..], c[1..]);
    }
  }

  lemma {:induction false} LessTotal(a: string, b: string)
    ensures Less(a, b) || a == b || Less(b, a)
  {
    if a != "" && b != "" && a[0] == b[0] {
      LessTotal(a[1..], b[1..]);
      assert a == [a[0]] + a[1..] && b == [b[0]] + b[1..];
    }
  }

  lemma {:induction false} LessIrreflexive(a: string)
    ensures !Less(a, a)
  {
    if a != "" {
      LessIrreflexive(a[1..]);
    }
  }

  /** The place where a comes before b: there it has ended, or it has the smaller character. */
  predicate DiffersAt(a: string, b: string, k: nat) {
    k < |b| && k <= |a| && a[..k] == b[..k] && (k == |a| || a[k] < b[k])
  }

  /** The order is the lexicographic one. */
  lemma {:induction false} LessIff(a: string, b: string)
    ensures Less(a, b) <==> exists k: nat :: DiffersAt(a, b, k)
  {
    if a != "" && b != "" && a[0] == b[0] {
      LessIff(a[1..], b[1..]);
      forall k: nat ensures DiffersAt(a[1..], b[1..], k) <==> DiffersAt(a, b, k + 1) {
        if k < |b| - 1 && k <= |a| - 1 {
          assert a[..k + 1] == [a[0]] + a[1..][..k] && b[..k + 1] == [b[0]] + b[1..][..k];
        }
      }
      if k: nat :| DiffersAt(a, b, k) {
        assert k > 0;
        assert DiffersAt(a[1..], b[1..], k - 1);
      }
    } else if b != "" && (a == "" || a[0] < b[0]) {
      assert DiffersAt(a, b, 0);
    } else {
      forall k: nat ensures !DiffersAt(a, b, k) {
        if 0 < k < |b| && k <= |a| {
          assert a[..k][0] == a[0] && b[..k][0] == b[0];
        }
      }
    }
  }

  predicate AtMost(a: string, b: string) {
    !Less(b, a)
  }

  lemma AtMostTransitive(a: string, b: string, c: string)
    requires AtMost(a, b) && AtMost(b, c)
    ensures AtMost(a, c)
  {
    hide Less;
    if Less(c, a) {
      LessTotal(a, b);
      if a == b {
      } else {
        LessTransitive(c, a, b);
      }
    }
  }

  lemma LessIsAtMost(a: string, b: string)
    requires Less(a, b)
    ensures AtMost(a, b)
  {
    hide Less;
    if Less(b, a) {
      LessTransitive(a, b, a);
      LessIrreflexive(a);
    }
  }

  predicate Sorted(a: seq<string>) {
    forall i, j :: 0 <= i < j < |a| ==> AtMost(a[i], a[j])
  }

  predicate StrictlySorted(a: seq<string>) {
    forall i, j :: 0 <= i < j < |a| ==> Less(a[i], a[j])
  }

  // ---- the exchange sort ----

  /** The first n elements are in place: sorted, and none of the others belongs before them. */
  predicate InPlace(a: seq<string>, n: int) {
    && 0 <= n <= |a|
    && forall i, j :: 0 <= i < n && i < j < |a| ==> AtMost(a[i], a[j])
  }

  /** The element at i is at most all elements strictly between i and j. */
  predicate LeastUpTo(a: seq<string>, i: int, j: int) {
    && 0 <= i < j <= |a|
    && forall k :: i < k < j ==> AtMost(a[i], a[k])
  }

  function Exchanged(a: seq<string>, i: int, j: int): seq<string>
    requires 0 <= i < |a| && 0 <= j < |a|
  {
    a[i := a[j]][j := a[i]]
  }

  lemma ExchangeKeeps(a: seq<string>, i: int, j: int)
    requires InPlace(a, i) && LeastUpTo(a, i, j) && j < |a| && Less(a[j], a[i])
    ensures var b := Exchanged(a, i, j);
            InPlace(b, i) && LeastUpTo(b, i, j + 1) && multiset(b) == multiset(a)
  {
    hide Less, AtMost;
    var b := Exchanged(a, i, j);
    LessIsAtMost(a[j], a[i]);
    forall k | i < k < j + 1 ensures AtMost(b[i], b[k]) {
      if k < j {
        AtMostTransitive(a[j], a[i], a[k]);
      }
    }
    forall m, k | 0 <= m < i && m < k < |b| ensures AtMost(b[m], b[k]) {
      assert AtMost(a[m], a[i]) && AtMost(a[m], a[j]);
    }
  }

  lemma NextInPlace(a: seq<string>, i: int)
    requires InPlace(a, i) && i < |a| && LeastUpTo(a, i, |a|)
    ensures InPlace(a, i + 1)
  {
  }

  method SortStrings(a: array<string>)
    modifies a
    ensures Sorted(a[..])
    ensures multiset(a[..]) == old(multiset(a[..]))
  {
    hide Less, AtMost;
    for i := 0 to a.Length
      invariant InPlace(a[..], i)
      invariant multiset(a[..]) == old(multiset(a[..]))
    {
      hide InPlace, LeastUpTo;
      FirstIsLeast(a[..], i);
      for j := i + 1 to a.Length
        invariant InPlace(a[..], i) && LeastUpTo(a[..], i, j)
        invariant multiset(a[..]) == old(multiset(a[..]))
      {
        if Less(a[j], a[i]) {
          ghost var before := a[..];
          ExchangeKeeps(before, i, j);
          a[i], a[j] := a[j], a[i];
          assert a[..] == Exchanged(before, i, j);
        } else {
          OneMore(a[..], i, j);
        }
      }
      NextInPlace(a[..], i);
    }
  }

  lemma FirstIsLeast(a: seq<string>, i: int)
    requires 0 <= i < |a|
    ensures LeastUpTo(a, i, i + 1)
  {
  }

  lemma OneMore(a: seq<string>, i: int, j: int)
    requires LeastUpTo(a, i, j) && j < |a| && !Less(a[j], a[i])
    ensures LeastUpTo(a, i, j + 1)
  {
    hide Less;
  }

  // ---- sorted sets of keys ----

  ghost function Members(a: seq<string>): set<string> {
    set x | x in a
  }

  predicate NoDuplicates(a: seq<string>) {
    forall i, j :: 0 <= i < j < |a| ==> a[i] != a[j]
  }

  /** Collects the members of a set in some order, as ranging over a Go map does. */
  method Elements(s: set<string>) returns (out: seq<string>)
    ensures Members(out) == s && NoDuplicates(out)
  {
    out := [];
    var rest := s;
    while rest != {}
      invariant Members(out) + rest == s && Members(out) !! rest && NoDuplicates(out)
      decreases rest
    {
      var x :| x in rest;
      assert x !in out by {
        assert x in out ==> x in Members(out);
      }
      assert Members(out + [x]) == Members(out) + {x};
      out := out + [x];
      rest := rest - {x};
    }
  }

  lemma SameMultisetSameMembers(a: seq<string>, b: seq<string>)
    requires multiset(a) == multiset(b)
    ensures Members(a) == Members(b)
  {
    forall x ensures x in a <==> x in b {
      assert x in a <==> x in multiset(a);
      assert x in b <==> x in multiset(b);
    }
  }

  lemma {:induction false} DuplicatesCount(a: seq<string>)
    ensures NoDuplicates(a) <==> forall x :: multiset(a)[x] <= 1
  {
    if a != [] {
      var front, last := a[..|a| - 1], a[|a| - 1];
      assert a == front + [last];
      DuplicatesCount(front);
      if NoDuplicates(a) {
        assert last !in front;
        assert last !in multiset(front);
      } else if NoDuplicates(front) {
        assert last in front;
        assert last in multiset(front);
        assert multiset(a)[last] >= 2;
      } else {
        var x :| multiset(front)[x] > 1;
        assert multiset(a)[x] > 1;
      }
    }
  }

  lemma SortedWithoutDuplicates(a: seq<string>)
    requires Sorted(a) && NoDuplicates(a)
    ensures StrictlySorted(a)
  {
    forall i, j | 0 <= i < j < |a| ensures Less(a[i], a[j]) {
      LessTotal(a[i], a[j]);
      hide Less;
    }
  }

  /** The sorted list of a set of keys. */
  method SortedList(s: set<string>) returns (out: seq<string>)
    ensures StrictlySorted(out) && Members(out) == s
  {
    hide Less, AtMost;
    var elements := Elements(s);
    var a := new string[|elements|](i requires 0 <= i < |elements| => elements[i]);
    assert a[..] == elements;
    SortStrings(a);
    out := a[..];
    SameMultisetSameMembers(out, elements);
    DuplicatesCount(out);
    DuplicatesCount(elements);
    SortedWithoutDuplicates(out);
  }

  method MergeSortedUnique(existing: seq<string>, incoming: seq<string>) returns (out: seq<string>)
    ensures StrictlySorted(out) && Members(out) == Members(existing) + Members(incoming)
  {
    var m: set<string> := {};
    for i := 0 to |existing|
      invariant m == Members(existing[..i])
    {
      m := m + {existing[i]};
      assert existing[..i + 1] == existing[..i] + [existing[i]];
    }
    assert existing[..|existing|] == existing;
    for i := 0 to |incoming|
      invariant m == Members(existing) + Members(incoming[..i])
    {
      m := m + {incoming[i]};
      assert incoming[..i + 1] == incoming[..i] + [incoming[i]];
    }
    assert incoming[..|incoming|] == incoming;
    out := SortedList(m);
  }

  // ---- the collector ----

  datatype Rule = Rule(labels: map<string, string>, price: real)

  datatype Document = Document(currency: string, rules: seq<Rule>)

  /** All node label keys of a price document. */
  function KeysOf(doc: Document): set<string> {
    set i, key | 0 <= i < |doc.rules| && key in doc.rules[i].labels :: key
  }

  method UnionKeysFromDoc(doc: Document) returns (out: seq<string>)
    ensures StrictlySorted(out) && Members(out) == KeysOf(doc)
  {
    var keys: set<string> := {};
    for i := 0 to |doc.rules|
      invariant keys == set j, key | 0 <= j < i && key in doc.rules[j].labels :: key
    {
      keys := keys + doc.rules[i].labels.Keys;
    }
    out := SortedList(keys);
  }

  function LabelOr(labels: map<string, string>, key: string): string {
    if key in labels then labels[key] else ""
  }

  /** The label values of a rule: the currency, then one value for each key of the union. */
  function RowOf(currency: string, keys: seq<string>, rule: Rule): (row: seq<string>)
    ensures |row| == 1 + |keys| && row[0] == currency
    ensures forall i :: 0 <= i < |keys| ==> row[i + 1] == LabelOr(rule.labels, keys[i])
  {
    [currency] + seq(|keys|, i requires 0 <= i < |keys| => LabelOr(rule.labels, keys[i]))
  }

  datatype Metric = Metric(values: seq<string>, price: real)

  class GaugeCollector {
    var doc: Option<Document>
    var unionKeys: seq<string>
    var nodePrice: map<string, real>

    /** The union is sorted and covers the present document. */
    ghost predicate Valid()
      reads this
    {
      && StrictlySorted(unionKeys)
      && (doc.Some? ==> KeysOf(doc.value) <= Members(unionKeys))
    }

    constructor ()
      ensures Valid() && doc == None && unionKeys == [] && nodePrice == map[]
    {
      doc, unionKeys, nodePrice := None, [], map[];
    }

    method SetDocument(d: Document)
      requires Valid()
      modifies this
      ensures Valid() && doc == Some(d) && nodePrice == old(nodePrice)
      ensures Loads(old(unionKeys), d, unionKeys)
    {
      doc := Some(d);
      var incoming := UnionKeysFromDoc(d);
      unionKeys := MergeSortedUnique(unionKeys, incoming);
    }

    method SetNodePrices(prices: map<string, real>)
      requires Valid()
      modifies this
      ensures Valid() && doc == old(doc) && unionKeys == old(unionKeys) && nodePrice == prices
    {
      nodePrice := prices;
    }

    /** One metric per rule, in order, and one per priced node, in any order. */
    method Collect() returns (rules: seq<Metric>, nodes: seq<Metric>)
      requires Valid()
      ensures doc.None? ==> rules == [] && nodes == []
      ensures doc.Some? ==>
        && |rules| == (if unionKeys == [] then 0 else |doc.value.rules|)
        && (forall i :: 0 <= i < |rules| ==>
              && rules[i] == Metric(RowOf(doc.value.currency, unionKeys, doc.value.rules[i]), doc.value.rules[i].price)
              && GivesBack(unionKeys, rules[i].values, doc.value.rules[i]))
        && |nodes| == |nodePrice|
        && (forall node :: node in nodePrice ==> Metric([doc.value.currency, node], nodePrice[node]) in nodes)
    {
      rules, nodes := [], [];
      if doc.None? {
        return;
      }
      if |unionKeys| > 0 {
        rules := CollectRules(doc.value, unionKeys);
        forall i | 0 <= i < |rules| ensures GivesBack(unionKeys, rules[i].values, doc.value.rules[i]) {
          RuleIsCovered(doc.value, i);
          RowGivesBackRule(doc.value.currency, unionKeys, doc.value.rules[i]);
        }
      }
      nodes := CollectNodes(doc.value.currency, nodePrice);
    }
  }

  method CollectRow(currency: string, keys: seq<string>, rule: Rule) returns (vals: seq<string>)
    ensures vals == RowOf(currency, keys, rule)
  {
    hide LabelOr;
    vals := [currency];
    for i := 0 to |keys|
      invariant |vals| == i + 1 && vals[0] == currency
      invariant forall k :: 0 <= k < i ==> vals[k + 1] == LabelOr(rule.labels, keys[k])
    {
      vals := vals + [LabelOr(rule.labels, keys[i])];
    }
    SameRow(currency, keys, rule, vals);
  }

  lemma SameRow(currency: string, keys: seq<string>, rule: Rule, vals: seq<string>)
    requires |vals| == 1 + |keys| && vals[0] == currency
    requires forall k :: 0 <= k < |keys| ==> vals[k + 1] == LabelOr(rule.labels, keys[k])
    ensures vals == RowOf(currency, keys, rule)
  {
    hide LabelOr;
    var row := RowOf(currency, keys, rule);
    hide RowOf;
    forall i | 0 <= i < |vals| ensures vals[i] == row[i] {
      if i > 0 {
        assert row[(i - 1) + 1] == LabelOr(rule.labels, keys[i - 1]);
      }
    }
  }

  method CollectRules(d: Document, keys: seq<string>) returns (rules: seq<Metric>)
    ensures |rules| == |d.rules|
    ensures forall i :: 0 <= i < |rules| ==> rules[i] == Metric(RowOf(d.currency, keys, d.rules[i]), d.rules[i].price)
  {
    rules := [];
    for g := 0 to |d.rules|
      invariant |rules| == g
      invariant forall i :: 0 <= i < g ==> rules[i] == Metric(RowOf(d.currency, keys, d.rules[i]), d.rules[i].price)
    {
      var vals := CollectRow(d.currency, keys, d.rules[g]);
      rules := rules + [Metric(vals, d.rules[g].price)];
    }
  }

  method CollectNodes(currency: string, nodePrice: map<string, real>) returns (nodes: seq<Metric>)
    ensures |nodes| == |nodePrice|
    ensures forall node :: node in nodePrice ==> Metric([currency, node], nodePrice[node]) in nodes
  {
    nodes := [];
    var rest := nodePrice.Keys;
    while rest != {}
      invariant rest <= nodePrice.Keys && |nodes| + |rest| == |nodePrice.Keys|
      invariant forall node :: node in nodePrice && node !in rest ==> Metric([currency, node], nodePrice[node]) in nodes
      decreases rest
    {
      var node :| node in rest;
      nodes := nodes + [Metric([currency, node], nodePrice[node])];
      rest := rest - {node};
    }
  }

  /** The place of a key in a sorted list. */
  function IndexOfKey(keys: seq<string>, key: string): (i: nat)
    requires key in keys
    ensures i < |keys| && keys[i] == key
  {
    if keys[0] == key then 0 else 1 + IndexOfKey(keys[1..], key)
  }

  /** What a row says about a label key; the empty string when the row has no column for it. */
  function ReadRow(keys: seq<string>, row: seq<string>, key: string): string
    requires |row| == 1 + |keys|
  {
    if key in keys then row[IndexOfKey(keys, key) + 1] else ""
  }

  /** Reading the row by label key gives the labels of the rule and nothing else. */
  ghost predicate GivesBack(keys: seq<string>, row: seq<string>, rule: Rule) {
    && |row| == 1 + |keys|
    && forall key :: ReadRow(keys, row, key) == if key in rule.labels then rule.labels[key] else ""
  }

  /** A row gives back its rule exactly when the union covers the labels that are not empty. */
  lemma RowGivesBackRule(currency: string, keys: seq<string>, rule: Rule)
    ensures GivesBack(keys, RowOf(currency, keys, rule), rule) <==>
            forall key :: key in rule.labels && rule.labels[key] != "" ==> key in keys
  {
    var row := RowOf(currency, keys, rule);
    hide RowOf;
    forall key ensures ReadRow(keys, row, key) == if key in keys then LabelOr(rule.labels, key) else "" {
    }
    if GivesBack(keys, row, rule) {
      forall key | key in rule.labels && rule.labels[key] != "" ensures key in keys {
        assert ReadRow(keys, row, key) == rule.labels[key];
      }
    }
  }

  lemma RuleIsCovered(d: Document, i: nat)
    requires i < |d.rules|
    ensures d.rules[i].labels.Keys <= KeysOf(d)
  {
  }

  // ---- sequences of documents ----

  /** One load of a document: sorted afterwards, with its keys added and none lost. */
  ghost predicate Loads(before: seq<string>, d: Document, after: seq<string>) {
    StrictlySorted(after) && Members(after) == Members(before) + KeysOf(d)
  }

  /** The states of a collector that loads the documents one after the other. */
  ghost predicate LoadRun(states: seq<seq<string>>, docs: seq<Document>) {
    && |states| == |docs| + 1
    && states[0] == []
    && forall i :: 0 <= i < |docs| ==> Loads(states[i], docs[i], states[i + 1])
  }

  function AllKeys(docs: seq<Document>): set<string> {
    if docs == [] then {} else AllKeys(docs[..|docs| - 1]) + KeysOf(docs[|docs| - 1])
  }

  /** After any number of loads the union is the sorted list of all keys that were ever loaded. */
  lemma {:induction false} UnionOfAllLoads(states: seq<seq<string>>, docs: seq<Document>)
    requires LoadRun(states, docs)
    ensures StrictlySorted(states[|docs|]) && Members(states[|docs|]) == AllKeys(docs)
  {
    hide Less, KeysOf;
    if docs != [] {
      var n := |docs| - 1;
      assert LoadRun(states[..n + 1], docs[..n]);
      UnionOfAllLoads(states[..n + 1], docs[..n]);
      assert Loads(states[n], docs[n], states[n + 1]);
    }
  }

  /** A key that is in the union once stays in it. */
  lemma {:induction false} KeysStay(states: seq<seq<string>>, docs: seq<Document>, i: nat)
    requires LoadRun(states, docs) && i <= |docs|
    ensures Members(states[i]) <= Members(states[|docs|])
    decreases |docs| - i
  {
    if i < |docs| {
      KeysStay(states, docs, i + 1);
      assert Loads(states[i], docs[i], states[i + 1]);
    }
  }

  /** A set of keys has only one strictly sorted list. */
  lemma {:induction false} SortedListIsUnique(a: seq<string>, b: seq<string>)
    requires StrictlySorted(a) && StrictlySorted(b) && Members(a) == Members(b)
    ensures a == b
  {
    hide Less;
    forall x ensures x in a <==> x in b {
      assert x in a <==> x in Members(a);
      assert x in b <==> x in Members(b);
    }
    assert a == [] <==> b == [] by {
      if a != [] { assert a[0] in b; }
      if b != [] { assert b[0] in a; }
    }
    if a != [] {
      FirstIsSame(a, b);
      TailMembers(a);
      TailMembers(b);
      SortedListIsUnique(a[1..], b[1..]);
      assert a == [a[0]] + a[1..] && b == [b[0]] + b[1..];
    }
  }

  lemma FirstIsSame(a: seq<string>, b: seq<string>)
    requires StrictlySorted(a) && StrictlySorted(b) && a != [] && b != []
    requires forall x :: x in a <==> x in b
    ensures a[0] == b[0]
  {
    hide Less;
    assert a[0] in b && b[0] in a;
    var i :| 0 <= i < |b| && b[i] == a[0];
    var j :| 0 <= j < |a| && a[j] == b[0];
    if i > 0 && j > 0 {
      LessTransitive(a[0], b[0], a[0]);
      LessIrreflexive(a[0]);
    }
  }

  lemma TailMembers(a: seq<string>)
    requires StrictlySorted(a) && a != []
    ensures Members(a[1..]) == Members(a) - {a[0]}
    ensures StrictlySorted(a[1..])
  {
    hide Less;
    forall x ensures x in a[1..] <==> x in a && x != a[0] {
      LessIrreflexive(a[0]);
      if x in a && x != a[0] {
        var i :| 0 <= i < |a| && a[i] == x;
        assert a[1..][i - 1] == x;
      }
    }
  }

  /** The label names depend only on which keys were loaded, not on the order or number of the loads. */
  lemma LoadOrderDoesNotMatter(s: seq<seq<string>>, docs: seq<Document>, t: seq<seq<string>>, others: seq<Document>)
    requires LoadRun(s, docs) && LoadRun(t, others) && AllKeys(docs) == AllKeys(others)
    ensures s[|docs|] == t[|others|]
  {
    hide Less, AllKeys, Loads;
    UnionOfAllLoads(s, docs);
    UnionOfAllLoads(t, others);
    SortedListIsUnique(s[|docs|], t[|others|]);
  }
}
