/** Sums of the values of finite maps, independent of any order. */
module FiniteSums {

  /** Some key of a non-empty map; which one does not matter to anything below. */
  ghost function Pick<K>(s: set<K>): (k: K)
    requires s != {}
    ensures k in s
  {
    var k :| k in s; k
  }

  /** The map with the given keys whose values a function gives. */
  ghost function Tabulate<K, V>(keys: set<K>, f: K -> V): (m: map<K, V>)
    ensures m.Keys == keys
    ensures forall k :: k in keys ==> m[k] == f(k)
    decreases keys
  {
    if keys == {} then map[]
    else
      var k := Pick(keys);
      Tabulate(keys - {k}, f)[k := f(k)]
  }

  ghost function Total<K>(m: map<K, real>): real
    decreases m.Keys
  {
    if m == map[] then 0.0
    else
      var k := Pick(m.Keys);
      m[k] + Total(m - {k})
  }

  lemma TotalOfNone<K>()
    ensures Total<K>(map[]) == 0.0
  {
  }

  /** Any key may be taken out first. */
  lemma {:induction false} TotalTake<K>(m: map<K, real>, k: K)
    requires k in m
    ensures Total(m) == m[k] + Total(m - {k})
    decreases m.Keys
  {
    var p := Pick(m.Keys);
    if p != k {
      TotalTake(m - {p}, k);
      TotalTake(m - {k}, p);
      assert m - {p} - {k} == m - {k} - {p};
    }
  }

  /** The part of a map whose keys a function sends to one value. */
  ghost function Fiber<K, G>(m: map<K, real>, f: K -> G, g: G): map<K, real> {
    m - set k | k in m && f(k) != g
  }

  ghost function Image<K, G>(m: map<K, real>, f: K -> G): set<G> {
    set k | k in m :: f(k)
  }

  /** The totals of all fibers, one for each value of the function. */
  ghost function FiberTotals<K, G>(m: map<K, real>, f: K -> G): map<G, real> {
    Tabulate(Image(m, f), g => Total(Fiber(m, f, g)))
  }

  /** Taking one key out changes only its own group. */
  lemma OtherGroupsUnchanged<K, G>(m: map<K, real>, f: K -> G, k: K)
    requires k in m
    ensures FiberTotals(m, f) - {f(k)} == FiberTotals(m - {k}, f) - {f(k)}
  {
    var whole, part := FiberTotals(m, f) - {f(k)}, FiberTotals(m - {k}, f) - {f(k)};
    forall h | h in whole ensures h in part {
      var j :| j in m && f(j) == h;
      assert j in m - {k};
    }
    forall h | h in part ensures h in whole && whole[h] == part[h] {
      assert Fiber(m, f, h) == Fiber(m - {k}, f, h);
    }
    assert whole.Keys == part.Keys;
  }

  /** A group is there exactly when some key belongs to it. */
  lemma GroupPresent<K, G>(m: map<K, real>, f: K -> G, g: G)
    ensures g in FiberTotals(m, f) <==> Fiber(m, f, g) != map[]
  {
    hide Tabulate, Total;
    if g in Image(m, f) {
      var j :| j in m && f(j) == g;
      assert j in Fiber(m, f, g);
    }
    if j :| j in Fiber(m, f, g) {
      assert f(j) == g;
    }
  }

  /** Grouping conserves the total. */
  lemma {:induction false} GroupingConserves<K, G>(m: map<K, real>, f: K -> G)
    ensures Total(FiberTotals(m, f)) == Total(m)
    decreases m.Keys
  {
    if m == map[] {
      assert Image(m, f) == {};
      assert FiberTotals(m, f) == map[];
    } else {
      hide Tabulate, Total;
      var k := Pick(m.Keys);
      var rest, g := m - {k}, f(k);
      var whole, part := FiberTotals(m, f), FiberTotals(rest, f);
      GroupingConserves(rest, f);
      OtherGroupsUnchanged(m, f, k);
      assert Fiber(m, f, g) - {k} == Fiber(rest, f, g);
      TotalTake(m, k);
      TotalTake(Fiber(m, f, g), k);
      assert g in Image(m, f);
      TotalTake(whole, g);
      GroupPresent(rest, f, g);
      if g in part {
        TotalTake(part, g);
      } else {
        TotalOfNone<K>();
        assert part - {g} == part;
      }
    }
  }

  ghost predicate InjectiveOn<K, G>(s: set<K>, f: K -> G) {
    forall j, k :: j in s && k in s && f(j) == f(k) ==> j == k
  }

  /** Renaming the keys one to one conserves the total. */
  lemma {:induction false} RenamingConserves<K, G>(m: map<K, real>, f: K -> G, n: map<G, real>)
    requires InjectiveOn(m.Keys, f)
    requires n.Keys == Image(m, f)
    requires forall k :: k in m ==> n[f(k)] == m[k]
    ensures Total(n) == Total(m)
    decreases m.Keys
  {
    if m == map[] {
      assert n == map[];
    } else {
      var k := Pick(m.Keys);
      var rest := m - {k};
      assert f(k) in n;
      forall h ensures h in (n - {f(k)}).Keys <==> h in Image(rest, f) {
        if h in Image(m, f) && h != f(k) {
          var j :| j in m && f(j) == h;
          assert j in rest;
        }
      }
      RenamingConserves(rest, f, n - {f(k)});
      TotalTake(n, f(k));
    }
  }

  /** The total of a disjoint union is the sum of the totals. */
  lemma {:induction false} TotalDisjoint<K>(m: map<K, real>, n: map<K, real>)
    requires m.Keys !! n.Keys
    ensures Total(m + n) == Total(m) + Total(n)
    decreases n.Keys
  {
    if n == map[] {
      assert m + n == m;
    } else {
      hide Total;
      var k := Pick(n.Keys);
      TotalDisjoint(m, n - {k});
      TotalTake(m + n, k);
      TotalTake(n, k);
      assert (m + n) - {k} == m + (n - {k});
      assert (m + n)[k] == n[k];
    }
  }
}
