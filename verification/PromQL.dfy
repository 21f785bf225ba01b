/**
 The operators of the Prometheus query language that the recording rules use,
 on instant vectors: finite maps from label sets to real values.
 */
module PromQL {
  import opened FiniteSums

  /** Label names. The metric name is no label here: every operator below drops it. */
  datatype Name =
    | Namespace
    | PodName
    | NodeName
    | Currency
    | LabelModel    // label_kubefisher_io_model, and the two likewise
    | LabelPlatform
    | LabelTeam
    | Model         // kubefisher_io_model, and the two likewise
    | Platform
    | Team
    | OtherName(name: string)

  type Labels = map<Name, string>
  type Vector = map<Labels, real>

  /** An absent label and an empty one are the same. */
  function Get(l: Labels, name: Name): string {
    if name in l then l[name] else ""
  }

  function Set(l: Labels, name: Name, v: string): Labels {
    if v == "" then l - {name} else l[name := v]
  }

  /** The signature of a label set on some names. */
  ghost function Project(l: Labels, on: set<Name>): Labels {
    Tabulate((set name | name in on && Get(l, name) != ""), name => Get(l, name))
  }

  ghost function By(on: set<Name>): Labels -> Labels {
    l => Project(l, on)
  }

  /** Evaluation of a whole expression fails when one matching is ambiguous. */
  datatype Result = Ok(vector: Vector) | Error {
    predicate IsFailure() {
      Error?
    }

    function PropagateFailure(): Result
      requires IsFailure()
    {
      Error
    }

    function Extract(): Vector
      requires !IsFailure()
    {
      vector
    }
  }

  // ---- aggregation ----

  /** sum by (on) (v) */
  ghost function SumBy(v: Vector, on: set<Name>): Vector {
    FiberTotals(v, By(on))
  }

  ghost function Maximum(v: Vector): real
    requires v != map[]
    decreases v.Keys
  {
    var l := Pick(v.Keys);
    if v - {l} == map[] then v[l]
    else
      var rest := Maximum(v - {l});
      if v[l] > rest then v[l] else rest
  }

  /** max by (on) (v) */
  ghost function MaxBy(v: Vector, on: set<Name>): Vector {
    Tabulate(Image(v, By(on)), g => if Fiber(v, By(on), g) == map[] then 0.0 else Maximum(Fiber(v, By(on), g)))
  }

  // ---- matching ----

  /** The one series of the other side that has the same signature. */
  ghost predicate IsPartner(one: Vector, on: set<Name>, l: Labels, r: Labels) {
    r in one && Project(r, on) == Project(l, on)
  }

  ghost predicate HasPartner(one: Vector, on: set<Name>, l: Labels) {
    exists r :: IsPartner(one, on, l, r)
  }

  ghost function Partner(one: Vector, on: set<Name>, l: Labels): (r: Labels)
    requires HasPartner(one, on, l)
    ensures IsPartner(one, on, l, r)
  {
    var r :| IsPartner(one, on, l, r);
    r
  }

  /** No two series have the same signature. */
  ghost predicate UniqueOn(v: Vector, on: set<Name>) {
    forall a, b :: a in v && b in v && Project(a, on) == Project(b, on) ==> a == b
  }

  /** group_left(names): the labels of the many side with the named ones taken from the one side. */
  ghost function Include(l: Labels, r: Labels, names: set<Name>): Labels {
    (l - names) + Project(r, names)
  }

  ghost function Joined(one: Vector, on: set<Name>, names: set<Name>, l: Labels): Labels
    requires HasPartner(one, on, l)
  {
    Include(l, Partner(one, on, l), names)
  }

  ghost function Matched(many: Vector, one: Vector, on: set<Name>): set<Labels> {
    set l | l in many && HasPartner(one, on, l)
  }

  ghost predicate ResultsDistinct(many: Vector, one: Vector, on: set<Name>, names: set<Name>) {
    forall a, b ::
      && a in Matched(many, one, on) && b in Matched(many, one, on)
      && Joined(one, on, names, a) == Joined(one, on, names, b)
      ==> a == b
  }

  /**
   many op on(on) group_left(names) one. Nothing is matched when a side is empty;
   otherwise two series of the one side with the same signature, or two results
   with the same labels, make the evaluation fail.
   */
  ghost function JoinOn(many: Vector, one: Vector, on: set<Name>, names: set<Name>, op: (real, real) -> real): Result {
    if many == map[] || one == map[] then Ok(map[])
    else if !UniqueOn(one, on) || !ResultsDistinct(many, one, on, names) then Error
    else
      Ok(Tabulate(JoinedLabels(many, one, on, names), k => JoinedValue(many, one, on, names, op, k)))
  }

  ghost function JoinedLabels(many: Vector, one: Vector, on: set<Name>, names: set<Name>): set<Labels> {
    set l | l in Matched(many, one, on) :: Joined(one, on, names, l)
  }

  /** The value of a result: that of the one pair that gives its labels. */
  ghost function JoinedValue(
      many: Vector, one: Vector, on: set<Name>, names: set<Name>, op: (real, real) -> real, k: Labels): real
  {
    if k in JoinedLabels(many, one, on, names) then
      var l :| l in Matched(many, one, on) && Joined(one, on, names, l) == k;
      op(many[l], one[Partner(one, on, l)])
    else 0.0
  }

  function Product(x: real, y: real): real {
    x * y
  }

  /** Vector to vector matching on all labels: a + b. */
  ghost function Plus(a: Vector, b: Vector): Vector {
    Tabulate(a.Keys * b.Keys, l => if l in a && l in b then a[l] + b[l] else 0.0)
  }

  /** v * c for a number c. */
  ghost function ScaleBy(v: Vector, c: real): Vector {
    Tabulate(v.Keys, l => if l in v then v[l] * c else 0.0)
  }

  /** v > 0 */
  ghost function Positive(v: Vector): Vector {
    v - set l | l in v && v[l] <= 0.0
  }

  /** v and on(on) w */
  ghost function AndOn(v: Vector, w: Vector, on: set<Name>): Vector {
    v - set l | l in v && !HasPartner(w, on, l)
  }

  /** v unless on(on) w */
  ghost function UnlessOn(v: Vector, w: Vector, on: set<Name>): Vector {
    v - set l | l in v && HasPartner(w, on, l)
  }

  /** v or w, matching on all labels. */
  ghost function Or(v: Vector, w: Vector): Vector {
    v + (w - v.Keys)
  }

  // ---- label_replace ----

  /** The two regular expressions in use, "(.*)" and "^$"; both are anchored. */
  datatype Pattern = AnyText | EmptyText

  /** The replacement is "$1" or a fixed text. */
  datatype Replacement = FirstGroup | Text(text: string)

  datatype Replace = Replace(dst: Name, replacement: Replacement, src: Name, pattern: Pattern)

  function Relabel(l: Labels, step: Replace): Labels {
    if step.pattern == AnyText || Get(l, step.src) == "" then
      Set(l, step.dst, if step.replacement.Text? then step.replacement.text
                       else if step.pattern == AnyText then Get(l, step.src)
                       else "")
    else l
  }

  ghost function With(step: Replace): Labels -> Labels {
    l => Relabel(l, step)
  }

  /** The vector with renamed label sets. */
  ghost function Renamed(v: Vector, f: Labels -> Labels): Vector {
    Tabulate(Image(v, f), k => if k in Image(v, f) then (var l :| l in v && f(l) == k; v[l]) else 0.0)
  }

  /** label_replace(v, ...); two results with the same labels make the evaluation fail. */
  ghost function LabelReplace(v: Vector, step: Replace): Result {
    if InjectiveOn(v.Keys, With(step)) then Ok(Renamed(v, With(step))) else Error
  }

  /** Nested label_replace calls, the innermost one first. */
  ghost function LabelReplaceAll(v: Vector, steps: seq<Replace>): Result {
    if steps == [] then Ok(v)
    else
      var before :- LabelReplaceAll(v, steps[..|steps| - 1]);
      LabelReplace(before, steps[|steps| - 1])
  }

  // ---- facts about the operators ----

  lemma ProjectProject(l: Labels, on: set<Name>, wider: set<Name>)
    requires on <= wider
    ensures Project(Project(l, wider), on) == Project(l, on)
  {
    assert forall name :: name in on ==> Get(Project(l, wider), name) == Get(l, name);
  }

  lemma SameSignature(a: Labels, b: Labels, on: set<Name>, name: Name)
    requires Project(a, on) == Project(b, on) && name in on
    ensures Get(a, name) == Get(b, name)
  {
    assert Get(a, name) == Get(Project(a, on), name);
    assert Get(b, name) == Get(Project(b, on), name);
  }

  lemma SameGets(a: Labels, b: Labels, on: set<Name>)
    requires forall name :: name in on ==> Get(a, name) == Get(b, name)
    ensures Project(a, on) == Project(b, on)
  {
  }

  lemma IncludeGets(l: Labels, r: Labels, names: set<Name>, name: Name)
    ensures Get(Include(l, r, names), name) == if name in names then Get(r, name) else Get(l, name)
  {
  }

  /** The result of a join that does not fail. */
  ghost predicate IsJoin(
      many: Vector, one: Vector, on: set<Name>, names: set<Name>, op: (real, real) -> real, j: Vector)
  {
    && (forall l :: l in Matched(many, one, on) ==>
          && Joined(one, on, names, l) in j
          && j[Joined(one, on, names, l)] == op(many[l], one[Partner(one, on, l)]))
    && (forall k :: k in j ==> exists l :: l in Matched(many, one, on) && Joined(one, on, names, l) == k)
  }

  lemma JoinSucceeds(many: Vector, one: Vector, on: set<Name>, names: set<Name>, op: (real, real) -> real)
    requires UniqueOn(one, on) && ResultsDistinct(many, one, on, names)
    ensures JoinOn(many, one, on, names, op).Ok?
    ensures IsJoin(many, one, on, names, op, JoinOn(many, one, on, names, op).vector)
  {
    if many != map[] && one != map[] {
      var j := JoinOn(many, one, on, names, op).vector;
      forall l | l in Matched(many, one, on)
        ensures Joined(one, on, names, l) in j && j[Joined(one, on, names, l)] == op(many[l], one[Partner(one, on, l)])
      {
      }
    }
  }

  /** Distinct signatures of the many side stay distinct when the included names are no part of them. */
  lemma UniqueManyGivesDistinct(many: Vector, one: Vector, on: set<Name>, names: set<Name>, ids: set<Name>)
    requires UniqueOn(many, ids) && ids !! names
    ensures ResultsDistinct(many, one, on, names)
  {
    forall a, b |
      && a in Matched(many, one, on) && b in Matched(many, one, on)
      && Joined(one, on, names, a) == Joined(one, on, names, b)
      ensures a == b
    {
      JoinedKeepsIds(one, on, names, ids, a);
      JoinedKeepsIds(one, on, names, ids, b);
    }
  }

  lemma JoinedKeepsIds(one: Vector, on: set<Name>, names: set<Name>, ids: set<Name>, l: Labels)
    requires HasPartner(one, on, l) && ids !! names
    ensures Project(Joined(one, on, names, l), ids) == Project(l, ids)
  {
    forall name | name in ids ensures Get(Joined(one, on, names, l), name) == Get(l, name) {
      IncludeGets(l, Partner(one, on, l), names, name);
    }
    SameGets(Joined(one, on, names, l), l, ids);
  }

  lemma UniquePartner(one: Vector, on: set<Name>, l: Labels, r: Labels)
    requires UniqueOn(one, on) && IsPartner(one, on, l, r)
    ensures HasPartner(one, on, l) && Partner(one, on, l) == r
  {
  }

  lemma TotalOfOne<K>(m: map<K, real>, k: K)
    requires m.Keys == {k}
    ensures Total(m) == m[k]
  {
    TotalTake(m, k);
    assert m - {k} == map[];
  }

  /** The maximum is one of the values, and none is greater. */
  lemma {:induction false} MaximumIsGreatest(v: Vector)
    requires v != map[]
    ensures exists l :: l in v && v[l] == Maximum(v)
    ensures forall l :: l in v ==> v[l] <= Maximum(v)
    decreases v.Keys
  {
    var l := Pick(v.Keys);
    if v - {l} != map[] {
      MaximumIsGreatest(v - {l});
      forall k | k in v ensures v[k] <= Maximum(v) {
        assert k != l ==> k in v - {l};
      }
    } else {
      forall k | k in v ensures k == l {
        assert k != l ==> k in v - {l};
      }
    }
  }

  lemma {:induction false} MaximumOfOnes(v: Vector)
    requires v != map[] && forall l :: l in v ==> v[l] == 1.0
    ensures Maximum(v) == 1.0
    decreases v.Keys
  {
    var l := Pick(v.Keys);
    if v - {l} != map[] {
      MaximumOfOnes(v - {l});
    }
  }

  // ---- renaming one to one ----

  /** w is v with its label sets renamed one to one. */
  ghost predicate IsRenamed(v: Vector, f: Labels -> Labels, w: Vector) {
    && InjectiveOn(v.Keys, f)
    && w.Keys == Image(v, f)
    && forall l :: l in v ==> w[f(l)] == v[l]
  }

  lemma RenamedIs(v: Vector, f: Labels -> Labels)
    requires InjectiveOn(v.Keys, f)
    ensures IsRenamed(v, f, Renamed(v, f))
  {
    hide Tabulate;
  }

  /** A second renaming after a first one. */
  lemma RenameOnce(v: Vector, f: Labels -> Labels, w: Vector, g: Labels -> Labels, h: Labels -> Labels)
    requires IsRenamed(v, f, w) && InjectiveOn(v.Keys, h)
    requires forall l :: l in v ==> h(l) == g(f(l))
    ensures InjectiveOn(w.Keys, g) && IsRenamed(v, h, Renamed(w, g))
  {
    hide Renamed;
    forall a, b | a in w && b in w && g(a) == g(b) ensures a == b {
      var j :| j in v && f(j) == a;
      var k :| k in v && f(k) == b;
      assert h(j) == h(k);
    }
    RenamedIs(w, g);
    var u := Renamed(w, g);
    forall l | l in v ensures h(l) in u && u[h(l)] == v[l] {
      assert f(l) in w;
    }
    forall k | k in u ensures k in Image(v, h) {
      var a :| a in w && g(a) == k;
      var j :| j in v && f(j) == a;
      assert h(j) == k;
    }
    assert u.Keys == Image(v, h);
  }

  /** Two disjoint parts, renamed by the same one-to-one function, make up the renamed whole. */
  lemma UnionOfRenamed(v: Vector, p: Vector, q: Vector, f: Labels -> Labels, a: Vector, b: Vector)
    requires InjectiveOn(v.Keys, f) && IsRenamed(p, f, a) && IsRenamed(q, f, b)
    requires v.Keys == p.Keys + q.Keys && p.Keys !! q.Keys
    requires (forall l :: l in p ==> p[l] == v[l]) && (forall l :: l in q ==> q[l] == v[l])
    ensures IsRenamed(v, f, Or(a, b))
  {
    var w := Or(a, b);
    forall l | l in p ensures f(l) in w && w[f(l)] == v[l] && f(l) !in b {
      assert l in v;
    }
    forall l | l in q ensures f(l) in w && w[f(l)] == v[l] {
      assert f(l) !in a by {
        forall j | j in p ensures f(j) != f(l) {
          assert j in v && l in v;
        }
      }
    }
    forall k | k in w ensures k in Image(v, f) {
      if k in a {
        var j :| j in p && f(j) == k;
        assert j in v;
      } else {
        var j :| j in q && f(j) == k;
        assert j in v;
      }
    }
    assert w.Keys == Image(v, f);
  }
}
