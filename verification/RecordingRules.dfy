/**
 The recording rules kubefisher:cost_per_hour and kubefisher:cost_per_token: the
 expressions as written, and what they compute for every pod.
 */
module RecordingRules {
  import opened FiniteSums
  import opened PromQL

  const POD: set<Name> := {Namespace, PodName}
  const HOST: set<Name> := {Namespace, PodName, NodeName}
  const IDENTITY: set<Name> := {LabelModel, LabelPlatform, LabelTeam}

  /**
   The input vectors: GPU limits (kube_pod_container_resource_limits for
   nvidia_com_gpu), kube_pod_info, the node prices, kube_pod_labels and the two
   token rates.
   */
  datatype Inputs = Inputs(
    limits: Vector,
    info: Vector,
    prices: Vector,
    podLabels: Vector,
    promptRate: Vector,
    generationRate: Vector)

  // ---- kubefisher:cost_per_hour ----

  predicate IsNamed(l: Labels) {
    Get(l, NodeName) != "" && Get(l, Namespace) != "" && Get(l, PodName) != ""
  }

  /** kube_pod_info{node!="", namespace!="", pod!=""} */
  ghost function NamedInfo(inp: Inputs): Vector {
    inp.info - set l | l in inp.info && !IsNamed(l)
  }

  ghost function Hosts(inp: Inputs): Vector {
    MaxBy(NamedInfo(inp), HOST)
  }

  /** The part that both arms share: GPU limits joined with the node and its price, summed per pod. */
  ghost function GpuCost(inp: Inputs): Result {
    var placed :- JoinOn(inp.limits, Hosts(inp), POD, {NodeName}, Product);
    var priced :- JoinOn(SumBy(placed, HOST), inp.prices, {NodeName}, {Currency}, Product);
    Ok(SumBy(priced, POD))
  }

  /** The three label_replace calls that put "unlabeled" where an identity label is absent. */
  const DEFAULTS: seq<Replace> := [
    Replace(Model, Text("unlabeled"), Model, EmptyText),
    Replace(Platform, Text("unlabeled"), Platform, EmptyText),
    Replace(Team, Text("unlabeled"), Team, EmptyText)]

  /** The three that copy the pod labels, followed by the defaults. */
  const COPY_AND_DEFAULTS: seq<Replace> := [
    Replace(Model, FirstGroup, LabelModel, AnyText),
    Replace(Platform, FirstGroup, LabelPlatform, AnyText),
    Replace(Team, FirstGroup, LabelTeam, AnyText)] + DEFAULTS

  /** The arm for pods that have a kube_pod_labels series. */
  ghost function LabelledArm(v: Vector, inp: Inputs): Result {
    var joined :- JoinOn(v, inp.podLabels, POD, IDENTITY, Product);
    LabelReplaceAll(joined, COPY_AND_DEFAULTS)
  }

  /** The arm for all other pods. */
  ghost function FallbackArm(v: Vector, inp: Inputs): Result {
    LabelReplaceAll(UnlessOn(v, inp.podLabels, POD), DEFAULTS)
  }

  ghost function BothArms(v: Vector, inp: Inputs): Result {
    var labelled :- LabelledArm(v, inp);
    var fallback :- FallbackArm(v, inp);
    Ok(Or(labelled, fallback))
  }

  ghost function CostPerHour(inp: Inputs): Result {
    var cost :- GpuCost(inp);
    BothArms(cost, inp)
  }

  // ---- what the inputs are like ----

  /** Each pod runs on one node; kube_pod_info without namespace, pod or node does not matter. */
  ghost predicate OneNodePerPod(inp: Inputs) {
    forall a, b ::
      && a in inp.info && Get(a, NodeName) != "" && Get(a, Namespace) != "" && Get(a, PodName) != ""
      && b in inp.info && Get(b, NodeName) != ""
      && Get(a, Namespace) == Get(b, Namespace) && Get(a, PodName) == Get(b, PodName)
      ==> Get(a, NodeName) == Get(b, NodeName)
  }

  /** GPU limits differ in more than the node label. */
  ghost predicate LimitsDistinct(inp: Inputs) {
    forall a, b :: a in inp.limits && b in inp.limits && a - {NodeName} == b - {NodeName} ==> a == b
  }

  ghost predicate WellFormed(inp: Inputs) {
    OneNodePerPod(inp) && OtherwiseWellFormed(inp)
  }

  ghost predicate OtherwiseWellFormed(inp: Inputs) {
    && LimitsDistinct(inp)
    && UniqueOn(inp.prices, {NodeName})
    && UniqueOn(inp.podLabels, POD)
    && (forall l :: l in inp.info && Get(l, NodeName) != "" && Get(l, Namespace) != "" && Get(l, PodName) != "" ==>
          inp.info[l] == 1.0)
    && (forall l :: l in inp.podLabels ==> inp.podLabels[l] == 1.0)
  }

  // ---- what each pod costs ----

  /** The pod runs on a node that has this price series. */
  ghost predicate PricedBy(inp: Inputs, pod: Labels, i: Labels, q: Labels) {
    && i in inp.info && Get(i, NodeName) != "" && Get(i, Namespace) != "" && Get(i, PodName) != ""
    && Project(i, POD) == pod
    && q in inp.prices && Get(q, NodeName) == Get(i, NodeName)
  }

  ghost predicate IsPriced(inp: Inputs, pod: Labels) {
    exists i, q :: PricedBy(inp, pod, i, q)
  }

  ghost function PriceOf(inp: Inputs, pod: Labels): real
    requires IsPriced(inp, pod)
  {
    var i, q :| PricedBy(inp, pod, i, q);
    inp.prices[q]
  }

  ghost function PodLimits(inp: Inputs, pod: Labels): Vector {
    Fiber(inp.limits, By(POD), pod)
  }

  /** The pods with a GPU limit and a price, by namespace and name. */
  ghost function PricedPods(inp: Inputs): set<Labels> {
    set pod | pod in Image(inp.limits, By(POD)) && IsPriced(inp, pod)
  }

  /** The sum of a pod's GPU limits times the price of its node. */
  ghost function PodCosts(inp: Inputs): Vector {
    Tabulate(PricedPods(inp), CostOf(inp))
  }

  ghost function CostOf(inp: Inputs): Labels -> real {
    pod => if IsPriced(inp, pod) then Product(Total(PodLimits(inp, pod)), PriceOf(inp, pod)) else 0.0
  }

  // ---- the shared part computes the pod costs ----

  lemma SamePodGets(a: Labels, b: Labels)
    ensures Project(a, POD) == Project(b, POD) <==>
            Get(a, Namespace) == Get(b, Namespace) && Get(a, PodName) == Get(b, PodName)
  {
    if Project(a, POD) == Project(b, POD) {
      SameSignature(a, b, POD, Namespace);
      SameSignature(a, b, POD, PodName);
    } else if Get(a, Namespace) == Get(b, Namespace) && Get(a, PodName) == Get(b, PodName) {
      SameGets(a, b, POD);
    }
  }

  lemma SameHostGets(a: Labels, b: Labels)
    requires Project(a, POD) == Project(b, POD)
    ensures Project(a, HOST) == Project(b, HOST) <==> Get(a, NodeName) == Get(b, NodeName)
  {
    hide Project;
    SamePodGets(a, b);
    if Project(a, HOST) == Project(b, HOST) {
      SameSignature(a, b, HOST, NodeName);
    } else if Get(a, NodeName) == Get(b, NodeName) {
      SameGets(a, b, HOST);
    }
  }

  /** One node per pod in terms of the selected series and their signatures. */
  lemma OneNodeMeans(inp: Inputs)
    ensures OneNodePerPod(inp) <==> forall a, b ::
              a in NamedInfo(inp) && b in NamedInfo(inp) && Project(a, POD) == Project(b, POD) ==>
                Project(a, HOST) == Project(b, HOST)
  {
    hide Project;
    forall a, b | a in NamedInfo(inp) && b in NamedInfo(inp)
      ensures Project(a, POD) == Project(b, POD) <==>
              Get(a, Namespace) == Get(b, Namespace) && Get(a, PodName) == Get(b, PodName)
      ensures Project(a, POD) == Project(b, POD) ==>
              (Project(a, HOST) == Project(b, HOST) <==> Get(a, NodeName) == Get(b, NodeName))
    {
      SamePodGets(a, b);
      if Project(a, POD) == Project(b, POD) {
        SameHostGets(a, b);
      }
    }
    forall a, b |
      && a in inp.info && Get(a, NodeName) != "" && Get(a, Namespace) != "" && Get(a, PodName) != ""
      && b in inp.info && Get(b, NodeName) != ""
      && Get(a, Namespace) == Get(b, Namespace) && Get(a, PodName) == Get(b, PodName)
      ensures a in NamedInfo(inp) && b in NamedInfo(inp)
    {
    }
  }

  lemma HostsAre(inp: Inputs)
    requires WellFormed(inp)
    ensures Hosts(inp).Keys == Image(NamedInfo(inp), By(HOST))
    ensures forall h :: h in Hosts(inp) ==> Hosts(inp)[h] == 1.0
    ensures UniqueOn(Hosts(inp), POD)
  {
    OneNodeMeans(inp);
    hide OneNodePerPod;
    var info := NamedInfo(inp);
    forall h | h in Hosts(inp) ensures Hosts(inp)[h] == 1.0 {
      var l :| l in info && By(HOST)(l) == h;
      assert l in Fiber(info, By(HOST), h);
      MaximumOfOnes(Fiber(info, By(HOST), h));
    }
    forall a, b | a in Hosts(inp) && b in Hosts(inp) && Project(a, POD) == Project(b, POD) ensures a == b {
      var i :| i in info && By(HOST)(i) == a;
      var j :| j in info && By(HOST)(j) == b;
      ProjectProject(i, POD, HOST);
      ProjectProject(j, POD, HOST);
    }
  }

  lemma HostIsItself(inp: Inputs, h: Labels)
    requires h in Image(NamedInfo(inp), By(HOST))
    ensures Project(h, HOST) == h
  {
    var i :| i in NamedInfo(inp) && By(HOST)(i) == h;
    ProjectProject(i, HOST, HOST);
  }

  ghost function Placed(inp: Inputs): Result {
    JoinOn(inp.limits, Hosts(inp), POD, {NodeName}, Product)
  }

  lemma PlacedDistinct(inp: Inputs)
    requires WellFormed(inp)
    ensures ResultsDistinct(inp.limits, Hosts(inp), POD, {NodeName})
  {
    hide Include, Hosts, HasPartner, UniqueOn, NamedInfo;
    var hosts := Hosts(inp);
    forall a, b |
      && a in Matched(inp.limits, hosts, POD) && b in Matched(inp.limits, hosts, POD)
      && Joined(hosts, POD, {NodeName}, a) == Joined(hosts, POD, {NodeName}, b)
      ensures a == b
    {
      IncludeOnlyChanges(a, Partner(hosts, POD, a), NodeName);
      IncludeOnlyChanges(b, Partner(hosts, POD, b), NodeName);
    }
  }

  lemma PlacedIs(inp: Inputs)
    requires WellFormed(inp)
    ensures Placed(inp).Ok? && IsJoin(inp.limits, Hosts(inp), POD, {NodeName}, Product, Placed(inp).vector)
  {
    hide JoinOn;
    HostsAre(inp);
    PlacedDistinct(inp);
    JoinSucceeds(inp.limits, Hosts(inp), POD, {NodeName}, Product);
  }

  /** A limit placed on its node belongs to exactly that host. */
  lemma PlacedOn(inp: Inputs, l: Labels)
    requires WellFormed(inp) && l in Matched(inp.limits, Hosts(inp), POD)
    ensures var h := Partner(Hosts(inp), POD, l);
            Project(Joined(Hosts(inp), POD, {NodeName}, l), HOST) == h
  {
    var h := Partner(Hosts(inp), POD, l);
    HostsAre(inp);
    HostIsItself(inp, h);
    var k := Include(l, h, {NodeName});
    forall name | name in HOST ensures Get(k, name) == Get(h, name) {
      IncludeGets(l, h, {NodeName}, name);
      if name != NodeName {
        SameSignature(h, l, POD, name);
      }
    }
    SameGets(k, h, HOST);
  }

  ghost function PlaceOn(h: Labels): Labels -> Labels {
    l => Include(l, h, {NodeName})
  }

  /** The placed limits of one host are the limits of its pod, renamed one to one. */
  lemma HostFiber(inp: Inputs, h: Labels)
    requires WellFormed(inp) && h in Hosts(inp) && Placed(inp).Ok?
    ensures var limits, fiber := PodLimits(inp, Project(h, POD)), Fiber(Placed(inp).vector, By(HOST), h);
            && fiber.Keys == Image(limits, PlaceOn(h))
            && forall l :: l in limits ==> fiber[PlaceOn(h)(l)] == limits[l]
  {
    hide Placed, Hosts, PriceOf, JoinOn, Include, Project, WellFormed, HasPartner;
    PlacedIs(inp);
    HostsOne(inp);
    var placed, limits := Placed(inp).vector, PodLimits(inp, Project(h, POD));
    var fiber := Fiber(placed, By(HOST), h);
    forall l | l in limits ensures PlaceOn(h)(l) in fiber && fiber[PlaceOn(h)(l)] == limits[l] {
      assert IsPartner(Hosts(inp), POD, l, h);
      UniquePartner(Hosts(inp), POD, l, h);
      PlacedOn(inp, l);
      assert Joined(Hosts(inp), POD, {NodeName}, l) == PlaceOn(h)(l);
    }
    forall k | k in fiber ensures k in Image(limits, PlaceOn(h)) {
      var l :| l in Matched(inp.limits, Hosts(inp), POD) && Joined(Hosts(inp), POD, {NodeName}, l) == k;
      PlacedOn(inp, l);
      assert l in limits;
    }
    assert fiber.Keys == Image(limits, PlaceOn(h));
  }

  lemma HostsOne(inp: Inputs)
    requires WellFormed(inp)
    ensures UniqueOn(Hosts(inp), POD) && forall h :: h in Hosts(inp) ==> Hosts(inp)[h] == 1.0
  {
    HostsAre(inp);
  }

  lemma PlacingInjective(inp: Inputs, h: Labels)
    requires LimitsDistinct(inp)
    ensures InjectiveOn(PodLimits(inp, Project(h, POD)).Keys, PlaceOn(h))
  {
    hide Project, Include;
    var limits := PodLimits(inp, Project(h, POD));
    forall j, k | j in limits && k in limits && PlaceOn(h)(j) == PlaceOn(h)(k) ensures j == k {
      IncludeOnlyChanges(j, h, NodeName);
      IncludeOnlyChanges(k, h, NodeName);
    }
  }

  lemma HostLimits(inp: Inputs, h: Labels)
    requires WellFormed(inp) && h in Hosts(inp)
    ensures Placed(inp).Ok?
    ensures Total(Fiber(Placed(inp).vector, By(HOST), h)) == Total(PodLimits(inp, Project(h, POD)))
    ensures h in Image(Placed(inp).vector, By(HOST)) <==> Project(h, POD) in Image(inp.limits, By(POD))
  {
    hide Placed, Hosts, Project, Fiber, Total, IsJoin;
    PlacedIs(inp);
    HostFiber(inp, h);
    PlacingInjective(inp, h);
    var limits, fiber := PodLimits(inp, Project(h, POD)), Fiber(Placed(inp).vector, By(HOST), h);
    RenamingConserves(limits, PlaceOn(h), fiber);
    FiberOfImage(Placed(inp).vector, By(HOST), h);
    FiberOfImage(inp.limits, By(POD), Project(h, POD));
    ImageEmpty(limits, PlaceOn(h));
  }

  lemma FiberOfImage(v: Vector, f: Labels -> Labels, g: Labels)
    ensures g in Image(v, f) <==> Fiber(v, f, g).Keys != {}
  {
    if g in Image(v, f) {
      var k :| k in v && f(k) == g;
      assert k in Fiber(v, f, g);
    }
  }

  lemma ImageEmpty(v: Vector, f: Labels -> Labels)
    ensures Image(v, f) == {} <==> v.Keys == {}
  {
    if k :| k in v.Keys {
      assert f(k) in Image(v, f);
    }
  }

  lemma IncludeOnlyChanges(l: Labels, r: Labels, name: Name)
    ensures Include(l, r, {name}) - {name} == l - {name}
  {
  }

  ghost function PerNode(inp: Inputs): Vector
    requires Placed(inp).Ok?
  {
    SumBy(Placed(inp).vector, HOST)
  }

  lemma PerNodeIs(inp: Inputs)
    requires WellFormed(inp)
    ensures Placed(inp).Ok?
    ensures forall h :: h in PerNode(inp) <==> h in Hosts(inp) && Project(h, POD) in Image(inp.limits, By(POD))
    ensures forall h :: h in PerNode(inp) ==> PerNode(inp)[h] == Total(PodLimits(inp, Project(h, POD)))
    ensures UniqueOn(PerNode(inp), HOST) && UniqueOn(PerNode(inp), POD)
  {
    hide Hosts, Placed, HasPartner, IsJoin, JoinOn;
    PlacedIs(inp);
    HostsAre(inp);
    var placed := Placed(inp).vector;
    forall h ensures h in PerNode(inp) <==> h in Hosts(inp) && Project(h, POD) in Image(inp.limits, By(POD)) {
      if h in Hosts(inp) {
        HostLimits(inp, h);
      } else if h in PerNode(inp) {
        var k :| k in placed && By(HOST)(k) == h;
        PlacedHasHost(inp, k);
      }
    }
    forall h | h in PerNode(inp)
      ensures PerNode(inp)[h] == Total(PodLimits(inp, Project(h, POD))) && Project(h, HOST) == h
    {
      HostLimits(inp, h);
      HostIsItself(inp, h);
    }
  }

  lemma PlacedHasHost(inp: Inputs, k: Labels)
    requires WellFormed(inp) && Placed(inp).Ok? && k in Placed(inp).vector
    ensures Project(k, HOST) in Hosts(inp)
  {
    hide Placed, Hosts;
    PlacedIs(inp);
    var l :| l in Matched(inp.limits, Hosts(inp), POD) && Joined(Hosts(inp), POD, {NodeName}, l) == k;
    PlacedOn(inp, l);
  }

  ghost function Priced(inp: Inputs): Result
    requires Placed(inp).Ok?
  {
    JoinOn(PerNode(inp), inp.prices, {NodeName}, {Currency}, Product)
  }

  lemma PricedIsJoin(inp: Inputs)
    requires WellFormed(inp)
    ensures Placed(inp).Ok? && Priced(inp).Ok?
    ensures IsJoin(PerNode(inp), inp.prices, {NodeName}, {Currency}, Product, Priced(inp).vector)
  {
    hide Placed, PerNode, IsJoin, JoinOn;
    PerNodeIs(inp);
    UniqueManyGivesDistinct(PerNode(inp), inp.prices, {NodeName}, {Currency}, HOST);
    JoinSucceeds(PerNode(inp), inp.prices, {NodeName}, {Currency}, Product);
  }

  lemma OnePricePerPod(inp: Inputs, pod: Labels, i: Labels, q: Labels, i': Labels, q': Labels)
    requires WellFormed(inp) && PricedBy(inp, pod, i, q) && PricedBy(inp, pod, i', q')
    ensures q == q'
  {
    hide Project;
    SamePodGets(i, i');
    SameGets(q', q, {NodeName});
  }

  /** A host with a limit and a price makes its pod priced, at that price. */
  lemma HostPrice(inp: Inputs, h: Labels, q: Labels)
    requires WellFormed(inp) && h in Hosts(inp)
    requires IsPartner(inp.prices, {NodeName}, h, q)
    ensures IsPriced(inp, Project(h, POD)) && PriceOf(inp, Project(h, POD)) == inp.prices[q]
  {
    hide Hosts, Tabulate, Total, Project, OneNodePerPod;
    HostsAre(inp);
    var pod := Project(h, POD);
    var i :| i in NamedInfo(inp) && By(HOST)(i) == h;
    ProjectProject(i, POD, HOST);
    SameSignature(q, h, {NodeName}, NodeName);
    HostIsItself(inp, h);
    SameSignature(h, i, HOST, NodeName);
    assert Get(h, NodeName) == Get(i, NodeName);
    assert PricedBy(inp, pod, i, q);
    forall i', q' | PricedBy(inp, pod, i', q') ensures inp.prices[q'] == inp.prices[q] {
      OnePricePerPod(inp, pod, i, q, i', q');
    }
  }

  /** A priced pod has a host with a price. */
  lemma PricedPodHasHost(inp: Inputs, pod: Labels) returns (h: Labels)
    requires WellFormed(inp) && IsPriced(inp, pod)
    ensures h in Hosts(inp) && Project(h, POD) == pod && HasPartner(inp.prices, {NodeName}, h)
  {
    hide Hosts;
    HostsAre(inp);
    var i, q :| PricedBy(inp, pod, i, q);
    h := Project(i, HOST);
    assert By(HOST)(i) == h;
    ProjectProject(i, POD, HOST);
    SameGets(q, h, {NodeName});
    assert IsPartner(inp.prices, {NodeName}, h, q);
  }

  /** The one series that a pod's host contributes. */
  lemma PodFiber(inp: Inputs, h: Labels)
    requires WellFormed(inp) && Placed(inp).Ok? && Priced(inp).Ok?
    requires h in PerNode(inp) && HasPartner(inp.prices, {NodeName}, h)
    ensures var pod := Project(h, POD);
            && pod in PricedPods(inp)
            && pod in Image(Priced(inp).vector, By(POD))
            && Total(Fiber(Priced(inp).vector, By(POD), pod)) == PodCosts(inp)[pod]
  {
    hide Placed, PerNode, Hosts, Priced, JoinOn, PriceOf, IsPriced, Tabulate, Total, Project, Include;
    PricedIsJoin(inp);
    PerNodeIs(inp);
    var pod, priced := Project(h, POD), Priced(inp).vector;
    var q := Partner(inp.prices, {NodeName}, h);
    HostPrice(inp, h, q);
    var k := Joined(inp.prices, {NodeName}, {Currency}, h);
    JoinedKeepsIds(inp.prices, {NodeName}, {Currency}, POD, h);
    var fiber := Fiber(priced, By(POD), pod);
    assert h in Matched(PerNode(inp), inp.prices, {NodeName});
    assert By(POD)(k) == pod && k in fiber;
    forall k' | k' in fiber ensures k' == k {
      var h' :| h' in Matched(PerNode(inp), inp.prices, {NodeName}) &&
        Joined(inp.prices, {NodeName}, {Currency}, h') == k';
      JoinedKeepsIds(inp.prices, {NodeName}, {Currency}, POD, h');
    }
    TotalOfOne(fiber, k);
  }

  /** The joined and summed vector holds each priced pod's GPU limits times its node's price, and nothing else. */
  lemma GpuCostIsPodCosts(inp: Inputs)
    requires WellFormed(inp)
    ensures GpuCost(inp) == Ok(PodCosts(inp))
  {
    hide Placed, PerNode, Hosts, Priced, JoinOn, PodCosts, PriceOf, IsPriced, HasPartner, IsJoin;
    hide Project, Tabulate, Total, Fiber, UniqueOn;
    PricedIsJoin(inp);
    PerNodeIs(inp);
    PodCostsKeys(inp);
    var priced, costs := Priced(inp).vector, SumBy(Priced(inp).vector, POD);
    forall pod ensures pod in costs <==> pod in PricedPods(inp) {
      if pod in PricedPods(inp) {
        var h := PricedPodHasHost(inp, pod);
        PodFiber(inp, h);
      }
      if pod in costs {
        var k :| k in priced && By(POD)(k) == pod;
        var h := PricedSeriesHost(inp, k);
        PodFiber(inp, h);
      }
    }
    forall pod | pod in costs ensures costs[pod] == PodCosts(inp)[pod] {
      var h := PricedPodHasHost(inp, pod);
      PodFiber(inp, h);
    }
    assert costs == PodCosts(inp);
    GpuCostUnfolds(inp);
  }

  lemma PodCostsKeys(inp: Inputs)
    ensures PodCosts(inp).Keys == PricedPods(inp)
  {
  }

  lemma GpuCostUnfolds(inp: Inputs)
    requires Placed(inp).Ok? && Priced(inp).Ok?
    ensures GpuCost(inp) == Ok(SumBy(Priced(inp).vector, POD))
  {
  }

  lemma PricedSeriesHost(inp: Inputs, k: Labels) returns (h: Labels)
    requires WellFormed(inp) && Placed(inp).Ok? && Priced(inp).Ok? && k in Priced(inp).vector
    ensures h in PerNode(inp) && HasPartner(inp.prices, {NodeName}, h) && Project(h, POD) == Project(k, POD)
  {
    hide Placed, PerNode, Priced;
    PricedIsJoin(inp);
    h :| h in Matched(PerNode(inp), inp.prices, {NodeName}) && Joined(inp.prices, {NodeName}, {Currency}, h) == k;
    JoinedKeepsIds(inp.prices, {NodeName}, {Currency}, POD, h);
  }

  // ---- relabelling ----

  /** The labels after nested label_replace calls. */
  function RelabelAll(l: Labels, steps: seq<Replace>): Labels {
    if steps == [] then l else Relabel(RelabelAll(l, steps[..|steps| - 1]), steps[|steps| - 1])
  }

  ghost function WithAll(steps: seq<Replace>): Labels -> Labels {
    l => RelabelAll(l, steps)
  }

  predicate KeepsPod(steps: seq<Replace>) {
    forall i :: 0 <= i < |steps| ==> steps[i].dst !in POD
  }

  lemma {:induction false} RelabelKeepsPod(l: Labels, steps: seq<Replace>)
    requires KeepsPod(steps)
    ensures Project(RelabelAll(l, steps), POD) == Project(l, POD)
  {
    if steps != [] {
      var before := RelabelAll(l, steps[..|steps| - 1]);
      RelabelKeepsPod(l, steps[..|steps| - 1]);
      SameGets(Relabel(before, steps[|steps| - 1]), before, POD);
    }
  }

  lemma RelabelInjective(v: Vector, steps: seq<Replace>)
    requires UniqueOn(v, POD) && KeepsPod(steps)
    ensures InjectiveOn(v.Keys, WithAll(steps))
  {
    hide Project, RelabelAll;
    forall j, k | j in v && k in v && WithAll(steps)(j) == WithAll(steps)(k) ensures j == k {
      RelabelKeepsPod(j, steps);
      RelabelKeepsPod(k, steps);
    }
  }

  /** label_replace calls that leave the pod's labels alone never collide on a vector with one series per pod. */
  lemma {:induction false} LabelReplaceAllRenames(v: Vector, steps: seq<Replace>)
    requires UniqueOn(v, POD) && KeepsPod(steps)
    ensures LabelReplaceAll(v, steps).Ok?
    ensures IsRenamed(v, WithAll(steps), LabelReplaceAll(v, steps).vector)
  {
    hide Project, Relabel, UniqueOn, Renamed, InjectiveOn;
    RelabelInjective(v, steps);
    if steps != [] {
      hide IsRenamed;
      var front, last := steps[..|steps| - 1], steps[|steps| - 1];
      LabelReplaceAllRenames(v, front);
      assert forall l :: WithAll(steps)(l) == With(last)(WithAll(front)(l));
      RenameOnce(v, WithAll(front), LabelReplaceAll(v, front).vector, With(last), WithAll(steps));
    }
  }

  /** The labels that the two arms give to a series. */
  ghost function FinalLabels(inp: Inputs, l: Labels): Labels {
    if HasPartner(inp.podLabels, POD, l) then
      RelabelAll(Joined(inp.podLabels, POD, IDENTITY, l), COPY_AND_DEFAULTS)
    else RelabelAll(l, DEFAULTS)
  }

  ghost function Final(inp: Inputs): Labels -> Labels {
    l => FinalLabels(inp, l)
  }

  lemma StepsKeepPod()
    ensures KeepsPod(DEFAULTS) && KeepsPod(COPY_AND_DEFAULTS)
  {
  }

  lemma FinalKeepsPod(inp: Inputs, l: Labels)
    ensures Project(FinalLabels(inp, l), POD) == Project(l, POD)
  {
    hide RelabelAll;
    StepsKeepPod();
    if HasPartner(inp.podLabels, POD, l) {
      JoinedKeepsIds(inp.podLabels, POD, IDENTITY, POD, l);
      RelabelKeepsPod(Joined(inp.podLabels, POD, IDENTITY, l), COPY_AND_DEFAULTS);
    } else {
      RelabelKeepsPod(l, DEFAULTS);
    }
  }

  /** The series of v that one of the arms takes. */
  ghost function Labelled(inp: Inputs, v: Vector): Vector {
    AndOn(v, inp.podLabels, POD)
  }

  ghost function Unlabelled(inp: Inputs, v: Vector): Vector {
    UnlessOn(v, inp.podLabels, POD)
  }

  lemma LabelledArmRenames(inp: Inputs, v: Vector)
    requires WellFormed(inp) && UniqueOn(v, POD)
    ensures LabelledArm(v, inp).Ok? && IsRenamed(Labelled(inp, v), Final(inp), LabelledArm(v, inp).vector)
  {
    hide JoinOn, RelabelAll, LabelReplaceAll, HasPartner, Hosts, NamedInfo;
    StepsKeepPod();
    UniqueManyGivesDistinct(v, inp.podLabels, POD, IDENTITY, POD);
    JoinSucceeds(v, inp.podLabels, POD, IDENTITY, Product);
    var joined := JoinOn(v, inp.podLabels, POD, IDENTITY, Product).vector;
    forall a, b | a in joined && b in joined && Project(a, POD) == Project(b, POD) ensures a == b {
      var j :| j in Matched(v, inp.podLabels, POD) && Joined(inp.podLabels, POD, IDENTITY, j) == a;
      var k :| k in Matched(v, inp.podLabels, POD) && Joined(inp.podLabels, POD, IDENTITY, k) == b;
      JoinedKeepsIds(inp.podLabels, POD, IDENTITY, POD, j);
      JoinedKeepsIds(inp.podLabels, POD, IDENTITY, POD, k);
    }
    LabelReplaceAllRenames(joined, COPY_AND_DEFAULTS);
    var w := LabelReplaceAll(joined, COPY_AND_DEFAULTS).vector;
    ComposeRenaming(inp, v, joined, w);
  }

  lemma ComposeRenaming(inp: Inputs, v: Vector, joined: Vector, w: Vector)
    requires WellFormed(inp) && UniqueOn(v, POD)
    requires IsJoin(v, inp.podLabels, POD, IDENTITY, Product, joined)
    requires IsRenamed(joined, WithAll(COPY_AND_DEFAULTS), w)
    ensures IsRenamed(Labelled(inp, v), Final(inp), w)
  {
    hide RelabelAll, HasPartner, Hosts, NamedInfo, Include, Project, UniqueOn, Partner;
    var part := Labelled(inp, v);
    assert part.Keys == Matched(v, inp.podLabels, POD);
    forall l | l in part ensures Final(inp)(l) in w && w[Final(inp)(l)] == part[l] {
      JoinedOnce(inp, v, joined, w, l);
    }
    forall k | k in w ensures k in Image(part, Final(inp)) {
      var j :| j in joined && WithAll(COPY_AND_DEFAULTS)(j) == k;
      var l :| l in Matched(v, inp.podLabels, POD) && Joined(inp.podLabels, POD, IDENTITY, l) == j;
      assert l in part && Final(inp)(l) == k;
    }
    PartUnique(v, part);
    FinalInjective(inp, part);
  }

  lemma PartUnique(v: Vector, part: Vector)
    requires UniqueOn(v, POD) && part.Keys <= v.Keys
    ensures UniqueOn(part, POD)
  {
  }

  /** A labelled series keeps its value: the pod labels' value is 1. */
  lemma JoinedOnce(inp: Inputs, v: Vector, joined: Vector, w: Vector, l: Labels)
    requires WellFormed(inp) && l in Matched(v, inp.podLabels, POD)
    requires IsJoin(v, inp.podLabels, POD, IDENTITY, Product, joined)
    requires IsRenamed(joined, WithAll(COPY_AND_DEFAULTS), w)
    ensures FinalLabels(inp, l) in w && w[FinalLabels(inp, l)] == v[l]
  {
    hide RelabelAll, Hosts, NamedInfo, Include, Project, UniqueOn, InjectiveOn;
    var j := Joined(inp.podLabels, POD, IDENTITY, l);
    assert WithAll(COPY_AND_DEFAULTS)(j) == FinalLabels(inp, l);
    assert joined[j] == Product(v[l], 1.0);
  }

  lemma FinalInjective(inp: Inputs, v: Vector)
    requires UniqueOn(v, POD)
    ensures InjectiveOn(v.Keys, Final(inp))
  {
    hide FinalLabels;
    forall j, k | j in v && k in v && Final(inp)(j) == Final(inp)(k) ensures j == k {
      FinalKeepsPod(inp, j);
      FinalKeepsPod(inp, k);
    }
  }

  lemma FallbackArmRenames(inp: Inputs, v: Vector)
    requires UniqueOn(v, POD)
    ensures FallbackArm(v, inp).Ok? && IsRenamed(Unlabelled(inp, v), Final(inp), FallbackArm(v, inp).vector)
  {
    hide RelabelAll, LabelReplaceAll, HasPartner;
    StepsKeepPod();
    var part := Unlabelled(inp, v);
    LabelReplaceAllRenames(part, DEFAULTS);
    var w := LabelReplaceAll(part, DEFAULTS).vector;
    forall l | l in part ensures WithAll(DEFAULTS)(l) == Final(inp)(l) {
    }
    assert Image(part, WithAll(DEFAULTS)) == Image(part, Final(inp));
    FinalInjective(inp, part);
  }

  /**
   The two arms partition any vector with one series per pod: they give it back
   with new labels, one series for one, and "or" drops nothing.
   */
  lemma ArmsPartition(inp: Inputs, v: Vector)
    requires WellFormed(inp) && UniqueOn(v, POD)
    ensures BothArms(v, inp).Ok? && IsRenamed(v, Final(inp), BothArms(v, inp).vector)
  {
    hide FinalLabels, LabelledArm, FallbackArm, HasPartner, Hosts, NamedInfo, Tabulate, Project;
    LabelledArmRenames(inp, v);
    FallbackArmRenames(inp, v);
    FinalInjective(inp, v);
    hide InjectiveOn, UniqueOn, IsRenamed;
    UnionOfRenamed(
      v, Labelled(inp, v), Unlabelled(inp, v), Final(inp), LabelledArm(v, inp).vector, FallbackArm(v, inp).vector);
  }

  // ---- cost_per_hour ----

  lemma PodCostsUnique(inp: Inputs)
    ensures UniqueOn(PodCosts(inp), POD)
    ensures forall pod :: pod in PodCosts(inp) ==> Project(pod, POD) == pod
  {
    hide PriceOf, IsPriced;
    forall pod | pod in PodCosts(inp) ensures Project(pod, POD) == pod {
      var l :| l in inp.limits && By(POD)(l) == pod;
      ProjectProject(l, POD, POD);
    }
  }

  lemma CostPerHourRenames(inp: Inputs)
    requires WellFormed(inp)
    ensures CostPerHour(inp).Ok? && IsRenamed(PodCosts(inp), Final(inp), CostPerHour(inp).vector)
  {
    hide GpuCost, BothArms, PodCosts, Hosts, NamedInfo, FinalLabels;
    GpuCostIsPodCosts(inp);
    PodCostsUnique(inp);
    ArmsPartition(inp, PodCosts(inp));
  }

  /** Conservation: the recorded costs add up to the GPU limits times node prices of all priced pods. */
  lemma CostIsConserved(inp: Inputs)
    requires WellFormed(inp)
    ensures CostPerHour(inp).Ok? && Total(CostPerHour(inp).vector) == Total(PodCosts(inp))
  {
    hide CostPerHour, PodCosts, Hosts, NamedInfo, FinalLabels;
    CostPerHourRenames(inp);
    RenamingConserves(PodCosts(inp), Final(inp), CostPerHour(inp).vector);
  }

  lemma TwoNodesFailEveryPod(inp: Inputs)
    requires !OneNodePerPod(inp) && inp.limits != map[]
    ensures CostPerHour(inp) == Error
  {
    OneNodeMeans(inp);
    hide Project, NamedInfo, Maximum, Total, OneNodePerPod;
    var a, b :| a in NamedInfo(inp) && b in NamedInfo(inp) && Project(a, POD) == Project(b, POD) &&
      Project(a, HOST) != Project(b, HOST);
    ProjectProject(a, POD, HOST);
    ProjectProject(b, POD, HOST);
    assert By(HOST)(a) in Hosts(inp) && By(HOST)(b) in Hosts(inp);
    assert !UniqueOn(Hosts(inp), POD);
  }

  /** Without GPU limits the first join is empty, whatever kube_pod_info holds. */
  lemma NoLimitsNoJoin(inp: Inputs)
    requires OtherwiseWellFormed(inp) && inp.limits == map[]
    ensures CostPerHour(inp).Ok?
  {
    hide Project, Maximum, Total, SumBy, MaxBy, BothArms;
    var none := inp.(info := map[]);
    assert NamedInfo(none) == map[];
    CostPerHourRenames(none);
    assert GpuCost(inp) == GpuCost(none);
    SameArms(inp, none, GpuCost(none).vector);
  }

  lemma SameArms(a: Inputs, b: Inputs, v: Vector)
    requires a.podLabels == b.podLabels
    ensures BothArms(v, a) == BothArms(v, b)
  {
  }

  /**
   The rule is evaluated exactly when each pod runs on one node or there is no
   GPU limit at all: one pod with two nodes makes it fail for every pod.
   */
  lemma EvaluatesIffOneNodePerPod(inp: Inputs)
    requires OtherwiseWellFormed(inp)
    ensures CostPerHour(inp).Ok? <==> inp.limits == map[] || OneNodePerPod(inp)
  {
    hide CostPerHour, OneNodePerPod, OtherwiseWellFormed;
    if inp.limits == map[] {
      NoLimitsNoJoin(inp);
    } else if OneNodePerPod(inp) {
      CostPerHourRenames(inp);
    } else {
      TwoNodesFailEveryPod(inp);
    }
  }

  // ---- a pod with two nodes ----

  function PodOn(pod: string, node: string): Labels {
    map[Namespace := "ml", PodName := pod, NodeName := node]
  }

  /** Pod a has a GPU on a priced node; pod b, without any GPU, was moved and is still listed on its first node. */
  function MovedPod(): Inputs {
    Inputs(
      map[PodOn("a", "n1") := 1.0],
      map[PodOn("a", "n1") := 1.0, PodOn("b", "n1") := 1.0, PodOn("b", "n2") := 1.0],
      map[map[NodeName := "n1"] := 2.0], map[], map[], map[])
  }

  /** What is left when the stale entry of pod b is gone. */
  function SettledPod(): Inputs {
    MovedPod().(info := map[PodOn("a", "n1") := 1.0, PodOn("b", "n2") := 1.0])
  }

  lemma MovedPodHasTwoNodes()
    ensures !OneNodePerPod(MovedPod())
  {
    hide Project;
    var b1, b2 := PodOn("b", "n1"), PodOn("b", "n2");
    assert b1 in NamedInfo(MovedPod()) && b2 in NamedInfo(MovedPod());
    SameGets(b1, b2, POD);
    if Project(b1, HOST) == Project(b2, HOST) {
      SameSignature(b1, b2, HOST, NodeName);
    }
  }

  lemma SettledPodHasOneNode()
    ensures OneNodePerPod(SettledPod())
  {
    hide Project;
    var a, b := PodOn("a", "n1"), PodOn("b", "n2");
    if Project(a, POD) == Project(b, POD) {
      SameSignature(a, b, POD, PodName);
    }
    hide PodOn;
  }

  /** A pod without a GPU that is listed on two nodes takes the cost from all other pods. */
  lemma MovedPodFailsTheRule()
    ensures OtherwiseWellFormed(MovedPod()) && CostPerHour(MovedPod()) == Error
    ensures OtherwiseWellFormed(SettledPod()) && CostPerHour(SettledPod()).Ok?
  {
    hide CostPerHour, Project, OneNodePerPod;
    MovedPodHasTwoNodes();
    SettledPodHasOneNode();
    assert PodOn("a", "n1") in MovedPod().limits;
    EvaluatesIffOneNodePerPod(MovedPod());
    EvaluatesIffOneNodePerPod(SettledPod());
  }

  // ---- identity labels ----

  function OrUnlabeled(v: string): string {
    if v == "" then "unlabeled" else v
  }

  /** No label is stored with an empty value. */
  predicate Canonical(l: Labels) {
    forall name :: name in l ==> l[name] != ""
  }

  lemma EqualByGets(a: Labels, b: Labels)
    requires Canonical(a) && Canonical(b)
    requires forall name :: Get(a, name) == Get(b, name)
    ensures a == b
  {
    forall name ensures (name in a <==> name in b) && (name in a ==> a[name] == b[name]) {
      assert Get(a, name) == Get(b, name);
    }
  }

  lemma RelabelGets(l: Labels, step: Replace)
    ensures forall name ::
            Get(Relabel(l, step), name) ==
            if name == step.dst && (step.pattern == AnyText || Get(l, step.src) == "") then
              if step.replacement.Text? then step.replacement.text
              else if step.pattern == AnyText then Get(l, step.src)
              else ""
            else Get(l, name)
    ensures Canonical(l) ==> Canonical(Relabel(l, step))
  {
  }

  function AfterDefaults(l: Labels): Labels {
    Relabel(Relabel(Relabel(l, DEFAULTS[0]), DEFAULTS[1]), DEFAULTS[2])
  }

  function AfterCopies(l: Labels): Labels {
    Relabel(Relabel(Relabel(l, COPY_AND_DEFAULTS[0]), COPY_AND_DEFAULTS[1]), COPY_AND_DEFAULTS[2])
  }

  lemma RelabelAllOfThree(l: Labels, a: Replace, b: Replace, c: Replace)
    ensures RelabelAll(l, [a, b, c]) == Relabel(Relabel(Relabel(l, a), b), c)
  {
    assert [a, b, c][..2] == [a, b] && [a, b][..1] == [a] && [a][..0] == [];
    assert RelabelAll(l, [a]) == Relabel(RelabelAll(l, []), a) == Relabel(l, a);
    assert RelabelAll(l, [a, b]) == Relabel(RelabelAll(l, [a]), b);
  }

  lemma {:induction false} RelabelAllAppend(l: Labels, s: seq<Replace>, t: seq<Replace>)
    ensures RelabelAll(l, s + t) == RelabelAll(RelabelAll(l, s), t)
  {
    if t == [] {
      assert s + t == s;
    } else {
      assert (s + t)[..|s + t| - 1] == s + t[..|t| - 1];
      RelabelAllAppend(l, s, t[..|t| - 1]);
    }
  }

  lemma DefaultsUnfold(l: Labels)
    ensures RelabelAll(l, DEFAULTS) == AfterDefaults(l)
  {
    RelabelAllOfThree(l, DEFAULTS[0], DEFAULTS[1], DEFAULTS[2]);
    assert DEFAULTS == [DEFAULTS[0], DEFAULTS[1], DEFAULTS[2]];
  }

  lemma CopyAndDefaultsUnfold(l: Labels)
    ensures RelabelAll(l, COPY_AND_DEFAULTS) == AfterDefaults(AfterCopies(l))
  {
    var copies := COPY_AND_DEFAULTS[..3];
    RelabelAllOfThree(l, copies[0], copies[1], copies[2]);
    assert copies == [copies[0], copies[1], copies[2]];
    assert COPY_AND_DEFAULTS == copies + DEFAULTS;
    RelabelAllAppend(l, copies, DEFAULTS);
    DefaultsUnfold(RelabelAll(l, copies));
  }

  lemma DefaultsGets(l: Labels, name: Name)
    ensures Get(AfterDefaults(l), name) ==
            if name == Model || name == Platform || name == Team then OrUnlabeled(Get(l, name)) else Get(l, name)
    ensures Canonical(l) ==> Canonical(AfterDefaults(l))
  {
    hide Relabel, Get, Canonical;
    var l1 := Relabel(l, DEFAULTS[0]);
    var l2 := Relabel(l1, DEFAULTS[1]);
    RelabelGets(l, DEFAULTS[0]);
    RelabelGets(l1, DEFAULTS[1]);
    RelabelGets(l2, DEFAULTS[2]);
  }

  lemma CopiesGets(l: Labels, name: Name)
    ensures Get(AfterCopies(l), name) ==
            (match name
             case Model => Get(l, LabelModel)
             case Platform => Get(l, LabelPlatform)
             case Team => Get(l, LabelTeam)
             case _ => Get(l, name))
    ensures Canonical(l) ==> Canonical(AfterCopies(l))
  {
    hide Relabel, Get, Canonical;
    var l1 := Relabel(l, COPY_AND_DEFAULTS[0]);
    var l2 := Relabel(l1, COPY_AND_DEFAULTS[1]);
    RelabelGets(l, COPY_AND_DEFAULTS[0]);
    RelabelGets(l1, COPY_AND_DEFAULTS[1]);
    RelabelGets(l2, COPY_AND_DEFAULTS[2]);
  }

  /** The label that an identity label is copied from. */
  function SourceOf(name: Name): Name {
    match name
    case Model => LabelModel
    case Platform => LabelPlatform
    case Team => LabelTeam
    case _ => name
  }

  predicate IsIdentity(name: Name) {
    name == Model || name == Platform || name == Team
  }

  /** What the arms make of a series, label by label. */
  lemma FinalGets(inp: Inputs, l: Labels, name: Name)
    ensures Get(FinalLabels(inp, l), name) ==
            if HasPartner(inp.podLabels, POD, l) then
              var pl := Partner(inp.podLabels, POD, l);
              if IsIdentity(name) then OrUnlabeled(Get(pl, SourceOf(name)))
              else if name in IDENTITY then Get(pl, name)
              else Get(l, name)
            else if IsIdentity(name) then OrUnlabeled(Get(l, name))
            else Get(l, name)
    ensures Canonical(l) ==> Canonical(FinalLabels(inp, l))
  {
    hide Get, RelabelAll, AfterDefaults, AfterCopies, Include, HasPartner, OrUnlabeled, Relabel;
    if HasPartner(inp.podLabels, POD, l) {
      var pl := Partner(inp.podLabels, POD, l);
      var joined := Include(l, pl, IDENTITY);
      CopyAndDefaultsUnfold(joined);
      DefaultsGets(AfterCopies(joined), name);
      CopiesGets(joined, name);
      IncludeGets(l, pl, IDENTITY, name);
      IncludeGets(l, pl, IDENTITY, SourceOf(name));
      IncludeCanonical(l, pl, IDENTITY);
    } else {
      DefaultsUnfold(l);
      DefaultsGets(l, name);
    }
  }

  lemma IncludeCanonical(l: Labels, r: Labels, names: set<Name>)
    ensures Canonical(l) ==> Canonical(Include(l, r, names))
  {
  }

  /** The identity label of a pod: its kube_pod_labels value, or "unlabeled". */
  ghost function PodIdentity(inp: Inputs, pod: Labels, name: Name): string {
    if HasPartner(inp.podLabels, POD, pod) then OrUnlabeled(Get(Partner(inp.podLabels, POD, pod), SourceOf(name)))
    else "unlabeled"
  }

  /**
   Every priced pod has exactly one cost_per_hour series. It holds the pod's GPU
   limits times its node's price and carries the three identity labels, each
   "unlabeled" where the pod's label is absent or empty.
   */
  lemma OneSeriesPerPod(inp: Inputs, pod: Labels)
    requires WellFormed(inp) && pod in PricedPods(inp)
    ensures CostPerHour(inp).Ok?
    ensures var v, k := CostPerHour(inp).vector, FinalLabels(inp, pod);
            && (forall l :: l in v && Project(l, POD) == pod <==> l == k)
            && v[k] == Product(Total(PodLimits(inp, pod)), PriceOf(inp, pod))
            && (forall name :: IsIdentity(name) ==> Get(k, name) == PodIdentity(inp, pod, name) != "")
  {
    hide CostPerHour, FinalLabels, WellFormed, HasPartner, Get, IsPriced, PriceOf;
    CostPerHourRenames(inp);
    PodCostsUnique(inp);
    var v, k := CostPerHour(inp).vector, FinalLabels(inp, pod);
    assert Final(inp)(pod) == k;
    FinalKeepsPod(inp, pod);
    forall l | l in v && Project(l, POD) == pod ensures l == k {
      var p :| p in PodCosts(inp) && Final(inp)(p) == l;
      FinalKeepsPod(inp, p);
    }
    forall name | IsIdentity(name) ensures Get(k, name) == PodIdentity(inp, pod, name) != "" {
      FinalGets(inp, pod, name);
      PodHasNoIdentity(inp, pod, name);
    }
  }

  lemma PodHasNoIdentity(inp: Inputs, pod: Labels, name: Name)
    requires pod in PricedPods(inp) && IsIdentity(name)
    ensures Get(pod, name) == ""
  {
    hide IsPriced;
    var l :| l in inp.limits && By(POD)(l) == pod;
  }

  /** No other series is recorded. */
  lemma OnlyPricedPods(inp: Inputs, k: Labels)
    requires WellFormed(inp) && CostPerHour(inp).Ok? && k in CostPerHour(inp).vector
    ensures Project(k, POD) in PricedPods(inp)
  {
    hide CostPerHour, FinalLabels, WellFormed, IsPriced, PriceOf;
    CostPerHourRenames(inp);
    PodCostsUnique(inp);
    var p :| p in PodCosts(inp) && Final(inp)(p) == k;
    FinalKeepsPod(inp, p);
  }

  // ---- cost_per_token ----

  ghost function TokenRate(inp: Inputs): Vector {
    Plus(inp.promptRate, inp.generationRate)
  }

  /** Division; a quotient by zero is no real number, so any placeholder may stand for it. */
  ghost function Divide(placeholder: real): (real, real) -> real {
    (x, y) => if y == 0.0 then placeholder else x / y
  }

  /** The expression over the recorded cost_per_hour series. */
  ghost function CostPerToken(inp: Inputs, recorded: Vector, placeholder: real): Result {
    var quotient :- JoinOn(recorded, ScaleBy(TokenRate(inp), 3600.0), POD, {}, Divide(placeholder));
    BothArms(AndOn(quotient, Positive(TokenRate(inp)), POD), inp)
  }

  /** The series that have a token cost: those of pods with a positive token rate. */
  ghost predicate HasTokens(inp: Inputs, k: Labels) {
    HasPartner(Positive(TokenRate(inp)), POD, k)
  }

  ghost function RateOf(inp: Inputs, k: Labels): (rate: real)
    requires HasTokens(inp, k)
    ensures rate > 0.0
  {
    TokenRate(inp)[Partner(Positive(TokenRate(inp)), POD, k)]
  }

  ghost function TokensPerHour(inp: Inputs, k: Labels): (tokens: real)
    requires HasTokens(inp, k)
    ensures tokens > 0.0
  {
    RateOf(inp, k) * 3600.0
  }

  /** Relabelling a recorded series again changes nothing. */
  lemma FinalIsIdempotent(inp: Inputs, pod: Labels)
    requires Canonical(pod) && UniqueOn(inp.podLabels, POD)
    ensures FinalLabels(inp, FinalLabels(inp, pod)) == FinalLabels(inp, pod)
  {
    hide FinalLabels, Get, HasPartner, Canonical;
    var k := FinalLabels(inp, pod);
    FinalKeepsPod(inp, pod);
    SamePartners(inp.podLabels, pod, k);
    FinalGets(inp, pod, Namespace);
    FinalGets(inp, k, Namespace);
    forall name ensures Get(FinalLabels(inp, k), name) == Get(k, name) {
      FinalGets(inp, pod, name);
      FinalGets(inp, k, name);
    }
    EqualByGets(FinalLabels(inp, k), k);
  }

  lemma SamePartners(one: Vector, a: Labels, b: Labels)
    requires Project(a, POD) == Project(b, POD) && UniqueOn(one, POD)
    ensures HasPartner(one, POD, a) <==> HasPartner(one, POD, b)
    ensures HasPartner(one, POD, a) ==> Partner(one, POD, a) == Partner(one, POD, b)
  {
    assert forall r :: IsPartner(one, POD, a, r) <==> IsPartner(one, POD, b, r);
  }

  lemma RecordedIsStable(inp: Inputs, k: Labels)
    requires WellFormed(inp) && CostPerHour(inp).Ok? && k in CostPerHour(inp).vector
    ensures FinalLabels(inp, k) == k
  {
    hide CostPerHour, FinalLabels, IsPriced, PriceOf, NamedInfo;
    CostPerHourRenames(inp);
    PodCostsUnique(inp);
    var p :| p in PodCosts(inp) && Final(inp)(p) == k;
    assert Project(p, POD) == p;
    FinalIsIdempotent(inp, p);
  }

  lemma RecordedUnique(inp: Inputs)
    requires WellFormed(inp) && CostPerHour(inp).Ok?
    ensures UniqueOn(CostPerHour(inp).vector, POD)
  {
    hide CostPerHour, FinalLabels, WellFormed, IsPriced, PriceOf;
    CostPerHourRenames(inp);
    PodCostsUnique(inp);
    var v := CostPerHour(inp).vector;
    forall a, b | a in v && b in v && Project(a, POD) == Project(b, POD) ensures a == b {
      var p :| p in PodCosts(inp) && Final(inp)(p) == a;
      var q :| q in PodCosts(inp) && Final(inp)(q) == b;
      FinalKeepsPod(inp, p);
      FinalKeepsPod(inp, q);
    }
  }

  /** The quotient that has a token rate above zero, before the arms. */
  ghost function KeptQuotient(inp: Inputs, recorded: Vector, placeholder: real): Result {
    var quotient :- JoinOn(recorded, ScaleBy(TokenRate(inp), 3600.0), POD, {}, Divide(placeholder));
    Ok(AndOn(quotient, Positive(TokenRate(inp)), POD))
  }

  lemma IncludeNothing(l: Labels, r: Labels)
    ensures Include(l, r, {}) == l
  {
  }

  /** A pod with a positive rate finds that rate in the division, times 3600. */
  lemma PositivePartner(inp: Inputs, k: Labels)
    requires UniqueOn(TokenRate(inp), POD) && HasTokens(inp, k)
    ensures var scaled := ScaleBy(TokenRate(inp), 3600.0);
            && UniqueOn(scaled, POD) && HasPartner(scaled, POD, k)
            && scaled[Partner(scaled, POD, k)] == TokensPerHour(inp, k)
  {
    hide TokenRate;
    var s := Partner(Positive(TokenRate(inp)), POD, k);
    UniquePartner(ScaleBy(TokenRate(inp), 3600.0), POD, k, s);
  }

  lemma KeptIs(inp: Inputs, recorded: Vector, placeholder: real)
    requires UniqueOn(recorded, POD) && UniqueOn(TokenRate(inp), POD)
    ensures var kept := KeptQuotient(inp, recorded, placeholder);
            && kept.Ok?
            && (forall k :: k in kept.vector <==> k in recorded && HasTokens(inp, k))
            && (forall k :: k in kept.vector ==>
                  kept.vector[k] == Divide(placeholder)(recorded[k], TokensPerHour(inp, k)))
            && UniqueOn(kept.vector, POD)
  {
    hide TokenRate, JoinOn, RateOf, HasPartner, TokensPerHour, Divide;
    var scaled, op := ScaleBy(TokenRate(inp), 3600.0), Divide(placeholder);
    ScaledUnique(inp);
    UniqueManyGivesDistinct(recorded, scaled, POD, {}, POD);
    JoinSucceeds(recorded, scaled, POD, {}, op);
    var quotient := JoinOn(recorded, scaled, POD, {}, op).vector;
    var kept := AndOn(quotient, Positive(TokenRate(inp)), POD);
    forall l | l in Matched(recorded, scaled, POD) ensures Joined(scaled, POD, {}, l) == l {
      IncludeNothing(l, Partner(scaled, POD, l));
    }
    forall k | k in recorded && HasTokens(inp, k)
      ensures k in kept && kept[k] == op(recorded[k], TokensPerHour(inp, k))
    {
      PositivePartner(inp, k);
      assert k in Matched(recorded, scaled, POD);
      assert Joined(scaled, POD, {}, k) == k;
      assert quotient[k] == op(recorded[k], scaled[Partner(scaled, POD, k)]);
    }
  }

  lemma ScaledUnique(inp: Inputs)
    requires UniqueOn(TokenRate(inp), POD)
    ensures UniqueOn(ScaleBy(TokenRate(inp), 3600.0), POD)
  {
  }

  /**
   cost_per_token has a series for exactly those recorded cost_per_hour series
   whose pod has a positive token rate. It carries the same labels, and its
   value times the tokens of an hour is the cost of that hour. Quotients by zero
   have no influence.
   */
  lemma TokenCosts(inp: Inputs, placeholder: real)
    requires WellFormed(inp) && UniqueOn(TokenRate(inp), POD)
    ensures CostPerHour(inp).Ok? && CostPerToken(inp, CostPerHour(inp).vector, placeholder).Ok?
    ensures var r, t := CostPerHour(inp).vector, CostPerToken(inp, CostPerHour(inp).vector, placeholder).vector;
            && (forall k :: k in t <==> k in r && HasTokens(inp, k))
            && (forall k :: k in t ==> Product(t[k], TokensPerHour(inp, k)) == r[k])
  {
    hide CostPerHour, CostPerToken, BothArms, TokenRate, RateOf, HasTokens, FinalLabels;
    hide KeptQuotient, TokensPerHour, Divide, Product, PodCosts, NamedInfo;
    CostPerHourRenames(inp);
    var r := CostPerHour(inp).vector;
    RecordedUnique(inp);
    KeptIs(inp, r, placeholder);
    var kept := KeptQuotient(inp, r, placeholder).vector;
    ArmsPartition(inp, kept);
    TokenUnfolds(inp, r, placeholder);
    var t := CostPerToken(inp, r, placeholder).vector;
    forall k | k in kept ensures Final(inp)(k) == k {
      RecordedIsStable(inp, k);
    }
    StableRenaming(kept, Final(inp), t);
    forall k | k in t ensures Product(t[k], TokensPerHour(inp, k)) == r[k] {
      QuotientTimesDivisor(placeholder, r[k], TokensPerHour(inp, k));
    }
  }

  lemma StableRenaming(v: Vector, f: Labels -> Labels, w: Vector)
    requires IsRenamed(v, f, w) && forall l :: l in v ==> f(l) == l
    ensures w == v
  {
  }

  lemma QuotientTimesDivisor(placeholder: real, x: real, y: real)
    requires y != 0.0
    ensures Product(Divide(placeholder)(x, y), y) == x
  {
  }

  lemma TokenUnfolds(inp: Inputs, recorded: Vector, placeholder: real)
    requires KeptQuotient(inp, recorded, placeholder).Ok?
    ensures CostPerToken(inp, recorded, placeholder) == BothArms(KeptQuotient(inp, recorded, placeholder).vector, inp)
  {
  }
}
