/**
 The laws of the recording rules in terms of single series and their labels: what
 is recorded for a pod, under which labels, and at which token cost.
 */
module CostLaws {
  import opened FiniteSums
  import opened PromQL
  import opened RecordingRules

  predicate SamePod(a: Labels, b: Labels) {
    Get(a, Namespace) == Get(b, Namespace) && Get(a, PodName) == Get(b, PodName)
  }

  /** The GPU limits of the containers of a pod. */
  ghost function LimitsOf(inp: Inputs, pod: Labels): Vector {
    inp.limits - set l | l in inp.limits && !SamePod(l, pod)
  }

  lemma LimitsAre(inp: Inputs, l: Labels)
    ensures LimitsOf(inp, l) == PodLimits(inp, Project(l, POD))
  {
    forall m ensures SamePod(m, l) <==> Project(m, POD) == Project(l, POD) {
      SamePodGets(m, l);
    }
    hide Project;
  }

  /** The pod of a limit l runs, by the series i, on the node that the price q is for. */
  lemma IsPricedPod(inp: Inputs, l: Labels, i: Labels, q: Labels)
    requires WellFormed(inp) && l in inp.limits && SamePod(l, i)
    requires i in inp.info && Get(i, NodeName) != "" && Get(i, Namespace) != "" && Get(i, PodName) != ""
    requires q in inp.prices && Get(q, NodeName) == Get(i, NodeName)
    ensures Project(i, POD) in PricedPods(inp) && PriceOf(inp, Project(i, POD)) == inp.prices[q]
  {
    hide WellFormed, Project;
    var pod := Project(i, POD);
    SamePodGets(l, i);
    assert By(POD)(l) == pod;
    assert PricedBy(inp, pod, i, q);
    forall i', q' | PricedBy(inp, pod, i', q') ensures q' == q {
      OnePricePerPod(inp, pod, i, q, i', q');
    }
  }

  /**
   A pod with a GPU limit, an entry in kube_pod_info that names its namespace, its
   name and its node, and a price for this node has exactly one recorded series:
   its value is the sum of the pod's limits times that price.
   */
  lemma PricedPodIsRecorded(inp: Inputs, l: Labels, i: Labels, q: Labels)
    requires WellFormed(inp) && l in inp.limits
    requires i in inp.info && Get(i, NodeName) != "" && Get(i, Namespace) != "" && Get(i, PodName) != ""
    requires Get(l, Namespace) == Get(i, Namespace) && Get(l, PodName) == Get(i, PodName)
    requires q in inp.prices && Get(q, NodeName) == Get(i, NodeName)
    ensures CostPerHour(inp).Ok?
    ensures exists k ::
              && k in CostPerHour(inp).vector && SamePod(k, i)
              && (forall other :: other in CostPerHour(inp).vector && SamePod(other, i) ==> other == k)
              && CostPerHour(inp).vector[k] == Total(LimitsOf(inp, i)) * inp.prices[q]
  {
    hide WellFormed, Project, CostPerHour, FinalLabels, Total, PriceOf, IsPriced, LimitsOf;
    var pod := Project(i, POD);
    IsPricedPod(inp, l, i, q);
    OneSeriesPerPod(inp, pod);
    LimitsAre(inp, i);
    var v, k := CostPerHour(inp).vector, FinalLabels(inp, pod);
    PodIsOwnPod(inp, pod);
    FinalKeepsPod(inp, pod);
    forall other ensures SamePod(other, i) <==> Project(other, POD) == pod {
      SamePodGets(other, i);
    }
    assert k in v && v[k] == Total(LimitsOf(inp, i)) * inp.prices[q];
  }

  lemma PodIsOwnPod(inp: Inputs, pod: Labels)
    requires pod in PricedPods(inp)
    ensures Project(pod, POD) == pod
  {
    PodCostsUnique(inp);
    PodCostsKeys(inp);
  }

  /** Every recorded series belongs to such a pod. */
  lemma RecordedPodIsPriced(inp: Inputs, k: Labels) returns (l: Labels, i: Labels, q: Labels)
    requires WellFormed(inp) && CostPerHour(inp).Ok? && k in CostPerHour(inp).vector
    ensures l in inp.limits && SamePod(l, k)
    ensures i in inp.info && Get(i, NodeName) != "" && Get(i, Namespace) != "" && Get(i, PodName) != "" && SamePod(i, k)
    ensures q in inp.prices && Get(q, NodeName) == Get(i, NodeName)
  {
    hide WellFormed, Project, CostPerHour;
    OnlyPricedPods(inp, k);
    var pod := Project(k, POD);
    l :| l in inp.limits && By(POD)(l) == pod;
    i, q :| PricedBy(inp, pod, i, q);
    SamePodGets(l, k);
    SamePodGets(i, k);
  }

  // ---- the labels ----

  lemma PodHasOnlyIds(inp: Inputs, pod: Labels, name: Name)
    requires pod in PricedPods(inp) && name != Namespace && name != PodName
    ensures Get(pod, name) == ""
  {
    hide IsPriced;
    var l :| l in inp.limits && By(POD)(l) == pod;
  }

  /** The pod whose series k is. */
  lemma PodOfSeries(inp: Inputs, k: Labels) returns (pod: Labels)
    requires WellFormed(inp) && CostPerHour(inp).Ok? && k in CostPerHour(inp).vector
    ensures pod in PricedPods(inp) && FinalLabels(inp, pod) == k && SamePod(pod, k)
  {
    hide CostPerHour, FinalLabels, WellFormed, IsPriced, PriceOf, Project;
    CostPerHourRenames(inp);
    PodCostsKeys(inp);
    pod :| pod in PodCosts(inp) && Final(inp)(pod) == k;
    FinalKeepsPod(inp, pod);
    SamePodGets(pod, k);
  }

  function OrDefault(v: string): string {
    if v == "" then "unlabeled" else v
  }

  /** A series whose pod has the kube_pod_labels entry pl. */
  lemma LabelWithEntry(inp: Inputs, k: Labels, pl: Labels, name: Name)
    requires WellFormed(inp) && CostPerHour(inp).Ok? && k in CostPerHour(inp).vector
    requires pl in inp.podLabels && SamePod(pl, k)
    requires name != Namespace && name != PodName
    ensures Get(k, name) ==
            match name
            case Model => OrDefault(Get(pl, LabelModel))
            case Platform => OrDefault(Get(pl, LabelPlatform))
            case Team => OrDefault(Get(pl, LabelTeam))
            case LabelModel | LabelPlatform | LabelTeam => Get(pl, name)
            case _ => ""
  {
    hide CostPerHour, FinalLabels, Get, Project, WellFormed, HasPartner, PricedPods, Canonical;
    var pod := PodOfSeries(inp, k);
    EntryIsPartner(inp, pod, pl);
    FinalGets(inp, pod, name);
    PodHasOnlyIds(inp, pod, name);
  }

  lemma EntryIsPartner(inp: Inputs, pod: Labels, pl: Labels)
    requires WellFormed(inp) && pl in inp.podLabels && SamePod(pl, pod)
    ensures HasPartner(inp.podLabels, POD, pod) && Partner(inp.podLabels, POD, pod) == pl
  {
    hide Project;
    SamePodGets(pl, pod);
    UniquePartner(inp.podLabels, POD, pod, pl);
  }

  /** A series whose pod has none. */
  lemma LabelWithoutEntry(inp: Inputs, k: Labels, name: Name)
    requires WellFormed(inp) && CostPerHour(inp).Ok? && k in CostPerHour(inp).vector
    requires forall pl :: pl in inp.podLabels ==> !SamePod(pl, k)
    requires name != Namespace && name != PodName
    ensures Get(k, name) == if name == Model || name == Platform || name == Team then "unlabeled" else ""
  {
    var pod := PodOfSeries(inp, k);
    hide CostPerHour, FinalLabels, Get, Project;
    forall pl | pl in inp.podLabels ensures Project(pl, POD) != Project(pod, POD) {
      SamePodGets(pl, pod);
    }
    assert !HasPartner(inp.podLabels, POD, pod);
    hide WellFormed, HasPartner;
    FinalGets(inp, pod, name);
    PodHasOnlyIds(inp, pod, name);
  }

  /**
   The labels of a recorded series: the pod's namespace and name; model, platform
   and team as its kube_pod_labels entry says, "unlabeled" where the entry or the
   label is missing; the three labels of the entry itself; and no others.
   */
  lemma RecordedLabels(inp: Inputs, k: Labels)
    requires WellFormed(inp) && CostPerHour(inp).Ok? && k in CostPerHour(inp).vector
    ensures forall pl | pl in inp.podLabels && SamePod(pl, k) ::
              && Get(k, Model) == OrDefault(Get(pl, LabelModel)) && Get(k, LabelModel) == Get(pl, LabelModel)
              && Get(k, Platform) == OrDefault(Get(pl, LabelPlatform))
              && Get(k, LabelPlatform) == Get(pl, LabelPlatform)
              && Get(k, Team) == OrDefault(Get(pl, LabelTeam)) && Get(k, LabelTeam) == Get(pl, LabelTeam)
    ensures (forall pl :: pl in inp.podLabels ==> !SamePod(pl, k)) ==>
              && Get(k, Model) == Get(k, Platform) == Get(k, Team) == "unlabeled"
              && Get(k, LabelModel) == Get(k, LabelPlatform) == Get(k, LabelTeam) == ""
    ensures forall name ::
              name !in {Namespace, PodName, Model, Platform, Team, LabelModel, LabelPlatform, LabelTeam} ==>
                Get(k, name) == ""
  {
    hide CostPerHour, WellFormed, Get, SamePod, OrDefault;
    if pl :| pl in inp.podLabels && SamePod(pl, k) {
      forall pl | pl in inp.podLabels && SamePod(pl, k)
        ensures Get(k, Model) == OrDefault(Get(pl, LabelModel)) && Get(k, LabelModel) == Get(pl, LabelModel)
        ensures Get(k, Platform) == OrDefault(Get(pl, LabelPlatform))
        ensures Get(k, LabelPlatform) == Get(pl, LabelPlatform)
        ensures Get(k, Team) == OrDefault(Get(pl, LabelTeam)) && Get(k, LabelTeam) == Get(pl, LabelTeam)
      {
        LabelWithEntry(inp, k, pl, Model);
        LabelWithEntry(inp, k, pl, LabelModel);
        LabelWithEntry(inp, k, pl, Platform);
        LabelWithEntry(inp, k, pl, LabelPlatform);
        LabelWithEntry(inp, k, pl, Team);
        LabelWithEntry(inp, k, pl, LabelTeam);
      }
      forall name | name !in {Namespace, PodName, Model, Platform, Team, LabelModel, LabelPlatform, LabelTeam}
        ensures Get(k, name) == ""
      {
        LabelWithEntry(inp, k, pl, name);
      }
    } else {
      forall name | name != Namespace && name != PodName
        ensures Get(k, name) == if name == Model || name == Platform || name == Team then "unlabeled" else ""
      {
        LabelWithoutEntry(inp, k, name);
      }
    }
  }

  // ---- the token cost ----

  /** No two pairs of prompt and generation rate are for the same pod. */
  ghost predicate OneRatePerPod(inp: Inputs) {
    forall p, g ::
      && p in inp.promptRate && p in inp.generationRate && g in inp.promptRate && g in inp.generationRate
      && SamePod(p, g)
      ==> p == g
  }

  lemma RatesAreUnique(inp: Inputs)
    requires OneRatePerPod(inp)
    ensures UniqueOn(TokenRate(inp), POD)
  {
    forall p, g | p in TokenRate(inp) && g in TokenRate(inp) && Project(p, POD) == Project(g, POD) ensures p == g {
      SamePodGets(p, g);
    }
  }

  /** A recorded series has tokens exactly when its pod's two rates add up to more than zero. */
  lemma TokensOfSeries(inp: Inputs, k: Labels, p: Labels)
    requires OneRatePerPod(inp) && p in inp.promptRate && p in inp.generationRate && SamePod(p, k)
    ensures HasTokens(inp, k) <==> inp.promptRate[p] + inp.generationRate[p] > 0.0
    ensures HasTokens(inp, k) ==>
              TokensPerHour(inp, k) == (inp.promptRate[p] + inp.generationRate[p]) * 3600.0
  {
    SamePodGets(p, k);
    var positive := Positive(TokenRate(inp));
    hide Project;
    if HasTokens(inp, k) {
      var s := Partner(positive, POD, k);
      SamePodGets(s, p);
      assert s == p;
    }
    if inp.promptRate[p] + inp.generationRate[p] > 0.0 {
      assert IsPartner(positive, POD, k, p);
    }
  }

  lemma TokensHaveRates(inp: Inputs, k: Labels) returns (p: Labels)
    requires HasTokens(inp, k)
    ensures p in inp.promptRate && p in inp.generationRate && SamePod(p, k)
  {
    p := Partner(Positive(TokenRate(inp)), POD, k);
    SamePodGets(p, k);
    hide Project;
  }

  /**
   cost_per_token has a series for exactly those recorded cost_per_hour series whose
   pod has a prompt rate and a generation rate under the same labels that add up to
   more than zero; and its value times the tokens of an hour, both kinds together,
   is the cost of that hour.
   */
  lemma TokenCostLaw(inp: Inputs, placeholder: real)
    requires WellFormed(inp) && OneRatePerPod(inp)
    ensures CostPerHour(inp).Ok? && CostPerToken(inp, CostPerHour(inp).vector, placeholder).Ok?
    ensures var r, t := CostPerHour(inp).vector, CostPerToken(inp, CostPerHour(inp).vector, placeholder).vector;
            && (forall k :: k in t <==> k in r && HasRates(inp, k))
            && (forall k, p :: k in t && p in inp.promptRate && p in inp.generationRate && SamePod(p, k) ==>
                  t[k] * ((inp.promptRate[p] + inp.generationRate[p]) * 3600.0) == r[k])
  {
    hide CostPerHour, CostPerToken, WellFormed, TokenRate, HasTokens, TokensPerHour, SamePod, Product, OneRatePerPod;
    hide HasRates;
    RatesAreUnique(inp);
    TokenCosts(inp, placeholder);
    var r, t := CostPerHour(inp).vector, CostPerToken(inp, CostPerHour(inp).vector, placeholder).vector;
    forall k ensures HasTokens(inp, k) <==> HasRates(inp, k) {
      TokensIffRates(inp, k);
    }
    forall k, p | k in t && p in inp.promptRate && p in inp.generationRate && SamePod(p, k)
      ensures t[k] * ((inp.promptRate[p] + inp.generationRate[p]) * 3600.0) == r[k]
    {
      TimesTokens(inp, k, p, t[k]);
    }
  }

  lemma TimesTokens(inp: Inputs, k: Labels, p: Labels, cost: real)
    requires OneRatePerPod(inp) && p in inp.promptRate && p in inp.generationRate && SamePod(p, k) && HasTokens(inp, k)
    ensures Product(cost, TokensPerHour(inp, k)) == cost * ((inp.promptRate[p] + inp.generationRate[p]) * 3600.0)
  {
    hide HasTokens, TokensPerHour, SamePod;
    TokensOfSeries(inp, k, p);
  }

  /** Some pair of rates of the pod adds up to more than zero. */
  ghost predicate HasRates(inp: Inputs, k: Labels) {
    exists p ::
      && p in inp.promptRate && p in inp.generationRate && SamePod(p, k)
      && inp.promptRate[p] + inp.generationRate[p] > 0.0
  }

  lemma TokensIffRates(inp: Inputs, k: Labels)
    requires OneRatePerPod(inp)
    ensures HasTokens(inp, k) <==> HasRates(inp, k)
  {
    hide HasTokens, SamePod, TokensPerHour;
    if HasTokens(inp, k) {
      var p := TokensHaveRates(inp, k);
      TokensOfSeries(inp, k, p);
    }
    if HasRates(inp, k) {
      var p :|
        && p in inp.promptRate && p in inp.generationRate && SamePod(p, k)
        && inp.promptRate[p] + inp.generationRate[p] > 0.0;
      TokensOfSeries(inp, k, p);
    }
  }

  // ---- what else makes the evaluation fail ----

  /** Some container with a GPU limit has a pod that kube_pod_info knows. */
  predicate IsPlaced(inp: Inputs, l: Labels, i: Labels) {
    && l in inp.limits && i in inp.info && SamePod(l, i)
    && Get(i, NodeName) != "" && Get(i, Namespace) != "" && Get(i, PodName) != ""
  }

  lemma PlacedHasPartner(inp: Inputs, l: Labels, i: Labels)
    requires IsPlaced(inp, l, i)
    ensures HasPartner(Hosts(inp), POD, l) && Hosts(inp) != map[]
  {
    hide Project, Maximum;
    var h := By(HOST)(i);
    assert i in NamedInfo(inp) && h in Hosts(inp);
    ProjectProject(i, POD, HOST);
    SamePodGets(l, i);
    assert IsPartner(Hosts(inp), POD, l, h);
  }

  /** Two limits of a placed pod that differ in the node label only collide in the first join. */
  lemma EqualLimitsFail(inp: Inputs, l: Labels, m: Labels, i: Labels)
    requires IsPlaced(inp, l, i) && m in inp.limits && l != m && l - {NodeName} == m - {NodeName}
    ensures CostPerHour(inp) == Error
  {
    PlacedHasPartner(inp, l, i);
    if UniqueOn(Hosts(inp), POD) {
      LimitsCollide(inp, l, m);
    }
    hide Hosts, UniqueOn, ResultsDistinct, HasPartner;
    AmbiguousLimits(inp);
  }

  lemma AmbiguousLimits(inp: Inputs)
    requires inp.limits != map[] && Hosts(inp) != map[]
    requires !UniqueOn(Hosts(inp), POD) || !ResultsDistinct(inp.limits, Hosts(inp), POD, {NodeName})
    ensures CostPerHour(inp) == Error
  {
    hide Hosts, UniqueOn, ResultsDistinct;
  }

  lemma LimitsCollide(inp: Inputs, l: Labels, m: Labels)
    requires l in inp.limits && m in inp.limits && l != m && l - {NodeName} == m - {NodeName}
    requires UniqueOn(Hosts(inp), POD) && HasPartner(Hosts(inp), POD, l)
    ensures !ResultsDistinct(inp.limits, Hosts(inp), POD, {NodeName})
  {
    hide Project, Hosts, UniqueOn, HasPartner;
    var hosts := Hosts(inp);
    LimitsOfOnePod(l, m);
    SamePartners(hosts, l, m);
    assert l in Matched(inp.limits, hosts, POD) && m in Matched(inp.limits, hosts, POD);
    assert Joined(hosts, POD, {NodeName}, l) == Joined(hosts, POD, {NodeName}, m);
  }

  lemma LimitsOfOnePod(l: Labels, m: Labels)
    requires l - {NodeName} == m - {NodeName}
    ensures Project(l, POD) == Project(m, POD)
  {
    forall name | name in POD ensures Get(l, name) == Get(m, name) {
      assert name in l <==> name in l - {NodeName};
      assert name in m <==> name in m - {NodeName};
    }
    SamePodGets(l, m);
  }

  /** Two prices for one node make the second join ambiguous as soon as any pod is placed. */
  lemma TwoPricesFail(inp: Inputs, p: Labels, q: Labels, l: Labels, i: Labels)
    requires IsPlaced(inp, l, i) && WellFormed(inp.(prices := map[]))
    requires p in inp.prices && q in inp.prices && p != q && Get(p, NodeName) == Get(q, NodeName)
    ensures CostPerHour(inp) == Error
  {
    var free := inp.(prices := map[]);
    SomePodOnNode(free, l, i);
    SameHosts(inp, free);
    SameGets(p, q, {NodeName});
    hide Project, WellFormed, Hosts, Total, SumBy, HasPartner, IsJoin, PerNode;
    assert Placed(inp) == Placed(free);
    assert !UniqueOn(inp.prices, {NodeName});
    hide UniqueOn;
    AmbiguousPrices(inp);
  }

  lemma AmbiguousPrices(inp: Inputs)
    requires Placed(inp).Ok? && SumBy(Placed(inp).vector, HOST) != map[]
    requires inp.prices != map[] && !UniqueOn(inp.prices, {NodeName})
    ensures CostPerHour(inp) == Error
  {
    hide SumBy, UniqueOn, ResultsDistinct, Hosts;
  }

  lemma SomePodOnNode(inp: Inputs, l: Labels, i: Labels)
    requires IsPlaced(inp, l, i) && WellFormed(inp)
    ensures Placed(inp).Ok? && SumBy(Placed(inp).vector, HOST) != map[]
  {
    hide Project, WellFormed, Hosts, Total, SumBy, HasPartner, Placed;
    PlacedHasPartner(inp, l, i);
    PlacedIs(inp);
    assert l in Matched(inp.limits, Hosts(inp), POD);
    var placed := Placed(inp).vector;
    assert Joined(Hosts(inp), POD, {NodeName}, l) in placed;
    SomeGroup(placed);
  }

  lemma SameHosts(a: Inputs, b: Inputs)
    requires a.info == b.info
    ensures Hosts(a) == Hosts(b)
  {
  }

  lemma SomeGroup(v: Vector)
    requires v != map[]
    ensures SumBy(v, HOST) != map[]
  {
    var l :| l in v;
    assert By(HOST)(l) in Image(v, By(HOST));
    hide Project;
  }

  /** Two kube_pod_labels entries for one pod make the last join ambiguous as soon as any pod is priced. */
  lemma TwoEntriesFail(inp: Inputs, p: Labels, q: Labels, l: Labels, i: Labels, price: Labels)
    requires IsPlaced(inp, l, i) && WellFormed(inp.(podLabels := map[]))
    requires price in inp.prices && Get(price, NodeName) == Get(i, NodeName)
    requires p in inp.podLabels && q in inp.podLabels && p != q && SamePod(p, q)
    ensures CostPerHour(inp) == Error
  {
    var free := inp.(podLabels := map[]);
    SomePricedPod(free, l, i, price);
    SameGpuCost(inp, free);
    SamePodGets(p, q);
    hide WellFormed, Project, PodCosts, GpuCost;
    assert !UniqueOn(inp.podLabels, POD);
    hide UniqueOn;
    AmbiguousEntries(inp, PodCosts(free));
  }

  lemma AmbiguousEntries(inp: Inputs, costs: Vector)
    requires GpuCost(inp) == Ok(costs) && costs != map[] && inp.podLabels != map[] && !UniqueOn(inp.podLabels, POD)
    ensures CostPerHour(inp) == Error
  {
    hide GpuCost, UniqueOn, ResultsDistinct, LabelReplaceAll;
  }

  lemma SomePricedPod(inp: Inputs, l: Labels, i: Labels, price: Labels)
    requires IsPlaced(inp, l, i) && WellFormed(inp)
    requires price in inp.prices && Get(price, NodeName) == Get(i, NodeName)
    ensures GpuCost(inp) == Ok(PodCosts(inp)) && PodCosts(inp) != map[]
  {
    GpuCostIsPodCosts(inp);
    IsPricedPod(inp, l, i, price);
    PodCostsKeys(inp);
    hide WellFormed, Project, PodCosts, Hosts, IsPriced, PriceOf, GpuCost;
  }

  lemma SameGpuCost(a: Inputs, b: Inputs)
    requires a == b.(podLabels := a.podLabels)
    ensures GpuCost(a) == GpuCost(b)
  {
    SameHosts(a, b);
    hide Hosts, SumBy, JoinOn;
  }
}
