/**
 From the price metric to the terminal: the recording rule, the cost-patcher's
 tick and the CLI's reader put together.
 */
module EndToEnd {
  import opened Options
  import opened CostFormat
  import opened Contract
  import opened CostAnnotations
  import opened CostReader
  import FiniteSums
  import opened Prometheus
  import opened Workloads
  import opened Ticks
  import opened TickConvergence
  import opened CachedTicks
  import opened Lags
  import PromQL
  import Rules = RecordingRules

  // ---- a tick and its reader ----

  /** Annotations that show a result are read as its costs, rounded to twelve decimals. */
  lemma ShownIsRead(anns: Annotations, res: CostResult)
    requires res.costPerHour.Some? && Shows(anns, ShownOf(res))
    ensures var r := CostAnnotationsFromMap(anns);
            && r.costPerHour == Some(Rounded(res.costPerHour.value))
            && r.costPerToken == RoundedOption(res.costPerToken)
            && (HasTotal(res) ==> r.costPerHourTotal == Some(Rounded(FleetCost(res))))
  {
    hide FormatCost, Numerals.FormatInt, TrimSpace, ParseFloat, Rounded, FleetCost;
    ReadWritten(anns, PerReplica, res.costPerHour.value);
    if res.costPerToken.Some? {
      ReadWritten(anns, PerToken, res.costPerToken.value);
    }
    if HasTotal(res) {
      ReadWritten(anns, Total, FleetCost(res));
    }
  }

  predicate ResolvesTo(env: Env, pod: Pod, owner: OwnerKey) {
    Target(env.world, env.adapters, pod) == Some(owner)
  }

  /** The pod at place i is the last one in the list that resolves to the owner. */
  ghost predicate IsLastFor(env: Env, owner: OwnerKey, i: nat) {
    var pods := env.world.pods;
    && i < |pods| && ResolvesTo(env, pods[i], owner)
    && forall j :: i < j < |pods| ==> !ResolvesTo(env, pods[j], owner)
  }

  lemma WishesResolve(env: Env, pod: Pod, owner: OwnerKey)
    requires Wishes(env, pod, owner)
    ensures ResolvesTo(env, pod, owner)
  {
    hide Target, Replicas, ShownOf;
  }

  /** The token cost that a pod's workload shall show: none while the pod is loading or without a series. */
  function TokenCost(env: Env, pod: Pod): Option<real> {
    var answer := env.token(pod.namespace, pod.name);
    if !pod.IsLoading() && answer.Sample? then Some(answer.v) else None
  }

  lemma PodWrites(env: Env, pod: Pod, owner: OwnerKey, rate: real)
    requires OutcomeOf(env, pod) != Abort && ResolvesTo(env, pod, owner)
    requires env.hour(pod.namespace, pod.name) == Sample(rate)
    ensures owner in env.world.owners && pod.namespace != "" && pod.name != ""
    ensures var n := Replicas(owner.kind, env.world.owners[owner]);
            OutcomeOf(env, pod) == Write(owner, rate, TokenCost(env, pod), pod.GPUs(), n)
    ensures Wishes(env, pod, owner)
  {
    hide Choose, Replicas, ShownOf, Walk;
    TargetIsOwner(env.world, env.adapters, pod);
  }

  /** The tick leaves on the workload what its last pod's outcome asks for. */
  lemma LastPodIsShown(env: Env, st: Store, lag: nat -> nat, owner: OwnerKey, i: nat, rate: real)
    requires PatchesSucceed(env) && NoFailures(env) && !IsZeroed(env, env.world.services, owner)
    requires IsLag(lag) && IsLastFor(env, owner, i) && ReadSuffices(env, st, env.world.pods, lag, owner, i)
    requires env.hour(env.world.pods[i].namespace, env.world.pods[i].name) == Sample(rate)
    ensures owner in env.world.owners
    ensures var pod, n := env.world.pods[i], Replicas(owner.kind, env.world.owners[owner]);
            var res := Write(owner, rate, TokenCost(env, pod), pod.GPUs(), n).Result("");
            Shows(CachedTick(env, st, lag).Read(owner), ShownOf(res))
  {
    hide CachedTick, ReadSuffices, OutcomeOf, ShownOf, Shows, LastWish, IsZeroed, ResolvesTo, TokenCost, Replicas;
    var pods := env.world.pods;
    PodWrites(env, pods[i], owner, rate);
    forall j | i < j < |pods| ensures !Wishes(env, pods[j], owner) {
      if Wishes(env, pods[j], owner) {
        WishesResolve(env, pods[j], owner);
      }
    }
    LastReadDecidesTick(env, st, lag, owner, i);
  }

  /** A pod that is not serving yet: pending, or not running while a container waits to be started. */
  predicate NotServing(pod: Pod) {
    && pod.phase != Running
    && (|| pod.phase == Pending
        || exists j :: 0 <= j < |pod.waiting| && IsStarting(pod.waiting[j]))
  }

  predicate IsStarting(reason: Option<WaitReason>) {
    reason in {Some(ContainerCreating), Some(ImagePullBackOff), Some(ErrImagePull), Some(PodInitializing)}
  }

  lemma TokenCostIs(env: Env, pod: Pod)
    ensures TokenCost(env, pod) ==
            if NotServing(pod) then None
            else match env.token(pod.namespace, pod.name) case Sample(v) => Some(v) case _ => None
  {
    assert pod.IsLoading() <==> NotServing(pod) by {
      forall j | 0 <= j < |pod.waiting|
        ensures pod.waiting[j].Some? && pod.waiting[j].value != OtherReason <==> IsStarting(pod.waiting[j])
      {
      }
    }
  }

  /** The count that the fleet cost is multiplied with: the ready replicas, or what stands in for them. */
  predicate IsFleetSize(kind: Kind, owner: Owner, n: int) {
    var ready, reported, desired := owner.readyReplicas, owner.statusReplicas, owner.specReplicas;
    if ready.Some? && ready.value > 0 then n == ready.value
    else if kind == DeploymentKind || kind == StatefulSetKind then
      n == if desired.Some? then desired.value else 1
    else if reported.Some? && reported.value > 0 then n == reported.value
    else n == if desired.Some? && desired.value > 0 then desired.value else 1
  }

  lemma ReplicasAreFleetSize(kind: Kind, owner: Owner)
    ensures IsFleetSize(kind, owner, Replicas(kind, owner))
  {
    hide Replicas;
    if kind == DeploymentKind || kind == StatefulSetKind {
      TypedReplicas(kind, owner);
    } else {
      UnstructuredReplicas(kind, owner);
    }
  }

  /**
   After a tick without failures the CLI reads, for a workload that is not
   scaled to zero, the costs that Prometheus gave for the last of its pods: no
   token cost while that pod is not serving, and the fleet cost by the workload's
   ready replicas, or what stands in for them. The GPU count is that pod's. A
   Deployment or StatefulSet may have been read from a lagging cache if the last
   pod's read missed nothing.
   */
  lemma CliReadsLastPod(env: Env, st: Store, lag: nat -> nat, owner: OwnerKey, i: nat, rate: real, n: int)
    requires PatchesSucceed(env) && NoFailures(env) && !IsZeroed(env, env.world.services, owner)
    requires IsLag(lag) && IsLastFor(env, owner, i) && ReadSuffices(env, st, env.world.pods, lag, owner, i)
    requires env.hour(env.world.pods[i].namespace, env.world.pods[i].name) == Sample(rate)
    requires owner in env.world.owners ==> IsFleetSize(owner.kind, env.world.owners[owner], n)
    ensures owner in env.world.owners
    ensures var anns, pod := CachedTick(env, st, lag).Read(owner), env.world.pods[i];
            var r := CostAnnotationsFromMap(anns);
            && r.costPerHour == Some(Rounded(rate))
            && r.costPerToken == (
                 if NotServing(pod) then None
                 else match env.token(pod.namespace, pod.name) case Sample(v) => Some(Rounded(v)) case _ => None)
            && (n > 0 ==> r.costPerHourTotal == Some(Rounded(rate * n as real)))
            && Lookup(anns, GpuCount) == Numerals.FormatInt(Gpu.PodCount(pod.containers, pod.initContainers))
  {
    hide CachedTick, ReadSuffices, CostAnnotationsFromMap, Rounded, IsZeroed, ResolvesTo, TokenCost, Replicas;
    hide FormatCost, Numerals.FormatInt, Gpu.PodCount, NotServing, IsFleetSize, Times;
    var pod, anns := env.world.pods[i], CachedTick(env, st, lag).Read(owner);
    LastPodIsShown(env, st, lag, owner, i, rate);
    TokenCostIs(env, pod);
    var count := Replicas(owner.kind, env.world.owners[owner]);
    ReplicasAreFleetSize(owner.kind, env.world.owners[owner]);
    OneFleetSize(owner.kind, env.world.owners[owner], n, count);
    TimesIs(rate, n);
    ShownIsRead(anns, Write(owner, rate, TokenCost(env, pod), pod.GPUs(), n).Result(""));
  }

  lemma OneFleetSize(kind: Kind, owner: Owner, m: int, n: int)
    requires IsFleetSize(kind, owner, m) && IsFleetSize(kind, owner, n)
    ensures m == n
  {
  }

  lemma TimesIs(rate: real, n: int)
    ensures Times(rate, n) == rate * n as real
  {
  }

  /** After a tick without failures the CLI reads zero cost for an InferenceService that is scaled to zero. */
  lemma CliReadsZero(env: Env, st: Store, lag: nat -> nat, service: OwnerKey)
    requires PatchesSucceed(env) && NoFailures(env) && IsLag(lag) && KServe in env.adapters
    requires service in env.world.services && IsScaledToZero(env.world, service)
    ensures service in env.world.owners
    ensures var anns := CachedTick(env, st, lag).Read(service);
            var r, n := CostAnnotationsFromMap(anns), env.world.owners[service].specGPUs;
            && r.costPerHour == Some(0.0) && r.costPerToken == None
            && (n > 0 ==> Lookup(anns, GpuCount) == Numerals.FormatInt(n))
  {
    assert service in env.world.owners;
    hide CachedLoop, OwnerPass, CostAnnotationsFromMap, Rounded, IsScaledToZero, Aborts, FormatCost;
    hide Numerals.FormatInt;
    var mid := CachedLoop(env, st, env.world.pods, lag);
    OwnerPassShows(env, mid, env.adapters);
    var services := env.world.services;
    var i :| 0 <= i < |services| && services[i] == service;
    assert ServiceFulfilled(env, OwnerPass(env, mid, env.adapters), services[i]);
    ZeroIsZero();
    ShownIsRead(CachedTick(env, st, lag).Read(service), ZeroResult(env.world, service, ""));
  }

  lemma ZeroIsZero()
    ensures Rounded(0.0) == 0.0
  {
  }

  // ---- the rule's series and the tick's query ----

  ghost predicate IsSeriesOf(k: PromQL.Labels, namespace: string, name: string) {
    PromQL.Get(k, PromQL.Namespace) == namespace && PromQL.Get(k, PromQL.PodName) == name
  }

  /** The instant query kubefisher:cost_per_hour{namespace=...,pod=...} on the recorded series. */
  ghost function QueryHour(v: PromQL.Vector, namespace: string, name: string): Query {
    if k :| k in v && IsSeriesOf(k, namespace, name) then Sample(v[k]) else NoSeries
  }

  function PodId(namespace: string, name: string): PromQL.Labels {
    map[PromQL.Namespace := namespace, PromQL.PodName := name]
  }

  lemma SeriesOfPod(k: PromQL.Labels, namespace: string, name: string)
    requires namespace != "" && name != ""
    ensures IsSeriesOf(k, namespace, name) <==> PromQL.Project(k, Rules.POD) == PodId(namespace, name)
  {
    hide FiniteSums.Tabulate;
    var id := PodId(namespace, name);
    assert PromQL.Project(id, Rules.POD) == id;
    if IsSeriesOf(k, namespace, name) {
      PromQL.SameGets(k, id, Rules.POD);
    }
    if PromQL.Project(k, Rules.POD) == id {
      PromQL.SameSignature(k, id, Rules.POD, PromQL.Namespace);
      PromQL.SameSignature(k, id, Rules.POD, PromQL.PodName);
    }
  }

  /** The query finds the pod's one series, or none when the pod has no limit or no price. */
  lemma QueryFindsPodCost(inp: Rules.Inputs, namespace: string, name: string)
    requires Rules.WellFormed(inp) && namespace != "" && name != ""
    ensures Rules.CostPerHour(inp).Ok?
    ensures QueryHour(Rules.CostPerHour(inp).vector, namespace, name) ==
            (if PodId(namespace, name) in Rules.PodCosts(inp) then Sample(Rules.PodCosts(inp)[PodId(namespace, name)])
             else NoSeries)
  {
    hide Rules.CostPerHour, Rules.WellFormed, Rules.FinalLabels, Rules.PriceOf, Rules.IsPriced;
    hide IsSeriesOf, PodId, PromQL.Project, FiniteSums.Total;
    var id := PodId(namespace, name);
    Rules.CostPerHourRenames(inp);
    var v := Rules.CostPerHour(inp).vector;
    forall k ensures IsSeriesOf(k, namespace, name) <==> PromQL.Project(k, Rules.POD) == id {
      SeriesOfPod(k, namespace, name);
    }
    Rules.PodCostsKeys(inp);
    if id in Rules.PodCosts(inp) {
      Rules.OneSeriesPerPod(inp, id);
      assert Rules.FinalLabels(inp, id) in v;
    } else {
      forall k | k in v ensures !IsSeriesOf(k, namespace, name) {
        Rules.OnlyPricedPods(inp, k);
      }
    }
  }

  /** The tick's cost queries are answered from what the recording rule records. */
  ghost predicate AnsweredByRule(inp: Rules.Inputs, env: Env) {
    && Rules.CostPerHour(inp).Ok?
    && forall namespace, name :: env.hour(namespace, name) == QueryHour(Rules.CostPerHour(inp).vector, namespace, name)
  }

  /**
   End to end: what the CLI shows per replica for a workload is the GPU limits of
   its last pod times the price of that pod's node, rounded to twelve decimals.
   */
  lemma CliShowsLimitsTimesPrice(inp: Rules.Inputs, env: Env, st: Store, lag: nat -> nat, owner: OwnerKey, i: nat)
    requires Rules.WellFormed(inp) && AnsweredByRule(inp, env)
    requires PatchesSucceed(env) && NoFailures(env) && !IsZeroed(env, env.world.services, owner)
    requires IsLag(lag) && IsLastFor(env, owner, i) && ReadSuffices(env, st, env.world.pods, lag, owner, i)
    requires PodId(env.world.pods[i].namespace, env.world.pods[i].name) in Rules.PricedPods(inp)
    ensures var id := PodId(env.world.pods[i].namespace, env.world.pods[i].name);
            CostAnnotationsFromMap(CachedTick(env, st, lag).Read(owner)).costPerHour ==
            Some(Rounded(PromQL.Product(FiniteSums.Total(Rules.PodLimits(inp, id)), Rules.PriceOf(inp, id))))
  {
    hide CachedTick, ReadSuffices, CostAnnotationsFromMap, Rounded, IsZeroed, ResolvesTo, PodId, Replicas, IsFleetSize;
    hide Rules.WellFormed, Rules.CostPerHour, Rules.IsPriced, Rules.PriceOf, QueryHour;
    hide PromQL.Product, FiniteSums.Total;
    var pod := env.world.pods[i];
    ResolvedIsNamed(env, pod, owner);
    QueryFindsPodCost(inp, pod.namespace, pod.name);
    Rules.PodCostsKeys(inp);
    var cost := Rules.PodCosts(inp)[PodId(pod.namespace, pod.name)];
    ReplicasAreFleetSize(owner.kind, env.world.owners[owner]);
    CliReadsLastPod(env, st, lag, owner, i, cost, Replicas(owner.kind, env.world.owners[owner]));
  }

  lemma ResolvedIsNamed(env: Env, pod: Pod, owner: OwnerKey)
    requires ResolvesTo(env, pod, owner)
    ensures pod.namespace != "" && pod.name != "" && owner in env.world.owners
  {
    TargetIsOwner(env.world, env.adapters, pod);
    hide Choose;
  }
}
