/**
 The cost-patcher's loops over mutable objects: targets whose annotations are
 edited in place, an API server that merges patches, and the tick itself with its
 cached reads, each proved against its step function.
 */
module Reconciler {
  import opened Options
  import opened CostFormat
  import opened Contract
  import opened CostAnnotations
  import opened MergePatch
  import opened Gpu
  import opened TrainJob
  import opened Workloads
  import opened Ticks
  import opened CachedTicks
  import opened Lags

  /** An object as it was read from the cluster; its annotations are changed before it is sent back as a patch. */
  class Target {
    const owner: OwnerKey
    var annotations: Annotations

    constructor (owner: OwnerKey, annotations: Annotations)
      ensures this.owner == owner && this.annotations == annotations
    {
      this.owner := owner;
      this.annotations := annotations;
    }
  }

  class ApiServer {
    var live: map<OwnerKey, Annotations>
    var attempts: nat

    function State(): Store
      reads this
    {
      Store(live, attempts)
    }

    constructor (live: map<OwnerKey, Annotations>)
      ensures State() == Store(live, 0)
    {
      this.live := live;
      this.attempts := 0;
    }

    /** Reads an object from the cached state if it is of a cached kind. */
    method Get(cache: Store, owner: OwnerKey) returns (target: Target)
      ensures fresh(target) && target.owner == owner
      ensures target.annotations == if IsCached(owner) then cache.Read(owner) else State().Read(owner)
    {
      if IsCached(owner) {
        target := new Target(owner, cache.Read(owner));
      } else {
        target := new Target(owner, if owner in live then live[owner] else map[]);
      }
    }

    /**
     Sends the difference between the original annotations and the target's
     present ones as a merge patch. A patch that is accepted is merged into the
     live annotations, which may have changed since the read, and the target
     takes over the result.
     */
    method Patch(env: Env, target: Target, orig: Annotations) returns (ok: bool)
      modifies this, target
      ensures attempts == old(attempts) + 1
      ensures ok == env.patchOk(old(attempts))
      ensures ok ==>
        && live == old(live)[target.owner :=
             Sent(target.owner.kind.Type(), old(State()).Read(target.owner), orig, old(target.annotations))]
        && target.annotations == live[target.owner]
      ensures !ok ==> live == old(live) && target.annotations == old(target.annotations)
    {
      var doc := Diff(target.owner.kind.Type(), orig, target.annotations);
      ok := env.patchOk(attempts);
      attempts := attempts + 1;
      if ok {
        live := live[target.owner := Apply(if target.owner in live then live[target.owner] else map[], doc)];
        target.annotations := live[target.owner];
      }
    }

    /** Deletes the rate annotations of a target that has any. */
    method RemoveCostAnnotations(env: Env, target: Target) returns (ok: bool)
      modifies this, target
      ensures State() == RemoveFrom(env, old(State()), target.owner, old(target.annotations))
      ensures ok == (State().attempts == old(State()).attempts || env.patchOk(old(State()).attempts))
    {
      var anns := target.annotations;
      if anns.Keys !! RATE_KEYS {
        return true;
      }
      var orig := anns;
      anns := anns - RATE_KEYS;
      target.annotations := anns;
      ok := Patch(env, target, orig);
    }

    /** Writes a cost result unless the skip test finds nothing to change. */
    method PatchTargetAnnotations(env: Env, target: Target, res: CostResult) returns (ok: bool)
      modifies this, target
      ensures State() == WriteFrom(env, old(State()), target.owner, old(target.annotations), res)
      ensures ok == !(ShouldPatch(old(target.annotations), res) && !env.patchOk(old(attempts)))
      ensures ok && old(target.annotations == State().Read(target.owner)) ==>
        target.annotations == State().Read(target.owner)
    {
      hide ShouldPatch, Built, Diff, Apply;
      if !ShouldPatch(target.annotations, res) {
        return true;
      }
      var orig := target.annotations;
      var anns := target.annotations;
      var built := BuildAnnotations(res);
      anns := anns + built;
      if res.costPerToken.None? {
        anns := anns - {PerToken};
      }
      target.annotations := anns;
      ok := Patch(env, target, orig);
    }

    /** Writes the total cost of a TrainJob that has ended and does not have one. */
    method PatchTotalCostIfComplete(env: Env, target: Target, rate: real) returns (ok: bool)
      requires target.owner.kind == TrainJobKind ==> target.annotations == State().Read(target.owner)
      modifies this, target
      ensures State() == WriteTotal(env, old(State()), target.owner, rate)
    {
      hide Diff, Apply, FormatCost, Cost;
      if target.owner.kind != TrainJobKind || target.owner !in env.world.owners {
        return true;
      }
      if Lookup(target.annotations, JobTotal) != "" {
        return true;
      }
      var job := env.world.owners[target.owner].job;
      var complete, failed := TerminalState(job.conditions);
      if !complete && !failed {
        return true;
      }
      var duration := Between(job.startTime, job.completionTime);
      if duration.None? {
        duration := DurationFromConditions(job.conditions);
      }
      if duration.None? {
        return true;
      }
      var total := Cost(rate, duration.value);
      if total < 0.0 {
        total := 0.0;
      }
      var orig := target.annotations;
      target.annotations := target.annotations[JobTotal := FormatCost(total)];
      FreshRead(target.owner.kind.Type(), orig, target.annotations);
      ok := Patch(env, target, orig);
    }

    method WriteTargetCost(env: Env, target: Target, rate: real, res: CostResult) returns (ok: bool)
      requires target.owner.kind == TrainJobKind ==> target.annotations == State().Read(target.owner)
      modifies this, target
      ensures var rated := WriteFrom(env, old(State()), target.owner, old(target.annotations), res);
              State() == if ShouldPatch(old(target.annotations), res) && !env.patchOk(old(attempts)) then rated
                         else WriteTotal(env, rated, target.owner, rate)
    {
      hide WriteFrom, WriteTotal, ShouldPatch;
      ok := PatchTargetAnnotations(env, target, res);
      if ok {
        ok := PatchTotalCostIfComplete(env, target, rate);
      }
    }
  }

  /** The periodic loop body (tick) over the pods and then over the adapters that reconcile owners. */
  class CostReconciler {
    const api: ApiServer
    const adapters: seq<Adapter>

    constructor (api: ApiServer, adapters: seq<Adapter>)
      ensures this.api == api && this.adapters == adapters
    {
      this.api := api;
      this.adapters := adapters;
    }

    /** The first adapter that detects the pod. */
    method ChooseAdapter(pod: Pod) returns (chosen: Option<Adapter>)
      ensures chosen == Choose(adapters, pod)
    {
      chosen := None;
      var i := 0;
      while i < |adapters|
        invariant 0 <= i <= |adapters|
        invariant Choose(adapters, pod) == Choose(adapters[i..], pod)
      {
        if adapters[i].Detect(pod) {
          return Some(adapters[i]);
        }
        assert adapters[i..][1..] == adapters[i + 1..];
        i := i + 1;
      }
    }

    /** One pass of the pod loop; ok is false when a failed query ends the tick. */
    method VisitPod(env: Env, cache: Store, pod: Pod) returns (ok: bool)
      requires env.adapters == adapters
      modifies api
      ensures api.State() == CachedStep(env, old(api.State()), cache, pod)
      ensures ok <==> OutcomeOf(env, pod) != Abort
    {
      hide WriteFrom, RemoveFrom, WriteTotal, WriteRates, ShouldPatch, RemoveRates, Choose, Replicas;
      ghost var before := api.State();
      if pod.namespace == "" || pod.name == "" {
        return true;
      }
      var gpus := GPUCountFromPod(pod.containers, pod.initContainers);
      if gpus <= 0 {
        return true;
      }
      var chosen := ChooseAdapter(pod);
      if chosen.None? {
        return true;
      }
      var resolved := chosen.value.ResolveTarget(env.world, pod);
      if resolved.None? || resolved.value !in env.world.owners {
        return true;
      }
      var target := api.Get(cache, resolved.value);
      var hour := env.hour(pod.namespace, pod.name);
      if hour.QueryFailed? {
        return false;
      }
      if hour.NoSeries? {
        FreshRemove(env, before, target.owner);
        var _ := api.RemoveCostAnnotations(env, target);
        return true;
      }
      var token: Option<real> := None;
      if !pod.IsLoading() {
        var answer := env.token(pod.namespace, pod.name);
        if answer.QueryFailed? {
          return false;
        }
        if answer.Sample? {
          token := Some(answer.v);
        }
      }
      var replicas := Replicas(target.owner.kind, env.world.owners[target.owner]);
      var res := CostResult(Some(hour.v), token, Some(gpus), Some(replicas), env.clock(api.attempts));
      FreshWrite(env, before, target.owner, res);
      if IsCached(target.owner) {
        var rated := WriteFrom(env, before, target.owner, cache.Read(target.owner), res);
        OnlyJobsGetTotals(env, rated, target.owner, hour.v);
      }
      var _ := api.WriteTargetCost(env, target, hour.v, res);
      ok := true;
    }

    /** One round of the scale-to-zero loop; ok is false when it ends the pass. */
    method VisitService(env: Env, service: OwnerKey) returns (ok: bool)
      modifies api
      ensures api.State() == StepService(env, old(api.State()), service)
      ensures ok <==> !ServiceFails(env, old(api.State()), service)
    {
      hide WriteFrom, WriteRates, ShouldPatch, HasActivePods;
      if service.namespace == "" || service.name == "" || service !in env.world.owners {
        return true;
      }
      var ready := PredictorReadyReplicas(env.world.owners[service]);
      if ready.ReadFailed? {
        return false;
      }
      if ready.NotReported? || ready.n > 0 {
        return true;
      }
      if !env.servicePodsListed(service) {
        return false;
      }
      if HasActivePods(env.world, service) {
        return true;
      }
      var target := new Target(service, api.State().Read(service));
      FreshWrite(env, api.State(), service, ZeroResult(env.world, service, env.clock(api.attempts)));
      ok := api.PatchTargetAnnotations(env, target, ZeroResult(env.world, service, env.clock(api.attempts)));
    }

    /** Sets the cost of InferenceServices without ready replicas and without active pods to zero. */
    method ReconcileOwners(env: Env) returns (ok: bool)
      modifies api
      ensures api.State() == (if env.servicesListed then ServiceLoop(env, old(api.State()), env.world.services).store
                              else old(api.State()))
      ensures ok <==> env.servicesListed && ServiceLoop(env, old(api.State()), env.world.services).Going?
    {
      hide StepService, ServiceFails;
      if !env.servicesListed {
        return false;
      }
      var services := env.world.services;
      for i := 0 to |services|
        invariant ServiceLoop(env, old(api.State()), services[..i]) == Going(api.State())
      {
        assert services[..i + 1][..i] == services[..i];
        ok := VisitService(env, services[i]);
        if !ok {
          StoppedStaysStopped(env, old(api.State()), services, i + 1);
          return;
        }
      }
      assert services[..|services|] == services;
      ok := true;
    }

    /** The pod loop; ok is false when a failed query ended it. */
    method VisitPods(env: Env, lag: nat -> nat) returns (ok: bool)
      requires env.adapters == adapters && IsLag(lag)
      modifies api
      ensures api.State() == CachedLoop(env, old(api.State()), env.world.pods, lag)
      ensures ok <==> !Aborts(env, env.world.pods)
    {
      hide CachedStep, OutcomeOf, CachedLoop, IsHistory;
      ghost var st := api.State();
      var pods := env.world.pods;
      var seen := [api.State()];
      HistoryStarts(env, st, pods, lag);
      for i := 0 to |pods|
        invariant !Aborts(env, pods[..i])
        invariant IsHistory(env, st, pods, lag, seen) && |seen| == i + 1 && api.State() == seen[i]
      {
        ok := VisitPod(env, seen[lag(i)], pods[i]);
        HistoryGrows(env, st, pods, lag, seen, api.State());
        seen := seen + [api.State()];
        assert pods[..i + 1][i] == pods[i];
        if !ok {
          AbortedStaysAborted(env, st, pods, lag, i + 1);
          HistoryAt(env, st, pods, lag, seen);
          return;
        }
        assert forall j :: 0 <= j < i ==> pods[..i + 1][j] == pods[..i][j];
      }
      assert pods[..|pods|] == pods;
      HistoryAt(env, st, pods, lag, seen);
      ok := true;
    }

    method Tick(env: Env, lag: nat -> nat)
      requires env.adapters == adapters && IsLag(lag)
      modifies api
      ensures api.State() == CachedTick(env, old(api.State()), lag)
    {
      hide CachedLoop, ServiceLoop, Aborts;
      if !env.podsListed {
        return;
      }
      var ok := VisitPods(env, lag);
      if !ok {
        return;
      }
      ghost var visited := api.State();
      for i := 0 to |adapters|
        invariant api.State() == OwnerPass(env, visited, adapters[..i])
      {
        assert adapters[..i + 1][..i] == adapters[..i];
        if adapters[i].KServe? {
          var _ := ReconcileOwners(env);
        }
      }
      assert adapters[..|adapters|] == adapters;
    }
  }

  lemma OnlyJobsGetTotals(env: Env, st: Store, owner: OwnerKey, rate: real)
    requires owner.kind != TrainJobKind
    ensures WriteTotal(env, st, owner, rate) == st
  {
  }

  /** The states before the first pod, after it, after the second and so on. */
  ghost predicate IsHistory(env: Env, st: Store, pods: seq<Pod>, lag: nat -> nat, seen: seq<Store>)
    requires IsLag(lag)
  {
    && 0 < |seen| <= |pods| + 1
    && forall k :: 0 <= k < |seen| ==> seen[k] == CachedLoop(env, st, pods[..k], lag)
  }

  lemma HistoryStarts(env: Env, st: Store, pods: seq<Pod>, lag: nat -> nat)
    requires IsLag(lag)
    ensures IsHistory(env, st, pods, lag, [st])
  {
    hide CachedStep;
    assert pods[..0] == [];
    ZeroPods(env, st, lag);
  }

  lemma HistoryAt(env: Env, st: Store, pods: seq<Pod>, lag: nat -> nat, seen: seq<Store>)
    requires IsLag(lag) && IsHistory(env, st, pods, lag, seen)
    ensures seen[|seen| - 1] == CachedLoop(env, st, pods[..|seen| - 1], lag)
  {
    hide CachedLoop;
  }

  lemma HistoryGrows(env: Env, st: Store, pods: seq<Pod>, lag: nat -> nat, seen: seq<Store>, next: Store)
    requires IsLag(lag) && IsHistory(env, st, pods, lag, seen) && |seen| <= |pods|
    requires var i := |seen| - 1;
             !Aborts(env, pods[..i]) && next == CachedStep(env, seen[i], seen[lag(i)], pods[i])
    ensures IsHistory(env, st, pods, lag, seen + [next])
  {
    hide CachedStep, Aborts;
    var i := |seen| - 1;
    var upTo := pods[..i + 1];
    assert upTo[..i] == pods[..i] && upTo[..lag(i)] == pods[..lag(i)];
    assert next == CachedLoop(env, st, upTo, lag);
    forall k | 0 <= k < |seen| + 1 ensures (seen + [next])[k] == CachedLoop(env, st, pods[..k], lag) {
      hide CachedLoop;
      if k < |seen| {
        assert seen[k] == CachedLoop(env, st, pods[..k], lag);
      }
    }
  }

  /** Nothing happens to the store after the service that stopped the pass. */
  lemma {:induction false} StoppedStaysStopped(env: Env, st: Store, services: seq<OwnerKey>, n: nat)
    requires n <= |services| && ServiceLoop(env, st, services[..n]).Stopped?
    ensures ServiceLoop(env, st, services) == ServiceLoop(env, st, services[..n])
  {
    hide StepService, ServiceFails;
    if n == |services| {
      assert services[..n] == services;
    } else {
      var front := services[..|services| - 1];
      assert front[..n] == services[..n];
      StoppedStaysStopped(env, st, front, n);
    }
  }

  /** Nothing happens to the store after the pod whose query failed. */
  lemma {:induction false} AbortedStaysAborted(env: Env, st: Store, pods: seq<Pod>, lag: nat -> nat, n: nat)
    requires IsLag(lag) && n <= |pods| && Aborts(env, pods[..n])
    ensures Aborts(env, pods) && CachedLoop(env, st, pods, lag) == CachedLoop(env, st, pods[..n], lag)
    decreases |pods|
  {
    hide CachedStep, OutcomeOf;
    var i :| 0 <= i < n && OutcomeOf(env, pods[..n][i]) == Abort;
    assert pods[..n][i] == pods[i];
    if n == |pods| {
      assert pods[..n] == pods;
    } else {
      var front := pods[..|pods| - 1];
      assert front[..n] == pods[..n];
      AbortedStaysAborted(env, st, front, lag, n);
    }
  }
}
