/**
 What a tick without failures leaves on the workloads, and exactly when the next
 tick over the same inputs has nothing left to patch.
 */
module TickConvergence {
  import opened Options
  import opened Numerals
  import opened CostFormat
  import opened Contract
  import opened CostAnnotations
  import opened Prometheus
  import opened Gpu
  import opened TrainJob
  import opened Workloads
  import opened Ticks
  import opened TickInvariants

  /** What the annotations show apart from the time stamp; no total and no GPU count means: whatever was there. */
  datatype Shown = Gone | Rates(perReplica: string, total: Option<string>, token: Option<string>, gpus: Option<string>)

  predicate Holds(anns: Annotations, key: Key, v: string) {
    key in anns && anns[key] == v
  }

  predicate Shows(anns: Annotations, s: Shown) {
    match s
    case Gone => anns.Keys !! RATE_KEYS
    case Rates(perReplica, total, token, gpus) =>
      && Holds(anns, PerReplica, perReplica)
      && Holds(anns, PerHour, perReplica)
      && (total.Some? ==> Holds(anns, Total, total.value))
      && (if token.Some? then Holds(anns, PerToken, token.value) else PerToken !in anns)
      && (gpus.Some? ==> Holds(anns, GpuCount, gpus.value))
  }

  function Printed(v: Option<real>): Option<string> {
    if v.Some? then Some(FormatCost(v.value)) else None
  }

  function ShownOf(res: CostResult): Shown
    requires res.costPerHour.Some?
  {
    Rates(
      FormatCost(res.costPerHour.value),
      if HasTotal(res) then Some(FormatCost(FleetCost(res))) else None,
      Printed(res.costPerToken),
      if res.gpuCount.Some? then Some(FormatInt(res.gpuCount.value)) else None)
  }

  /** The workload a pod's costs go to and what they shall look like there. */
  function Wish(env: Env, pod: Pod): Option<(OwnerKey, Shown)> {
    match OutcomeOf(env, pod)
    case PassOver => None
    case Abort => None
    case Remove(owner) => Some((owner, Gone))
    case Write(owner, _, _, _, _) => Some((owner, ShownOf(OutcomeOf(env, pod).Result(""))))
  }

  predicate Wishes(env: Env, pod: Pod, owner: OwnerKey) {
    Wish(env, pod).Some? && Wish(env, pod).value.0 == owner
  }

  /** The wish of the last pod in the list that has one for the owner. */
  function LastWish(env: Env, pods: seq<Pod>, owner: OwnerKey): Option<Shown> {
    if pods == [] then None
    else if Wishes(env, pods[|pods| - 1], owner) then Some(Wish(env, pods[|pods| - 1]).value.1)
    else LastWish(env, pods[..|pods| - 1], owner)
  }

  ghost predicate PatchesSucceed(env: Env) {
    forall n :: env.patchOk(n)
  }

  // ---- a wish and the skip test ----

  lemma ShowsIffNoPatch(anns: Annotations, res: CostResult)
    requires res.costPerHour.Some?
    ensures Shows(anns, ShownOf(res)) <==> !ShouldPatch(anns, res)
  {
    hide FormatCost, FormatInt, FleetCost;
  }

  /** Annotations can show only one of two wishes that agree on whether there is a total and a GPU count. */
  lemma ShowsOne(anns: Annotations, s: Shown, t: Shown)
    requires Shows(anns, s) && Shows(anns, t)
    requires s.Rates? && t.Rates? ==> s.total.Some? == t.total.Some? && s.gpus.Some? == t.gpus.Some?
    ensures s == t
  {
  }

  lemma PatchedShows(anns: Annotations, res: CostResult)
    requires res.costPerHour.Some?
    ensures Shows(Patched(anns, res), ShownOf(res))
  {
    hide FormatCost, FormatInt, FleetCost, Patched, Built;
    PatchedAt(anns, res, PerReplica);
    PatchedAt(anns, res, PerHour);
    PatchedAt(anns, res, Total);
    PatchedAt(anns, res, PerToken);
    PatchedAt(anns, res, GpuCount);
  }

  /** After a successful write the rates are shown, whether a patch was sent or skipped. */
  lemma WriteRatesShows(env: Env, st: Store, owner: OwnerKey, res: CostResult)
    requires res.costPerHour.Some? && env.patchOk(st.attempts)
    ensures Shows(WriteRates(env, st, owner, res).Read(owner), ShownOf(res))
    ensures forall o :: o != owner ==> WriteRates(env, st, owner, res).Read(o) == st.Read(o)
  {
    hide ShouldPatch, Patched, Shows, ShownOf;
    ShowsIffNoPatch(st.Read(owner), res);
    PatchedShows(st.Read(owner), res);
  }

  lemma WriteTotalShows(env: Env, st: Store, owner: OwnerKey, rate: real, s: Shown)
    requires Shows(st.Read(owner), s) && env.patchOk(st.attempts)
    ensures var after := WriteTotal(env, st, owner, rate);
            && Shows(after.Read(owner), s)
            && !TotalIsDue(env.world, owner, after.Read(owner))
            && forall o :: o != owner ==> after.Read(o) == st.Read(o)
  {
    hide FormatCost, TotalCost;
  }

  lemma RemoveRatesShows(env: Env, st: Store, owner: OwnerKey)
    requires env.patchOk(st.attempts)
    ensures Shows(RemoveRates(env, st, owner).Read(owner), Gone)
    ensures forall o :: o != owner ==> RemoveRates(env, st, owner).Read(o) == st.Read(o)
  {
  }

  /** The annotations show what the pod wishes and no total cost is left to be written. */
  predicate Fulfilled(env: Env, st: Store, pod: Pod) {
    Wish(env, pod).Some? ==>
      var (owner, s) := Wish(env, pod).value;
      Shows(st.Read(owner), s) && (s.Rates? ==> !TotalIsDue(env.world, owner, st.Read(owner)))
  }

  lemma ShownIgnoresTime(outcome: Outcome, now: string)
    requires outcome.Write?
    ensures ShownOf(outcome.Result(now)) == ShownOf(outcome.Result(""))
  {
    hide FormatCost, FormatInt, Times;
  }

  lemma StepPodFulfils(env: Env, st: Store, pod: Pod)
    requires PatchesSucceed(env)
    ensures Fulfilled(env, StepPod(env, st, pod), pod)
    ensures forall o :: !Wishes(env, pod, o) ==> StepPod(env, st, pod).Read(o) == st.Read(o)
  {
    hide WriteRates, WriteTotal, RemoveRates, ShouldPatch, Shows, TotalIsDue, OutcomeOf, FormatCost;
    hide FormatInt, FleetCost;
    match OutcomeOf(env, pod)
    case PassOver =>
    case Abort =>
    case Remove(owner) => RemoveRatesShows(env, st, owner);
    case Write(owner, rate, _, _, _) =>
      var res := OutcomeOf(env, pod).Result(env.clock(st.attempts));
      var written := WriteRates(env, st, owner, res);
      ShownIgnoresTime(OutcomeOf(env, pod), env.clock(st.attempts));
      WriteRatesShows(env, st, owner, res);
      WriteTotalShows(env, written, owner, rate, ShownOf(res));
  }

  lemma FrontDoesNotAbort(env: Env, pods: seq<Pod>)
    requires pods != [] && !Aborts(env, pods)
    ensures !Aborts(env, pods[..|pods| - 1])
  {
    hide OutcomeOf;
    var front := pods[..|pods| - 1];
    forall i | 0 <= i < |front| ensures OutcomeOf(env, front[i]) != Abort {
      assert pods[i] == front[i];
    }
  }

  // ---- the last pod decides ----

  /**
   After the pod loop of a tick without failed queries and patches, a workload
   shows what the last of its pods in list order asks for; a workload that no
   pod resolves to is as before.
   */
  lemma {:induction false} LastPodDecides(env: Env, st: Store, pods: seq<Pod>, owner: OwnerKey)
    requires PatchesSucceed(env) && !Aborts(env, pods)
    ensures var after := PodLoop(env, st, pods).Read(owner);
            match LastWish(env, pods, owner)
            case None => after == st.Read(owner)
            case Some(s) => Shows(after, s) && (s.Rates? ==> !TotalIsDue(env.world, owner, after))
  {
    hide StepPod, Shows, TotalIsDue, Wish;
    if pods != [] {
      var front, last := pods[..|pods| - 1], pods[|pods| - 1];
      FrontDoesNotAbort(env, pods);
      LastPodDecides(env, st, front, owner);
      StepPodFulfils(env, PodLoop(env, st, front), last);
    }
  }

  // ---- quiet steps ----

  /** A step sends no patch exactly when its pod's wish is fulfilled already. */
  lemma QuietIffFulfilled(env: Env, st: Store, pod: Pod)
    ensures StepPod(env, st, pod).attempts == st.attempts <==> Fulfilled(env, st, pod)
  {
    hide FormatCost, FormatInt, FleetCost, OutcomeOf, TotalCost, ShouldPatch, Shows, TotalIsDue, Patched;
    match OutcomeOf(env, pod)
    case PassOver =>
    case Abort =>
    case Remove(owner) => RemoveQuiet(env, st, owner);
    case Write(owner, rate, _, _, _) =>
      var res := OutcomeOf(env, pod).Result(env.clock(st.attempts));
      ShownIgnoresTime(OutcomeOf(env, pod), env.clock(st.attempts));
      ShowsIffNoPatch(st.Read(owner), res);
  }

  lemma RemoveQuiet(env: Env, st: Store, owner: OwnerKey)
    ensures RemoveRates(env, st, owner).attempts == st.attempts <==> Shows(st.Read(owner), Gone)
  {
  }

  ghost predicate AllFulfilled(env: Env, st: Store, pods: seq<Pod>) {
    forall i :: 0 <= i < |pods| ==> Fulfilled(env, st, pods[i])
  }

  lemma {:induction false} QuietPodLoop(env: Env, st: Store, pods: seq<Pod>)
    requires !Aborts(env, pods)
    ensures PodLoop(env, st, pods).attempts == st.attempts <==> AllFulfilled(env, st, pods)
    ensures AllFulfilled(env, st, pods) ==> PodLoop(env, st, pods) == st
  {
    hide StepPod, Fulfilled, Steps, Wish;
    if pods != [] {
      var front, last := pods[..|pods| - 1], pods[|pods| - 1];
      FrontDoesNotAbort(env, pods);
      var before := PodLoop(env, st, front);
      QuietPodLoop(env, st, front);
      PodLoopAttempts(env, st, front);
      StepPodAttempts(env, before, last);
      QuietIffFulfilled(env, before, last);
      assert AllFulfilled(env, st, pods) <==> AllFulfilled(env, st, front) && Fulfilled(env, st, last);
    }
  }

  lemma PodLoopAttempts(env: Env, st: Store, pods: seq<Pod>)
    ensures var after := PodLoop(env, st, pods);
            st.attempts <= after.attempts && (st.attempts == after.attempts ==> st == after)
  {
    PodLoopSteps(env, st, pods);
  }

  lemma StepPodAttempts(env: Env, st: Store, pod: Pod)
    ensures var after := StepPod(env, st, pod);
            st.attempts <= after.attempts && (st.attempts == after.attempts ==> st == after)
  {
    StepPodSteps(env, st, pod);
  }

  // ---- the owner pass ----

  function ServiceShown(w: World, service: OwnerKey): Shown
    requires service in w.owners
  {
    ShownOf(ZeroResult(w, service, ""))
  }

  predicate ServiceFulfilled(env: Env, st: Store, service: OwnerKey) {
    IsScaledToZero(env.world, service) ==> Shows(st.Read(service), ServiceShown(env.world, service))
  }

  ghost predicate AllServicesFulfilled(env: Env, st: Store, services: seq<OwnerKey>) {
    forall i :: 0 <= i < |services| ==> ServiceFulfilled(env, st, services[i])
  }

  /** No list and no query fails, and every ready count can be read. */
  ghost predicate NoFailures(env: Env) {
    && env.podsListed && env.servicesListed && !Aborts(env, env.world.pods)
    && (forall s :: s in env.world.services ==> env.servicePodsListed(s))
    && (forall s :: s in env.world.services && s in env.world.owners ==>
          !PredictorReadyReplicas(env.world.owners[s]).ReadFailed?)
  }

  predicate IsZeroed(env: Env, services: seq<OwnerKey>, owner: OwnerKey) {
    owner in services && IsScaledToZero(env.world, owner)
  }

  lemma StepServiceShows(env: Env, st: Store, service: OwnerKey)
    requires PatchesSucceed(env) && NoFailures(env) && service in env.world.services
    ensures !ServiceFails(env, st, service)
    ensures ServiceFulfilled(env, StepService(env, st, service), service)
    ensures forall o :: !(o == service && IsScaledToZero(env.world, service)) ==>
      StepService(env, st, service).Read(o) == st.Read(o)
  {
    hide WriteRates, HasActivePods, FormatCost, FormatInt, FleetCost, ShouldPatch, Shows;
    if IsScaledToZero(env.world, service) {
      var res := ZeroResult(env.world, service, env.clock(st.attempts));
      WriteRatesShows(env, st, service, res);
    }
  }

  lemma {:induction false} ServiceLoopShows(env: Env, st: Store, services: seq<OwnerKey>)
    requires PatchesSucceed(env) && NoFailures(env)
    requires forall s :: s in services ==> s in env.world.services
    ensures ServiceLoop(env, st, services).Going?
    ensures AllServicesFulfilled(env, ServiceLoop(env, st, services).store, services)
    ensures forall o :: !IsZeroed(env, services, o) ==> ServiceLoop(env, st, services).store.Read(o) == st.Read(o)
  {
    hide StepService, ServiceFails, Shows, IsScaledToZero, PredictorReadyReplicas, ServiceShown;
    if services != [] {
      var front, last := services[..|services| - 1], services[|services| - 1];
      ServiceLoopShows(env, st, front);
      var before := ServiceLoop(env, st, front).store;
      var after := StepService(env, before, last);
      StepServiceShows(env, before, last);
      forall i | 0 <= i < |services| ensures ServiceFulfilled(env, after, services[i]) {
        if services[i] != last {
          assert services[i] == front[i] && ServiceFulfilled(env, before, front[i]);
        }
      }
      assert forall o :: IsZeroed(env, services, o) <==>
        IsZeroed(env, front, o) || (o == last && IsScaledToZero(env.world, last));
    }
  }

  /** The loop leaves a workload alone that it does not set to zero or that shows its zero cost already. */
  lemma {:induction false} ServiceLoopKeeps(env: Env, st: Store, services: seq<OwnerKey>, owner: OwnerKey)
    requires owner in services ==> ServiceFulfilled(env, st, owner)
    ensures ServiceLoop(env, st, services).store.Read(owner) == st.Read(owner)
  {
    hide StepService, ServiceFails, Shows, IsScaledToZero, ServiceShown;
    if services != [] {
      var front, last := services[..|services| - 1], services[|services| - 1];
      ServiceLoopKeeps(env, st, front, owner);
      SameFulfilled(env, st, ServiceLoop(env, st, front).store, owner);
      StepServiceKeeps(env, ServiceLoop(env, st, front).store, last, owner);
    }
  }

  lemma StepServiceKeeps(env: Env, st: Store, service: OwnerKey, owner: OwnerKey)
    requires service == owner ==> ServiceFulfilled(env, st, owner)
    ensures StepService(env, st, service).Read(owner) == st.Read(owner)
  {
    hide ShouldPatch, Patched, Shows, IsScaledToZero, ServiceShown;
    if service == owner {
      QuietService(env, st, owner);
    }
  }

  lemma {:induction false} OwnerPassKeeps(env: Env, st: Store, adapters: seq<Adapter>, owner: OwnerKey)
    requires KServe in adapters && owner in env.world.services ==> ServiceFulfilled(env, st, owner)
    ensures OwnerPass(env, st, adapters).Read(owner) == st.Read(owner)
  {
    hide ServiceLoop, ServiceFulfilled;
    if adapters != [] {
      var front := adapters[..|adapters| - 1];
      OwnerPassKeeps(env, st, front, owner);
      if adapters[|adapters| - 1].KServe? {
        assert adapters[|adapters| - 1] in adapters;
        SameFulfilled(env, st, OwnerPass(env, st, front), owner);
        ServiceLoopKeeps(env, OwnerPass(env, st, front), env.world.services, owner);
      }
    }
  }

  lemma SameFulfilled(env: Env, a: Store, b: Store, service: OwnerKey)
    requires a.Read(service) == b.Read(service)
    ensures ServiceFulfilled(env, a, service) <==> ServiceFulfilled(env, b, service)
  {
  }

  lemma {:induction false} OwnerPassShows(env: Env, st: Store, adapters: seq<Adapter>)
    requires PatchesSucceed(env) && NoFailures(env)
    ensures KServe in adapters ==>
      AllServicesFulfilled(env, OwnerPass(env, st, adapters), env.world.services)
    ensures forall o :: !IsZeroed(env, env.world.services, o) ==> OwnerPass(env, st, adapters).Read(o) == st.Read(o)
    ensures KServe !in adapters ==> OwnerPass(env, st, adapters) == st
  {
    hide ServiceLoop, AllServicesFulfilled, IsZeroed;
    if adapters != [] {
      var front := adapters[..|adapters| - 1];
      OwnerPassShows(env, st, front);
      ServiceLoopShows(env, OwnerPass(env, st, front), env.world.services);
      assert KServe in adapters <==> KServe in front || adapters[|adapters| - 1] == KServe;
    }
  }

  lemma QuietService(env: Env, st: Store, service: OwnerKey)
    requires ServiceFulfilled(env, st, service)
    ensures StepService(env, st, service) == st
  {
    hide HasActivePods, FormatCost, FormatInt, FleetCost, ShouldPatch, Shows, Patched;
    if IsScaledToZero(env.world, service) {
      ShowsIffNoPatch(st.Read(service), ZeroResult(env.world, service, env.clock(st.attempts)));
    }
  }

  lemma {:induction false} QuietServiceLoop(env: Env, st: Store, services: seq<OwnerKey>)
    requires AllServicesFulfilled(env, st, services)
    ensures ServiceLoop(env, st, services).store == st
  {
    hide StepService, ServiceFails, ServiceFulfilled;
    if services != [] {
      QuietServiceLoop(env, st, services[..|services| - 1]);
      QuietService(env, st, services[|services| - 1]);
    }
  }

  lemma {:induction false} QuietOwnerPass(env: Env, st: Store, adapters: seq<Adapter>)
    requires KServe in adapters ==> AllServicesFulfilled(env, st, env.world.services)
    ensures OwnerPass(env, st, adapters) == st
  {
    hide ServiceLoop, AllServicesFulfilled;
    if adapters != [] {
      QuietOwnerPass(env, st, adapters[..|adapters| - 1]);
      if adapters[|adapters| - 1].KServe? {
        assert adapters[|adapters| - 1] in adapters;
        QuietServiceLoop(env, st, env.world.services);
      }
    }
  }

  /**
   After a whole tick without failures a workload shows zero cost if the owner
   pass sets it to zero, and otherwise what its last pod asks for; a workload
   that neither pass touches is as before.
   */
  lemma TickDecides(env: Env, st: Store, owner: OwnerKey)
    requires PatchesSucceed(env) && NoFailures(env)
    ensures var after := Tick(env, st).Read(owner);
            if KServe in env.adapters && IsZeroed(env, env.world.services, owner) then
              Shows(after, ServiceShown(env.world, owner))
            else
              match LastWish(env, env.world.pods, owner)
              case None => after == st.Read(owner)
              case Some(s) => Shows(after, s)
  {
    hide PodLoop, OwnerPass, Aborts, LastWish, Shows, ServiceShown, TotalIsDue, IsScaledToZero;
    var mid := PodLoop(env, st, env.world.pods);
    LastPodDecides(env, st, env.world.pods, owner);
    OwnerPassShows(env, mid, env.adapters);
    if KServe in env.adapters && IsZeroed(env, env.world.services, owner) {
      var services := env.world.services;
      var i :| 0 <= i < |services| && services[i] == owner;
      assert ServiceFulfilled(env, OwnerPass(env, mid, env.adapters), services[i]);
    }
  }

  // ---- convergence ----

  /** The same cluster and the same Prometheus answers; time has passed and patches may fare otherwise. */
  ghost predicate SameInputs(env: Env, later: Env) {
    later == env.(clock := later.clock, patchOk := later.patchOk)
  }

  /** Pods of one workload ask for the same annotations. */
  predicate Coherent(env: Env, pods: seq<Pod>) {
    forall i, j ::
      && 0 <= i < |pods| && 0 <= j < |pods|
      && Wish(env, pods[i]).Some? && Wish(env, pods[j]).Some?
      && Wish(env, pods[i]).value.0 == Wish(env, pods[j]).value.0
      ==> Wish(env, pods[i]) == Wish(env, pods[j])
  }

  /** Whatever shows s shows t; given that s says whether there is a total and a GPU count if t does. */
  predicate Covers(s: Shown, t: Shown) {
    if s.Gone? || t.Gone? then s == t
    else
      && s.perReplica == t.perReplica && s.token == t.token
      && (t.total.Some? ==> s.total == t.total)
      && (t.gpus.Some? ==> s.gpus == t.gpus)
  }

  /** The pod costs nothing that is printed, now and per token, and has the GPU count of the spec if that names one. */
  predicate AsksForZero(env: Env, pod: Pod, service: OwnerKey)
    requires service in env.world.owners
  {
    var n := env.world.owners[service].specGPUs;
    match OutcomeOf(env, pod)
    case Write(_, rate, token, gpus, _) => rate >= 0.0 && Rounded(rate) == 0.0 && token.None? && (n > 0 ==> gpus == n)
    case _ => false
  }

  /** A pod of an InferenceService that the owner pass sets to zero asks for that zero cost. */
  ghost predicate PassesAgree(env: Env) {
    KServe in env.adapters ==>
      forall i, owner ::
        && 0 <= i < |env.world.pods| && Wishes(env, env.world.pods[i], owner)
        && IsZeroed(env, env.world.services, owner) ==>
          AsksForZero(env, env.world.pods[i], owner)
  }

  lemma PrintsAsZero(rate: real)
    ensures FormatCost(rate) == FormatCost(0.0) <==> rate >= 0.0 && Rounded(rate) == 0.0
  {
    assert Rounded(0.0) == 0.0;
    if rate >= 0.0 {
      FormatCostInjective(rate, 0.0);
    } else {
      FormatCostIsNumeral(rate);
      FormatCostIsNumeral(0.0);
      assert Numeral(rate, PLACES)[0] == '-';
      assert IsDigit(Numeral(0.0, PLACES)[0]);
    }
  }

  lemma SamePrintedInt(m: nat, n: nat)
    ensures FormatInt(m) == FormatInt(n) <==> m == n
  {
    ValueOfDecimal(m);
    ValueOfDecimal(n);
  }

  lemma CoversIffAsksForZero(env: Env, pod: Pod, owner: OwnerKey)
    requires Wishes(env, pod, owner) && owner in env.world.owners
    ensures Covers(Wish(env, pod).value.1, ServiceShown(env.world, owner)) <==> AsksForZero(env, pod, owner)
  {
    hide FormatCost, FormatInt, Times, Rounded, OutcomeOf;
    var n := env.world.owners[owner].specGPUs;
    match OutcomeOf(env, pod)
    case Write(_, rate, _, gpus, _) =>
      PrintsAsZero(rate);
      if n > 0 {
        SamePrintedInt(gpus, n);
      }
    case _ =>
  }

  lemma CoversIffShowsBoth(anns: Annotations, s: Shown, t: Shown)
    requires Shows(anns, s)
    requires s.Rates? ==> s.gpus.Some?
    requires t.Rates? && t.total.None?
    ensures Covers(s, t) <==> Shows(anns, t)
  {
  }

  lemma {:induction false} LastWishIsSomeWish(env: Env, pods: seq<Pod>, owner: OwnerKey)
    ensures match LastWish(env, pods, owner)
            case None => forall i :: 0 <= i < |pods| ==> !Wishes(env, pods[i], owner)
            case Some(s) => exists i :: 0 <= i < |pods| && Wish(env, pods[i]) == Some((owner, s))
  {
    hide Wish;
    if pods != [] {
      var front := pods[..|pods| - 1];
      LastWishIsSomeWish(env, front, owner);
      assert forall i :: 0 <= i < |front| ==> front[i] == pods[i];
      if Wishes(env, pods[|pods| - 1], owner) {
        assert Wish(env, pods[|pods| - 1]) == Some((owner, LastWish(env, pods, owner).value));
      }
    }
  }

  lemma {:induction false} LastWishAt(env: Env, pods: seq<Pod>, owner: OwnerKey, i: nat)
    requires i < |pods| && Wishes(env, pods[i], owner)
    requires forall j :: i < j < |pods| ==> !Wishes(env, pods[j], owner)
    ensures LastWish(env, pods, owner) == Some(Wish(env, pods[i]).value.1)
  {
    hide Wish;
    if i < |pods| - 1 {
      LastWishAt(env, pods[..|pods| - 1], owner, i);
    }
  }

  /** Coherent pods are all fulfilled by the last one's write. */
  lemma CoherentIsFulfilled(env: Env, st: Store, pods: seq<Pod>)
    requires PatchesSucceed(env) && !Aborts(env, pods) && Coherent(env, pods)
    ensures AllFulfilled(env, PodLoop(env, st, pods), pods)
  {
    hide PodLoop, Shows, TotalIsDue, Wish, Aborts;
    forall i | 0 <= i < |pods| ensures Fulfilled(env, PodLoop(env, st, pods), pods[i]) {
      if Wish(env, pods[i]).Some? {
        var owner := Wish(env, pods[i]).value.0;
        assert Wishes(env, pods[i], owner);
        LastWishIsSomeWish(env, pods, owner);
        LastPodDecides(env, st, pods, owner);
      }
    }
  }

  lemma WishShape(env: Env, pod: Pod)
    ensures Wish(env, pod).Some? && Wish(env, pod).value.1.Rates? ==>
              var (owner, s) := Wish(env, pod).value;
              owner in env.world.owners
              && (s.total.Some? <==> Replicas(owner.kind, env.world.owners[owner]) > 0) && s.gpus.Some?
  {
    hide FormatCost, FormatInt, FleetCost, Target, Replicas;
  }

  /** Pods whose wishes hold at the same time are coherent. */
  lemma FulfilledIsCoherent(env: Env, st: Store, pods: seq<Pod>)
    requires AllFulfilled(env, st, pods)
    ensures Coherent(env, pods)
  {
    hide Wish, Shows, TotalIsDue, Replicas;
    forall i, j |
      && 0 <= i < |pods| && 0 <= j < |pods|
      && Wish(env, pods[i]).Some? && Wish(env, pods[j]).Some?
      && Wish(env, pods[i]).value.0 == Wish(env, pods[j]).value.0
      ensures Wish(env, pods[i]) == Wish(env, pods[j])
    {
      WishShape(env, pods[i]);
      WishShape(env, pods[j]);
      assert Fulfilled(env, st, pods[i]) && Fulfilled(env, st, pods[j]);
      ShowsOne(st.Read(Wish(env, pods[i]).value.0), Wish(env, pods[i]).value.1, Wish(env, pods[j]).value.1);
    }
  }

  /** What is fulfilled does not depend on the clock or on the server. */
  lemma SameInputsSameWishes(env: Env, later: Env, st: Store)
    requires SameInputs(env, later)
    ensures forall pod :: OutcomeOf(later, pod) == OutcomeOf(env, pod)
    ensures forall pod :: Fulfilled(later, st, pod) <==> Fulfilled(env, st, pod)
    ensures forall s :: ServiceFulfilled(later, st, s) <==> ServiceFulfilled(env, st, s)
  {
    hide Target, Shows, TotalIsDue, ShownOf, IsScaledToZero, ServiceShown, FormatCost, FormatInt;
    hide FleetCost, Replicas;
  }

  lemma ServiceShownShape(w: World, service: OwnerKey)
    requires service in w.owners
    ensures ServiceShown(w, service).Rates? && ServiceShown(w, service).total.None?
  {
    hide FormatCost, FormatInt;
  }

  /** Annotations that show what a pod asks for show zero cost too exactly if the pod asks for that. */
  lemma WishCoversZero(env: Env, anns: Annotations, pod: Pod, owner: OwnerKey)
    requires Wishes(env, pod, owner) && IsZeroed(env, env.world.services, owner)
    requires Shows(anns, Wish(env, pod).value.1)
    ensures AsksForZero(env, pod, owner) <==> Shows(anns, ServiceShown(env.world, owner))
  {
    CoversIffAsksForZero(env, pod, owner);
    hide AsksForZero, Covers, Shows, Wish, ServiceShown, Replicas;
    WishShape(env, pod);
    ServiceShownShape(env.world, owner);
    CoversIffShowsBoth(anns, Wish(env, pod).value.1, ServiceShown(env.world, owner));
  }

  /** The owner pass does not undo a pod's wish that agrees with it. */
  lemma OwnerPassKeepsWish(env: Env, st: Store, pod: Pod)
    requires pod in env.world.pods && PassesAgree(env) && Fulfilled(env, st, pod) && NoFailures(env)
    ensures Fulfilled(env, OwnerPass(env, st, env.adapters), pod)
  {
    hide OwnerPass, AsksForZero, Shows, Wish, ServiceShown, TotalIsDue, NoFailures, Replicas;
    if Wish(env, pod).Some? {
      var owner := Wish(env, pod).value.0;
      assert Wishes(env, pod, owner);
      if KServe in env.adapters && IsZeroed(env, env.world.services, owner) {
        var i :| 0 <= i < |env.world.pods| && env.world.pods[i] == pod;
        assert AsksForZero(env, env.world.pods[i], owner);
        WishCoversZero(env, st.Read(owner), pod, owner);
      }
      OwnerPassKeeps(env, st, env.adapters, owner);
    }
  }

  ghost predicate TickIsFulfilled(env: Env, st: Store) {
    && AllFulfilled(env, st, env.world.pods)
    && (KServe in env.adapters ==> AllServicesFulfilled(env, st, env.world.services))
  }

  /** After the owner pass everything is fulfilled if the pods were and both passes agree. */
  lemma OwnerPassFulfils(env: Env, mid: Store)
    requires PatchesSucceed(env) && NoFailures(env) && PassesAgree(env)
    requires AllFulfilled(env, mid, env.world.pods)
    ensures TickIsFulfilled(env, OwnerPass(env, mid, env.adapters))
  {
    hide OwnerPass, Aborts, Fulfilled, AllServicesFulfilled, PassesAgree, ServiceFulfilled;
    var pods := env.world.pods;
    OwnerPassShows(env, mid, env.adapters);
    forall i | 0 <= i < |pods| ensures Fulfilled(env, OwnerPass(env, mid, env.adapters), pods[i]) {
      assert Fulfilled(env, mid, pods[i]);
      OwnerPassKeepsWish(env, mid, pods[i]);
    }
  }

  /** Everything can be fulfilled at once only if the pods and both passes agree. */
  lemma FulfilledAgree(env: Env, st: Store)
    requires TickIsFulfilled(env, st)
    ensures Coherent(env, env.world.pods) && PassesAgree(env)
  {
    hide AsksForZero, Shows, Wish, ServiceShown, TotalIsDue, Coherent;
    FulfilledIsCoherent(env, st, env.world.pods);
    if KServe in env.adapters {
      var pods, services := env.world.pods, env.world.services;
      forall i, owner | 0 <= i < |pods| && Wishes(env, pods[i], owner) && IsZeroed(env, services, owner)
        ensures AsksForZero(env, pods[i], owner)
      {
        assert Fulfilled(env, st, pods[i]);
        var k :| 0 <= k < |services| && services[k] == owner;
        assert ServiceFulfilled(env, st, services[k]);
        WishCoversZero(env, st.Read(owner), pods[i], owner);
      }
    }
  }

  lemma OwnerPassAttempts(env: Env, st: Store)
    ensures OwnerPass(env, st, env.adapters).attempts >= st.attempts
  {
    OwnerPassSteps(env, st, env.adapters);
  }

  lemma SameInputsSameAborts(env: Env, later: Env, pods: seq<Pod>)
    requires SameInputs(env, later)
    ensures Aborts(later, pods) <==> Aborts(env, pods)
  {
    hide OutcomeOf;
    forall pod ensures OutcomeOf(later, pod) == OutcomeOf(env, pod) {
      SameInputsSameWishes(env, later, Store(map[], 0));
    }
  }

  lemma SameFulfilment(env: Env, later: Env, st: Store)
    requires SameInputs(env, later)
    ensures AllFulfilled(later, st, env.world.pods) <==> AllFulfilled(env, st, env.world.pods)
    ensures AllServicesFulfilled(later, st, env.world.services) <==> AllServicesFulfilled(env, st, env.world.services)
  {
    hide Fulfilled, ServiceFulfilled;
    SameInputsSameWishes(env, later, st);
  }

  /** The pass after the pod loop is quiet where everything is fulfilled. */
  lemma QuietTickIff(env: Env, st: Store)
    requires env.podsListed && !Aborts(env, env.world.pods)
    requires KServe in env.adapters ==> AllServicesFulfilled(env, st, env.world.services)
    ensures Tick(env, st).attempts == st.attempts <==> AllFulfilled(env, st, env.world.pods)
  {
    hide PodLoop, OwnerPass, Aborts, AllFulfilled, AllServicesFulfilled;
    var mid := PodLoop(env, st, env.world.pods);
    QuietPodLoop(env, st, env.world.pods);
    PodLoopAttempts(env, st, env.world.pods);
    OwnerPassAttempts(env, mid);
    if AllFulfilled(env, st, env.world.pods) {
      QuietOwnerPass(env, st, env.adapters);
    }
  }

  /**
   Convergence: after a tick without failures, the next tick over the same
   cluster and the same Prometheus answers sends no patch if and only if the
   pods of every workload ask for the same annotations, and a pod of an
   InferenceService that the owner pass sets to zero asks for what that pass writes.
   */
  lemma SecondTickIsQuiet(env: Env, later: Env, st: Store)
    requires PatchesSucceed(env) && NoFailures(env) && SameInputs(env, later)
    ensures Tick(later, Tick(env, st)).attempts == Tick(env, st).attempts <==>
            Coherent(env, env.world.pods) && PassesAgree(env)
  {
    hide OwnerPass, PodLoop, Aborts, AllFulfilled, AllServicesFulfilled, Coherent, PassesAgree;
    var pods := env.world.pods;
    var mid, first := PodLoop(env, st, pods), Tick(env, st);
    SameInputsSameAborts(env, later, pods);
    SameFulfilment(env, later, first);
    OwnerPassShows(env, mid, env.adapters);
    QuietTickIff(later, first);
    if Coherent(env, pods) && PassesAgree(env) {
      CoherentIsFulfilled(env, st, pods);
      OwnerPassFulfils(env, mid);
    }
    if AllFulfilled(later, first, pods) {
      FulfilledAgree(env, first);
    }
  }

  // ---- a terminating pod ----

  const LLAMA := OwnerKey(InferenceService, "ml", "llama")

  /** One GPU, labelled with its InferenceService, still running but about to be deleted. */
  const LEAVING: Pod :=
    Pod("ml", "llama-0", map[InferenceServiceName := "llama"], Running, [],
        [Container(Some(Quantity(1000)), None)], [], None, true)

  const EMPTIED: Owner :=
    Owner(None, None, None, ReadyCount(0), Missing, 0, JobStatus([], None, None))

  /** An InferenceService without ready replicas whose last pod is leaving and still has its price. */
  const LEAVING_ENV: Env :=
    Env(World([LEAVING], map[LLAMA := EMPTIED], map[], map[], [LLAMA]), [KServe, Generic],
        true, true, _ => true, (_, _) => Sample(2.0), (_, _) => NoSeries, _ => "", _ => true)

  lemma LeavingPod()
    ensures OutcomeOf(LEAVING_ENV, LEAVING) == Write(LLAMA, 2.0, None, 1, 1)
    ensures IsScaledToZero(LEAVING_ENV.world, LLAMA)
  {
    assert Sum([LEAVING.containers[0]], LimitOrRequest) == Sum([], LimitOrRequest) + 1;
    assert LEAVING.GPUs() == 1;
    assert !IsActivePodOf(LEAVING, LLAMA);
  }

  /**
   The pod pass does not skip terminating pods, while the owner pass does not
   count them: as long as such a pod has a price, both write their own cost in
   every tick, though nothing fails and all pods agree.
   */
  lemma LeavingPodIsNeverQuiet(later: Env, st: Store)
    requires SameInputs(LEAVING_ENV, later)
    ensures PatchesSucceed(LEAVING_ENV) && NoFailures(LEAVING_ENV) && Coherent(LEAVING_ENV, LEAVING_ENV.world.pods)
    ensures Tick(later, Tick(LEAVING_ENV, st)).attempts != Tick(LEAVING_ENV, st).attempts
  {
    hide Tick, OutcomeOf, IsScaledToZero, FormatCost, FormatInt, Rounded, SameInputs;
    LeavingPod();
    RoundedIsClose(2.0);
    var env := LEAVING_ENV;
    assert env.world.pods[0] == LEAVING && Wishes(env, LEAVING, LLAMA);
    assert env.world.services[0] == LLAMA && IsZeroed(env, env.world.services, LLAMA);
    assert !AsksForZero(env, LEAVING, LLAMA);
    assert env.adapters[0] == KServe;
    SecondTickIsQuiet(env, later, st);
  }
}
