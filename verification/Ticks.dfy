/**
 One tick of the cost-patcher as a step system over the annotations of all
 workloads: a fold over the pods, then a pass over the InferenceServices.
 Reads are fresh (CachedTicks lets them lag); Prometheus, the clock and the API server's answers are inputs.
 */
module Ticks {
  import opened Options
  import opened CostFormat
  import opened Contract
  import opened CostAnnotations
  import opened MergePatch
  import opened TrainJob
  import opened Workloads
  import opened Prometheus

  /**
   What a tick meets: clock(n) is the time printed into, and patchOk(n) the
   server's answer to, the patch that is sent after n earlier ones.
   */
  datatype Env = Env(
    world: World,
    adapters: seq<Adapter>,
    podsListed: bool,
    servicesListed: bool,
    servicePodsListed: OwnerKey -> bool,
    hour: (string, string) -> Query,
    token: (string, string) -> Query,
    clock: nat -> string,
    patchOk: nat -> bool)

  /** The live annotations, and the number of patches sent so far. */
  datatype Store = Store(live: map<OwnerKey, Annotations>, attempts: nat) {
    function Read(owner: OwnerKey): Annotations {
      if owner in live then live[owner] else map[]
    }
  }

  // ---- what a pod asks for ----

  datatype Outcome =
    | PassOver
    | Abort
    | Remove(owner: OwnerKey)
    | Write(owner: OwnerKey, rate: real, token: Option<real>, gpus: nat, replicas: int)
  {
    /** The cost result; the time is read when it is written. */
    function Result(now: string): CostResult
      requires Write?
    {
      CostResult(Some(rate), token, Some(gpus as int), Some(replicas), now)
    }
  }

  function OutcomeOf(env: Env, pod: Pod): Outcome {
    var target := Target(env.world, env.adapters, pod);
    if target.None? || target.value !in env.world.owners then PassOver
    else
      var owner := target.value;
      var hour := env.hour(pod.namespace, pod.name);
      if hour.QueryFailed? then Abort
      else if hour.NoSeries? then Remove(owner)
      else
        var token := if pod.IsLoading() then NoSeries else env.token(pod.namespace, pod.name);
        if token.QueryFailed? then Abort
        else
          Write(owner, hour.v, if token.Sample? then Some(token.v) else None, pod.GPUs(),
                Replicas(owner.kind, env.world.owners[owner]))
  }

  // ---- writes ----

  function Send(env: Env, st: Store, owner: OwnerKey, modified: Annotations): Store {
    Store(if env.patchOk(st.attempts) then st.live[owner := modified] else st.live, st.attempts + 1)
  }

  function WriteRates(env: Env, st: Store, owner: OwnerKey, res: CostResult): Store {
    if ShouldPatch(st.Read(owner), res) then Send(env, st, owner, Patched(st.Read(owner), res)) else st
  }

  predicate WriteRatesFails(env: Env, st: Store, owner: OwnerKey, res: CostResult) {
    ShouldPatch(st.Read(owner), res) && !env.patchOk(st.attempts)
  }

  /** A TrainJob gets its total cost once: when it has ended, has a duration and has no total yet. */
  predicate TotalIsDue(w: World, owner: OwnerKey, anns: Annotations) {
    && owner.kind == TrainJobKind && owner in w.owners
    && Lookup(anns, JobTotal) == ""
    && HasEnded(w.owners[owner].job.conditions)
    && Duration(w.owners[owner].job).Some?
  }

  function TotalCost(w: World, owner: OwnerKey, anns: Annotations, rate: real): real
    requires TotalIsDue(w, owner, anns)
  {
    var total := Cost(rate, Duration(w.owners[owner].job).value);
    if total < 0.0 then 0.0 else total
  }

  function WriteTotal(env: Env, st: Store, owner: OwnerKey, rate: real): Store {
    var anns := st.Read(owner);
    if TotalIsDue(env.world, owner, anns) then
      Send(env, st, owner, anns[JobTotal := FormatCost(TotalCost(env.world, owner, anns, rate))])
    else st
  }

  function WriteCost(env: Env, st: Store, owner: OwnerKey, rate: real, res: CostResult): Store {
    var written := WriteRates(env, st, owner, res);
    if WriteRatesFails(env, st, owner, res) then written else WriteTotal(env, written, owner, rate)
  }

  function RemoveRates(env: Env, st: Store, owner: OwnerKey): Store {
    if st.Read(owner).Keys !! RATE_KEYS then st else Send(env, st, owner, Removed(st.Read(owner)))
  }

  // ---- the pod loop ----

  function StepPod(env: Env, st: Store, pod: Pod): Store {
    match OutcomeOf(env, pod)
    case PassOver => st
    case Abort => st
    case Remove(owner) => RemoveRates(env, st, owner)
    case Write(owner, rate, _, _, _) =>
      WriteCost(env, st, owner, rate, OutcomeOf(env, pod).Result(env.clock(st.attempts)))
  }

  /** A failed query ends the tick. */
  predicate Aborts(env: Env, pods: seq<Pod>) {
    exists i :: 0 <= i < |pods| && OutcomeOf(env, pods[i]) == Abort
  }

  function PodLoop(env: Env, st: Store, pods: seq<Pod>): Store {
    if pods == [] then st
    else
      var front := pods[..|pods| - 1];
      var before := PodLoop(env, st, front);
      if Aborts(env, front) then before else StepPod(env, before, pods[|pods| - 1])
  }

  // ---- the owner pass ----

  function ZeroResult(w: World, service: OwnerKey, now: string): CostResult
    requires service in w.owners
  {
    var n := w.owners[service].specGPUs;
    CostResult(Some(0.0), None, if n > 0 then Some(n) else None, None, now)
  }

  predicate NeedsPodList(w: World, service: OwnerKey) {
    && service.namespace != "" && service.name != "" && service in w.owners
    && var ready := PredictorReadyReplicas(w.owners[service]); ready.Ready? && ready.n <= 0
  }

  function StepService(env: Env, st: Store, service: OwnerKey): Store {
    if IsScaledToZero(env.world, service) && env.servicePodsListed(service) then
      WriteRates(env, st, service, ZeroResult(env.world, service, env.clock(st.attempts)))
    else st
  }

  /** The service ends the pass over the services with an error. */
  predicate ServiceFails(env: Env, st: Store, service: OwnerKey) {
    && service.namespace != "" && service.name != "" && service in env.world.owners
    && (|| PredictorReadyReplicas(env.world.owners[service]).ReadFailed?
        || (NeedsPodList(env.world, service) && !env.servicePodsListed(service))
        || (IsScaledToZero(env.world, service) &&
            WriteRatesFails(env, st, service, ZeroResult(env.world, service, env.clock(st.attempts)))))
  }

  datatype Progress = Going(store: Store) | Stopped(store: Store)

  function ServiceLoop(env: Env, st: Store, services: seq<OwnerKey>): Progress {
    if services == [] then Going(st)
    else
      var last := services[|services| - 1];
      var before := ServiceLoop(env, st, services[..|services| - 1]);
      if before.Stopped? then before
      else if ServiceFails(env, before.store, last) then Stopped(StepService(env, before.store, last))
      else Going(StepService(env, before.store, last))
  }

  /** Every adapter of the list that reconciles owners, that is KServe, makes one pass. */
  function OwnerPass(env: Env, st: Store, adapters: seq<Adapter>): Store {
    if adapters == [] then st
    else
      var before := OwnerPass(env, st, adapters[..|adapters| - 1]);
      if adapters[|adapters| - 1].KServe? && env.servicesListed then
        ServiceLoop(env, before, env.world.services).store
      else before
  }

  function Tick(env: Env, st: Store): Store {
    if !env.podsListed then st
    else
      var after := PodLoop(env, st, env.world.pods);
      if Aborts(env, env.world.pods) then after else OwnerPass(env, after, env.adapters)
  }
}
