/** Pods, the workloads that own them, and how the adapters lead from one to the other. */
module Workloads {
  import opened Options
  import opened Gpu
  import opened MergePatch
  import opened TrainJob

  /** The kinds of objects that receive cost annotations. */
  datatype Kind = DeploymentKind | StatefulSetKind | InferenceService | TrainJobKind | RayService | BentoDeployment {
    function Type(): TargetType {
      match this
      case DeploymentKind => Deployment
      case StatefulSetKind => StatefulSet
      case _ => Unstructured
    }
  }

  datatype OwnerKey = OwnerKey(kind: Kind, namespace: string, name: string)

  /** A controller reference. */
  datatype OwnerRef = OwnerRef(kind: RefKind, name: string)

  datatype RefKind = RefReplicaSet | RefStatefulSet | RefDeployment | RefOther

  /** The label keys that the adapters look at. */
  datatype LabelKey =
    | Platform             // kubefisher.io/platform
    | InferenceServiceName // serving.kserve.io/inferenceservice
    | TrainJobName         // trainer.kubeflow.org/trainjob-name
    | TrainJobStep         // trainer.kubeflow.org/trainjob-ancestor-step
    | JobSetName           // jobset.sigs.k8s.io/jobset-name
    | ServeDeployment      // ray.io/serve-deployment
    | RayClusterName       // ray.io/cluster-name
    | BentoDeploymentName  // yatai.bentoml.com/bento-deployment

  datatype PodPhase = Pending | Running | PodSucceeded | PodFailed | UnknownPhase

  datatype WaitReason = ContainerCreating | ImagePullBackOff | ErrImagePull | PodInitializing | OtherReason

  datatype Pod = Pod(
    namespace: string,
    name: string,
    labels: map<LabelKey, string>,
    phase: PodPhase,
    waiting: seq<Option<WaitReason>>,
    containers: seq<Container>,
    initContainers: seq<Container>,
    controller: Option<OwnerRef>,
    deleting: bool)
  {
    function Label(key: LabelKey): string {
      if key in labels then labels[key] else ""
    }

    function GPUs(): nat {
      PodCount(containers, initContainers)
    }

    /** Pods that are not yet serving get no token cost. */
    predicate IsLoading() {
      && phase != Running
      && ((exists i :: 0 <= i < |waiting| && waiting[i].Some? && waiting[i].value != OtherReason) || phase == Pending)
    }
  }

  /** status.components of an InferenceService as far as it is read. */
  datatype Components = Malformed | NoComponents | NoPredictor | NoReadyCount | ReadyCount(n: int)

  datatype IntField = Missing | WrongType | Number(n: int)

  /** Everything but the annotations of an owner; counts that are absent are None. */
  datatype Owner = Owner(
    readyReplicas: Option<int>,
    statusReplicas: Option<int>,
    specReplicas: Option<int>,
    components: Components,
    statusReady: IntField,
    specGPUs: int,
    job: JobStatus)

  datatype RayServiceRef = RayServiceRef(name: string, activeCluster: Option<string>)

  /** The cluster apart from annotations; it does not change while a tick looks at it. */
  datatype World = World(
    pods: seq<Pod>,
    owners: map<OwnerKey, Owner>,
    replicaSets: map<(string, string), Option<OwnerRef>>,
    rayServices: map<string, seq<RayServiceRef>>,
    services: seq<OwnerKey>)

  // ---- replica counts ----

  function FirstPositive(counts: seq<Option<int>>): int {
    if counts == [] then 1
    else if counts[0].Some? && counts[0].value > 0 then counts[0].value
    else FirstPositive(counts[1..])
  }

  /** Ready replicas, else the desired count, else 1; only a typed object can have 0. */
  function Replicas(kind: Kind, owner: Owner): int {
    if kind.Type().OmitsEmpty() then
      if owner.readyReplicas.Some? && owner.readyReplicas.value > 0 then owner.readyReplicas.value
      else if owner.specReplicas.Some? then owner.specReplicas.value
      else 1
    else
      FirstPositive([owner.readyReplicas, owner.statusReplicas, owner.specReplicas])
  }

  /** The ready replicas of a Deployment or StatefulSet, or the desired ones, or one. */
  lemma TypedReplicas(kind: Kind, owner: Owner)
    requires kind == DeploymentKind || kind == StatefulSetKind
    ensures owner.readyReplicas.Some? && owner.readyReplicas.value > 0 ==>
              Replicas(kind, owner) == owner.readyReplicas.value
    ensures (owner.readyReplicas.Some? ==> owner.readyReplicas.value <= 0) ==>
              Replicas(kind, owner) == if owner.specReplicas.Some? then owner.specReplicas.value else 1
  {
  }

  /** Of any other workload the first positive one of the ready, the reported and the desired replicas, or one. */
  lemma UnstructuredReplicas(kind: Kind, owner: Owner)
    requires kind != DeploymentKind && kind != StatefulSetKind
    ensures var ready, reported, desired := owner.readyReplicas, owner.statusReplicas, owner.specReplicas;
            && (ready.Some? && ready.value > 0 ==> Replicas(kind, owner) == ready.value)
            && ((ready.Some? ==> ready.value <= 0) ==>
                  && (reported.Some? && reported.value > 0 ==> Replicas(kind, owner) == reported.value)
                  && ((reported.Some? ==> reported.value <= 0) ==>
                        Replicas(kind, owner) == if desired.Some? && desired.value > 0 then desired.value else 1))
  {
    var ready, reported, desired := owner.readyReplicas, owner.statusReplicas, owner.specReplicas;
    assert [desired][1..] == [] && [reported, desired][1..] == [desired];
    assert [ready, reported, desired][1..] == [reported, desired];
    assert Replicas(kind, owner) == FirstPositive([ready, reported, desired]);
    if !(ready.Some? && ready.value > 0) {
      assert FirstPositive([ready, reported, desired]) == FirstPositive([reported, desired]);
      if !(reported.Some? && reported.value > 0) {
        assert FirstPositive([reported, desired]) == FirstPositive([desired]);
        assert FirstPositive([desired][1..]) == 1;
      }
    }
  }

  // ---- adapters ----

  datatype Adapter = KServe | KubeflowTrainer | RayServe | BentoML | Generic {
    predicate Detect(pod: Pod) {
      match this
      case KServe => pod.Label(Platform) == "kserve" || pod.Label(InferenceServiceName) != ""
      case KubeflowTrainer =>
        pod.Label(Platform) == "kubeflow-trainer" || pod.Label(TrainJobStep) != "" || pod.Label(TrainJobName) != ""
      case RayServe => pod.Label(Platform) == "ray-serve" || pod.Label(ServeDeployment) != ""
      case BentoML => pod.Label(Platform) == "bentoml" || pod.Label(BentoDeploymentName) != ""
      case Generic => true
    }

    /** The owner that receives the costs of a pod; None when it cannot be resolved. */
    function ResolveTarget(w: World, pod: Pod): Option<OwnerKey> {
      match this
      case KServe => Named(w, InferenceService, pod.namespace, pod.Label(InferenceServiceName))
      case KubeflowTrainer =>
        var name := pod.Label(TrainJobName);
        Named(w, TrainJobKind, pod.namespace, if name != "" then name else pod.Label(JobSetName))
      case RayServe =>
        var cluster := pod.Label(RayClusterName);
        if cluster == "" || pod.namespace !in w.rayServices then None
        else
          var name := FindCluster(w.rayServices[pod.namespace], cluster);
          if name.None? then None else Named(w, RayService, pod.namespace, name.value)
      case BentoML => Named(w, BentoDeployment, pod.namespace, pod.Label(BentoDeploymentName))
      case Generic => Walk(w, pod.namespace, pod.controller, 16)
    }
  }

  /** The adapters of the cost-patcher in their order; the first one that detects a pod takes it. */
  const REGISTRY: seq<Adapter> := [KServe, KubeflowTrainer, RayServe, BentoML, Generic]

  function Named(w: World, kind: Kind, namespace: string, name: string): Option<OwnerKey> {
    var key := OwnerKey(kind, namespace, name);
    if name != "" && key in w.owners then Some(key) else None
  }

  function FindCluster(services: seq<RayServiceRef>, cluster: string): Option<string> {
    if services == [] then None
    else if services[0].activeCluster == Some(cluster) then Some(services[0].name)
    else FindCluster(services[1..], cluster)
  }

  /** Follows controller references through replica sets, at most the given number of them. */
  function Walk(w: World, namespace: string, ref: Option<OwnerRef>, steps: nat): Option<OwnerKey>
    decreases steps
  {
    if steps == 0 || ref.None? then None
    else
      match ref.value.kind
      case RefReplicaSet =>
        if (namespace, ref.value.name) in w.replicaSets then
          Walk(w, namespace, w.replicaSets[(namespace, ref.value.name)], steps - 1)
        else None
      case RefStatefulSet => Named(w, StatefulSetKind, namespace, ref.value.name)
      case RefDeployment => Named(w, DeploymentKind, namespace, ref.value.name)
      case RefOther => None
  }

  /** The first adapter of a list that detects the pod. */
  function Choose(adapters: seq<Adapter>, pod: Pod): Option<Adapter> {
    if adapters == [] then None
    else if adapters[0].Detect(pod) then Some(adapters[0])
    else Choose(adapters[1..], pod)
  }

  /** The owner that a pod's costs go to; None for pods that the tick passes over. */
  function Target(w: World, adapters: seq<Adapter>, pod: Pod): Option<OwnerKey> {
    if pod.namespace == "" || pod.name == "" || pod.GPUs() == 0 then None
    else
      match Choose(adapters, pod)
      case None => None
      case Some(a) => a.ResolveTarget(w, pod)
  }

  // ---- scale to zero ----

  datatype ReadyResult = ReadFailed | NotReported | Ready(n: int)

  function PredictorReadyReplicas(owner: Owner): ReadyResult {
    match owner.components
    case Malformed => ReadFailed
    case NoReadyCount => NotReported
    case ReadyCount(n) => Ready(n)
    case NoComponents | NoPredictor =>
      match owner.statusReady
      case Missing => NotReported
      case WrongType => ReadFailed
      case Number(n) => Ready(n)
  }

  predicate IsActivePodOf(pod: Pod, service: OwnerKey) {
    && pod.namespace == service.namespace
    && InferenceServiceName in pod.labels && pod.labels[InferenceServiceName] == service.name
    && !pod.deleting
    && (pod.phase == Running || pod.phase == Pending)
  }

  predicate HasActivePods(w: World, service: OwnerKey) {
    exists i :: 0 <= i < |w.pods| && IsActivePodOf(w.pods[i], service)
  }

  /** An InferenceService whose cost the owner pass sets to zero. */
  predicate IsScaledToZero(w: World, service: OwnerKey) {
    && service.namespace != "" && service.name != ""
    && service in w.owners
    && var ready := PredictorReadyReplicas(w.owners[service]);
      ready.Ready? && ready.n <= 0 && !HasActivePods(w, service)
  }

  // ---- what the resolution can give ----

  lemma {:induction false} WalkEndsAtOwner(w: World, namespace: string, ref: Option<OwnerRef>, steps: nat)
    ensures var key := Walk(w, namespace, ref, steps);
            key.Some? ==>
              && key.value in w.owners && key.value.namespace == namespace
              && (key.value.kind == DeploymentKind || key.value.kind == StatefulSetKind)
    decreases steps
  {
    if steps > 0 && ref.Some? && ref.value.kind == RefReplicaSet && (namespace, ref.value.name) in w.replicaSets {
      WalkEndsAtOwner(w, namespace, w.replicaSets[(namespace, ref.value.name)], steps - 1);
    }
  }

  predicate FirstDetecting(adapters: seq<Adapter>, pod: Pod, i: int) {
    && 0 <= i < |adapters| && adapters[i].Detect(pod)
    && forall j :: 0 <= j < i ==> !adapters[j].Detect(pod)
  }

  lemma {:induction false} ChooseFirst(adapters: seq<Adapter>, pod: Pod)
    ensures match Choose(adapters, pod)
            case None => forall a :: a in adapters ==> !a.Detect(pod)
            case Some(a) => exists i :: FirstDetecting(adapters, pod, i) && adapters[i] == a
  {
    if adapters != [] {
      if adapters[0].Detect(pod) {
        assert FirstDetecting(adapters, pod, 0);
      } else {
        ChooseFirst(adapters[1..], pod);
        if Choose(adapters, pod).Some? {
          var i :| FirstDetecting(adapters[1..], pod, i) && adapters[1..][i] == Choose(adapters, pod).value;
          assert FirstDetecting(adapters, pod, i + 1);
        }
      }
    }
  }

  /** A resolved owner exists, lies in the pod's namespace, and the adapter list leaves no choice about it. */
  lemma TargetIsOwner(w: World, adapters: seq<Adapter>, pod: Pod)
    ensures var key := Target(w, adapters, pod);
            key.Some? ==> (key.value in w.owners && key.value.namespace == pod.namespace)
  {
    WalkEndsAtOwner(w, pod.namespace, pod.controller, 16);
  }

  // ---- the owner by labels ----

  lemma RegistryChooses(pod: Pod)
    ensures var platform := pod.Label(Platform);
            Choose(REGISTRY, pod) == Some(
              if platform == "kserve" || pod.Label(InferenceServiceName) != "" then KServe
              else if || platform == "kubeflow-trainer"
                      || pod.Label(TrainJobStep) != "" || pod.Label(TrainJobName) != "" then KubeflowTrainer
              else if platform == "ray-serve" || pod.Label(ServeDeployment) != "" then RayServe
              else if platform == "bentoml" || pod.Label(BentoDeploymentName) != "" then BentoML
              else Generic)
  {
    ChooseFirst(REGISTRY, pod);
    var i :| FirstDetecting(REGISTRY, pod, i) && REGISTRY[i] == Choose(REGISTRY, pod).value;
    assert REGISTRY[0] == KServe && REGISTRY[1] == KubeflowTrainer && REGISTRY[2] == RayServe;
    assert REGISTRY[3] == BentoML && REGISTRY[4] == Generic && Generic in REGISTRY;
    assert forall j :: 0 <= j < i ==> !REGISTRY[j].Detect(pod);
  }

  /** The owner with a kind and a name in the pod's namespace, if there is one. */
  predicate IsOwnerNamed(w: World, pod: Pod, target: Option<OwnerKey>, kind: Kind, name: string) {
    var key := OwnerKey(kind, pod.namespace, name);
    if name != "" && key in w.owners then target == Some(key) else target == None
  }

  /** The labels that the platforms set lead to the owner that they name. */
  lemma LabelledTarget(w: World, pod: Pod)
    requires pod.namespace != "" && pod.name != "" && pod.GPUs() > 0
    ensures Choose(REGISTRY, pod).Some?
    ensures var target := Target(w, REGISTRY, pod);
            match Choose(REGISTRY, pod).value
            case KServe => IsOwnerNamed(w, pod, target, InferenceService, pod.Label(InferenceServiceName))
            case KubeflowTrainer =>
              var name := pod.Label(TrainJobName);
              IsOwnerNamed(w, pod, target, TrainJobKind, if name != "" then name else pod.Label(JobSetName))
            case BentoML => IsOwnerNamed(w, pod, target, BentoDeployment, pod.Label(BentoDeploymentName))
            case RayServe | Generic => true
  {
    RegistryChooses(pod);
    hide Choose, FindCluster, Walk;
  }

  /** A Ray pod belongs to the first RayService of its namespace whose active cluster is the pod's. */
  lemma RayTarget(w: World, pod: Pod, services: seq<RayServiceRef>, i: nat)
    requires pod.namespace != "" && pod.name != "" && pod.GPUs() > 0 && Choose(REGISTRY, pod) == Some(RayServe)
    requires pod.namespace in w.rayServices && w.rayServices[pod.namespace] == services
    requires pod.Label(RayClusterName) != "" && i <= |services|
    requires forall j :: 0 <= j < i ==> services[j].activeCluster != Some(pod.Label(RayClusterName))
    requires i < |services| ==> services[i].activeCluster == Some(pod.Label(RayClusterName))
    ensures var target := Target(w, REGISTRY, pod);
            if i < |services| then IsOwnerNamed(w, pod, target, RayService, services[i].name) else target == None
  {
    FirstCluster(services, pod.Label(RayClusterName), i);
    hide FindCluster, Choose, Walk;
  }

  lemma {:induction false} FirstCluster(services: seq<RayServiceRef>, cluster: string, i: nat)
    requires i <= |services|
    requires forall j :: 0 <= j < i ==> services[j].activeCluster != Some(cluster)
    requires i < |services| ==> services[i].activeCluster == Some(cluster)
    ensures FindCluster(services, cluster) == if i < |services| then Some(services[i].name) else None
  {
    if i > 0 {
      FirstCluster(services[1..], cluster, i - 1);
    }
  }

  /**
   Any other pod belongs to the StatefulSet or Deployment that controls it, directly
   or through replica sets, of which at most fifteen are followed.
   */
  lemma GenericTarget(w: World, pod: Pod, chain: seq<string>)
    requires pod.namespace != "" && pod.name != "" && pod.GPUs() > 0 && Choose(REGISTRY, pod) == Some(Generic)
    requires IsChain(w, pod.namespace, pod.controller, chain)
    ensures var target, last := Target(w, REGISTRY, pod), ChainEnd(w, pod.namespace, pod.controller, chain);
            if |chain| < 16 && last.Some? && last.value.kind == RefStatefulSet then
              IsOwnerNamed(w, pod, target, StatefulSetKind, last.value.name)
            else if |chain| < 16 && last.Some? && last.value.kind == RefDeployment then
              IsOwnerNamed(w, pod, target, DeploymentKind, last.value.name)
            else target == None
  {
    WalkAlong(w, pod.namespace, pod.controller, chain, 16);
    hide Choose, Walk, FindCluster;
  }

  /** A chain of existing replica sets, each controlled by the next one, that ends where no further one is named. */
  predicate IsChain(w: World, namespace: string, ref: Option<OwnerRef>, chain: seq<string>)
    decreases |chain|
  {
    if chain == [] then
      ref.Some? && ref.value.kind == RefReplicaSet ==> (namespace, ref.value.name) !in w.replicaSets
    else
      && ref == Some(OwnerRef(RefReplicaSet, chain[0])) && (namespace, chain[0]) in w.replicaSets
      && IsChain(w, namespace, w.replicaSets[(namespace, chain[0])], chain[1..])
  }

  /** The controller of the last replica set. */
  function ChainEnd(w: World, namespace: string, ref: Option<OwnerRef>, chain: seq<string>): Option<OwnerRef>
    requires IsChain(w, namespace, ref, chain)
    decreases |chain|
  {
    if chain == [] then ref else ChainEnd(w, namespace, w.replicaSets[(namespace, chain[0])], chain[1..])
  }

  lemma {:induction false} WalkAlong(w: World, namespace: string, ref: Option<OwnerRef>, chain: seq<string>, steps: nat)
    requires IsChain(w, namespace, ref, chain)
    ensures var last := ChainEnd(w, namespace, ref, chain);
            Walk(w, namespace, ref, steps) ==
            if |chain| < steps && last.Some? && last.value.kind == RefStatefulSet then
              Named(w, StatefulSetKind, namespace, last.value.name)
            else if |chain| < steps && last.Some? && last.value.kind == RefDeployment then
              Named(w, DeploymentKind, namespace, last.value.name)
            else None
    decreases |chain|
  {
    if chain != [] && steps > 0 {
      WalkAlong(w, namespace, w.replicaSets[(namespace, chain[0])], chain[1..], steps - 1);
    }
  }

  // ---- what scaled to zero means ----

  /** The ready count that an InferenceService reports: of its predictor, or its own when it lists no predictor. */
  predicate ReportsReady(owner: Owner, n: int) {
    || owner.components == ReadyCount(n)
    || (owner.components in {NoComponents, NoPredictor} && owner.statusReady == Number(n))
  }

  /**
   A status that has another shape than expected ends the pass with an error: a
   components entry that is no map, or, without a predictor, a ready count that is
   no integer. A predictor without a count, or none at all, means: not reported.
   */
  lemma ReadyCountIs(owner: Owner)
    ensures var fallsBack := owner.components in {NoComponents, NoPredictor};
            && (PredictorReadyReplicas(owner) == ReadFailed <==>
                  owner.components == Malformed || (fallsBack && owner.statusReady == WrongType))
            && (PredictorReadyReplicas(owner) == NotReported <==>
                  owner.components == NoReadyCount || (fallsBack && owner.statusReady == Missing))
            && forall n :: PredictorReadyReplicas(owner) == Ready(n) <==> ReportsReady(owner, n)
  {
  }

  /** It reports no ready replica, and no pod of it runs or is pending, those being deleted left out. */
  lemma ScaledToZeroIff(w: World, service: OwnerKey)
    ensures IsScaledToZero(w, service) <==>
            && service.namespace != "" && service.name != "" && service in w.owners
            && (exists n :: n <= 0 && ReportsReady(w.owners[service], n))
            && forall i ::
                 && 0 <= i < |w.pods| && w.pods[i].namespace == service.namespace
                 && InferenceServiceName in w.pods[i].labels && w.pods[i].labels[InferenceServiceName] == service.name
                 ==> w.pods[i].deleting || (w.pods[i].phase != Running && w.pods[i].phase != Pending)
  {
    if service in w.owners {
      var owner := w.owners[service];
      forall n ensures ReportsReady(owner, n) <==> PredictorReadyReplicas(owner) == Ready(n) {
      }
      hide ReportsReady, PredictorReadyReplicas;
      assert (exists n :: n <= 0 && ReportsReady(owner, n)) <==>
        PredictorReadyReplicas(owner).Ready? && PredictorReadyReplicas(owner).n <= 0 by {
        if PredictorReadyReplicas(owner).Ready? {
          assert ReportsReady(owner, PredictorReadyReplicas(owner).n);
        }
      }
    }
  }
}
