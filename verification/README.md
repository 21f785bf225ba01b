# KubeFisher in Dafny: cost recording, cost annotations and quotas

This project models the parts of KubeFisher that compute, write, read and act on
GPU costs, and proves what they guarantee. It follows the way of a cost:

1. **Recording rules.** `PromQL.dfy` gives the query operators that the rules
   use a meaning on finite maps from label sets to reals (aggregation,
   `group_left` joins that can fail, `label_replace`, `and`, `unless`, `or`).
   `RecordingRules.dfy` writes down `kubefisher:cost_per_hour` and
   `kubefisher:cost_per_token` as they are and proves what they compute for
   every pod, and that no cost is lost or counted twice; `CostLaws.dfy` states this
   for single series and their labels. `FiniteSums.dfy` holds the sums over maps.
2. **The cost-patcher.** `Numerals.dfy` and `CostFormat.dfy` model the printed
   costs, `Annotations.dfy` (keys, write, skip test) and `MergePatch.dfy` (JSON
   merge patches on stale reads, and the CLI's reader) the annotations of one
   workload, `TrainJob.dfy` and `Gpu.dfy` the durations and GPU counts,
   `Workloads.dfy` the pods, owners and adapters. `Ticks.dfy` is one tick as a
   step function over all workloads, with failing queries, lists and patches as
   inputs. `TickInvariants.dfy` proves what every tick on fresh reads keeps,
   `TickConvergence.dfy` what a clean one leaves behind. `CachedTicks.dfy` lets the
   reads of Deployments and StatefulSets lag (`Lags.dfy`), as they do with the
   informer cache of the deployed client, and proves exactly when that is harmless
   and when the next tick has nothing to do; `CachedInvariants.dfy` proves what
   every tick and every run of this client keeps.
   `Reconciler.dfy` carries this tick out on mutable objects (targets edited in
   place, an API server that merges patches), each method proved against its step
   function.
3. **From metric to terminal.** `EndToEnd.dfy` puts the rule, the tick and the
   CLI's reader together.
4. **Quotas.** `Calendar.dfy`, `Phase.dfy`, `QuotaController.dfy` and
   `QuotaRuns.dfy` model the TeamInferenceQuota controller with its rounding and
   its event log, `CachedQuotas.dfy` the same with reads from a lagging cache;
   `Webhook.dfy` the admission of GPU pods, alone and together
   with the controller.
5. **Supporting loops.** `Pricing.dfy` (the price collector with its in-place
   exchange sort), `Commas.dfy` and `Slug.dfy`.

Conventions. Costs, rates and utilizations are reals; integers are unbounded.
Times are nanoseconds or UTC calendar times. The keys and labels that the code
names are constructors, all others are one constructor with a name. Prometheus
answers, the clock and the API server's verdicts are inputs. Where the code has
a loop or changes an object, the model has a method with that loop or object,
proved against a function; the properties are lemmas about the functions. What an
operation gives is stated on the fields of its inputs too, without naming the
functions that compute it.

What the proofs show beyond the expected:

- A removal of cost annotations computed from a stale read can drop other
  people's annotations in exactly one case: a Deployment or StatefulSet whose
  read annotations are all removed (`MergePatch.RemovalKeepsForeign`).
- The second of two identical ticks is quiet if and only if the pods of every
  workload ask for the same annotations and, where the `kserve` adapter runs, each
  pod of an InferenceService that is set to zero asks for that zero cost
  (`CachedTicks.SecondCachedTickIsQuiet`). So a Deployment with pods on nodes of
  different price is patched in every tick, and so is an InferenceService whose last
  pod is terminating and still has a price: the pod loop does not skip terminating
  pods, the scale-to-zero pass does (`TickConvergence.LeavingPodIsNeverQuiet`).
- A lagging cache cannot change what a tick leaves on a Deployment or StatefulSet
  exactly if its pods ask for the same annotations
  (`CachedTicks.HarmlessIffPodsAgree`); otherwise an earlier pod's cost can stay.
- A lagging cache keeps the cost annotations of a Deployment or StatefulSet
  consistent exactly if its pods all have a cost series or all have none
  (`CachedInvariants.ConsistentIffUnmixed`). With one pod that has a price and one
  that lost its own, a single tick can leave a token cost without an hourly cost
  (`CachedInvariants.MixedWebLosesHour`). Totals and foreign annotations are safe
  whatever lags or fails (`CachedInvariants.CachedTickSteps`).
- `cost_per_hour` is evaluated if and only if every pod has one `kube_pod_info`
  node or there is no GPU limit at all: one pod with two nodes, even without a GPU,
  makes it fail for all pods (`RecordingRules.EvaluatesIffOneNodePerPod`,
  `RecordingRules.MovedPodFailsTheRule`).
- The remaining token percentage, computed from the rounded count, can contradict
  an Active phase; it cannot for exactly the budgets that pass an integer test,
  among them all of 100 tokens and more (`Phase.TokensFitIff`,
  `Phase.SmallBudgetDoesNotFit`).
- The webhook's answer depends on the list order exactly when the list holds both
  an Unknown and a blocking quota (`Webhook.OrderMattersIff`).
- Events are emitted before the status patch, from a quota that may be read from a
  lagging cache. At every moment the event log is the history of the persisted
  phase if and only if no reconcile misreports, that is, reports a change which is
  refused or does not start at the live phase, or activates silently what was in
  another phase (`CachedQuotas.LogIsHistoryIff`). Without Prometheus a new quota
  warns again in every reconcile whose patch is refused
  (`QuotaRuns.UnreachablePrometheusRepeatsWarning`) or which still reads the new
  quota (`CachedQuotas.StaleReadRepeatsWarning`).
- The fallback `"0"` in `formatCost` is never reached
  (`CostFormat.FormatCostIsNumeral`).

`dafny verify dfyconfig.toml` checks the whole project.

## Model

| member | source | states |
|---|---|---|
| RecordingRules.GpuCostIsPodCosts | internal/install/assets/prometheusrule.yaml:25-34 | the joined and summed vector holds, for every pod with a GPU limit and a priced node, its limits times its node's price, and nothing else |
| RecordingRules.ArmsPartition | internal/install/assets/prometheusrule.yaml:16-102 | the labelled arm and the `unless` arm partition any vector with one series per pod, and `or` drops nothing |
| RecordingRules.CostIsConserved | internal/install/assets/prometheusrule.yaml:14-102 | conservation: the recorded costs add up to limits times node price over all priced pods |
| RecordingRules.OneSeriesPerPod | internal/install/assets/prometheusrule.yaml:37-102 | every priced pod has exactly one series, with its cost and three non-empty identity labels, "unlabeled" where the pod's label is absent or empty |
| RecordingRules.OnlyPricedPods | internal/install/assets/prometheusrule.yaml:14-102 | every recorded series belongs to a priced pod |
| RecordingRules.EvaluatesIffOneNodePerPod | internal/install/assets/prometheusrule.yaml:14-102 | for inputs that are otherwise well formed the evaluation succeeds exactly when each pod has one node or there is no GPU limit |
| RecordingRules.MovedPodFailsTheRule | internal/install/assets/prometheusrule.yaml:27-31 | a pod without GPU that is listed on two nodes makes the evaluation fail; with one of the entries gone it succeeds |
| CostLaws.EqualLimitsFail | internal/install/assets/prometheusrule.yaml:27-28 | two limits of a placed pod that differ only in the node label make the evaluation fail |
| CostLaws.TwoPricesFail | internal/install/assets/prometheusrule.yaml:33 | so do two prices for one node as soon as a pod is placed |
| CostLaws.TwoEntriesFail | internal/install/assets/prometheusrule.yaml:36-37 | and two kube_pod_labels entries for one pod as soon as a pod is priced |
| RecordingRules.FinalGets | internal/install/assets/prometheusrule.yaml:39-72 | the label_replace chains label by label: copied, defaulted or left alone |
| CostLaws.PricedPodIsRecorded | internal/install/assets/prometheusrule.yaml:14-36 | a limit, a kube_pod_info entry with non-empty namespace, pod and node, and a price for the node give exactly one recorded series for the pod: the sum of its limits times the price |
| CostLaws.RecordedPodIsPriced | internal/install/assets/prometheusrule.yaml:14-36 | every recorded series has such a limit, entry and price |
| CostLaws.RecordedLabels | internal/install/assets/prometheusrule.yaml:37-102 | label by label: model, platform and team from kube_pod_labels or "unlabeled", the three source labels, and no other label but namespace and pod |
| PromQL.MaximumIsGreatest | internal/install/assets/prometheusrule.yaml:29 | max gives the greatest of the values |
| RecordingRules.RecordedIsStable | internal/install/assets/prometheusrule.yaml:118-181 | relabelling a recorded series a second time changes nothing |
| RecordingRules.TokenCosts | internal/install/assets/prometheusrule.yaml:103-181 | cost_per_token exists for exactly the cost_per_hour series with a positive token rate, under the same labels, and value times tokens per hour is the cost; quotients by zero have no influence |
| CostLaws.TokenCostLaw | internal/install/assets/prometheusrule.yaml:103-181 | a token cost exists exactly for recorded pods whose prompt and generation rates add up to more than zero, and times both rates times 3600 it is the hourly cost |
| CostFormat.FormatCostIsNumeral | internal/costpatcher/platform/patch.go:17-24 | a printed cost is sign, whole part and the fraction without trailing zeros; the fallback is never taken |
| CostFormat.ParseFormatCost | internal/costpatcher/platform/patch.go:17-24 | printing then reading gives the cost rounded to twelve decimals |
| CostFormat.RoundedIsClose | internal/costpatcher/platform/patch.go:18 | the rounded cost is within 5e-13 of the true one |
| CostFormat.FormatCostInjective | internal/costpatcher/platform/patch.go:17-24 | two non-negative costs print alike exactly when they round to the same number |
| CostFormat.ParseFixed | operator/internal/controller/teaminferencequota_controller.go:147 | a number printed with n decimals has n decimals and is read as the rounded number |
| CostFormat.TrimBlank | internal/cost/collect.go:258-262 | blanks around a text are cut off |
| CostFormat.ParseSigns | internal/cost/collect.go:258-262 | a number may have a sign of either kind |
| CostFormat.WholePartIsShort | internal/costpatcher/platform/patch.go:18 | the whole part of a printed number has no leading zero |
| Numerals.IntIsNumeral | internal/costpatcher/platform/patch.go:40-42 | a printed count denotes the count |
| Numerals.HalvesToEven | internal/costpatcher/platform/patch.go:18 | halves of the last printed decimal go to the even neighbour |
| Numerals.HalvesAway | operator/internal/controller/phase.go:96-103 | halves of a percentage or of a token count go away from zero |
| CostAnnotations.BuildAnnotations | internal/costpatcher/platform/patch.go:26-45 | the map filled step by step is the one that is desired key by key |
| CostAnnotations.PatchedAt | internal/costpatcher/platform/patch.go:127-136 | a write sets the desired keys, drops a stale token cost and keeps every other key |
| CostAnnotations.ShouldPatchAt | internal/costpatcher/platform/patch.go:47-79 | the skip test fires exactly when a write would change a key other than the time stamp |
| CostAnnotations.SkipIffUnchanged | internal/costpatcher/platform/patch.go:47-79 | a patch is skipped exactly when the fully patched map equals the existing one apart from the time stamp |
| MergePatch.FreshRead | internal/costpatcher/platform/patch.go:104-115 | with a fresh read, diff and merge give exactly the computed map |
| CachedInvariants.WrittenFromOutside | internal/costpatcher/platform/patch.go:118-149 | a write, skipped or sent, from any read leaves every key but the rate keys as it is live |
| MergePatch.RemovalKeepsForeign | internal/costpatcher/platform/patch.go:84-115 | a removal keeps all foreign keys added since the read, except exactly for a typed object whose read annotations are all removed |
| CostReader.ReadBack | internal/cost/collect.go:248-274 | the reader gets back the rounded per-replica, token and fleet costs of a write, and an older total when no replica count was given |
| CostReader.ReadBackSkipped | internal/cost/collect.go:248-274 | a skipped patch shows the reader the same costs as a sent one |
| CostReader.OlderKeyIsRead | internal/cost/collect.go:252-256 | without the per-replica key the deprecated one is read |
| CostReader.BlanksAreIgnored | internal/cost/collect.go:257-271 | blanks around a cost do not matter |
| CostReader.NoCostIsRead | internal/cost/collect.go:257-271 | a missing, blank or unreadable value is no cost |
| TrainJob.TerminalState | internal/costpatcher/platform/kubeflow_trainer.go:127-150 | the loop finds out whether a completing and whether a failing condition is true |
| TrainJob.DurationFromConditions | internal/costpatcher/platform/kubeflow_trainer.go:182-218 | the loop's start and end give the duration of its specification |
| TrainJob.DurationIsSpan | internal/costpatcher/platform/kubeflow_trainer.go:182-218 | a duration is found exactly when the latest terminal time comes after the earliest time of all, and is their distance |
| TrainJob.DurationIsIff | internal/costpatcher/platform/kubeflow_trainer.go:152-218 | a job of d nanoseconds: completion minus start when both are there and in order, the span of the conditions otherwise |
| TrainJob.FoldsToTrueIff | internal/costpatcher/platform/kubeflow_trainer.go:127-150 | a status is true in any mixture of upper and lower case |
| TrainJob.OrderDoesNotMatter | internal/costpatcher/platform/kubeflow_trainer.go:182-218 | the duration does not depend on the order of the conditions |
| Gpu.GPUCountFromPod | internal/costpatcher/platform/gpu.go:11-34 | the loops add limits or else requests; init containers count only when the others use no GPU |
| Gpu.GPUsPerPod | internal/cost/collect.go:283-295 | the loops add limits and requests of all containers |
| Gpu.CountsAgree | operator/internal/webhook/pod_webhook.go:122-148 | patcher, CLI and webhook agree on which pods use GPUs, and the patcher never counts more than the CLI |
| Gpu.ValueRoundsUp | internal/costpatcher/platform/gpu.go:11-34 | a quantity counts as the next whole number of GPUs |
| Workloads.ChooseFirst | internal/costpatcher/reconcile.go:60-69 | the chosen adapter is the first of the list that detects the pod |
| Workloads.WalkEndsAtOwner | internal/costpatcher/platform/generic.go:22-65 | the owner walk ends at an existing Deployment or StatefulSet of the pod's namespace or nowhere |
| Workloads.TargetIsOwner | internal/costpatcher/reconcile.go:50-75 | a pod's costs go to an existing owner in its own namespace or nowhere |
| Workloads.RegistryChooses | internal/adapters/registry.go:10-16 | which of the registered adapters takes a pod, by its labels |
| Workloads.LabelledTarget | internal/costpatcher/platform/kserve.go:48-65 | the owner that the labels of an inference, training or Bento pod name, if it exists |
| Workloads.RayTarget | internal/costpatcher/platform/ray_serve.go:41-70 | the first RayService whose active cluster is the pod's |
| Workloads.GenericTarget | internal/costpatcher/platform/generic.go:22-65 | the StatefulSet or Deployment at the end of a chain of at most fifteen replica sets, and nothing otherwise |
| Workloads.TypedReplicas | internal/costpatcher/platform/adapter.go:26-43 | ready replicas of a Deployment or StatefulSet, else the desired ones, else one |
| Workloads.UnstructuredReplicas | internal/costpatcher/platform/adapter.go:44-56 | of other workloads the first positive one of ready, reported and desired replicas, else one |
| Workloads.ScaledToZeroIff | internal/costpatcher/platform/kserve.go:131-184 | scaled to zero: no ready replica is reported, and no pod of the service that is not being deleted runs or is pending |
| Workloads.ReadyCountIs | internal/costpatcher/platform/kserve.go:131-161 | which shapes of a status give an error, no count, or a ready count |
| CachedInvariants.CachedTickSteps | internal/costpatcher/reconcile.go:44-127 | a tick, whatever fails in it and however far the cache lags, changes nothing without a patch, never changes a written total and never touches foreign keys; and it keeps annotations consistent unless a lag meets mixed pods of a Deployment or StatefulSet |
| CachedInvariants.ConsistentIffUnmixed | internal/costpatcher/reconcile.go:50-115 | for every consistent start and every lag the annotations of a Deployment or StatefulSet are consistent after each pod, if and only if its pods do not mix removals and writes |
| CachedInvariants.MixedWebLosesHour | internal/costpatcher/reconcile.go:82-115 | a Deployment with one priced and one unpriced pod, annotated by the patcher itself: one tick with a lagging cache leaves a token cost without an hourly cost |
| CachedInvariants.RunIsConsistent | internal/costpatcher/platform/patch.go:26-45 | in every reachable state of a run without such a mixture the two per-replica keys go together and the other rate keys never stand without them |
| CachedInvariants.TotalIsWrittenOnce | internal/costpatcher/platform/kubeflow_trainer.go:84-125 | a total job cost that is there at some moment of a run is there, the same, at every later moment |
| CachedInvariants.ForeignIsOnlyEdited | internal/costpatcher/platform/patch.go:84-149 | a foreign annotation that nobody else edits is the same at the end of every run, whatever lags or fails |
| TickInvariants.TotalIsRateTimesHours | internal/costpatcher/platform/kubeflow_trainer.go:98-125 | a job that has ended, has a duration and no total gets the hourly rate times its nanoseconds by 3_600_000_000_000, and no other one does |
| TickConvergence.ShowsIffNoPatch | internal/costpatcher/platform/patch.go:118-122 | annotations show a result exactly when the skip test skips it |
| TickConvergence.LeavingPodIsNeverQuiet | internal/costpatcher/platform/kserve.go:163-184 | an InferenceService without ready replicas whose one pod is terminating and has a price: nothing fails and all pods agree, and the next tick patches again |
| CachedTicks.WrittenFromAt | internal/costpatcher/platform/patch.go:118-149 | skip test and patch on a stale read: a key ends up as wished exactly unless the read already showed it so and the live object does not |
| CachedTicks.RemovedFromAt | internal/costpatcher/platform/patch.go:84-115 | the same for a removal, which always succeeds when the whole map is dropped |
| CachedTicks.FreshTick | internal/kubeclient/client.go:58-79 | with a cache that never lags the tick of the cached client is the tick on fresh reads |
| CachedTicks.CachedKinds | internal/kubeclient/client.go:58-79 | the cached workloads are the Deployments and StatefulSets |
| CachedTicks.LastReadDecides | internal/costpatcher/reconcile.go:50-115 | a Deployment or StatefulSet shows what its last pod asks for exactly when that pod's read missed nothing |
| CachedTicks.HarmlessIffPodsAgree | internal/kubeclient/client.go:58-79 | for every start and every lag the last pod's wish is shown, if and only if all pods of the workload ask for the same |
| CachedTicks.LastReadDecidesTick | internal/costpatcher/reconcile.go:44-127 | after a whole clean tick a workload that is not set to zero shows what its last pod asks for exactly when that pod's read suffices; an uncached read always does |
| CachedTicks.CachedTickDecides | internal/costpatcher/reconcile.go:44-127 | what every workload shows after a whole tick, whenever nothing is cached, nothing lags or its pods agree |
| CachedTicks.CachedQuietIff | internal/costpatcher/reconcile.go:50-115 | a pod's step sends no patch exactly when its wish is fulfilled in what it reads |
| CachedTicks.SecondCachedTickIsQuiet | internal/costpatcher/reconcile.go:44-127 | after a clean tick, however far the cache lags in it and in the next one, the next tick over the same inputs sends no patch if and only if the pods of every workload ask for the same, and pods of an InferenceService that is set to zero ask for zero cost |
| Reconciler.ApiServer.Patch | internal/costpatcher/platform/patch.go:140-148 | the difference to the original is merged into the live annotations, and the target takes over the result |
| Reconciler.ApiServer.RemoveCostAnnotations | internal/costpatcher/platform/patch.go:84-115 | removes the rate keys of a target that has any, by one patch |
| Reconciler.ApiServer.PatchTargetAnnotations | internal/costpatcher/platform/patch.go:118-149 | writes a result unless the skip test skips it, and tells whether that failed |
| Reconciler.ApiServer.PatchTotalCostIfComplete | internal/costpatcher/platform/kubeflow_trainer.go:84-125 | writes the total cost of an ended job once |
| Reconciler.ApiServer.WriteTargetCost | internal/costpatcher/platform/kubeflow_trainer.go:66-71 | rates first, then the total unless the first patch failed |
| Reconciler.CostReconciler.VisitPod | internal/costpatcher/reconcile.go:50-115 | one pass of the pod loop is one step of the model, Deployments and StatefulSets read from the cache; false means that a query failed |
| Reconciler.CostReconciler.VisitPods | internal/costpatcher/reconcile.go:50-115 | the pod loop with its early end |
| Reconciler.CostReconciler.VisitService | internal/costpatcher/platform/kserve.go:83-120 | one round of the scale-to-zero loop is one step of the model; false means that it ends the pass |
| Reconciler.CostReconciler.ReconcileOwners | internal/costpatcher/platform/kserve.go:69-122 | the scale-to-zero pass with its early ends |
| Reconciler.CostReconciler.Tick | internal/costpatcher/reconcile.go:44-127 | the tick on mutable objects is the step function of the cached client, for every lag |
| EndToEnd.CliReadsLastPod | internal/costpatcher/reconcile.go:44-127 | after a clean tick in which the last pod's read missed nothing the CLI reads the rounded cost of that pod, no token cost while it is not serving, and the fleet cost by the ready replicas or what stands in for them; the GPU count is the pod's |
| EndToEnd.CliReadsZero | internal/costpatcher/platform/kserve.go:69-122 | after a clean tick the CLI reads zero cost and no token cost for a service that is scaled to zero, with the GPU count of its spec |
| EndToEnd.QueryFindsPodCost | internal/costpatcher/reconcile.go:77-80 | the tick's query finds the pod's one recorded series, or none |
| EndToEnd.CliShowsLimitsTimesPrice | internal/cost/collect.go:248-274 | what the CLI shows per replica is, under the same condition, the last pod's GPU limits times its node's price, rounded |
| Calendar.MonthSurrounds | operator/internal/controller/teaminferencequota_controller.go:239-251 | the month start is not after, the next reset is after the time, and no other month starts between |
| Calendar.HoursInMonth | operator/internal/controller/teaminferencequota_controller.go:239-244 | 24 hours for each day of the month that is over and the part of the present one; below the length of the month |
| Calendar.InstantIs | operator/internal/controller/teaminferencequota_controller.go:239-251 | an instant in closed form by the Gregorian leap rule, which the months add up to |
| Phase.RemainingIsClose | operator/internal/controller/phase.go:80-103 | the percentage is within one half of the true rest |
| Phase.NothingLeft | operator/internal/controller/phase.go:80-103 | 0 is shown exactly when more than 99.5 percent are used |
| Phase.LeftAtLeast | operator/internal/controller/phase.go:66-103 | at least n is shown exactly when at most 100.5 - n percent are used |
| Phase.TokensFitIff | operator/internal/controller/teaminferencequota_controller.go:142-158 | the rounded token count never contradicts the threshold exactly for the budgets that pass an integer test |
| Phase.LargeBudgetIsFine | operator/internal/controller/teaminferencequota_controller.go:142-158 | budgets of 100 tokens and more pass that test |
| Phase.SmallBudgetDoesNotFit | operator/internal/controller/teaminferencequota_controller.go:142-158 | a budget of one token shows 0 percent left while the quota is Active |
| QuotaController.Reconcile | operator/internal/controller/teaminferencequota_controller.go:69-177 | the copy that was read, possibly an old one, is evaluated, events are emitted from it and the difference is merged into the live status |
| QuotaController.Quota.ApplyUnknownStatus | operator/internal/controller/teaminferencequota_controller.go:190-198 | the unknown status field by field |
| QuotaController.Recorder.EmitPhaseEventIfNeeded | operator/internal/controller/teaminferencequota_controller.go:257-280 | an event for every change of phase but the first activation, a warning for Exceeded and Unknown |
| QuotaController.Recorder.EmitAuditEventIfNeeded | operator/internal/controller/teaminferencequota_controller.go:285-327 | an event for every change into Warning or Exceeded in Audit mode |
| QuotaController.StoredQuota.PatchStatus | operator/internal/controller/teaminferencequota_controller.go:179-188 | an unchanged status is not patched, an accepted patch sends the fields that differ from the read, a refused one changes nothing |
| QuotaController.MergedIs | operator/internal/controller/teaminferencequota_controller.go:179-188 | what an accepted patch leaves, field by field |
| QuotaRuns.EvaluateOk | operator/internal/controller/teaminferencequota_controller.go:69-177 | Unknown exactly when Prometheus is not reached, percentages within 0 to 100, evaluation time within the month that ends at the reset |
| QuotaRuns.PhaseOfEvaluation | operator/internal/controller/phase.go:27-64 | the phase by comparisons of tokens and cost with budget, limit and threshold: Exceeded, Warning or Active |
| QuotaRuns.FiguresOfEvaluation | operator/internal/controller/teaminferencequota_controller.go:142-160 | rounded tokens, cost with two decimals, 0 percent where there is no limit, evaluation time and conditions |
| QuotaRuns.FailedEvaluation | operator/internal/controller/teaminferencequota_controller.go:92-140 | the status when the limit is no number, Prometheus is not configured or a query fails |
| QuotaRuns.LimitOfText | operator/internal/controller/teaminferencequota_controller.go:224-237 | a limit is a number that is not negative, with blanks around it |
| QuotaRuns.RunKeepsStatusOk | operator/internal/controller/teaminferencequota_controller.go:69-188 | that holds in every state of every run |
| QuotaRuns.CostPercentageFits | operator/internal/controller/phase.go:27-92 | cost percentage within one half, 0 when exceeded by cost, at least 100 - threshold when Active |
| QuotaRuns.TokenPercentageFits | operator/internal/controller/teaminferencequota_controller.go:142-158 | token percentage at least 100 - threshold when Active, for the budgets that pass the test |
| CachedQuotas.FreshRun | operator/cmd/main.go:201-208 | with a cache that never lags a run of the cached controller is the run without a cache |
| CachedQuotas.LogIsHistoryIff | operator/internal/controller/teaminferencequota_controller.go:163-188 | at every moment of a run, whatever the reads lag, the phase events are exactly the reported changes of the persisted phase if and only if no reconcile misreports; the same for audit events |
| CachedQuotas.EventsChainIff | operator/internal/controller/teaminferencequota_controller.go:257-280 | at every moment of a run of a new quota the phase events chain and lead to the persisted phase if and only if no reconcile breaks the chain |
| CachedQuotas.FreshMisreports | operator/internal/controller/teaminferencequota_controller.go:163-168 | on an up-to-date read a reconcile misreports exactly when a reported change is refused |
| CachedQuotas.StaleReadRepeatsWarning | operator/cmd/main.go:201-208 | two reconciles with accepted patches, the second on the old read: the same warning twice |
| QuotaRuns.RefusedPatchRepeatsEvents | operator/internal/controller/teaminferencequota_controller.go:163-168 | a reported change whose patch is refused is reported again by the next reconcile, though the phase did not move |
| QuotaRuns.UnreachablePrometheusRepeatsWarning | operator/internal/controller/teaminferencequota_controller.go:190-198 | a new quota without Prometheus and with refused patches: two reconciles, two warnings, no change |
| Webhook.Validator.ValidateCreate | operator/internal/webhook/pod_webhook.go:58-102 | the loop decides as the fold does and records an event for each audited quota before it stops |
| Webhook.AuditedIff | operator/internal/webhook/pod_webhook.go:75-99 | an audit event is emitted for exactly the Exceeded quotas in Audit mode with no Unknown and no blocking quota before them |
| Webhook.AuditedInOrder | operator/internal/webhook/pod_webhook.go:75-99 | and in the order of the list |
| Webhook.DeniedIff | operator/internal/webhook/pod_webhook.go:75-99 | denied exactly when a blocking quota has no Unknown one before it |
| Webhook.OrderFreeWithoutUnknown | operator/internal/webhook/pod_webhook.go:75-99 | without an Unknown quota the answer is the same for every order of the list |
| Webhook.OrderMattersIff | operator/internal/webhook/pod_webhook.go:75-99 | the order matters exactly when there is an Unknown and a blocking quota |
| Webhook.DeniedIffOverLimit | operator/internal/webhook/pod_webhook.go:58-102 | over any histories of reconciles, refused patches and edits: denied exactly when a quota not in Audit mode at admission was at or over a limit at its last persisted evaluation, and no quota before it was without answers |
| Pricing.SortStrings | internal/costpatcher/pricing/collector.go:150-158 | the exchange sort gives a sorted permutation |
| Pricing.LessIff | internal/costpatcher/pricing/collector.go:150-158 | the order of the sort is the lexicographic one |
| Pricing.MergeSortedUnique | internal/costpatcher/pricing/collector.go:134-148 | the strictly sorted union of two lists |
| Pricing.UnionKeysFromDoc | internal/costpatcher/pricing/collector.go:116-132 | the strictly sorted label keys of a document |
| Pricing.GaugeCollector.SetDocument | internal/costpatcher/pricing/collector.go:27-32 | the union stays sorted and covers the new document, and no key is lost |
| Pricing.GaugeCollector.Collect | internal/costpatcher/pricing/collector.go:70-106 | one row per rule that gives back the labels of the rule, and one metric per priced node |
| Pricing.RowGivesBackRule | internal/costpatcher/pricing/collector.go:86-92 | a row gives back the labels of its rule exactly when every label that is not empty has a column |
| Pricing.UnionOfAllLoads | internal/costpatcher/pricing/collector.go:27-32 | after any sequence of loads the union is the sorted list of all keys ever loaded |
| Pricing.KeysStay | internal/costpatcher/pricing/collector.go:27-32 | a key stays in the union once it is there |
| Pricing.LoadOrderDoesNotMatter | internal/costpatcher/pricing/collector.go:27-48 | the label names depend only on which keys were loaded, not on the order of the loads |
| Commas.FormatCount | operator/internal/webhook/pod_webhook.go:186-202 | the loop with its short cut writes the grouped digits |
| Commas.CountRoundTrip | operator/internal/webhook/pod_webhook.go:186-202 | a printed count, commas taken out, denotes the count |
| Commas.GroupsOfThree | operator/internal/webhook/pod_webhook.go:195-200 | counted from the right every fourth character is a comma and no other, and none stands at an end |
| Commas.FormatWithCommas | internal/cost/render.go:92-115 | the CLI's version regroups the whole part and keeps sign and decimals |
| Commas.FormattedAmountRoundTrip | internal/cost/render.go:92-115 | an amount, commas taken out, is the amount as printed |
| Commas.PrintedAmountIsGrouped | internal/cost/render.go:92-115 | a printed amount keeps sign and decimals, and in its whole part every fourth character from the right is a comma and no other |
| Slug.SlugIsLabel | internal/deploy/names.go:9-25 | every slug is a host label of 1 to 63 characters without a hyphen at either end |
| Slug.SlugIsIdempotent | internal/deploy/names.go:9-25 | the slug of a slug is the slug |
| Slug.RunBecomesHyphen | internal/deploy/names.go:9-16 | every maximal run of other characters becomes one hyphen |
| Slug.SlugOfTwo | internal/deploy/names.go:12-25 | a slash, or a run of characters without a place in a label, joins two labels by one hyphen |
| Slug.SlugOfSlashes | internal/deploy/names.go:14 | every slash between two labels becomes a hyphen of its own |
| Slug.SlugCharIff | internal/deploy/names.go:9 | small ASCII letters, digits and the hyphen are kept |
| Slug.NothingLeftIsModel | internal/deploy/names.go:17-20 | a name without usable characters has the slug "model" |
| Slug.LongNameIsCut | internal/deploy/names.go:21-24 | a long name is cut to 63 characters and then before trailing hyphens |

## Left out

- Kubernetes clients and caches, Prometheus HTTP, tickers, HTTP servers, CLI commands, table layout and the object building of `install` and `deploy`: no deep property.
- Reconciler.CostReconciler.Tick: a cached read is a state of the present tick; a cache that is older than the tick is not modelled.
- CachedTicks.SecondCachedTickIsQuiet: likewise, the second tick reads nothing older than its own start.
- CachedInvariants.RunIsConsistent: foreign edits happen between ticks; during one, a removal from a lagging read can drop them in the case of `MergePatch.RemovalKeepsForeign`.
- QuotaRuns.RunKeepsStatusOk: on up-to-date reads, and so is the persisted status in Webhook.DeniedIffOverLimit; with old reads the fields of a status can come from different reconciles.
- Reconciler.ApiServer.PatchTotalCostIfComplete: durations are unbounded, so the saturation of Go durations at 292 years is not modelled.
- CostFormat.ParseFormatCost: the reader is modelled on decimal numerals; exponents, hexadecimal numerals, underscores, NaN and infinities, which the patcher never prints, are read as no number, and the last rounding to a 64-bit float is left out.
- Costs that are NaN, infinite or negative zero, and the overflow of 64-bit integers.
- RecordingRules.TokenCosts: `rate(...)` is an input vector; windows and counter resets are not modelled.
- RecordingRules.GpuCostIsPodCosts: assumes one node per pod, limits that differ in more than the node label, one price per node, at most one kube_pod_labels series per pod, and info metrics with value 1; `kubefisher:gpu_efficiency_pct` is not modelled.
- Parsing of YAML, resource quantities and RFC 3339 times: parsed values are inputs, and quantities are not negative; the GPU count in an InferenceService's spec is an input too.
- A RayService with a malformed status and objects that disappear during a tick.
- QuotaController.Reconcile: a quota that is not found and a missing event recorder are not modelled, and a monthly limit with an exponent, which the CRD's pattern excludes, counts as unparsable.
- Condition reasons, messages and transition times, event messages and exported quota metrics.
- The month-to-date cost is the answer to the controller's query; the query's own arithmetic (cost per hour, divided by 3600, times the hours of the month) is Prometheus'.
- Slug.SlugIsLabel: holds for any lower-casing by character; Slug.SlugIsIdempotent needs one that leaves slugs alone, as Go's does.
- The rows and the footer of the cost table, platform names, pod specs found in unstructured objects, and label names that collide after kube-state-metrics renaming.
