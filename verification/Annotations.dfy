/** The annotation keys of the cost contract. */
module Contract {

  /** An annotation key: one of the seven of the cost-patcher, or anybody else's. */
  datatype Key =
    | PerReplica // kubefisher.io/cost-per-hour-per-replica
    | Total      // kubefisher.io/cost-per-hour-total
    | PerHour    // kubefisher.io/cost-per-hour, the deprecated twin of PerReplica
    | PerToken   // kubefisher.io/cost-per-token
    | Updated    // kubefisher.io/last-updated-at
    | GpuCount   // kubefisher.io/gpu-count
    | JobTotal   // kubefisher.io/total-job-cost-usd
    | Foreign(name: string)

  /** The keys that a cost write may set and that a removal deletes. */
  const RATE_KEYS: set<Key> := {PerReplica, Total, PerHour, PerToken, Updated, GpuCount}

  type Annotations = map<Key, string>

  /** Reading a Go map: the empty string stands for an absent key. */
  function Lookup(anns: Annotations, key: Key): string {
    if key in anns then anns[key] else ""
  }

  predicate AgreeAt(a: Annotations, b: Annotations, key: Key) {
    (key in a <==> key in b) && (key in a ==> a[key] == b[key])
  }

  lemma AgreeEverywhere(a: Annotations, b: Annotations)
    requires forall key :: AgreeAt(a, b, key)
    ensures a == b
  {
    assert forall key :: key in a ==> AgreeAt(a, b, key);
    assert forall key :: key in b ==> AgreeAt(a, b, key);
  }
}

/**
 The annotations of one workload: what a cost result asks for, when a patch is
 skipped, and what a JSON merge patch makes of a possibly stale read.
 */
module CostAnnotations {
  import opened Options
  import opened Numerals
  import opened CostFormat
  import opened Contract

  /** Values to write; None leaves the annotation out. The time is already printed. */
  datatype CostResult = CostResult(
    costPerHour: Option<real>,
    costPerToken: Option<real>,
    gpuCount: Option<int>,
    replicaCount: Option<int>,
    lastUpdatedAt: string)

  /** The cost of the whole fleet: per replica times replicas. */
  function FleetCost(res: CostResult): real
    requires HasTotal(res)
  {
    Times(res.costPerHour.value, res.replicaCount.value)
  }

  function Times(rate: real, n: int): real {
    rate * n as real
  }

  predicate HasTotal(res: CostResult) {
    res.costPerHour.Some? && res.replicaCount.Some? && res.replicaCount.value > 0
  }

  /** The annotations that buildAnnotations puts together, key by key. */
  function Desired(res: CostResult, key: Key): Option<string> {
    if (key == PerReplica || key == PerHour) && res.costPerHour.Some? then
      Some(FormatCost(res.costPerHour.value))
    else if key == Total && HasTotal(res) then
      Some(FormatCost(FleetCost(res)))
    else if key == PerToken && res.costPerToken.Some? then
      Some(FormatCost(res.costPerToken.value))
    else if key == GpuCount && res.gpuCount.Some? then
      Some(FormatInt(res.gpuCount.value))
    else if key == Updated then
      Some(res.lastUpdatedAt)
    else
      None
  }

  /** The desired annotations for the given keys. */
  function BuiltFor(res: CostResult, keys: seq<Key>): (anns: Annotations)
    ensures forall key :: key in anns <==> key in keys && Desired(res, key).Some?
    ensures forall key :: key in anns ==> anns[key] == Desired(res, key).value
  {
    if keys == [] then map[]
    else
      var last := keys[|keys| - 1];
      var rest := BuiltFor(res, keys[..|keys| - 1]);
      if Desired(res, last).Some? then rest[last := Desired(res, last).value] else rest
  }

  function Built(res: CostResult): (anns: Annotations)
    ensures forall key :: key in anns <==> Desired(res, key).Some?
    ensures forall key :: key in anns ==> anns[key] == Desired(res, key).value
  {
    BuiltFor(res, [PerReplica, Total, PerHour, PerToken, Updated, GpuCount])
  }

  method BuildAnnotations(res: CostResult) returns (out: Annotations)
    ensures out == Built(res)
  {
    hide FormatCost, FormatInt, FleetCost, Built, BuiltFor;
    out := map[];
    if res.costPerHour.Some? {
      var perReplica := FormatCost(res.costPerHour.value);
      out := out[PerReplica := perReplica];
      out := out[PerHour := perReplica];
      if res.replicaCount.Some? && res.replicaCount.value > 0 {
        out := out[Total := FormatCost(FleetCost(res))];
      }
    }
    if res.costPerToken.Some? {
      out := out[PerToken := FormatCost(res.costPerToken.value)];
    }
    if res.gpuCount.Some? {
      out := out[GpuCount := FormatInt(res.gpuCount.value)];
    }
    out := out[Updated := res.lastUpdatedAt];
    forall key ensures AgreeAt(out, Built(res), key) {
    }
    AgreeEverywhere(out, Built(res));
  }

  /** The skip test, branch by branch. */
  predicate ShouldPatch(existing: Annotations, res: CostResult) {
    || (res.costPerHour.Some? &&
        var want := FormatCost(res.costPerHour.value);
        || Lookup(existing, PerReplica) != want
        || Lookup(existing, PerHour) != want
        || (HasTotal(res) &&
            Lookup(existing, Total) != FormatCost(FleetCost(res))))
    || (if res.costPerToken.Some? then Lookup(existing, PerToken) != FormatCost(res.costPerToken.value)
        else PerToken in existing)
    || (res.gpuCount.Some? && Lookup(existing, GpuCount) != FormatInt(res.gpuCount.value))
  }

  /** The annotations after a write: the built ones laid over the existing ones, a stale token cost dropped. */
  function Patched(existing: Annotations, res: CostResult): Annotations {
    var merged := existing + Built(res);
    if res.costPerToken.None? then merged - {PerToken} else merged
  }

  /** A write decides the value at one key by what is desired there; elsewhere it keeps what was. */
  lemma PatchedAt(existing: Annotations, res: CostResult, key: Key)
    ensures var after := Patched(existing, res);
            match Desired(res, key)
            case Some(v) => key in after && after[key] == v
            case None => if key == PerToken then key !in after else AgreeAt(after, existing, key)
  {
    hide Built, FormatCost, FormatInt, FleetCost;
  }

  /** The skip test looks at every key but the time stamp and compares it with what a write would leave there. */
  lemma ShouldPatchAt(existing: Annotations, res: CostResult)
    ensures ShouldPatch(existing, res) <==>
            exists key :: key in RATE_KEYS && key != Updated && !AgreeAt(Patched(existing, res), existing, key)
  {
    hide FormatCost, FormatInt, FleetCost, Built, BuiltFor;
    PatchedAt(existing, res, PerReplica);
    PatchedAt(existing, res, PerHour);
    PatchedAt(existing, res, Total);
    PatchedAt(existing, res, PerToken);
    PatchedAt(existing, res, GpuCount);
    var after := Patched(existing, res);
    assert ShouldPatch(existing, res) <==>
      || !AgreeAt(after, existing, PerReplica)
      || !AgreeAt(after, existing, PerHour)
      || !AgreeAt(after, existing, Total)
      || !AgreeAt(after, existing, PerToken)
      || !AgreeAt(after, existing, GpuCount);
  }

  /** Skipping refines patching: a patch is skipped exactly when it would change nothing but the time stamp. */
  lemma SkipIffUnchanged(existing: Annotations, res: CostResult)
    ensures !ShouldPatch(existing, res) <==> Patched(existing, res) - {Updated} == existing - {Updated}
  {
    hide Patched, ShouldPatch, FormatCost, FormatInt, FleetCost;
    ShouldPatchAt(existing, res);
    var after := Patched(existing, res);
    if !ShouldPatch(existing, res) {
      forall key ensures AgreeAt(after - {Updated}, existing - {Updated}, key) {
        if key !in RATE_KEYS {
          PatchedAt(existing, res, key);
        }
        assert key != Updated ==> AgreeAt(after, existing, key);
      }
      AgreeEverywhere(after - {Updated}, existing - {Updated});
    } else {
      var key :| key in RATE_KEYS && key != Updated && !AgreeAt(after, existing, key);
      assert !AgreeAt(after - {Updated}, existing - {Updated}, key);
    }
  }
}
