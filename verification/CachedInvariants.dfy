/**
 What every tick and every run of the deployed client keeps, whatever fails and
 however far its cache lags, and exactly when the cost annotations of a cached
 workload stay consistent.
 */
module CachedInvariants {
  import opened Options
  import opened Numerals
  import opened CostFormat
  import opened Contract
  import opened CostAnnotations
  import opened MergePatch
  import opened Prometheus
  import opened Gpu
  import opened Workloads
  import opened Ticks
  import opened TickInvariants
  import opened TickConvergence
  import opened CachedTicks
  import opened Lags

  // ---- one merge from a lagging read ----

  /**
   A removal that is sent after a lagging read deletes only the keys of the read:
   the annotations stay consistent exactly when the live object has no other rate
   key, or the whole map is dropped.
   */
  lemma LaggingRemovalConsistentIff(typ: TargetType, live: Annotations, read: Annotations)
    requires Consistent(live) && Consistent(read) && !(read.Keys !! RATE_KEYS)
    ensures Consistent(RemovedFrom(typ, live, read)) <==>
            DropsAll(typ, read) || forall key :: key in RATE_KEYS && key in live ==> key in read
  {
    var after := RemovedFrom(typ, live, read);
    assert PerReplica in read && PerHour in read;
    forall key | !DropsAll(typ, read)
      ensures AgreeAt(after, if key in RATE_KEYS && key in read then map[] else live, key)
    {
      RemovedIsEmptyIff(read);
      SentAt(typ, live, read, Removed(read), key);
    }
    RemovedIsEmptyIff(read);
  }

  /**
   A write that is sent after a lagging read keeps the annotations consistent,
   unless the read shows the hourly cost as wished, the live object has none, and
   something else is written.
   */
  lemma LaggingWriteConsistentIff(typ: TargetType, live: Annotations, read: Annotations, res: CostResult)
    requires Consistent(live) && Consistent(read)
    requires res.costPerHour.Some? && ShouldPatch(read, res)
    ensures Consistent(WrittenFrom(typ, live, read, res)) <==>
            || !Holds(read, PerReplica, FormatCost(res.costPerHour.value))
            || PerReplica in live
            || forall key :: HeldAt(read, res, key)
  {
    hide FormatCost, FormatInt, FleetCost, Patched, ShouldPatch, Sent, Desired;
    DesiredKeys(res);
    assert HeldAt(read, res, PerReplica) <==> HeldAt(read, res, PerHour);
    SentKey(typ, live, read, res, PerReplica);
    SentKey(typ, live, read, res, PerHour);
    SentKey(typ, live, read, res, Total);
    SentKey(typ, live, read, res, PerToken);
    SentKey(typ, live, read, res, GpuCount);
    SentKey(typ, live, read, res, Updated);
  }

  /** A write that is sent leaves a key as it is live where the read has what is desired. */
  lemma SentKey(typ: TargetType, live: Annotations, read: Annotations, res: CostResult, key: Key)
    requires ShouldPatch(read, res)
    ensures var after := WrittenFrom(typ, live, read, res);
            && (!HeldAt(read, res, key) ==> Holds(after, key, Desired(res, key).value))
            && (Desired(res, key).None? && key !in live ==> key !in after)
            && (HeldAt(read, res, key) && Desired(res, key).Some? ==> AgreeAt(after, live, key))
  {
    hide FormatCost, FormatInt, FleetCost, Patched, ShouldPatch, Sent, Desired;
    PatchedAt(read, res, Updated);
    UpdatedIsDesired(res);
    SentAt(typ, live, read, Patched(read, res), key);
    PatchedAt(read, res, key);
  }

  predicate HeldAt(anns: Annotations, res: CostResult, key: Key) {
    Desired(res, key).Some? ==> Holds(anns, key, Desired(res, key).value)
  }

  lemma DesiredKeys(res: CostResult)
    requires res.costPerHour.Some?
    ensures Desired(res, PerReplica) == Desired(res, PerHour) == Some(FormatCost(res.costPerHour.value))
    ensures forall key :: Desired(res, key).Some? ==>
      key == PerReplica || key == PerHour || key == Total || key == PerToken || key == GpuCount || key == Updated
    ensures Desired(res, Updated).Some?
  {
  }

  // ---- exactly when a lag keeps annotations consistent ----

  predicate Writes(env: Env, pod: Pod, owner: OwnerKey) {
    OutcomeOf(env, pod).Write? && OutcomeOf(env, pod).owner == owner
  }

  predicate Removes(env: Env, pod: Pod, owner: OwnerKey) {
    OutcomeOf(env, pod).Remove? && OutcomeOf(env, pod).owner == owner
  }

  /** Some pod of the workload has a cost series and another one has none. */
  predicate Mixed(env: Env, pods: seq<Pod>, owner: OwnerKey) {
    && (exists i :: 0 <= i < |pods| && Writes(env, pods[i], owner))
    && (exists j :: 0 <= j < |pods| && Removes(env, pods[j], owner))
  }

  /** While pods only write, an hourly cost stays; while they only remove, no rate key is added. */
  predicate Follows(writing: bool, earlier: Annotations, later: Annotations) {
    if writing then PerReplica in earlier ==> PerReplica in later
    else forall key :: key in RATE_KEYS && key in later ==> key in earlier
  }

  predicate Uniform(env: Env, pods: seq<Pod>, owner: OwnerKey, writing: bool) {
    forall i :: 0 <= i < |pods| ==> if writing then !Removes(env, pods[i], owner) else !Writes(env, pods[i], owner)
  }

  lemma WriteFollows(typ: TargetType, live: Annotations, read: Annotations, res: CostResult)
    requires Consistent(live) && Consistent(read) && res.costPerHour.Some? && Follows(true, read, live)
    ensures var after := WrittenFrom(typ, live, read, res); Consistent(after) && Follows(true, live, after)
  {
    hide Consistent, WrittenFrom, ShouldPatch, FormatCost, Desired;
    if ShouldPatch(read, res) {
      LaggingWriteConsistentIff(typ, live, read, res);
      SentKey(typ, live, read, res, PerReplica);
      DesiredKeys(res);
    } else {
      assert WrittenFrom(typ, live, read, res) == live by { Unsent(typ, live, read, res); }
    }
  }

  lemma Unsent(typ: TargetType, live: Annotations, read: Annotations, res: CostResult)
    requires !ShouldPatch(read, res)
    ensures WrittenFrom(typ, live, read, res) == live
  {
    hide ShouldPatch;
  }

  lemma RemoveFollows(typ: TargetType, live: Annotations, read: Annotations)
    requires Consistent(live) && Consistent(read) && Follows(false, read, live)
    ensures var after := RemovedFrom(typ, live, read); Consistent(after) && Follows(false, live, after)
  {
    hide Consistent, Sent;
    if !(read.Keys !! RATE_KEYS) {
      LaggingRemovalConsistentIff(typ, live, read);
    }
    hide RemovedFrom;
    forall key | key in RATE_KEYS && key in RemovedFrom(typ, live, read) ensures key in live {
      RemovedFromAt(typ, live, read, key);
    }
  }

  /** A pod of another workload changes nothing. */
  lemma StepElsewhere(env: Env, st: Store, cache: Store, pod: Pod, owner: OwnerKey)
    requires !Writes(env, pod, owner) && !Removes(env, pod, owner)
    ensures CachedStep(env, st, cache, pod).Read(owner) == st.Read(owner)
  {
    hide OutcomeOf, WrittenFrom, RemovedFrom, ShouldPatch, Patched, TotalIsDue, FormatCost, TotalCost;
  }

  lemma StepFollows(env: Env, st: Store, cache: Store, pod: Pod, owner: OwnerKey, writing: bool)
    requires IsCached(owner) && Uniform(env, [pod], owner, writing)
    requires Consistent(st.Read(owner)) && Consistent(cache.Read(owner))
    requires Follows(writing, cache.Read(owner), st.Read(owner))
    ensures var after := CachedStep(env, st, cache, pod).Read(owner);
            Consistent(after) && Follows(writing, st.Read(owner), after)
  {
    hide OutcomeOf, WrittenFrom, RemovedFrom, ShouldPatch, Consistent, StepPod;
    var live, read, typ := st.Read(owner), cache.Read(owner), owner.kind.Type();
    assert [pod][0] == pod;
    if Writes(env, pod, owner) {
      WriteFollows(typ, live, read, OutcomeOf(env, pod).Result(env.clock(st.attempts)));
    } else if Removes(env, pod, owner) {
      RemoveFollows(typ, live, read);
    } else {
      StepElsewhere(env, st, cache, pod, owner);
    }
  }

  /** Among uniform pods the annotations stay consistent, even when queries and patches fail. */
  lemma {:induction false} LoopFollows(
      env: Env, st: Store, pods: seq<Pod>, lag: nat -> nat, owner: OwnerKey, writing: bool, m: nat)
    requires IsLag(lag) && IsCached(owner) && Uniform(env, pods, owner, writing) && m <= |pods|
    requires Consistent(st.Read(owner))
    ensures var part := CachedLoop(env, st, pods[..m], lag).Read(owner);
            var all := CachedLoop(env, st, pods, lag).Read(owner);
            Consistent(all) && Follows(writing, part, all)
    decreases |pods|
  {
    hide CachedStep, CachedLoop, Consistent, Aborts, Writes, Removes, IsCached, Follows, Uniform;
    var n := |pods| - 1;
    FollowsItself(CachedLoop(env, st, pods, lag).Read(owner), writing);
    if pods == [] {
      assert pods[..m] == pods;
      ZeroPods(env, st, lag);
    } else {
      LastStep(env, st, pods, lag);
      UniformPrefix(env, pods, owner, writing, n);
      UniformPrefix(env, pods, owner, writing, lag(n));
      LoopFollows(env, st, pods[..n], lag, owner, writing, lag(n));
      LoopFollows(env, st, pods[..lag(n)], lag, owner, writing, lag(n));
      assert pods[..n][..lag(n)] == pods[..lag(n)] == pods[..lag(n)][..lag(n)];
      var before, cache := CachedLoop(env, st, pods[..n], lag), CachedLoop(env, st, pods[..lag(n)], lag);
      StepFollows(env, before, cache, pods[n], owner, writing);
      FollowsItself(before.Read(owner), writing);
      if m == |pods| {
        assert pods[..m] == pods;
      } else {
        LoopFollows(env, st, pods[..n], lag, owner, writing, m);
        assert pods[..n][..m] == pods[..m];
        FollowsOn(CachedLoop(env, st, pods[..m], lag).Read(owner), before.Read(owner),
                  CachedLoop(env, st, pods, lag).Read(owner), writing);
      }
    }
  }

  lemma LastStep(env: Env, st: Store, pods: seq<Pod>, lag: nat -> nat)
    requires IsLag(lag) && pods != []
    ensures var n := |pods| - 1;
            var before, cache := CachedLoop(env, st, pods[..n], lag), CachedLoop(env, st, pods[..lag(n)], lag);
            CachedLoop(env, st, pods, lag) ==
            if Aborts(env, pods[..n]) then before else CachedStep(env, before, cache, pods[n])
  {
    hide CachedStep, Aborts;
  }

  lemma FollowsItself(anns: Annotations, writing: bool)
    ensures Follows(writing, anns, anns)
  {
  }

  lemma FollowsOn(a: Annotations, b: Annotations, c: Annotations, writing: bool)
    requires Follows(writing, a, b) && Follows(writing, b, c)
    ensures Follows(writing, a, c)
  {
  }

  lemma UniformPrefix(env: Env, pods: seq<Pod>, owner: OwnerKey, writing: bool, m: nat)
    requires Uniform(env, pods, owner, writing) && m <= |pods|
    ensures Uniform(env, pods[..m], owner, writing)
    ensures m < |pods| ==> Uniform(env, [pods[m]], owner, writing)
  {
    hide Writes, Removes;
  }

  // ---- the first pod that differs ----

  lemma {:induction false} FirstDiffering(env: Env, pods: seq<Pod>, owner: OwnerKey) returns (i: nat)
    requires Mixed(env, pods, owner)
    ensures i < |pods| && Mixed(env, pods[..i + 1], owner) && !Mixed(env, pods[..i], owner)
  {
    hide Writes, Removes;
    var n := |pods| - 1;
    if Mixed(env, pods[..n], owner) {
      i := FirstDiffering(env, pods[..n], owner);
      assert pods[..n][..i + 1] == pods[..i + 1] && pods[..n][..i] == pods[..i];
    } else {
      i := n;
      assert pods[..n + 1] == pods;
    }
  }

  /** The kind of the pods before the first one that differs, and that this one is of the other kind. */
  lemma DifferingIsOther(env: Env, pods: seq<Pod>, owner: OwnerKey, i: nat)
    requires i < |pods| && Mixed(env, pods[..i + 1], owner) && !Mixed(env, pods[..i], owner)
    ensures Writes(env, pods[i], owner) <==> !Removes(env, pods[i], owner)
    ensures Uniform(env, pods[..i], owner, Removes(env, pods[i], owner))
    ensures Removes(env, pods[i], owner) ==> exists j :: 0 <= j < i && Writes(env, pods[j], owner)
    ensures Writes(env, pods[i], owner) ==> exists j :: 0 <= j < i && Removes(env, pods[j], owner)
  {
    WritesOrRemoves(env, pods[i], owner);
    hide Writes, Removes;
    var upTo := pods[..i + 1];
    assert forall j :: 0 <= j < i ==> upTo[j] == pods[..i][j] == pods[j];
    var w :| 0 <= w < |upTo| && Writes(env, upTo[w], owner);
    var r :| 0 <= r < |upTo| && Removes(env, upTo[r], owner);
    assert w < i ==> Writes(env, pods[..i][w], owner);
    assert r < i ==> Removes(env, pods[..i][r], owner);
  }

  lemma WritesOrRemoves(env: Env, pod: Pod, owner: OwnerKey)
    ensures !(Writes(env, pod, owner) && Removes(env, pod, owner))
  {
    hide OutcomeOf;
  }

  /** Annotations with an hourly cost and somebody else's key. */
  function Start(cost: string): Annotations {
    map[PerReplica := cost, PerHour := cost, Foreign("deployment.kubernetes.io/revision") := "1"]
  }

  lemma StartIsConsistent(cost: string)
    ensures Consistent(Start(cost)) && !(Start(cost).Keys !! RATE_KEYS)
    ensures forall typ :: !DropsAll(typ, Start(cost))
  {
    assert PerReplica in Start(cost).Keys;
    assert Foreign("deployment.kubernetes.io/revision") in Start(cost).Keys;
  }

  /** A write that reads the start adds the GPU count. */
  lemma WriteAddsCount(env: Env, st: Store, cache: Store, pod: Pod, owner: OwnerKey, cost: string)
    requires PatchesSucceed(env) && IsCached(owner) && Writes(env, pod, owner) && cache.Read(owner) == Start(cost)
    ensures GpuCount in CachedStep(env, st, cache, pod).Read(owner)
  {
    hide OutcomeOf, WrittenFrom, FormatCost, FormatInt, FleetCost, Desired;
    var res := OutcomeOf(env, pod).Result(env.clock(st.attempts));
    CountIsDesired(res);
    SentKey(owner.kind.Type(), st.Read(owner), cache.Read(owner), res, GpuCount);
  }

  lemma CountIsDesired(res: CostResult)
    requires res.gpuCount.Some?
    ensures Desired(res, GpuCount).Some?
    ensures forall cost :: ShouldPatch(Start(cost), res)
  {
    hide FormatCost, FleetCost;
  }

  /** A removal that reads the start deletes the hourly cost. */
  lemma RemovalDropsHour(env: Env, st: Store, cache: Store, pod: Pod, owner: OwnerKey, cost: string)
    requires PatchesSucceed(env) && IsCached(owner) && Removes(env, pod, owner) && cache.Read(owner) == Start(cost)
    ensures PerReplica !in CachedStep(env, st, cache, pod).Read(owner)
  {
    hide OutcomeOf, RemovedFrom, Start;
    StartIsConsistent(cost);
    StartHasHour(cost);
    RemovedFromAt(owner.kind.Type(), st.Read(owner), cache.Read(owner), PerReplica);
  }

  lemma StartHasHour(cost: string)
    ensures Holds(Start(cost), PerReplica, cost) && GpuCount !in Start(cost)
  {
  }

  /** With a stuck cache and pods that only write, one of them is enough to add the GPU count. */
  lemma {:induction false} WritersAddCount(env: Env, st: Store, pods: seq<Pod>, owner: OwnerKey, cost: string)
    requires PatchesSucceed(env) && !Aborts(env, pods) && IsCached(owner) && st.Read(owner) == Start(cost)
    requires Uniform(env, pods, owner, true) && exists j :: 0 <= j < |pods| && Writes(env, pods[j], owner)
    ensures GpuCount in CachedLoop(env, st, pods, Stuck()).Read(owner)
    decreases |pods|
  {
    hide CachedStep, CachedLoop, Writes, Removes, IsCached, Start, PatchesSucceed, Aborts;
    var n := |pods| - 1;
    FrontDoesNotAbort(env, pods);
    LastStep(env, st, pods, Stuck());
    ZeroPods(env, st, Stuck());
    assert pods[..0] == [];
    var before := CachedLoop(env, st, pods[..n], Stuck());
    if Writes(env, pods[n], owner) {
      WriteAddsCount(env, before, st, pods[n], owner, cost);
    } else {
      var j :| 0 <= j < |pods| && Writes(env, pods[j], owner);
      assert pods[..n][j] == pods[j];
      WritersAddCount(env, st, pods[..n], owner, cost);
      StepElsewhere(env, before, st, pods[n], owner);
    }
  }

  /** With a stuck cache and pods that only remove, one of them is enough to delete the hourly cost. */
  lemma {:induction false} RemoversDropHour(env: Env, st: Store, pods: seq<Pod>, owner: OwnerKey, cost: string)
    requires PatchesSucceed(env) && !Aborts(env, pods) && IsCached(owner) && st.Read(owner) == Start(cost)
    requires Uniform(env, pods, owner, false) && exists j :: 0 <= j < |pods| && Removes(env, pods[j], owner)
    ensures PerReplica !in CachedLoop(env, st, pods, Stuck()).Read(owner)
    decreases |pods|
  {
    hide CachedStep, CachedLoop, Writes, Removes, IsCached, Start, PatchesSucceed, Aborts;
    var n := |pods| - 1;
    FrontDoesNotAbort(env, pods);
    LastStep(env, st, pods, Stuck());
    ZeroPods(env, st, Stuck());
    assert pods[..0] == [];
    var before := CachedLoop(env, st, pods[..n], Stuck());
    if Removes(env, pods[n], owner) {
      RemovalDropsHour(env, before, st, pods[n], owner, cost);
    } else {
      var j :| 0 <= j < |pods| && Removes(env, pods[j], owner);
      assert pods[..n][j] == pods[j];
      RemoversDropHour(env, st, pods[..n], owner, cost);
      StepElsewhere(env, before, st, pods[n], owner);
    }
  }

  /** A removal after writes leaves the count without an hourly cost. */
  lemma RemovalAfterWrites(env: Env, st: Store, cache: Store, pod: Pod, owner: OwnerKey, cost: string)
    requires PatchesSucceed(env) && IsCached(owner) && Removes(env, pod, owner) && cache.Read(owner) == Start(cost)
    requires Consistent(st.Read(owner)) && GpuCount in st.Read(owner)
    ensures !Consistent(CachedStep(env, st, cache, pod).Read(owner))
  {
    hide OutcomeOf, RemovedFrom, Start, Consistent;
    StartIsConsistent(cost);
    StartHasHour(cost);
    LaggingRemovalConsistentIff(owner.kind.Type(), st.Read(owner), cache.Read(owner));
  }

  /** A write after removals does not bring back an hourly cost that its read shows as wished. */
  lemma WriteAfterRemovals(env: Env, st: Store, cache: Store, pod: Pod, owner: OwnerKey)
    requires PatchesSucceed(env) && IsCached(owner) && Writes(env, pod, owner)
    requires cache.Read(owner) == Start(FormatCost(OutcomeOf(env, pod).rate))
    requires Consistent(st.Read(owner)) && PerReplica !in st.Read(owner)
    ensures !Consistent(CachedStep(env, st, cache, pod).Read(owner))
  {
    hide OutcomeOf, WrittenFrom, Start, Consistent, FormatCost, FormatInt, FleetCost, Desired, ShouldPatch;
    var cost := FormatCost(OutcomeOf(env, pod).rate);
    var res := OutcomeOf(env, pod).Result(env.clock(st.attempts));
    StartIsConsistent(cost);
    StartHasHour(cost);
    CountIsDesired(res);
    assert !HeldAt(Start(cost), res, GpuCount);
    LaggingWriteConsistentIff(owner.kind.Type(), st.Read(owner), cache.Read(owner), res);
  }

  /** From every consistent start and with every lag, the annotations are consistent after each pod. */
  ghost predicate KeepsConsistent(env: Env, pods: seq<Pod>, owner: OwnerKey) {
    forall st: Store, lag, n: nat | IsLag(lag) && Consistent(st.Read(owner)) && n <= |pods| ::
      Consistent(CachedLoop(env, st, pods[..n], lag).Read(owner))
  }

  /** The first pod that differs breaks consistency when the cache still shows this start. */
  lemma LastPodBreaks(env: Env, st: Store, front: seq<Pod>, pod: Pod, owner: OwnerKey, cost: string)
    requires IsCached(owner) && PatchesSucceed(env) && !Aborts(env, front) && st.Read(owner) == Start(cost)
    requires Uniform(env, front, owner, Removes(env, pod, owner))
    requires if Removes(env, pod, owner) then exists j :: 0 <= j < |front| && Writes(env, front[j], owner)
             else Writes(env, pod, owner) && exists j :: 0 <= j < |front| && Removes(env, front[j], owner)
    requires OutcomeOf(env, pod).Write? ==> cost == FormatCost(OutcomeOf(env, pod).rate)
    ensures !Consistent(CachedStep(env, CachedLoop(env, st, front, Stuck()), st, pod).Read(owner))
  {
    hide CachedStep, CachedLoop, Writes, Removes, IsCached, Start, PatchesSucceed, OutcomeOf, Consistent;
    hide Uniform, Aborts;
    StartIsConsistent(cost);
    var before := CachedLoop(env, st, front, Stuck());
    LoopFollows(env, st, front, Stuck(), owner, Removes(env, pod, owner), 0);
    if Removes(env, pod, owner) {
      WritersAddCount(env, st, front, owner, cost);
      RemovalAfterWrites(env, before, st, pod, owner, cost);
    } else {
      RemoversDropHour(env, st, front, owner, cost);
      WriteHasRate(env, pod, owner);
      WriteAfterRemovals(env, before, st, pod, owner);
    }
  }

  lemma MixedBreaks(env: Env, pods: seq<Pod>, owner: OwnerKey)
    requires IsCached(owner) && PatchesSucceed(env) && !Aborts(env, pods) && Mixed(env, pods, owner)
    ensures !KeepsConsistent(env, pods, owner)
  {
    hide CachedStep, CachedLoop, Writes, Removes, IsCached, Start, PatchesSucceed, OutcomeOf, Consistent, Uniform;
    hide Mixed, KeepsConsistent, FormatCost;
    var i := FirstDiffering(env, pods, owner);
    DifferingIsOther(env, pods, owner, i);
    var pod, front := pods[i], pods[..i];
    var cost := if OutcomeOf(env, pod).Write? then FormatCost(OutcomeOf(env, pod).rate) else "1";
    var st := Store(map[owner := Start(cost)], 0);
    StartIsConsistent(cost);
    assert forall j :: 0 <= j < i ==> front[j] == pods[j];
    PrefixDoesNotAbort(env, pods, i);
    LastPodBreaks(env, st, front, pod, owner, cost);
    BrokenAt(env, pods, owner, st, i);
  }

  lemma PrefixDoesNotAbort(env: Env, pods: seq<Pod>, m: nat)
    requires m <= |pods| && !Aborts(env, pods)
    ensures !Aborts(env, pods[..m])
  {
    hide OutcomeOf;
    assert forall j :: 0 <= j < m ==> pods[..m][j] == pods[j];
  }

  lemma BrokenAt(env: Env, pods: seq<Pod>, owner: OwnerKey, st: Store, i: nat)
    requires i < |pods| && Consistent(st.Read(owner)) && !Aborts(env, pods[..i])
    requires !Consistent(CachedStep(env, CachedLoop(env, st, pods[..i], Stuck()), st, pods[i]).Read(owner))
    ensures !KeepsConsistent(env, pods, owner)
  {
    hide CachedStep, CachedLoop, Consistent, Aborts;
    var upTo := pods[..i + 1];
    assert upTo[..i] == pods[..i] && upTo[..0] == [] && upTo[i] == pods[i];
    ZeroPods(env, st, Stuck());
    LastStep(env, st, upTo, Stuck());
    assert !Consistent(CachedLoop(env, st, pods[..i + 1], Stuck()).Read(owner));
  }

  lemma WriteHasRate(env: Env, pod: Pod, owner: OwnerKey)
    requires Writes(env, pod, owner)
    ensures OutcomeOf(env, pod).Write?
  {
    hide OutcomeOf;
  }

  /** Without a mixture the annotations stay consistent whatever fails. */
  lemma UnmixedKeeps(env: Env, st: Store, pods: seq<Pod>, lag: nat -> nat, owner: OwnerKey)
    requires IsLag(lag) && IsCached(owner) && !Mixed(env, pods, owner) && Consistent(st.Read(owner))
    ensures Consistent(CachedLoop(env, st, pods, lag).Read(owner))
  {
    hide CachedLoop, Consistent, Writes, Removes, IsCached;
    LoopFollows(env, st, pods, lag, owner, !(exists j :: 0 <= j < |pods| && Removes(env, pods[j], owner)), 0);
  }

  /**
   A lagging cache keeps the cost annotations of a Deployment or StatefulSet
   consistent, for every consistent start and every lag, exactly when its pods
   all have a cost series or all have none.
   */
  lemma ConsistentIffUnmixed(env: Env, pods: seq<Pod>, owner: OwnerKey)
    requires IsCached(owner) && PatchesSucceed(env) && !Aborts(env, pods)
    ensures KeepsConsistent(env, pods, owner) <==> !Mixed(env, pods, owner)
  {
    hide CachedLoop, Consistent, Writes, Removes, IsCached, PatchesSucceed, Aborts;
    if Mixed(env, pods, owner) {
      MixedBreaks(env, pods, owner);
    } else {
      forall st: Store, lag, n: nat | IsLag(lag) && Consistent(st.Read(owner)) && n <= |pods|
        ensures Consistent(CachedLoop(env, st, pods[..n], lag).Read(owner))
      {
        assert !Mixed(env, pods[..n], owner);
        UnmixedKeeps(env, st, pods[..n], lag, owner);
      }
    }
  }

  // ---- one pod with a price and one without ----

  const WEB := OwnerKey(DeploymentKind, "ml", "web")

  function WebPod(name: string): Pod {
    Pod("ml", name, map[], Running, [], [Container(Some(Quantity(1000)), None)], [],
        Some(OwnerRef(RefReplicaSet, "web-1")), false)
  }

  /** A Deployment with two serving pods: a has a cost and now also a token cost, b has lost its cost series. */
  const WEB_ENV: Env :=
    Env(World([WebPod("a"), WebPod("b")], map[WEB := WEB_OWNER],
              map[("ml", "web-1") := Some(OwnerRef(RefDeployment, "web"))], map[], []),
        [Generic], true, true, _ => true,
        (_, name) => if name == "a" then Sample(1.0) else NoSeries, (_, _) => Sample(0.5), _ => "now", _ => true)

  const WEB_OWNER: Owner :=
    Owner(Some(2), None, Some(2), NoComponents, Missing, 0, TrainJob.JobStatus([], None, None))

  /** What the patcher itself wrote earlier, when there was no token cost. */
  function EarlierWrite(): Annotations {
    Patched(map[Foreign("deployment.kubernetes.io/revision") := "1"],
      CostResult(Some(1.0), None, Some(1), Some(2), "then"))
  }

  lemma WebOutcomes()
    ensures OutcomeOf(WEB_ENV, WebPod("a")) == Write(WEB, 1.0, Some(0.5), 1, 2)
    ensures OutcomeOf(WEB_ENV, WebPod("b")) == Remove(WEB)
  {
    forall name ensures WebPod(name).GPUs() == 1 {
      var containers := WebPod(name).containers;
      assert containers[..0] == [] && Sum(containers[..0], LimitOrRequest) == 0;
    }
    var ref := Some(OwnerRef(RefReplicaSet, "web-1"));
    assert Walk(WEB_ENV.world, "ml", ref, 16) == Walk(WEB_ENV.world, "ml", Some(OwnerRef(RefDeployment, "web")), 15);
    assert Walk(WEB_ENV.world, "ml", ref, 16) == Some(WEB);
  }

  lemma EarlierWriteHas()
    ensures PerReplica in EarlierWrite() && PerToken !in EarlierWrite()
    ensures Foreign("deployment.kubernetes.io/revision") in EarlierWrite()
    ensures Consistent(EarlierWrite())
  {
    hide FormatCost, FormatInt, FleetCost, Patched, Built;
    var res := CostResult(Some(1.0), None, Some(1), Some(2), "then");
    var before: Annotations := map[Foreign("deployment.kubernetes.io/revision") := "1"];
    PatchedAt(before, res, PerReplica);
    PatchedAt(before, res, PerHour);
    PatchedAt(before, res, PerToken);
    PatchedAt(before, res, Foreign("deployment.kubernetes.io/revision"));
  }

  lemma WebIsMixed()
    ensures Mixed(WEB_ENV, WEB_ENV.world.pods, WEB) && PatchesSucceed(WEB_ENV) && NoFailures(WEB_ENV)
    ensures !Aborts(WEB_ENV, [WebPod("a")])
  {
    hide OutcomeOf, WebPod;
    WebOutcomes();
    assert WEB_ENV.world.pods[0] == WebPod("a") && WEB_ENV.world.pods[1] == WebPod("b");
  }

  /** The state after both pods: nothing else happens in the tick. */
  lemma WebTick(st: Store)
    ensures CachedTick(WEB_ENV, st, Stuck()) ==
            CachedStep(WEB_ENV, CachedStep(WEB_ENV, st, st, WebPod("a")), st, WebPod("b"))
  {
    hide CachedStep, CachedLoop, WebPod, OwnerPass, Aborts;
    WebIsMixed();
    var env, pods := WEB_ENV, WEB_ENV.world.pods;
    assert pods[..1] == [WebPod("a")] && pods[..0] == [] && pods[..1][..0] == [];
    ZeroPods(env, st, Stuck());
    LastStep(env, st, pods[..1], Stuck());
    LastStep(env, st, pods, Stuck());
    NothingAborts(env, []);
    OwnerPassShows(env, CachedLoop(env, st, pods, Stuck()), env.adapters);
  }

  lemma NothingAborts(env: Env, none: seq<Pod>)
    requires none == []
    ensures !Aborts(env, none)
  {
  }

  /**
   A tick from annotations of the patcher's own making, with a cache that does not
   yet show pod a's write when pod b is visited: the token cost is left without an
   hourly cost.
   */
  lemma MixedWebLosesHour()
    ensures Mixed(WEB_ENV, WEB_ENV.world.pods, WEB) && PatchesSucceed(WEB_ENV) && NoFailures(WEB_ENV)
    ensures Consistent(EarlierWrite())
    ensures var after := CachedTick(WEB_ENV, Store(map[WEB := EarlierWrite()], 0), Stuck()).Read(WEB);
            PerToken in after && PerReplica !in after && !Consistent(after)
  {
    hide CachedStep, CachedTick, WebPod, EarlierWrite;
    WebIsMixed();
    EarlierWriteHas();
    var st := Store(map[WEB := EarlierWrite()], 0);
    WebTick(st);
    WebFirst(st);
    WebSecond(CachedStep(WEB_ENV, st, st, WebPod("a")), st);
  }

  /** Pod a's write adds the token cost. */
  lemma WebFirst(st: Store)
    requires st == Store(map[WEB := EarlierWrite()], 0)
    ensures PerToken in CachedStep(WEB_ENV, st, st, WebPod("a")).Read(WEB)
  {
    WebOutcomes();
    EarlierWriteHas();
    hide OutcomeOf, WrittenFrom, FormatCost, FormatInt, FleetCost, EarlierWrite, WebPod;
    var res := OutcomeOf(WEB_ENV, WebPod("a")).Result("now");
    assert HeldAt(EarlierWrite(), res, PerToken) ==> false;
    SentKey(Deployment, EarlierWrite(), EarlierWrite(), res, PerToken);
  }

  /** Pod b's removal does not see it. */
  lemma WebSecond(st: Store, cache: Store)
    requires cache.Read(WEB) == EarlierWrite() && PerToken in st.Read(WEB)
    ensures var after := CachedStep(WEB_ENV, st, cache, WebPod("b")).Read(WEB);
            PerToken in after && PerReplica !in after
  {
    WebOutcomes();
    EarlierWriteHas();
    hide OutcomeOf, RemovedFrom, EarlierWrite, WebPod;
    var read := EarlierWrite();
    RemovedFromAt(Deployment, st.Read(WEB), read, PerToken);
    RemovedFromAt(Deployment, st.Read(WEB), read, PerReplica);
  }

  // ---- whole ticks ----

  /** The patcher's rate keys are the only ones that may differ. */
  ghost predicate SameOutside(a: Annotations, b: Annotations) {
    forall key :: key !in RATE_KEYS ==> AgreeAt(a, b, key)
  }

  lemma OutsideOn(a: Annotations, b: Annotations, c: Annotations)
    requires SameOutside(a, b) && SameOutside(b, c)
    ensures SameOutside(a, c)
  {
    forall key | key !in RATE_KEYS ensures AgreeAt(a, c, key) {
      assert AgreeAt(a, b, key) && AgreeAt(b, c, key);
    }
  }

  lemma WrittenFromOutside(typ: TargetType, live: Annotations, read: Annotations, res: CostResult)
    ensures SameOutside(live, WrittenFrom(typ, live, read, res))
  {
    hide ShouldPatch, Sent, Patched;
    forall key | key !in RATE_KEYS ensures AgreeAt(live, WrittenFrom(typ, live, read, res), key) {
      StaleWrite(typ, live, read, res, key);
    }
  }

  /** A removal touches no other key of an object whose other keys are as they were read. */
  lemma RemovedFromOutside(typ: TargetType, live: Annotations, read: Annotations)
    requires SameOutside(read, live)
    ensures SameOutside(live, RemovedFrom(typ, live, read))
  {
    RemovedIsEmptyIff(read);
    forall key | key !in RATE_KEYS ensures AgreeAt(live, RemovedFrom(typ, live, read), key) {
      assert AgreeAt(read, live, key);
      if !DropsAll(typ, read) {
        SentAt(typ, live, read, Removed(read), key);
      }
    }
  }

  lemma CachedStepOutside(env: Env, st: Store, cache: Store, pod: Pod, owner: OwnerKey)
    requires IsCached(owner) && SameOutside(cache.Read(owner), st.Read(owner))
    ensures SameOutside(st.Read(owner), CachedStep(env, st, cache, pod).Read(owner))
  {
    hide OutcomeOf, WrittenFrom, RemovedFrom, ShouldPatch, StepPod, SameOutside;
    var live, read, typ := st.Read(owner), cache.Read(owner), owner.kind.Type();
    OutsideItself(live);
    if Writes(env, pod, owner) {
      WrittenFromOutside(typ, live, read, OutcomeOf(env, pod).Result(env.clock(st.attempts)));
    } else if Removes(env, pod, owner) {
      RemovedFromOutside(typ, live, read);
    } else {
      StepElsewhere(env, st, cache, pod, owner);
    }
  }

  lemma OutsideItself(a: Annotations)
    ensures SameOutside(a, a)
  {
  }

  /** Of a cached workload the pod loop touches the rate keys only, from every state on. */
  lemma {:induction false} CachedLoopOutside(
      env: Env, st: Store, pods: seq<Pod>, lag: nat -> nat, owner: OwnerKey, m: nat)
    requires IsLag(lag) && IsCached(owner) && m <= |pods|
    ensures SameOutside(CachedLoop(env, st, pods[..m], lag).Read(owner), CachedLoop(env, st, pods, lag).Read(owner))
    decreases |pods|
  {
    hide CachedStep, CachedLoop, Aborts, IsCached, SameOutside;
    var n, all := |pods| - 1, CachedLoop(env, st, pods, lag).Read(owner);
    if m == |pods| {
      assert pods[..m] == pods;
      OutsideItself(all);
    } else {
      CachedLoopOutside(env, st, pods[..n], lag, owner, m);
      CachedLoopOutside(env, st, pods[..n], lag, owner, lag(n));
      assert pods[..n][..m] == pods[..m] && pods[..n][..lag(n)] == pods[..lag(n)];
      var before, cache := CachedLoop(env, st, pods[..n], lag), CachedLoop(env, st, pods[..lag(n)], lag);
      LastStep(env, st, pods, lag);
      CachedStepOutside(env, before, cache, pods[n], owner);
      OutsideItself(before.Read(owner));
      OutsideOn(CachedLoop(env, st, pods[..m], lag).Read(owner), before.Read(owner), all);
    }
  }

  /** A workload that is not cached evolves as on fresh reads. */
  lemma {:induction false} UncachedEvolves(env: Env, st: Store, pods: seq<Pod>, lag: nat -> nat, owner: OwnerKey)
    requires IsLag(lag) && !IsCached(owner)
    ensures Evolves(st.Read(owner), CachedLoop(env, st, pods, lag).Read(owner))
    decreases |pods|
  {
    hide CachedStep, CachedLoop, Aborts, IsCached, Evolves;
    EvolvesItself(st.Read(owner));
    if pods == [] {
      ZeroPods(env, st, lag);
    } else {
      var n := |pods| - 1;
      UncachedEvolves(env, st, pods[..n], lag, owner);
      LastStep(env, st, pods, lag);
      var before, cache := CachedLoop(env, st, pods[..n], lag), CachedLoop(env, st, pods[..lag(n)], lag);
      UncachedStepEvolves(env, before, cache, pods[n], owner);
      EvolvesItself(before.Read(owner));
      EvolvesTransitive(st.Read(owner), before.Read(owner), CachedLoop(env, st, pods, lag).Read(owner));
    }
  }

  lemma EvolvesItself(anns: Annotations)
    ensures Evolves(anns, anns)
  {
  }

  lemma UncachedStepEvolves(env: Env, st: Store, cache: Store, pod: Pod, owner: OwnerKey)
    requires !IsCached(owner)
    ensures Evolves(st.Read(owner), CachedStep(env, st, cache, pod).Read(owner))
  {
    EvolvesItself(st.Read(owner));
    StepPodSteps(env, st, pod);
    if !Writes(env, pod, owner) && !Removes(env, pod, owner) {
      StepElsewhere(env, st, cache, pod, owner);
    }
    hide OutcomeOf, WriteFrom, RemoveFrom, StepPod, Evolves;
  }

  /** The lag cannot make the annotations inconsistent: nothing is cached, nothing lags, or the pods are not mixed. */
  ghost predicate LagCannotMix(env: Env, lag: nat -> nat, owner: OwnerKey) {
    IsCached(owner) && !NeverLags(lag) ==> !Mixed(env, env.world.pods, owner)
  }

  lemma CachedLoopEvolves(env: Env, st: Store, lag: nat -> nat, owner: OwnerKey)
    requires IsLag(lag)
    ensures var before, after := st.Read(owner), CachedLoop(env, st, env.world.pods, lag).Read(owner);
            KeepsTotal(before, after) && SameForeign(before, after)
    ensures LagCannotMix(env, lag, owner) ==>
              Evolves(st.Read(owner), CachedLoop(env, st, env.world.pods, lag).Read(owner))
  {
    hide CachedLoop, PodLoop, IsCached, Consistent, Mixed;
    var pods := env.world.pods;
    if NeverLags(lag) {
      FreshLoop(env, st, pods, lag);
      PodLoopSteps(env, st, pods);
      assert Evolves(st.Read(owner), PodLoop(env, st, pods).Read(owner));
    } else if !IsCached(owner) {
      UncachedEvolves(env, st, pods, lag, owner);
    } else {
      assert pods[..0] == [];
      ZeroPods(env, st, lag);
      CachedLoopOutside(env, st, pods, lag, owner, 0);
      assert AgreeAt(st.Read(owner), CachedLoop(env, st, pods, lag).Read(owner), JobTotal);
      if LagCannotMix(env, lag, owner) && Consistent(st.Read(owner)) {
        UnmixedKeeps(env, st, pods, lag, owner);
      }
    }
  }

  /**
   A tick, however far the cache lags and whichever queries, lists and patches
   fail in it, never changes a job's total cost and never touches a foreign
   annotation; it changes nothing without sending a patch; and it keeps the cost
   annotations consistent unless the cache lags and the workload is a Deployment
   or StatefulSet with mixed pods.
   */
  lemma CachedTickSteps(env: Env, st: Store, lag: nat -> nat, owner: OwnerKey)
    requires IsLag(lag)
    ensures var before, after := st.Read(owner), CachedTick(env, st, lag).Read(owner);
            && KeepsTotal(before, after) && SameForeign(before, after)
            && (LagCannotMix(env, lag, owner) ==> Evolves(before, after))
    ensures var after := CachedTick(env, st, lag);
            st.attempts <= after.attempts && (st.attempts == after.attempts ==> st == after)
  {
    hide CachedLoop, OwnerPass, Aborts, Consistent, LagCannotMix, KeepsTotal;
    var mid := CachedLoop(env, st, env.world.pods, lag);
    EvolvesItself(st.Read(owner));
    CachedLoopEvolves(env, st, lag, owner);
    assert env.world.pods[..0] == [];
    ZeroPods(env, st, lag);
    CachedLoopAttempts(env, st, env.world.pods, lag, 0);
    OwnerPassSteps(env, mid, env.adapters);
    var after := OwnerPass(env, mid, env.adapters);
    assert Evolves(mid.Read(owner), after.Read(owner));
    KeptOn(st.Read(owner), mid.Read(owner), after.Read(owner));
  }

  lemma KeptOn(a: Annotations, b: Annotations, c: Annotations)
    requires KeepsTotal(a, b) && SameForeign(a, b) && Evolves(b, c)
    ensures KeepsTotal(a, c) && SameForeign(a, c)
    ensures Evolves(a, b) ==> Evolves(a, c)
  {
    forall name ensures AgreeAt(a, c, Foreign(name)) {
      assert AgreeAt(a, b, Foreign(name)) && AgreeAt(b, c, Foreign(name));
    }
  }

  // ---- runs ----

  /** A tick with its lag; between ticks anybody may set or delete annotations that are not the cost-patcher's. */
  datatype Event =
    | TickEvent(env: Env, lag: nat -> nat)
    | ForeignEdit(owner: OwnerKey, name: string, value: Option<string>)

  ghost predicate ValidEvents(events: seq<Event>) {
    forall i :: 0 <= i < |events| && events[i].TickEvent? ==> IsLag(events[i].lag)
  }

  ghost function Happen(e: Event, st: Store): Store
    requires e.TickEvent? ==> IsLag(e.lag)
  {
    match e
    case TickEvent(env, lag) => CachedTick(env, st, lag)
    case ForeignEdit(owner, name, value) =>
      var anns := st.Read(owner);
      st.(live := st.live[owner := if value.Some? then anns[Foreign(name) := value.value] else anns - {Foreign(name)}])
  }

  ghost function Run(events: seq<Event>, st: Store): Store
    requires ValidEvents(events)
  {
    if events == [] then st else Happen(events[|events| - 1], Run(events[..|events| - 1], st))
  }

  ghost predicate CannotMix(e: Event, owner: OwnerKey) {
    e.TickEvent? ==> LagCannotMix(e.env, e.lag, owner)
  }

  lemma HappenKeeps(e: Event, st: Store, owner: OwnerKey)
    requires e.TickEvent? ==> IsLag(e.lag)
    ensures CannotMix(e, owner) && Consistent(st.Read(owner)) ==> Consistent(Happen(e, st).Read(owner))
    ensures KeepsTotal(st.Read(owner), Happen(e, st).Read(owner))
    ensures forall name :: e.TickEvent? || e.owner != owner || e.name != name ==>
              AgreeAt(st.Read(owner), Happen(e, st).Read(owner), Foreign(name))
  {
    hide CachedTick, LagCannotMix;
    if e.TickEvent? {
      CachedTickSteps(e.env, st, e.lag, owner);
    }
  }

  /**
   In every state that a run from consistent annotations reaches, the annotations
   of a workload are consistent, if no tick has a lagging cache while its pods
   are mixed. Workloads of other kinds than Deployment and StatefulSet meet this
   condition in every run.
   */
  lemma {:induction false} RunIsConsistent(events: seq<Event>, st: Store, owner: OwnerKey)
    requires ValidEvents(events) && Consistent(st.Read(owner))
    requires forall i :: 0 <= i < |events| ==> CannotMix(events[i], owner)
    ensures Consistent(Run(events, st).Read(owner))
  {
    hide Happen, CannotMix, Consistent;
    if events != [] {
      RunIsConsistent(events[..|events| - 1], st, owner);
      HappenKeeps(events[|events| - 1], Run(events[..|events| - 1], st), owner);
    }
  }

  /** A total cost that is there at some moment of a run is there, the same, at every later moment. */
  lemma {:induction false} TotalIsWrittenOnce(events: seq<Event>, st: Store, i: nat, owner: OwnerKey)
    requires ValidEvents(events) && i <= |events|
    ensures KeepsTotal(Run(events[..i], st).Read(owner), Run(events, st).Read(owner))
  {
    hide Happen;
    if i == |events| {
      assert events[..i] == events;
    } else {
      var front := events[..|events| - 1];
      TotalIsWrittenOnce(front, st, i, owner);
      assert front[..i] == events[..i];
      HappenKeeps(events[|events| - 1], Run(front, st), owner);
    }
  }

  predicate Edits(e: Event, owner: OwnerKey, name: string) {
    e.ForeignEdit? && e.owner == owner && e.name == name
  }

  /** A foreign annotation that nobody else edits in a run is the same at its end. */
  lemma {:induction false} ForeignIsOnlyEdited(events: seq<Event>, st: Store, owner: OwnerKey, name: string)
    requires ValidEvents(events) && forall i :: 0 <= i < |events| ==> !Edits(events[i], owner, name)
    ensures AgreeAt(st.Read(owner), Run(events, st).Read(owner), Foreign(name))
  {
    hide Happen;
    if events != [] {
      var front, last := events[..|events| - 1], events[|events| - 1];
      ForeignIsOnlyEdited(front, st, owner, name);
      assert !Edits(last, owner, name);
      HappenKeeps(last, Run(front, st), owner);
    }
  }
}
