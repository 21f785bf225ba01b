/**
 The pod loop with the deployed client, which reads Deployments and StatefulSets
 from an informer cache: such a read may miss the patches of earlier pods. Other
 workloads are read from the API server.
 */
module CachedTicks {
  import opened Options
  import opened Numerals
  import opened CostFormat
  import opened Contract
  import opened CostAnnotations
  import opened MergePatch
  import opened Workloads
  import opened Ticks
  import opened TickConvergence
  import opened Lags

  predicate IsCached(owner: OwnerKey) {
    owner.kind.Type().OmitsEmpty()
  }

  /** The informer cache holds the typed objects, and no others. */
  lemma CachedKinds(owner: OwnerKey)
    ensures IsCached(owner) <==> owner.kind == DeploymentKind || owner.kind == StatefulSetKind
  {
  }

  // ---- one write from a cached read ----

  /** The live object after a write that was decided and computed on a read. */
  function WrittenFrom(typ: TargetType, live: Annotations, read: Annotations, res: CostResult): Annotations {
    if ShouldPatch(read, res) then Sent(typ, live, read, Patched(read, res)) else live
  }

  function RemovedFrom(typ: TargetType, live: Annotations, read: Annotations): Annotations {
    if read.Keys !! RATE_KEYS then live else Sent(typ, live, read, Removed(read))
  }

  /** What a wish says about one key; the time stamp is left open unless all is gone. */
  predicate ShowsAt(anns: Annotations, s: Shown, key: Key) {
    match s
    case Gone => key in RATE_KEYS ==> key !in anns
    case Rates(perReplica, total, token, gpus) =>
      match key
      case PerReplica => Holds(anns, key, perReplica)
      case PerHour => Holds(anns, key, perReplica)
      case Total => total.Some? ==> Holds(anns, key, total.value)
      case PerToken => if token.Some? then Holds(anns, key, token.value) else key !in anns
      case GpuCount => gpus.Some? ==> Holds(anns, key, gpus.value)
      case _ => true
  }

  lemma ShowsKeyByKey(anns: Annotations, s: Shown)
    ensures Shows(anns, s) <==> forall key :: ShowsAt(anns, s, key)
  {
    if forall key :: ShowsAt(anns, s, key) {
      assert ShowsAt(anns, s, PerReplica) && ShowsAt(anns, s, PerHour) && ShowsAt(anns, s, Total);
      assert ShowsAt(anns, s, PerToken) && ShowsAt(anns, s, GpuCount);
      assert s.Gone? ==> forall key :: key in RATE_KEYS ==> ShowsAt(anns, s, key);
    }
  }

  /** A key is missed when the read shows it as wished, so that nothing is sent for it, and the live object does not. */
  predicate Misses(live: Annotations, read: Annotations, s: Shown, key: Key) {
    ShowsAt(read, s, key) && !ShowsAt(live, s, key)
  }

  lemma WrittenFromAt(typ: TargetType, live: Annotations, read: Annotations, res: CostResult, key: Key)
    requires res.costPerHour.Some?
    ensures ShowsAt(WrittenFrom(typ, live, read, res), ShownOf(res), key) <==> !Misses(live, read, ShownOf(res), key)
  {
    hide FormatCost, FormatInt, FleetCost, Patched, ShouldPatch, Sent;
    ShowsIffNoPatch(read, res);
    ShowsKeyByKey(read, ShownOf(res));
    PatchedAt(read, res, Updated);
    UpdatedIsDesired(res);
    SentAt(typ, live, read, Patched(read, res), key);
    PatchedAt(read, res, key);
  }

  /** The one removal that does not depend on what is live: it drops the whole annotation map. */
  predicate DropsAll(typ: TargetType, read: Annotations) {
    typ.OmitsEmpty() && read != map[] && read.Keys <= RATE_KEYS
  }

  lemma RemovedFromAt(typ: TargetType, live: Annotations, read: Annotations, key: Key)
    ensures ShowsAt(RemovedFrom(typ, live, read), Gone, key) <==> DropsAll(typ, read) || !Misses(live, read, Gone, key)
  {
    RemovedIsEmptyIff(read);
    if DropsAll(typ, read) {
      var some :| some in read;
      assert some in RATE_KEYS;
      assert Diff(typ, read, Removed(read)) == DropAll;
      assert Sent(typ, live, read, Removed(read)) == map[];
    } else {
      SentAt(typ, live, read, Removed(read), key);
    }
  }

  lemma RemovedIsEmptyIff(read: Annotations)
    ensures Removed(read) == map[] <==> read.Keys <= RATE_KEYS
  {
    if Removed(read) == map[] {
      forall key | key in read ensures key in RATE_KEYS {
        assert key !in RATE_KEYS ==> key in Removed(read);
      }
    }
  }

  // ---- the pod loop ----

  function SendFrom(env: Env, st: Store, owner: OwnerKey, after: Annotations): Store {
    Store(if env.patchOk(st.attempts) then st.live[owner := after] else st.live, st.attempts + 1)
  }

  /** A write that is skipped or sent on the strength of a read. */
  function WriteFrom(env: Env, st: Store, owner: OwnerKey, read: Annotations, res: CostResult): Store {
    if !ShouldPatch(read, res) then st
    else SendFrom(env, st, owner, WrittenFrom(owner.kind.Type(), st.Read(owner), read, res))
  }

  function RemoveFrom(env: Env, st: Store, owner: OwnerKey, read: Annotations): Store {
    if read.Keys !! RATE_KEYS then st
    else SendFrom(env, st, owner, RemovedFrom(owner.kind.Type(), st.Read(owner), read))
  }

  /** One pod, whose workload is read from the cached state if it is of a cached kind. */
  function CachedStep(env: Env, st: Store, cache: Store, pod: Pod): Store {
    match OutcomeOf(env, pod)
    case Remove(owner) =>
      if IsCached(owner) then RemoveFrom(env, st, owner, cache.Read(owner)) else StepPod(env, st, pod)
    case Write(owner, _, _, _, _) =>
      var res := OutcomeOf(env, pod).Result(env.clock(st.attempts));
      if IsCached(owner) then WriteFrom(env, st, owner, cache.Read(owner), res) else StepPod(env, st, pod)
    case _ => st
  }

  /** Step i of the cache is the visit of the pod at place i. */
  function CachedLoop(env: Env, st: Store, pods: seq<Pod>, lag: nat -> nat): Store
    requires IsLag(lag)
    decreases |pods|
  {
    if pods == [] then st
    else
      var n := |pods| - 1;
      var before := CachedLoop(env, st, pods[..n], lag);
      if Aborts(env, pods[..n]) then before
      else CachedStep(env, before, CachedLoop(env, st, pods[..lag(n)], lag), pods[n])
  }

  lemma FreshRemove(env: Env, st: Store, owner: OwnerKey)
    ensures RemoveFrom(env, st, owner, st.Read(owner)) == RemoveRates(env, st, owner)
  {
    FreshRead(owner.kind.Type(), st.Read(owner), Removed(st.Read(owner)));
  }

  lemma FreshWrite(env: Env, st: Store, owner: OwnerKey, res: CostResult)
    ensures WriteFrom(env, st, owner, st.Read(owner), res) == WriteRates(env, st, owner, res)
  {
    hide ShouldPatch, Patched, Sent;
    FreshRead(owner.kind.Type(), st.Read(owner), Patched(st.Read(owner), res));
  }

  /** With an up-to-date cache a step is the step on fresh reads. */
  lemma FreshStep(env: Env, st: Store, pod: Pod)
    ensures CachedStep(env, st, st, pod) == StepPod(env, st, pod)
  {
    hide OutcomeOf, WriteRates, WriteFrom, RemoveRates, RemoveFrom;
    match OutcomeOf(env, pod)
    case Remove(owner) => FreshRemove(env, st, owner);
    case Write(owner, _, _, _, _) => FreshWrite(env, st, owner, OutcomeOf(env, pod).Result(env.clock(st.attempts)));
    case _ =>
  }

  /** The loop on fresh reads is the cached loop with a cache that never lags. */
  lemma {:induction false} FreshLoop(env: Env, st: Store, pods: seq<Pod>, lag: nat -> nat)
    requires NeverLags(lag)
    ensures CachedLoop(env, st, pods, lag) == PodLoop(env, st, pods)
  {
    hide CachedStep, StepPod, Aborts;
    if pods != [] {
      var n := |pods| - 1;
      FreshLoop(env, st, pods[..n], lag);
      FreshStep(env, PodLoop(env, st, pods[..n]), pods[n]);
    }
  }

  lemma CachedStepLeaves(env: Env, st: Store, cache: Store, pod: Pod, owner: OwnerKey)
    requires PatchesSucceed(env) && !Wishes(env, pod, owner)
    ensures CachedStep(env, st, cache, pod).Read(owner) == st.Read(owner)
  {
    StepPodFulfils(env, st, pod);
    hide OutcomeOf, StepPod, WrittenFrom, RemovedFrom, ShouldPatch, ShownOf;
  }

  /** The pod's wish is a removal that drops the whole annotation map. */
  predicate DropsMap(env: Env, pod: Pod, read: Annotations) {
    OutcomeOf(env, pod).Remove? && DropsAll(OutcomeOf(env, pod).owner.kind.Type(), read)
  }

  /** A step on a cached read does what its pod wishes at exactly the keys that it does not miss. */
  lemma CachedStepAt(env: Env, st: Store, cache: Store, pod: Pod, owner: OwnerKey, key: Key)
    requires PatchesSucceed(env) && IsCached(owner) && Wishes(env, pod, owner)
    ensures var s := Wish(env, pod).value.1;
            ShowsAt(CachedStep(env, st, cache, pod).Read(owner), s, key) <==>
            DropsMap(env, pod, cache.Read(owner)) || !Misses(st.Read(owner), cache.Read(owner), s, key)
  {
    hide OutcomeOf, StepPod, Sent, ShouldPatch, ShownOf, ShowsAt, DropsAll;
    var live, read, typ := st.Read(owner), cache.Read(owner), owner.kind.Type();
    match OutcomeOf(env, pod)
    case Remove(_) => RemovedFromAt(typ, live, read, key);
    case Write(_, _, _, _, _) =>
      var res := OutcomeOf(env, pod).Result(env.clock(st.attempts));
      ShownIgnoresTime(OutcomeOf(env, pod), env.clock(st.attempts));
      WrittenFromAt(typ, live, read, res, key);
    case _ =>
  }

  ghost predicate MissesNothing(live: Annotations, read: Annotations, s: Shown) {
    forall key :: !Misses(live, read, s, key)
  }

  lemma CachedStepShows(env: Env, st: Store, cache: Store, pod: Pod, owner: OwnerKey)
    requires PatchesSucceed(env) && IsCached(owner) && Wishes(env, pod, owner)
    ensures var s := Wish(env, pod).value.1;
            Shows(CachedStep(env, st, cache, pod).Read(owner), s) <==>
            DropsMap(env, pod, cache.Read(owner)) || MissesNothing(st.Read(owner), cache.Read(owner), s)
  {
    hide CachedStep, Wish, ShowsAt, DropsMap, IsCached, Shows, PatchesSucceed, Misses;
    var s := Wish(env, pod).value.1;
    var after := CachedStep(env, st, cache, pod).Read(owner);
    forall key ensures
      ShowsAt(after, s, key) <==>
      DropsMap(env, pod, cache.Read(owner)) || !Misses(st.Read(owner), cache.Read(owner), s, key)
    {
      CachedStepAt(env, st, cache, pod, owner, key);
    }
    ShowsKeyByKey(after, s);
  }

  // ---- what a lag can do ----

  lemma {:induction false} CachedLoopLeaves(
      env: Env, st: Store, pods: seq<Pod>, lag: nat -> nat, owner: OwnerKey, m: nat)
    requires IsLag(lag) && PatchesSucceed(env) && !Aborts(env, pods) && m <= |pods|
    requires forall j :: m <= j < |pods| ==> !Wishes(env, pods[j], owner)
    ensures CachedLoop(env, st, pods, lag).Read(owner) == CachedLoop(env, st, pods[..m], lag).Read(owner)
    decreases |pods|
  {
    hide CachedStep, Wish, Aborts, PatchesSucceed;
    var n := |pods| - 1;
    if m == |pods| {
      assert pods[..m] == pods;
    } else {
      FrontDoesNotAbort(env, pods);
      CachedLoopLeaves(env, st, pods[..n], lag, owner, m);
      assert pods[..n][..m] == pods[..m];
      var before, cache := CachedLoop(env, st, pods[..n], lag), CachedLoop(env, st, pods[..lag(n)], lag);
      CachedStepLeaves(env, before, cache, pods[n], owner);
    }
  }

  /** All pods that ask for something on the workload ask for s. */
  predicate PodsAgree(env: Env, pods: seq<Pod>, owner: OwnerKey, s: Shown) {
    forall i :: 0 <= i < |pods| && Wishes(env, pods[i], owner) ==> Wish(env, pods[i]).value.1 == s
  }

  lemma PrefixAgrees(env: Env, pods: seq<Pod>, owner: OwnerKey, s: Shown)
    requires pods != [] && PodsAgree(env, pods, owner, s)
    ensures PodsAgree(env, pods[..|pods| - 1], owner, s)
  {
    hide Wish;
    var front := pods[..|pods| - 1];
    assert forall i :: 0 <= i < |front| ==> front[i] == pods[i];
  }

  /** Among pods that agree a key that is once as wished stays so. */
  lemma {:induction false} StaysShown(
      env: Env, st: Store, pods: seq<Pod>, lag: nat -> nat, owner: OwnerKey, s: Shown, key: Key, m: nat)
    requires IsLag(lag) && PatchesSucceed(env) && !Aborts(env, pods) && IsCached(owner)
    requires PodsAgree(env, pods, owner, s) && m <= |pods|
    requires ShowsAt(CachedLoop(env, st, pods[..m], lag).Read(owner), s, key)
    ensures ShowsAt(CachedLoop(env, st, pods, lag).Read(owner), s, key)
    decreases |pods|
  {
    hide CachedStep, Wish, Aborts, ShowsAt, DropsMap, IsCached, PatchesSucceed;
    var n := |pods| - 1;
    if m == |pods| {
      assert pods[..m] == pods;
    } else {
      FrontDoesNotAbort(env, pods);
      PrefixAgrees(env, pods, owner, s);
      assert pods[..n][..m] == pods[..m];
      StaysShown(env, st, pods[..n], lag, owner, s, key, m);
      var before, cache := CachedLoop(env, st, pods[..n], lag), CachedLoop(env, st, pods[..lag(n)], lag);
      if Wishes(env, pods[n], owner) {
        CachedStepAt(env, before, cache, pods[n], owner, key);
      } else {
        CachedStepLeaves(env, before, cache, pods[n], owner);
      }
    }
  }

  /** Where the pods of a workload agree, its annotations show their wish after the loop, however far the cache lags. */
  lemma {:induction false} AgreeingPodsDecide(
      env: Env, st: Store, pods: seq<Pod>, lag: nat -> nat, owner: OwnerKey, s: Shown)
    requires IsLag(lag) && PatchesSucceed(env) && !Aborts(env, pods) && IsCached(owner)
    requires PodsAgree(env, pods, owner, s) && LastWish(env, pods, owner) == Some(s)
    ensures Shows(CachedLoop(env, st, pods, lag).Read(owner), s)
    decreases |pods|
  {
    hide CachedStep, Wish, Aborts, ShowsAt, DropsMap, IsCached, Shows, PatchesSucceed;
    var n := |pods| - 1;
    FrontDoesNotAbort(env, pods);
    PrefixAgrees(env, pods, owner, s);
    var before, cache := CachedLoop(env, st, pods[..n], lag), CachedLoop(env, st, pods[..lag(n)], lag);
    if Wishes(env, pods[n], owner) {
      var after := CachedStep(env, before, cache, pods[n]).Read(owner);
      forall key ensures ShowsAt(after, s, key) {
        CachedStepAt(env, before, cache, pods[n], owner, key);
        if ShowsAt(cache.Read(owner), s, key) {
          assert pods[..n][..lag(n)] == pods[..lag(n)];
          StaysShown(env, st, pods[..n], lag, owner, s, key, lag(n));
        }
      }
      ShowsKeyByKey(after, s);
    } else {
      CachedStepLeaves(env, before, cache, pods[n], owner);
      AgreeingPodsDecide(env, st, pods[..n], lag, owner, s);
    }
  }

  /**
   After the loop a workload shows what its last pod asks for exactly when that
   pod's read missed nothing: at no key did it already show the wish while the
   live object did not.
   */
  lemma LastReadDecides(env: Env, st: Store, pods: seq<Pod>, lag: nat -> nat, owner: OwnerKey, i: nat)
    requires IsLag(lag) && PatchesSucceed(env) && !Aborts(env, pods) && IsCached(owner)
    requires i < |pods| && Wishes(env, pods[i], owner)
    requires forall j :: i < j < |pods| ==> !Wishes(env, pods[j], owner)
    ensures var live := CachedLoop(env, st, pods[..i], lag).Read(owner);
            var read := CachedLoop(env, st, pods[..lag(i)], lag).Read(owner);
            Shows(CachedLoop(env, st, pods, lag).Read(owner), Wish(env, pods[i]).value.1) <==>
            DropsMap(env, pods[i], read) || MissesNothing(live, read, Wish(env, pods[i]).value.1)
  {
    hide CachedStep, Wish, ShowsAt, DropsMap, IsCached, Shows, MissesNothing, OutcomeOf;
    var upTo := pods[..i + 1];
    CachedLoopLeaves(env, st, pods, lag, owner, i + 1);
    assert upTo[..i] == pods[..i] && upTo[..lag(i)] == pods[..lag(i)] && upTo[i] == pods[i];
    assert !Aborts(env, pods[..i]);
    var before, cache := CachedLoop(env, st, pods[..i], lag), CachedLoop(env, st, pods[..lag(i)], lag);
    var after := CachedStep(env, before, cache, pods[i]);
    assert CachedLoop(env, st, upTo, lag) == after;
    CachedStepShows(env, before, cache, pods[i], owner);
  }

  // ---- exactly when a lag does no harm ----

  /** A read that shows the wish sends nothing. */
  lemma CachedSkip(env: Env, st: Store, cache: Store, pod: Pod, owner: OwnerKey)
    requires IsCached(owner) && Wishes(env, pod, owner) && Shows(cache.Read(owner), Wish(env, pod).value.1)
    ensures CachedStep(env, st, cache, pod) == st
  {
    hide OutcomeOf, StepPod, WrittenFrom, RemovedFrom, ShouldPatch, ShownOf;
    match OutcomeOf(env, pod)
    case Remove(_) =>
    case Write(_, _, _, _, _) =>
      var res := OutcomeOf(env, pod).Result(env.clock(st.attempts));
      ShownIgnoresTime(OutcomeOf(env, pod), env.clock(st.attempts));
      ShowsIffNoPatch(cache.Read(owner), res);
    case _ =>
  }

  /** The last pod that asks for something else than s. */
  predicate IsLastDissenter(env: Env, pods: seq<Pod>, owner: OwnerKey, s: Shown, i: int) {
    && 0 <= i < |pods| && Wishes(env, pods[i], owner) && Wish(env, pods[i]).value.1 != s
    && forall j :: i < j < |pods| && Wishes(env, pods[j], owner) ==> Wish(env, pods[j]).value.1 == s
  }

  lemma {:induction false} LastDissenter(env: Env, pods: seq<Pod>, owner: OwnerKey, s: Shown) returns (i: nat)
    requires !PodsAgree(env, pods, owner, s)
    ensures IsLastDissenter(env, pods, owner, s, i)
  {
    hide Wish;
    var n := |pods| - 1;
    if Wishes(env, pods[n], owner) && Wish(env, pods[n]).value.1 != s {
      i := n;
    } else {
      var j :| 0 <= j < |pods| && Wishes(env, pods[j], owner) && Wish(env, pods[j]).value.1 != s;
      assert pods[..n][j] == pods[j];
      i := LastDissenter(env, pods[..n], owner, s);
    }
  }

  /** With a stuck cache that shows their wish, all later pods are skipped. */
  lemma {:induction false} SkippedAfter(env: Env, st: Store, pods: seq<Pod>, owner: OwnerKey, s: Shown, i: nat)
    requires PatchesSucceed(env) && !Aborts(env, pods) && IsCached(owner)
    requires Shows(st.Read(owner), s) && i < |pods|
    requires forall j :: i < j < |pods| && Wishes(env, pods[j], owner) ==> Wish(env, pods[j]).value.1 == s
    ensures CachedLoop(env, st, pods, Stuck()).Read(owner) == CachedLoop(env, st, pods[..i + 1], Stuck()).Read(owner)
    decreases |pods|
  {
    hide CachedStep, Wish, Aborts, IsCached, Shows, PatchesSucceed;
    var n := |pods| - 1;
    if i == n {
      assert pods[..i + 1] == pods;
    } else {
      FrontDoesNotAbort(env, pods);
      SkippedAfter(env, st, pods[..n], owner, s, i);
      assert pods[..n][..i + 1] == pods[..i + 1];
      var before := CachedLoop(env, st, pods[..n], Stuck());
      assert pods[..0] == [];
      assert CachedLoop(env, st, pods[..0], Stuck()) == st;
      if Wishes(env, pods[n], owner) {
        CachedSkip(env, before, st, pods[n], owner);
      } else {
        CachedStepLeaves(env, before, st, pods[n], owner);
      }
    }
  }

  /** Annotations that show what a pod asks for. */
  lemma SomethingShows(env: Env, pod: Pod) returns (anns: Annotations)
    requires Wish(env, pod).Some?
    ensures Shows(anns, Wish(env, pod).value.1)
  {
    hide OutcomeOf, ShownOf, Patched;
    anns := map[];
    if OutcomeOf(env, pod).Write? {
      anns := Patched(map[], OutcomeOf(env, pod).Result(""));
      PatchedShows(map[], OutcomeOf(env, pod).Result(""));
    }
  }

  /** A key at which annotations that show s do not show t, and at which no annotations show both. */
  lemma Distinguish(anns: Annotations, s: Shown, t: Shown) returns (key: Key)
    requires Shows(anns, s) && s != t
    requires s.Rates? && t.Rates? ==> s.total.Some? == t.total.Some? && s.gpus.Some? == t.gpus.Some?
    ensures !ShowsAt(anns, t, key)
    ensures forall other :: ShowsAt(other, t, key) ==> !ShowsAt(other, s, key)
  {
    key :=
      if s.Gone? || t.Gone? || s.perReplica != t.perReplica then PerReplica
      else if s.total != t.total then Total
      else if s.token != t.token then PerToken
      else GpuCount;
  }

  /** A pod that reads the wish of another one overwrites it where the two differ. */
  lemma DissenterOverwrites(env: Env, st: Store, cache: Store, pod: Pod, other: Pod, owner: OwnerKey)
    requires PatchesSucceed(env) && IsCached(owner)
    requires Wishes(env, pod, owner) && Wishes(env, other, owner) && Wish(env, pod) != Wish(env, other)
    requires Shows(cache.Read(owner), Wish(env, other).value.1)
    ensures !Shows(CachedStep(env, st, cache, pod).Read(owner), Wish(env, other).value.1)
  {
    hide Wish, Shows, ShowsAt, Replicas, CachedStep, DropsMap, PatchesSucceed, IsCached;
    WishShape(env, pod);
    WishShape(env, other);
    var s, t := Wish(env, other).value.1, Wish(env, pod).value.1;
    var key := Distinguish(cache.Read(owner), s, t);
    CachedStepAt(env, st, cache, pod, owner, key);
    ShowsKeyByKey(CachedStep(env, st, cache, pod).Read(owner), s);
  }

  /** Whatever the start and the lag, the workload shows in the end what its last pod asks for. */
  ghost predicate LagIsHarmless(env: Env, pods: seq<Pod>, owner: OwnerKey, s: Shown) {
    forall st, lag | IsLag(lag) :: Shows(CachedLoop(env, st, pods, lag).Read(owner), s)
  }

  lemma DissentIsHarmful(env: Env, pods: seq<Pod>, owner: OwnerKey, s: Shown)
    requires PatchesSucceed(env) && !Aborts(env, pods) && IsCached(owner)
    requires LastWish(env, pods, owner) == Some(s) && !PodsAgree(env, pods, owner, s)
    ensures !LagIsHarmless(env, pods, owner, s)
  {
    hide CachedStep, Wish, IsCached, Shows, PatchesSucceed, OutcomeOf, LastWish;
    LastWishIsSomeWish(env, pods, owner);
    var k :| 0 <= k < |pods| && Wish(env, pods[k]) == Some((owner, s));
    var i := LastDissenter(env, pods, owner, s);
    var anns := SomethingShows(env, pods[k]);
    var st := Store(map[owner := anns], 0);
    SkippedAfter(env, st, pods, owner, s, i);
    var upTo := pods[..i + 1];
    var before := CachedLoop(env, st, pods[..i], Stuck());
    assert upTo[..i] == pods[..i] && upTo[i] == pods[i] && upTo[..0] == [];
    assert !Aborts(env, pods[..i]);
    assert CachedLoop(env, st, upTo, Stuck()) == CachedStep(env, before, st, pods[i]);
    DissenterOverwrites(env, before, st, pods[i], pods[k], owner);
    assert IsLag(Stuck()) && !Shows(CachedLoop(env, st, pods, Stuck()).Read(owner), s);
  }

  /**
   A lagging cache of Deployments and StatefulSets is harmless, for every start
   and every lag, exactly for the workloads whose pods all ask for the same.
   */
  lemma HarmlessIffPodsAgree(env: Env, pods: seq<Pod>, owner: OwnerKey, s: Shown)
    requires PatchesSucceed(env) && !Aborts(env, pods) && IsCached(owner) && LastWish(env, pods, owner) == Some(s)
    ensures LagIsHarmless(env, pods, owner, s) <==> PodsAgree(env, pods, owner, s)
  {
    hide CachedLoop, Shows, Wish, PodsAgree, LastWish, Aborts, IsCached, PatchesSucceed;
    if PodsAgree(env, pods, owner, s) {
      forall st, lag | IsLag(lag) ensures Shows(CachedLoop(env, st, pods, lag).Read(owner), s) {
        AgreeingPodsDecide(env, st, pods, lag, owner, s);
      }
    } else {
      DissentIsHarmful(env, pods, owner, s);
    }
  }

  // ---- whole ticks ----

  /** A workload outside the cache shows what its last pod asks for, as on fresh reads. */
  lemma {:induction false} UncachedDecides(env: Env, st: Store, pods: seq<Pod>, lag: nat -> nat, owner: OwnerKey)
    requires IsLag(lag) && PatchesSucceed(env) && !Aborts(env, pods) && !IsCached(owner)
    ensures IsDecided(env, st, CachedLoop(env, st, pods, lag), LastWish(env, pods, owner), owner)
    decreases |pods|
  {
    hide StepPod, Shows, TotalIsDue, PatchesSucceed, Aborts, ShownOf;
    if pods != [] {
      hide OutcomeOf;
      var n := |pods| - 1;
      FrontDoesNotAbort(env, pods);
      UncachedDecides(env, st, pods[..n], lag, owner);
      var before, cache := CachedLoop(env, st, pods[..n], lag), CachedLoop(env, st, pods[..lag(n)], lag);
      StepPodFulfils(env, before, pods[n]);
      if !Wishes(env, pods[n], owner) {
        hide CachedStep;
        CachedStepLeaves(env, before, cache, pods[n], owner);
      }
    }
  }

  /** The workload shows the wish, or is as before if there is none. */
  predicate IsDecided(env: Env, st: Store, after: Store, wish: Option<Shown>, owner: OwnerKey) {
    match wish
    case None => after.Read(owner) == st.Read(owner)
    case Some(s) =>
      Shows(after.Read(owner), s) && (s.Rates? ==> !TotalIsDue(env.world, owner, after.Read(owner)))
  }

  /** The lag cannot matter: nothing is cached, nothing lags, or the pods ask for the same. */
  ghost predicate LagCannotMatter(env: Env, pods: seq<Pod>, lag: nat -> nat, owner: OwnerKey) {
    IsCached(owner) && !NeverLags(lag) && LastWish(env, pods, owner).Some? ==>
      PodsAgree(env, pods, owner, LastWish(env, pods, owner).value)
  }

  lemma CachedLoopDecides(env: Env, st: Store, pods: seq<Pod>, lag: nat -> nat, owner: OwnerKey)
    requires IsLag(lag) && PatchesSucceed(env) && !Aborts(env, pods) && LagCannotMatter(env, pods, lag, owner)
    ensures IsDecided(env, st, CachedLoop(env, st, pods, lag), LastWish(env, pods, owner), owner)
  {
    hide CachedLoop, PodLoop, Shows, Wish, PodsAgree, LastWish, Aborts, PatchesSucceed;
    if NeverLags(lag) {
      FreshLoop(env, st, pods, lag);
      LastPodDecides(env, st, pods, owner);
    } else if !IsCached(owner) {
      UncachedDecides(env, st, pods, lag, owner);
    } else if LastWish(env, pods, owner).Some? {
      AgreeingPodsDecide(env, st, pods, lag, owner, LastWish(env, pods, owner).value);
    } else {
      LastWishIsSomeWish(env, pods, owner);
      CachedLoopLeaves(env, st, pods, lag, owner, 0);
      assert pods[..0] == [];
      assert CachedLoop(env, st, pods[..0], lag) == st by { ZeroPods(env, st, lag); }
    }
  }

  lemma ZeroPods(env: Env, st: Store, lag: nat -> nat)
    requires IsLag(lag)
    ensures CachedLoop(env, st, [], lag) == st
  {
  }

  /** The tick of the deployed client; the owner pass patches only InferenceServices, which it lists directly. */
  function CachedTick(env: Env, st: Store, lag: nat -> nat): Store
    requires IsLag(lag)
  {
    if !env.podsListed then st
    else
      var after := CachedLoop(env, st, env.world.pods, lag);
      if Aborts(env, env.world.pods) then after else OwnerPass(env, after, env.adapters)
  }

  lemma FreshTick(env: Env, st: Store, lag: nat -> nat)
    requires NeverLags(lag)
    ensures CachedTick(env, st, lag) == Tick(env, st)
  {
    hide CachedLoop, PodLoop, OwnerPass, Aborts;
    FreshLoop(env, st, env.world.pods, lag);
  }

  /**
   What a workload shows after a whole tick without failures, unless the lag can
   matter: zero cost if the owner pass sets it to zero, and otherwise what its
   last pod asks for.
   */
  lemma CachedTickDecides(env: Env, st: Store, lag: nat -> nat, owner: OwnerKey)
    requires IsLag(lag) && PatchesSucceed(env) && NoFailures(env)
    requires LagCannotMatter(env, env.world.pods, lag, owner)
    ensures var after := CachedTick(env, st, lag);
            if KServe in env.adapters && IsZeroed(env, env.world.services, owner) then
              Shows(after.Read(owner), ServiceShown(env.world, owner))
            else IsDecided(env, st, after, LastWish(env, env.world.pods, owner), owner)
  {
    hide CachedLoop, OwnerPass, Aborts, LastWish, Shows, ServiceShown, TotalIsDue, IsScaledToZero;
    hide LagCannotMatter;
    var mid := CachedLoop(env, st, env.world.pods, lag);
    CachedLoopDecides(env, st, env.world.pods, lag, owner);
    OwnerPassShows(env, mid, env.adapters);
    if KServe in env.adapters && IsZeroed(env, env.world.services, owner) {
      var services := env.world.services;
      var i :| 0 <= i < |services| && services[i] == owner;
      assert ServiceFulfilled(env, OwnerPass(env, mid, env.adapters), services[i]);
    }
  }

  /** What the last pod was shown of its workload leaves nothing out that the tick must write. */
  ghost predicate ReadSuffices(env: Env, st: Store, pods: seq<Pod>, lag: nat -> nat, owner: OwnerKey, i: nat)
    requires IsLag(lag) && i < |pods|
  {
    var live := CachedLoop(env, st, pods[..i], lag).Read(owner);
    var read := CachedLoop(env, st, pods[..lag(i)], lag).Read(owner);
    IsCached(owner) && Wishes(env, pods[i], owner) ==>
      DropsMap(env, pods[i], read) || MissesNothing(live, read, Wish(env, pods[i]).value.1)
  }

  /** After a clean tick a workload shows what its last pod asks for exactly when that pod's read suffices. */
  lemma LastReadDecidesTick(env: Env, st: Store, lag: nat -> nat, owner: OwnerKey, i: nat)
    requires IsLag(lag) && PatchesSucceed(env) && NoFailures(env) && !IsZeroed(env, env.world.services, owner)
    requires i < |env.world.pods| && Wishes(env, env.world.pods[i], owner)
    requires forall j :: i < j < |env.world.pods| ==> !Wishes(env, env.world.pods[j], owner)
    ensures Shows(CachedTick(env, st, lag).Read(owner), Wish(env, env.world.pods[i]).value.1) <==>
            ReadSuffices(env, st, env.world.pods, lag, owner, i)
  {
    hide CachedLoop, OwnerPass, Aborts, Wish, Shows, IsCached, DropsMap, MissesNothing, LastWish, IsZeroed, TotalIsDue;
    var pods := env.world.pods;
    if IsCached(owner) {
      LastReadDecides(env, st, pods, lag, owner, i);
    } else {
      LastWishAt(env, pods, owner, i);
      UncachedDecides(env, st, pods, lag, owner);
    }
    OwnerPassShows(env, CachedLoop(env, st, pods, lag), env.adapters);
  }

  /** It suffices where the lag cannot matter. */
  lemma NoLagSuffices(env: Env, st: Store, lag: nat -> nat, owner: OwnerKey, i: nat)
    requires IsLag(lag) && PatchesSucceed(env) && NoFailures(env) && !IsZeroed(env, env.world.services, owner)
    requires i < |env.world.pods| && Wishes(env, env.world.pods[i], owner)
    requires forall j :: i < j < |env.world.pods| ==> !Wishes(env, env.world.pods[j], owner)
    requires LagCannotMatter(env, env.world.pods, lag, owner)
    ensures ReadSuffices(env, st, env.world.pods, lag, owner, i)
  {
    hide CachedTick, ReadSuffices, Wish, Shows, LastWish, IsZeroed, TotalIsDue, LagCannotMatter;
    CachedTickDecides(env, st, lag, owner);
    LastWishAt(env, env.world.pods, owner, i);
    LastReadDecidesTick(env, st, lag, owner, i);
  }

  // ---- convergence under a lagging cache ----

  /** The state in which a step looks at its pod's workload. */
  function LookedAt(env: Env, st: Store, cache: Store, pod: Pod): Store {
    if Wish(env, pod).Some? && IsCached(Wish(env, pod).value.0) then cache else st
  }

  /** A step sends no patch exactly when its pod's wish is fulfilled in what it reads. */
  lemma CachedQuietIff(env: Env, st: Store, cache: Store, pod: Pod)
    ensures CachedStep(env, st, cache, pod).attempts == st.attempts <==>
            Fulfilled(env, LookedAt(env, st, cache, pod), pod)
  {
    hide OutcomeOf, StepPod, WrittenFrom, RemovedFrom, ShouldPatch, ShownOf, Shows;
    QuietIffFulfilled(env, st, pod);
    match OutcomeOf(env, pod)
    case Remove(owner) => RemoveQuiet(env, cache, owner);
    case Write(owner, _, _, _, _) =>
      var res := OutcomeOf(env, pod).Result(env.clock(st.attempts));
      ShownIgnoresTime(OutcomeOf(env, pod), env.clock(st.attempts));
      ShowsIffNoPatch(cache.Read(owner), res);
    case _ =>
  }

  lemma {:induction false} CachedLoopAttempts(env: Env, st: Store, pods: seq<Pod>, lag: nat -> nat, m: nat)
    requires IsLag(lag) && m <= |pods|
    ensures var part, all := CachedLoop(env, st, pods[..m], lag), CachedLoop(env, st, pods, lag);
            part.attempts <= all.attempts && (part.attempts == all.attempts ==> part == all)
    decreases |pods|
  {
    hide CachedStep, Aborts;
    if m == |pods| {
      assert pods[..m] == pods;
    } else {
      var n := |pods| - 1;
      CachedLoopAttempts(env, st, pods[..n], lag, m);
      assert pods[..n][..m] == pods[..m];
      CachedStepAttempts(env, CachedLoop(env, st, pods[..n], lag), CachedLoop(env, st, pods[..lag(n)], lag), pods[n]);
    }
  }

  lemma CachedStepAttempts(env: Env, st: Store, cache: Store, pod: Pod)
    ensures var after := CachedStep(env, st, cache, pod);
            st.attempts <= after.attempts && (st.attempts == after.attempts ==> st == after)
  {
    hide OutcomeOf, StepPod, WrittenFrom, RemovedFrom, ShouldPatch;
    StepPodAttempts(env, st, pod);
  }

  /** The loop is quiet, whatever the lag, exactly when every pod finds its wish fulfilled. */
  lemma {:induction false} QuietCachedLoop(env: Env, st: Store, pods: seq<Pod>, lag: nat -> nat)
    requires IsLag(lag) && !Aborts(env, pods)
    ensures CachedLoop(env, st, pods, lag).attempts == st.attempts <==> AllFulfilled(env, st, pods)
    ensures AllFulfilled(env, st, pods) ==> CachedLoop(env, st, pods, lag) == st
    decreases |pods|
  {
    hide CachedStep, StepPod, Fulfilled, OutcomeOf;
    if pods != [] {
      var n := |pods| - 1;
      var front, last := pods[..n], pods[n];
      FrontDoesNotAbort(env, pods);
      QuietCachedLoop(env, st, front, lag);
      CachedLoopAttempts(env, st, front, lag, 0);
      CachedStepAttempts(env, CachedLoop(env, st, front, lag), CachedLoop(env, st, pods[..lag(n)], lag), last);
      assert AllFulfilled(env, st, pods) <==> AllFulfilled(env, st, front) && Fulfilled(env, st, last);
      if AllFulfilled(env, st, front) {
        PrefixIsFulfilled(env, st, pods, lag(n));
        QuietCachedLoop(env, st, pods[..lag(n)], lag);
        QuietFreshStep(env, st, last);
      }
    }
  }

  lemma QuietFreshStep(env: Env, st: Store, pod: Pod)
    ensures CachedStep(env, st, st, pod).attempts == st.attempts <==> Fulfilled(env, st, pod)
    ensures Fulfilled(env, st, pod) ==> CachedStep(env, st, st, pod) == st
  {
    hide CachedStep, StepPod, Fulfilled;
    FreshStep(env, st, pod);
    QuietIffFulfilled(env, st, pod);
    StepPodAttempts(env, st, pod);
  }

  lemma PrefixIsFulfilled(env: Env, st: Store, pods: seq<Pod>, m: nat)
    requires m < |pods| && !Aborts(env, pods) && AllFulfilled(env, st, pods[..|pods| - 1])
    ensures !Aborts(env, pods[..m]) && AllFulfilled(env, st, pods[..m])
  {
    hide OutcomeOf, Fulfilled;
    forall i | 0 <= i < m ensures OutcomeOf(env, pods[..m][i]) != Abort && Fulfilled(env, st, pods[..m][i]) {
      assert pods[..m][i] == pods[i] == pods[..|pods| - 1][i];
    }
  }

  /** Coherent pods are fulfilled after the loop, however far the cache lags. */
  lemma CachedLoopFulfils(env: Env, st: Store, pods: seq<Pod>, lag: nat -> nat)
    requires IsLag(lag) && PatchesSucceed(env) && !Aborts(env, pods) && Coherent(env, pods)
    ensures AllFulfilled(env, CachedLoop(env, st, pods, lag), pods)
  {
    hide CachedLoop, Shows, TotalIsDue, Wish, Aborts, LastWish;
    forall i | 0 <= i < |pods| ensures Fulfilled(env, CachedLoop(env, st, pods, lag), pods[i]) {
      if Wish(env, pods[i]).Some? {
        var owner := Wish(env, pods[i]).value.0;
        assert Wishes(env, pods[i], owner);
        LastWishIsSomeWish(env, pods, owner);
        var s := LastWish(env, pods, owner).value;
        var k :| 0 <= k < |pods| && Wish(env, pods[k]) == Some((owner, s));
        forall j | 0 <= j < |pods| && Wishes(env, pods[j], owner) ensures Wish(env, pods[j]) == Wish(env, pods[k]) {
        }
        assert PodsAgree(env, pods, owner, s);
        CachedLoopDecides(env, st, pods, lag, owner);
      }
    }
  }

  lemma QuietCachedTickIff(env: Env, st: Store, lag: nat -> nat)
    requires IsLag(lag) && env.podsListed && !Aborts(env, env.world.pods)
    requires KServe in env.adapters ==> AllServicesFulfilled(env, st, env.world.services)
    ensures CachedTick(env, st, lag).attempts == st.attempts <==> AllFulfilled(env, st, env.world.pods)
  {
    hide CachedLoop, OwnerPass, Aborts, AllFulfilled, AllServicesFulfilled;
    var pods := env.world.pods;
    QuietCachedLoop(env, st, pods, lag);
    CachedLoopAttempts(env, st, pods, lag, 0);
    assert pods[..0] == [];
    ZeroPods(env, st, lag);
    OwnerPassAttempts(env, CachedLoop(env, st, pods, lag));
    if AllFulfilled(env, st, pods) {
      QuietOwnerPass(env, st, env.adapters);
    }
  }

  /** Convergence holds under the same condition however far the cache lags within either tick. */
  lemma SecondCachedTickIsQuiet(env: Env, later: Env, st: Store, lag: nat -> nat, laterLag: nat -> nat)
    requires PatchesSucceed(env) && NoFailures(env) && SameInputs(env, later) && IsLag(lag) && IsLag(laterLag)
    ensures var first := CachedTick(env, st, lag);
            CachedTick(later, first, laterLag).attempts == first.attempts <==>
            Coherent(env, env.world.pods) && PassesAgree(env)
  {
    hide OwnerPass, CachedLoop, Aborts, AllFulfilled, AllServicesFulfilled, Coherent, PassesAgree;
    var pods := env.world.pods;
    var mid, first := CachedLoop(env, st, pods, lag), CachedTick(env, st, lag);
    SameInputsSameAborts(env, later, pods);
    SameFulfilment(env, later, first);
    OwnerPassShows(env, mid, env.adapters);
    QuietCachedTickIff(later, first, laterLag);
    if Coherent(env, pods) && PassesAgree(env) {
      CachedLoopFulfils(env, st, pods, lag);
      OwnerPassFulfils(env, mid);
    }
    if AllFulfilled(later, first, pods) {
      FulfilledAgree(env, first);
    }
  }
}
