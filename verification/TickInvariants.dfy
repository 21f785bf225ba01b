/** What every step and every tick on fresh reads keeps, whatever fails on the way. */
module TickInvariants {
  import opened Options
  import opened CostFormat
  import opened Contract
  import opened CostAnnotations
  import opened MergePatch
  import opened Workloads
  import opened Ticks

  /** The two per-replica keys go together, and no other rate key stands without them. */
  predicate Consistent(anns: Annotations) {
    && (PerReplica in anns <==> PerHour in anns)
    && Lookup(anns, PerReplica) == Lookup(anns, PerHour)
    && (Total in anns || PerToken in anns || GpuCount in anns || Updated in anns ==> PerReplica in anns)
  }

  /** Once a job has a total cost it keeps exactly that one. */
  predicate KeepsTotal(before: Annotations, after: Annotations) {
    Lookup(before, JobTotal) != "" ==> Lookup(after, JobTotal) == Lookup(before, JobTotal)
  }

  ghost predicate SameForeign(before: Annotations, after: Annotations) {
    forall name :: AgreeAt(before, after, Foreign(name))
  }

  ghost predicate Evolves(before: Annotations, after: Annotations) {
    && (Consistent(before) ==> Consistent(after))
    && KeepsTotal(before, after)
    && SameForeign(before, after)
  }

  /** Every workload evolves, and a store changes only by patches that were sent. */
  ghost predicate Steps(before: Store, after: Store) {
    && (forall owner :: Evolves(before.Read(owner), after.Read(owner)))
    && before.attempts <= after.attempts
    && (before.attempts == after.attempts ==> before == after)
  }

  lemma EvolvesTransitive(a: Annotations, b: Annotations, c: Annotations)
    requires Evolves(a, b) && Evolves(b, c)
    ensures Evolves(a, c)
  {
    forall name ensures AgreeAt(a, c, Foreign(name)) {
      assert AgreeAt(a, b, Foreign(name)) && AgreeAt(b, c, Foreign(name));
    }
  }

  lemma StepsTransitive(s: Store, t: Store, u: Store)
    requires Steps(s, t) && Steps(t, u)
    ensures Steps(s, u)
  {
    forall owner ensures Evolves(s.Read(owner), u.Read(owner)) {
      EvolvesTransitive(s.Read(owner), t.Read(owner), u.Read(owner));
    }
  }

  // ---- single writes ----

  lemma PatchedEvolves(anns: Annotations, res: CostResult)
    requires res.costPerHour.Some?
    ensures Evolves(anns, Patched(anns, res))
  {
    hide FormatCost, FleetCost;
    PatchedAt(anns, res, PerReplica);
    PatchedAt(anns, res, PerHour);
    PatchedAt(anns, res, JobTotal);
    forall name ensures AgreeAt(anns, Patched(anns, res), Foreign(name)) {
      PatchedAt(anns, res, Foreign(name));
    }
  }

  lemma RemovedEvolves(anns: Annotations)
    ensures Evolves(anns, Removed(anns))
  {
  }

  lemma TotalEvolves(anns: Annotations, v: string)
    requires Lookup(anns, JobTotal) == ""
    ensures Evolves(anns, anns[JobTotal := v])
  {
  }

  lemma SendSteps(env: Env, st: Store, owner: OwnerKey, modified: Annotations)
    requires Evolves(st.Read(owner), modified)
    ensures Steps(st, Send(env, st, owner, modified))
  {
    forall o ensures Evolves(st.Read(o), Send(env, st, owner, modified).Read(o)) {
    }
  }

  lemma WriteRatesSteps(env: Env, st: Store, owner: OwnerKey, res: CostResult)
    requires res.costPerHour.Some?
    ensures Steps(st, WriteRates(env, st, owner, res))
  {
    hide ShouldPatch, Patched;
    PatchedEvolves(st.Read(owner), res);
    if ShouldPatch(st.Read(owner), res) {
      SendSteps(env, st, owner, Patched(st.Read(owner), res));
    }
  }

  lemma WriteTotalSteps(env: Env, st: Store, owner: OwnerKey, rate: real)
    ensures Steps(st, WriteTotal(env, st, owner, rate))
  {
    hide FormatCost, TotalCost;
    var anns := st.Read(owner);
    if TotalIsDue(env.world, owner, anns) {
      var v := FormatCost(TotalCost(env.world, owner, anns, rate));
      TotalEvolves(anns, v);
      SendSteps(env, st, owner, anns[JobTotal := v]);
    }
  }

  lemma RemoveRatesSteps(env: Env, st: Store, owner: OwnerKey)
    ensures Steps(st, RemoveRates(env, st, owner))
  {
    RemovedEvolves(st.Read(owner));
    if !(st.Read(owner).Keys !! RATE_KEYS) {
      SendSteps(env, st, owner, Removed(st.Read(owner)));
    }
  }

  // ---- loops ----

  lemma StepPodSteps(env: Env, st: Store, pod: Pod)
    ensures Steps(st, StepPod(env, st, pod))
  {
    hide WriteRates, WriteTotal, RemoveRates, WriteRatesFails, OutcomeOf;
    match OutcomeOf(env, pod)
    case PassOver =>
    case Abort =>
    case Remove(owner) => RemoveRatesSteps(env, st, owner);
    case Write(owner, rate, _, _, _) =>
      var res := OutcomeOf(env, pod).Result(env.clock(st.attempts));
      WriteRatesSteps(env, st, owner, res);
      var written := WriteRates(env, st, owner, res);
      WriteTotalSteps(env, written, owner, rate);
      StepsTransitive(st, written, WriteTotal(env, written, owner, rate));
  }

  lemma {:induction false} PodLoopSteps(env: Env, st: Store, pods: seq<Pod>)
    ensures Steps(st, PodLoop(env, st, pods))
  {
    hide StepPod, Steps;
    if pods == [] {
      StepsReflexive(st);
    } else {
      var before := PodLoop(env, st, pods[..|pods| - 1]);
      PodLoopSteps(env, st, pods[..|pods| - 1]);
      StepPodSteps(env, before, pods[|pods| - 1]);
      StepsTransitive(st, before, StepPod(env, before, pods[|pods| - 1]));
    }
  }

  lemma StepsReflexive(st: Store)
    ensures Steps(st, st)
  {
  }

  lemma StepServiceSteps(env: Env, st: Store, service: OwnerKey)
    ensures Steps(st, StepService(env, st, service))
  {
    hide WriteRates, Steps, HasActivePods;
    StepsReflexive(st);
    if IsScaledToZero(env.world, service) {
      WriteRatesSteps(env, st, service, ZeroResult(env.world, service, env.clock(st.attempts)));
    }
  }

  lemma {:induction false} ServiceLoopSteps(env: Env, st: Store, services: seq<OwnerKey>)
    ensures Steps(st, ServiceLoop(env, st, services).store)
  {
    hide StepService, Steps, ServiceFails;
    if services == [] {
      StepsReflexive(st);
    } else {
      var before := ServiceLoop(env, st, services[..|services| - 1]).store;
      var last := services[|services| - 1];
      ServiceLoopSteps(env, st, services[..|services| - 1]);
      StepServiceSteps(env, before, last);
      StepsTransitive(st, before, StepService(env, before, last));
    }
  }

  lemma {:induction false} OwnerPassSteps(env: Env, st: Store, adapters: seq<Adapter>)
    ensures Steps(st, OwnerPass(env, st, adapters))
  {
    hide Steps, ServiceLoop;
    if adapters == [] {
      StepsReflexive(st);
    } else {
      var before := OwnerPass(env, st, adapters[..|adapters| - 1]);
      OwnerPassSteps(env, st, adapters[..|adapters| - 1]);
      ServiceLoopSteps(env, before, env.world.services);
      StepsTransitive(st, before, ServiceLoop(env, before, env.world.services).store);
    }
  }

  /**
   A tick, whichever queries, lists and patches fail in it, keeps every
   workload's cost annotations consistent, never changes a job's total cost and
   never touches a foreign annotation.
   */
  lemma TickSteps(env: Env, st: Store)
    ensures Steps(st, Tick(env, st))
  {
    hide Steps, PodLoop, OwnerPass, Aborts;
    var after := PodLoop(env, st, env.world.pods);
    StepsReflexive(st);
    PodLoopSteps(env, st, env.world.pods);
    OwnerPassSteps(env, after, env.adapters);
    StepsTransitive(st, after, OwnerPass(env, after, env.adapters));
  }

  // ---- the total ----

  /** A job that gets its total: it has ended, no total is there, and it has a duration. */
  ghost predicate AwaitsTotal(w: World, owner: OwnerKey, anns: Annotations) {
    && owner.kind == TrainJobKind && owner in w.owners
    && (JobTotal in anns ==> anns[JobTotal] == "")
    && (exists c ::
          c in w.owners[owner].job.conditions && TrainJob.FoldsToTrue(c.status) && c.typ != TrainJob.OtherType)
    && (exists d :: TrainJob.IsSpan(w.owners[owner].job, d))
  }

  lemma DueIffAwaited(w: World, owner: OwnerKey, anns: Annotations)
    ensures TotalIsDue(w, owner, anns) <==> AwaitsTotal(w, owner, anns)
  {
    hide TrainJob.Duration, TrainJob.IsSpan, TrainJob.FoldsToTrue;
    if owner in w.owners {
      var job := w.owners[owner].job;
      forall d ensures TrainJob.Duration(job) == Some(d) <==> TrainJob.IsSpan(job, d) {
        TrainJob.DurationIsIff(job, d);
      }
      if TrainJob.Duration(job).Some? {
        assert TrainJob.IsSpan(job, TrainJob.Duration(job).value);
      }
    }
  }

  /** The hourly rate for each of the 3_600_000_000_000 nanoseconds of an hour. */
  lemma TotalOfSpan(rate: real, d: int)
    ensures TrainJob.Cost(rate, d) * 3_600_000_000_000.0 == rate * d as real
  {
    var hours := TrainJob.Hours(d);
    assert hours * 3_600_000_000_000.0 == d as real;
    assert rate * hours * 3_600_000_000_000.0 == rate * (hours * 3_600_000_000_000.0);
  }

  /** total is what a job of d nanoseconds costs; a negative rate costs nothing. */
  predicate IsTotalOf(total: real, rate: real, d: int) {
    total * 3_600_000_000_000.0 == if rate < 0.0 then 0.0 else rate * d as real
  }

  /**
   A write puts rate times duration, at hours of 3_600_000_000_000 nanoseconds, on
   a job that awaits its total, and changes nothing otherwise.
   */
  lemma TotalIsRateTimesHours(env: Env, st: Store, owner: OwnerKey, rate: real)
    requires env.patchOk(st.attempts)
    ensures var before, after := st.Read(owner), WriteTotal(env, st, owner, rate).Read(owner);
            if AwaitsTotal(env.world, owner, before) then
              exists total: real, d ::
                && TrainJob.IsSpan(env.world.owners[owner].job, d)
                && IsTotalOf(total, rate, d) && after == before[JobTotal := FormatCost(total)]
            else after == before
  {
    hide FormatCost, TotalCost, TrainJob.Cost, TrainJob.Duration, TrainJob.IsSpan, AwaitsTotal, IsTotalOf;
    var before := st.Read(owner);
    DueIffAwaited(env.world, owner, before);
    if TotalIsDue(env.world, owner, before) {
      var job := env.world.owners[owner].job;
      var d := TrainJob.Duration(job).value;
      TrainJob.DurationIsIff(job, d);
      DueTotal(env.world, owner, before, rate);
      assert IsTotalOf(TotalCost(env.world, owner, before, rate), rate, d);
    }
  }

  lemma DueTotal(w: World, owner: OwnerKey, anns: Annotations, rate: real)
    requires TotalIsDue(w, owner, anns)
    ensures IsTotalOf(TotalCost(w, owner, anns, rate), rate, TrainJob.Duration(w.owners[owner].job).value)
  {
    hide TrainJob.Cost;
    var d := TrainJob.Duration(w.owners[owner].job).value;
    TotalOfSpan(rate, d);
    SignOfProduct(rate, d as real);
    hide TrainJob.Duration;
  }

  lemma SignOfProduct(rate: real, d: real)
    requires d > 0.0
    ensures rate * d < 0.0 <==> rate < 0.0
  {
    assert rate >= 0.0 ==> rate * d >= 0.0;
    assert rate < 0.0 ==> (-rate) * d > 0.0 && rate * d == -((-rate) * d);
  }
}
