/**
 The TeamInferenceQuota controller: one reconcile as a step on the persisted
 status and the event log, the methods that carry it out on a working copy, and
 what holds over whole runs.
 */
module QuotaController {
  import opened Options
  import opened Numerals
  import opened CostFormat
  import opened Calendar
  import opened Phase
  import opened Prometheus

  datatype Mode = NoMode | Enforce | Audit

  datatype Spec = Spec(
    dailyTokenBudget: int,
    monthlyCostLimit: string,
    alertThresholdPct: Option<int>,
    mode: Mode)

  datatype Condition = Unset | ConditionTrue | ConditionFalse | ConditionUnknown

  datatype Status = Status(
    phase: QuotaPhase,
    tokensUsedToday: int,
    costUsedThisMonth: string,
    tokenRemaining: int,
    costRemaining: int,
    lastEvaluation: Option<Time>,
    nextReset: Option<Time>,
    specValid: Condition,
    prometheusReachable: Condition)

  const NEW_STATUS := Status(NoPhase, 0, "", 0, 0, None, None, Unset, Unset)

  /** What a reconcile meets: the time, the query answers and whether the status patch is accepted. */
  datatype Input = Input(
    now: Time,
    prometheusConfigured: bool,
    tokens: Query,
    cost: Query,
    patchOk: bool)

  datatype Severity = NormalEvent | WarningEvent

  datatype Event =
    | PhaseEvent(from: QuotaPhase, to: QuotaPhase, severity: Severity)
    | AuditEvent(to: QuotaPhase)

  function ParseMonthlyCostLimit(s: string): Option<real> {
    var t := TrimSpace(s);
    if t == "" then None
    else
      var v := ParseFloat(t);
      if v.Some? && v.value >= 0.0 then v else None
  }

  /** fmt.Sprintf("$%.2f", v) */
  function FormatUSD(v: real): string {
    "$" + FormatFixed(v, 2)
  }

  function ValueOrZero(q: Query): real {
    if q.Sample? then q.v else 0.0
  }

  predicate Answered(input: Input) {
    !input.tokens.QueryFailed? && !input.cost.QueryFailed?
  }

  // ---- the step ----

  function UnknownStatus(now: Time, costDisplay: string, specValid: Condition, reachable: Condition): Status
    requires now.Valid()
  {
    Status(Unknown, 0, costDisplay, 0, 0, Some(now), Some(FirstOfNextMonth(now)), specValid, reachable)
  }

  function PhaseInputsOf(spec: Spec, limit: real, tokens: real, cost: real): PhaseInputs {
    PhaseInputs(false, tokens, cost, spec.dailyTokenBudget, limit, EffectiveAlertThreshold(spec.alertThresholdPct))
  }

  function SpendStatus(
      spec: Spec, now: Time, tokens: real, cost: real, limit: real, specValid: Condition, reachable: Condition): Status
    requires now.Valid()
  {
    Status(
      ComputePhase(PhaseInputsOf(spec, limit, tokens, cost)),
      RoundHalfAway(tokens),
      FormatUSD(cost),
      TokenRemainingPct(RoundHalfAway(tokens), spec.dailyTokenBudget),
      RemainingPct(cost, limit),
      Some(now),
      Some(FirstOfNextMonth(now)),
      specValid,
      reachable)
  }

  /** The status that a reconcile computes; it depends on the spec and the inputs alone. */
  function Evaluate(spec: Spec, input: Input): Status
    requires input.now.Valid()
  {
    var limit := ParseMonthlyCostLimit(spec.monthlyCostLimit);
    if limit.None? then UnknownStatus(input.now, "0.00", ConditionFalse, ConditionUnknown)
    else if !input.prometheusConfigured then UnknownStatus(input.now, "0.00", ConditionTrue, ConditionFalse)
    else if !Answered(input) then UnknownStatus(input.now, "$0.00", ConditionTrue, ConditionFalse)
    else
      SpendStatus(
        spec, input.now, ValueOrZero(input.tokens), ValueOrZero(input.cost), limit.value, ConditionTrue, ConditionTrue)
  }

  /** A change of phase is reported, except the first activation. */
  predicate IsReported(from: QuotaPhase, to: QuotaPhase) {
    from != to && !(from == NoPhase && to == Active)
  }

  predicate IsAudited(mode: Mode, from: QuotaPhase, to: QuotaPhase) {
    mode == Audit && from != to && (to == Warning || to == Exceeded)
  }

  function SeverityOf(to: QuotaPhase): Severity {
    if to == Exceeded || to == Unknown then WarningEvent else NormalEvent
  }

  function EventsOf(mode: Mode, from: QuotaPhase, to: QuotaPhase): seq<Event> {
    (if IsReported(from, to) then [PhaseEvent(from, to, SeverityOf(to))] else [])
    + (if IsAudited(mode, from, to) then [AuditEvent(to)] else [])
  }

  // ---- the status patch ----

  function Newer<T(==)>(live: T, read: T, computed: T): T {
    if computed == read then live else computed
  }

  /** A merge patch sends the fields that differ from the read; the list of conditions is one field. */
  function Merged(live: Status, read: Status, computed: Status): Status {
    var conditions := Newer(
      (live.specValid, live.prometheusReachable),
      (read.specValid, read.prometheusReachable),
      (computed.specValid, computed.prometheusReachable));
    Status(
      Newer(live.phase, read.phase, computed.phase),
      Newer(live.tokensUsedToday, read.tokensUsedToday, computed.tokensUsedToday),
      Newer(live.costUsedThisMonth, read.costUsedThisMonth, computed.costUsedThisMonth),
      Newer(live.tokenRemaining, read.tokenRemaining, computed.tokenRemaining),
      Newer(live.costRemaining, read.costRemaining, computed.costRemaining),
      Newer(live.lastEvaluation, read.lastEvaluation, computed.lastEvaluation),
      Newer(live.nextReset, read.nextReset, computed.nextReset),
      conditions.0, conditions.1)
  }

  /**
   Field by field: what a reconcile computed otherwise than it read replaces the
   live value, what it computed as it read stays; the conditions go together.
   */
  lemma MergedIs(live: Status, read: Status, computed: Status)
    ensures var s := Merged(live, read, computed);
            && s.phase == (if computed.phase == read.phase then live.phase else computed.phase)
            && s.tokensUsedToday ==
               (if computed.tokensUsedToday == read.tokensUsedToday then live.tokensUsedToday
                else computed.tokensUsedToday)
            && s.costUsedThisMonth ==
               (if computed.costUsedThisMonth == read.costUsedThisMonth then live.costUsedThisMonth
                else computed.costUsedThisMonth)
            && s.tokenRemaining ==
               (if computed.tokenRemaining == read.tokenRemaining then live.tokenRemaining else computed.tokenRemaining)
            && s.costRemaining ==
               (if computed.costRemaining == read.costRemaining then live.costRemaining else computed.costRemaining)
            && s.lastEvaluation ==
               (if computed.lastEvaluation == read.lastEvaluation then live.lastEvaluation else computed.lastEvaluation)
            && s.nextReset == (if computed.nextReset == read.nextReset then live.nextReset else computed.nextReset)
            && if computed.specValid == read.specValid && computed.prometheusReachable == read.prometheusReachable then
                 s.specValid == live.specValid && s.prometheusReachable == live.prometheusReachable
               else s.specValid == computed.specValid && s.prometheusReachable == computed.prometheusReachable
    ensures Merged(read, read, computed) == computed && Merged(live, read, read) == live
  {
  }

  // ---- the methods ----

  class Quota {
    const spec: Spec
    var status: Status

    constructor (spec: Spec, status: Status)
      ensures this.spec == spec && this.status == status
    {
      this.spec := spec;
      this.status := status;
    }

    method SetSpecCondition(c: Condition)
      modifies this
      ensures status == old(status).(specValid := c)
    {
      status := status.(specValid := c);
    }

    method SetPrometheusCondition(c: Condition)
      modifies this
      ensures status == old(status).(prometheusReachable := c)
    {
      status := status.(prometheusReachable := c);
    }

    method ApplyUnknownStatus(now: Time, costDisplay: string)
      requires now.Valid() && status.nextReset == Some(FirstOfNextMonth(now))
      modifies this
      ensures status == UnknownStatus(now, costDisplay, old(status.specValid), old(status.prometheusReachable))
    {
      status := status.(phase := Unknown);
      status := status.(tokensUsedToday := 0);
      status := status.(costUsedThisMonth := costDisplay);
      status := status.(tokenRemaining := 0);
      status := status.(costRemaining := 0);
      status := status.(lastEvaluation := Some(now));
    }

    method ApplySpend(now: Time, tokenVal: real, cost: real, limit: real)
      requires now.Valid() && status.nextReset == Some(FirstOfNextMonth(now))
      modifies this
      ensures status ==
              SpendStatus(spec, now, tokenVal, cost, limit, old(status.specValid), old(status.prometheusReachable))
    {
      hide ComputePhase, FormatUSD, RemainingPct, RoundHalfAway;
      var tokensUsed := RoundHalfAway(tokenVal);
      status := status.(tokensUsedToday := tokensUsed);
      status := status.(costUsedThisMonth := FormatUSD(cost));
      status := status.(tokenRemaining := TokenRemainingPct(tokensUsed, spec.dailyTokenBudget));
      status := status.(costRemaining := RemainingPct(cost, limit));
      status := status.(lastEvaluation := Some(now));
      var phaseIn := PhaseInputs(false, tokenVal, cost, spec.dailyTokenBudget, limit,
                                 EffectiveAlertThreshold(spec.alertThresholdPct));
      status := status.(phase := ComputePhase(phaseIn));
    }
  }

  class Recorder {
    var events: seq<Event>

    constructor ()
      ensures events == []
    {
      events := [];
    }

    method EmitPhaseEventIfNeeded(prev: QuotaPhase, cur: QuotaPhase)
      modifies this
      ensures events == old(events) + if IsReported(prev, cur) then [PhaseEvent(prev, cur, SeverityOf(cur))] else []
    {
      if prev == cur {
        return;
      }
      if prev == NoPhase && cur == Active {
        return;
      }
      match cur {
        case Exceeded | Unknown => events := events + [PhaseEvent(prev, cur, WarningEvent)];
        case _ => events := events + [PhaseEvent(prev, cur, NormalEvent)];
      }
    }

    method EmitAuditEventIfNeeded(mode: Mode, prev: QuotaPhase, cur: QuotaPhase)
      modifies this
      ensures events == old(events) + if IsAudited(mode, prev, cur) then [AuditEvent(cur)] else []
    {
      if mode != Audit {
        return;
      }
      if prev == cur {
        return;
      }
      if cur != Warning && cur != Exceeded {
        return;
      }
      events := events + [AuditEvent(cur)];
    }
  }

  /** The stored object, which changes only through accepted status patches. */
  class StoredQuota {
    var spec: Spec
    var status: Status

    constructor (spec: Spec)
      ensures this.spec == spec && status == NEW_STATUS
    {
      this.spec := spec;
      status := NEW_STATUS;
    }

    /** Sends what differs from the status that was read; an accepted patch is merged into the present one. */
    method PatchStatus(base: Status, computed: Status, patchOk: bool) returns (ok: bool)
      modifies this`status
      ensures status == if patchOk then Merged(old(status), base, computed) else old(status)
      ensures ok <==> patchOk || base == computed
    {
      if base == computed {
        return true;
      }
      if patchOk {
        status := Merged(status, base, computed);
      }
      ok := patchOk;
    }
  }

  /** The quota's spec and status come from the cache and may be older than the stored ones. */
  method Reconcile(stored: StoredQuota, readSpec: Spec, readStatus: Status, recorder: Recorder, input: Input)
    returns (ok: bool)
    requires input.now.Valid()
    modifies stored`status, recorder
    ensures var computed := Evaluate(readSpec, input);
            && stored.status ==
               (if input.patchOk then Merged(old(stored.status), readStatus, computed) else old(stored.status))
            && recorder.events == old(recorder.events) + EventsOf(readSpec.mode, readStatus.phase, computed.phase)
            && (ok <==> input.patchOk || readStatus == computed)
  {
    hide ParseMonthlyCostLimit, ComputePhase, FormatUSD, RemainingPct, RoundHalfAway, Merged;
    var base := readStatus;
    var quota := new Quota(readSpec, readStatus);
    var prevPhase := base.phase;
    var now := input.now;
    quota.status := quota.status.(nextReset := Some(FirstOfNextMonth(now)));

    var monthlyLimit := ParseMonthlyCostLimit(quota.spec.monthlyCostLimit);
    if monthlyLimit.None? {
      quota.SetSpecCondition(ConditionFalse);
      quota.SetPrometheusCondition(ConditionUnknown);
      quota.ApplyUnknownStatus(now, "0.00");
      recorder.EmitPhaseEventIfNeeded(prevPhase, quota.status.phase);
      ok := stored.PatchStatus(base, quota.status, input.patchOk);
      return;
    }
    quota.SetSpecCondition(ConditionTrue);

    if !input.prometheusConfigured {
      quota.SetPrometheusCondition(ConditionFalse);
      quota.ApplyUnknownStatus(now, "0.00");
      recorder.EmitPhaseEventIfNeeded(prevPhase, quota.status.phase);
      ok := stored.PatchStatus(base, quota.status, input.patchOk);
      return;
    }

    var tokenVal := 0.0;
    var promErr := input.tokens.QueryFailed?;
    if !promErr && input.tokens.Sample? {
      tokenVal := input.tokens.v;
    }
    var cost := 0.0;
    if input.cost.QueryFailed? {
      promErr := true;
    } else if input.cost.Sample? {
      cost := input.cost.v;
    }

    if promErr {
      quota.SetPrometheusCondition(ConditionFalse);
      quota.ApplyUnknownStatus(now, "$0.00");
    } else {
      quota.SetPrometheusCondition(ConditionTrue);
      quota.ApplySpend(now, tokenVal, cost, monthlyLimit.value);
    }

    recorder.EmitPhaseEventIfNeeded(prevPhase, quota.status.phase);
    recorder.EmitAuditEventIfNeeded(quota.spec.mode, prevPhase, quota.status.phase);
    ok := stored.PatchStatus(base, quota.status, input.patchOk);
  }
}
