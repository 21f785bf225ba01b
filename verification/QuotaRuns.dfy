/** What every reconcile leaves behind, and what the event log says after any run of reconciles and spec edits. */
module QuotaRuns {
  import opened Options
  import opened Numerals
  import opened CostFormat
  import opened Calendar
  import opened Phase
  import opened Prometheus
  import opened QuotaController

  // ---- one reconcile ----

  /** The evaluation found a parsable limit and got both answers. */
  predicate Healthy(spec: Spec, input: Input) {
    ParseMonthlyCostLimit(spec.monthlyCostLimit).Some? && input.prometheusConfigured && Answered(input)
  }

  /** What is true of every status that a reconcile computes. */
  ghost predicate StatusOk(s: Status) {
    && s.phase != NoPhase
    && (s.phase == Unknown <==> s.prometheusReachable != ConditionTrue)
    && 0 <= s.tokenRemaining <= 100 && 0 <= s.costRemaining <= 100
    && s.lastEvaluation.Some? && s.lastEvaluation.value.Valid()
    && s.nextReset.Some? && s.nextReset.value.Valid()
    && s.lastEvaluation.value.Instant() < s.nextReset.value.Instant()
    && MonthStart(s.lastEvaluation.value).Instant() <= s.lastEvaluation.value.Instant()
    && s.nextReset.value.MonthIndex() == s.lastEvaluation.value.MonthIndex() + 1 && s.nextReset.value.IsMonthStart()
  }

  lemma EvaluateOk(spec: Spec, input: Input)
    requires input.now.Valid()
    ensures StatusOk(Evaluate(spec, input))
    ensures Evaluate(spec, input).phase == Unknown <==> !Healthy(spec, input)
  {
    hide ParseMonthlyCostLimit, FormatUSD, Utilization, RoundHalfAway, Time.Instant;
    MonthSurrounds(input.now, MonthStart(input.now));
  }

  /** What the queries answered; no series counts as nothing used. */
  function Used(answer: Query): real {
    match answer
    case Sample(v) => v
    case _ => 0.0
  }

  /**
   The phase of an evaluation that gets its answers: Exceeded when the tokens reach
   the daily budget, or are used at all under a budget of zero, or the cost reaches
   the monthly limit; else Warning when one of them reaches the alert threshold's
   share of its limit; else Active. A negative budget and a limit of zero do not
   count, and the threshold is 80 percent when none from 1 to 100 is given.
   */
  lemma PhaseOfEvaluation(spec: Spec, input: Input, limit: real)
    requires input.now.Valid() && ParseMonthlyCostLimit(spec.monthlyCostLimit) == Some(limit)
    requires input.prometheusConfigured && input.tokens != QueryFailed && input.cost != QueryFailed
    ensures var tokens, cost, budget := Used(input.tokens), Used(input.cost), spec.dailyTokenBudget;
            var pct := spec.alertThresholdPct;
            var th := (if pct.Some? && 1 <= pct.value <= 100 then pct.value else 80) as real;
            Evaluate(spec, input).phase ==
            if || (budget == 0 && tokens > 0.0) || (budget > 0 && tokens >= budget as real)
               || (limit > 0.0 && cost >= limit)
            then Exceeded
            else if || (budget > 0 && 100.0 * tokens >= th * budget as real)
                    || (limit > 0.0 && 100.0 * cost >= th * limit)
            then Warning else Active
  {
    hide ParseMonthlyCostLimit, FormatUSD, RemainingPct, TokenRemainingPct, RoundHalfAway;
    var inp := PhaseInputsOf(spec, limit, Used(input.tokens), Used(input.cost));
    ExceededIff(inp);
    if ComputePhase(inp) != Exceeded {
      WarningIff(inp);
    }
    hide ComputePhase;
  }

  /** The figures of such an evaluation: the rounded tokens, the cost in cents, nothing left where there is no limit. */
  lemma FiguresOfEvaluation(spec: Spec, input: Input, limit: real)
    requires input.now.Valid() && ParseMonthlyCostLimit(spec.monthlyCostLimit) == Some(limit)
    requires input.prometheusConfigured && input.tokens != QueryFailed && input.cost != QueryFailed
    ensures var s := Evaluate(spec, input);
            && -0.5 <= s.tokensUsedToday as real - Used(input.tokens) <= 0.5
            && s.costUsedThisMonth == "$" + FormatFixed(Used(input.cost), 2)
            && (spec.dailyTokenBudget <= 0 ==> s.tokenRemaining == 0)
            && (limit <= 0.0 ==> s.costRemaining == 0)
            && s.lastEvaluation == Some(input.now)
            && s.specValid == s.prometheusReachable == ConditionTrue
  {
    hide ParseMonthlyCostLimit, ComputePhase, FormatFixed, ClampRound, Utilization;
    RoundHalfAwayIsNearest(Used(input.tokens));
    hide RoundHalfAway;
  }

  /** A quota whose limit is no number is told so; without answers only Prometheus is to blame. */
  lemma FailedEvaluation(spec: Spec, input: Input)
    requires input.now.Valid()
    requires || ParseMonthlyCostLimit(spec.monthlyCostLimit).None? || !input.prometheusConfigured
             || input.tokens == QueryFailed || input.cost == QueryFailed
    ensures var s, parsed := Evaluate(spec, input), ParseMonthlyCostLimit(spec.monthlyCostLimit).Some?;
            && s.phase == Unknown && s.tokensUsedToday == s.tokenRemaining == s.costRemaining == 0
            && s.lastEvaluation == Some(input.now)
            && s.specValid == (if parsed then ConditionTrue else ConditionFalse)
            && s.prometheusReachable == (if parsed then ConditionFalse else ConditionUnknown)
  {
    hide ParseMonthlyCostLimit;
  }

  /** A limit is a number that is not negative, with blanks around it. */
  lemma LimitOfText(before: string, v: real, places: nat, after: string)
    requires Blank(before) && Blank(after)
    ensures ParseMonthlyCostLimit(before + FormatFixed(v, places) + after) ==
            if RoundTo(v, places) >= 0.0 then Some(RoundTo(v, places)) else None
    ensures ParseMonthlyCostLimit(before + after) == None
  {
    FixedIsTight(v, places);
    ParseFixed(v, places);
    hide FormatFixed, TrimSpace, ParseFloat, RoundTo, Blank;
    TrimBlank(before, FormatFixed(v, places), after);
    NoText(before, after);
  }

  lemma NoText(before: string, after: string)
    requires Blank(before) && Blank(after)
    ensures TrimSpace(before + after) == ""
  {
    TrimBlank(before, "", after);
    assert before + "" + after == before + after;
  }

  function LimitOf(spec: Spec): real {
    var limit := ParseMonthlyCostLimit(spec.monthlyCostLimit);
    if limit.Some? then limit.value else 0.0
  }

  /** Used percent, cut off at 100. */
  function UsedPct(used: real, limit: real): real
    requires limit > 0.0
  {
    var u := Utilization(used, limit);
    if u > 100.0 then 100.0 else u
  }

  /**
   The cost percentage that is shown fits the phase: it is within one half of
   the true rest, a quota exceeded by cost shows 0, and an active quota shows at
   least 100 - threshold.
   */
  lemma CostPercentageFits(spec: Spec, input: Input)
    requires input.now.Valid() && Healthy(spec, input)
    requires ValueOrZero(input.cost) >= 0.0 && LimitOf(spec) > 0.0
    ensures var s, cost := Evaluate(spec, input), ValueOrZero(input.cost);
            var th := EffectiveAlertThreshold(spec.alertThresholdPct);
            && -0.5 <= s.costRemaining as real - (100.0 - UsedPct(cost, LimitOf(spec))) <= 0.5
            && (cost >= LimitOf(spec) ==> s.phase == Exceeded && s.costRemaining == 0)
            && (s.phase == Active ==> s.costRemaining >= 100 - th)
  {
    hide ParseMonthlyCostLimit, FormatUSD, Utilization, RemainingPct, TokenRemainingPct, RoundHalfAway;
    var limit, cost := LimitOf(spec), ValueOrZero(input.cost);
    var inp := PhaseInputsOf(spec, limit, ValueOrZero(input.tokens), cost);
    RemainingIsClose(cost, limit);
    if cost >= limit {
      ExceededCostLeavesNothing(inp);
    }
    if ComputePhase(inp) == Active {
      ActiveCostLeft(inp);
    }
  }

  /**
   The token percentage that is shown fits the phase for every budget that
   passes the integer test, in particular from 100 tokens on.
   */
  lemma TokenPercentageFits(spec: Spec, input: Input)
    requires input.now.Valid() && Healthy(spec, input)
    requires ValueOrZero(input.tokens) >= 0.0 && spec.dailyTokenBudget > 0
    requires || BudgetIsFine(spec.dailyTokenBudget, EffectiveAlertThreshold(spec.alertThresholdPct))
             || spec.dailyTokenBudget >= 100
    ensures var s, th := Evaluate(spec, input), EffectiveAlertThreshold(spec.alertThresholdPct);
            s.phase == Active ==> s.tokenRemaining >= 100 - th
  {
    hide ParseMonthlyCostLimit, FormatUSD, RemainingPct, TokenRemainingPct, RoundHalfAway;
    hide BudgetIsFine, ComputePhase;
    var inp := PhaseInputsOf(spec, LimitOf(spec), ValueOrZero(input.tokens), ValueOrZero(input.cost));
    if ComputePhase(inp) == Active {
      ActiveTokensLeft(inp);
    }
  }

  // ---- runs ----

  datatype State = State(spec: Spec, status: Status, log: seq<Event>)

  datatype Action = ReconcileAction(input: Input) | EditSpec(spec: Spec)

  predicate ValidAction(a: Action) {
    a.ReconcileAction? ==> a.input.now.Valid()
  }

  function Step(s: State, a: Action): State
    requires ValidAction(a)
  {
    match a
    case EditSpec(spec) => s.(spec := spec)
    case ReconcileAction(input) =>
      var computed := Evaluate(s.spec, input);
      State(
        s.spec,
        if input.patchOk then computed else s.status,
        s.log + EventsOf(s.spec.mode, s.status.phase, computed.phase))
  }

  ghost predicate ValidActions(actions: seq<Action>) {
    forall i :: 0 <= i < |actions| ==> ValidAction(actions[i])
  }

  ghost function Run(s: State, actions: seq<Action>): State
    requires ValidActions(actions)
  {
    if actions == [] then s
    else Step(Run(s, actions[..|actions| - 1]), actions[|actions| - 1])
  }

  /** In every state of a run the status is either untouched or what some reconcile computed. */
  lemma {:induction false} RunKeepsStatusOk(s: State, actions: seq<Action>)
    requires ValidActions(actions) && (s.status == NEW_STATUS || StatusOk(s.status))
    ensures var t := Run(s, actions); t.status == NEW_STATUS || StatusOk(t.status)
  {
    hide Evaluate, StatusOk;
    if actions != [] {
      var last := actions[|actions| - 1];
      RunKeepsStatusOk(s, actions[..|actions| - 1]);
      if last.ReconcileAction? {
        EvaluateOk(Run(s, actions[..|actions| - 1]).spec, last.input);
      }
    }
  }

  // ---- the event log ----

  /** A reconcile as an outsider sees it: the mode, and the persisted phase before and after. */
  datatype Move = Move(mode: Mode, from: QuotaPhase, to: QuotaPhase)

  ghost function Moves(s: State, actions: seq<Action>): seq<Move>
    requires ValidActions(actions)
  {
    if actions == [] then []
    else
      var front, last := actions[..|actions| - 1], actions[|actions| - 1];
      var before := Run(s, front);
      Moves(s, front) +
      (if last.ReconcileAction? then [Move(before.spec.mode, before.status.phase, Run(s, actions).status.phase)]
       else [])
  }

  /** The (from, to) pairs of the phase events. */
  function PhaseChanges(log: seq<Event>): seq<(QuotaPhase, QuotaPhase)> {
    if log == [] then []
    else
      var last := log[|log| - 1];
      PhaseChanges(log[..|log| - 1]) + (if last.PhaseEvent? then [(last.from, last.to)] else [])
  }

  function AuditTargets(log: seq<Event>): seq<QuotaPhase> {
    if log == [] then []
    else
      var last := log[|log| - 1];
      AuditTargets(log[..|log| - 1]) + (if last.AuditEvent? then [last.to] else [])
  }

  /** The persisted changes of phase, the first activation left out. */
  function ReportedMoves(moves: seq<Move>): seq<(QuotaPhase, QuotaPhase)> {
    if moves == [] then []
    else
      var m := moves[|moves| - 1];
      ReportedMoves(moves[..|moves| - 1]) + (if IsReported(m.from, m.to) then [(m.from, m.to)] else [])
  }

  /** The persisted changes into Warning or Exceeded made while the mode was Audit. */
  function AuditedMoves(moves: seq<Move>): seq<QuotaPhase> {
    if moves == [] then []
    else
      var m := moves[|moves| - 1];
      AuditedMoves(moves[..|moves| - 1]) + (if IsAudited(m.mode, m.from, m.to) then [m.to] else [])
  }

  lemma LogGrows(log: seq<Event>, mode: Mode, from: QuotaPhase, to: QuotaPhase)
    ensures var after := log + EventsOf(mode, from, to);
            && PhaseChanges(after) == PhaseChanges(log) + (if IsReported(from, to) then [(from, to)] else [])
            && AuditTargets(after) == AuditTargets(log) + (if IsAudited(mode, from, to) then [to] else [])
  {
    var middle := log + if IsReported(from, to) then [PhaseEvent(from, to, SeverityOf(to))] else [];
    if IsReported(from, to) {
      assert middle[..|middle| - 1] == log;
    } else {
      assert middle == log;
    }
    var after := log + EventsOf(mode, from, to);
    if IsAudited(mode, from, to) {
      assert after[..|after| - 1] == middle;
    } else {
      assert after == middle;
    }
  }

  /** The reconcile at place i reports a change of phase and then cannot persist it. */
  ghost predicate LosesReport(s: State, actions: seq<Action>, i: int)
    requires ValidActions(actions)
  {
    && 0 <= i < |actions| && actions[i].ReconcileAction? && !actions[i].input.patchOk
    && var before := Run(s, actions[..i]);
      IsReported(before.status.phase, Evaluate(before.spec, actions[i].input).phase)
  }

  ghost predicate LosesAudit(s: State, actions: seq<Action>, i: int)
    requires ValidActions(actions)
  {
    && 0 <= i < |actions| && actions[i].ReconcileAction? && !actions[i].input.patchOk
    && var before := Run(s, actions[..i]);
      IsAudited(before.spec.mode, before.status.phase, Evaluate(before.spec, actions[i].input).phase)
  }

  ghost predicate NoReportLost(s: State, actions: seq<Action>)
    requires ValidActions(actions)
  {
    forall i :: !LosesReport(s, actions, i)
  }

  ghost predicate NoAuditLost(s: State, actions: seq<Action>)
    requires ValidActions(actions)
  {
    forall i :: !LosesAudit(s, actions, i)
  }

  lemma LostInPrefix(s: State, actions: seq<Action>)
    requires ValidActions(actions) && actions != []
    ensures var n := |actions| - 1;
            && (NoReportLost(s, actions) <==> NoReportLost(s, actions[..n]) && !LosesReport(s, actions, n))
            && (NoAuditLost(s, actions) <==> NoAuditLost(s, actions[..n]) && !LosesAudit(s, actions, n))
  {
    hide Evaluate, IsReported, IsAudited, Run;
    var n := |actions| - 1;
    forall i | 0 <= i < n
      ensures LosesReport(s, actions, i) <==> LosesReport(s, actions[..n], i)
      ensures LosesAudit(s, actions, i) <==> LosesAudit(s, actions[..n], i)
    {
      assert actions[..n][..i] == actions[..i];
    }
    assert forall i :: LosesReport(s, actions, i) ==> i == n || LosesReport(s, actions[..n], i);
    assert forall i :: LosesReport(s, actions[..n], i) ==> LosesReport(s, actions, i);
    assert forall i :: LosesAudit(s, actions, i) ==> i == n || LosesAudit(s, actions[..n], i);
    assert forall i :: LosesAudit(s, actions[..n], i) ==> LosesAudit(s, actions, i);
  }

  lemma MovesOfLast(s: State, actions: seq<Action>)
    requires ValidActions(actions) && actions != []
    ensures var n := |actions| - 1;
            var before, after := Run(s, actions[..n]), Run(s, actions);
            var m := Move(before.spec.mode, before.status.phase, after.status.phase);
            if actions[n].ReconcileAction? then
              && ReportedMoves(Moves(s, actions)) ==
                 ReportedMoves(Moves(s, actions[..n])) + (if IsReported(m.from, m.to) then [(m.from, m.to)] else [])
              && AuditedMoves(Moves(s, actions)) ==
                 AuditedMoves(Moves(s, actions[..n])) + (if IsAudited(m.mode, m.from, m.to) then [m.to] else [])
            else Moves(s, actions) == Moves(s, actions[..n])
  {
    hide Run, IsReported, IsAudited;
    var moves, front := Moves(s, actions), Moves(s, actions[..|actions| - 1]);
    if actions[|actions| - 1].ReconcileAction? {
      assert moves[..|moves| - 1] == front;
    }
  }

  /**
   The log consists of exactly the persisted changes of phase except the first
   activation, in order, if and only if no reconcile reports a change that it
   then cannot persist; and of exactly the persisted audited changes if and only
   if no reconcile audits such a change.
   */
  lemma LogIsHistory(s: State, actions: seq<Action>)
    requires ValidActions(actions) && s.log == []
    ensures PhaseChanges(Run(s, actions).log) == ReportedMoves(Moves(s, actions)) <==> NoReportLost(s, actions)
    ensures AuditTargets(Run(s, actions).log) == AuditedMoves(Moves(s, actions)) <==> NoAuditLost(s, actions)
  {
    LogAgainstHistory(s, actions);
  }

  /** Every lost report and every lost audit makes the log longer than the history. */
  lemma {:induction false} LogAgainstHistory(s: State, actions: seq<Action>)
    requires ValidActions(actions) && s.log == []
    ensures var changes, moves := PhaseChanges(Run(s, actions).log), ReportedMoves(Moves(s, actions));
            if NoReportLost(s, actions) then changes == moves else |changes| > |moves|
    ensures var targets, moves := AuditTargets(Run(s, actions).log), AuditedMoves(Moves(s, actions));
            if NoAuditLost(s, actions) then targets == moves else |targets| > |moves|
  {
    hide Evaluate, EventsOf, IsReported, IsAudited, NoReportLost, NoAuditLost, PhaseChanges, AuditTargets, Moves;
    if actions == [] {
      EmptyHistory(s);
    } else {
      var front, last := actions[..|actions| - 1], actions[|actions| - 1];
      LogAgainstHistory(s, front);
      LostInPrefix(s, actions);
      MovesOfLast(s, actions);
      var before := Run(s, front);
      if last.ReconcileAction? {
        var computed := Evaluate(before.spec, last.input);
        LogGrows(before.log, before.spec.mode, before.status.phase, computed.phase);
        NothingMoved(before.spec.mode, before.status.phase);
      }
    }
  }

  lemma EmptyHistory(s: State)
    requires s.log == []
    ensures NoReportLost(s, []) && NoAuditLost(s, []) && Moves(s, []) == []
    ensures PhaseChanges(Run(s, []).log) == [] && AuditTargets(Run(s, []).log) == []
    ensures ReportedMoves([]) == [] && AuditedMoves([]) == []
  {
  }

  lemma NothingMoved(mode: Mode, phase: QuotaPhase)
    ensures !IsReported(phase, phase) && !IsAudited(mode, phase, phase)
  {
  }

  /** Each change starts at the phase where the one before it ended. */
  ghost predicate Chained(changes: seq<(QuotaPhase, QuotaPhase)>) {
    forall i :: 0 < i < |changes| ==> changes[i].0 == changes[i - 1].1
  }

  /** The phase that the log leads to: the last target, or no phase or Active when nothing was reported. */
  predicate LeadsTo(changes: seq<(QuotaPhase, QuotaPhase)>, phase: QuotaPhase) {
    if changes == [] then phase == NoPhase || phase == Active
    else changes[|changes| - 1].1 == phase
  }

  /**
   The first event starts at no phase or Active, silence means that at most an
   activation happened, and no event leads back to where reporting starts.
   */
  predicate StartsFresh(changes: seq<(QuotaPhase, QuotaPhase)>, phase: QuotaPhase) {
    && (changes != [] ==> changes[0].0 == NoPhase || changes[0].0 == Active)
    && (changes == [] ==> phase == NoPhase || phase == Active)
    && (changes != [] ==>
          changes[|changes| - 1].1 != NoPhase && (phase == NoPhase ==> changes[|changes| - 1].1 != Active))
  }

  /**
   The phase events of a new quota chain - each starts where the last ended, and
   the persisted phase is where the last one leads - if and only if no reconcile
   reports a change that it then cannot persist.
   */
  lemma {:induction false} EventsChain(spec: Spec, actions: seq<Action>)
    requires ValidActions(actions)
    ensures var s := State(spec, NEW_STATUS, []);
            var t := Run(s, actions);
            var changes := PhaseChanges(t.log);
            && (Chained(changes) && LeadsTo(changes, t.status.phase) <==> NoReportLost(s, actions))
            && StartsFresh(changes, t.status.phase)
  {
    hide Evaluate, EventsOf, IsAudited, StatusOk, NoReportLost, PhaseChanges;
    var s := State(spec, NEW_STATUS, []);
    if actions == [] {
      EmptyHistory(s);
    } else {
      var front, last := actions[..|actions| - 1], actions[|actions| - 1];
      EventsChain(spec, front);
      LostInPrefix(s, actions);
      var before := Run(s, front);
      if last.ReconcileAction? {
        var computed := Evaluate(before.spec, last.input);
        EvaluatedPhase(before.spec, last.input);
        LogGrows(before.log, before.spec.mode, before.status.phase, computed.phase);
        ChainStep(PhaseChanges(before.log), before.status.phase, computed.phase, last.input.patchOk);
      }
    }
  }

  /** One reconcile keeps a chain unless its report is lost, and never mends a broken one. */
  lemma ChainStep(changes: seq<(QuotaPhase, QuotaPhase)>, from: QuotaPhase, to: QuotaPhase, patchOk: bool)
    requires to != NoPhase && StartsFresh(changes, from)
    ensures var after := changes + if IsReported(from, to) then [(from, to)] else [];
            var phase := if patchOk then to else from;
            && (Chained(after) && LeadsTo(after, phase) <==>
                Chained(changes) && LeadsTo(changes, from) && !(IsReported(from, to) && !patchOk))
            && StartsFresh(after, phase)
  {
    var after := changes + if IsReported(from, to) then [(from, to)] else [];
    assert forall i :: 0 <= i < |changes| ==> after[i] == changes[i];
    if IsReported(from, to) {
      var n := |changes|;
      assert after[n] == (from, to);
      assert Chained(after) <==> Chained(changes) && (n > 0 ==> after[n].0 == after[n - 1].1);
    } else {
      assert after == changes;
    }
  }

  lemma EvaluatedPhase(spec: Spec, input: Input)
    requires input.now.Valid()
    ensures Evaluate(spec, input).phase != NoPhase
  {
    EvaluateOk(spec, input);
    hide Evaluate;
  }

  /**
   Events are emitted before the status is patched: a change that is reported
   and not persisted is reported again by the next reconcile with the same
   answers, though the phase never moved.
   */
  lemma RefusedPatchRepeatsEvents(s: State, input: Input)
    requires input.now.Valid() && !input.patchOk
    requires IsReported(s.status.phase, Evaluate(s.spec, input).phase)
    ensures var to := Evaluate(s.spec, input).phase;
            var event := PhaseEvent(s.status.phase, to, SeverityOf(to));
            var twice := Run(s, [ReconcileAction(input), ReconcileAction(input)]);
            && twice.status == s.status
            && PhaseChanges(twice.log) == PhaseChanges(s.log) + [(s.status.phase, to), (s.status.phase, to)]
  {
    hide Evaluate, EventsOf, PhaseChanges;
    var a := ReconcileAction(input);
    assert [a, a][..1] == [a] && [a][..0] == [];
    assert Run(s, [a]) == Step(Run(s, []), a);
    assert Run(s, [a, a]) == Step(Run(s, [a]), a);
    LogGrows(s.log, s.spec.mode, s.status.phase, Evaluate(s.spec, input).phase);
    LogGrows(Step(s, a).log, s.spec.mode, s.status.phase, Evaluate(s.spec, input).phase);
  }

  const NEW_YEAR := Time(2026, 1, 1, 0)

  /** On a new quota, without Prometheus and with refused patches, every reconcile warns of a move to Unknown. */
  lemma UnreachablePrometheusRepeatsWarning()
    ensures var spec := Spec(100, "10", None, Enforce);
            var action := ReconcileAction(Input(NEW_YEAR, false, NoSeries, NoSeries, false));
            var s := State(spec, NEW_STATUS, []);
            && ValidAction(action)
            && Run(s, [action, action]).log ==
               [PhaseEvent(NoPhase, Unknown, WarningEvent), PhaseEvent(NoPhase, Unknown, WarningEvent)]
            && Run(s, [action, action]).status == NEW_STATUS
            && Moves(s, [action, action]) == [Move(Enforce, NoPhase, NoPhase), Move(Enforce, NoPhase, NoPhase)]
            && LosesReport(s, [action, action], 0) && LosesReport(s, [action, action], 1)
  {
    hide ParseMonthlyCostLimit, FirstOfNextMonth;
    var s := State(Spec(100, "10", None, Enforce), NEW_STATUS, []);
    var a := ReconcileAction(Input(NEW_YEAR, false, NoSeries, NoSeries, false));
    assert Evaluate(s.spec, a.input).phase == Unknown;
    assert [a, a][..1] == [a] && [a][..0] == [] && [a, a][..0] == [];
    assert Run(s, [a]) == Step(Run(s, []), a);
    assert Run(s, [a, a]) == Step(Run(s, [a]), a);
    assert Moves(s, [a]) == Moves(s, []) + [Move(Enforce, NoPhase, NoPhase)];
  }
}
