/**
 The quota controller with the manager's cached client: a reconcile may read the
 quota as it was before an earlier patch or edit, and its status patch is merged
 field by field into the live status.
 */
module CachedQuotas {
  import opened Options
  import opened Calendar
  import opened Phase
  import opened Prometheus
  import opened QuotaController
  import opened QuotaRuns
  import opened Lags

  /** One action; a reconcile works on the quota as read. */
  function CachedStep(s: State, read: State, a: Action): State
    requires ValidAction(a)
  {
    match a
    case EditSpec(spec) => s.(spec := spec)
    case ReconcileAction(input) =>
      var computed := Evaluate(read.spec, input);
      State(
        s.spec,
        if input.patchOk then Merged(s.status, read.status, computed) else s.status,
        s.log + EventsOf(read.spec.mode, read.status.phase, computed.phase))
  }

  ghost function CachedRun(s: State, actions: seq<Action>, lag: nat -> nat): State
    requires ValidActions(actions) && IsLag(lag)
    decreases |actions|
  {
    if actions == [] then s
    else
      var n := |actions| - 1;
      CachedStep(CachedRun(s, actions[..n], lag), CachedRun(s, actions[..lag(n)], lag), actions[n])
  }

  /** With reads that are up to date this is the run of the model without a cache. */
  lemma {:induction false} FreshRun(s: State, actions: seq<Action>, lag: nat -> nat)
    requires ValidActions(actions) && NeverLags(lag)
    ensures CachedRun(s, actions, lag) == Run(s, actions)
  {
    hide Evaluate, EventsOf;
    if actions != [] {
      FreshRun(s, actions[..|actions| - 1], lag);
    }
  }

  /** The reconciles with the live mode and the persisted phase before and after. */
  ghost function CachedMoves(s: State, actions: seq<Action>, lag: nat -> nat): seq<Move>
    requires ValidActions(actions) && IsLag(lag)
  {
    if actions == [] then []
    else
      var front, last := actions[..|actions| - 1], actions[|actions| - 1];
      var live := CachedRun(s, front, lag);
      CachedMoves(s, front, lag) +
      (if last.ReconcileAction? then [Move(live.spec.mode, live.status.phase, CachedRun(s, actions, lag).status.phase)]
       else [])
  }

  /**
   A reconcile that computes another phase than it reads, and reports this though
   it is not what happens to the live phase, or does not report what happens.
   */
  predicate Misreports(live: State, read: State, input: Input)
    requires input.now.Valid()
  {
    var from, to := read.status.phase, Evaluate(read.spec, input).phase;
    from != to &&
    if IsReported(from, to) then !input.patchOk || live.status.phase != from
    else input.patchOk && live.status.phase != NoPhase && live.status.phase != Active
  }

  /** The same for audit events, which depend on the mode too. */
  predicate Misaudits(live: State, read: State, input: Input)
    requires input.now.Valid()
  {
    var from, to := read.status.phase, Evaluate(read.spec, input).phase;
    && from != to && (to == Warning || to == Exceeded)
    && (read.spec.mode == Audit) != (input.patchOk && live.spec.mode == Audit && live.status.phase != to)
  }

  ghost predicate MisreportsAt(s: State, actions: seq<Action>, lag: nat -> nat, i: int)
    requires ValidActions(actions) && IsLag(lag)
  {
    && 0 <= i < |actions| && actions[i].ReconcileAction?
    && Misreports(CachedRun(s, actions[..i], lag), CachedRun(s, actions[..lag(i)], lag), actions[i].input)
  }

  ghost predicate MisauditsAt(s: State, actions: seq<Action>, lag: nat -> nat, i: int)
    requires ValidActions(actions) && IsLag(lag)
  {
    && 0 <= i < |actions| && actions[i].ReconcileAction?
    && Misaudits(CachedRun(s, actions[..i], lag), CachedRun(s, actions[..lag(i)], lag), actions[i].input)
  }

  ghost predicate ReportsInStep(s: State, actions: seq<Action>, lag: nat -> nat)
    requires ValidActions(actions) && IsLag(lag)
  {
    PhaseChanges(CachedRun(s, actions, lag).log) == ReportedMoves(CachedMoves(s, actions, lag))
  }

  ghost predicate AuditsInStep(s: State, actions: seq<Action>, lag: nat -> nat)
    requires ValidActions(actions) && IsLag(lag)
  {
    AuditTargets(CachedRun(s, actions, lag).log) == AuditedMoves(CachedMoves(s, actions, lag))
  }

  lemma SameEnd<T>(a: seq<T>, x: seq<T>, y: seq<T>)
    ensures a + x == a + y <==> x == y
  {
    if a + x == a + y {
      assert x == (a + x)[|a|..] && y == (a + y)[|a|..];
    }
  }

  /** What a reconcile adds to the log. */
  lemma AddedToLog(live: State, read: State, input: Input)
    requires input.now.Valid()
    ensures var now, to := CachedStep(live, read, ReconcileAction(input)), Evaluate(read.spec, input).phase;
            var from, was := read.status.phase, live.status.phase;
            && now.status.phase == (if input.patchOk then Newer(was, from, to) else was)
            && PhaseChanges(now.log) == PhaseChanges(live.log) + (if IsReported(from, to) then [(from, to)] else [])
            && AuditTargets(now.log) ==
               AuditTargets(live.log) + (if IsAudited(read.spec.mode, from, to) then [to] else [])
  {
    hide Evaluate, EventsOf, PhaseChanges, AuditTargets, IsReported, IsAudited;
    LogGrows(live.log, read.spec.mode, read.status.phase, Evaluate(read.spec, input).phase);
  }

  /** What it adds to the history. */
  lemma AddedToHistory(s: State, actions: seq<Action>, lag: nat -> nat)
    requires ValidActions(actions) && IsLag(lag) && actions != [] && actions[|actions| - 1].ReconcileAction?
    ensures var front := actions[..|actions| - 1];
            var live, to := CachedRun(s, front, lag), CachedRun(s, actions, lag).status.phase;
            var from := live.status.phase;
            && ReportedMoves(CachedMoves(s, actions, lag)) ==
               ReportedMoves(CachedMoves(s, front, lag)) + (if IsReported(from, to) then [(from, to)] else [])
            && AuditedMoves(CachedMoves(s, actions, lag)) ==
               AuditedMoves(CachedMoves(s, front, lag)) + (if IsAudited(live.spec.mode, from, to) then [to] else [])
  {
    hide CachedRun, IsReported, IsAudited;
    var moves := CachedMoves(s, actions, lag);
    assert moves[..|moves| - 1] == CachedMoves(s, actions[..|actions| - 1], lag);
  }

  lemma RunOn(s: State, actions: seq<Action>, lag: nat -> nat)
    requires ValidActions(actions) && IsLag(lag) && actions != []
    ensures var n := |actions| - 1;
            CachedRun(s, actions, lag) ==
            CachedStep(CachedRun(s, actions[..n], lag), CachedRun(s, actions[..lag(n)], lag), actions[n])
  {
    hide CachedStep;
  }

  /** What one action adds to the log and to the history is the same unless it misreports. */
  lemma InStepOn(s: State, actions: seq<Action>, lag: nat -> nat)
    requires ValidActions(actions) && IsLag(lag) && actions != []
    ensures var n := |actions| - 1;
            && (ReportsInStep(s, actions[..n], lag) ==>
               (ReportsInStep(s, actions, lag) <==> !MisreportsAt(s, actions, lag, n)))
            && (AuditsInStep(s, actions[..n], lag) ==>
               (AuditsInStep(s, actions, lag) <==> !MisauditsAt(s, actions, lag, n)))
  {
    hide Evaluate, CachedStep, PhaseChanges, AuditTargets, ReportedMoves, AuditedMoves;
    var n := |actions| - 1;
    if actions[n].ReconcileAction? {
      var live, read := CachedRun(s, actions[..n], lag), CachedRun(s, actions[..lag(n)], lag);
      var from, to, was := read.status.phase, Evaluate(read.spec, actions[n].input).phase, live.status.phase;
      var now := CachedRun(s, actions, lag).status.phase;
      RunOn(s, actions, lag);
      AddedToLog(live, read, actions[n].input);
      AddedToHistory(s, actions, lag);
      EvaluatedPhase(read.spec, actions[n].input);
      hide CachedRun, CachedMoves;
      SameEnd(PhaseChanges(live.log), if IsReported(from, to) then [(from, to)] else [],
              if IsReported(was, now) then [(was, now)] else []);
      SameEnd(AuditTargets(live.log), if IsAudited(read.spec.mode, from, to) then [to] else [],
              if IsAudited(live.spec.mode, was, now) then [now] else []);
    } else {
      EditAddsNothing(s, actions, lag);
    }
  }

  lemma EditAddsNothing(s: State, actions: seq<Action>, lag: nat -> nat)
    requires ValidActions(actions) && IsLag(lag) && actions != [] && actions[|actions| - 1].EditSpec?
    ensures var before, after := CachedRun(s, actions[..|actions| - 1], lag), CachedRun(s, actions, lag);
            after.log == before.log && after.status == before.status
    ensures CachedMoves(s, actions, lag) == CachedMoves(s, actions[..|actions| - 1], lag)
  {
  }

  // ---- the log and the history ----

  ghost predicate AlwaysInStep(s: State, actions: seq<Action>, lag: nat -> nat)
    requires ValidActions(actions) && IsLag(lag)
  {
    forall n :: 0 <= n <= |actions| ==> ReportsInStep(s, actions[..n], lag)
  }

  ghost predicate AlwaysAudited(s: State, actions: seq<Action>, lag: nat -> nat)
    requires ValidActions(actions) && IsLag(lag)
  {
    forall n :: 0 <= n <= |actions| ==> AuditsInStep(s, actions[..n], lag)
  }

  /** The same at one more moment. */
  lemma StepAt(s: State, actions: seq<Action>, lag: nat -> nat, n: nat)
    requires ValidActions(actions) && IsLag(lag) && n < |actions|
    ensures ReportsInStep(s, actions[..n], lag) ==>
              (ReportsInStep(s, actions[..n + 1], lag) <==> !MisreportsAt(s, actions, lag, n))
    ensures AuditsInStep(s, actions[..n], lag) ==>
              (AuditsInStep(s, actions[..n + 1], lag) <==> !MisauditsAt(s, actions, lag, n))
  {
    hide ReportsInStep, AuditsInStep, Misreports, Misaudits, CachedRun;
    var upTo := actions[..n + 1];
    assert upTo[..n] == actions[..n] && upTo[..lag(n)] == actions[..lag(n)] && upTo[n] == actions[n];
    InStepOn(s, upTo, lag);
  }

  lemma {:induction false} InStepUpTo(s: State, actions: seq<Action>, lag: nat -> nat, n: nat)
    requires ValidActions(actions) && IsLag(lag) && n <= |actions| && s.log == []
    ensures (forall i :: !MisreportsAt(s, actions, lag, i)) ==> ReportsInStep(s, actions[..n], lag)
    ensures (forall i :: !MisauditsAt(s, actions, lag, i)) ==> AuditsInStep(s, actions[..n], lag)
  {
    if n == 0 {
      assert actions[..0] == [];
    } else {
      hide ReportsInStep, AuditsInStep, MisreportsAt, MisauditsAt;
      InStepUpTo(s, actions, lag, n - 1);
      StepAt(s, actions, lag, n - 1);
    }
  }

  /**
   At every moment of a run the phase events are exactly the reported changes of
   the persisted phase, in order, if and only if no reconcile misreports; and the
   audit events are exactly the audited changes if and only if none misaudits.
   */
  lemma LogIsHistoryIff(s: State, actions: seq<Action>, lag: nat -> nat)
    requires ValidActions(actions) && IsLag(lag) && s.log == []
    ensures AlwaysInStep(s, actions, lag) <==> forall i :: !MisreportsAt(s, actions, lag, i)
    ensures AlwaysAudited(s, actions, lag) <==> forall i :: !MisauditsAt(s, actions, lag, i)
  {
    hide ReportsInStep, AuditsInStep, Misreports, Misaudits, CachedRun;
    forall n | 0 <= n <= |actions|
      ensures (forall i :: !MisreportsAt(s, actions, lag, i)) ==> ReportsInStep(s, actions[..n], lag)
      ensures (forall i :: !MisauditsAt(s, actions, lag, i)) ==> AuditsInStep(s, actions[..n], lag)
    {
      InStepUpTo(s, actions, lag, n);
    }
    forall i | 0 <= i < |actions|
      ensures AlwaysInStep(s, actions, lag) ==> !MisreportsAt(s, actions, lag, i)
      ensures AlwaysAudited(s, actions, lag) ==> !MisauditsAt(s, actions, lag, i)
    {
      StepAt(s, actions, lag, i);
    }
  }

  // ---- the chain of events ----

  /** The events of the phase chain and lead to the persisted phase. */
  ghost predicate ChainLeads(s: State, actions: seq<Action>, lag: nat -> nat)
    requires ValidActions(actions) && IsLag(lag)
  {
    var now := CachedRun(s, actions, lag);
    Chained(PhaseChanges(now.log)) && LeadsTo(PhaseChanges(now.log), now.status.phase)
  }

  /** A misreport, but for one case: the first event of all may start at no phase after a silent activation. */
  predicate BreaksChain(live: State, read: State, input: Input)
    requires input.now.Valid()
  {
    && Misreports(live, read, input)
    && !(&& IsReported(read.status.phase, Evaluate(read.spec, input).phase)
         && input.patchOk && PhaseChanges(live.log) == [])
  }

  ghost predicate BreaksChainAt(s: State, actions: seq<Action>, lag: nat -> nat, i: int)
    requires ValidActions(actions) && IsLag(lag)
  {
    && 0 <= i < |actions| && actions[i].ReconcileAction?
    && BreaksChain(CachedRun(s, actions[..i], lag), CachedRun(s, actions[..lag(i)], lag), actions[i].input)
  }

  lemma ChainOn(
      changes: seq<(QuotaPhase, QuotaPhase)>, was: QuotaPhase, from: QuotaPhase, to: QuotaPhase, patchOk: bool)
    requires Chained(changes) && LeadsTo(changes, was) && to != NoPhase
    requires if changes == [] then from == NoPhase || from == Active else was != NoPhase
    ensures var after := changes + if IsReported(from, to) then [(from, to)] else [];
            var now := if patchOk then Newer(was, from, to) else was;
            Chained(after) && LeadsTo(after, now) <==>
            !(from != to &&
              if IsReported(from, to) then !patchOk || (was != from && changes != [])
              else patchOk && was != NoPhase && was != Active)
  {
    var after := changes + if IsReported(from, to) then [(from, to)] else [];
    assert forall i :: 0 <= i < |changes| ==> after[i] == changes[i];
    if IsReported(from, to) {
      var n := |changes|;
      assert after[n] == (from, to);
      assert Chained(after) <==> n > 0 ==> after[n].0 == after[n - 1].1;
    } else {
      assert after == changes;
    }
  }

  /** No change leads to no phase. */
  predicate LeadsSomewhere(changes: seq<(QuotaPhase, QuotaPhase)>) {
    changes != [] ==> changes[|changes| - 1].1 != NoPhase
  }

  ghost function ChangesOf(s: State, actions: seq<Action>, lag: nat -> nat): seq<(QuotaPhase, QuotaPhase)>
    requires ValidActions(actions) && IsLag(lag)
  {
    PhaseChanges(CachedRun(s, actions, lag).log)
  }

  lemma ChangesOn(s: State, actions: seq<Action>, lag: nat -> nat)
    requires ValidActions(actions) && IsLag(lag) && actions != []
    ensures var before, after := ChangesOf(s, actions[..|actions| - 1], lag), ChangesOf(s, actions, lag);
            |before| <= |after| && (LeadsSomewhere(before) ==> LeadsSomewhere(after))
  {
    hide CachedRun, CachedStep, Evaluate, PhaseChanges, IsReported, IsAudited, ReportedMoves, AuditedMoves, CachedMoves;
    var n := |actions| - 1;
    if actions[n].ReconcileAction? {
      var live, read := CachedRun(s, actions[..n], lag), CachedRun(s, actions[..lag(n)], lag);
      RunOn(s, actions, lag);
      AddedToLog(live, read, actions[n].input);
      EvaluatedPhase(read.spec, actions[n].input);
    } else {
      EditAddsNothing(s, actions, lag);
    }
  }

  /** The changes only become more, and none leads to no phase. */
  lemma {:induction false} ChangesGrow(s: State, actions: seq<Action>, lag: nat -> nat, m: nat)
    requires ValidActions(actions) && IsLag(lag) && m <= |actions| && s.log == []
    ensures |ChangesOf(s, actions[..m], lag)| <= |ChangesOf(s, actions, lag)|
    ensures LeadsSomewhere(ChangesOf(s, actions, lag))
    decreases |actions|
  {
    var n := |actions| - 1;
    if actions == [] {
      EmptyHistory(s);
      assert actions[..m] == actions;
    } else {
      hide ChangesOf, LeadsSomewhere;
      ChangesGrow(s, actions[..n], lag, if m <= n then m else n);
      ChangesOn(s, actions, lag);
      if m <= n {
        assert actions[..n][..m] == actions[..m];
      } else {
        assert actions[..m] == actions;
      }
    }
  }

  lemma ChainAt(spec: Spec, actions: seq<Action>, lag: nat -> nat)
    requires ValidActions(actions) && IsLag(lag) && actions != []
    requires var s, n := State(spec, NEW_STATUS, []), |actions| - 1;
             ChainLeads(s, actions[..n], lag) && ChainLeads(s, actions[..lag(n)], lag)
    ensures var s, n := State(spec, NEW_STATUS, []), |actions| - 1;
            ChainLeads(s, actions, lag) <==> !BreaksChainAt(s, actions, lag, n)
  {
    hide CachedStep, Evaluate, PhaseChanges, Chained;
    var s, n := State(spec, NEW_STATUS, []), |actions| - 1;
    var live, read := CachedRun(s, actions[..n], lag), CachedRun(s, actions[..lag(n)], lag);
    assert actions[..n][..lag(n)] == actions[..lag(n)];
    ChangesGrow(s, actions[..n], lag, lag(n));
    if actions[n].ReconcileAction? {
      var input := actions[n].input;
      RunOn(s, actions, lag);
      AddedToLog(live, read, input);
      EvaluatedPhase(read.spec, input);
      hide CachedRun;
      var to := Evaluate(read.spec, input).phase;
      ChainOn(PhaseChanges(live.log), live.status.phase, read.status.phase, to, input.patchOk);
    } else {
      EditAddsNothing(s, actions, lag);
    }
  }

  ghost predicate AlwaysChained(s: State, actions: seq<Action>, lag: nat -> nat)
    requires ValidActions(actions) && IsLag(lag)
  {
    forall n :: 0 <= n <= |actions| ==> ChainLeads(s, actions[..n], lag)
  }

  /** One more moment of the run. */
  lemma ChainUntil(spec: Spec, actions: seq<Action>, lag: nat -> nat, n: nat)
    requires ValidActions(actions) && IsLag(lag) && n < |actions|
    requires forall m :: 0 <= m <= n ==> ChainLeads(State(spec, NEW_STATUS, []), actions[..m], lag)
    ensures var s := State(spec, NEW_STATUS, []);
            ChainLeads(s, actions[..n + 1], lag) <==> !BreaksChainAt(s, actions, lag, n)
  {
    hide CachedRun, ChainLeads, BreaksChain;
    var upTo := actions[..n + 1];
    assert upTo[..n] == actions[..n] && upTo[..lag(n)] == actions[..lag(n)] && upTo[n] == actions[n];
    ChainAt(spec, upTo, lag);
  }

  lemma {:induction false} ChainedUpTo(spec: Spec, actions: seq<Action>, lag: nat -> nat, n: nat)
    requires ValidActions(actions) && IsLag(lag) && n <= |actions|
    requires forall i :: !BreaksChainAt(State(spec, NEW_STATUS, []), actions, lag, i)
    ensures forall m :: 0 <= m <= n ==> ChainLeads(State(spec, NEW_STATUS, []), actions[..m], lag)
  {
    var s := State(spec, NEW_STATUS, []);
    if n == 0 {
      assert actions[..0] == [];
      EmptyHistory(s);
    } else {
      hide ChainLeads, BreaksChainAt;
      ChainedUpTo(spec, actions, lag, n - 1);
      ChainUntil(spec, actions, lag, n - 1);
    }
  }

  /**
   At every moment of a run of a new quota the phase events chain and lead to the
   persisted phase, if and only if no reconcile breaks the chain.
   */
  lemma EventsChainIff(spec: Spec, actions: seq<Action>, lag: nat -> nat)
    requires ValidActions(actions) && IsLag(lag)
    ensures var s := State(spec, NEW_STATUS, []);
            AlwaysChained(s, actions, lag) <==> forall i :: !BreaksChainAt(s, actions, lag, i)
  {
    hide CachedRun, ChainLeads, BreaksChain;
    var s := State(spec, NEW_STATUS, []);
    if forall i :: !BreaksChainAt(s, actions, lag, i) {
      ChainedUpTo(spec, actions, lag, |actions|);
    }
    if AlwaysChained(s, actions, lag) {
      forall i ensures !BreaksChainAt(s, actions, lag, i) {
        if 0 <= i < |actions| {
          ChainUntil(spec, actions, lag, i);
        }
      }
    }
  }

  /** On reads that are up to date a reconcile misreports exactly when a reported change is refused. */
  lemma FreshMisreports(s: State, input: Input)
    requires input.now.Valid()
    ensures var to := Evaluate(s.spec, input).phase;
            && (Misreports(s, s, input) <==> !input.patchOk && IsReported(s.status.phase, to))
            && (Misaudits(s, s, input) <==> !input.patchOk && IsAudited(s.spec.mode, s.status.phase, to))
  {
    hide Evaluate;
  }

  /**
   Two reconciles without Prometheus, all patches accepted: when the second one
   still reads the new quota, it warns of the same move again.
   */
  lemma StaleReadRepeatsWarning()
    ensures var a := ReconcileAction(Input(NEW_YEAR, false, NoSeries, NoSeries, true));
            var s := State(Spec(100, "10", None, Enforce), NEW_STATUS, []);
            && ValidActions([a, a]) && NoReportLost(s, [a, a])
            && CachedRun(s, [a, a], Stuck()).status.phase == Unknown
            && CachedRun(s, [a, a], Stuck()).log ==
               [PhaseEvent(NoPhase, Unknown, WarningEvent), PhaseEvent(NoPhase, Unknown, WarningEvent)]
  {
    hide ParseMonthlyCostLimit, FirstOfNextMonth;
    var s := State(Spec(100, "10", None, Enforce), NEW_STATUS, []);
    var a := ReconcileAction(Input(NEW_YEAR, false, NoSeries, NoSeries, true));
    assert Evaluate(s.spec, a.input).phase == Unknown;
    assert [a, a][..1] == [a] && [a][..0] == [] && [a, a][..0] == [];
    assert CachedRun(s, [a][..Stuck()(0)], Stuck()) == CachedRun(s, [], Stuck()) == s;
    var once := CachedRun(s, [a], Stuck());
    assert once == CachedStep(s, s, a);
    assert [a, a][..Stuck()(1)] == [];
    assert CachedRun(s, [a, a], Stuck()) == CachedStep(once, s, a);
  }
}
