/** The admission webhook for GPU pods: a fold over the quotas of the namespace. */
module Webhook {
  import opened Options
  import opened Gpu
  import opened Phase
  import opened QuotaController
  import opened QuotaRuns

  datatype QuotaItem = QuotaItem(name: string, mode: Mode, phase: QuotaPhase)

  /** A denial names the quota by its place in the list. */
  datatype Answer = Allowed | Denied(quota: nat)

  predicate Blocks(q: QuotaItem) {
    q.phase == Exceeded && q.mode != Audit
  }

  /** Prometheus could not be reached for this quota: enforcement is suspended. */
  predicate Suspends(q: QuotaItem) {
    q.phase == Unknown
  }

  predicate OnlyAudited(q: QuotaItem) {
    q.phase == Exceeded && q.mode == Audit
  }

  /** The place of the first quota that ends the fold, or the length of the list. */
  function StopIndex(quotas: seq<QuotaItem>): (i: nat)
    ensures i <= |quotas|
    ensures i < |quotas| ==> Blocks(quotas[i]) || Suspends(quotas[i])
    ensures forall j :: 0 <= j < i ==> !Blocks(quotas[j]) && !Suspends(quotas[j])
  {
    if quotas == [] || Blocks(quotas[0]) || Suspends(quotas[0]) then 0 else 1 + StopIndex(quotas[1..])
  }

  function Decide(quotas: seq<QuotaItem>): Answer {
    var i := StopIndex(quotas);
    if i < |quotas| && Blocks(quotas[i]) then Denied(i) else Allowed
  }

  function AuditedNames(quotas: seq<QuotaItem>): seq<string> {
    if quotas == [] then []
    else
      var last := quotas[|quotas| - 1];
      AuditedNames(quotas[..|quotas| - 1]) + (if OnlyAudited(last) then [last.name] else [])
  }

  class Validator {
    /** The quotas for which an audit event was emitted, in order. */
    var events: seq<string>

    constructor ()
      ensures events == []
    {
      events := [];
    }

    /** None stands for a list call that failed; the pod is then let in. */
    method ValidateCreate(containers: seq<Container>, initContainers: seq<Container>, listed: Option<seq<QuotaItem>>)
      returns (answer: Answer)
      modifies this
      ensures if PodRequestsGPU(containers, initContainers) && listed.Some? then
                && answer == Decide(listed.value)
                && events == old(events) + AuditedNames(listed.value[..StopIndex(listed.value)])
              else answer == Allowed && events == old(events)
    {
      if !PodRequestsGPU(containers, initContainers) || listed.None? {
        return Allowed;
      }
      var quotas := listed.value;
      for i := 0 to |quotas|
        invariant i <= StopIndex(quotas)
        invariant events == old(events) + AuditedNames(quotas[..i])
      {
        var quota := quotas[i];
        assert quotas[..i + 1][..i] == quotas[..i];
        match quota.phase {
          case Unknown => return Allowed;
          case Active | Warning => continue;
          case Exceeded =>
            var mode := if quota.mode == NoMode then Enforce else quota.mode;
            if mode == Audit {
              events := events + [quota.name];
              continue;
            }
            return Denied(i);
          case NoPhase => continue;
        }
      }
      assert StopIndex(quotas) == |quotas|;
      answer := Allowed;
    }
  }

  /** A pod is denied exactly when a blocking quota has no unknown one before it in the list. */
  lemma DeniedIff(quotas: seq<QuotaItem>)
    ensures Decide(quotas).Denied? <==>
            exists i :: 0 <= i < |quotas| && Blocks(quotas[i]) && forall j :: 0 <= j < i ==> !Suspends(quotas[j])
  {
    var s := StopIndex(quotas);
    if i :| 0 <= i < |quotas| && Blocks(quotas[i]) && forall j :: 0 <= j < i ==> !Suspends(quotas[j]) {
      assert s <= i;
    }
  }

  /** Nothing before place i ends the walk: no quota is Unknown, and none is Exceeded in another mode than Audit. */
  predicate Reached(quotas: seq<QuotaItem>, i: int) {
    forall j :: 0 <= j < i && j < |quotas| ==>
      quotas[j].phase != Unknown && !(quotas[j].phase == Exceeded && quotas[j].mode != Audit)
  }

  lemma ReachedIff(quotas: seq<QuotaItem>, i: nat)
    requires i < |quotas|
    ensures Reached(quotas, i) <==> i <= StopIndex(quotas)
  {
    var s := StopIndex(quotas);
    if s < i {
      assert quotas[s].phase == Unknown || (quotas[s].phase == Exceeded && quotas[s].mode != Audit);
    }
    forall j | 0 <= j < i <= s
      ensures quotas[j].phase != Unknown && !(quotas[j].phase == Exceeded && quotas[j].mode != Audit)
    {
      assert !Blocks(quotas[j]) && !Suspends(quotas[j]);
    }
  }

  predicate IsAuditedAs(q: QuotaItem, name: string) {
    q.phase == Exceeded && q.mode == Audit && q.name == name
  }

  /** An audit event is emitted for exactly the Exceeded quotas in Audit mode that are reached. */
  lemma AuditedIff(quotas: seq<QuotaItem>, name: string)
    ensures name in AuditedNames(quotas[..StopIndex(quotas)]) <==>
            exists i :: 0 <= i < |quotas| && Reached(quotas, i) && IsAuditedAs(quotas[i], name)
  {
    var s := StopIndex(quotas);
    AuditedBefore(quotas, s, name);
    assert s < |quotas| ==> !IsAuditedAs(quotas[s], name);
    forall i | 0 <= i < |quotas| ensures Reached(quotas, i) <==> i <= s {
      ReachedIff(quotas, i);
    }
    hide Reached, IsAuditedAs, AuditedNames, StopIndex, Blocks, Suspends;
  }

  lemma {:induction false} AuditedBefore(quotas: seq<QuotaItem>, s: nat, name: string)
    requires s <= |quotas|
    ensures name in AuditedNames(quotas[..s]) <==> exists i :: 0 <= i < s && IsAuditedAs(quotas[i], name)
  {
    if s > 0 {
      AuditedBefore(quotas, s - 1, name);
      assert quotas[..s][..s - 1] == quotas[..s - 1] && quotas[..s][s - 1] == quotas[s - 1];
    }
  }

  /** One event for each of them, in the order of the list. */
  lemma {:induction false} AuditedInOrder(a: seq<QuotaItem>, b: seq<QuotaItem>)
    ensures AuditedNames(a + b) == AuditedNames(a) + AuditedNames(b)
  {
    if b == [] {
      assert a + b == a;
    } else {
      var n := |b| - 1;
      assert (a + b)[..|a + b| - 1] == a + b[..n] && (a + b)[|a + b| - 1] == b[n];
      AuditedInOrder(a, b[..n]);
    }
  }

  lemma SameMembers(a: seq<QuotaItem>, b: seq<QuotaItem>)
    requires multiset(a) == multiset(b)
    ensures forall q :: q in a <==> q in b
  {
    assert forall q :: q in a <==> q in multiset(a);
    assert forall q :: q in b <==> q in multiset(b);
  }

  /** Without an unknown quota the answer does not depend on the order of the list. */
  lemma OrderFreeWithoutUnknown(a: seq<QuotaItem>, b: seq<QuotaItem>)
    requires multiset(a) == multiset(b) && forall q :: q in a ==> !Suspends(q)
    ensures Decide(a).Denied? <==> Decide(b).Denied?
    ensures Decide(a).Denied? <==> exists q :: q in a && Blocks(q)
  {
    SameMembers(a, b);
    DeniedIff(a);
    DeniedIff(b);
    if q :| q in a && Blocks(q) {
      var i :| 0 <= i < |a| && a[i] == q;
      var j :| 0 <= j < |b| && b[j] == q;
    }
  }

  /** The list with one member moved to the front. */
  function ToFront(quotas: seq<QuotaItem>, i: nat): (r: seq<QuotaItem>)
    requires i < |quotas|
    ensures multiset(r) == multiset(quotas)
  {
    assert quotas == quotas[..i] + [quotas[i]] + quotas[i + 1..];
    [quotas[i]] + (quotas[..i] + quotas[i + 1..])
  }

  ghost predicate OrderMatters(quotas: seq<QuotaItem>) {
    exists a, b :: multiset(a) == multiset(quotas) && multiset(b) == multiset(quotas)
      && Decide(a).Denied? && Decide(b).Allowed?
  }

  /** The order of the list decides exactly when it holds both an unknown and a blocking quota. */
  lemma OrderMattersIff(quotas: seq<QuotaItem>)
    ensures OrderMatters(quotas) <==> (exists q :: q in quotas && Suspends(q)) && (exists q :: q in quotas && Blocks(q))
  {
    if OrderMatters(quotas) {
      var a, b :|
        multiset(a) == multiset(quotas) && multiset(b) == multiset(quotas) && Decide(a).Denied? && Decide(b).Allowed?;
      SameMembers(a, quotas);
      var blocking := a[Decide(a).quota];
      assert blocking in a && Blocks(blocking);
      if !exists q :: q in quotas && Suspends(q) {
        OrderFreeWithoutUnknown(a, b);
      }
    }
    if (exists q :: q in quotas && Suspends(q)) && (exists q :: q in quotas && Blocks(q)) {
      var i :| 0 <= i < |quotas| && Suspends(quotas[i]);
      var j :| 0 <= j < |quotas| && Blocks(quotas[j]);
      var a, b := ToFront(quotas, j), ToFront(quotas, i);
      assert Decide(a) == Denied(0) && Decide(b) == Allowed;
    }
  }

  // ---- together with the controller ----

  /** A quota: the spec it was created with, and the reconciles and edits since then. */
  datatype Tracked = Tracked(name: string, spec: Spec, actions: seq<Action>)

  ghost predicate ValidTracked(q: Tracked) {
    ValidActions(q.actions)
  }

  ghost function Now(q: Tracked): State
    requires ValidTracked(q)
  {
    Run(State(q.spec, NEW_STATUS, []), q.actions)
  }

  /** The quota as the webhook reads it: the persisted phase, and the mode of the spec as it is now. */
  ghost function ItemOf(q: Tracked): QuotaItem
    requires ValidTracked(q)
  {
    QuotaItem(q.name, Now(q).spec.mode, Now(q).status.phase)
  }

  /** The place of the last reconcile whose patch was accepted. */
  function LastAccepted(actions: seq<Action>): (i: Option<nat>)
    ensures i.Some? ==> i.value < |actions| && actions[i.value].ReconcileAction?
  {
    if actions == [] then None
    else
      var n := |actions| - 1;
      if actions[n].ReconcileAction? && actions[n].input.patchOk then Some(n) else LastAccepted(actions[..n])
  }

  /** The spec that the last accepted reconcile evaluated. */
  ghost function EvaluatedSpec(q: Tracked): Spec
    requires ValidTracked(q) && LastAccepted(q.actions).Some?
  {
    Run(State(q.spec, NEW_STATUS, []), q.actions[..LastAccepted(q.actions).value]).spec
  }

  function EvaluatedInput(q: Tracked): Input
    requires LastAccepted(q.actions).Some?
  {
    q.actions[LastAccepted(q.actions).value].input
  }

  /** The persisted status is what the last accepted reconcile computed, whatever was refused or edited since. */
  lemma {:induction false} PersistedIsLastAccepted(q: Tracked)
    requires ValidTracked(q)
    ensures if LastAccepted(q.actions).None? then Now(q).status == NEW_STATUS
            else Now(q).status == Evaluate(EvaluatedSpec(q), EvaluatedInput(q))
    decreases |q.actions|
  {
    hide Evaluate, EventsOf;
    if q.actions != [] {
      var n := |q.actions| - 1;
      var before := q.(actions := q.actions[..n]);
      PersistedIsLastAccepted(before);
      if LastAccepted(before.actions).Some? {
        var i := LastAccepted(before.actions).value;
        assert before.actions[..i] == q.actions[..i];
      }
    }
  }

  /** One of the limits was reached. */
  predicate AtLimit(spec: Spec, input: Input) {
    var tokens, cost := ValueOrZero(input.tokens), ValueOrZero(input.cost);
    || (spec.dailyTokenBudget == 0 && tokens > 0.0)
    || (spec.dailyTokenBudget > 0 && tokens >= spec.dailyTokenBudget as real)
    || (LimitOf(spec) > 0.0 && cost >= LimitOf(spec))
  }

  /** Not in Audit mode now, and at or over a limit when it was last evaluated and the result was persisted. */
  ghost predicate OverLimit(q: Tracked)
    requires ValidTracked(q)
  {
    && Now(q).spec.mode != Audit && LastAccepted(q.actions).Some?
    && Healthy(EvaluatedSpec(q), EvaluatedInput(q)) && AtLimit(EvaluatedSpec(q), EvaluatedInput(q))
  }

  /** That evaluation did not get its answers. */
  ghost predicate Unreached(q: Tracked)
    requires ValidTracked(q)
  {
    LastAccepted(q.actions).Some? && !Healthy(EvaluatedSpec(q), EvaluatedInput(q))
  }

  lemma ExceededIffAtLimit(spec: Spec, input: Input)
    requires input.now.Valid()
    ensures Evaluate(spec, input).phase == Exceeded <==> Healthy(spec, input) && AtLimit(spec, input)
    ensures Evaluate(spec, input).phase == Unknown <==> !Healthy(spec, input)
  {
    hide ParseMonthlyCostLimit, FormatUSD, RemainingPct, TokenRemainingPct;
    EvaluateOk(spec, input);
    ExceededIff(PhaseInputsOf(spec, LimitOf(spec), ValueOrZero(input.tokens), ValueOrZero(input.cost)));
    hide ComputePhase;
  }

  lemma BlocksIffOverLimit(q: Tracked)
    requires ValidTracked(q)
    ensures Blocks(ItemOf(q)) <==> OverLimit(q)
    ensures Suspends(ItemOf(q)) <==> Unreached(q)
  {
    hide Evaluate, Healthy, AtLimit, Run;
    PersistedIsLastAccepted(q);
    if LastAccepted(q.actions).Some? {
      ExceededIffAtLimit(EvaluatedSpec(q), EvaluatedInput(q));
    }
  }

  /**
   End to end, over any histories of reconciles, refused patches and edits: a GPU
   pod is denied exactly when a quota that is not in Audit mode was at or over a
   limit at its last persisted evaluation, and no quota before it in the list was
   without answers at its own.
   */
  lemma DeniedIffOverLimit(quotas: seq<Tracked>)
    requires forall i :: 0 <= i < |quotas| ==> ValidTracked(quotas[i])
    ensures Decide(seq(|quotas|, i requires 0 <= i < |quotas| => ItemOf(quotas[i]))).Denied? <==>
            exists i :: 0 <= i < |quotas| && OverLimit(quotas[i]) && forall j :: 0 <= j < i ==> !Unreached(quotas[j])
  {
    hide ValidTracked, ItemOf, OverLimit, Unreached, Blocks, Suspends;
    var items := seq(|quotas|, i requires 0 <= i < |quotas| => ItemOf(quotas[i]));
    forall i | 0 <= i < |quotas|
      ensures (Suspends(items[i]) <==> Unreached(quotas[i])) && (Blocks(items[i]) <==> OverLimit(quotas[i]))
    {
      BlocksIffOverLimit(quotas[i]);
    }
    DeniedIff(items);
  }
}
