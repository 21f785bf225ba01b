/** The phase of a quota and the remaining percentages, with their rounding. */
module Phase {
  import opened Options
  import opened Numerals

  datatype QuotaPhase = NoPhase | Active | Warning | Exceeded | Unknown

  datatype PhaseInputs = PhaseInputs(
    prometheusError: bool,
    tokensUsed: real,
    costUsed: real,
    dailyTokenLimit: int,
    monthlyLimit: real,
    alertThreshold: int)

  function EffectiveAlertThreshold(pct: Option<int>): int {
    if pct.None? || pct.value < 1 || pct.value > 100 then 80 else pct.value
  }

  function TokenExceeded(inp: PhaseInputs): bool {
    if inp.dailyTokenLimit < 0 then false
    else if inp.dailyTokenLimit == 0 then inp.tokensUsed > 0.0
    else inp.tokensUsed >= inp.dailyTokenLimit as real
  }

  function CostExceeded(inp: PhaseInputs): bool {
    inp.monthlyLimit > 0.0 && inp.costUsed >= inp.monthlyLimit
  }

  /** 100 * used / limit */
  function Utilization(used: real, limit: real): real
    requires limit > 0.0
  {
    100.0 * used / limit
  }

  function ComputePhase(inp: PhaseInputs): QuotaPhase {
    if inp.prometheusError then Unknown
    else if TokenExceeded(inp) || CostExceeded(inp) then Exceeded
    else
      var tokenUtil :=
        if inp.dailyTokenLimit > 0 then Utilization(inp.tokensUsed, inp.dailyTokenLimit as real) else 0.0;
      var costUtil := if inp.monthlyLimit > 0.0 then Utilization(inp.costUsed, inp.monthlyLimit) else 0.0;
      var th := if inp.alertThreshold < 1 || inp.alertThreshold > 100 then 80 else inp.alertThreshold;
      if tokenUtil >= th as real || costUtil >= th as real then Warning else Active
  }

  function Clamp(x: real): (y: real)
    ensures 0.0 <= y <= 100.0
  {
    if x < 0.0 then 0.0 else if x > 100.0 then 100.0 else x
  }

  function ClampRound(v: real): (n: int)
    ensures 0 <= n <= 100
  {
    var r := RoundHalfAway(v);
    if r < 0 then 0 else if r > 100 then 100 else r
  }

  /** Both remaining-percent functions: 0 without a positive limit. */
  function RemainingPct(used: real, limit: real): (n: int)
    ensures 0 <= n <= 100
  {
    if limit <= 0.0 then 0 else ClampRound(100.0 - Clamp(Utilization(used, limit)))
  }

  function TokenRemainingPct(tokensUsed: int, dailyLimit: int): int {
    RemainingPct(tokensUsed as real, dailyLimit as real)
  }

  // ---- utilization without division ----

  lemma UtilizationAgainst(used: real, limit: real, pct: real)
    requires limit > 0.0
    ensures Utilization(used, limit) < pct <==> 100.0 * used < pct * limit
    ensures Utilization(used, limit) <= pct <==> 100.0 * used <= pct * limit
  {
    var u := Utilization(used, limit);
    assert u * limit == 100.0 * used;
    MultiplyOrder(u, pct, limit);
  }

  lemma MultiplyOrder(a: real, b: real, c: real)
    requires c > 0.0
    ensures a < b <==> a * c < b * c
    ensures a <= b <==> a * c <= b * c
  {
    assert b * c - a * c == (b - a) * c;
  }

  // ---- remaining percent ----

  /** The percentage is within one half of what is left of 100 after the clamped utilization. */
  lemma RemainingIsClose(used: real, limit: real)
    requires used >= 0.0 && limit > 0.0
    ensures var left := 100.0 - (if Utilization(used, limit) > 100.0 then 100.0 else Utilization(used, limit));
            -0.5 <= RemainingPct(used, limit) as real - left <= 0.5
  {
    UtilizationAgainst(used, limit, 0.0);
    RoundHalfAwayIsNearest(100.0 - Clamp(Utilization(used, limit)));
    hide Utilization;
  }

  /** Nothing is left exactly when more than 99.5 percent are used. */
  lemma NothingLeft(used: real, limit: real)
    requires limit > 0.0
    ensures RemainingPct(used, limit) == 0 <==> 100.0 * used > 99.5 * limit
  {
    UtilizationAgainst(used, limit, 99.5);
    hide Utilization;
  }

  /** At least n percent are left exactly when at most 100 - n + 1/2 percent are used. */
  lemma LeftAtLeast(used: real, limit: real, n: int)
    requires limit > 0.0 && 1 <= n <= 100
    ensures RemainingPct(used, limit) >= n <==> 100.0 * used <= (100.5 - n as real) * limit
  {
    UtilizationAgainst(used, limit, 100.5 - n as real);
    hide Utilization;
  }

  // ---- phase against percent ----

  /** A quota is exceeded exactly when one of its limits is reached. */
  lemma ExceededIff(inp: PhaseInputs)
    requires !inp.prometheusError
    ensures ComputePhase(inp) == Exceeded <==>
            || (inp.dailyTokenLimit == 0 && inp.tokensUsed > 0.0)
            || (inp.dailyTokenLimit > 0 && inp.tokensUsed >= inp.dailyTokenLimit as real)
            || (inp.monthlyLimit > 0.0 && inp.costUsed >= inp.monthlyLimit)
  {
  }

  /** Otherwise it is Warning exactly when the threshold is reached on one of the counts, and Active below. */
  lemma WarningIff(inp: PhaseInputs)
    requires !inp.prometheusError && ComputePhase(inp) != Exceeded
    ensures var th := if 1 <= inp.alertThreshold <= 100 then inp.alertThreshold else 80;
            ComputePhase(inp) ==
            if || (inp.dailyTokenLimit > 0 && 100.0 * inp.tokensUsed >= th as real * inp.dailyTokenLimit as real)
               || (inp.monthlyLimit > 0.0 && 100.0 * inp.costUsed >= th as real * inp.monthlyLimit)
            then Warning else Active
  {
    var th := if 1 <= inp.alertThreshold <= 100 then inp.alertThreshold else 80;
    if inp.dailyTokenLimit > 0 {
      UtilizationAgainst(inp.tokensUsed, inp.dailyTokenLimit as real, th as real);
    }
    if inp.monthlyLimit > 0.0 {
      UtilizationAgainst(inp.costUsed, inp.monthlyLimit, th as real);
    }
    hide Utilization;
  }

  /** An active quota is below its threshold on both counts. */
  lemma ActiveIsBelow(inp: PhaseInputs)
    requires 1 <= inp.alertThreshold <= 100 && ComputePhase(inp) == Active
    ensures inp.dailyTokenLimit > 0 ==>
              100.0 * inp.tokensUsed < inp.alertThreshold as real * inp.dailyTokenLimit as real
    ensures inp.monthlyLimit > 0.0 ==> 100.0 * inp.costUsed < inp.alertThreshold as real * inp.monthlyLimit
  {
    if inp.dailyTokenLimit > 0 {
      UtilizationAgainst(inp.tokensUsed, inp.dailyTokenLimit as real, inp.alertThreshold as real);
    }
    if inp.monthlyLimit > 0.0 {
      UtilizationAgainst(inp.costUsed, inp.monthlyLimit, inp.alertThreshold as real);
    }
    hide Utilization;
  }

  lemma ExceededCostLeavesNothing(inp: PhaseInputs)
    requires CostExceeded(inp)
    ensures RemainingPct(inp.costUsed, inp.monthlyLimit) == 0
  {
    NothingLeft(inp.costUsed, inp.monthlyLimit);
    hide RemainingPct;
  }

  lemma ActiveCostLeft(inp: PhaseInputs)
    requires 1 <= inp.alertThreshold <= 100 && ComputePhase(inp) == Active && inp.monthlyLimit > 0.0
    ensures RemainingPct(inp.costUsed, inp.monthlyLimit) >= 100 - inp.alertThreshold
  {
    ActiveIsBelow(inp);
    var n := 100 - inp.alertThreshold;
    if n >= 1 {
      LeftAtLeast(inp.costUsed, inp.monthlyLimit, n);
      hide RemainingPct, ComputePhase;
      assert (100.5 - n as real) * inp.monthlyLimit ==
        inp.alertThreshold as real * inp.monthlyLimit + 0.5 * inp.monthlyLimit;
    }
  }

  // ---- the rounded token count ----

  /**
   The controller computes the phase from the exact token count but the
   remaining percentage from the rounded one. The two fit together when no
   count below the threshold shows less than 100 - threshold percent left.
   */
  ghost predicate TokensFit(dailyLimit: int, threshold: int) {
    forall t: real ::
      t >= 0.0 && 100.0 * t < threshold as real * dailyLimit as real ==>
        TokenRemainingPct(RoundHalfAway(t), dailyLimit) >= 100 - threshold
  }

  /** The smallest whole token count that shows less than 100 - threshold percent left. */
  function FirstLow(dailyLimit: int, threshold: int): int {
    dailyLimit * (2 * threshold + 1) / 200 + 1
  }

  /** It must not be reached by rounding up a count that is still below the threshold. */
  predicate BudgetIsFine(dailyLimit: int, threshold: int) {
    200 * FirstLow(dailyLimit, threshold) - 100 >= 2 * dailyLimit * threshold
  }

  lemma FirstLowIs(dailyLimit: int, threshold: int, k: int)
    requires dailyLimit > 0 && 1 <= threshold <= 100
    ensures k >= FirstLow(dailyLimit, threshold) <==> 200 * k > dailyLimit * (2 * threshold + 1)
  {
  }

  lemma LowIff(dailyLimit: int, threshold: int, k: int)
    requires dailyLimit > 0 && 1 <= threshold < 100
    ensures TokenRemainingPct(k, dailyLimit) < 100 - threshold <==> k >= FirstLow(dailyLimit, threshold)
  {
    LeftAtLeast(k as real, dailyLimit as real, 100 - threshold);
    FirstLowIs(dailyLimit, threshold, k);
    hide RemainingPct;
    var d, th := dailyLimit as real, threshold as real;
    assert (100.5 - (100 - threshold) as real) * d == (th + 0.5) * d;
    assert (dailyLimit * (2 * threshold + 1)) as real == d * (2.0 * th + 1.0) == 2.0 * ((th + 0.5) * d);
  }

  /** The token percentages fit the phase exactly for the budgets that pass the integer test. */
  lemma TokensFitIff(dailyLimit: int, threshold: int)
    requires dailyLimit > 0 && 1 <= threshold <= 100
    ensures TokensFit(dailyLimit, threshold) <==> BudgetIsFine(dailyLimit, threshold)
  {
    hide TokenRemainingPct, FirstLow;
    var k := FirstLow(dailyLimit, threshold);
    FirstLowIs(dailyLimit, threshold, k);
    if threshold == 100 {
      FullThresholdFits(dailyLimit);
    } else if BudgetIsFine(dailyLimit, threshold) {
      forall t: real | t >= 0.0 && 100.0 * t < threshold as real * dailyLimit as real
        ensures TokenRemainingPct(RoundHalfAway(t), dailyLimit) >= 100 - threshold
      {
        LowIff(dailyLimit, threshold, RoundHalfAway(t));
        CountBelowThreshold(t, dailyLimit, threshold, k);
      }
    } else {
      FirstLowPositive(dailyLimit, threshold);
      var t := k as real - 0.5;
      assert RoundHalfAway(t) == k;
      LowIff(dailyLimit, threshold, k);
      assert 100.0 * t < threshold as real * dailyLimit as real by {
        assert (dailyLimit * threshold) as real == threshold as real * dailyLimit as real;
      }
    }
  }

  lemma FirstLowPositive(dailyLimit: int, threshold: int)
    requires dailyLimit > 0 && 1 <= threshold <= 100
    ensures FirstLow(dailyLimit, threshold) >= 1
  {
    assert dailyLimit * (2 * threshold + 1) >= 0;
  }

  lemma CountBelowThreshold(t: real, dailyLimit: int, threshold: int, k: int)
    requires dailyLimit > 0 && t >= 0.0 && 100.0 * t < threshold as real * dailyLimit as real
    requires 200 * k - 100 >= 2 * dailyLimit * threshold
    ensures RoundHalfAway(t) < k
  {
    assert (dailyLimit * threshold) as real == threshold as real * dailyLimit as real;
    assert 100.0 * t < (100 * k - 50) as real;
  }

  lemma FullThresholdFits(dailyLimit: int)
    requires dailyLimit > 0
    ensures TokensFit(dailyLimit, 100) && BudgetIsFine(dailyLimit, 100)
  {
    hide Utilization;
    assert 200 * FirstLow(dailyLimit, 100) > dailyLimit * 201;
    assert FirstLow(dailyLimit, 100) > dailyLimit;
  }

  /** Budgets of at least 100 tokens pass the test at every threshold. */
  lemma LargeBudgetIsFine(dailyLimit: int, threshold: int)
    requires dailyLimit >= 100 && 1 <= threshold <= 100
    ensures BudgetIsFine(dailyLimit, threshold)
  {
    FirstLowIs(dailyLimit, threshold, FirstLow(dailyLimit, threshold));
    hide FirstLow;
    assert dailyLimit * (2 * threshold + 1) == 2 * dailyLimit * threshold + dailyLimit;
  }

  /** With such a budget an active quota shows at least 100 - threshold percent of its tokens left. */
  lemma ActiveTokensLeft(inp: PhaseInputs)
    requires 1 <= inp.alertThreshold <= 100 && inp.dailyTokenLimit > 0 && inp.tokensUsed >= 0.0
    requires BudgetIsFine(inp.dailyTokenLimit, inp.alertThreshold) || inp.dailyTokenLimit >= 100
    requires ComputePhase(inp) == Active
    ensures TokenRemainingPct(RoundHalfAway(inp.tokensUsed), inp.dailyTokenLimit) >= 100 - inp.alertThreshold
  {
    hide TokenRemainingPct, BudgetIsFine, RoundHalfAway;
    if inp.dailyTokenLimit >= 100 {
      LargeBudgetIsFine(inp.dailyTokenLimit, inp.alertThreshold);
    }
    TokensFitIff(inp.dailyTokenLimit, inp.alertThreshold);
    ActiveIsBelow(inp);
  }

  /** A budget of one token does not: half a token counts as the whole budget and yet the quota is active. */
  lemma SmallBudgetDoesNotFit()
    ensures !TokensFit(1, 80)
    ensures ComputePhase(PhaseInputs(false, 0.5, 0.0, 1, 0.0, 80)) == Active
    ensures TokenRemainingPct(RoundHalfAway(0.5), 1) == 0
  {
    TokensFitIff(1, 80);
    assert TokenRemainingPct(1, 1) == 0;
  }
}
