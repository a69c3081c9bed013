/** The limiter's smaller promises: the bound is reached, checking against consuming, cooldowns, effective limits. */
module RateLimiterChecks {
  import opened Quotients
  import opened RateLimiter
  import opened RateLimiterBounds

  // ---- The bound is reached ---------------------------------------------------------------------------------------

  const EVE: Address := 7
  const DAILY := DEFAULT_LIMITS.dailyValue

  /** Open a day's window, spend the whole limit in its last second, and again one second later. */
  const BURST: seq<Op> := [
    ClearCooldown(EVE, 0), ConsumeLimit(EVE, DAILY, DAY_SECS - 1), ConsumeLimit(EVE, DAILY, DAY_SECS)]

  lemma BurstSteps()
    ensures Run(Init(0), BURST[..0]) == Init(0)
    ensures Run(Init(0), BURST[..1]) == Step(Init(0), BURST[0])
    ensures Run(Init(0), BURST[..2]) == Step(Step(Init(0), BURST[0]), BURST[1])
  {
    assert BURST[..1][..0] == BURST[..0] == [];
    assert BURST[..2][..1] == BURST[..1];
  }

  /** The daily limit is not a bound on a day: twice the limit passes within two seconds, with the limit in force
      unchanged throughout. */
  lemma TwiceTheLimitReached()
    ensures var m := User(EVE, Daily, Value);
      && Timely(BURST, 0)
      && LimitsAtMost(Init(0), BURST, m, DAY_SECS - 1, DAY_SECS - 1 + Length(m), DAILY)
      && SpentIn(Init(0), BURST, m, DAY_SECS - 1, DAY_SECS + 1) == 2 * DAILY
  {
    var m := User(EVE, Daily, Value);
    var s0, s1 := Init(0), Step(Init(0), BURST[0]);
    var s2 := Step(s1, BURST[1]);
    BurstSteps();
    assert UsageAt(s1, EVE, DAY_SECS - 1) == Usage(Window(0, 0, 0), Window(0, 0, 0), Window(0, 0, 0), 0, 0, 0, 0);
    assert Effective(s1, EVE, DAY_SECS - 1) == DEFAULT_LIMITS;
    assert Consume(s1, EVE, DAILY, DAY_SECS - 1).1 == Allowed;
    assert UsageAt(s2, EVE, DAY_SECS).daily == Window(DAILY, 1, 0);
    assert Effective(s2, EVE, DAY_SECS) == DEFAULT_LIMITS;
    assert Consume(s2, EVE, DAILY, DAY_SECS).1 == Allowed;
    assert BURST[..2][..1] == BURST[..1] && BURST[..1][..0] == [];
    assert BURST[..3] == BURST;
    assert SpentIn(s0, BURST[..1], m, DAY_SECS - 1, DAY_SECS + 1) == 0;
    assert SpentIn(s0, BURST[..2], m, DAY_SECS - 1, DAY_SECS + 1) == DAILY;
  }

  // ---- Checking against consuming ---------------------------------------------------------------------------------

  /** A consume is allowed exactly when the check reports so, the amount is positive, and the limits the check skips
      (weekly and monthly counts, global values) hold too. */
  lemma ConsumeIsCheckAndMore(st: State, u: Address, amount: int, now: nat)
    ensures var check := Check(st, u, amount, now);
      var used := DecayedUsage(UsageAt(st, u, now), now);
      var limits := Effective(st, u, now);
      Consume(st, u, amount, now).1.Allowed? <==>
        && check.Report? && check.result.allowed
        && amount > 0
        && used.weekly.countUsed < limits.weeklyCount && used.monthly.countUsed < limits.monthlyCount
        && GlobalBreach(DecayedGlobal(st.globalUsage, now), st.globalLimits, amount).None?
  {
    hide Effective;
  }

  /** A customised user with one transfer a week, after that transfer. */
  const TIGHT := Limits(10, 10, 10, 5, 1, 5)
  const ONE_A_WEEK: seq<Op> := [UpdateUserLimit(EVE, TIGHT, 0), ConsumeLimit(EVE, 1, 0)]

  /** The state it leaves: one unit and one transfer used on every window. */
  lemma OneAWeek()
    ensures var st := Run(Init(0), ONE_A_WEEK); var w := Window(1, 1, 0);
      && EVE in st.usage && st.usage[EVE] == Usage(w, w, w, 0, 1, 1, 0)
      && EVE in st.custom && st.custom[EVE] == TIGHT && EVE !in st.risk && EVE !in st.whitelist
      && !st.emergency && !st.tripped
  {
    var s1 := Step(Init(0), ONE_A_WEEK[0]);
    assert ONE_A_WEEK[..1][..0] == [] && ONE_A_WEEK[..1] == [ONE_A_WEEK[0]];
    assert Run(Init(0), ONE_A_WEEK[..1]) == s1;
    assert Effective(s1, EVE, 0) == TIGHT;
    assert Run(Init(0), ONE_A_WEEK) == Step(s1, ONE_A_WEEK[1]);
    hide Run;
  }

  /** A run after which the check allows a transfer that a consume at the same moment rejects. */
  lemma CheckPassesConsumeFails()
    ensures var st := Run(Init(0), ONE_A_WEEK);
      && Check(st, EVE, 1, 0).Report? && Check(st, EVE, 1, 0).result.allowed
      && Consume(st, EVE, 1, 0).1 == Rejected(WeeklyCountLimitExceeded)
  {
    OneAWeek();
    hide Run;
    var st := Run(Init(0), ONE_A_WEEK);
    assert Effective(st, EVE, 0) == TIGHT;
    assert DecayedUsage(UsageAt(st, EVE, 0), 0) == st.usage[EVE];
    hide Effective, DecayedUsage;
  }

  /** The error that names a user limit. */
  function LimitError(p: Period, k: Measure): Error {
    match (p, k)
    case (Daily, Value) => DailyValueLimitExceeded
    case (Weekly, Value) => WeeklyValueLimitExceeded
    case (Monthly, Value) => MonthlyValueLimitExceeded
    case (Daily, Count) => DailyCountLimitExceeded
    case (Weekly, Count) => WeeklyCountLimitExceeded
    case (Monthly, Count) => MonthlyCountLimitExceeded
  }

  /** Recording the amount would leave a user's counter above the limit in force. */
  ghost predicate WouldExceed(st: State, u: Address, p: Period, k: Measure, amount: int, now: nat) {
    var used := DecayedUsage(UsageAt(st, u, now), now);
    var after := Recorded(st, u, used, DecayedGlobal(st.globalUsage, now), amount);
    Used(PeriodWindow(after.usage[u], p), User(u, p, k)) > InForce(st, User(u, p, k), now)
  }

  /** Values come before counts, and the day before the week before the month. */
  function Order(p: Period, k: Measure): nat {
    (if k == Value then 0 else 3) + match p case Daily => 0 case Weekly => 1 case Monthly => 2
  }

  /** The user checks let an amount through exactly when recording it leaves all six counters within their limits, and
      otherwise name the first that it would not. */
  lemma BreachIffExceeded(st: State, u: Address, amount: int, now: nat)
    ensures var breach := UserBreach(DecayedUsage(UsageAt(st, u, now), now), Effective(st, u, now), amount);
      && (breach.None? <==> forall p: Period, k: Measure :: !WouldExceed(st, u, p, k, amount, now))
      && (breach.Some? ==> exists p: Period, k: Measure ::
            && breach.code == LimitError(p, k) && WouldExceed(st, u, p, k, amount, now)
            && forall d: Period, j: Measure :: WouldExceed(st, u, d, j, amount, now) ==> Order(p, k) <= Order(d, j))
  {
    hide Effective, WouldExceed;
    forall p: Period, k: Measure
      ensures WouldExceed(st, u, p, k, amount, now)
              <==> OverLimit(DecayedUsage(UsageAt(st, u, now), now), Effective(st, u, now), p, k, amount)
    {
      ExceedIsOver(st, u, p, k, amount, now);
    }
    BreachIffOver(DecayedUsage(UsageAt(st, u, now), now), Effective(st, u, now), amount);
    hide UserBreach, OverLimit;
  }

  predicate OverLimit(used: Usage, l: Limits, p: Period, k: Measure, amount: int) {
    var w := PeriodWindow(used, p);
    match (p, k)
    case (Daily, Value) => w.valueUsed + amount > l.dailyValue
    case (Weekly, Value) => w.valueUsed + amount > l.weeklyValue
    case (Monthly, Value) => w.valueUsed + amount > l.monthlyValue
    case (Daily, Count) => w.countUsed + 1 > l.dailyCount
    case (Weekly, Count) => w.countUsed + 1 > l.weeklyCount
    case (Monthly, Count) => w.countUsed + 1 > l.monthlyCount
  }

  lemma ExceedIsOver(st: State, u: Address, p: Period, k: Measure, amount: int, now: nat)
    ensures WouldExceed(st, u, p, k, amount, now)
            <==> OverLimit(DecayedUsage(UsageAt(st, u, now), now), Effective(st, u, now), p, k, amount)
  {
    hide Effective;
    match p { case Daily => case Weekly => case Monthly => }
  }

  lemma BreachIffOver(used: Usage, l: Limits, amount: int)
    ensures var breach := UserBreach(used, l, amount);
      && (breach.None? <==> forall p: Period, k: Measure :: !OverLimit(used, l, p, k, amount))
      && (breach.Some? ==> exists p: Period, k: Measure ::
            && breach.code == LimitError(p, k) && OverLimit(used, l, p, k, amount)
            && forall d: Period, j: Measure :: OverLimit(used, l, d, j, amount) ==> Order(p, k) <= Order(d, j))
  {
    var breach := UserBreach(used, l, amount);
    if breach.Some? {
      var p := if breach.code in {DailyValueLimitExceeded, DailyCountLimitExceeded} then Daily
               else if breach.code in {WeeklyValueLimitExceeded, WeeklyCountLimitExceeded} then Weekly else Monthly;
      var k := if breach.code in {DailyValueLimitExceeded, WeeklyValueLimitExceeded, MonthlyValueLimitExceeded}
               then Value else Count;
      assert breach.code == LimitError(p, k) && OverLimit(used, l, p, k, amount);
    }
  }

  // ---- Cooldowns --------------------------------------------------------------------------------------------------

  /** Nothing but an administrator's clearance ends a cooldown early. */
  lemma StepKeepsCooldown(st: State, op: Op, u: Address, until: nat)
    requires op != ClearCooldown(u, op.now) && u in st.usage && st.usage[u].cooldownUntil >= until
    ensures u in Step(st, op).usage && Step(st, op).usage[u].cooldownUntil >= until
    ensures op.ConsumeLimit? && op.u == u && op.now < until ==>
              Consume(st, u, op.amount, op.now).0 == st && Consume(st, u, op.amount, op.now).1.Failed?
  {
    hide Effective, AdjustmentFactor, Reduced;
  }

  /** After a breach at time t every further consume of that user fails, without effect, until t plus the cooldown
      then configured, whatever else happens in between short of a clearance. */
  lemma {:induction false} CooldownHolds(st: State, u: Address, amount: int, t: nat, ops: seq<Op>, next: Op)
    requires Consume(st, u, amount, t).1.Rejected?
    requires UserBreach(DecayedUsage(UsageAt(st, u, t), t), Effective(st, u, t), amount).Some?
    requires forall op :: op in ops ==> op != ClearCooldown(u, op.now)
    requires next.ConsumeLimit? && next.u == u && next.now < t + st.cooldown
    ensures var end := Run(Consume(st, u, amount, t).0, ops);
      && u in end.usage && end.usage[u].cooldownUntil >= t + st.cooldown
      && Consume(end, u, next.amount, next.now).0 == end && Consume(end, u, next.amount, next.now).1.Failed?
  {
    var after := Consume(st, u, amount, t).0;
    if ops == [] {
      StepKeepsCooldown(after, next, u, t + st.cooldown);
    } else {
      var init := ops[..|ops| - 1];
      assert forall op :: op in init ==> op in ops;
      CooldownHolds(st, u, amount, t, init, next);
      hide Consume;
      StepKeepsCooldown(Run(after, init), ops[|ops| - 1], u, t + st.cooldown);
      StepKeepsCooldown(Run(after, ops), next, u, t + st.cooldown);
    }
  }

  // ---- Effective limits -------------------------------------------------------------------------------------------

  /** More risk never raises the factor, which stays between one half and six fifths. */
  lemma FactorFalls(a: nat, b: nat)
    requires a <= b
    ensures 5_000 <= AdjustmentFactor(b) <= AdjustmentFactor(a) <= 12_000
  {
    if LOW_RISK_THRESHOLD < a && b < HIGH_RISK_THRESHOLD {
      FloorMonotone((a - LOW_RISK_THRESHOLD) * 7_000, (b - LOW_RISK_THRESHOLD) * 7_000, 5_000);
    }
  }

  lemma {:induction false} FactorsBounded(start: nat, ops: seq<Op>, u: Address)
    ensures RiskOf(Run(Init(start), ops), u).factorBps <= 12_000
  {
    if ops == [] {
    } else {
      FactorsBounded(start, ops[..|ops| - 1], u);
      FactorBounded(Run(Init(start), ops[..|ops| - 1]), ops[|ops| - 1], u);
      hide Step;
    }
  }

  lemma FactorBounded(st: State, op: Op, u: Address)
    requires RiskOf(st, u).factorBps <= 12_000
    ensures RiskOf(Step(st, op), u).factorBps <= 12_000
  {
    if op.UpdateRiskScore? { FactorFalls(op.score, op.score); }
    hide Effective, Reduced, AdjustmentFactor, DecayedUsage, DecayedGlobal, UserBreach, GlobalBreach, Recorded;
    if op.ConsumeLimit? { ConsumeKeepsFactor(st, op.u, op.amount, op.now, u); }
    hide Consume;
  }

  lemma ConsumeKeepsFactor(st: State, v: Address, amount: int, now: nat, u: Address)
    ensures RiskOf(Consume(st, v, amount, now).0, u).factorBps == RiskOf(st, u).factorBps
  {
    hide Effective, DecayedUsage, DecayedGlobal, UserBreach, GlobalBreach;
  }

  /** In every reachable state an adjusted limit is at least one and at most 3.6 times its base: twice for the
      whitelist, six fifths for low risk, three halves for tenure. */
  lemma AdjustedBounds(start: nat, ops: seq<Op>, u: Address, value: int, now: nat)
    requires value >= 1
    ensures 1 <= Adjusted(Run(Init(start), ops), u, value, now) <= value * 36 / 10
  {
    var st := Run(Init(start), ops);
    FactorsBounded(start, ops, u);
    hide Run;
    var listed := if u in st.whitelist then value * WHITELIST_MULTIPLIER else value;
    var factor := RiskOf(st, u).factorBps;
    var scored := listed * factor / BPS_DENOM;
    ProductMonotone(0, factor, listed);
    ProductMonotone(factor, 12_000, listed);
    FloorMonotone(0, listed * factor, BPS_DENOM);
    FloorMonotone(listed * factor, listed * 12_000, BPS_DENOM);
    var bonus := BPS_DENOM + TenureBonusBps(st, u, now);
    assert bonus <= 15_000;
    ProductMonotone(bonus, 15_000, scored);
    FloorMonotone(scored * bonus, scored * 15_000, BPS_DENOM);
  }
}
