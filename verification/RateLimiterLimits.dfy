/** What the limits in force are, said in plain arithmetic. */
module RateLimiterLimits {
  import opened Quotients
  import opened RateLimiter

  // ---- Effective limits -------------------------------------------------------------------------------------------

  /** v is the base, times m, times the factor, times one plus the bonus, rounded down at both divisions, but at least
      one. */
  ghost predicate IsValueLimit(v: int, base: int, m: int, factor: int, bonus: int) {
    exists q: int :: IsQuotient(q, base * m * factor, 10_000) && IsWithBonus(v, q, bonus)
  }

  /** v is q times one plus the bonus, rounded down, or one if that is less. */
  ghost predicate IsWithBonus(v: int, q: int, bonus: int) {
    v >= 1 && q * (10_000 + bonus) < (v + 1) * 10_000 && (v > 1 ==> v * 10_000 <= q * (10_000 + bonus))
  }

  /** Five hundred basis points for each whole thirty days since the first activity, at most five thousand. */
  ghost predicate IsTenureBonus(bonus: int, active: bool, first: nat, now: nat) {
    if !active || now < first then bonus == 0
    else exists k: int :: IsQuotient(k, now - first, 30 * 86_400)
                          && bonus == if 500 * k < 5_000 then 500 * k else 5_000
  }

  lemma TenureExact(st: State, u: Address, now: nat)
    ensures IsTenureBonus(TenureBonusBps(st, u, now), u in st.usage,
                          if u in st.usage then st.usage[u].firstActivity else 0, now)
  {
    var first := if u in st.usage then st.usage[u].firstActivity else 0;
    if u in st.usage && now >= first {
      var k := (now - first) / (30 * 86_400);
      QuotientIs(now - first, 30 * 86_400);
      hide IsQuotient;
      assert TenureBonusBps(st, u, now) == if 500 * k < 5_000 then 500 * k else 5_000;
    }
  }

  lemma ValueLimitExact(st: State, u: Address, base: int, now: nat)
    ensures IsValueLimit(Adjusted(st, u, base, now), base, if u in st.whitelist then 2 else 1,
                         if u in st.risk then st.risk[u].factorBps else 10_000, TenureBonusBps(st, u, now))
  {
    hide TenureBonusBps;
    var m, f := if u in st.whitelist then 2 else 1, if u in st.risk then st.risk[u].factorBps else 10_000;
    var c := TenureBonusBps(st, u, now);
    var q := base * m * f / 10_000;
    QuotientIs(base * m * f, 10_000);
    FloorBounds(q * (10_000 + c), 10_000);
    hide IsQuotient;
    assert Adjusted(st, u, base, now) == AtLeastOne(q * (10_000 + c) / 10_000);
  }

  /** The limits applied to a user: the custom ones if set, else the defaults, doubled for the whitelist; the three
      values adjusted by the stored risk factor and the tenure bonus, the three counts not. */
  lemma EffectiveExact(st: State, u: Address, now: nat) returns (bonus: int)
    ensures IsTenureBonus(bonus, u in st.usage, if u in st.usage then st.usage[u].firstActivity else 0, now)
    ensures var l := Effective(st, u, now);
      var b := if u in st.custom then st.custom[u] else st.defaults;
      var m := if u in st.whitelist then 2 else 1;
      var f := if u in st.risk then st.risk[u].factorBps else 10_000;
      && IsValueLimit(l.dailyValue, b.dailyValue, m, f, bonus)
      && IsValueLimit(l.weeklyValue, b.weeklyValue, m, f, bonus)
      && IsValueLimit(l.monthlyValue, b.monthlyValue, m, f, bonus)
      && l.dailyCount == m * b.dailyCount && l.weeklyCount == m * b.weeklyCount && l.monthlyCount == m * b.monthlyCount
  {
    var b := if u in st.custom then st.custom[u] else st.defaults;
    bonus := TenureBonusBps(st, u, now);
    TenureExact(st, u, now);
    ValueLimitExact(st, u, b.dailyValue, now);
    ValueLimitExact(st, u, b.weeklyValue, now);
    ValueLimitExact(st, u, b.monthlyValue, now);
    hide Adjusted, TenureBonusBps, IsValueLimit, IsTenureBonus;
  }

  /** The base, the factors and the bonus determine a value limit. */
  lemma ValueLimitUnique(v: int, w: int, base: int, m: int, factor: int, bonus: int)
    requires IsValueLimit(v, base, m, factor, bonus) && IsValueLimit(w, base, m, factor, bonus)
    ensures v == w
  {
    var q :| IsQuotient(q, base * m * factor, 10_000) && IsWithBonus(v, q, bonus);
    var r :| IsQuotient(r, base * m * factor, 10_000) && IsWithBonus(w, r, bonus);
    FloorUnique(base * m * factor, 10_000, q);
    FloorUnique(base * m * factor, 10_000, r);
  }

  // ---- Where the factor comes from --------------------------------------------------------------------------------

  /** The factor of a score: 12 000 up to 2 000, 5 000 from 7 000 on, and between them down the straight line. */
  ghost predicate IsFactor(factor: int, score: nat) {
    if score <= 2_000 then factor == 12_000
    else if score >= 7_000 then factor == 5_000
    else IsQuotient(12_000 - factor, (score - 2_000) * 7_000, 5_000)
  }

  /** An update stores the score with its factor and keeps the breaches; a score above 10 000 changes nothing. */
  lemma RiskUpdateExact(st: State, u: Address, score: nat, now: nat)
    ensures var st' := Step(st, UpdateRiskScore(u, score, now));
      if score > 10_000 then st' == st
      else
        && u in st'.risk && st' == st.(risk := st.risk[u := st'.risk[u]])
        && st'.risk[u].score == score && st'.risk[u].lastUpdated == now && IsFactor(st'.risk[u].factorBps, score)
        && st'.risk[u].breachCount == if u in st.risk then st.risk[u].breachCount else 0
  {
    if 2_000 < score < 7_000 { QuotientIs((score - 2_000) * 7_000, 5_000); }
  }

  lemma CallKeepsFactor(st: State, op: Op, u: Address)
    requires !(op.UpdateRiskScore? && op.u == u && op.score <= 10_000)
    ensures RiskOf(Step(st, op), u).factorBps == RiskOf(st, u).factorBps
  {
    hide Effective, DecayedUsage, DecayedGlobal, UserBreach, GlobalBreach, Reduced, AdjustmentFactor;
  }

  datatype Scored = Never | Last(score: nat)

  /** The last score accepted for a user in a run. */
  function LastScore(ops: seq<Op>, u: Address): Scored {
    if ops == [] then Never
    else
      var op := ops[|ops| - 1];
      if op.UpdateRiskScore? && op.u == u && op.score <= 10_000 then Last(op.score) else LastScore(ops[..|ops| - 1], u)
  }

  /** On every run a user's factor is that of the last score accepted, and none without one: breaches do not move it. */
  lemma {:induction false} FactorOfLastScore(start: nat, ops: seq<Op>, u: Address)
    ensures var f := RiskOf(Run(Init(start), ops), u).factorBps;
      match LastScore(ops, u) case Never => f == 10_000 case Last(score) => IsFactor(f, score)
  {
    if ops != [] {
      var init, op := ops[..|ops| - 1], ops[|ops| - 1];
      var st := Run(Init(start), init);
      FactorOfLastScore(start, init, u);
      hide IsFactor, Run;
      if op.UpdateRiskScore? && op.u == u && op.score <= 10_000 {
        RiskUpdateExact(st, u, op.score, op.now);
      } else {
        CallKeepsFactor(st, op, u);
      }
      hide Step;
    }
  }

  // ---- Breaches and reductions ------------------------------------------------------------------------------------

  /** Breaking a user limit starts the configured cooldown and counts one breach; breaking a global one changes
      nothing. */
  lemma RejectionExact(st: State, u: Address, amount: int, now: nat)
    requires Consume(st, u, amount, now).1.Rejected?
    ensures var st' := Consume(st, u, amount, now).0;
      if Consume(st, u, amount, now).1.code in {GlobalDailyLimitExceeded, GlobalWeeklyLimitExceeded} then st' == st
      else
        && u in st'.usage && u in st'.risk
        && st' == st.(usage := st.usage[u := st'.usage[u]], risk := st.risk[u := st'.risk[u]])
        && st'.usage[u].cooldownUntil == now + st.cooldown
        && st'.risk[u].breachCount == (if u in st.risk then st.risk[u].breachCount else 0) + 1
        && (u in st.usage ==> st'.usage[u].lifetimeValue == st.usage[u].lifetimeValue
                              && st'.usage[u].lifetimeCount == st.usage[u].lifetimeCount
                              && st'.usage[u].firstActivity == st.usage[u].firstActivity)
  {
    hide Effective;
  }

  /** An emergency cut takes the given share off each default value limit, rounded down, but leaves at least one. */
  lemma ReductionExact(st: State, bps: nat, now: nat)
    ensures var st' := Step(st, EmergencyReduceLimits(bps, now));
      if bps == 0 || bps > 10_000 then st' == st
      else
        && st' == st.(defaults := st.defaults.(dailyValue := st'.defaults.dailyValue,
             weeklyValue := st'.defaults.weeklyValue, monthlyValue := st'.defaults.monthlyValue))
        && IsValueLimit(st'.defaults.dailyValue, st.defaults.dailyValue, 1, 10_000 - bps, 0)
        && IsValueLimit(st'.defaults.weeklyValue, st.defaults.weeklyValue, 1, 10_000 - bps, 0)
        && IsValueLimit(st'.defaults.monthlyValue, st.defaults.monthlyValue, 1, 10_000 - bps, 0)
  {
    if 0 < bps <= 10_000 {
      CutIs(st.defaults.dailyValue, bps);
      CutIs(st.defaults.weeklyValue, bps);
      CutIs(st.defaults.monthlyValue, bps);
    }
    hide IsValueLimit, Reduced;
  }

  lemma CutIs(value: int, bps: nat)
    requires bps <= 10_000
    ensures IsValueLimit(Reduced(value, bps), value, 1, 10_000 - bps, 0)
  {
    var q := value * (10_000 - bps) / 10_000;
    assert value * 1 * (10_000 - bps) == value * (10_000 - bps);
    QuotientIs(value * (10_000 - bps), 10_000);
    assert IsWithBonus(Reduced(value, bps), q, 0);
    hide IsQuotient;
  }

  // ---- The whitelist at work --------------------------------------------------------------------------------------

  /** A listed user may send one and a half times the default daily limit at once. */
  lemma WhitelistAllowsMore(u: Address)
    ensures var st := Run(Init(0), [SetWhitelisted(u, true, 0)]);
      Consume(st, u, 1_500_000_000, 0).1.Allowed?
  {
    assert [SetWhitelisted(u, true, 0)][..0] == [];
    assert Run(Init(0), []) == Init(0);
  }

  // ---- What an allowed transfer records ---------------------------------------------------------------------------

  /** The window a transfer at this time works on: the old one, or an empty one from now if that has run its length. */
  ghost function WindowAt(w: Window, now: nat, secs: nat): Window {
    if now < w.start + secs then w else Window(0, 0, now)
  }

  ghost predicate ChargedOnce(after: Window, before: Window, now: nat, secs: nat, amount: int) {
    var w := WindowAt(before, now, secs);
    after == Window(w.valueUsed + amount, w.countUsed + 1, w.start)
  }

  /** An allowed transfer is charged on all five windows, each restarted first if it has run its length, and on the
      user's lifetime; a first one opens the user's windows now. Nothing else changes. */
  lemma AllowedExact(st: State, u: Address, amount: int, now: nat)
    requires Consume(st, u, amount, now).1.Allowed?
    ensures var st' := Consume(st, u, amount, now).0;
      var empty := Window(0, 0, now);
      var g := if u in st.usage then st.usage[u] else Usage(empty, empty, empty, 0, 0, 0, now);
      && amount > 0 && !st.emergency && !st.tripped && g.cooldownUntil <= now
      && u in st'.usage && st' == st.(usage := st.usage[u := st'.usage[u]], globalUsage := st'.globalUsage)
      && ChargedOnce(st'.globalUsage.daily, st.globalUsage.daily, now, 86_400, amount)
      && ChargedOnce(st'.globalUsage.weekly, st.globalUsage.weekly, now, 7 * 86_400, amount)
      && var h := st'.usage[u];
         && ChargedOnce(h.daily, g.daily, now, 86_400, amount)
         && ChargedOnce(h.weekly, g.weekly, now, 7 * 86_400, amount)
         && ChargedOnce(h.monthly, g.monthly, now, 30 * 86_400, amount)
         && h.lifetimeValue == g.lifetimeValue + amount && h.lifetimeCount == g.lifetimeCount + 1
         && h.firstActivity == g.firstActivity && h.cooldownUntil == g.cooldownUntil
  {
    hide Effective;
  }

  /** A breach stores the windows as that transfer found them. */
  lemma BreachStoresWindows(st: State, u: Address, amount: int, now: nat)
    requires Consume(st, u, amount, now).1.Rejected? && u in st.usage
    requires Consume(st, u, amount, now).1.code !in {GlobalDailyLimitExceeded, GlobalWeeklyLimitExceeded}
    ensures var g := st.usage[u]; var st' := Consume(st, u, amount, now).0;
      u in st'.usage
      && st'.usage[u].daily == WindowAt(g.daily, now, 86_400)
      && st'.usage[u].weekly == WindowAt(g.weekly, now, 7 * 86_400)
      && st'.usage[u].monthly == WindowAt(g.monthly, now, 30 * 86_400)
  {
    hide Effective;
  }

  // ---- Settings ---------------------------------------------------------------------------------------------------

  /** Custom limits are positive and ordered by period, the others positive; an anomaly score of eight tenths trips the
      breaker, which only a reset releases. */
  lemma SettingsExact(st: State, u: Address, l: Limits, g: GlobalLimits, score: nat, on: bool, secs: nat, now: nat)
    ensures Step(st, UpdateUserLimit(u, l, now))
            == if 0 < l.dailyValue <= l.weeklyValue <= l.monthlyValue then st.(custom := st.custom[u := l]) else st
    ensures Step(st, UpdateDefaultLimits(l, now))
            == if 0 < l.dailyValue && 0 < l.weeklyValue && 0 < l.monthlyValue then st.(defaults := l) else st
    ensures Step(st, UpdateGlobalLimit(g, now))
            == if 0 < g.dailyValue && 0 < g.weeklyValue then st.(globalLimits := g) else st
    ensures Step(st, SetWhitelisted(u, on, now))
            == st.(whitelist := if on then st.whitelist + {u} else st.whitelist - {u})
    ensures Step(st, UpdateAnomalyScore(score, now))
            == if 8_000 <= score <= 10_000 then st.(tripped := true) else st
    ensures Step(st, ResetCircuitBreaker(now)) == st.(tripped := false)
    ensures Step(st, SetEmergencyMode(on, now)) == st.(emergency := on)
    ensures Step(st, SetCooldownDuration(secs, now)) == st.(cooldown := secs)
  {}

  /** The check reports what is left of each value limit and of the daily count, by the windows as a transfer would find
      them, and allows what fits into all three values while a daily transfer is left. */
  lemma CheckExact(st: State, u: Address, amount: int, now: nat)
    ensures var empty := Window(0, 0, now);
      var g := if u in st.usage then st.usage[u] else Usage(empty, empty, empty, 0, 0, 0, now);
      var l := Effective(st, u, now);
      match Check(st, u, amount, now)
      case Refused(e) =>
        if st.emergency then e == EmergencyModeActive
        else if st.tripped then e == CircuitBreakerTripped
        else e == CooldownActive && g.cooldownUntil > now
      case Report(r) =>
        && !st.emergency && !st.tripped && g.cooldownUntil <= now
        && r.dailyRemainingValue == l.dailyValue - WindowAt(g.daily, now, 86_400).valueUsed
        && r.weeklyRemainingValue == l.weeklyValue - WindowAt(g.weekly, now, 7 * 86_400).valueUsed
        && r.monthlyRemainingValue == l.monthlyValue - WindowAt(g.monthly, now, 30 * 86_400).valueUsed
        && (var left := l.dailyCount - WindowAt(g.daily, now, 86_400).countUsed;
            r.dailyRemainingCount == if left > 0 then left else 0)
        && (r.allowed <==> amount <= r.dailyRemainingValue && amount <= r.weeklyRemainingValue
                           && amount <= r.monthlyRemainingValue && r.dailyRemainingCount > 0)
  {
    hide Effective;
  }

  /** A clearance ends a user's cooldown and keeps everything else, of a record or of one opened now. */
  lemma ClearanceExact(st: State, u: Address, now: nat)
    ensures var empty := Window(0, 0, now);
      var g := if u in st.usage then st.usage[u] else Usage(empty, empty, empty, 0, 0, 0, now);
      Step(st, ClearCooldown(u, now)) == st.(usage := st.usage[u := g.(cooldownUntil := 0)])
  {}

  /** The limits before anyone sets any. */
  lemma InitialLimits(now: nat)
    ensures Init(now).defaults == Limits(1_000_000_000, 5_000_000_000, 15_000_000_000, 100, 500, 1_500)
    ensures Init(now).globalLimits == GlobalLimits(10_000_000_000, 50_000_000_000) && Init(now).cooldown == 3_600
  {}
}
