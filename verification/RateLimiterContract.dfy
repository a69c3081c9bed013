/** The rate limiter as it runs, proved equal to its specification in RateLimiter. */
module RateLimiterContract {
  import opened RateLimiter

  class Contract {
    var defaults: Limits
    var custom: map<Address, Limits>
    var usage: map<Address, Usage>
    var risk: map<Address, Risk>
    var whitelist: set<Address>
    var globalLimits: GlobalLimits
    var globalUsage: GlobalUsage
    var tripped: bool
    var emergency: bool
    var cooldown: nat

    ghost function St(): State
      reads this
    {
      State(defaults, custom, usage, risk, whitelist, globalLimits, globalUsage, tripped, emergency, cooldown)
    }

    constructor (now: nat)
      ensures St() == Init(now)
    {
      defaults, custom, usage, risk, whitelist := DEFAULT_LIMITS, map[], map[], map[], {};
      globalLimits := GlobalLimits(DEFAULT_LIMITS.dailyValue * 10, DEFAULT_LIMITS.weeklyValue * 10);
      globalUsage := GlobalUsage(Window(0, 0, now), Window(0, 0, now));
      tripped, emergency, cooldown := false, false, DEFAULT_COOLDOWN_SECS;
    }

    /** Base limits, then whitelist, risk factor, tenure bonus and the minimum, one after the other. */
    method ComputeEffectiveLimits(u: Address, now: nat) returns (l: Limits)
      ensures l == Effective(St(), u, now)
    {
      l := defaults;
      if u in custom { l := custom[u]; }
      if u in whitelist {
        l := Limits(l.dailyValue * WHITELIST_MULTIPLIER, l.weeklyValue * WHITELIST_MULTIPLIER,
                    l.monthlyValue * WHITELIST_MULTIPLIER, l.dailyCount * WHITELIST_MULTIPLIER,
                    l.weeklyCount * WHITELIST_MULTIPLIER, l.monthlyCount * WHITELIST_MULTIPLIER);
      }
      var factor := if u in risk then risk[u].factorBps else BPS_DENOM;
      l := l.(dailyValue := l.dailyValue * factor / BPS_DENOM, weeklyValue := l.weeklyValue * factor / BPS_DENOM,
              monthlyValue := l.monthlyValue * factor / BPS_DENOM);
      var bonus := TenureBonus(u, now);
      l := l.(dailyValue := l.dailyValue * (BPS_DENOM + bonus) / BPS_DENOM,
              weeklyValue := l.weeklyValue * (BPS_DENOM + bonus) / BPS_DENOM,
              monthlyValue := l.monthlyValue * (BPS_DENOM + bonus) / BPS_DENOM);
      if l.dailyValue < 1 { l := l.(dailyValue := 1); }
      if l.weeklyValue < 1 { l := l.(weeklyValue := 1); }
      if l.monthlyValue < 1 { l := l.(monthlyValue := 1); }
    }

    method TenureBonus(u: Address, now: nat) returns (bonus: nat)
      ensures bonus == TenureBonusBps(St(), u, now) <= MAX_GRADUATED_BONUS_BPS
    {
      bonus := 0;
      if u in usage {
        var tenure := if now < usage[u].firstActivity then 0 else now - usage[u].firstActivity;
        if tenure >= GRADUATED_TENURE_SECS {
          bonus := tenure / GRADUATED_TENURE_SECS * GRADUATED_BONUS_BPS;
          if bonus > MAX_GRADUATED_BONUS_BPS { bonus := MAX_GRADUATED_BONUS_BPS; }
        }
      }
    }

    method GetOrInitUsage(u: Address, now: nat) returns (g: Usage)
      ensures g == UsageAt(St(), u, now)
    {
      g := Usage(Window(0, 0, now), Window(0, 0, now), Window(0, 0, now), 0, 0, 0, now);
      if u in usage { g := usage[u]; }
    }

    /** Stores the decayed windows with a cooldown and counts the breach. */
    method HandleBreach(u: Address, used: Usage, now: nat)
      modifies this`usage, this`risk
      ensures St() == Breached(old(St()), u, used, now)
    {
      usage := usage[u := used.(cooldownUntil := now + cooldown)];
      var profile := Risk(0, 0, 0, BPS_DENOM);
      if u in risk { profile := risk[u]; }
      profile := profile.(breachCount := profile.breachCount + 1);
      profile := profile.(lastUpdated := now);
      risk := risk[u := profile];
    }

    method ConsumeLimit(u: Address, amount: int, now: nat) returns (r: ConsumeResult)
      modifies this
      ensures (St(), r) == Consume(old(St()), u, amount, now)
    {
      hide Effective;
      if emergency { return Failed(EmergencyModeActive); }
      if tripped { return Failed(CircuitBreakerTripped); }
      if amount <= 0 { return Failed(InvalidLimit); }
      var limits := ComputeEffectiveLimits(u, now);
      var used := GetOrInitUsage(u, now);
      if used.cooldownUntil > now { return Failed(CooldownActive); }
      used := used.(daily := Decayed(used.daily, now, DAY_SECS));
      used := used.(weekly := Decayed(used.weekly, now, WEEK_SECS));
      used := used.(monthly := Decayed(used.monthly, now, MONTH_SECS));
      var breach := FirstBreach(used, limits, amount);
      if breach.Some? {
        HandleBreach(u, used, now);
        return Rejected(breach.code);
      }
      r := ConsumeGlobal(u, used, amount, now);
    }

    /** The six user checks in order. */
    method FirstBreach(used: Usage, limits: Limits, amount: int) returns (b: Breach)
      ensures b == UserBreach(used, limits, amount)
    {
      b := None;
      if used.daily.valueUsed + amount > limits.dailyValue { return Some(DailyValueLimitExceeded); }
      if used.weekly.valueUsed + amount > limits.weeklyValue { return Some(WeeklyValueLimitExceeded); }
      if used.monthly.valueUsed + amount > limits.monthlyValue { return Some(MonthlyValueLimitExceeded); }
      if used.daily.countUsed + 1 > limits.dailyCount { return Some(DailyCountLimitExceeded); }
      if used.weekly.countUsed + 1 > limits.weeklyCount { return Some(WeeklyCountLimitExceeded); }
      if used.monthly.countUsed + 1 > limits.monthlyCount { return Some(MonthlyCountLimitExceeded); }
    }

    /** The global checks, and the recording of an allowed transfer on all five windows. */
    method ConsumeGlobal(u: Address, start: Usage, amount: int, now: nat) returns (r: ConsumeResult)
      modifies this`usage, this`globalUsage
      ensures var global := DecayedGlobal(old(globalUsage), now);
        match GlobalBreach(global, globalLimits, amount)
        case Some(code) => St() == old(St()) && r == Rejected(code)
        case None => St() == Recorded(old(St()), u, start, global, amount) && r == Allowed
    {
      var used, global := start, globalUsage;
      global := global.(daily := Decayed(global.daily, now, DAY_SECS));
      global := global.(weekly := Decayed(global.weekly, now, WEEK_SECS));
      if global.daily.valueUsed + amount > globalLimits.dailyValue { return Rejected(GlobalDailyLimitExceeded); }
      if global.weekly.valueUsed + amount > globalLimits.weeklyValue { return Rejected(GlobalWeeklyLimitExceeded); }
      used := used.(daily := Charged(used.daily, amount));
      used := used.(weekly := Charged(used.weekly, amount));
      used := used.(monthly := Charged(used.monthly, amount));
      used := used.(lifetimeValue := used.lifetimeValue + amount, lifetimeCount := used.lifetimeCount + 1);
      usage := usage[u := used];
      global := global.(daily := Charged(global.daily, amount));
      global := global.(weekly := Charged(global.weekly, amount));
      globalUsage := global;
      r := Allowed;
    }

    method UpdateRiskScore(u: Address, score: nat, now: nat)
      modifies this`risk
      ensures St() == Step(old(St()), Op.UpdateRiskScore(u, score, now))
    {
      if score > BPS_DENOM { return; }
      var breaches := if u in risk then risk[u].breachCount else 0;
      risk := risk[u := Risk(score, breaches, now, AdjustmentFactor(score))];
    }

    method EmergencyReduceLimits(bps: nat, now: nat)
      modifies this`defaults
      ensures St() == Step(old(St()), Op.EmergencyReduceLimits(bps, now))
    {
      if bps == 0 || bps > BPS_DENOM { return; }
      var factor := BPS_DENOM - bps;
      var l := defaults;
      l := l.(dailyValue := l.dailyValue * factor / BPS_DENOM, weeklyValue := l.weeklyValue * factor / BPS_DENOM,
              monthlyValue := l.monthlyValue * factor / BPS_DENOM);
      if l.dailyValue < 1 { l := l.(dailyValue := 1); }
      if l.weeklyValue < 1 { l := l.(weeklyValue := 1); }
      if l.monthlyValue < 1 { l := l.(monthlyValue := 1); }
      defaults := l;
    }

    method ClearCooldown(u: Address, now: nat)
      modifies this`usage
      ensures St() == Step(old(St()), Op.ClearCooldown(u, now))
    {
      var used := GetOrInitUsage(u, now);
      used := used.(cooldownUntil := 0);
      usage := usage[u := used];
    }

    /** The remaining administrative calls, each of which checks its arguments and replaces one setting. */
    method Administer(op: Op)
      requires op.UpdateUserLimit? || op.UpdateGlobalLimit? || op.UpdateDefaultLimits? || op.SetWhitelisted?
            || op.UpdateAnomalyScore? || op.ResetCircuitBreaker? || op.SetEmergencyMode? || op.SetCooldownDuration?
      modifies this
      ensures St() == Step(old(St()), op)
    {
      match op {
        case UpdateUserLimit(u, l, _) =>
          if l.dailyValue <= 0 || l.weeklyValue <= 0 || l.monthlyValue <= 0 { return; }
          if l.dailyValue > l.weeklyValue || l.weeklyValue > l.monthlyValue { return; }
          custom := custom[u := l];
        case UpdateGlobalLimit(g, _) => if g.dailyValue > 0 && g.weeklyValue > 0 { globalLimits := g; }
        case UpdateDefaultLimits(l, _) =>
          if l.dailyValue > 0 && l.weeklyValue > 0 && l.monthlyValue > 0 { defaults := l; }
        case SetWhitelisted(u, listed, _) =>
          if listed { whitelist := whitelist + {u}; } else { whitelist := whitelist - {u}; }
        case UpdateAnomalyScore(score, _) => if CIRCUIT_BREAKER_THRESHOLD <= score <= BPS_DENOM { tripped := true; }
        case ResetCircuitBreaker(_) => tripped := false;
        case SetEmergencyMode(enabled, _) => emergency := enabled;
        case SetCooldownDuration(secs, _) => cooldown := secs;
      }
    }
  }
}
