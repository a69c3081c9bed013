/** The rate limiter's storage as a value, and what every entrypoint does to it at a given ledger time. */
module RateLimiter {

  type Address = nat

  const DAY_SECS := 86_400
  const WEEK_SECS := 604_800
  const MONTH_SECS := 2_592_000
  const BPS_DENOM := 10_000
  const DEFAULT_COOLDOWN_SECS := 3_600
  const CIRCUIT_BREAKER_THRESHOLD := 8_000
  const HIGH_RISK_THRESHOLD := 7_000
  const LOW_RISK_THRESHOLD := 2_000
  const WHITELIST_MULTIPLIER := 2
  const GRADUATED_TENURE_SECS := 30 * DAY_SECS
  const GRADUATED_BONUS_BPS := 500
  const MAX_GRADUATED_BONUS_BPS := 5_000

  datatype Limits = Limits(
    dailyValue: int, weeklyValue: int, monthlyValue: int, dailyCount: nat, weeklyCount: nat, monthlyCount: nat)

  datatype Window = Window(valueUsed: int, countUsed: nat, start: nat)

  datatype Usage = Usage(
    daily: Window, weekly: Window, monthly: Window,
    cooldownUntil: nat, lifetimeValue: int, lifetimeCount: nat, firstActivity: nat)

  datatype GlobalLimits = GlobalLimits(dailyValue: int, weeklyValue: int)
  datatype GlobalUsage = GlobalUsage(daily: Window, weekly: Window)
  datatype Risk = Risk(score: nat, breachCount: nat, lastUpdated: nat, factorBps: nat)

  datatype Error =
    | DailyValueLimitExceeded | WeeklyValueLimitExceeded | MonthlyValueLimitExceeded
    | DailyCountLimitExceeded | WeeklyCountLimitExceeded | MonthlyCountLimitExceeded
    | GlobalDailyLimitExceeded | GlobalWeeklyLimitExceeded
    | CooldownActive | CircuitBreakerTripped | InvalidLimit | InvalidRiskScore | EmergencyModeActive

  /** Rejections keep their side effects; failures roll back. */
  datatype ConsumeResult = Allowed | Rejected(code: Error) | Failed(error: Error)

  datatype State = State(
    defaults: Limits, custom: map<Address, Limits>, usage: map<Address, Usage>, risk: map<Address, Risk>,
    whitelist: set<Address>, globalLimits: GlobalLimits, globalUsage: GlobalUsage,
    tripped: bool, emergency: bool, cooldown: nat)

  const DEFAULT_LIMITS := Limits(1_000_000_000, 5_000_000_000, 15_000_000_000, 100, 500, 1_500)

  function Init(now: nat): State {
    State(DEFAULT_LIMITS, map[], map[], map[], {}, GlobalLimits(10_000_000_000, 50_000_000_000),
          GlobalUsage(Window(0, 0, now), Window(0, 0, now)), false, false, DEFAULT_COOLDOWN_SECS)
  }

  // ---- Windows ----------------------------------------------------------------------------------------------------

  /** A window that has run its length restarts, empty, at the time of the call that notices. */
  function Decayed(w: Window, now: nat, secs: nat): Window {
    if now >= w.start + secs then Window(0, 0, now) else w
  }

  function Charged(w: Window, amount: int): Window {
    Window(w.valueUsed + amount, w.countUsed + 1, w.start)
  }

  function UsageAt(st: State, u: Address, now: nat): Usage {
    if u in st.usage then st.usage[u]
    else Usage(Window(0, 0, now), Window(0, 0, now), Window(0, 0, now), 0, 0, 0, now)
  }

  function DecayedUsage(g: Usage, now: nat): Usage {
    g.(daily := Decayed(g.daily, now, DAY_SECS), weekly := Decayed(g.weekly, now, WEEK_SECS),
       monthly := Decayed(g.monthly, now, MONTH_SECS))
  }

  function DecayedGlobal(g: GlobalUsage, now: nat): GlobalUsage {
    GlobalUsage(Decayed(g.daily, now, DAY_SECS), Decayed(g.weekly, now, WEEK_SECS))
  }

  // ---- Effective limits -------------------------------------------------------------------------------------------

  function RiskOf(st: State, u: Address): Risk {
    if u in st.risk then st.risk[u] else Risk(0, 0, 0, BPS_DENOM)
  }

  function AdjustmentFactor(score: nat): nat {
    if score <= LOW_RISK_THRESHOLD then 12_000
    else if score >= HIGH_RISK_THRESHOLD then 5_000
    else
      var decrease := (score - LOW_RISK_THRESHOLD) * 7_000 / (HIGH_RISK_THRESHOLD - LOW_RISK_THRESHOLD);
      12_000 - decrease
  }

  function TenureBonusBps(st: State, u: Address, now: nat): nat {
    if u !in st.usage || now < st.usage[u].firstActivity then 0
    else
      var bonus := (now - st.usage[u].firstActivity) / GRADUATED_TENURE_SECS * GRADUATED_BONUS_BPS;
      if bonus < MAX_GRADUATED_BONUS_BPS then bonus else MAX_GRADUATED_BONUS_BPS
  }

  function AtLeastOne(x: int): int { if x < 1 then 1 else x }

  /** Whitelist doubling, then the risk factor, then the tenure bonus, each rounded down, and never below one. */
  function Adjusted(st: State, u: Address, value: int, now: nat): int {
    var listed := if u in st.whitelist then value * WHITELIST_MULTIPLIER else value;
    var scored := listed * RiskOf(st, u).factorBps / BPS_DENOM;
    AtLeastOne(scored * (BPS_DENOM + TenureBonusBps(st, u, now)) / BPS_DENOM)
  }

  function AdjustedCount(st: State, u: Address, count: nat): nat {
    if u in st.whitelist then count * WHITELIST_MULTIPLIER else count
  }

  function Effective(st: State, u: Address, now: nat): Limits {
    var base := if u in st.custom then st.custom[u] else st.defaults;
    Limits(Adjusted(st, u, base.dailyValue, now), Adjusted(st, u, base.weeklyValue, now),
           Adjusted(st, u, base.monthlyValue, now),
           AdjustedCount(st, u, base.dailyCount), AdjustedCount(st, u, base.weeklyCount),
           AdjustedCount(st, u, base.monthlyCount))
  }

  // ---- Checking and consuming -------------------------------------------------------------------------------------

  datatype CheckResult = CheckResult(
    allowed: bool, dailyRemainingValue: int, dailyRemainingCount: nat,
    weeklyRemainingValue: int, monthlyRemainingValue: int)
  datatype Checked = Report(result: CheckResult) | Refused(error: Error)

  function Check(st: State, u: Address, amount: int, now: nat): Checked {
    if st.emergency then Refused(EmergencyModeActive)
    else if st.tripped then Refused(CircuitBreakerTripped)
    else if UsageAt(st, u, now).cooldownUntil > now then Refused(CooldownActive)
    else
      var limits, used := Effective(st, u, now), DecayedUsage(UsageAt(st, u, now), now);
      var daily := limits.dailyValue - used.daily.valueUsed;
      var weekly := limits.weeklyValue - used.weekly.valueUsed;
      var monthly := limits.monthlyValue - used.monthly.valueUsed;
      var count := if used.daily.countUsed < limits.dailyCount then limits.dailyCount - used.daily.countUsed else 0;
      Report(CheckResult(amount <= daily && amount <= weekly && amount <= monthly && count > 0,
                         daily, count, weekly, monthly))
  }

  /** The first user limit an amount would break, in the order the contract looks. */
  datatype Breach = None | Some(code: Error)

  function UserBreach(used: Usage, limits: Limits, amount: int): Breach {
    if used.daily.valueUsed + amount > limits.dailyValue then Some(DailyValueLimitExceeded)
    else if used.weekly.valueUsed + amount > limits.weeklyValue then Some(WeeklyValueLimitExceeded)
    else if used.monthly.valueUsed + amount > limits.monthlyValue then Some(MonthlyValueLimitExceeded)
    else if used.daily.countUsed + 1 > limits.dailyCount then Some(DailyCountLimitExceeded)
    else if used.weekly.countUsed + 1 > limits.weeklyCount then Some(WeeklyCountLimitExceeded)
    else if used.monthly.countUsed + 1 > limits.monthlyCount then Some(MonthlyCountLimitExceeded)
    else None
  }

  function GlobalBreach(used: GlobalUsage, limits: GlobalLimits, amount: int): Breach {
    if used.daily.valueUsed + amount > limits.dailyValue then Some(GlobalDailyLimitExceeded)
    else if used.weekly.valueUsed + amount > limits.weeklyValue then Some(GlobalWeeklyLimitExceeded)
    else None
  }

  /** A breach stores the decayed windows, starts a cooldown and counts against the risk profile. */
  function Breached(st: State, u: Address, used: Usage, now: nat): State {
    var r := RiskOf(st, u);
    st.(usage := st.usage[u := used.(cooldownUntil := now + st.cooldown)],
        risk := st.risk[u := r.(breachCount := r.breachCount + 1, lastUpdated := now)])
  }

  function Recorded(st: State, u: Address, used: Usage, global: GlobalUsage, amount: int): State {
    st.(usage := st.usage[u := used.(
          daily := Charged(used.daily, amount), weekly := Charged(used.weekly, amount),
          monthly := Charged(used.monthly, amount),
          lifetimeValue := used.lifetimeValue + amount, lifetimeCount := used.lifetimeCount + 1)],
        globalUsage := GlobalUsage(Charged(global.daily, amount), Charged(global.weekly, amount)))
  }

  function Consume(st: State, u: Address, amount: int, now: nat): (State, ConsumeResult) {
    if st.emergency then (st, Failed(EmergencyModeActive))
    else if st.tripped then (st, Failed(CircuitBreakerTripped))
    else if amount <= 0 then (st, Failed(InvalidLimit))
    else if UsageAt(st, u, now).cooldownUntil > now then (st, Failed(CooldownActive))
    else
      var used := DecayedUsage(UsageAt(st, u, now), now);
      match UserBreach(used, Effective(st, u, now), amount)
      case Some(code) => (Breached(st, u, used, now), Rejected(code))
      case None =>
        var global := DecayedGlobal(st.globalUsage, now);
        match GlobalBreach(global, st.globalLimits, amount)
        case Some(code) => (st, Rejected(code))
        case None => (Recorded(st, u, used, global, amount), Allowed)
  }

  // ---- Administration ---------------------------------------------------------------------------------------------

  datatype Op =
    | ConsumeLimit(u: Address, amount: int, now: nat)
    | UpdateUserLimit(u: Address, limits: Limits, now: nat)
    | UpdateGlobalLimit(global: GlobalLimits, now: nat)
    | UpdateDefaultLimits(limits: Limits, now: nat)
    | SetWhitelisted(u: Address, listed: bool, now: nat)
    | UpdateRiskScore(u: Address, score: nat, now: nat)
    | UpdateAnomalyScore(score: nat, now: nat)
    | ResetCircuitBreaker(now: nat)
    | SetEmergencyMode(enabled: bool, now: nat)
    | EmergencyReduceLimits(bps: nat, now: nat)
    | SetCooldownDuration(secs: nat, now: nat)
    | ClearCooldown(u: Address, now: nat)

  function Reduced(value: int, bps: nat): int requires bps <= BPS_DENOM {
    AtLeastOne(value * (BPS_DENOM - bps) / BPS_DENOM)
  }

  function Step(st: State, op: Op): State {
    match op
    case ConsumeLimit(u, amount, now) => Consume(st, u, amount, now).0
    case UpdateUserLimit(u, l, _) =>
      if l.dailyValue <= 0 || l.weeklyValue <= 0 || l.monthlyValue <= 0
         || l.dailyValue > l.weeklyValue || l.weeklyValue > l.monthlyValue then st
      else st.(custom := st.custom[u := l])
    case UpdateGlobalLimit(g, _) => if g.dailyValue <= 0 || g.weeklyValue <= 0 then st else st.(globalLimits := g)
    case UpdateDefaultLimits(l, _) =>
      if l.dailyValue <= 0 || l.weeklyValue <= 0 || l.monthlyValue <= 0 then st else st.(defaults := l)
    case SetWhitelisted(u, listed, _) => st.(whitelist := if listed then st.whitelist + {u} else st.whitelist - {u})
    case UpdateRiskScore(u, score, now) =>
      if score > BPS_DENOM then st
      else st.(risk := st.risk[u := Risk(score, RiskOf(st, u).breachCount, now, AdjustmentFactor(score))])
    case UpdateAnomalyScore(score, _) =>
      if score > BPS_DENOM then st else st.(tripped := st.tripped || score >= CIRCUIT_BREAKER_THRESHOLD)
    case ResetCircuitBreaker(_) => st.(tripped := false)
    case SetEmergencyMode(enabled, _) => st.(emergency := enabled)
    case EmergencyReduceLimits(bps, _) =>
      if bps == 0 || bps > BPS_DENOM then st
      else st.(defaults := st.defaults.(
        dailyValue := Reduced(st.defaults.dailyValue, bps), weeklyValue := Reduced(st.defaults.weeklyValue, bps),
        monthlyValue := Reduced(st.defaults.monthlyValue, bps)))
    case SetCooldownDuration(secs, _) => st.(cooldown := secs)
    case ClearCooldown(u, now) => st.(usage := st.usage[u := UsageAt(st, u, now).(cooldownUntil := 0)])
  }

  function Run(st: State, ops: seq<Op>): State {
    if ops == [] then st else Step(Run(st, ops[..|ops| - 1]), ops[|ops| - 1])
  }
}
