/** The insurance pool's storage as a value, and what every entrypoint does to it. */
module InsurancePool {
  import opened Sums
  import opened Quotients

  type Address = nat
  type PoolId = nat

  const BPS_DENOM := 10_000
  const REWARD_SCALE := 1_000_000_000

  datatype Tier = Conservative | Balanced | Aggressive
  datatype ClaimStatus = Submitted | Verified | Approved | Rejected | Paid

  datatype Pool = Pool(
    totalLiquidity: int, stakedLiquidity: int, queuedWithdrawals: int, activeCoverage: int,
    premiumRateBps: nat, riskScoreBps: nat, acc: int, premiumCollected: int,
    payoutTotal: int, paidClaims: nat, rejectedClaims: nat,
    maxClaimAmount: int, maxClaimBps: nat, claimCooldown: nat)

  datatype Position = Position(
    staked: int, pendingWithdrawal: int, rewardDebt: int,
    accruedPremium: int, claimedPremium: int, slashedTotal: int)

  datatype Request = Request(staker: Address, pool: PoolId, amount: int, unlockTime: nat, claimed: bool)

  datatype Claim = Claim(
    claimant: Address, pool: PoolId, amount: int, status: ClaimStatus,
    approvals: seq<Address>, slashBps: nat, slashedAmount: int)

  /** History the contract does not store: scaled remainders of sales, fractions created by debt resets, resets. */
  datatype Audit = Audit(dust: map<PoolId, int>, gained: map<PoolId, int>, resets: map<PoolId, int>)

  datatype State = State(
    approvers: seq<Address>, threshold: nat, delay: nat,
    pools: map<PoolId, Pool>, positions: map<(Address, PoolId), Position>,
    requests: seq<Request>, claims: seq<Claim>, lastClaims: map<(Address, PoolId), nat>, audit: Audit)

  datatype Outcome = Done(st: State) | Panic

  const Empty := Position(0, 0, 0, 0, 0, 0)

  function Init(admin: Address): State {
    State([admin], 1, 86_400, map[], map[], [], [], map[], Audit(map[], map[], map[]))
  }

  function Load(ps: map<(Address, PoolId), Position>, u: Address, p: PoolId): Position {
    if (u, p) in ps then ps[(u, p)] else Empty
  }

  function Save(st: State, u: Address, p: PoolId, pool: Pool, pos: Position): State {
    st.(pools := st.pools[p := pool], positions := st.positions[(u, p) := pos])
  }

  // ---- Rewards ----------------------------------------------------------------------------------------------------

  /** `calc_reward_debt`: whole premium units earned by a stake, and the scaled fraction beside them. */
  function RewardDebt(staked: int, acc: int): int { staked * acc / REWARD_SCALE }
  function Fraction(staked: int, acc: int): int { staked * acc % REWARD_SCALE }

  function SyncRewards(pool: Pool, pos: Position): Position {
    var expected := RewardDebt(pos.staked, pool.acc);
    var pending := expected - pos.rewardDebt;
    pos.(accruedPremium := pos.accruedPremium + (if pending > 0 then pending else 0), rewardDebt := expected)
  }

  /** Give a synced position a new stake and the debt that goes with it. */
  function Restaked(pool: Pool, pos: Position, staked: int): Position {
    pos.(staked := staked, rewardDebt := RewardDebt(staked, pool.acc))
  }

  function AuditReset(a: Audit, p: PoolId, acc: int, before: int, after: int): Audit {
    a.(gained := a.gained[p := Get(a.gained, p) + Fraction(after, acc) - Fraction(before, acc)],
       resets := a.resets[p := Get(a.resets, p) + 1])
  }

  // ---- Premiums ---------------------------------------------------------------------------------------------------

  function TierPremiumBps(t: Tier): nat {
    match t case Conservative => 800 case Balanced => 1000 case Aggressive => 1400
  }
  function TierCapBps(t: Tier): nat { match t case Conservative => 5000 case Balanced => 7000 case Aggressive => 8500 }

  function CalculatePremium(pool: Pool, coverage: int, t: Tier): int {
    coverage * pool.premiumRateBps / BPS_DENOM * (BPS_DENOM + pool.riskScoreBps) * TierPremiumBps(t)
      / BPS_DENOM / BPS_DENOM
  }

  function CoverageCap(pool: Pool, t: Tier): int { Truncate(pool.stakedLiquidity * TierCapBps(t), BPS_DENOM) }

  // ---- Entrypoints ------------------------------------------------------------------------------------------------

  datatype Op =
    | ConfigureGovernance(approvers: seq<Address>, threshold: nat, delay: nat)
    | CreatePool(pool: PoolId, rate: nat, risk: nat)
    | SetRiskScore(pool: PoolId, risk: nat)
    | ConfigureClaimLimits(pool: PoolId, maxAmount: int, maxBps: nat, cooldown: nat)
    | StakeLiquidity(u: Address, pool: PoolId, amount: int)
    | RequestWithdrawal(u: Address, pool: PoolId, amount: int, now: nat)
    | ExecuteWithdrawal(u: Address, pool: PoolId, id: nat, now: nat)
    | PurchaseCoverage(pool: PoolId, coverage: int, tier: Tier, premiumPaid: int)
    | SubmitClaim(u: Address, pool: PoolId, amount: int, now: nat)
    | VerifyClaim(id: nat, valid: bool, slashBps: nat)
    | ApproveClaim(approver: Address, id: nat)
    | ExecutePayout(id: nat)
    | ClaimPremium(u: Address, pool: PoolId)

  function DoConfigure(st: State, approvers: seq<Address>, threshold: nat, delay: nat): Outcome {
    if approvers == [] || threshold == 0 || threshold > |approvers| then Panic
    else Done(st.(approvers := approvers, threshold := threshold, delay := delay))
  }

  function DoCreatePool(st: State, p: PoolId, rate: nat, risk: nat): Outcome {
    if rate == 0 || rate > 5_000 || risk > 10_000 then Panic
    else if p in st.pools then
      Done(st.(pools := st.pools[p := st.pools[p].(premiumRateBps := rate, riskScoreBps := risk)]))
    else Done(st.(pools := st.pools[p := Pool(0, 0, 0, 0, rate, risk, 0, 0, 0, 0, 0, 0, 2_000, 86_400)]))
  }

  function DoSetRisk(st: State, p: PoolId, risk: nat): Outcome {
    if risk > 10_000 || p !in st.pools then Panic
    else Done(st.(pools := st.pools[p := st.pools[p].(riskScoreBps := risk)]))
  }

  function DoLimits(st: State, p: PoolId, maxAmount: int, maxBps: nat, cooldown: nat): Outcome {
    if maxAmount < 0 || maxBps > 10_000 || p !in st.pools then Panic
    else Done(st.(pools := st.pools[p :=
      st.pools[p].(maxClaimAmount := maxAmount, maxClaimBps := maxBps, claimCooldown := cooldown)]))
  }

  function DoStake(st: State, u: Address, p: PoolId, amount: int): Outcome {
    if amount <= 0 || p !in st.pools then Panic
    else
      var pool := st.pools[p];
      var pos := SyncRewards(pool, Load(st.positions, u, p));
      Done(Save(st, u, p,
        pool.(totalLiquidity := pool.totalLiquidity + amount, stakedLiquidity := pool.stakedLiquidity + amount),
        Restaked(pool, pos, pos.staked + amount)).(
        audit := AuditReset(st.audit, p, pool.acc, pos.staked, pos.staked + amount)))
  }

  function DoRequest(st: State, u: Address, p: PoolId, amount: int, now: nat): Outcome {
    if amount <= 0 || p !in st.pools || Load(st.positions, u, p).staked < amount then Panic
    else
      var pool := st.pools[p];
      var pos := SyncRewards(pool, Load(st.positions, u, p));
      Done(Save(st, u, p,
        pool.(stakedLiquidity := pool.stakedLiquidity - amount, queuedWithdrawals := pool.queuedWithdrawals + amount),
        Restaked(pool, pos.(pendingWithdrawal := pos.pendingWithdrawal + amount), pos.staked - amount)).(
        requests := st.requests + [Request(u, p, amount, now + st.delay, false)],
        audit := AuditReset(st.audit, p, pool.acc, pos.staked, pos.staked - amount)))
  }

  function DoExecute(st: State, u: Address, p: PoolId, id: nat, now: nat): Outcome {
    if id >= |st.requests| || p !in st.pools then Panic
    else
      var r, pool := st.requests[id], st.pools[p];
      var pos := SyncRewards(pool, Load(st.positions, u, p));
      if r.staker != u || r.pool != p || r.claimed || now < r.unlockTime || pos.pendingWithdrawal < r.amount
         || pool.totalLiquidity < r.amount || pool.queuedWithdrawals < r.amount then Panic
      else Done(Save(st, u, p,
        pool.(totalLiquidity := pool.totalLiquidity - r.amount, queuedWithdrawals := pool.queuedWithdrawals - r.amount),
        Restaked(pool, pos.(pendingWithdrawal := pos.pendingWithdrawal - r.amount), pos.staked)).(
        requests := st.requests[id := r.(claimed := true)]))
  }

  /** A sale charges the required premium, however much more was offered. */
  function Sold(pool: Pool, coverage: int, premium: int): Pool {
    pool.(activeCoverage := pool.activeCoverage + coverage, premiumCollected := pool.premiumCollected + premium,
          acc := pool.acc + if pool.stakedLiquidity > 0 then premium * REWARD_SCALE / pool.stakedLiquidity else 0)
  }

  function DoPurchase(st: State, p: PoolId, coverage: int, tier: Tier, premiumPaid: int): Outcome {
    if coverage <= 0 || p !in st.pools then Panic
    else
      var pool := st.pools[p];
      var premium := CalculatePremium(pool, coverage, tier);
      if premiumPaid < premium || pool.activeCoverage + coverage > CoverageCap(pool, tier) then Panic
      else Done(st.(pools := st.pools[p := Sold(pool, coverage, premium)],
        audit := st.audit.(dust := st.audit.dust[p := Get(st.audit.dust, p) +
          if pool.stakedLiquidity > 0 then premium * REWARD_SCALE % pool.stakedLiquidity else premium * REWARD_SCALE])))
  }

  function LastClaimTime(st: State, u: Address, p: PoolId): nat {
    if (u, p) in st.lastClaims then st.lastClaims[(u, p)] else 0
  }

  predicate WithinClaimCaps(pool: Pool, amount: int) {
    && (pool.maxClaimAmount > 0 ==> amount <= pool.maxClaimAmount)
    && (pool.maxClaimBps > 0 ==> amount <= Truncate(pool.totalLiquidity * pool.maxClaimBps, BPS_DENOM))
  }

  function DoSubmit(st: State, u: Address, p: PoolId, amount: int, now: nat): Outcome {
    if amount <= 0 || p !in st.pools || st.pools[p].activeCoverage < amount || !WithinClaimCaps(st.pools[p], amount)
       || (st.pools[p].claimCooldown > 0 && LastClaimTime(st, u, p) + st.pools[p].claimCooldown > now) then Panic
    else Done(st.(claims := st.claims + [Claim(u, p, amount, Submitted, [], 0, 0)],
                  lastClaims := st.lastClaims[(u, p) := now]))
  }

  function Min(x: int, y: int): int { if x > y then y else x }

  /** Reject a claim and slash the claimant's own stake, at most all of it. */
  function Slash(st: State, id: nat, slashBps: nat): State
    requires id < |st.claims| && st.claims[id].pool in st.pools
  {
    var c := st.claims[id];
    var pool := st.pools[c.pool];
    var pos := SyncRewards(pool, Load(st.positions, c.claimant, c.pool));
    var slashed := Min(c.amount * slashBps / BPS_DENOM, pos.staked);
    var cut := if slashed > 0 then slashed else 0;
    Save(st, c.claimant, c.pool,
      pool.(stakedLiquidity := pool.stakedLiquidity - cut, totalLiquidity := pool.totalLiquidity - cut,
            rejectedClaims := pool.rejectedClaims + 1),
      Restaked(pool, pos.(slashedTotal := pos.slashedTotal + cut), pos.staked - cut)).(
      claims := st.claims[id := c.(status := Rejected, slashBps := slashBps, slashedAmount := slashed)],
      audit := AuditReset(st.audit, c.pool, pool.acc, pos.staked, pos.staked - cut))
  }

  function DoVerify(st: State, id: nat, valid: bool, slashBps: nat): Outcome {
    if id >= |st.claims| || st.claims[id].status != Submitted then Panic
    else if valid then
      Done(st.(claims := st.claims[id := st.claims[id].(status := Verified, slashBps := 0, slashedAmount := 0)]))
    else if slashBps > 10_000 || st.claims[id].pool !in st.pools then Panic
    else Done(Slash(st, id, slashBps))
  }

  function DoApprove(st: State, a: Address, id: nat): Outcome {
    if a !in st.approvers || id >= |st.claims| then Panic
    else
      var c := st.claims[id];
      if (c.status != Verified && c.status != Approved) || a in c.approvals then Panic
      else
        var signed := c.(approvals := c.approvals + [a]);
        Done(st.(claims := st.claims[id :=
          if |signed.approvals| >= st.threshold then signed.(status := Approved) else signed]))
  }

  function DoPayout(st: State, id: nat): Outcome {
    if id >= |st.claims| || st.claims[id].status != Approved || st.claims[id].pool !in st.pools then Panic
    else
      var c := st.claims[id];
      var pool := st.pools[c.pool];
      if pool.totalLiquidity < c.amount || pool.activeCoverage < c.amount then Panic
      else Done(st.(
        pools := st.pools[c.pool := pool.(
          totalLiquidity := pool.totalLiquidity - c.amount, activeCoverage := pool.activeCoverage - c.amount,
          payoutTotal := pool.payoutTotal + c.amount, paidClaims := pool.paidClaims + 1)],
        claims := st.claims[id := c.(status := Paid)]))
  }

  function DoClaimPremium(st: State, u: Address, p: PoolId): Outcome {
    if p !in st.pools then Panic
    else
      var pool := st.pools[p];
      var pos := SyncRewards(pool, Load(st.positions, u, p));
      Done(Save(st, u, p, pool, Restaked(pool,
        pos.(accruedPremium := 0, claimedPremium := pos.claimedPremium + pos.accruedPremium), pos.staked)))
  }

  function Call(st: State, op: Op): Outcome {
    match op
    case ConfigureGovernance(approvers, threshold, delay) => DoConfigure(st, approvers, threshold, delay)
    case CreatePool(p, rate, risk) => DoCreatePool(st, p, rate, risk)
    case SetRiskScore(p, risk) => DoSetRisk(st, p, risk)
    case ConfigureClaimLimits(p, maxAmount, maxBps, cooldown) => DoLimits(st, p, maxAmount, maxBps, cooldown)
    case StakeLiquidity(u, p, amount) => DoStake(st, u, p, amount)
    case RequestWithdrawal(u, p, amount, now) => DoRequest(st, u, p, amount, now)
    case ExecuteWithdrawal(u, p, id, now) => DoExecute(st, u, p, id, now)
    case PurchaseCoverage(p, coverage, tier, paid) => DoPurchase(st, p, coverage, tier, paid)
    case SubmitClaim(u, p, amount, now) => DoSubmit(st, u, p, amount, now)
    case VerifyClaim(id, valid, slashBps) => DoVerify(st, id, valid, slashBps)
    case ApproveClaim(a, id) => DoApprove(st, a, id)
    case ExecutePayout(id) => DoPayout(st, id)
    case ClaimPremium(u, p) => DoClaimPremium(st, u, p)
  }

  function Settle(st: State, o: Outcome): State {
    match o case Done(st') => st' case Panic => st
  }

  function Run(st: State, ops: seq<Op>): State {
    if ops == [] then st
    else var mid := Run(st, ops[..|ops| - 1]);
         Settle(mid, Call(mid, ops[|ops| - 1]))
  }
}
