/** How much each call of the insurance pool moves and what it needs, said in plain arithmetic. */
module InsurancePoolAmounts {
  import opened Sums
  import opened Quotients
  import opened InsurancePool
  import opened InsurancePoolInvariant

  // ---- Sales ------------------------------------------------------------------------------------------------------

  /** The tier's share of the base premium and of the stake it may cover, in basis points. */
  ghost predicate TierTerms(t: Tier, share: int, cap: int) {
    match t
    case Conservative => share == 800 && cap == 5_000
    case Balanced => share == 1_000 && cap == 7_000
    case Aggressive => share == 1_400 && cap == 8_500
  }

  lemma BasePremium(pool: Pool, coverage: int, t: Tier, share: int, cap: int) returns (b: int)
    requires TierTerms(t, share, cap)
    ensures IsQuotient(b, coverage * pool.premiumRateBps, 10_000)
    ensures IsQuotient(CalculatePremium(pool, coverage, t), b * (10_000 + pool.riskScoreBps) * share, 10_000 * 10_000)
  {
    b := coverage * pool.premiumRateBps / BPS_DENOM;
    QuotientIs(coverage * pool.premiumRateBps, BPS_DENOM);
    QuotientOfQuotient(b * (BPS_DENOM + pool.riskScoreBps) * share, BPS_DENOM, BPS_DENOM);
    assert TierPremiumBps(t) == share;
    hide IsQuotient;
  }

  lemma CapIsShare(pool: Pool, t: Tier, share: int, cap: int, active: int)
    requires TierTerms(t, share, cap) && pool.stakedLiquidity >= 0
    ensures active <= CoverageCap(pool, t) <==> active * 10_000 <= pool.stakedLiquidity * cap
  {
    var x := pool.stakedLiquidity * cap;
    ProductMonotone(0, pool.stakedLiquidity, cap);
    FloorBounds(x, BPS_DENOM);
    assert CoverageCap(pool, t) == x / BPS_DENOM;
  }

  /** A sale charges q: the coverage at the pool's rate (b, rounded down), raised by its risk score and scaled by the
      tier, rounded down. It completes exactly when the offer reaches q and all coverage stays within the tier's
      share of the stake; then the pool has collected q more, covers that much more, and every unit staked has earned
      q over the stake, rounded down. */
  lemma SaleExact(st: State, p: PoolId, coverage: int, tier: Tier, offer: int, share: int, cap: int)
    returns (b: int, q: int)
    requires Inv(st) && p in st.pools && TierTerms(tier, share, cap)
    ensures IsQuotient(b, coverage * st.pools[p].premiumRateBps, 10_000)
    ensures IsQuotient(q, b * (10_000 + st.pools[p].riskScoreBps) * share, 10_000 * 10_000)
    ensures var pool := st.pools[p];
      && (DoPurchase(st, p, coverage, tier, offer).Done? <==>
            coverage > 0 && offer >= q
            && (pool.activeCoverage + coverage) * 10_000 <= pool.stakedLiquidity * cap)
      && (DoPurchase(st, p, coverage, tier, offer).Done? ==>
            var st' := DoPurchase(st, p, coverage, tier, offer).st;
            && pool.stakedLiquidity > 0 && p in st'.pools
            && IsQuotient(st'.pools[p].acc - pool.acc, q * 1_000_000_000, pool.stakedLiquidity)
            && st'.pools == st.pools[p := pool.(premiumCollected := pool.premiumCollected + q,
                                                activeCoverage := pool.activeCoverage + coverage,
                                                acc := st'.pools[p].acc)]
            && st'.positions == st.positions)
  {
    var pool := st.pools[p];
    b := BasePremium(pool, coverage, tier, share, cap);
    q := CalculatePremium(pool, coverage, tier);
    PositionOf(st, 0, p);
    CapIsShare(pool, tier, share, cap, pool.activeCoverage + coverage);
    if DoPurchase(st, p, coverage, tier, offer).Done? {
      SaleNeedsStake(st, p, coverage, tier, offer);
      QuotientIs(q * REWARD_SCALE, pool.stakedLiquidity);
    }
    hide Inv, IsQuotient, CalculatePremium, CoverageCap, PositionOk;
  }

  predicate TierAtMost(a: Tier, b: Tier) { a == Conservative || b == Aggressive || a == b }

  /** A premium never falls as coverage, rate, risk score or tier rise. */
  lemma PremiumRises(a: Pool, b: Pool, small: int, large: int, s: Tier, t: Tier)
    requires 0 <= small <= large && a.premiumRateBps <= b.premiumRateBps && a.riskScoreBps <= b.riskScoreBps
    requires TierAtMost(s, t)
    ensures CalculatePremium(a, small, s) <= CalculatePremium(b, large, t)
  {
    var x, y := small * a.premiumRateBps, large * b.premiumRateBps;
    ProductsRise(small, large, a.premiumRateBps, b.premiumRateBps);
    FloorMonotone(x, y, BPS_DENOM);
    FloorMonotone(0, x, BPS_DENOM);
    var u, v := x / BPS_DENOM, y / BPS_DENOM;
    ProductsRise(u, v, BPS_DENOM + a.riskScoreBps, BPS_DENOM + b.riskScoreBps);
    var f, g := u * (BPS_DENOM + a.riskScoreBps), v * (BPS_DENOM + b.riskScoreBps);
    ProductMonotone(0, u, BPS_DENOM + a.riskScoreBps);
    ProductsRise(f, g, TierPremiumBps(s), TierPremiumBps(t));
    FloorMonotone(f * TierPremiumBps(s), g * TierPremiumBps(t), BPS_DENOM);
    FloorMonotone(f * TierPremiumBps(s) / BPS_DENOM, g * TierPremiumBps(t) / BPS_DENOM, BPS_DENOM);
  }

  lemma ProductsRise(a: int, b: int, x: int, y: int)
    requires 0 <= a <= b && 0 <= x <= y
    ensures 0 <= a * x <= b * y
  {
    ProductMonotone(0, a, x);
    ProductMonotone(a, b, x);
    ProductMonotone(x, y, b);
    assert x * b == b * x && y * b == b * y;
  }

  // ---- Stakes and withdrawals -------------------------------------------------------------------------------------

  ghost function PositionAt(st: State, u: Address, p: PoolId): Position {
    if (u, p) in st.positions then st.positions[(u, p)] else Position(0, 0, 0, 0, 0, 0)
  }

  lemma StakeAmounts(st: State, u: Address, p: PoolId, amount: int)
    ensures DoStake(st, u, p, amount).Done? <==> amount > 0 && p in st.pools
    ensures DoStake(st, u, p, amount).Done? ==>
      var st' := DoStake(st, u, p, amount).st; var pool := st.pools[p];
      && st'.pools == st.pools[p := pool.(totalLiquidity := pool.totalLiquidity + amount,
                                          stakedLiquidity := pool.stakedLiquidity + amount)]
      && PositionAt(st', u, p).staked == PositionAt(st, u, p).staked + amount
  {
    hide RewardDebt, Fraction;
  }

  /** A request moves its amount from stake to queue, and can be executed from the configured delay on. */
  lemma RequestTerms(st: State, u: Address, p: PoolId, amount: int, now: nat)
    ensures DoRequest(st, u, p, amount, now).Done?
            <==> p in st.pools && 0 < amount <= PositionAt(st, u, p).staked
    ensures DoRequest(st, u, p, amount, now).Done? ==>
      var st' := DoRequest(st, u, p, amount, now).st; var pool := st.pools[p];
      && st'.pools == st.pools[p := pool.(stakedLiquidity := pool.stakedLiquidity - amount,
                                          queuedWithdrawals := pool.queuedWithdrawals + amount)]
      && st'.requests == st.requests + [Request(u, p, amount, now + st.delay, false)]
      && PositionAt(st', u, p).staked == PositionAt(st, u, p).staked - amount
      && PositionAt(st', u, p).pendingWithdrawal == PositionAt(st, u, p).pendingWithdrawal + amount
  {
    hide RewardDebt, Fraction;
  }

  lemma ExecuteAmounts(st: State, u: Address, p: PoolId, id: nat, now: nat)
    requires DoExecute(st, u, p, id, now).Done?
    ensures id < |st.requests| && p in st.pools && now >= st.requests[id].unlockTime
    ensures var st' := DoExecute(st, u, p, id, now).st; var pool, amount := st.pools[p], st.requests[id].amount;
      && st'.pools == st.pools[p := pool.(totalLiquidity := pool.totalLiquidity - amount,
                                          queuedWithdrawals := pool.queuedWithdrawals - amount)]
      && PositionAt(st', u, p).staked == PositionAt(st, u, p).staked
      && PositionAt(st', u, p).pendingWithdrawal == PositionAt(st, u, p).pendingWithdrawal - amount
  {
    hide RewardDebt, Fraction;
  }

  // ---- Claims -----------------------------------------------------------------------------------------------------

  /** A claim is taken exactly when active coverage, the absolute cap and the share of liquidity all reach it and the
      claimant's last one in the pool is at least the cooldown old; a cap or cooldown of zero asks for nothing. */
  lemma SubmitExact(st: State, u: Address, p: PoolId, amount: int, now: nat)
    ensures DoSubmit(st, u, p, amount, now).Done? <==>
      && amount > 0 && p in st.pools
      && var pool := st.pools[p];
         && amount <= pool.activeCoverage
         && (pool.maxClaimAmount > 0 ==> amount <= pool.maxClaimAmount)
         && (pool.maxClaimBps > 0 ==> amount * 10_000 <= pool.totalLiquidity * pool.maxClaimBps)
         && (pool.claimCooldown > 0 ==>
               (if (u, p) in st.lastClaims then st.lastClaims[(u, p)] else 0) + pool.claimCooldown <= now)
    ensures DoSubmit(st, u, p, amount, now).Done? ==>
      var st' := DoSubmit(st, u, p, amount, now).st;
      && st'.claims == st.claims + [Claim(u, p, amount, Submitted, [], 0, 0)]
      && st'.lastClaims == st.lastClaims[(u, p) := now] && st'.pools == st.pools && st'.positions == st.positions
  {
    if amount > 0 && p in st.pools {
      var x := st.pools[p].totalLiquidity * st.pools[p].maxClaimBps;
      ShareCap(amount, x);
    }
  }

  /** A positive amount is within a share rounded toward zero exactly when it is within the share. */
  lemma ShareCap(amount: int, x: int)
    requires amount > 0
    ensures amount <= Truncate(x, 10_000) <==> amount * 10_000 <= x
  {
    if x >= 0 { FloorBounds(x, 10_000); } else { FloorBounds(-x, 10_000); }
  }

  lemma CallClaimTimes(st: State, op: Op, u: Address, p: PoolId)
    ensures var st' := Settle(st, Call(st, op));
      st'.lastClaims == if op.SubmitClaim? && Call(st, op).Done? then st.lastClaims[(op.u, op.pool) := op.now]
                        else st.lastClaims
  {
    hide RewardDebt, Fraction, SyncRewards, WithinClaimCaps;
  }

  /** The time of a claimant's last accepted claim in a pool, over a run. */
  function LastSubmission(st: State, ops: seq<Op>, u: Address, p: PoolId): nat {
    if ops == [] then 0
    else
      var init, op := ops[..|ops| - 1], ops[|ops| - 1];
      if op.SubmitClaim? && op.u == u && op.pool == p && Call(Run(st, init), op).Done? then op.now
      else LastSubmission(st, init, u, p)
  }

  /** The time stored for the cooldown is that of the last claim the run accepted, not of a refused one or another's. */
  lemma {:induction false} CooldownCounts(admin: Address, ops: seq<Op>, u: Address, p: PoolId)
    ensures var last := Run(Init(admin), ops).lastClaims;
      (if (u, p) in last then last[(u, p)] else 0) == LastSubmission(Init(admin), ops, u, p)
  {
    hide Call;
    if ops != [] {
      var init := ops[..|ops| - 1];
      CooldownCounts(admin, init, u, p);
      CallClaimTimes(Run(Init(admin), init), ops[|ops| - 1], u, p);
    }
  }

  /** Rejecting a claim slashes the claimant by the given share of the claim, rounded down, or by the whole stake if
      that is less: from the position and from both totals of the pool. */
  lemma SlashExact(st: State, id: nat, bps: nat) returns (s: int)
    requires Inv(st) && id < |st.claims| && DoVerify(st, id, false, bps).Done?
    ensures bps <= 10_000 && IsQuotient(s, st.claims[id].amount * bps, 10_000)
    ensures var st' := DoVerify(st, id, false, bps).st; var c := st.claims[id]; var u, p := c.claimant, c.pool;
      && p in st.pools && c.status == Submitted
      && var pool, stake := st.pools[p], PositionAt(st, u, p).staked;
         var cut := if s > stake then stake else s;
         && cut >= 0
         && st'.pools == st.pools[p := pool.(stakedLiquidity := pool.stakedLiquidity - cut,
                                             totalLiquidity := pool.totalLiquidity - cut,
                                             rejectedClaims := pool.rejectedClaims + 1)]
         && PositionAt(st', u, p).staked == stake - cut
         && PositionAt(st', u, p).slashedTotal == PositionAt(st, u, p).slashedTotal + cut
         && st'.claims == st.claims[id := c.(status := Rejected, slashBps := bps, slashedAmount := cut)]
         && st'.positions.Keys == st.positions.Keys + {(u, p)}
         && forall k :: k in st.positions && k != (u, p) ==> st'.positions[k] == st.positions[k]
  {
    var c := st.claims[id];
    s := c.amount * bps / BPS_DENOM;
    QuotientIs(c.amount * bps, BPS_DENOM);
    ClaimAt(st, id);
    PositionOf(st, c.claimant, c.pool);
    ProductMonotone(0, c.amount, bps);
    FloorMonotone(0, c.amount * bps, BPS_DENOM);
    hide Inv, RewardDebt, Fraction, IsQuotient;
  }

  /** An approval is by a listed approver who has not signed, of a verified or already approved claim, which is approved
      once the signatures reach the threshold. */
  lemma ApproveExact(st: State, a: Address, id: nat)
    ensures DoApprove(st, a, id).Done? <==>
      && a in st.approvers && id < |st.claims| && a !in st.claims[id].approvals
      && (st.claims[id].status == Verified || st.claims[id].status == Approved)
    ensures DoApprove(st, a, id).Done? ==>
      var c := st.claims[id];
      DoApprove(st, a, id).st == st.(claims := st.claims[id := c.(
        approvals := c.approvals + [a],
        status := if |c.approvals| + 1 >= st.threshold then Approved else c.status)])
  {}

  /** A payout is of an approved claim that liquidity and active coverage both reach; it moves the amount from them into
      the payouts. */
  lemma PayoutAmounts(st: State, id: nat)
    ensures DoPayout(st, id).Done? <==>
      && id < |st.claims| && st.claims[id].status == Approved && st.claims[id].pool in st.pools
      && st.claims[id].amount <= st.pools[st.claims[id].pool].totalLiquidity
      && st.claims[id].amount <= st.pools[st.claims[id].pool].activeCoverage
    ensures DoPayout(st, id).Done? ==>
      var c := st.claims[id]; var pool := st.pools[c.pool];
      && DoPayout(st, id).st.pools == st.pools[c.pool := pool.(
           totalLiquidity := pool.totalLiquidity - c.amount, activeCoverage := pool.activeCoverage - c.amount,
           payoutTotal := pool.payoutTotal + c.amount, paidClaims := pool.paidClaims + 1)]
      && DoPayout(st, id).st.claims == st.claims[id := c.(status := Paid)]
      && DoPayout(st, id).st.positions == st.positions
  {}

  // ---- Configuration ----------------------------------------------------------------------------------------------

  /** Governance needs a threshold its approvers can reach; a pool's rate lies in (0, 50%] and its risk in [0, 100%],
      and a new pool starts empty with a claim cap of a fifth of its liquidity and a day's cooldown. */
  lemma ConfigurationExact(st: State, approvers: seq<Address>, threshold: nat, delay: nat, p: PoolId, rate: nat,
                           risk: nat, cap: int, share: nat, cooldown: nat)
    ensures DoConfigure(st, approvers, threshold, delay)
            == if 1 <= threshold <= |approvers|
               then Done(st.(approvers := approvers, threshold := threshold, delay := delay)) else Panic
    ensures DoCreatePool(st, p, rate, risk).Done? <==> 0 < rate <= 5_000 && risk <= 10_000
    ensures DoCreatePool(st, p, rate, risk).Done? ==>
      DoCreatePool(st, p, rate, risk).st.pools == st.pools[p :=
        if p in st.pools then st.pools[p].(premiumRateBps := rate, riskScoreBps := risk)
        else Pool(0, 0, 0, 0, rate, risk, 0, 0, 0, 0, 0, 0, 2_000, 86_400)]
    ensures DoSetRisk(st, p, risk).Done? <==> p in st.pools && risk <= 10_000
    ensures DoSetRisk(st, p, risk).Done? ==>
      DoSetRisk(st, p, risk).st.pools == st.pools[p := st.pools[p].(riskScoreBps := risk)]
    ensures DoLimits(st, p, cap, share, cooldown).Done? <==> p in st.pools && cap >= 0 && share <= 10_000
    ensures DoLimits(st, p, cap, share, cooldown).Done? ==>
      DoLimits(st, p, cap, share, cooldown).st.pools == st.pools[p := st.pools[p].(
        maxClaimAmount := cap, maxClaimBps := share, claimCooldown := cooldown)]
  {}

  /** A review is of a submitted claim; found valid, it is verified and nothing else changes. */
  lemma ReviewExact(st: State, id: nat, bps: nat)
    ensures DoVerify(st, id, true, bps).Done? <==> id < |st.claims| && st.claims[id].status == Submitted
    ensures DoVerify(st, id, true, bps).Done? ==>
      DoVerify(st, id, true, bps).st == st.(claims := st.claims[id :=
        st.claims[id].(status := Verified, slashBps := 0, slashedAmount := 0)])
    ensures DoVerify(st, id, false, bps).Done?
            <==> id < |st.claims| && st.claims[id].status == Submitted && bps <= 10_000
                 && st.claims[id].pool in st.pools
  {}
}
