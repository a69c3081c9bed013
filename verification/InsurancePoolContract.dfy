/** The insurance pool as it runs: records are loaded, changed step by step and stored. Every entrypoint is proved
    equal to its specification in InsurancePool. */
module InsurancePoolContract {
  import opened Sums
  import opened Quotients
  import opened InsurancePool

  class Contract {
    var approvers: seq<Address>
    var threshold: nat
    var delay: nat
    var pools: map<PoolId, Pool>
    var positions: map<(Address, PoolId), Position>
    var requests: seq<Request>
    var claims: seq<Claim>
    var lastClaims: map<(Address, PoolId), nat>
    ghost var audit: Audit

    ghost function St(): State
      reads this
    {
      State(approvers, threshold, delay, pools, positions, requests, claims, lastClaims, audit)
    }

    ghost predicate Ended(before: State, o: Outcome, ok: bool)
      reads this
    {
      ok == o.Done? && St() == Settle(before, o)
    }

    constructor (admin: Address)
      ensures St() == Init(admin)
    {
      approvers, threshold, delay := [admin], 1, 86_400;
      pools, positions, requests, claims, lastClaims := map[], map[], [], [], map[];
      audit := Audit(map[], map[], map[]);
    }

    method ConfigureGovernance(list: seq<Address>, needed: nat, secs: nat) returns (ok: bool)
      modifies this
      ensures Ended(old(St()), Call(old(St()), Op.ConfigureGovernance(list, needed, secs)), ok)
    {
      if list == [] { return false; }
      if needed == 0 || needed > |list| { return false; }
      approvers, threshold, delay := list, needed, secs;
      ok := true;
    }

    method CreatePool(p: PoolId, rate: nat, risk: nat) returns (ok: bool)
      modifies this
      ensures Ended(old(St()), Call(old(St()), Op.CreatePool(p, rate, risk)), ok)
    {
      if rate == 0 || rate > 5_000 { return false; }
      if risk > 10_000 { return false; }
      var pool := Pool(0, 0, 0, 0, rate, risk, 0, 0, 0, 0, 0, 0, 2_000, 86_400);
      if p in pools { pool := pools[p].(premiumRateBps := rate, riskScoreBps := risk); }
      pools := pools[p := pool];
      ok := true;
    }

    method SetRiskScore(p: PoolId, risk: nat) returns (ok: bool)
      modifies this
      ensures Ended(old(St()), Call(old(St()), Op.SetRiskScore(p, risk)), ok)
    {
      if risk > 10_000 || p !in pools { return false; }
      pools := pools[p := pools[p].(riskScoreBps := risk)];
      ok := true;
    }

    method ConfigureClaimLimits(p: PoolId, maxAmount: int, maxBps: nat, cooldown: nat) returns (ok: bool)
      modifies this
      ensures Ended(old(St()), Call(old(St()), Op.ConfigureClaimLimits(p, maxAmount, maxBps, cooldown)), ok)
    {
      if maxAmount < 0 || maxBps > 10_000 || p !in pools { return false; }
      var pool := pools[p];
      pool := pool.(maxClaimAmount := maxAmount);
      pool := pool.(maxClaimBps := maxBps);
      pool := pool.(claimCooldown := cooldown);
      pools := pools[p := pool];
      ok := true;
    }

    method LoadPosition(u: Address, p: PoolId) returns (pos: Position)
      ensures pos == Load(positions, u, p)
    {
      pos := Position(0, 0, 0, 0, 0, 0);
      if (u, p) in positions { pos := positions[(u, p)]; }
    }

    /** Move live premium into the position and advance its debt to the current accumulator. */
    method Sync(pool: Pool, before: Position) returns (pos: Position)
      ensures pos == SyncRewards(pool, before)
    {
      pos := before;
      var expected := pos.staked * pool.acc / REWARD_SCALE;
      var pending := expected - pos.rewardDebt;
      if pending > 0 { pos := pos.(accruedPremium := pos.accruedPremium + pending); }
      pos := pos.(rewardDebt := expected);
    }

    method StakeLiquidity(u: Address, p: PoolId, amount: int) returns (ok: bool)
      modifies this
      ensures Ended(old(St()), Call(old(St()), Op.StakeLiquidity(u, p, amount)), ok)
    {
      hide SyncRewards, Fraction;
      if amount <= 0 || p !in pools { return false; }
      var pool := pools[p];
      var loaded := LoadPosition(u, p);
      var pos := Sync(pool, loaded);
      ghost var before := pos.staked;
      pos := pos.(staked := pos.staked + amount);
      pool := pool.(totalLiquidity := pool.totalLiquidity + amount);
      pool := pool.(stakedLiquidity := pool.stakedLiquidity + amount);
      pos := pos.(rewardDebt := pos.staked * pool.acc / REWARD_SCALE);
      positions := positions[(u, p) := pos];
      pools := pools[p := pool];
      audit := AuditReset(audit, p, pool.acc, before, pos.staked);
      ok := true;
    }

    method RequestWithdrawal(u: Address, p: PoolId, amount: int, now: nat) returns (ok: bool, id: nat)
      modifies this
      ensures Ended(old(St()), Call(old(St()), Op.RequestWithdrawal(u, p, amount, now)), ok)
      ensures ok ==> id == |old(requests)| && requests[..id] == old(requests)
    {
      hide Fraction;
      id := 0;
      if amount <= 0 || p !in pools { return false, 0; }
      var pool := pools[p];
      var loaded := LoadPosition(u, p);
      var pos := Sync(pool, loaded);
      if pos.staked < amount { return false, 0; }
      ghost var before := pos.staked;
      pos := pos.(staked := pos.staked - amount, pendingWithdrawal := pos.pendingWithdrawal + amount);
      pool := pool.(stakedLiquidity := pool.stakedLiquidity - amount,
                    queuedWithdrawals := pool.queuedWithdrawals + amount);
      id := |requests|;
      pos := pos.(rewardDebt := pos.staked * pool.acc / REWARD_SCALE);
      positions := positions[(u, p) := pos];
      pools := pools[p := pool];
      requests := requests + [Request(u, p, amount, now + delay, false)];
      audit := AuditReset(audit, p, pool.acc, before, pos.staked);
      ok := true;
    }

    method ExecuteWithdrawal(u: Address, p: PoolId, id: nat, now: nat) returns (ok: bool)
      modifies this
      ensures Ended(old(St()), Call(old(St()), Op.ExecuteWithdrawal(u, p, id, now)), ok)
    {
      if id >= |requests| { return false; }
      var r := requests[id];
      if r.staker != u || r.pool != p { return false; }
      if r.claimed || now < r.unlockTime || p !in pools { return false; }
      var pool := pools[p];
      var loaded := LoadPosition(u, p);
      var pos := Sync(pool, loaded);
      if pos.pendingWithdrawal < r.amount { return false; }
      if pool.totalLiquidity < r.amount || pool.queuedWithdrawals < r.amount { return false; }
      pos := pos.(pendingWithdrawal := pos.pendingWithdrawal - r.amount);
      pool := pool.(totalLiquidity := pool.totalLiquidity - r.amount,
                    queuedWithdrawals := pool.queuedWithdrawals - r.amount);
      pos := pos.(rewardDebt := pos.staked * pool.acc / REWARD_SCALE);
      positions := positions[(u, p) := pos];
      pools := pools[p := pool];
      requests := requests[id := r.(claimed := true)];
      ok := true;
    }

    method PurchaseCoverage(p: PoolId, coverage: int, tier: Tier, premiumPaid: int) returns (ok: bool, premium: int)
      modifies this
      ensures Ended(old(St()), Call(old(St()), Op.PurchaseCoverage(p, coverage, tier, premiumPaid)), ok)
      ensures ok ==> p in old(pools) && premium == CalculatePremium(old(pools)[p], coverage, tier) <= premiumPaid
    {
      hide CalculatePremium;
      if coverage <= 0 || p !in pools { return false, 0; }
      var pool := pools[p];
      premium := CalculatePremium(pool, coverage, tier);
      if premiumPaid < premium { return false, 0; }
      var maxCoverage := CoverageCap(pool, tier);
      var newActive := pool.activeCoverage + coverage;
      if newActive > maxCoverage { return false, 0; }
      pool := pool.(activeCoverage := newActive);
      pool := pool.(premiumCollected := pool.premiumCollected + premium);
      if pool.stakedLiquidity > 0 {
        var delta := premium * REWARD_SCALE / pool.stakedLiquidity;
        pool := pool.(acc := pool.acc + delta);
      }
      audit := audit.(dust := audit.dust[p := Get(audit.dust, p) +
        if pool.stakedLiquidity > 0 then premium * REWARD_SCALE % pool.stakedLiquidity else premium * REWARD_SCALE]);
      pools := pools[p := pool];
      ok := true;
    }

    method SubmitClaim(u: Address, p: PoolId, amount: int, now: nat) returns (ok: bool, id: nat)
      modifies this
      ensures Ended(old(St()), Call(old(St()), Op.SubmitClaim(u, p, amount, now)), ok)
      ensures ok ==> id == |old(claims)| && claims[..id] == old(claims)
    {
      id := |claims|;
      if amount <= 0 || p !in pools { return false, id; }
      var pool := pools[p];
      if pool.activeCoverage < amount { return false, id; }
      if pool.maxClaimAmount > 0 && amount > pool.maxClaimAmount { return false, id; }
      if pool.maxClaimBps > 0 && amount > Truncate(pool.totalLiquidity * pool.maxClaimBps, BPS_DENOM) {
        return false, id;
      }
      if pool.claimCooldown > 0 {
        var last := if (u, p) in lastClaims then lastClaims[(u, p)] else 0;
        if last + pool.claimCooldown > now { return false, id; }
      }
      lastClaims := lastClaims[(u, p) := now];
      claims := claims + [Claim(u, p, amount, Submitted, [], 0, 0)];
      ok := true;
    }

    method VerifyClaim(id: nat, valid: bool, slashBps: nat) returns (ok: bool)
      modifies this
      ensures Ended(old(St()), Call(old(St()), Op.VerifyClaim(id, valid, slashBps)), ok)
    {
      hide Slash;
      if id >= |claims| || claims[id].status != Submitted { return false; }
      var claim := claims[id];
      if valid {
        claims := claims[id := claim.(status := Verified, slashBps := 0, slashedAmount := 0)];
        return true;
      }
      if slashBps > 10_000 || claim.pool !in pools { return false; }
      RejectClaim(id, slashBps);
      ok := true;
    }

    /** The anti-fraud branch of verification. */
    method RejectClaim(id: nat, slashBps: nat)
      requires id < |claims| && claims[id].pool in pools
      modifies this
      ensures St() == Slash(old(St()), id, slashBps)
    {
      hide SyncRewards, Fraction;
      var claim := claims[id];
      var pool := pools[claim.pool];
      var loaded := LoadPosition(claim.claimant, claim.pool);
      var pos := Sync(pool, loaded);
      ghost var before := pos.staked;
      var slashAmount := claim.amount * slashBps / BPS_DENOM;
      var actual := slashAmount;
      if slashAmount > pos.staked { actual := pos.staked; }
      if actual > 0 {
        pos := pos.(staked := pos.staked - actual, slashedTotal := pos.slashedTotal + actual);
        pool := pool.(stakedLiquidity := pool.stakedLiquidity - actual,
                      totalLiquidity := pool.totalLiquidity - actual);
      }
      pool := pool.(rejectedClaims := pool.rejectedClaims + 1);
      pos := pos.(rewardDebt := pos.staked * pool.acc / REWARD_SCALE);
      positions := positions[(claim.claimant, claim.pool) := pos];
      pools := pools[claim.pool := pool];
      claims := claims[id := claim.(status := Rejected, slashBps := slashBps, slashedAmount := actual)];
      audit := AuditReset(audit, claim.pool, pool.acc, before, pos.staked);
    }

    /** Linear search, as the contract does it. */
    static method IsApprover(list: seq<Address>, a: Address) returns (found: bool)
      ensures found <==> a in list
    {
      for i := 0 to |list|
        invariant a !in list[..i]
      {
        if list[i] == a { return true; }
      }
      found := false;
    }

    method ApproveClaim(a: Address, id: nat) returns (ok: bool)
      modifies this
      ensures Ended(old(St()), Call(old(St()), Op.ApproveClaim(a, id)), ok)
    {
      var allowed := IsApprover(approvers, a);
      if !allowed || id >= |claims| { return false; }
      var claim := claims[id];
      if claim.status != Verified && claim.status != Approved { return false; }
      var again := IsApprover(claim.approvals, a);
      if again { return false; }
      claim := claim.(approvals := claim.approvals + [a]);
      if |claim.approvals| >= threshold { claim := claim.(status := Approved); }
      claims := claims[id := claim];
      ok := true;
    }

    method ExecutePayout(id: nat) returns (ok: bool)
      modifies this
      ensures Ended(old(St()), Call(old(St()), Op.ExecutePayout(id)), ok)
    {
      if id >= |claims| || claims[id].status != Approved || claims[id].pool !in pools { return false; }
      var claim := claims[id];
      var pool := pools[claim.pool];
      if pool.totalLiquidity < claim.amount { return false; }
      if pool.activeCoverage < claim.amount { return false; }
      pool := pool.(totalLiquidity := pool.totalLiquidity - claim.amount);
      pool := pool.(activeCoverage := pool.activeCoverage - claim.amount);
      pool := pool.(payoutTotal := pool.payoutTotal + claim.amount);
      pool := pool.(paidClaims := pool.paidClaims + 1);
      pools := pools[claim.pool := pool];
      claims := claims[id := claim.(status := Paid)];
      ok := true;
    }

    method ClaimPremium(u: Address, p: PoolId) returns (ok: bool, amount: int)
      modifies this
      ensures Ended(old(St()), Call(old(St()), Op.ClaimPremium(u, p)), ok)
      ensures ok ==> amount == Load(positions, u, p).claimedPremium - Load(old(positions), u, p).claimedPremium
    {
      if p !in pools { return false, 0; }
      var pool := pools[p];
      var loaded := LoadPosition(u, p);
      var pos := Sync(pool, loaded);
      amount := pos.accruedPremium;
      pos := pos.(accruedPremium := 0, claimedPremium := pos.claimedPremium + amount);
      pos := pos.(rewardDebt := pos.staked * pool.acc / REWARD_SCALE);
      positions := positions[(u, p) := pos];
      ok := true;
    }
  }
}
