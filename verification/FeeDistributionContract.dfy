/** The fee distributor as it runs: storage fields updated step by step, loops over tokens, and a rollback when a
    call panics. Every entrypoint is proved equal to its specification in FeeDistribution. */
module FeeDistributionContract {
  import opened Sums
  import opened FeeDistribution

  class Contract {
    var stakingToken: Address
    var ratios: Ratios
    var tokens: seq<Address>
    var pools: map<Address, FeePool>
    var totalStaked: int
    var stakes: map<Address, int>
    var debts: map<(Address, Address), int>
    var rewards: map<(Address, Address), int>
    var compounding: map<Address, bool>
    var vestings: seq<Vesting>
    var emergency: bool
    var interval: nat
    var lastAuto: nat
    var balances: map<Address, int>
    ghost var audit: Audit

    ghost function St(): State
      reads this
    {
      State(stakingToken, ratios, tokens, pools, totalStaked, stakes, debts, rewards, compounding, vestings,
            emergency, interval, lastAuto, balances, audit)
    }

    /** The storage after a call that did or did not panic. */
    ghost predicate Ended(before: State, o: Outcome, ok: bool)
      reads this
    {
      ok == o.Done? && St() == Settle(before, o)
    }

    constructor (stakingToken: Address, ratios: Ratios)
      requires ValidRatios(ratios)
      ensures St() == Init(stakingToken, ratios)
    {
      this.stakingToken, this.ratios := stakingToken, ratios;
      tokens, pools, totalStaked, stakes, debts, rewards := [], map[], 0, map[], map[], map[];
      compounding, vestings, emergency, interval, lastAuto := map[], [], false, 0, 0;
      balances, audit := map[], FreshAudit;
    }

    method UpdateRatios(r: Ratios) returns (ok: bool)
      modifies this
      ensures Ended(old(St()), Call(old(St()), Op.UpdateRatios(r)), ok)
    {
      ok := r.stakersBps + r.governanceBps + r.treasuryBps == BPS_DENOM;
      if ok { ratios := r; }
    }

    /** Registers a token once; a repeated registration is ignored. */
    method AddFeeToken(t: Address, now: nat)
      modifies this
      ensures Ended(old(St()), Call(old(St()), Op.AddFeeToken(t, now)), true)
    {
      for i := 0 to |tokens|
        invariant t !in tokens[..i] && St() == old(St())
      {
        if tokens[i] == t { return; }
      }
      tokens := tokens + [t];
      if t !in pools { pools := pools[t := FeePool(0, 0, 0, 0, 0, now)]; }
    }

    // ---- Internal helpers -------------------------------------------------------------------------------------

    method HarvestRewards(u: Address, toks: seq<Address>)
      modifies this`rewards, this`debts
      ensures St() == Harvest(old(St()), u, toks)
    {
      var stake := Get(stakes, u);
      if stake == 0 { return; }
      for i := 0 to |toks|
        invariant St() == HarvestEach(old(St()), u, toks[..i])
        invariant Get(stakes, u) == stake
      {
        assert toks[..i + 1][..i] == toks[..i];
        var t := toks[i];
        if t in pools {
          var accrued := stake * pools[t].accFeePerShare / PRECISION;
          var newRewards := accrued - Get(debts, (u, t));
          if newRewards > 0 {
            rewards := rewards[(u, t) := Get(rewards, (u, t)) + newRewards];
            debts := debts[(u, t) := accrued];
          }
        }
      }
      assert toks[..|toks|] == toks;
    }

    method SyncDebts(u: Address, newStake: int, toks: seq<Address>)
      modifies this`debts
      ensures St() == Sync(old(St()), u, newStake, toks)
    {
      for i := 0 to |toks|
        invariant St() == Sync(old(St()), u, newStake, toks[..i])
      {
        assert toks[..i + 1][..i] == toks[..i];
        var t := toks[i];
        if t in pools {
          debts := debts[(u, t) := newStake * pools[t].accFeePerShare / PRECISION];
        }
      }
      assert toks[..|toks|] == toks;
    }

    /** Give a harvested staker a new weight. */
    method ReweighStaker(u: Address, newStake: int)
      modifies this`stakes, this`debts, this`totalStaked, this`audit
      ensures St() == Reweigh(old(St()), u, newStake)
    {
      var current := Get(stakes, u);
      stakes := stakes[u := newStake];
      label Staked:
      SyncDebts(u, newStake, tokens);
      assert old@Staked(St()) == old(St()).(stakes := old(stakes)[u := newStake]);
      totalStaked := totalStaked + newStake - current;
      audit := AuditReset(audit, pools, current, newStake);
    }

    /** One pool's share of a distribution round; a treasury transfer that cannot be paid panics. */
    method DistributePool(t: Address, now: nat) returns (ok: bool)
      modifies this`pools, this`balances, this`audit
      ensures ok == DistributeOne(old(St()), t, now).Done?
      ensures ok ==> St() == DistributeOne(old(St()), t, now).st
    {
      if t !in pools || pools[t].pending == 0 { return true; }
      var pool := pools[t];
      var stakersAmt := pool.pending * ratios.stakersBps / BPS_DENOM;
      var governanceAmt := pool.pending * ratios.governanceBps / BPS_DENOM;
      var treasuryAmt := pool.pending - stakersAmt - governanceAmt;
      ghost var round := AuditRound(St(), t);
      if totalStaked > 0 && stakersAmt > 0 {
        var delta := stakersAmt * PRECISION / totalStaked;
        pool := pool.(accFeePerShare := pool.accFeePerShare + delta);
      } else if stakersAmt > 0 {
        pool := pool.(governancePool := pool.governancePool + stakersAmt);
      }
      pool := pool.(governancePool := pool.governancePool + governanceAmt);
      if treasuryAmt > 0 {
        if treasuryAmt > Get(balances, t) { return false; }
        balances := balances[t := Get(balances, t) - treasuryAmt];
      }
      pool := pool.(totalDistributed := pool.totalDistributed + pool.pending, pending := 0,
                    lastDistributionTime := now);
      pools := pools[t := pool];
      audit := round;
      ok := true;
    }

    method Distribution(toks: seq<Address>, now: nat) returns (ok: bool)
      modifies this`pools, this`balances, this`audit, this`lastAuto
      ensures Ended(old(St()), DoDistribute(old(St()), toks, now), ok)
    {
      var pools0, balances0 := pools, balances;
      ghost var audit0 := audit;
      ok := true;
      for i := 0 to |toks|
        invariant DistributeEach(old(St()), toks[..i], now) == Done(St())
        invariant lastAuto == old(lastAuto)
      {
        assert toks[..i + 1][..i] == toks[..i];
        ok := DistributePool(toks[i], now);
        if !ok {
          pools, balances, audit := pools0, balances0, audit0;
          EachPanics(old(St()), toks, i + 1, now);
          return;
        }
      }
      assert toks[..|toks|] == toks;
      ok := true;
      lastAuto := now;
    }

    static lemma EachPanics(st: State, toks: seq<Address>, n: nat, now: nat)
      requires n <= |toks| && DistributeEach(st, toks[..n], now).Panic?
      ensures DistributeEach(st, toks, now).Panic?
      decreases |toks| - n
    {
      if n < |toks| {
        assert toks[..n + 1][..n] == toks[..n];
        EachPanics(st, toks, n + 1, now);
      } else {
        assert toks[..n] == toks;
      }
    }

    // ---- Entrypoints --------------------------------------------------------------------------------------------

    method CollectFees(t: Address, amount: int, now: nat) returns (ok: bool)
      modifies this
      ensures Ended(old(St()), Call(old(St()), Collect(t, amount, now)), ok)
    {
      if emergency || amount <= 0 || t !in tokens || t !in pools { return false; }
      var pools0, balances0 := pools, balances;
      balances := balances[t := Get(balances, t) + amount];
      var pool := pools[t];
      pools := pools[t := pool.(totalCollected := pool.totalCollected + amount, pending := pool.pending + amount)];
      assert St() == PaidIn(old(St()), t, amount);
      ok := true;
      if interval != 0 && now >= lastAuto + interval {
        ok := Distribution(tokens, now);
        if !ok { pools, balances := pools0, balances0; }
      }
    }

    method DistributeFees(toks: seq<Address>, now: nat) returns (ok: bool)
      modifies this
      ensures Ended(old(St()), Call(old(St()), Distribute(toks, now)), ok)
    {
      if emergency { return false; }
      ok := Distribution(if toks == [] then tokens else toks, now);
    }

    method StakeForFees(u: Address, amount: int, compound: bool) returns (ok: bool)
      modifies this
      ensures Ended(old(St()), Call(old(St()), Op.StakeForFees(u, amount, compound)), ok)
    {
      hide Harvest, Reweigh;
      if emergency || amount <= 0 { return false; }
      HarvestRewards(u, tokens);
      balances := balances[stakingToken := Get(balances, stakingToken) + amount];
      ReweighStaker(u, Get(stakes, u) + amount);
      compounding := compounding[u := compound];
      ok := true;
    }

    method Unstake(u: Address, amount: int) returns (ok: bool)
      modifies this
      ensures Ended(old(St()), Call(old(St()), Op.Unstake(u, amount)), ok)
    {
      hide Harvest, Reweigh;
      if amount <= 0 || amount > Get(stakes, u) || amount > Get(balances, stakingToken) { return false; }
      HarvestRewards(u, tokens);
      ReweighStaker(u, Get(stakes, u) - amount);
      balances := balances[stakingToken := Get(balances, stakingToken) - amount];
      ok := true;
    }

    method RestakeReward(u: Address, t: Address)
      modifies this`rewards, this`stakes, this`debts, this`totalStaked, this`audit
      ensures St() == Restake(old(St()), u, t)
    {
      hide Reweigh;
      var pending := Get(rewards, (u, t));
      rewards := rewards[(u, t) := 0];
      label Taken:
      ReweighStaker(u, Get(stakes, u) + pending);
      assert old@Taken(St()) == old(St()).(rewards := old(rewards)[(u, t) := 0]);
      audit := Compounded(St(), u, t, pending).audit;
    }

    method PayReward(u: Address, t: Address)
      requires Get(rewards, (u, t)) <= Get(balances, t)
      modifies this`rewards, this`balances, this`audit
      ensures Done(St()) == PayOut(old(St()), u, t)
    {
      ghost var after := PayOut(St(), u, t).st;
      var pending := Get(rewards, (u, t));
      rewards := rewards[(u, t) := 0];
      balances := balances[t := Get(balances, t) - pending];
      audit := after.audit;
      assert balances == after.balances;
    }

    method ClaimFees(u: Address, t: Address) returns (ok: bool)
      modifies this
      ensures Ended(old(St()), Call(old(St()), Op.ClaimFees(u, t)), ok)
    {
      hide Harvest, Restake;
      if emergency { return false; }
      var rewards0, debts0 := rewards, debts;
      HarvestRewards(u, tokens);
      var pending := Get(rewards, (u, t));
      var compound := u in compounding && compounding[u];
      if pending == 0 || (!compound && pending > Get(balances, t)) {
        rewards, debts := rewards0, debts0;
        return false;
      }
      if compound {
        RestakeReward(u, t);
      } else {
        PayReward(u, t);
      }
      ok := true;
    }

    method CompoundRewards(u: Address, t: Address) returns (ok: bool)
      modifies this
      ensures Ended(old(St()), Call(old(St()), Op.CompoundRewards(u, t)), ok)
    {
      hide Harvest, Restake;
      if u !in compounding || !compounding[u] { return false; }
      HarvestRewards(u, tokens);
      if Get(rewards, (u, t)) != 0 { RestakeReward(u, t); }
      ok := true;
    }

    method CreateVestingSchedule(b: Address, t: Address, amount: int, duration: nat, cliff: nat, now: nat)
      returns (ok: bool)
      modifies this
      ensures Ended(old(St()), Call(old(St()), CreateVesting(b, t, amount, duration, cliff, now)), ok)
    {
      if emergency || amount <= 0 || duration == 0 || cliff > duration || t !in pools { return false; }
      var pool := pools[t];
      if pool.governancePool < amount { return false; }
      pools := pools[t := pool.(governancePool := pool.governancePool - amount)];
      vestings := vestings + [Vesting(b, t, amount, 0, now, duration, cliff)];
      ok := true;
    }

    method ClaimVested(id: nat, now: nat) returns (ok: bool)
      modifies this
      ensures Ended(old(St()), Call(old(St()), Op.ClaimVested(id, now)), ok)
    {
      if id >= |vestings| { return false; }
      var v := vestings[id];
      var elapsed := if now < v.startTime then 0 else now - v.startTime;
      if elapsed < v.cliff { return false; }
      var vestedTotal := if elapsed >= v.duration then v.totalAmount else v.totalAmount * elapsed / v.duration;
      var claimable := vestedTotal - v.claimedAmount;
      if claimable <= 0 || claimable > Get(balances, v.token) { return false; }
      vestings := vestings[id := v.(claimedAmount := v.claimedAmount + claimable)];
      balances := balances[v.token := Get(balances, v.token) - claimable];
      ok := true;
    }

    method SetEmergency(active: bool)
      modifies this
      ensures Ended(old(St()), Call(old(St()), Op.SetEmergency(active)), true)
    {
      emergency := active;
    }

    method SetDistributionInterval(secs: nat)
      modifies this
      ensures Ended(old(St()), Call(old(St()), SetInterval(secs)), true)
    {
      interval := secs;
    }

    method EmergencyWithdraw(t: Address, amount: int) returns (ok: bool)
      modifies this
      ensures Ended(old(St()), Call(old(St()), Op.EmergencyWithdraw(t, amount)), ok)
    {
      if !emergency || amount < 0 || amount > Get(balances, t) { return false; }
      balances := balances[t := Get(balances, t) - amount];
      audit := audit.(withdrawn := audit.withdrawn[t := Get(audit.withdrawn, t) + amount]);
      ok := true;
    }
  }
}
