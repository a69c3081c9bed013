/** How much each call of the fee distributor moves, said in plain arithmetic. */
module FeeDistributionAmounts {
  import opened Sums
  import opened Quotients
  import opened FeeDistribution
  import opened FeeDistributionInvariant
  import opened FeeDistributionTheorems
  import opened FeeDistributionClaims

  lemma TotalNonNegative(st: State)
    requires Shape(st)
    ensures st.totalStaked >= 0
  {
    SumNonNegative(st.stakes);
  }

  /** Distributing a token with something pending: s is the stakers' share and g the governance share of it by the
      ratios, each rounded down, and the treasury is sent the rest, so the call fails exactly when that cannot be
      paid. The accumulator rises by s per unit staked, rounded down; without stakers s joins the governance pool. */
  lemma DistributionAmounts(st: State, t: Address, now: nat) returns (s: int, g: int)
    requires Shape(st) && t in st.pools && st.pools[t].pending != 0
    ensures IsQuotient(s, st.pools[t].pending * st.ratios.stakersBps, 10_000)
    ensures IsQuotient(g, st.pools[t].pending * st.ratios.governanceBps, 10_000)
    ensures var p := st.pools[t]; var rest := p.pending - s - g;
      && rest >= 0
      && (DistributeOne(st, t, now).Done? <==> rest == 0 || rest <= Get(st.balances, t))
      && (DistributeOne(st, t, now).Done? ==>
            var st' := DistributeOne(st, t, now).st;
            && t in st'.pools && st'.pools == st.pools[t := st'.pools[t]]
            && (forall x: Address :: Get(st'.balances, x) == Get(st.balances, x) - if x == t then rest else 0)
            && var q := st'.pools[t];
               && q.governancePool == p.governancePool + g + (if st.totalStaked == 0 then s else 0)
               && (if st.totalStaked == 0 then q.accFeePerShare == p.accFeePerShare
                   else IsQuotient(q.accFeePerShare - p.accFeePerShare, s * 1_000_000_000_000, st.totalStaked))
               && q.totalCollected == p.totalCollected && q.totalDistributed == p.totalDistributed + p.pending
               && q.pending == 0 && q.lastDistributionTime == now)
  {
    s, g := StakersCut(st, t), GovernanceCut(st, t);
    QuotientIs(st.pools[t].pending * st.ratios.stakersBps, BPS_DENOM);
    QuotientIs(st.pools[t].pending * st.ratios.governanceBps, BPS_DENOM);
    TotalNonNegative(st);
    CutsSplit(st, t);
    if st.totalStaked > 0 {
      QuotientIs(s * PRECISION, st.totalStaked);
    }
    ZeroQuotient(st.totalStaked);
    hide Shape, BpsOf, IsQuotient, StakersCut, GovernanceCut;
  }

  lemma ZeroQuotient(d: int)
    ensures d > 0 ==> IsQuotient(0, 0, d)
  {}

  /** Collecting adds the amount to what was collected, what is pending and what is held; then, exactly when an interval
      is set and has elapsed, everything is distributed. */
  lemma CollectAmounts(st: State, t: Address, amount: int, now: nat)
    ensures DoCollect(st, t, amount, now).Done? ==>
      && !st.emergency && amount > 0 && t in st.tokens && t in st.pools
      && exists paid: State ::
           && paid == st.(pools := paid.pools, balances := paid.balances)
           && t in paid.pools && paid.pools == st.pools[t := paid.pools[t]]
           && paid.pools[t] == st.pools[t].(totalCollected := st.pools[t].totalCollected + amount,
                                            pending := st.pools[t].pending + amount)
           && (forall x: Address :: Get(paid.balances, x) == Get(st.balances, x) + if x == t then amount else 0)
           && DoCollect(st, t, amount, now)
              == if st.interval != 0 && now >= st.lastAuto + st.interval then DoDistribute(paid, st.tokens, now)
                 else Done(paid)
  {
    hide DoDistribute;
    if DoCollect(st, t, amount, now).Done? {
      var paid := PaidIn(st, t, amount);
      assert DoCollect(st, t, amount, now)
             == if st.interval != 0 && now >= st.lastAuto + st.interval then DoDistribute(paid, st.tokens, now)
                else Done(paid);
    }
  }

  /** Staking moves the amount from outside into the staker's weight, the total and the contract's holdings. */
  lemma StakeAmounts(st: State, u: Address, amount: int, compound: bool)
    ensures DoStake(st, u, amount, compound).Done? <==> !st.emergency && amount > 0
    ensures DoStake(st, u, amount, compound).Done? ==>
      var st' := DoStake(st, u, amount, compound).st;
      && st'.stakes == st.stakes[u := Get(st.stakes, u) + amount] && st'.totalStaked == st.totalStaked + amount
      && Get(st'.balances, st.stakingToken) == Get(st.balances, st.stakingToken) + amount
      && st'.pools == st.pools && st'.compounding == st.compounding[u := compound]
  {
    hide Harvest, Reweigh;
    HarvestFrame(st, u);
    var h := Deposit(Harvest(st, u, st.tokens), st.stakingToken, amount);
    ReweighFrame(h, u, Stake(h, u) + amount);
    ReweighTotal(h, u, Stake(h, u) + amount);
  }

  lemma ReweighTotal(h: State, u: Address, s: int)
    ensures Reweigh(h, u, s).totalStaked == h.totalStaked + s - Get(h.stakes, u)
  {}

  /** Unstaking moves it back out, and needs no more than the stake and what the contract holds. */
  lemma UnstakeAmounts(st: State, u: Address, amount: int)
    ensures DoUnstake(st, u, amount).Done?
            <==> 0 < amount <= Get(st.stakes, u) && amount <= Get(st.balances, st.stakingToken)
    ensures DoUnstake(st, u, amount).Done? ==>
      var st' := DoUnstake(st, u, amount).st;
      && st'.stakes == st.stakes[u := Get(st.stakes, u) - amount] && st'.totalStaked == st.totalStaked - amount
      && Get(st'.balances, st.stakingToken) == Get(st.balances, st.stakingToken) - amount
      && st'.pools == st.pools && st'.compounding == st.compounding
  {
    hide Harvest, Reweigh;
    HarvestFrame(st, u);
    var h := Harvest(st, u, st.tokens);
    ReweighFrame(h, u, Stake(h, u) - amount);
    ReweighTotal(h, u, Stake(h, u) - amount);
  }

  /** A schedule takes its amount out of the governance pool and starts now. */
  lemma VestingTerms(st: State, b: Address, t: Address, amount: int, duration: nat, cliff: nat, now: nat)
    ensures DoCreateVesting(st, b, t, amount, duration, cliff, now).Done? <==>
      !st.emergency && amount > 0 && 0 < duration && cliff <= duration
      && t in st.pools && amount <= st.pools[t].governancePool
    ensures DoCreateVesting(st, b, t, amount, duration, cliff, now).Done? ==>
      var st' := DoCreateVesting(st, b, t, amount, duration, cliff, now).st;
      && st'.vestings == st.vestings + [Vesting(b, t, amount, 0, now, duration, cliff)]
      && t in st'.pools && st'.pools[t].governancePool == st.pools[t].governancePool - amount
      && st'.balances == st.balances
  {}

  /** What has been released t seconds into a schedule is the total times t over the duration, rounded down, and all
      of it from the end on. A claim needs the cliff to have passed and pays exactly what is released and not yet
      claimed. */
  lemma VestedExact(st: State, id: nat, now: nat) returns (v: int)
    requires Shape(st) && id < |st.vestings|
    ensures var x := st.vestings[id]; var t := if now < x.startTime then 0 else now - x.startTime;
      && (if t >= x.duration then v == x.totalAmount else IsQuotient(v, x.totalAmount * t, x.duration))
      && (DoClaimVested(st, id, now).Done? <==>
            t >= x.cliff && v > x.claimedAmount && v - x.claimedAmount <= Get(st.balances, x.token))
      && (DoClaimVested(st, id, now).Done? ==>
            var st' := DoClaimVested(st, id, now).st;
            && st'.vestings == st.vestings[id := x.(claimedAmount := v)]
            && forall y: Address :: Get(st'.balances, y)
                 == Get(st.balances, y) - if y == x.token then v - x.claimedAmount else 0)
  {
    var x := st.vestings[id];
    v := Vested(x, now);
    assert VestingOk(x);
    hide Shape;
    if Elapsed(x, now) < x.duration { QuotientIs(x.totalAmount * Elapsed(x, now), x.duration); }
    hide IsQuotient;
  }

  /** Compounding is for stakers who opted in, and turns all that is stored or live into stake. */
  lemma CompoundAmounts(st: State, u: Address, t: Address)
    requires Shape(st)
    ensures DoCompound(st, u, t).Done? <==> u in st.compounding && st.compounding[u]
    ensures DoCompound(st, u, t).Done? ==>
      var st' := DoCompound(st, u, t).st;
      var due := if Stake(st, u) != 0 then PendingRewards(st, u, t) else Reward(st, u, t);
      && Stake(st', u) == Stake(st, u) + due && st'.totalStaked == st.totalStaked + due
      && Reward(st', u, t) == 0
      && st'.balances == st.balances && st'.pools == st.pools
  {
    hide Harvest, Restake;
    HarvestStoresView(st, u, t);
    HarvestFrame(st, u);
    var h := Harvest(st, u, st.tokens);
    if Reward(h, u, t) != 0 { RestakeAmounts(h, u, t); }
    hide Shape;
  }

  lemma CompoundedFrame(w: State, u: Address, t: Address, r: int)
    ensures Compounded(w, u, t, r) == w.(audit := Compounded(w, u, t, r).audit)
  {}

  lemma RestakeAmounts(h: State, u: Address, t: Address)
    ensures var w := Restake(h, u, t);
      && Stake(w, u) == Stake(h, u) + Reward(h, u, t) && w.totalStaked == h.totalStaked + Reward(h, u, t)
      && Reward(w, u, t) == 0 && w.balances == h.balances && w.pools == h.pools
  {
    hide Sync, AuditReset, Compounded;
    var g := h.(rewards := h.rewards[(u, t) := 0]);
    CompoundedFrame(Reweigh(g, u, Stake(h, u) + Reward(h, u, t)), u, t, Reward(h, u, t));
    ReweighFrame(g, u, Stake(h, u) + Reward(h, u, t));
    ReweighTotal(g, u, Stake(h, u) + Reward(h, u, t));
    hide Reweigh;
  }

  /** The settings: ratios must add up to the whole; a token is registered once, with an empty pool. */
  lemma SettingsExact(st: State, r: Ratios, t: Address, now: nat, on: bool, secs: nat)
    ensures Call(st, UpdateRatios(r)) == if r.stakersBps + r.governanceBps + r.treasuryBps == 10_000
                                         then Done(st.(ratios := r)) else Panic
    ensures Call(st, SetEmergency(on)) == Done(st.(emergency := on))
    ensures Call(st, SetInterval(secs)) == Done(st.(interval := secs))
    ensures Call(st, AddFeeToken(t, now)).Done?
    ensures var st' := DoAddToken(st, t, now);
      && (t in st.tokens ==> st' == st)
      && (t !in st.tokens ==> st'.tokens == st.tokens + [t])
      && (t !in st.tokens && t !in st.pools ==> st'.pools == st.pools[t := FeePool(0, 0, 0, 0, 0, now)])
  {
    hide DoCollect, DoDistribute, DoStake, DoUnstake, DoClaim, DoCompound;
  }

  /** An emergency withdrawal needs the emergency and takes no more than is held. */
  lemma WithdrawalExact(st: State, t: Address, amount: int)
    ensures DoEmergencyWithdraw(st, t, amount).Done? <==> st.emergency && 0 <= amount <= Get(st.balances, t)
    ensures DoEmergencyWithdraw(st, t, amount).Done? ==>
      DoEmergencyWithdraw(st, t, amount).st.balances == st.balances[t := Get(st.balances, t) - amount]
  {}

  lemma {:induction false} RoundEmpties(st: State, toks: seq<Address>, now: nat)
    requires DistributeEach(st, toks, now).Done?
    ensures var st' := DistributeEach(st, toks, now).st;
      && st'.pools.Keys == st.pools.Keys
      && (forall t :: t in toks && t in st'.pools ==> st'.pools[t].pending == 0)
      && (forall t :: t !in toks && t in st'.pools ==> st'.pools[t] == st.pools[t])
  {
    if toks == [] {
    } else {
      RoundEmpties(st, toks[..|toks| - 1], now);
      assert forall t :: t in toks <==> t in toks[..|toks| - 1] || t == toks[|toks| - 1];
    }
  }

  /** A round leaves nothing pending in the pools it names, leaves the others alone, and restarts the interval. */
  lemma RoundExact(st: State, toks: seq<Address>, now: nat)
    requires Call(st, Distribute(toks, now)).Done?
    ensures var st' := Call(st, Distribute(toks, now)).st; var all := if toks == [] then st.tokens else toks;
      && !st.emergency && st'.lastAuto == now
      && (forall t :: t in all && t in st'.pools ==> st'.pools[t].pending == 0)
      && (forall t :: t !in all && t in st.pools ==> t in st'.pools && st'.pools[t] == st.pools[t])
  {
    RoundEmpties(st, if toks == [] then st.tokens else toks, now);
    hide DistributeEach;
  }
}
