/** Single calls of the fee distributor against their views, vesting over whole histories, and the history that
    shows why solvency needs its slack. */
module FeeDistributionClaims {
  import opened Sums
  import opened Quotients
  import opened FeeDistribution
  import opened FeeDistributionInvariant
  import opened FeeDistributionTheorems

  // ---- Changing a stake ---------------------------------------------------------------------------------------

  /** Reweighing a harvested staker leaves every claim at its stored reward, with nothing live. */
  lemma ReweighOwed(h: State, u: Address, s: int, v: Address, t: Address)
    requires Shape(h) && s >= 0
    requires forall x :: x in h.pools ==> Debt(h, u, x) == Accrued(Stake(h, u), Acc(h, x))
    ensures Owed(Reweigh(h, u, s), v, t) == Owed(h, v, t)
    ensures Owed(Reweigh(h, u, s), u, t) == Reward(h, u, t)
  {
    ReweighAccounts(h, u, s);
    ReweighFrame(h, u, s);
    AccountAt(h, u, t);
    AccountAt(h, v, t);
    hide Shape, Reweigh;
  }

  lemma HarvestOwed(st: State, u: Address, v: Address, t: Address)
    requires Shape(st)
    ensures Owed(Harvest(st, u, st.tokens), v, t) == Owed(st, v, t)
  {
    HarvestEffect(st, u);
    hide Shape, Harvest, Accrued;
    assert AccountOk(Harvest(st, u, st.tokens), v, t);
  }

  /** Staking gives and takes no whole unit from anyone. In particular a first stake starts at zero, whatever
      was distributed before it. */
  lemma StakingIsNeutral(st: State, u: Address, amount: int, compound: bool, v: Address, t: Address)
    requires Shape(st) && DoStake(st, u, amount, compound).Done?
    ensures var st' := DoStake(st, u, amount, compound).st;
      && Stake(st', u) == Stake(st, u) + amount
      && Owed(st', v, t) == Owed(st, v, t)
      && (u !in st.stakes ==> Owed(st', u, t) == 0)
  {
    hide Shape, Reweigh, Accrued, AccrualGap, CustodyGap, AuditOk, Harvest;
    HarvestOwed(st, u, v, t);
    HarvestOwed(st, u, u, t);
    HarvestCarries(st, u);
    HarvestEffect(st, u);
    var h := Harvest(st, u, st.tokens);
    StakingDepositCarries(h, amount);
    StakeNonNegative(h, u);
    var d := Deposit(h, h.stakingToken, amount);
    ReweighOwed(d, u, Stake(d, u) + amount, v, t);
    ReweighFrame(d, u, Stake(d, u) + amount);
    StrangerOwedNothing(st, u, t);
    assert Owed(d, v, t) == Owed(h, v, t) && Reward(d, u, t) == Reward(h, u, t);
    assert u !in h.stakes ==> Owed(h, u, t) == 0;
    AccountAt(h, u, t);
    StrangerOwedNothing(h, u, t);
  }

  lemma StrangerOwedNothing(st: State, u: Address, t: Address)
    requires Shape(st)
    ensures u !in st.stakes ==> Owed(st, u, t) == 0 && Reward(st, u, t) == 0
  {
    AccountAt(st, u, t);
  }

  lemma UnstakingIsNeutral(st: State, u: Address, amount: int, v: Address, t: Address)
    requires Shape(st) && DoUnstake(st, u, amount).Done?
    ensures var st' := DoUnstake(st, u, amount).st;
      && Stake(st', u) == Stake(st, u) - amount
      && Owed(st', v, t) == Owed(st, v, t)
  {
    hide Shape, Reweigh, Accrued, AccrualGap, CustodyGap, AuditOk, Harvest;
    HarvestOwed(st, u, v, t);
    HarvestCarries(st, u);
    HarvestEffect(st, u);
    var h := Harvest(st, u, st.tokens);
    ReweighOwed(h, u, Stake(h, u) - amount, v, t);
    ReweighFrame(h, u, Stake(h, u) - amount);
  }

  // ---- Claims against the view ----------------------------------------------------------------------------------

  lemma HarvestStoresView(st: State, u: Address, t: Address)
    requires Shape(st)
    ensures var h := Harvest(st, u, st.tokens);
      Reward(h, u, t) == if Stake(st, u) == 0 then Reward(st, u, t) else PendingRewards(st, u, t)
  {
    HarvestEffect(st, u);
    AccountAt(st, u, t);
    var h := Harvest(st, u, st.tokens);
    assert AccountOk(h, u, t);
    hide Accrued;
    if Stake(st, u) != 0 && t !in st.pools {
      assert Reward(h, u, t) == 0;
    }
  }

  lemma RestakeReceived(h: State, u: Address, t: Address)
    ensures Get(Restake(h, u, t).audit.received, (u, t)) == Get(h.audit.received, (u, t)) + Reward(h, u, t)
    ensures Stake(Restake(h, u, t), u) == Stake(h, u) + Reward(h, u, t)
    ensures Restake(h, u, t).balances == h.balances
  {
    hide Reweigh;
    ReweighFrame(h.(rewards := h.rewards[(u, t) := 0]), u, Stake(h, u) + Reward(h, u, t));
  }

  /** A claim with stake takes exactly what the view reports, fails exactly when that is nothing (or cannot be
      paid), and either pays it out or adds it to the stake. A claim without stake takes the stored reward that
      the view hides, so view and claim agree exactly when there is stake. */
  lemma ClaimTakesView(st: State, u: Address, t: Address)
    requires Inv(st)
    ensures var due := if Stake(st, u) != 0 then PendingRewards(st, u, t) else Reward(st, u, t);
      && (DoClaim(st, u, t).Done? <==>
            !st.emergency && due != 0 && (Compounds(st, u) || due <= Get(st.balances, t)))
      && (DoClaim(st, u, t).Done? ==>
            var st' := DoClaim(st, u, t).st;
            var taken := Get(st'.audit.received, (u, t)) - Get(st.audit.received, (u, t));
            && taken == due
            && (taken == PendingRewards(st, u, t) <==> Stake(st, u) != 0)
            && Stake(st', u) == Stake(st, u) + (if Compounds(st, u) then taken else 0)
            && Get(st'.balances, t) == Get(st.balances, t) - (if Compounds(st, u) then 0 else taken))
  {
    InvShape(st);
    hide Inv, Shape, Harvest, Restake;
    HarvestStoresView(st, u, t);
    HarvestFrame(st, u);
    RestakeReceived(Harvest(st, u, st.tokens), u, t);
  }

  // ---- Vesting ----------------------------------------------------------------------------------------------------

  /** What a beneficiary may have taken by a given time. */
  function Releasable(v: Vesting, now: nat): int {
    if Elapsed(v, now) < v.cliff then 0 else Vested(v, now)
  }

  /** Nothing before the cliff, then never less than before, never more than the total, all of it at the end. */
  lemma ReleaseSchedule(v: Vesting, now: nat, later: nat)
    requires VestingOk(v) && now <= later
    ensures 0 <= Releasable(v, now) <= Releasable(v, later) <= v.totalAmount
    ensures now < v.startTime + v.cliff ==> Releasable(v, now) == 0
    ensures now >= v.startTime + v.duration ==> Releasable(v, now) == v.totalAmount
  {
    VestedBounds(v, now);
    VestedBounds(v, later);
    var a, b := Elapsed(v, now), Elapsed(v, later);
    if v.cliff <= a && b < v.duration {
      ProductMonotone(a, b, v.totalAmount);
      FloorMonotone(v.totalAmount * a, v.totalAmount * b, v.duration);
    }
  }

  /** The time of the last claim on a schedule that did not panic. */
  datatype LastClaim = Never | At(time: nat)

  function LastClaimIn(st: State, ops: seq<Op>, id: nat): LastClaim {
    if ops == [] then Never
    else
      var mid, op := Run(st, ops[..|ops| - 1]), ops[|ops| - 1];
      if op.ClaimVested? && op.id == id && Call(mid, op).Done? then At(op.now)
      else LastClaimIn(st, ops[..|ops| - 1], id)
  }

  /** No call touches an existing schedule except a successful claim on it, which brings it up to date. */
  lemma CallVestings(st: State, op: Op, id: nat)
    requires id < |st.vestings|
    ensures var st' := Settle(st, Call(st, op));
      && id < |st'.vestings|
      && st'.vestings[id] ==
           if op.ClaimVested? && op.id == id && Call(st, op).Done?
           then st.vestings[id].(claimedAmount := Releasable(st.vestings[id], op.now)) else st.vestings[id]
  {
    CallFrame(st, op, 0);
    hide DoStake, DoUnstake, DoClaim, DoCompound, DoCollect, DoDistribute, Vested;
  }

  /** However a beneficiary spaces the claims, the total taken is what was releasable at the last of them. */
  lemma {:induction false} TakenDependsOnLastClaim(st: State, ops: seq<Op>, id: nat)
    requires id < |st.vestings|
    ensures id < |Run(st, ops).vestings|
    ensures Run(st, ops).vestings[id] == match LastClaimIn(st, ops, id)
              case Never => st.vestings[id]
              case At(time) => st.vestings[id].(claimedAmount := Releasable(st.vestings[id], time))
  {
    hide Call;
    if ops == [] {
    } else {
      var init := ops[..|ops| - 1];
      TakenDependsOnLastClaim(st, init, id);
      CallVestings(Run(st, init), ops[|ops| - 1], id);
    }
  }
}
