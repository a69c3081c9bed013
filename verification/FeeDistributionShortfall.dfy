/** A history after which two honest stakers cannot both be paid: without its slack, solvency is false. */
module FeeDistributionShortfall {
  import opened Sums
  import opened FeeDistribution
  import opened FeeDistributionInvariant
  import opened FeeDistributionTheorems

  const STAKING: Address := 0
  const FEE: Address := 1
  const ANN: Address := 10
  const BEN: Address := 11
  const ALL_TO_STAKERS := Ratios(BPS_DENOM, 0, 0)

  /** Each stakes two units; when half a unit per unit staked has accrued, each stakes a third one. */
  const HISTORY: seq<Op> := [
    AddFeeToken(FEE, 0),
    StakeForFees(ANN, 2, false), StakeForFees(BEN, 2, false),
    Collect(FEE, 2, 0), Distribute([FEE], 0),
    StakeForFees(ANN, 1, false), StakeForFees(BEN, 1, false),
    Collect(FEE, 3, 0), Distribute([FEE], 0)]

  /** One pool, no automatic distribution, every fee to the stakers. */
  ghost predicate Plain(s: State) {
    s.tokens == [FEE] && s.stakingToken == STAKING && s.ratios == ALL_TO_STAKERS
    && !s.emergency && s.interval == 0 && FEE in s.pools
    && !Compounds(s, ANN) && !Compounds(s, BEN)
  }

  ghost predicate Holds(s: State, u: Address, stake: int, debt: int, reward: int) {
    Stake(s, u) == stake && Debt(s, u, FEE) == debt && Reward(s, u, FEE) == reward
  }

  ghost predicate Pool(s: State, acc: int, pending: int, total: int, balance: int) {
    Plain(s) && s.pools[FEE].accFeePerShare == acc && s.pools[FEE].pending == pending
    && s.totalStaked == total && Get(s.balances, FEE) == balance
  }

  lemma Unfold(st: State, u: Address, s: int)
    requires st.tokens == [FEE]
    ensures Harvest(st, u, [FEE]) == if Stake(st, u) == 0 then st else HarvestOne(st, u, FEE)
    ensures Sync(st, u, s, [FEE]) == SyncOne(st, u, s, FEE)
  {
    assert [FEE][..0] == [];
    assert HarvestEach(st, u, []) == st;
    assert Sync(st, u, s, []) == st;
  }

  lemma HarvestStep(s: State, u: Address, acc: int, total: int, balance: int, stake: int, debt: int, reward: int)
    requires Pool(s, acc, 0, total, balance) && Holds(s, u, stake, debt, reward)
    requires 0 <= debt <= Accrued(stake, acc)
    ensures var h := Harvest(s, u, s.tokens);
      && Pool(h, acc, 0, total, balance)
      && Holds(h, u, stake, Accrued(stake, acc), reward + Accrued(stake, acc) - debt)
      && forall v :: v != u ==> Holds(h, v, Stake(s, v), Debt(s, v, FEE), Reward(s, v, FEE))
  {
    hide Accrued, HarvestEach;
    ZeroStake(acc);
    Unfold(s, u, 0);
  }

  lemma ReweighStep(h: State, u: Address, s: int, acc: int, total: int, balance: int)
    requires Pool(h, acc, 0, total, balance)
    ensures var w := Reweigh(h, u, s);
      && Pool(w, acc, 0, total + s - Stake(h, u), balance)
      && Holds(w, u, s, Accrued(s, acc), Reward(h, u, FEE))
      && forall v :: v != u ==> Holds(w, v, Stake(h, v), Debt(h, v, FEE), Reward(h, v, FEE))
  {
    hide Accrued, AuditReset, Sync;
    Unfold(h.(stakes := h.stakes[u := s]), u, s);
  }

  lemma StakeStep(s: State, u: Address, amount: int, acc: int, total: int, balance: int,
                  stake: int, debt: int, reward: int)
    requires Pool(s, acc, 0, total, balance) && Holds(s, u, stake, debt, reward) && amount > 0
    requires 0 <= debt <= Accrued(stake, acc)
    ensures var s' := Settle(s, Call(s, StakeForFees(u, amount, false)));
      && Pool(s', acc, 0, total + amount, balance)
      && Holds(s', u, stake + amount, Accrued(stake + amount, acc), reward + Accrued(stake, acc) - debt)
      && forall v :: v != u ==> Holds(s', v, Stake(s, v), Debt(s, v, FEE), Reward(s, v, FEE))
  {
    hide Accrued, Harvest, Reweigh;
    HarvestStep(s, u, acc, total, balance, stake, debt, reward);
    var d := Deposit(Harvest(s, u, s.tokens), s.stakingToken, amount);
    ReweighStep(d, u, stake + amount, acc, total, balance);
    var w := Reweigh(d, u, stake + amount);
    var s' := Settle(s, Call(s, StakeForFees(u, amount, false)));
    forall v | v != u ensures Holds(s', v, Stake(s, v), Debt(s, v, FEE), Reward(s, v, FEE)) {
      assert Holds(Harvest(s, u, s.tokens), v, Stake(s, v), Debt(s, v, FEE), Reward(s, v, FEE));
      assert Holds(w, v, Stake(d, v), Debt(d, v, FEE), Reward(d, v, FEE));
    }
  }

  lemma ZeroStake(acc: int)
    ensures Accrued(0, acc) == 0
  {}

  lemma FeeStep(s: State, amount: int, acc: int, total: int, balance: int)
    requires Pool(s, acc, 0, total, balance) && amount > 0 && total > 0
    ensures var c := Settle(s, Call(s, Collect(FEE, amount, 0)));
      var s' := Settle(c, Call(c, Distribute([FEE], 0)));
      && Pool(s', acc + amount * PRECISION / total, 0, total, balance + amount)
      && forall v :: Holds(s', v, Stake(s, v), Debt(s, v, FEE), Reward(s, v, FEE))
  {
    var c := PaidIn(s, FEE, amount);
    assert Call(s, Collect(FEE, amount, 0)) == Done(c);
    assert [FEE][..0] == [];
    assert DistributeEach(c, [], 0) == Done(c);
    assert DistributeEach(c, [FEE], 0) == DistributeOne(c, FEE, 0);
    assert StakersCut(c, FEE) == amount && GovernanceCut(c, FEE) == 0;
  }

  lemma {:induction false} RunOn(st: State, ops: seq<Op>, op: Op)
    ensures Run(st, ops + [op]) == Settle(Run(st, ops), Call(Run(st, ops), op))
  {
    assert (ops + [op])[..|ops|] == ops;
  }

  lemma Opening()
    ensures var s := Run(Init(STAKING, ALL_TO_STAKERS), HISTORY[..1]);
      Pool(s, 0, 0, 0, 0) && Holds(s, ANN, 0, 0, 0) && Holds(s, BEN, 0, 0, 0)
  {
    var start := Init(STAKING, ALL_TO_STAKERS);
    assert HISTORY[..1] == [] + [HISTORY[0]];
    RunOn(start, [], HISTORY[0]);
  }

  lemma Advance(n: nat)
    requires n < |HISTORY|
    ensures var start := Init(STAKING, ALL_TO_STAKERS);
      Run(start, HISTORY[..n + 1]) == Settle(Run(start, HISTORY[..n]), Call(Run(start, HISTORY[..n]), HISTORY[n]))
  {
    assert HISTORY[..n + 1] == HISTORY[..n] + [HISTORY[n]];
    RunOn(Init(STAKING, ALL_TO_STAKERS), HISTORY[..n], HISTORY[n]);
  }

  lemma Figures()
    ensures Accrued(0, 0) == Accrued(2, 0) == 0 && Accrued(2, PRECISION / 2) == 1 && Accrued(3, PRECISION / 2) == 1
    ensures 2 * PRECISION / 4 == PRECISION / 2 && PRECISION / 2 + 3 * PRECISION / 6 == PRECISION
  {}

  lemma Middle()
    ensures var s := Run(Init(STAKING, ALL_TO_STAKERS), HISTORY[..5]);
      Pool(s, PRECISION / 2, 0, 4, 2) && Holds(s, ANN, 2, 0, 0) && Holds(s, BEN, 2, 0, 0)
  {
    hide Run, Call, Pool, Accrued;
    var start := Init(STAKING, ALL_TO_STAKERS);
    Figures();
    Opening();
    StakeStep(Run(start, HISTORY[..1]), ANN, 2, 0, 0, 0, 0, 0, 0);
    Advance(1);
    StakeStep(Run(start, HISTORY[..2]), BEN, 2, 0, 2, 0, 0, 0, 0);
    Advance(2);
    FeeStep(Run(start, HISTORY[..3]), 2, 0, 4, 0);
    Advance(3);
    Advance(4);
  }

  lemma Ending()
    ensures var s := Run(Init(STAKING, ALL_TO_STAKERS), HISTORY);
      Pool(s, PRECISION, 0, 6, 5) && Holds(s, ANN, 3, 1, 1) && Holds(s, BEN, 3, 1, 1)
  {
    hide Run, Call, Pool, Accrued;
    var start := Init(STAKING, ALL_TO_STAKERS);
    Figures();
    Middle();
    StakeStep(Run(start, HISTORY[..5]), ANN, 1, PRECISION / 2, 4, 2, 2, 0, 0);
    Advance(5);
    StakeStep(Run(start, HISTORY[..6]), BEN, 1, PRECISION / 2, 5, 2, 2, 0, 0);
    Advance(6);
    FeeStep(Run(start, HISTORY[..7]), 3, PRECISION / 2, 6, 2);
    Advance(7);
    Advance(8);
    assert HISTORY[..9] == HISTORY;
  }

  /** Both views report three units, the contract holds five, and once one staker has been paid the other's claim
      panics, although five units were distributed to them in all. */
  lemma OneUnitShort()
    ensures var s := Run(Init(STAKING, ALL_TO_STAKERS), HISTORY);
      && PendingRewards(s, ANN, FEE) == 3 && PendingRewards(s, BEN, FEE) == 3
      && Get(s.balances, FEE) == 5
      && DoClaim(s, ANN, FEE).Done?
      && DoClaim(DoClaim(s, ANN, FEE).st, BEN, FEE).Panic?
  {
    Ending();
    hide Run;
    var s := Run(Init(STAKING, ALL_TO_STAKERS), HISTORY);
    ClaimStep(s, ANN);
    ClaimStep(DoClaim(s, ANN, FEE).st, BEN);
  }

  lemma ClaimStep(s: State, u: Address)
    requires Plain(s) && !Compounds(s, u) && Holds(s, u, 3, 1, 1) && s.pools[FEE].accFeePerShare == PRECISION
    ensures DoClaim(s, u, FEE).Done? <==> Get(s.balances, FEE) >= 3
    ensures DoClaim(s, u, FEE).Done? ==>
              var s' := DoClaim(s, u, FEE).st;
              && Plain(s') && s'.pools == s.pools && Get(s'.balances, FEE) == Get(s.balances, FEE) - 3
              && forall v :: v != u ==> Holds(s', v, Stake(s, v), Debt(s, v, FEE), Reward(s, v, FEE))
  {
    hide HarvestEach;
    Unfold(s, u, 0);
    assert Accrued(3, PRECISION) == 3;
    hide Accrued;
  }

  // ---- A reward the view hides ------------------------------------------------------------------------------------

  /** One staker earns two units and unstakes everything. */
  const LEAVING: seq<Op> := [
    AddFeeToken(FEE, 0), StakeForFees(ANN, 2, false), Collect(FEE, 2, 0), Distribute([FEE], 0), Unstake(ANN, 2)]

  lemma UnstakeStep(s: State, u: Address, amount: int, acc: int, total: int, balance: int,
                    stake: int, debt: int, reward: int)
    requires Pool(s, acc, 0, total, balance) && Holds(s, u, stake, debt, reward) && 0 < amount <= stake
    requires 0 <= debt <= Accrued(stake, acc) && amount <= Get(s.balances, s.stakingToken)
    ensures var s' := Settle(s, Call(s, Op.Unstake(u, amount)));
      && Pool(s', acc, 0, total - amount, balance)
      && Holds(s', u, stake - amount, Accrued(stake - amount, acc), reward + Accrued(stake, acc) - debt)
  {
    hide Accrued, Harvest, Reweigh;
    HarvestStep(s, u, acc, total, balance, stake, debt, reward);
    HarvestFrame(s, u);
    var h := Harvest(s, u, s.tokens);
    ReweighStep(h, u, stake - amount, acc, total, balance);
    ReweighFrame(h, u, stake - amount);
  }

  lemma Leaving(n: nat)
    requires n < |LEAVING|
    ensures var start := Init(STAKING, ALL_TO_STAKERS);
      Run(start, LEAVING[..n + 1]) == Settle(Run(start, LEAVING[..n]), Call(Run(start, LEAVING[..n]), LEAVING[n]))
  {
    assert LEAVING[..n + 1] == LEAVING[..n] + [LEAVING[n]];
    RunOn(Init(STAKING, ALL_TO_STAKERS), LEAVING[..n], LEAVING[n]);
  }

  lemma StakedBalance(s: State, u: Address, amount: int)
    requires Plain(s) && amount > 0
    ensures Get(Settle(s, Call(s, StakeForFees(u, amount, false))).balances, STAKING)
            == Get(s.balances, STAKING) + amount
  {
    hide Harvest, Reweigh;
    HarvestFrame(s, u);
    var h := Deposit(Harvest(s, u, s.tokens), s.stakingToken, amount);
    ReweighFrame(h, u, Stake(h, u) + amount);
  }

  lemma FeeBalance(s: State, amount: int)
    requires Plain(s) && amount > 0 && s.pools[FEE].pending == 0
    ensures var c := Settle(s, Call(s, Collect(FEE, amount, 0)));
      Get(Settle(c, Call(c, Distribute([FEE], 0))).balances, STAKING) == Get(s.balances, STAKING)
  {
    var c := PaidIn(s, FEE, amount);
    assert Call(s, Collect(FEE, amount, 0)) == Done(c);
    assert [FEE][..0] == [];
    assert DistributeEach(c, [], 0) == Done(c);
    assert DistributeEach(c, [FEE], 0) == DistributeOne(c, FEE, 0);
    assert StakersCut(c, FEE) == amount && GovernanceCut(c, FEE) == 0;
  }

  lemma Opened()
    ensures var s := Run(Init(STAKING, ALL_TO_STAKERS), LEAVING[..1]);
      Pool(s, 0, 0, 0, 0) && Holds(s, ANN, 0, 0, 0) && Get(s.balances, STAKING) == 0
  {
    assert LEAVING[..1] == HISTORY[..1] == [] + [LEAVING[0]];
    Opening();
    RunOn(Init(STAKING, ALL_TO_STAKERS), [], LEAVING[0]);
  }

  lemma Joined()
    ensures var s := Run(Init(STAKING, ALL_TO_STAKERS), LEAVING[..2]);
      Pool(s, 0, 0, 2, 0) && Holds(s, ANN, 2, 0, 0) && Get(s.balances, STAKING) == 2
  {
    Opened();
    Leaving(1);
    Figures();
    var s1 := Run(Init(STAKING, ALL_TO_STAKERS), LEAVING[..1]);
    hide Run, Call, Accrued;
    StakedBalance(s1, ANN, 2);
    StakeStep(s1, ANN, 2, 0, 0, 0, 0, 0, 0);
  }

  lemma Earned()
    ensures var s := Run(Init(STAKING, ALL_TO_STAKERS), LEAVING[..4]);
      Pool(s, PRECISION, 0, 2, 2) && Holds(s, ANN, 2, 0, 0) && Get(s.balances, STAKING) == 2
  {
    var start := Init(STAKING, ALL_TO_STAKERS);
    Joined();
    Leaving(2);
    Leaving(3);
    hide Run, Call;
    FeeBalance(Run(start, LEAVING[..2]), 2);
    FeeStep(Run(start, LEAVING[..2]), 2, 0, 2, 0);
  }

  lemma Left()
    ensures var s := Run(Init(STAKING, ALL_TO_STAKERS), LEAVING);
      Pool(s, PRECISION, 0, 0, 2) && Holds(s, ANN, 0, 0, 2)
  {
    Earned();
    Leaving(4);
    assert LEAVING[..5] == LEAVING;
    assert Accrued(2, PRECISION) == 2 && Accrued(0, PRECISION) == 0;
    hide Run, Call, Accrued;
    UnstakeStep(Run(Init(STAKING, ALL_TO_STAKERS), LEAVING[..4]), ANN, 2, PRECISION, 2, 2, 2, 0, 0);
  }

  /** The view reports nothing to a staker who has left, and a claim then pays two units. */
  lemma ViewHidesReward()
    ensures var s := Run(Init(STAKING, ALL_TO_STAKERS), LEAVING);
      && PendingRewards(s, ANN, FEE) == 0
      && DoClaim(s, ANN, FEE).Done?
      && Get(DoClaim(s, ANN, FEE).st.balances, FEE) == Get(s.balances, FEE) - 2
  {
    Left();
    var s := Run(Init(STAKING, ALL_TO_STAKERS), LEAVING);
    hide Run, HarvestEach;
  }
}
