/** What stakers and claimants of the insurance pool can rely on over whole histories. */
module InsurancePoolTheorems {
  import opened Sums
  import opened Quotients
  import opened InsurancePool
  import opened InsurancePoolInvariant

  // ---- Premiums ---------------------------------------------------------------------------------------------------

  /** Premium a staker has claimed, has accrued, and could accrue by syncing now. */
  ghost function Earned(pos: Position, acc: int): int {
    pos.claimedPremium + pos.accruedPremium + RewardDebt(pos.staked, acc) - pos.rewardDebt
  }

  ghost function EarnedAll(st: State, p: PoolId): map<(Address, PoolId), int> requires p in st.pools {
    map k | k in st.positions && k.1 == p :: Earned(st.positions[k], st.pools[p].acc)
  }

  ghost function Fractions(st: State, p: PoolId): map<(Address, PoolId), int> requires p in st.pools {
    map k | k in st.positions && k.1 == p :: Fraction(st.positions[k].staked, st.pools[p].acc)
  }

  lemma PremiumSplit(st: State, p: PoolId)
    requires p in st.pools
    ensures Total(st.positions, p, Premium(st.pools[p].acc))
            == REWARD_SCALE * Sum(EarnedAll(st, p)) + Sum(Fractions(st, p))
    ensures Sum(Fractions(st, p)) >= 0
  {
    var whole := Column(st.positions, p, Premium(st.pools[p].acc));
    forall k | k in whole
      ensures whole[k] == Fractions(st, p)[k] + REWARD_SCALE * EarnedAll(st, p)[k] && Fractions(st, p)[k] >= 0
    {
      SplitProduct(st.positions[k].staked, st.pools[p].acc);
    }
    SumLinear(Fractions(st, p), EarnedAll(st, p), whole, REWARD_SCALE);
    SumNonNegative(Fractions(st, p));
  }

  /** The call completes and resets a position's debt in pool p: a stake, a withdrawal request or a rejection. */
  predicate ResetsDebt(st: State, op: Op, p: PoolId) {
    Call(st, op).Done?
    && match op
       case StakeLiquidity(_, q, _) => q == p
       case RequestWithdrawal(_, q, _, _) => q == p
       case VerifyClaim(id, valid, _) => !valid && st.claims[id].pool == p
       case _ => false
  }

  /** How often a run reset a debt in pool p. */
  function DebtResets(st: State, ops: seq<Op>, p: PoolId): nat {
    if ops == [] then 0
    else
      var init := ops[..|ops| - 1];
      DebtResets(st, init, p) + if ResetsDebt(Run(st, init), ops[|ops| - 1], p) then 1 else 0
  }

  lemma CallResets(st: State, op: Op, p: PoolId)
    ensures Get(Settle(st, Call(st, op)).audit.resets, p)
            == Get(st.audit.resets, p) + if ResetsDebt(st, op, p) then 1 else 0
  {
    hide RewardDebt, Fraction, SyncRewards;
  }

  /** The audit counts the debt resets of a run, no more and no fewer. */
  lemma {:induction false} RunResets(admin: Address, ops: seq<Op>, p: PoolId)
    ensures Get(Run(Init(admin), ops).audit.resets, p) == DebtResets(Init(admin), ops, p)
  {
    hide Call, ResetsDebt;
    if ops == [] {
    } else {
      var init := ops[..|ops| - 1];
      RunResets(admin, init, p);
      CallResets(Run(Init(admin), init), ops[|ops| - 1], p);
    }
  }

  /** On every history, all premium ever claimed, accrued or claimable in a pool is at most the premium collected
      there plus one unit per debt reset made there. */
  lemma PremiumsCovered(admin: Address, ops: seq<Op>, p: PoolId)
    requires p in Run(Init(admin), ops).pools
    ensures var st := Run(Init(admin), ops);
      Sum(EarnedAll(st, p)) <= st.pools[p].premiumCollected + DebtResets(Init(admin), ops, p)
  {
    var st := Run(Init(admin), ops);
    RunInv(admin, ops);
    RunResets(admin, ops, p);
    hide Run, Shape, EarnedAll, Fractions, Total, LedgerLaw, QueueLaw, DebtResets;
    assert PoolLaws(st, p);
    PremiumSplit(st, p);
  }

  /** The exact balance behind the bound: premiums cover what stakers earned exactly when debt resets created no
      more than the fractions and the dust still outstanding. */
  lemma PremiumSurplus(admin: Address, ops: seq<Op>, p: PoolId)
    requires p in Run(Init(admin), ops).pools
    ensures var st := Run(Init(admin), ops);
      var kept := Sum(Fractions(st, p)) + Get(st.audit.dust, p);
      && REWARD_SCALE * (st.pools[p].premiumCollected - Sum(EarnedAll(st, p))) == kept - Get(st.audit.gained, p)
      && (Sum(EarnedAll(st, p)) <= st.pools[p].premiumCollected <==> Get(st.audit.gained, p) <= kept)
  {
    var st := Run(Init(admin), ops);
    RunInv(admin, ops);
    hide Run, Shape, EarnedAll, Fractions, Total, LedgerLaw, QueueLaw;
    assert PoolLaws(st, p);
    PremiumSplit(st, p);
  }

  /** A premium claim pays exactly the accrued and live premium and leaves what was earned unchanged. */
  lemma ClaimPremiumExact(st: State, u: Address, p: PoolId)
    requires Inv(st) && p in st.pools
    ensures DoClaimPremium(st, u, p).Done?
    ensures var before := Load(st.positions, u, p);
      var after := Load(DoClaimPremium(st, u, p).st.positions, u, p);
      && after.claimedPremium - before.claimedPremium == Earned(before, st.pools[p].acc) - before.claimedPremium
      && Earned(after, st.pools[p].acc) == Earned(before, st.pools[p].acc) == after.claimedPremium
  {
    PositionOf(st, u, p);
    hide Inv, Shape, Records;
    RestakedEffect(st.pools[p], Load(st.positions, u, p), Load(st.positions, u, p).staked);
  }

  // ---- The ledger -------------------------------------------------------------------------------------------------

  /** On every history and for every pool: liquidity plus payouts equals stakes plus queue; stakes and queue are the
      sums of the positions; each position's queue is the sum of its unclaimed requests; payouts are the sum of the
      paid claims, each counted once. */
  lemma PoolLedger(admin: Address, ops: seq<Op>, p: PoolId, u: Address)
    requires p in Run(Init(admin), ops).pools
    ensures var st := Run(Init(admin), ops);
      && LedgerLaw(st, p)
      && Load(st.positions, u, p).pendingWithdrawal == SumSeq(Unclaimed(st.requests, u, p))
  {
    RunInv(admin, ops);
    var st := Run(Init(admin), ops);
    hide Run, LedgerLaw, PremiumLaw, Shape;
    assert PoolLaws(st, p) && QueueLaw(st, u, p);
  }

  /** An owner's matured, unclaimed request is blocked only by a shortage of total liquidity: the queue always
      covers it, so the two mismatch panics cannot occur. */
  lemma WithdrawalOnlyNeedsLiquidity(st: State, u: Address, p: PoolId, id: nat, now: nat)
    requires Inv(st) && id < |st.requests|
    requires st.requests[id].staker == u && st.requests[id].pool == p && !st.requests[id].claimed
    ensures p in st.pools
    ensures st.requests[id].amount <= Load(st.positions, u, p).pendingWithdrawal <= st.pools[p].queuedWithdrawals
    ensures DoExecute(st, u, p, id, now).Done? <==>
              now >= st.requests[id].unlockTime && st.pools[p].totalLiquidity >= st.requests[id].amount
  {
    assert st.requests[id] in st.requests;
    PartOfTotal(st, u, p);
    assert QueueLaw(st, u, p);
    RequestsArePositive(st);
    hide Inv, Shape, PoolLaws;
    var waiting := Unclaimed(st.requests, u, p);
    assert waiting[id] == st.requests[id].amount;
    forall i | 0 <= i < |waiting| ensures waiting[i] >= 0 {
      assert st.requests[i] in st.requests;
    }
    SumSeqNonNegative(waiting);
  }

  lemma RequestsArePositive(st: State)
    requires Inv(st)
    ensures forall r :: r in st.requests ==> r.amount > 0
  {}

  /** A claimed request stays claimed, so no request is executed twice. */
  lemma RequestsSettleOnce(st: State, op: Op, id: nat)
    requires id < |st.requests|
    ensures var st' := Settle(st, Call(st, op));
      && id < |st'.requests|
      && st'.requests[id] == st.requests[id].(claimed := st'.requests[id].claimed)
      && (st.requests[id].claimed ==> st'.requests[id].claimed)
      && (st'.requests[id].claimed && !st.requests[id].claimed ==>
            op.ExecuteWithdrawal? && op.id == id && op.u == st.requests[id].staker
            && op.now >= st.requests[id].unlockTime)
  {
    hide RewardDebt, Fraction, SyncRewards;
  }

  // ---- The life of a claim ----------------------------------------------------------------------------------------

  /** How far a claim is along its only path: submitted, verified, approved, then rejected or paid for good. */
  function Stage(s: ClaimStatus): nat {
    match s case Submitted => 0 case Verified => 1 case Approved => 2 case Rejected => 3 case Paid => 3
  }

  ghost predicate Follows(a: Claim, b: Claim) {
    && b.claimant == a.claimant && b.pool == a.pool && b.amount == a.amount
    && a.approvals <= b.approvals
    && Stage(a.status) <= Stage(b.status)
    && (Stage(a.status) == 3 ==> b == a)
    && (b.status == Paid ==> a.status in {Verified, Approved, Submitted, Paid})
  }

  lemma CallFollows(st: State, op: Op, id: nat)
    requires id < |st.claims|
    ensures var st' := Settle(st, Call(st, op)); id < |st'.claims| && Follows(st.claims[id], st'.claims[id])
    ensures var b := Settle(st, Call(st, op)).claims[id].status;
      b == Paid && st.claims[id].status != Paid ==>
        st.claims[id].status == Approved && op == ExecutePayout(id)
  {
    hide RewardDebt, Fraction, SyncRewards;
  }

  /** Over any further history a claim keeps its terms, only gains approvals and stages, and is never changed again
      once it has been rejected or paid. */
  lemma {:induction false} RunFollows(st: State, ops: seq<Op>, id: nat)
    requires id < |st.claims|
    ensures id < |Run(st, ops).claims| && Follows(st.claims[id], Run(st, ops).claims[id])
  {
    hide Call;
    if ops == [] {
    } else {
      var init := ops[..|ops| - 1];
      RunFollows(st, init, id);
      CallFollows(Run(st, init), ops[|ops| - 1], id);
    }
  }

  /** A payout happens only to a claim that is approved at that moment, moves exactly its amount, and was approved by
      at least one approver, no approver counting twice. */
  lemma PayoutExact(st: State, id: nat)
    requires Inv(st) && DoPayout(st, id).Done?
    ensures var c, st' := st.claims[id], DoPayout(st, id).st; var p := c.pool;
      && c.status == Approved && st'.claims[id].status == Paid
      && c.approvals != [] && (forall i, j :: 0 <= i < j < |c.approvals| ==> c.approvals[i] != c.approvals[j])
      && SumSeq(Payouts(st'.claims, p)) == SumSeq(Payouts(st.claims, p)) + c.amount
      && st'.pools[p].totalLiquidity == st.pools[p].totalLiquidity - c.amount >= 0
      && st'.pools[p].activeCoverage == st.pools[p].activeCoverage - c.amount >= 0
      && DoPayout(st', id).Panic?
  {
    ClaimAt(st, id);
    hide Inv, Records;
    PayoutsPut(st.claims, id, st.claims[id].(status := Paid), st.claims[id].pool);
  }

  // ---- The path to a payout ---------------------------------------------------------------------------------------

  predicate Accepted(s: ClaimStatus) { s == Approved || s == Paid }

  /** Call i of the run approved the claim: a listed approver signed a verified claim, and with that signature it had at
      least the threshold then in force, all by different signers. */
  ghost predicate ApprovedAt(st: State, ops: seq<Op>, id: nat, i: nat) {
    i < |ops| && ops[i].ApproveClaim? && ops[i].id == id
    && var s := Run(st, ops[..i]);
       id < |s.claims| && s.claims[id].status == Verified && ops[i].approver in s.approvers
       && var signed := s.claims[id].approvals + [ops[i].approver];
          |signed| >= s.threshold >= 1 && forall j, k :: 0 <= j < k < |signed| ==> signed[j] != signed[k]
  }

  lemma BecomesAccepted(st: State, op: Op, id: nat)
    requires Inv(st) && id < |Settle(st, Call(st, op)).claims| && Accepted(Settle(st, Call(st, op)).claims[id].status)
    requires id < |st.claims| ==> !Accepted(st.claims[id].status)
    ensures op.ApproveClaim? && op.id == id && ApprovedAt(st, [op], id, 0)
  {
    assert [op][..0] == [] && Run(st, []) == st;
    if id < |st.claims| { ClaimAt(st, id); }
    hide Run, PoolLaws, QueueLaw, RewardDebt, Fraction, SyncRewards;
  }

  /** Every approved or paid claim of every run was approved by such a call. */
  lemma {:induction false} ApprovalTrail(admin: Address, ops: seq<Op>, id: nat) returns (i: nat)
    requires id < |Run(Init(admin), ops).claims| && Accepted(Run(Init(admin), ops).claims[id].status)
    ensures ApprovedAt(Init(admin), ops, id, i)
  {
    hide Call;
    var start, n := Init(admin), |ops| - 1;
    var init, s := ops[..n], Run(start, ops[..n]);
    if id < |s.claims| && Accepted(s.claims[id].status) {
      i := ApprovalTrail(admin, init, id);
      assert init[..i] == ops[..i];
    } else {
      i := n;
      RunInv(admin, init);
      BecomesAccepted(s, ops[n], id);
      assert [ops[n]][..0] == [] && Run(s, []) == s;
    }
  }
}
