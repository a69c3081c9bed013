/** The pool ledger and the premium law of the insurance pool, kept by every call. */
module InsurancePoolInvariant {
  import opened Sums
  import opened Quotients
  import opened InsurancePool

  // ---- Columns of the position table ------------------------------------------------------------------------------

  /** What a position contributes to a total over all stakers of a pool. */
  datatype Measure = Staked | Queued | Premium(acc: int)

  function Weigh(m: Measure, pos: Position): int {
    match m
    case Staked => pos.staked
    case Queued => pos.pendingWithdrawal
    case Premium(acc) => REWARD_SCALE * (pos.accruedPremium + pos.claimedPremium - pos.rewardDebt) + pos.staked * acc
  }

  ghost function Column(ps: map<(Address, PoolId), Position>, p: PoolId, m: Measure): map<(Address, PoolId), int> {
    map k | k in ps && k.1 == p :: Weigh(m, ps[k])
  }

  ghost function Total(ps: map<(Address, PoolId), Position>, p: PoolId, m: Measure): int { Sum(Column(ps, p, m)) }

  lemma TotalPut(ps: map<(Address, PoolId), Position>, u: Address, p: PoolId, pos: Position, m: Measure)
    ensures Total(ps[(u, p) := pos], p, m) == Total(ps, p, m) - Weigh(m, Load(ps, u, p)) + Weigh(m, pos)
  {
    assert Column(ps[(u, p) := pos], p, m) == Column(ps, p, m)[(u, p) := Weigh(m, pos)];
    SumPut(Column(ps, p, m), (u, p), Weigh(m, pos));
    EmptyWeighsNothing(m);
  }

  lemma EmptyWeighsNothing(m: Measure)
    ensures Weigh(m, Empty) == 0
  {}

  lemma TotalOther(ps: map<(Address, PoolId), Position>, u: Address, p: PoolId, pos: Position, q: PoolId, m: Measure)
    requires q != p
    ensures Total(ps[(u, p) := pos], q, m) == Total(ps, q, m)
  {
    assert Column(ps[(u, p) := pos], q, m) == Column(ps, q, m);
  }

  // ---- Requests and claims ----------------------------------------------------------------------------------------

  function Waiting(r: Request, u: Address, p: PoolId): int {
    if r.staker == u && r.pool == p && !r.claimed then r.amount else 0
  }

  ghost function Unclaimed(rs: seq<Request>, u: Address, p: PoolId): seq<int> {
    seq(|rs|, i requires 0 <= i < |rs| => Waiting(rs[i], u, p))
  }

  function PaidFrom(c: Claim, p: PoolId): int { if c.status == Paid && c.pool == p then c.amount else 0 }
  function PaidOne(c: Claim, p: PoolId): int { if c.status == Paid && c.pool == p then 1 else 0 }

  ghost function Payouts(cs: seq<Claim>, p: PoolId): seq<int> {
    seq(|cs|, i requires 0 <= i < |cs| => PaidFrom(cs[i], p))
  }

  ghost function PayoutCount(cs: seq<Claim>, p: PoolId): seq<int> {
    seq(|cs|, i requires 0 <= i < |cs| => PaidOne(cs[i], p))
  }

  lemma UnclaimedAppend(rs: seq<Request>, r: Request, u: Address, p: PoolId)
    ensures SumSeq(Unclaimed(rs + [r], u, p)) == SumSeq(Unclaimed(rs, u, p)) + Waiting(r, u, p)
  {
    assert Unclaimed(rs + [r], u, p) == Unclaimed(rs, u, p) + [Waiting(r, u, p)];
    SumSeqAppend(Unclaimed(rs, u, p), Waiting(r, u, p));
  }

  lemma UnclaimedPut(rs: seq<Request>, i: nat, r: Request, u: Address, p: PoolId)
    requires i < |rs|
    ensures SumSeq(Unclaimed(rs[i := r], u, p)) == SumSeq(Unclaimed(rs, u, p)) - Waiting(rs[i], u, p) + Waiting(r, u, p)
  {
    assert Unclaimed(rs[i := r], u, p) == Unclaimed(rs, u, p)[i := Waiting(r, u, p)];
    SumSeqPut(Unclaimed(rs, u, p), i, Waiting(r, u, p));
  }

  /** A claim list changes at the end or in one place; the payout totals follow. */
  lemma PayoutsAppend(cs: seq<Claim>, c: Claim, p: PoolId)
    ensures SumSeq(Payouts(cs + [c], p)) == SumSeq(Payouts(cs, p)) + PaidFrom(c, p)
    ensures SumSeq(PayoutCount(cs + [c], p)) == SumSeq(PayoutCount(cs, p)) + PaidOne(c, p)
  {
    assert Payouts(cs + [c], p) == Payouts(cs, p) + [PaidFrom(c, p)];
    assert PayoutCount(cs + [c], p) == PayoutCount(cs, p) + [PaidOne(c, p)];
    SumSeqAppend(Payouts(cs, p), PaidFrom(c, p));
    SumSeqAppend(PayoutCount(cs, p), PaidOne(c, p));
  }

  lemma PayoutsPut(cs: seq<Claim>, i: nat, c: Claim, p: PoolId)
    requires i < |cs|
    ensures SumSeq(Payouts(cs[i := c], p)) == SumSeq(Payouts(cs, p)) - PaidFrom(cs[i], p) + PaidFrom(c, p)
    ensures SumSeq(PayoutCount(cs[i := c], p)) == SumSeq(PayoutCount(cs, p)) - PaidOne(cs[i], p) + PaidOne(c, p)
  {
    assert Payouts(cs[i := c], p) == Payouts(cs, p)[i := PaidFrom(c, p)];
    assert PayoutCount(cs[i := c], p) == PayoutCount(cs, p)[i := PaidOne(c, p)];
    SumSeqPut(Payouts(cs, p), i, PaidFrom(c, p));
    SumSeqPut(PayoutCount(cs, p), i, PaidOne(c, p));
  }

  // ---- The invariant ----------------------------------------------------------------------------------------------

  ghost predicate PoolOk(pool: Pool) {
    pool.stakedLiquidity >= 0 && pool.queuedWithdrawals >= 0 && pool.activeCoverage >= 0 && pool.acc >= 0
    && pool.payoutTotal >= 0 && pool.premiumCollected >= 0
  }

  ghost predicate PositionOk(pos: Position, acc: int) {
    pos.staked >= 0 && pos.pendingWithdrawal >= 0 && pos.accruedPremium >= 0 && pos.claimedPremium >= 0
    && 0 <= pos.rewardDebt <= RewardDebt(pos.staked, acc)
  }

  /** Approvals are by distinct approvers and an approved or paid claim has at least one. */
  ghost predicate ClaimOk(c: Claim) {
    c.amount > 0
    && (forall i, j :: 0 <= i < j < |c.approvals| ==> c.approvals[i] != c.approvals[j])
    && (c.status in {Approved, Paid} ==> c.approvals != [])
    && (c.status in {Submitted, Rejected} ==> c.approvals == [])
  }

  ghost predicate Positions(st: State) {
    forall k :: k in st.positions ==> k.1 in st.pools && PositionOk(st.positions[k], st.pools[k.1].acc)
  }

  ghost predicate Records(st: State) {
    && 1 <= st.threshold <= |st.approvers|
    && (forall r :: r in st.requests ==> r.amount > 0 && r.pool in st.pools)
    && (forall c :: c in st.claims ==> ClaimOk(c) && c.pool in st.pools)
  }

  ghost predicate Shape(st: State) {
    Records(st) && Positions(st) && forall p :: p in st.pools ==> PoolOk(st.pools[p])
  }

  /** Liquidity and everything ever paid out equal the stakes and the queue, which are the sums of their parts. */
  ghost predicate LedgerLaw(st: State, p: PoolId) requires p in st.pools {
    var pool := st.pools[p];
    && pool.totalLiquidity + pool.payoutTotal == pool.stakedLiquidity + pool.queuedWithdrawals
    && pool.stakedLiquidity == Total(st.positions, p, Staked)
    && pool.queuedWithdrawals == Total(st.positions, p, Queued)
    && pool.payoutTotal == SumSeq(Payouts(st.claims, p))
    && pool.paidClaims == SumSeq(PayoutCount(st.claims, p))
  }

  /** Premiums collected, what debt resets created, what stakers hold in scaled units, and the dust. */
  ghost predicate PremiumLaw(st: State, p: PoolId) requires p in st.pools {
    && REWARD_SCALE * st.pools[p].premiumCollected + Get(st.audit.gained, p)
       == Total(st.positions, p, Premium(st.pools[p].acc)) + Get(st.audit.dust, p)
    && Get(st.audit.dust, p) >= 0
    && Get(st.audit.gained, p) <= (REWARD_SCALE - 1) * Get(st.audit.resets, p)
  }

  /** Nothing is on the books of a pool that does not exist. */
  ghost predicate NoBooks(st: State, p: PoolId) {
    Get(st.audit.gained, p) == 0 && Get(st.audit.dust, p) == 0 && Get(st.audit.resets, p) == 0
  }

  ghost predicate PoolLaws(st: State, p: PoolId) {
    if p in st.pools then LedgerLaw(st, p) && PremiumLaw(st, p) else NoBooks(st, p)
  }

  ghost predicate QueueLaw(st: State, u: Address, p: PoolId) {
    Load(st.positions, u, p).pendingWithdrawal == SumSeq(Unclaimed(st.requests, u, p))
  }

  ghost predicate Inv(st: State) {
    && Shape(st)
    && (forall p: PoolId :: PoolLaws(st, p))
    && (forall u: Address, p: PoolId :: QueueLaw(st, u, p))
  }

  // ---- Positions and rewards --------------------------------------------------------------------------------------

  lemma SplitProduct(s: int, a: int)
    ensures s * a == REWARD_SCALE * RewardDebt(s, a) + Fraction(s, a)
    ensures 0 <= Fraction(s, a) < REWARD_SCALE
  {}

  lemma DebtMonotone(s: int, a: int, b: int)
    requires 0 <= s && 0 <= a <= b
    ensures 0 <= RewardDebt(s, a) <= RewardDebt(s, b)
  {
    assert 0 <= s * a <= s * b;
  }

  lemma LoadOk(st: State, u: Address, p: PoolId)
    requires Positions(st) && p in st.pools && st.pools[p].acc >= 0
    ensures PositionOk(Load(st.positions, u, p), st.pools[p].acc)
  {
    assert 0 * st.pools[p].acc == 0;
  }

  /** Syncing moves the live premium into storage; a new stake then starts within one unit of where it was. */
  lemma RestakedEffect(pool: Pool, pos: Position, s: int)
    requires PositionOk(pos, pool.acc) && pool.acc >= 0 && s >= 0
    ensures var synced := SyncRewards(pool, pos); var after := Restaked(pool, synced, s);
      && synced == pos.(accruedPremium := synced.accruedPremium, rewardDebt := synced.rewardDebt)
      && synced.accruedPremium == pos.accruedPremium + RewardDebt(pos.staked, pool.acc) - pos.rewardDebt
      && PositionOk(synced, pool.acc) && PositionOk(after, pool.acc)
      && Weigh(Premium(pool.acc), synced) == Weigh(Premium(pool.acc), pos)
      && Weigh(Premium(pool.acc), after) - Weigh(Premium(pool.acc), pos)
         == Fraction(s, pool.acc) - Fraction(pos.staked, pool.acc)
  {
    DebtMonotone(pos.staked, 0, pool.acc);
    DebtMonotone(s, 0, pool.acc);
    SplitProduct(pos.staked, pool.acc);
    SplitProduct(s, pool.acc);
  }

  // ---- Calls that touch one position ------------------------------------------------------------------------------

  ghost predicate SamePayouts(a: State, b: State) {
    forall q :: SumSeq(Payouts(b.claims, q)) == SumSeq(Payouts(a.claims, q))
             && SumSeq(PayoutCount(b.claims, q)) == SumSeq(PayoutCount(a.claims, q))
  }

  /** The pool's totals move exactly as the one position does. */
  ghost predicate MovesTogether(a: Pool, b: Pool, from: Position, to: Position) {
    && b.acc == a.acc && b.premiumCollected == a.premiumCollected
    && b.payoutTotal == a.payoutTotal && b.paidClaims == a.paidClaims
    && b.stakedLiquidity - a.stakedLiquidity == to.staked - from.staked
    && b.queuedWithdrawals - a.queuedWithdrawals == to.pendingWithdrawal - from.pendingWithdrawal
    && b.totalLiquidity - a.totalLiquidity
       == to.staked - from.staked + to.pendingWithdrawal - from.pendingWithdrawal
  }

  ghost predicate Audited(a: Audit, b: Audit, p: PoolId, change: int) {
    && b.dust == a.dust
    && Get(b.gained, p) - Get(a.gained, p) == change
    && (Get(a.gained, p) <= (REWARD_SCALE - 1) * Get(a.resets, p) ==>
        Get(b.gained, p) <= (REWARD_SCALE - 1) * Get(b.resets, p))
    && forall q :: q != p ==> Get(b.gained, q) == Get(a.gained, q) && Get(b.resets, q) == Get(a.resets, q)
  }

  lemma Saved(st: State, st': State, u: Address, p: PoolId, pool: Pool, pos: Position)
    requires Inv(st) && p in st.pools
    requires st'.pools == st.pools[p := pool] && st'.positions == st.positions[(u, p) := pos]
    requires MovesTogether(st.pools[p], pool, Load(st.positions, u, p), pos) && SamePayouts(st, st')
    requires Audited(st.audit, st'.audit, p,
               Weigh(Premium(pool.acc), pos) - Weigh(Premium(pool.acc), Load(st.positions, u, p)))
    ensures forall q: PoolId :: PoolLaws(st', q)
  {
    hide Weigh, Total, Positions, Records, Payouts, PayoutCount, QueueLaw;
    forall q: PoolId ensures PoolLaws(st', q) {
      assert PoolLaws(st, q);
      if q == p {
        TotalPut(st.positions, u, p, pos, Staked);
        TotalPut(st.positions, u, p, pos, Queued);
        TotalPut(st.positions, u, p, pos, Premium(pool.acc));
        WeighIs(pos);
        WeighIs(Load(st.positions, u, p));
      } else if q in st.pools {
        TotalOther(st.positions, u, p, pos, q, Staked);
        TotalOther(st.positions, u, p, pos, q, Queued);
        TotalOther(st.positions, u, p, pos, q, Premium(st.pools[q].acc));
      }
    }
  }

  lemma WeighIs(pos: Position)
    ensures Weigh(Staked, pos) == pos.staked && Weigh(Queued, pos) == pos.pendingWithdrawal
  {}

  lemma SavedShape(st: State, st': State, u: Address, p: PoolId, pool: Pool, pos: Position)
    requires Shape(st) && p in st.pools && Records(st')
    requires st'.pools == st.pools[p := pool] && st'.positions == st.positions[(u, p) := pos]
    requires PoolOk(pool) && PositionOk(pos, pool.acc) && pool.acc == st.pools[p].acc
    ensures Shape(st')
  {
    hide PositionOk, Records;
  }

  /** A stake is at most the pool's total, and a queued amount at most the queue. */
  lemma PartOfTotal(st: State, u: Address, p: PoolId)
    requires Inv(st) && p in st.pools
    ensures 0 <= Load(st.positions, u, p).staked <= st.pools[p].stakedLiquidity
    ensures 0 <= Load(st.positions, u, p).pendingWithdrawal <= st.pools[p].queuedWithdrawals
  {
    assert PoolLaws(st, p);
    var s, q := Column(st.positions, p, Staked), Column(st.positions, p, Queued);
    SumNonNegative(s);
    SumNonNegative(q);
    if (u, p) in st.positions {
      assert s[(u, p)] == st.positions[(u, p)].staked;
      assert q[(u, p)] == st.positions[(u, p)].pendingWithdrawal;
    }
  }

  lemma ResetAudited(a: Audit, p: PoolId, acc: int, before: int, after: int)
    ensures Audited(a, AuditReset(a, p, acc, before, after), p, Fraction(after, acc) - Fraction(before, acc))
  {
    SplitProduct(before, acc);
    SplitProduct(after, acc);
    hide Fraction;
  }

  lemma PositionOf(st: State, u: Address, p: PoolId)
    requires Inv(st) && p in st.pools
    ensures PoolOk(st.pools[p]) && PositionOk(Load(st.positions, u, p), st.pools[p].acc) && Records(st) && Shape(st)
  {
    LoadOk(st, u, p);
  }

  /** With the requests untouched, the queue law only needs the queued amounts untouched. */
  lemma SameQueue(st: State, st': State)
    requires Inv(st) && st'.requests == st.requests
    requires forall u: Address, p: PoolId ::
      Load(st'.positions, u, p).pendingWithdrawal == Load(st.positions, u, p).pendingWithdrawal
    ensures forall u: Address, p: PoolId :: QueueLaw(st', u, p)
  {
    forall u: Address, p: PoolId ensures QueueLaw(st', u, p) {
      assert QueueLaw(st, u, p);
    }
  }

  lemma StakeInv(st: State, u: Address, p: PoolId, amount: int)
    requires Inv(st) && DoStake(st, u, p, amount).Done?
    ensures Inv(DoStake(st, u, p, amount).st)
  {
    hide Inv, Records, Positions, Weigh, RewardDebt, Fraction, Audited, QueueLaw, AuditReset;
    PositionOf(st, u, p);
    var pool, from := st.pools[p], Load(st.positions, u, p);
    RestakedEffect(pool, from, from.staked + amount);
    ResetAudited(st.audit, p, pool.acc, from.staked, from.staked + amount);
    var st' := DoStake(st, u, p, amount).st;
    SavedShape(st, st', u, p, st'.pools[p], st'.positions[(u, p)]) by { RecordsKept(st, st'); }
    Saved(st, st', u, p, st'.pools[p], st'.positions[(u, p)]);
    SameQueue(st, st');
    MakeInv(st');
  }

  lemma RecordsKept(a: State, b: State)
    requires Records(a) && a.pools.Keys <= b.pools.Keys
    requires b.requests == a.requests && b.claims == a.claims
    requires b.approvers == a.approvers && b.threshold == a.threshold
    ensures Records(b)
  {
    hide ClaimOk;
  }

  lemma MakeInv(st: State)
    requires Shape(st)
    requires forall p: PoolId :: PoolLaws(st, p)
    requires forall u: Address, p: PoolId :: QueueLaw(st, u, p)
    ensures Inv(st)
  {}

  lemma RequestInv(st: State, u: Address, p: PoolId, amount: int, now: nat)
    requires Inv(st) && DoRequest(st, u, p, amount, now).Done?
    ensures Inv(DoRequest(st, u, p, amount, now).st)
  {
    hide Inv, Records, Positions, Weigh, RewardDebt, Fraction, Audited, QueueLaw, AuditReset;
    PositionOf(st, u, p);
    PartOfTotal(st, u, p);
    var pool, from := st.pools[p], Load(st.positions, u, p);
    RestakedEffect(pool, from, from.staked - amount);
    ResetAudited(st.audit, p, pool.acc, from.staked, from.staked - amount);
    var st' := DoRequest(st, u, p, amount, now).st;
    var to := st'.positions[(u, p)];
    QueuedChange(pool.acc, Restaked(pool, SyncRewards(pool, from), from.staked - amount), to);
    SavedShape(st, st', u, p, st'.pools[p], to) by {
      RequestRecords(st, st', Request(u, p, amount, now + st.delay, false));
    }
    Saved(st, st', u, p, st'.pools[p], to);
    RequestQueue(st, st', u, p, Request(u, p, amount, now + st.delay, false));
    MakeInv(st');
  }

  lemma QueuedChange(acc: int, a: Position, b: Position)
    requires PositionOk(a, acc) && b == a.(pendingWithdrawal := b.pendingWithdrawal) && b.pendingWithdrawal >= 0
    ensures PositionOk(b, acc) && Weigh(Premium(acc), b) == Weigh(Premium(acc), a)
  {}

  lemma RequestRecords(a: State, b: State, r: Request)
    requires Records(a) && a.pools.Keys == b.pools.Keys && r.amount > 0 && r.pool in a.pools
    requires b.requests == a.requests + [r] && b.claims == a.claims
    requires b.approvers == a.approvers && b.threshold == a.threshold
    ensures Records(b)
  {
    hide ClaimOk;
  }

  lemma RequestQueue(st: State, st': State, u: Address, p: PoolId, r: Request)
    requires Inv(st) && r.staker == u && r.pool == p && !r.claimed
    requires st'.requests == st.requests + [r]
    requires (u, p) in st'.positions && st'.positions == st.positions[(u, p) := st'.positions[(u, p)]]
    requires st'.positions[(u, p)].pendingWithdrawal == Load(st.positions, u, p).pendingWithdrawal + r.amount
    ensures forall v: Address, q: PoolId :: QueueLaw(st', v, q)
  {
    hide Shape, PoolLaws;
    forall v: Address, q: PoolId ensures QueueLaw(st', v, q) {
      assert QueueLaw(st, v, q);
      UnclaimedAppend(st.requests, r, v, q);
      assert (v, q) != (u, p) ==> Load(st'.positions, v, q) == Load(st.positions, v, q);
    }
  }

  lemma ExecuteInv(st: State, u: Address, p: PoolId, id: nat, now: nat)
    requires Inv(st) && DoExecute(st, u, p, id, now).Done?
    ensures Inv(DoExecute(st, u, p, id, now).st)
  {
    hide Inv, Records, Positions, Weigh, RewardDebt, Fraction, Audited, QueueLaw;
    PositionOf(st, u, p);
    var pool, from, r := st.pools[p], Load(st.positions, u, p), st.requests[id];
    RestakedEffect(pool, from, from.staked);
    var st' := DoExecute(st, u, p, id, now).st;
    var to := st'.positions[(u, p)];
    QueuedChange(pool.acc, Restaked(pool, SyncRewards(pool, from), from.staked), to);
    SavedShape(st, st', u, p, st'.pools[p], to) by { ExecuteRecords(st, st', id); }
    UnchangedAudited(st.audit, p);
    Saved(st, st', u, p, st'.pools[p], to);
    ExecuteQueue(st, st', u, p, id);
    MakeInv(st');
  }

  lemma UnchangedAudited(a: Audit, p: PoolId)
    ensures Audited(a, a, p, 0)
  {}

  lemma ExecuteRecords(a: State, b: State, id: nat)
    requires Records(a) && a.pools.Keys == b.pools.Keys && id < |a.requests|
    requires b.requests == a.requests[id := a.requests[id].(claimed := true)] && b.claims == a.claims
    requires b.approvers == a.approvers && b.threshold == a.threshold
    ensures Records(b)
  {
    hide ClaimOk;
  }

  lemma ExecuteQueue(st: State, st': State, u: Address, p: PoolId, id: nat)
    requires Inv(st) && id < |st.requests|
    requires st.requests[id].staker == u && st.requests[id].pool == p && !st.requests[id].claimed
    requires st'.requests == st.requests[id := st.requests[id].(claimed := true)]
    requires (u, p) in st'.positions && st'.positions == st.positions[(u, p) := st'.positions[(u, p)]]
    requires st'.positions[(u, p)].pendingWithdrawal
             == Load(st.positions, u, p).pendingWithdrawal - st.requests[id].amount
    ensures forall v: Address, q: PoolId :: QueueLaw(st', v, q)
  {
    hide Shape, PoolLaws;
    forall v: Address, q: PoolId ensures QueueLaw(st', v, q) {
      assert QueueLaw(st, v, q);
      UnclaimedPut(st.requests, id, st.requests[id].(claimed := true), v, q);
      assert (v, q) != (u, p) ==> Load(st'.positions, v, q) == Load(st.positions, v, q);
    }
  }

  lemma ClaimPremiumInv(st: State, u: Address, p: PoolId)
    requires Inv(st) && DoClaimPremium(st, u, p).Done?
    ensures Inv(DoClaimPremium(st, u, p).st)
  {
    hide Inv, Records, Positions, Weigh, RewardDebt, Fraction, Audited, QueueLaw;
    PositionOf(st, u, p);
    var pool, from := st.pools[p], Load(st.positions, u, p);
    RestakedEffect(pool, from, from.staked);
    var st' := DoClaimPremium(st, u, p).st;
    var to := st'.positions[(u, p)];
    PremiumTaken(pool.acc, Restaked(pool, SyncRewards(pool, from), from.staked), to);
    SavedShape(st, st', u, p, pool, to) by { RecordsKept(st, st'); }
    UnchangedAudited(st.audit, p);
    Saved(st, st', u, p, pool, to);
    SameQueue(st, st');
    MakeInv(st');
  }

  lemma PremiumTaken(acc: int, a: Position, b: Position)
    requires PositionOk(a, acc)
    requires b == a.(accruedPremium := 0, claimedPremium := a.claimedPremium + a.accruedPremium)
    ensures PositionOk(b, acc) && Weigh(Premium(acc), b) == Weigh(Premium(acc), a)
  {}

  // ---- Slashing ---------------------------------------------------------------------------------------------------

  lemma ClaimsPut(a: State, b: State, id: nat, c: Claim)
    requires Records(a) && a.pools.Keys <= b.pools.Keys && id < |a.claims|
    requires ClaimOk(c) && c.pool in a.pools
    requires b.claims == a.claims[id := c] && b.requests == a.requests
    requires b.approvers == a.approvers && b.threshold == a.threshold
    ensures Records(b)
  {
    hide ClaimOk;
  }

  /** Replacing a claim that is not and does not become paid moves no payout. */
  lemma UnpaidPut(a: State, b: State, id: nat, c: Claim)
    requires id < |a.claims| && b.claims == a.claims[id := c]
    requires a.claims[id].status != Paid && c.status != Paid
    ensures SamePayouts(a, b)
  {
    forall q: PoolId
      ensures SumSeq(Payouts(b.claims, q)) == SumSeq(Payouts(a.claims, q))
      ensures SumSeq(PayoutCount(b.claims, q)) == SumSeq(PayoutCount(a.claims, q))
    {
      PayoutsPut(a.claims, id, c, q);
    }
  }

  lemma ClaimAt(st: State, id: nat)
    requires Inv(st) && id < |st.claims|
    ensures ClaimOk(st.claims[id]) && st.claims[id].pool in st.pools && Records(st)
  {
    assert st.claims[id] in st.claims;
  }

  lemma SlashInv(st: State, id: nat, slashBps: nat)
    requires Inv(st) && id < |st.claims| && st.claims[id].status == Submitted && st.claims[id].pool in st.pools
    ensures Inv(Slash(st, id, slashBps))
  {
    hide Inv, Records, Positions, Weigh, RewardDebt, Fraction, Audited, QueueLaw, AuditReset;
    ClaimAt(st, id);
    var c := st.claims[id];
    var u, p := c.claimant, c.pool;
    PositionOf(st, u, p);
    PartOfTotal(st, u, p);
    var pool, from := st.pools[p], Load(st.positions, u, p);
    var slashed := Min(c.amount * slashBps / BPS_DENOM, from.staked);
    var cut := if slashed > 0 then slashed else 0;
    RestakedEffect(pool, from, from.staked - cut);
    ResetAudited(st.audit, p, pool.acc, from.staked, from.staked - cut);
    var st' := Slash(st, id, slashBps);
    var to := st'.positions[(u, p)];
    SlashedChange(pool.acc, Restaked(pool, SyncRewards(pool, from), from.staked - cut), to);
    ClaimsPut(st, st', id, st'.claims[id]);
    SavedShape(st, st', u, p, st'.pools[p], to);
    UnpaidPut(st, st', id, st'.claims[id]);
    Saved(st, st', u, p, st'.pools[p], to);
    SameQueue(st, st');
    MakeInv(st');
  }

  lemma SlashedChange(acc: int, a: Position, b: Position)
    requires PositionOk(a, acc) && b == a.(slashedTotal := b.slashedTotal)
    ensures PositionOk(b, acc) && Weigh(Premium(acc), b) == Weigh(Premium(acc), a)
  {}

  // ---- Sales ------------------------------------------------------------------------------------------------------

  lemma PremiumNonNegative(pool: Pool, coverage: int, t: Tier)
    requires coverage > 0
    ensures CalculatePremium(pool, coverage, t) >= 0
  {
    var b := coverage * pool.premiumRateBps / BPS_DENOM;
    assert b >= 0 by { assert coverage * pool.premiumRateBps >= 0; }
    assert b * (BPS_DENOM + pool.riskScoreBps) >= 0;
    assert b * (BPS_DENOM + pool.riskScoreBps) * TierPremiumBps(t) >= 0;
  }

  /** Coverage can only be sold against stake: the cap of a pool nobody has staked in is zero. */
  lemma SaleNeedsStake(st: State, p: PoolId, coverage: int, tier: Tier, premiumPaid: int)
    requires Inv(st) && DoPurchase(st, p, coverage, tier, premiumPaid).Done?
    ensures st.pools[p].stakedLiquidity > 0
  {
    assert PoolOk(st.pools[p]);
  }

  lemma SaleScale(premium: int, staked: int)
    requires premium >= 0 && staked > 0
    ensures var d := premium * REWARD_SCALE / staked;
      d >= 0 && d * staked + premium * REWARD_SCALE % staked == REWARD_SCALE * premium
  {
    var x := premium * REWARD_SCALE;
    FloorMonotone(0, x, staked);
    assert x == staked * (x / staked) + x % staked;
  }

  /** Every stake earns in proportion, so the premium column grows by the accumulator's step times the stakes. */
  lemma PremiumGrowth(ps: map<(Address, PoolId), Position>, p: PoolId, acc: int, d: int)
    ensures Total(ps, p, Premium(acc + d)) == Total(ps, p, Premium(acc)) + d * Total(ps, p, Staked)
  {
    var a, b, c := Column(ps, p, Premium(acc)), Column(ps, p, Staked), Column(ps, p, Premium(acc + d));
    forall k | k in a ensures c[k] == a[k] + d * b[k] {
      assert ps[k].staked * (acc + d) == ps[k].staked * acc + d * ps[k].staked;
    }
    SumLinear(a, b, c, d);
  }

  lemma PurchaseShape(st: State, p: PoolId, pool: Pool)
    requires Shape(st) && p in st.pools && PoolOk(pool) && pool.acc >= st.pools[p].acc
    ensures Shape(st.(pools := st.pools[p := pool]))
  {
    var st' := st.(pools := st.pools[p := pool]);
    RecordsKept(st, st');
    hide Records;
    forall k | k in st'.positions ensures k.1 in st'.pools && PositionOk(st'.positions[k], st'.pools[k.1].acc) {
      if k.1 == p { DebtMonotone(st.positions[k].staked, st.pools[p].acc, pool.acc); }
    }
  }

  lemma PurchaseInv(st: State, p: PoolId, coverage: int, tier: Tier, premiumPaid: int)
    requires Inv(st) && DoPurchase(st, p, coverage, tier, premiumPaid).Done?
    ensures Inv(DoPurchase(st, p, coverage, tier, premiumPaid).st)
  {
    hide Shape, PoolLaws, QueueLaw, CalculatePremium, CoverageCap, PoolOk;
    SaleNeedsStake(st, p, coverage, tier, premiumPaid);
    PositionOf(st, 0, p);
    var pool := st.pools[p];
    var premium := CalculatePremium(pool, coverage, tier);
    PremiumNonNegative(pool, coverage, tier);
    SaleScale(premium, pool.stakedLiquidity);
    var st' := DoPurchase(st, p, coverage, tier, premiumPaid).st;
    SoldOk(pool, coverage, premium);
    PurchaseShape(st, p, st'.pools[p]);
    ShapeOfAudit(st'.(audit := st.audit), st');
    forall q: PoolId ensures PoolLaws(st', q) {
      assert PoolLaws(st, q);
      PurchaseLaws(st, p, coverage, premium, q, st');
    }
    SameQueue(st, st');
    MakeInv(st');
  }

  lemma SoldOk(pool: Pool, coverage: int, premium: int)
    requires PoolOk(pool) && pool.stakedLiquidity > 0 && premium >= 0 && coverage > 0
    ensures PoolOk(Sold(pool, coverage, premium)) && Sold(pool, coverage, premium).acc >= pool.acc
  {
    SaleScale(premium, pool.stakedLiquidity);
  }

  lemma ShapeOfAudit(a: State, b: State)
    requires Shape(a) && b == a.(audit := b.audit)
    ensures Shape(b)
  {}

  lemma PurchaseLaws(st: State, p: PoolId, coverage: int, premium: int, q: PoolId, st': State)
    requires p in st.pools && PoolLaws(st, q) && st.pools[p].stakedLiquidity > 0 && premium >= 0
    requires st' == st.(pools := st.pools[p := Sold(st.pools[p], coverage, premium)],
      audit := st.audit.(dust := st.audit.dust[p :=
        Get(st.audit.dust, p) + premium * REWARD_SCALE % st.pools[p].stakedLiquidity]))
    ensures PoolLaws(st', q)
  {
    hide Total, Payouts, PayoutCount;
    var pool := st.pools[p];
    SaleScale(premium, pool.stakedLiquidity);
    var d := premium * REWARD_SCALE / pool.stakedLiquidity;
    PremiumGrowth(st.positions, p, pool.acc, d);
  }

  // ---- Claims and configuration -----------------------------------------------------------------------------------

  /** A change of claims, limits or configuration that leaves the books alone. */
  lemma SameBooks(st: State, st': State)
    requires Inv(st) && Records(st') && SamePayouts(st, st')
    requires st'.positions == st.positions && st'.requests == st.requests && st'.audit == st.audit
    requires st'.pools.Keys == st.pools.Keys
    requires forall p :: p in st.pools ==> st'.pools[p] == st.pools[p].(
      premiumRateBps := st'.pools[p].premiumRateBps, riskScoreBps := st'.pools[p].riskScoreBps,
      maxClaimAmount := st'.pools[p].maxClaimAmount, maxClaimBps := st'.pools[p].maxClaimBps,
      claimCooldown := st'.pools[p].claimCooldown)
    ensures Inv(st')
  {
    hide Total, Payouts, PayoutCount, Records, PositionOk, QueueLaw;
    forall p: PoolId ensures PoolLaws(st', p) {
      assert PoolLaws(st, p);
    }
    SameQueue(st, st');
  }

  lemma NewPoolInv(st: State, p: PoolId, pool: Pool)
    requires Inv(st) && p !in st.pools
    requires pool.acc == 0 && PoolOk(pool) && pool.totalLiquidity == pool.stakedLiquidity == pool.queuedWithdrawals == 0
    requires pool.payoutTotal == pool.paidClaims == pool.premiumCollected == 0
    ensures Inv(st.(pools := st.pools[p := pool]))
  {
    hide Weigh, ClaimOk, PositionOk, QueueLaw;
    var st' := st.(pools := st.pools[p := pool]);
    forall q: PoolId ensures PoolLaws(st', q) {
      assert PoolLaws(st, q);
      if q == p {
        assert Column(st.positions, p, Staked) == map[] && Column(st.positions, p, Queued) == map[];
        assert Column(st.positions, p, Premium(0)) == map[];
        NothingPaid(st, p);
      }
    }
    SameQueue(st, st');
  }

  lemma NothingPaid(st: State, p: PoolId)
    requires Inv(st) && p !in st.pools
    ensures SumSeq(Payouts(st.claims, p)) == 0 && SumSeq(PayoutCount(st.claims, p)) == 0
  {
    AllZero(Payouts(st.claims, p)) by {
      forall i | 0 <= i < |st.claims| ensures Payouts(st.claims, p)[i] == 0 { ClaimAt(st, i); }
    }
    AllZero(PayoutCount(st.claims, p)) by {
      forall i | 0 <= i < |st.claims| ensures PayoutCount(st.claims, p)[i] == 0 { ClaimAt(st, i); }
    }
  }

  lemma {:induction false} AllZero(s: seq<int>)
    requires forall i :: 0 <= i < |s| ==> s[i] == 0
    ensures SumSeq(s) == 0
  {
    if s == [] {
    } else {
      AllZero(s[..|s| - 1]);
    }
  }

  lemma ConfigInv(st: State, op: Op)
    requires Inv(st) && Call(st, op).Done?
    requires op.ConfigureGovernance? || op.CreatePool? || op.SetRiskScore? || op.ConfigureClaimLimits?
    ensures Inv(Call(st, op).st)
  {
    hide Inv, Records, SamePayouts, PoolOk;
    InvRecords(st);
    var st' := Call(st, op).st;
    if op.CreatePool? && op.pool !in st.pools {
      NewPoolInv(st, op.pool, st'.pools[op.pool]) by { NewPoolOk(op.rate, op.risk); }
    } else {
      if op.ConfigureGovernance? { GovernanceRecords(st, st'); } else { RecordsKept(st, st'); }
      SameClaims(st, st');
      SameBooks(st, st');
    }
  }

  lemma NewPoolOk(rate: nat, risk: nat)
    ensures PoolOk(Pool(0, 0, 0, 0, rate, risk, 0, 0, 0, 0, 0, 0, 2_000, 86_400))
  {}

  lemma GovernanceRecords(a: State, b: State)
    requires Records(a) && b == a.(approvers := b.approvers, threshold := b.threshold, delay := b.delay)
    requires 1 <= b.threshold <= |b.approvers|
    ensures Records(b)
  {}

  lemma SameClaims(a: State, b: State)
    requires b.claims == a.claims
    ensures SamePayouts(a, b)
  {}

  lemma InvRecords(st: State)
    requires Inv(st)
    ensures Records(st)
  {}

  lemma SubmitInv(st: State, u: Address, p: PoolId, amount: int, now: nat)
    requires Inv(st) && DoSubmit(st, u, p, amount, now).Done?
    ensures Inv(DoSubmit(st, u, p, amount, now).st)
  {
    hide Inv, SamePayouts;
    InvRecords(st);
    var st' := DoSubmit(st, u, p, amount, now).st;
    var c := Claim(u, p, amount, Submitted, [], 0, 0);
    SubmitRecords(st, st', c);
    NewClaimPayouts(st, st', c);
    hide Records;
    SameBooks(st, st');
  }

  lemma SubmitRecords(a: State, b: State, c: Claim)
    requires Records(a) && a.pools == b.pools && ClaimOk(c) && c.pool in a.pools
    requires b.claims == a.claims + [c] && b.requests == a.requests
    requires b.approvers == a.approvers && b.threshold == a.threshold
    ensures Records(b)
  {
    hide ClaimOk;
  }

  lemma NewClaimPayouts(a: State, b: State, c: Claim)
    requires b.claims == a.claims + [c] && c.status != Paid
    ensures SamePayouts(a, b)
  {
    forall q: PoolId
      ensures SumSeq(Payouts(b.claims, q)) == SumSeq(Payouts(a.claims, q))
      ensures SumSeq(PayoutCount(b.claims, q)) == SumSeq(PayoutCount(a.claims, q))
    {
      PayoutsAppend(a.claims, c, q);
    }
  }

  /** Verification of a valid claim, or an approval: one claim changes and none is paid. */
  lemma ReviewedInv(st: State, id: nat, c: Claim)
    requires Inv(st) && id < |st.claims| && st.claims[id].status != Paid && c.status != Paid
    requires ClaimOk(c) && c.pool == st.claims[id].pool
    ensures Inv(st.(claims := st.claims[id := c]))
  {
    hide Inv, SamePayouts, Records, ClaimOk;
    ClaimAt(st, id);
    var st' := st.(claims := st.claims[id := c]);
    ClaimsPut(st, st', id, c);
    UnpaidPut(st, st', id, c);
    SameBooks(st, st');
  }

  lemma VerifyInv(st: State, id: nat, valid: bool, slashBps: nat)
    requires Inv(st) && DoVerify(st, id, valid, slashBps).Done?
    ensures Inv(DoVerify(st, id, valid, slashBps).st)
  {
    hide Inv, Slash;
    ClaimAt(st, id);
    if valid {
      ReviewedInv(st, id, st.claims[id].(status := Verified, slashBps := 0, slashedAmount := 0));
    } else {
      SlashInv(st, id, slashBps);
    }
  }

  lemma ApproveInv(st: State, a: Address, id: nat)
    requires Inv(st) && DoApprove(st, a, id).Done?
    ensures Inv(DoApprove(st, a, id).st)
  {
    hide Inv;
    ClaimAt(st, id);
    ReviewedInv(st, id, DoApprove(st, a, id).st.claims[id]);
  }

  lemma PayoutLaws(st: State, id: nat, q: PoolId)
    requires DoPayout(st, id).Done? && PoolLaws(st, q)
    ensures PoolLaws(DoPayout(st, id).st, q)
  {
    hide Total, Payouts, PayoutCount;
    PayoutsPut(st.claims, id, st.claims[id].(status := Paid), q);
  }

  lemma PayoutShape(st: State, id: nat)
    requires Shape(st) && DoPayout(st, id).Done? && Records(DoPayout(st, id).st) && st.claims[id].amount > 0
    ensures Shape(DoPayout(st, id).st)
  {
    hide Records, PositionOk;
  }

  lemma PayoutInv(st: State, id: nat)
    requires Inv(st) && DoPayout(st, id).Done?
    ensures Inv(DoPayout(st, id).st)
  {
    hide Shape, Records, PoolLaws, QueueLaw;
    var st' := DoPayout(st, id).st;
    ClaimAt(st, id);
    StillOk(st.claims[id]);
    ClaimsPut(st, st', id, st'.claims[id]);
    PayoutShape(st, id);
    forall q: PoolId ensures PoolLaws(st', q) {
      PayoutLaws(st, id, q);
    }
    SameQueue(st, st');
  }

  lemma StillOk(c: Claim)
    requires ClaimOk(c) && c.status == Approved
    ensures ClaimOk(c.(status := Paid))
  {}

  // ---- Every call, every run --------------------------------------------------------------------------------------

  lemma CallInv(st: State, op: Op)
    requires Inv(st)
    ensures Inv(Settle(st, Call(st, op)))
  {
    hide Inv;
    if Call(st, op).Done? {
      match op
      case StakeLiquidity(u, p, amount) => StakeInv(st, u, p, amount);
      case RequestWithdrawal(u, p, amount, now) => RequestInv(st, u, p, amount, now);
      case ExecuteWithdrawal(u, p, id, now) => ExecuteInv(st, u, p, id, now);
      case PurchaseCoverage(p, coverage, tier, paid) => PurchaseInv(st, p, coverage, tier, paid);
      case SubmitClaim(u, p, amount, now) => SubmitInv(st, u, p, amount, now);
      case VerifyClaim(id, valid, slashBps) => VerifyInv(st, id, valid, slashBps);
      case ApproveClaim(a, id) => ApproveInv(st, a, id);
      case ExecutePayout(id) => PayoutInv(st, id);
      case ClaimPremium(u, p) => ClaimPremiumInv(st, u, p);
      case _ => ConfigInv(st, op);
    }
  }

  /** The pool ledger, the premium law and the queue law hold after every history of calls. */
  lemma {:induction false} RunInv(admin: Address, ops: seq<Op>)
    ensures Inv(Run(Init(admin), ops))
  {
    if ops == [] {
    } else {
      hide Inv, Call;
      RunInv(admin, ops[..|ops| - 1]);
      CallInv(Run(Init(admin), ops[..|ops| - 1]), ops[|ops| - 1]);
    }
  }
}
