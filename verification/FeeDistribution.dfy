/** The fee-distribution ledger as a value: what every entrypoint does to storage, and the panics it can end in.
    The imperative contract in FeeDistributionContract.dfy is proved equal to it. */
module FeeDistribution {
  import opened Sums

  /** An account or a token contract. Only equality matters. */
  type Address = nat

  const PRECISION := 1_000_000_000_000
  const BPS_DENOM := 10_000

  datatype Ratios = Ratios(stakersBps: nat, governanceBps: nat, treasuryBps: nat)

  datatype FeePool = FeePool(
    totalCollected: int, totalDistributed: int, pending: int,
    accFeePerShare: int, governancePool: int, lastDistributionTime: nat)

  datatype Vesting = Vesting(
    beneficiary: Address, token: Address, totalAmount: int, claimedAmount: int,
    startTime: nat, duration: nat, cliff: nat)

  /** History the contract does not store. It is written by every step and read by none. */
  datatype Audit = Audit(
    toStakers: map<Address, int>,          // staker slices that went into the accumulator
    dust: map<Address, int>,               // scaled remainders lost when slices were divided by the total stake
    paid: map<Address, int>,               // rewards transferred out
    compounded: map<Address, int>,         // rewards turned into stake
    gained: map<Address, int>,             // scaled fractions created (or lost) by debt resets
    resets: map<Address, int>,             // number of debt resets
    withdrawn: map<Address, int>,          // emergency withdrawals
    received: map<(Address, Address), int>, // rewards taken per (staker, token)
    rounds: map<Address, int>,             // distributions that moved the accumulator
    exactPerShare: map<Address, real>)     // the accumulator without rounding

  datatype State = State(
    stakingToken: Address, ratios: Ratios,
    tokens: seq<Address>, pools: map<Address, FeePool>,
    totalStaked: int, stakes: map<Address, int>,
    debts: map<(Address, Address), int>, rewards: map<(Address, Address), int>,
    compounding: map<Address, bool>, vestings: seq<Vesting>,
    emergency: bool, interval: nat, lastAuto: nat,
    balances: map<Address, int>, audit: Audit)

  /** A call either completes or panics; a panic leaves storage as it was. */
  datatype Outcome = Done(st: State) | Panic

  const FreshAudit := Audit(map[], map[], map[], map[], map[], map[], map[], map[], map[], map[])

  function Init(stakingToken: Address, ratios: Ratios): State {
    State(stakingToken, ratios, [], map[], 0, map[], map[], map[], map[], [], false, 0, 0, map[], FreshAudit)
  }

  predicate ValidRatios(r: Ratios) {
    r.stakersBps + r.governanceBps + r.treasuryBps == BPS_DENOM
  }

  // ---- Views -------------------------------------------------------------------------------------------------

  function GetReal(m: map<Address, real>, t: Address): real { if t in m then m[t] else 0.0 }
  function Acc(st: State, t: Address): int { if t in st.pools then st.pools[t].accFeePerShare else 0 }
  function Stake(st: State, u: Address): int { Get(st.stakes, u) }
  function Debt(st: State, u: Address, t: Address): int { Get(st.debts, (u, t)) }
  function Reward(st: State, u: Address, t: Address): int { Get(st.rewards, (u, t)) }
  function Compounds(st: State, u: Address): bool { u in st.compounding && st.compounding[u] }

  /** Whole units and scaled fraction that a stake has earned from an accumulator value. */
  function Accrued(stake: int, acc: int): int { stake * acc / PRECISION }
  function Fraction(stake: int, acc: int): int { stake * acc % PRECISION }

  /** The `get_pending_rewards` view, with its early exit for a staker without stake. */
  function PendingRewards(st: State, u: Address, t: Address): int {
    if Stake(st, u) == 0 || t !in st.pools then 0
    else Reward(st, u, t) + (Accrued(Stake(st, u), Acc(st, t)) - Debt(st, u, t))
  }

  // ---- Internal helpers of the contract --------------------------------------------------------------------

  function BpsOf(amount: int, bps: nat): int { amount * bps / BPS_DENOM }

  function HarvestOne(st: State, u: Address, t: Address): State {
    if t !in st.pools then st else
      var accrued := Accrued(Stake(st, u), Acc(st, t));
      var gain := accrued - Debt(st, u, t);
      if gain > 0 then
        st.(rewards := st.rewards[(u, t) := Reward(st, u, t) + gain], debts := st.debts[(u, t) := accrued])
      else st
  }

  function HarvestEach(st: State, u: Address, toks: seq<Address>): State {
    if toks == [] then st
    else HarvestOne(HarvestEach(st, u, toks[..|toks| - 1]), u, toks[|toks| - 1])
  }

  function Harvest(st: State, u: Address, toks: seq<Address>): State {
    if Stake(st, u) == 0 then st else HarvestEach(st, u, toks)
  }

  function SyncOne(st: State, u: Address, newStake: int, t: Address): State {
    if t !in st.pools then st else st.(debts := st.debts[(u, t) := Accrued(newStake, Acc(st, t))])
  }

  function Sync(st: State, u: Address, newStake: int, toks: seq<Address>): State {
    if toks == [] then st
    else SyncOne(Sync(st, u, newStake, toks[..|toks| - 1]), u, newStake, toks[|toks| - 1])
  }

  /** The audit entries of one debt reset: the fraction of a unit each pool starts from anew. */
  function AuditReset(a: Audit, pools: map<Address, FeePool>, oldStake: int, newStake: int): Audit {
    a.(gained := map t | t in pools.Keys + a.gained.Keys ::
         Get(a.gained, t) + if t !in pools then 0 else
           Fraction(newStake, pools[t].accFeePerShare) - Fraction(oldStake, pools[t].accFeePerShare),
       resets := map t | t in pools.Keys + a.resets.Keys :: Get(a.resets, t) + if t in pools then 1 else 0)
  }

  /** Change a harvested staker's weight: new stake, new debts for every token, new total. */
  function Reweigh(st: State, u: Address, newStake: int): State {
    var staked := st.(stakes := st.stakes[u := newStake]);
    var synced := Sync(staked, u, newStake, st.tokens);
    synced.(totalStaked := st.totalStaked + newStake - Stake(st, u),
            audit := AuditReset(st.audit, st.pools, Stake(st, u), newStake))
  }

  function Deposit(st: State, t: Address, amount: int): State {
    st.(balances := st.balances[t := Get(st.balances, t) + amount])
  }

  // ---- Distribution ------------------------------------------------------------------------------------------

  function StakersCut(st: State, t: Address): int requires t in st.pools {
    BpsOf(st.pools[t].pending, st.ratios.stakersBps)
  }
  function GovernanceCut(st: State, t: Address): int requires t in st.pools {
    BpsOf(st.pools[t].pending, st.ratios.governanceBps)
  }
  function TreasuryCut(st: State, t: Address): int requires t in st.pools {
    st.pools[t].pending - StakersCut(st, t) - GovernanceCut(st, t)
  }

  /** The accumulator's step; nothing moves when nobody is staked or the slice is empty. */
  function Delta(st: State, t: Address): int requires t in st.pools {
    if st.totalStaked > 0 && StakersCut(st, t) > 0 then StakersCut(st, t) * PRECISION / st.totalStaked else 0
  }

  function DistributedPool(st: State, t: Address, now: nat): FeePool requires t in st.pools {
    var p := st.pools[t];
    var orphan := if st.totalStaked > 0 || StakersCut(st, t) <= 0 then 0 else StakersCut(st, t);
    FeePool(p.totalCollected, p.totalDistributed + p.pending, 0, p.accFeePerShare + Delta(st, t),
            p.governancePool + orphan + GovernanceCut(st, t), now)
  }

  function AuditRound(st: State, t: Address): Audit requires t in st.pools {
    var a, cut := st.audit, StakersCut(st, t);
    if st.totalStaked > 0 && cut > 0 then
      a.(toStakers := a.toStakers[t := Get(a.toStakers, t) + cut],
         dust := a.dust[t := Get(a.dust, t) + cut * PRECISION % st.totalStaked],
         rounds := a.rounds[t := Get(a.rounds, t) + 1],
         exactPerShare := a.exactPerShare[t := GetReal(a.exactPerShare, t) + cut as real / st.totalStaked as real])
    else a
  }

  function DistributeOne(st: State, t: Address, now: nat): Outcome {
    if t !in st.pools || st.pools[t].pending == 0 then Done(st)
    else
      var treasury := TreasuryCut(st, t);
      if treasury > 0 && treasury > Get(st.balances, t) then Panic
      else
        var swept := if treasury > 0 then Deposit(st, t, -treasury) else st;
        Done(swept.(pools := st.pools[t := DistributedPool(st, t, now)], audit := AuditRound(st, t)))
  }

  function DistributeEach(st: State, toks: seq<Address>, now: nat): Outcome {
    if toks == [] then Done(st)
    else match DistributeEach(st, toks[..|toks| - 1], now)
      case Panic => Panic
      case Done(mid) => DistributeOne(mid, toks[|toks| - 1], now)
  }

  function DoDistribute(st: State, toks: seq<Address>, now: nat): Outcome {
    match DistributeEach(st, toks, now)
    case Panic => Panic
    case Done(end) => Done(end.(lastAuto := now))
  }

  // ---- Entrypoints ---------------------------------------------------------------------------------------------

  datatype Op =
    | UpdateRatios(ratios: Ratios)
    | AddFeeToken(token: Address, now: nat)
    | SetInterval(interval: nat)
    | SetEmergency(active: bool)
    | Collect(token: Address, amount: int, now: nat)
    | Distribute(toks: seq<Address>, now: nat)
    | StakeForFees(u: Address, amount: int, compound: bool)
    | Unstake(u: Address, amount: int)
    | ClaimFees(u: Address, token: Address)
    | CompoundRewards(u: Address, token: Address)
    | CreateVesting(beneficiary: Address, token: Address, amount: int, duration: nat, cliff: nat, now: nat)
    | ClaimVested(id: nat, now: nat)
    | EmergencyWithdraw(token: Address, amount: int)

  function DoAddToken(st: State, t: Address, now: nat): State {
    if t in st.tokens then st
    else st.(tokens := st.tokens + [t],
             pools := if t in st.pools then st.pools else st.pools[t := FeePool(0, 0, 0, 0, 0, now)])
  }

  /** Fees transferred in and credited to the pool's pending amount. */
  function PaidIn(st: State, t: Address, amount: int): State requires t in st.pools {
    var p := st.pools[t];
    Deposit(st, t, amount).(
      pools := st.pools[t := p.(totalCollected := p.totalCollected + amount, pending := p.pending + amount)])
  }

  /** Collection, followed by an automatic distribution once the interval has elapsed. */
  function DoCollect(st: State, t: Address, amount: int, now: nat): Outcome {
    if st.emergency || amount <= 0 || t !in st.tokens || t !in st.pools then Panic
    else if st.interval == 0 || now < st.lastAuto + st.interval then Done(PaidIn(st, t, amount))
    else DoDistribute(PaidIn(st, t, amount), st.tokens, now)
  }

  function DoStake(st: State, u: Address, amount: int, compound: bool): Outcome {
    if st.emergency || amount <= 0 then Panic
    else
      var h := Deposit(Harvest(st, u, st.tokens), st.stakingToken, amount);
      var w := Reweigh(h, u, Stake(h, u) + amount);
      Done(w.(compounding := w.compounding[u := compound]))
  }

  function DoUnstake(st: State, u: Address, amount: int): Outcome {
    if amount <= 0 || amount > Stake(st, u) || amount > Get(st.balances, st.stakingToken) then Panic
    else
      var h := Harvest(st, u, st.tokens);
      Done(Deposit(Reweigh(h, u, Stake(h, u) - amount), st.stakingToken, -amount))
  }

  function AuditTaken(a: Audit, u: Address, t: Address, amount: int): Audit {
    a.(received := a.received[(u, t) := Get(a.received, (u, t)) + amount])
  }

  function Compounded(w: State, u: Address, t: Address, r: int): State {
    w.(audit := AuditTaken(w.audit, u, t, r).(compounded := w.audit.compounded[t := Get(w.audit.compounded, t) + r]))
  }

  /** Empty the stored reward and add it to the stake. */
  function Restake(h: State, u: Address, t: Address): State {
    var r := Reward(h, u, t);
    Compounded(Reweigh(h.(rewards := h.rewards[(u, t) := 0]), u, Stake(h, u) + r), u, t, r)
  }

  /** Empty the stored reward and transfer it out. */
  function PayOut(h: State, u: Address, t: Address): Outcome {
    var r := Reward(h, u, t);
    if r > Get(h.balances, t) then Panic
    else Done(Deposit(h, t, -r).(
      rewards := h.rewards[(u, t) := 0],
      audit := AuditTaken(h.audit, u, t, r).(paid := h.audit.paid[t := Get(h.audit.paid, t) + r])))
  }

  function DoClaim(st: State, u: Address, t: Address): Outcome {
    if st.emergency then Panic
    else
      var h := Harvest(st, u, st.tokens);
      if Reward(h, u, t) == 0 then Panic
      else if Compounds(st, u) then Done(Restake(h, u, t))
      else PayOut(h, u, t)
  }

  function DoCompound(st: State, u: Address, t: Address): Outcome {
    if !Compounds(st, u) then Panic
    else
      var h := Harvest(st, u, st.tokens);
      if Reward(h, u, t) == 0 then Done(h) else Done(Restake(h, u, t))
  }

  function DoCreateVesting(st: State, b: Address, t: Address, amount: int, duration: nat, cliff: nat,
                           now: nat): Outcome
  {
    if st.emergency || amount <= 0 || duration == 0 || cliff > duration || t !in st.pools
       || st.pools[t].governancePool < amount then Panic
    else Done(st.(
      pools := st.pools[t := st.pools[t].(governancePool := st.pools[t].governancePool - amount)],
      vestings := st.vestings + [Vesting(b, t, amount, 0, now, duration, cliff)]))
  }

  function Elapsed(v: Vesting, now: nat): nat {
    if now < v.startTime then 0 else now - v.startTime
  }

  /** What the linear schedule has released after the cliff, before looking at earlier claims. */
  function Vested(v: Vesting, now: nat): int {
    if Elapsed(v, now) >= v.duration then v.totalAmount else v.totalAmount * Elapsed(v, now) / v.duration
  }

  function DoClaimVested(st: State, id: nat, now: nat): Outcome {
    if id >= |st.vestings| || Elapsed(st.vestings[id], now) < st.vestings[id].cliff then Panic
    else
      var v := st.vestings[id];
      var claimable := Vested(v, now) - v.claimedAmount;
      if claimable <= 0 || claimable > Get(st.balances, v.token) then Panic
      else Done(Deposit(st, v.token, -claimable).(
        vestings := st.vestings[id := v.(claimedAmount := v.claimedAmount + claimable)]))
  }

  function DoEmergencyWithdraw(st: State, t: Address, amount: int): Outcome {
    if !st.emergency || amount < 0 || amount > Get(st.balances, t) then Panic
    else Done(Deposit(st, t, -amount).(
      audit := st.audit.(withdrawn := st.audit.withdrawn[t := Get(st.audit.withdrawn, t) + amount])))
  }

  function Call(st: State, op: Op): Outcome {
    match op
    case UpdateRatios(r) => if ValidRatios(r) then Done(st.(ratios := r)) else Panic
    case AddFeeToken(t, now) => Done(DoAddToken(st, t, now))
    case SetInterval(i) => Done(st.(interval := i))
    case SetEmergency(b) => Done(st.(emergency := b))
    case Collect(t, amount, now) => DoCollect(st, t, amount, now)
    case Distribute(toks, now) =>
      if st.emergency then Panic else DoDistribute(st, if toks == [] then st.tokens else toks, now)
    case StakeForFees(u, amount, compound) => DoStake(st, u, amount, compound)
    case Unstake(u, amount) => DoUnstake(st, u, amount)
    case ClaimFees(u, t) => DoClaim(st, u, t)
    case CompoundRewards(u, t) => DoCompound(st, u, t)
    case CreateVesting(b, t, amount, duration, cliff, now) => DoCreateVesting(st, b, t, amount, duration, cliff, now)
    case ClaimVested(id, now) => DoClaimVested(st, id, now)
    case EmergencyWithdraw(t, amount) => DoEmergencyWithdraw(st, t, amount)
  }

  function Settle(st: State, o: Outcome): State {
    match o case Done(st') => st' case Panic => st
  }

  /** A whole history of calls from a given state. */
  function Run(st: State, ops: seq<Op>): State {
    if ops == [] then st
    else var mid := Run(st, ops[..|ops| - 1]);
         Settle(mid, Call(mid, ops[|ops| - 1]))
  }
}
