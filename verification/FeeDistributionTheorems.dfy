/** What stakers and vesting beneficiaries can rely on over whole histories of the fee distributor. */
module FeeDistributionTheorems {
  import opened Sums
  import opened Quotients
  import opened FeeDistribution
  import opened FeeDistributionInvariant

  // ---- Solvency -------------------------------------------------------------------------------------------------

  /** Stored plus live reward of one staker. */
  ghost function Owed(st: State, u: Address, t: Address): int {
    Reward(st, u, t) + Accrued(Stake(st, u), Acc(st, t)) - Debt(st, u, t)
  }

  ghost function OwedAll(st: State, t: Address): map<Address, int> {
    map u | u in st.stakes :: Owed(st, u, t)
  }

  ghost function Fractions(st: State, t: Address): map<Address, int> {
    map u | u in st.stakes :: Fraction(Stake(st, u), Acc(st, t))
  }

  /** All the contract must be able to pay in token t. */
  ghost function Liabilities(st: State, t: Address): int {
    Pending(st, t) + Governance(st, t) + VestingOwed(st.vestings, t) + Sum(OwedAll(st, t))
  }

  lemma PotentialsSplit(st: State, t: Address)
    ensures Sum(Potentials(st, t)) == PRECISION * Sum(OwedAll(st, t)) + Sum(Fractions(st, t))
    ensures Sum(Fractions(st, t)) >= 0
  {
    forall u | u in st.stakes
      ensures Potentials(st, t)[u] == Fractions(st, t)[u] + PRECISION * OwedAll(st, t)[u]
      ensures Fractions(st, t)[u] >= 0
    {
      SplitProduct(Stake(st, u), Acc(st, t));
    }
    SumLinear(Fractions(st, t), OwedAll(st, t), Potentials(st, t), PRECISION);
    SumNonNegative(Fractions(st, t));
  }

  /** The contract's exact scaled surplus over its liabilities: fractions stakers still hold, rounding dust and
      rewards kept back by compounding, less what debt resets created. So the reserve covers everything exactly
      when the resets created no more than the rest. */
  lemma ExactSurplus(stakingToken: Address, ratios: Ratios, ops: seq<Op>, t: Address)
    requires ValidRatios(ratios) && t != stakingToken
    ensures var st := Run(Init(stakingToken, ratios), ops);
      var kept := Sum(Fractions(st, t)) + Get(st.audit.dust, t) + PRECISION * Get(st.audit.compounded, t);
      && PRECISION * (Get(st.balances, t) + Get(st.audit.withdrawn, t) - Liabilities(st, t))
         == kept - Get(st.audit.gained, t)
      && (Get(st.balances, t) + Get(st.audit.withdrawn, t) >= Liabilities(st, t)
          <==> Get(st.audit.gained, t) <= kept)
  {
    RunInv(stakingToken, ratios, ops);
    var st := Run(Init(stakingToken, ratios), ops);
    hide Run, Shape, Potentials, Fractions, OwedAll;
    assert Law(st, t);
    PotentialsSplit(st, t);
  }

  /** Rewards ever credited for a token exceed the staker slices distributed by at most one unit per debt reset. */
  lemma CreditedAtMostDistributed(stakingToken: Address, ratios: Ratios, ops: seq<Op>, t: Address)
    requires ValidRatios(ratios)
    ensures var st := Run(Init(stakingToken, ratios), ops);
      Get(st.audit.paid, t) + Get(st.audit.compounded, t) + Sum(OwedAll(st, t))
      <= Get(st.audit.toStakers, t) + Get(st.audit.resets, t)
  {
    RunInv(stakingToken, ratios, ops);
    var st := Run(Init(stakingToken, ratios), ops);
    hide Run, Shape, Potentials, Fractions, OwedAll;
    assert Law(st, t);
    PotentialsSplit(st, t);
  }

  /** The call completes and resets its staker's debts: it stakes, unstakes, or turns a reward into stake. */
  predicate ResetsDebts(st: State, op: Op) {
    Call(st, op).Done?
    && match op
       case StakeForFees(_, _, _) => true
       case Unstake(_, _) => true
       case ClaimFees(u, _) => Compounds(st, u)
       case CompoundRewards(u, x) => Reward(Harvest(st, u, st.tokens), u, x) != 0
       case _ => false
  }

  /** How often a run reset a debt on t. */
  function DebtResets(st: State, ops: seq<Op>, t: Address): nat {
    if ops == [] then 0
    else
      var init := ops[..|ops| - 1];
      DebtResets(st, init, t)
      + if ResetsDebts(Run(st, init), ops[|ops| - 1]) && t in Run(st, init).pools then 1 else 0
  }

  lemma {:induction false} DistributeEachFrame(st: State, toks: seq<Address>, now: nat)
    requires DistributeEach(st, toks, now).Done?
    ensures var st' := DistributeEach(st, toks, now).st; var a := st'.audit;
      && st'.vestings == st.vestings
      && a == st.audit.(toStakers := a.toStakers, dust := a.dust, rounds := a.rounds, exactPerShare := a.exactPerShare)
  {
    if toks == [] {
    } else {
      DistributeEachFrame(st, toks[..|toks| - 1], now);
    }
  }

  lemma HarvestFrame(st: State, u: Address)
    ensures var h := Harvest(st, u, st.tokens);
      h == st.(rewards := h.rewards, debts := h.debts)
  {
    HarvestEachFrame(st, u, st.tokens);
  }

  lemma {:induction false} HarvestEachFrame(st: State, u: Address, toks: seq<Address>)
    ensures var h := HarvestEach(st, u, toks);
      h == st.(rewards := h.rewards, debts := h.debts)
  {
    if toks == [] {
    } else {
      HarvestEachFrame(st, u, toks[..|toks| - 1]);
    }
  }

  lemma ReweighFrame(st: State, u: Address, s: int)
    ensures var w := Reweigh(st, u, s);
      && w == st.(stakes := st.stakes[u := s], debts := w.debts, totalStaked := w.totalStaked, audit := w.audit)
      && w.audit == st.audit.(gained := w.audit.gained, resets := w.audit.resets)
      && forall t: Address :: Get(w.audit.resets, t) == Get(st.audit.resets, t) + if t in st.pools then 1 else 0
  {
    SyncEffect(st.(stakes := st.stakes[u := s]), u, s, st.tokens);
  }

  /** One more debt reset on a pool t if reset, none otherwise; emergency withdrawals and vesting untouched. */
  ghost predicate Framed(a: State, b: State, t: Address, reset: bool) {
    && Get(b.audit.resets, t) == Get(a.audit.resets, t) + (if reset && t in a.pools then 1 else 0)
    && b.audit.withdrawn == a.audit.withdrawn && b.vestings == a.vestings
  }

  lemma StakeFrame(st: State, u: Address, amount: int, compound: bool, t: Address)
    requires DoStake(st, u, amount, compound).Done?
    ensures Framed(st, DoStake(st, u, amount, compound).st, t, true)
  {
    hide Reweigh, Harvest;
    HarvestFrame(st, u);
    var h := Deposit(Harvest(st, u, st.tokens), st.stakingToken, amount);
    ReweighFrame(h, u, Stake(h, u) + amount);
  }

  lemma UnstakeFrame(st: State, u: Address, amount: int, t: Address)
    requires DoUnstake(st, u, amount).Done?
    ensures Framed(st, DoUnstake(st, u, amount).st, t, true)
  {
    hide Reweigh, Harvest;
    HarvestFrame(st, u);
    var h := Harvest(st, u, st.tokens);
    ReweighFrame(h, u, Stake(h, u) - amount);
  }

  lemma RestakeFrame(st: State, u: Address, x: Address, t: Address)
    ensures var h := Harvest(st, u, st.tokens);
      && h == st.(rewards := h.rewards, debts := h.debts)
      && Framed(st, Restake(h, u, x), t, true)
  {
    hide Reweigh, Harvest;
    HarvestFrame(st, u);
    var h := Harvest(st, u, st.tokens);
    ReweighFrame(h.(rewards := h.rewards[(u, x) := 0]), u, Stake(h, u) + Reward(h, u, x));
  }

  lemma ClaimFrame(st: State, op: Op, t: Address)
    requires (op.ClaimFees? || op.CompoundRewards?) && Call(st, op).Done?
    ensures Framed(st, Call(st, op).st, t, ResetsDebts(st, op))
  {
    hide Harvest, Restake;
    RestakeFrame(st, op.u, op.token, t);
  }

  lemma DistributionFrame(st: State, op: Op, t: Address)
    requires (op.Collect? || op.Distribute?) && Call(st, op).Done?
    ensures Framed(st, Call(st, op).st, t, false)
  {
    hide DistributeEach;
    if op.Distribute? {
      DistributeEachFrame(st, if op.toks == [] then st.tokens else op.toks, op.now);
    } else if !(st.interval == 0 || op.now < st.lastAuto + st.interval) {
      DistributeEachFrame(PaidIn(st, op.token, op.amount), st.tokens, op.now);
    }
  }

  /** Whether a call resets a debt, exactly; only emergency withdrawals are booked as such, and only the two vesting
      calls touch schedules. */
  lemma CallFrame(st: State, op: Op, t: Address)
    ensures var st' := Settle(st, Call(st, op));
      && Get(st'.audit.resets, t)
         == Get(st.audit.resets, t) + (if ResetsDebts(st, op) && t in st.pools then 1 else 0)
      && (if op.EmergencyWithdraw? && Call(st, op).Done?
          then Get(st'.audit.withdrawn, t) == Get(st.audit.withdrawn, t) + (if op.token == t then op.amount else 0)
          else st'.audit.withdrawn == st.audit.withdrawn)
      && (!op.CreateVesting? && !op.ClaimVested? ==> st'.vestings == st.vestings)
  {
    hide DoStake, DoUnstake, DoClaim, DoCompound, DoCollect, DoDistribute, Harvest;
    if Call(st, op).Done? {
      match op
      case Collect(_, _, _) => DistributionFrame(st, op, t);
      case Distribute(_, _) => DistributionFrame(st, op, t);
      case StakeForFees(u, amount, compound) => StakeFrame(st, u, amount, compound, t);
      case Unstake(u, amount) => UnstakeFrame(st, u, amount, t);
      case ClaimFees(_, _) => ClaimFrame(st, op, t);
      case CompoundRewards(_, _) => ClaimFrame(st, op, t);
      case _ => OtherFrame(st, op);
    }
    hide DoAddToken, DoCreateVesting, DoClaimVested;
  }

  /** The calls that neither stake nor distribute reset nothing. */
  lemma OtherFrame(st: State, op: Op)
    requires !op.Collect? && !op.Distribute? && !op.StakeForFees? && !op.Unstake?
    requires !op.ClaimFees? && !op.CompoundRewards?
    requires Call(st, op).Done?
    ensures var st' := Call(st, op).st;
      && st'.audit.resets == st.audit.resets
      && (!op.EmergencyWithdraw? ==> st'.audit.withdrawn == st.audit.withdrawn)
      && (!op.CreateVesting? && !op.ClaimVested? ==> st'.vestings == st.vestings)
  {
    hide DoStake, DoUnstake, DoClaim, DoCompound, DoCollect, DoDistribute, Vested;
  }

  /** The audit counts the debt resets of a run, no more and no fewer. */
  lemma {:induction false} RunAudit(init: State, ops: seq<Op>, t: Address)
    requires init.audit == FreshAudit
    ensures Get(Run(init, ops).audit.resets, t) == DebtResets(init, ops, t)
    ensures (forall op :: op in ops ==> !op.EmergencyWithdraw?) ==> Run(init, ops).audit.withdrawn == map[]
  {
    hide Call, ResetsDebts;
    if ops == [] {
    } else {
      RunAudit(init, ops[..|ops| - 1], t);
      CallFrame(Run(init, ops[..|ops| - 1]), ops[|ops| - 1], t);
    }
  }

  /** On every history without an emergency withdrawal, what the contract holds of a fee token other than the staking
      token, plus one unit per debt reset made on it, covers everything it owes in that token. */
  lemma Solvency(stakingToken: Address, ratios: Ratios, ops: seq<Op>, t: Address)
    requires ValidRatios(ratios) && t != stakingToken
    requires forall op :: op in ops ==> !op.EmergencyWithdraw?
    ensures var st := Run(Init(stakingToken, ratios), ops);
      Get(st.balances, t) + DebtResets(Init(stakingToken, ratios), ops, t) >= Liabilities(st, t)
  {
    var st := Run(Init(stakingToken, ratios), ops);
    RunAudit(Init(stakingToken, ratios), ops, t);
    RunInv(stakingToken, ratios, ops);
    hide Run, Shape, Potentials, Fractions, OwedAll, DebtResets;
    assert Law(st, t);
    PotentialsSplit(st, t);
  }

  // ---- Fair share -------------------------------------------------------------------------------------------------

  /** Everything a staker has had or can have: rewards taken, stored and live. */
  ghost function Entitled(st: State, u: Address, t: Address): int {
    Get(st.audit.received, (u, t)) + Owed(st, u, t)
  }

  /** The call leaves u's stake alone. Harvests and plain claims are allowed. */
  predicate Steady(st: State, op: Op, u: Address) {
    match op
    case StakeForFees(v, _, _) => v != u
    case Unstake(v, _) => v != u
    case CompoundRewards(v, _) => v != u
    case ClaimFees(v, _) => v != u || !Compounds(st, u)
    case _ => true
  }

  /** What decides u's entitlement to t: its stake, what was taken or stored less the debt, and the accumulator
      beside the number of distributions and the unrounded accumulator that drove it. */
  datatype Account = Account(stake: int, compounds: bool, settled: int, acc: int, rounds: int, exact: real)

  ghost function View(st: State, u: Address, t: Address): Account {
    Account(Stake(st, u), Compounds(st, u),
            Get(st.audit.received, (u, t)) + Reward(st, u, t) - Debt(st, u, t),
            Acc(st, t), Get(st.audit.rounds, t), GetReal(st.audit.exactPerShare, t))
  }

  lemma EntitledIsView(st: State, u: Address, t: Address)
    ensures Entitled(st, u, t) == View(st, u, t).settled + Accrued(Stake(st, u), Acc(st, t))
  {}

  /** Only the accumulator moved. It follows the unrounded one from below, losing less than one scaled unit
      per distribution. */
  ghost predicate Tracks(a: Account, b: Account) {
    && b == a.(acc := b.acc, rounds := b.rounds, exact := b.exact)
    && a.acc <= b.acc
    && var exact := PRECISION as real * (b.exact - a.exact);
       exact - (b.rounds - a.rounds) as real <= (b.acc - a.acc) as real <= exact
  }

  lemma RealPositive(a: real, k: real)
    requires a > 0.0 && k > 0.0
    ensures a * k > 0.0
  {}

  lemma RealCancel(a: real, b: real, k: real, x: real)
    requires k > 0.0 && b * k == x && a * k <= x
    ensures a <= b
  {
    assert (a - b) * k == a * k - b * k;
    if a > b { RealPositive(a - b, k); }
  }

  lemma FloorTracks(cut: int, total: int)
    requires cut > 0 && total > 0
    ensures var exact := PRECISION as real * (cut as real / total as real);
      exact - 1.0 <= (cut * PRECISION / total) as real <= exact
  {
    var q := cut * PRECISION / total;
    FloorBounds(cut * PRECISION, total);
    ScaledQuotient(cut as real, total as real, PRECISION as real, q as real) by {
      assert (q * total) as real == q as real * total as real;
      assert ((q + 1) * total) as real == (q as real + 1.0) * total as real;
    }
  }

  lemma ScaledQuotient(c: real, t: real, p: real, q: real)
    requires t > 0.0 && q * t <= c * p <= (q + 1.0) * t
    ensures p * (c / t) - 1.0 <= q <= p * (c / t)
  {
    BetweenQuotients(p * (c / t), t, c * p, q) by {
      assert (p * (c / t)) * t == c * p;
    }
  }

  lemma BetweenQuotients(e: real, t: real, x: real, q: real)
    requires t > 0.0 && e * t == x && q * t <= x <= (q + 1.0) * t
    ensures e - 1.0 <= q <= e
  {
    RealCancel(q, e, t, x);
    RealCancel(e, q + 1.0, t, (q + 1.0) * t);
  }

  /** One step of the accumulator against one step of its unrounded counterpart. */
  lemma RoundTracks(st: State, x: Address, t: Address)
    requires Shape(st) && x in st.pools
    ensures var a := AuditRound(st, x); var d := if x == t then Delta(st, x) else 0;
      var exact := PRECISION as real * (GetReal(a.exactPerShare, t) - GetReal(st.audit.exactPerShare, t));
      && d >= 0
      && exact - (Get(a.rounds, t) - Get(st.audit.rounds, t)) as real <= d as real <= exact
      && a.received == st.audit.received
  {
    DeltaSplit(st, x);
    if st.totalStaked > 0 && StakersCut(st, x) > 0 {
      FloorTracks(StakersCut(st, x), st.totalStaked);
    }
    hide StakersCut, Shape;
  }

  /** One distribution moves the accumulator of its own token by the recorded step and nobody's settled part. */
  lemma DistributeOneView(st: State, x: Address, now: nat, u: Address, t: Address)
    requires x in st.pools && st.pools[x].pending != 0 && DistributeOne(st, x, now).Done?
    requires DistributedPool(st, x, now).accFeePerShare == Acc(st, x) + Delta(st, x)
    ensures var a, b := View(st, u, t), View(DistributeOne(st, x, now).st, u, t); var r := AuditRound(st, x);
      && b == a.(acc := b.acc, rounds := b.rounds, exact := b.exact)
      && b.acc == a.acc + (if x == t then Delta(st, x) else 0)
      && b.rounds == Get(r.rounds, t) && b.exact == GetReal(r.exactPerShare, t)
  {
    hide TreasuryCut, DistributedPool, Delta, StakersCut;
  }

  lemma DistributeOneTracks(st: State, x: Address, now: nat, u: Address, t: Address)
    requires Shape(st) && DistributeOne(st, x, now).Done?
    ensures Tracks(View(st, u, t), View(DistributeOne(st, x, now).st, u, t))
  {
    hide DistributeOne, Shape, AuditRound, DistributedPool, Delta, PoolOk;
    if x in st.pools && st.pools[x].pending != 0 {
      RoundTracks(st, x, t);
      DistributedPoolOk(st, x, now);
      DistributeOneView(st, x, now, u, t);
    } else {
      NothingDistributed(st, x, now);
    }
  }

  lemma NothingDistributed(st: State, x: Address, now: nat)
    requires x !in st.pools || st.pools[x].pending == 0
    ensures DistributeOne(st, x, now) == Done(st)
  {}

  lemma {:induction false} DistributeEachTracks(st: State, toks: seq<Address>, now: nat, u: Address, t: Address)
    requires Shape(st) && DistributeEach(st, toks, now).Done?
    ensures Tracks(View(st, u, t), View(DistributeEach(st, toks, now).st, u, t))
  {
    hide Shape, DistributeOne, View;
    if toks == [] {
    } else {
      var init, last := toks[..|toks| - 1], toks[|toks| - 1];
      DistributeEachTracks(st, init, now, u, t);
      DistributeEachCarries(st, init, now);
      DistributeOneTracks(DistributeEach(st, init, now).st, last, now, u, t);
    }
  }

  lemma DoDistributeTracks(st: State, toks: seq<Address>, now: nat, u: Address, t: Address)
    requires Shape(st) && DoDistribute(st, toks, now).Done?
    ensures Tracks(View(st, u, t), View(DoDistribute(st, toks, now).st, u, t))
  {
    DistributeEachTracks(st, toks, now, u, t);
    var mid := DistributeEach(st, toks, now).st;
    hide Shape, DistributeEach, Tracks;
    assert View(mid.(lastAuto := now), u, t) == View(mid, u, t);
  }

  lemma HarvestView(st: State, v: Address, u: Address, t: Address)
    requires Shape(st)
    ensures View(Harvest(st, v, st.tokens), u, t) == View(st, u, t)
  {
    HarvestEffect(st, v);
    hide Shape, Harvest, Accrued;
    assert AccountOk(Harvest(st, v, st.tokens), u, t);
  }

  lemma ReweighView(h: State, v: Address, s: int, u: Address, t: Address)
    requires Shape(h) && s >= 0 && u != v
    ensures View(Reweigh(h, v, s), u, t) == View(h, u, t)
  {
    ReweighAccounts(h, v, s);
    ReweighFrame(h, v, s);
    hide Shape, Reweigh, Accrued;
  }

  lemma RestakeView(h: State, v: Address, x: Address, u: Address, t: Address)
    requires Shape(h) && u != v && Reward(h, v, x) != 0
    ensures View(Restake(h, v, x), u, t) == View(h, u, t)
  {
    hide Shape, Reweigh, View, Compounded;
    TakenShape(h, v, x);
    var r, g := Reward(h, v, x), h.(rewards := h.rewards[(v, x) := 0]);
    TakenView(h, v, x, u, t);
    ReweighView(g, v, Stake(h, v) + r, u, t);
    CompoundedView(Reweigh(g, v, Stake(h, v) + r), v, x, r, u, t);
  }

  lemma TakenShape(h: State, v: Address, x: Address)
    requires Shape(h) && Reward(h, v, x) != 0
    ensures Shape(h.(rewards := h.rewards[(v, x) := 0])) && Stake(h, v) + Reward(h, v, x) >= 0
  {
    AccountAt(h, v, x);
    StakeNonNegative(h, v);
    TakenGap(h, v, x);
    hide Shape, AccrualGap, CustodyGap;
  }

  lemma TakenView(h: State, v: Address, x: Address, u: Address, t: Address)
    requires u != v
    ensures View(h.(rewards := h.rewards[(v, x) := 0]), u, t) == View(h, u, t)
  {}

  lemma CompoundedView(w: State, v: Address, x: Address, r: int, u: Address, t: Address)
    requires u != v
    ensures View(Compounded(w, v, x, r), u, t) == View(w, u, t)
  {}

  lemma StakeView(st: State, v: Address, amount: int, compound: bool, u: Address, t: Address)
    requires Shape(st) && u != v && DoStake(st, v, amount, compound).Done?
    ensures View(DoStake(st, v, amount, compound).st, u, t) == View(st, u, t)
  {
    hide Shape, Reweigh, Accrued, AccrualGap, CustodyGap, AuditOk, Harvest;
    HarvestView(st, v, u, t);
    HarvestCarries(st, v);
    var h := Harvest(st, v, st.tokens);
    StakingDepositCarries(h, amount);
    StakeNonNegative(h, v);
    var d := Deposit(h, h.stakingToken, amount);
    ReweighView(d, v, Stake(d, v) + amount, u, t);
    assert View(d, u, t) == View(h, u, t);
  }

  lemma UnstakeView(st: State, v: Address, amount: int, u: Address, t: Address)
    requires Shape(st) && u != v && DoUnstake(st, v, amount).Done?
    ensures View(DoUnstake(st, v, amount).st, u, t) == View(st, u, t)
  {
    hide Shape, Reweigh, Accrued, AccrualGap, CustodyGap, AuditOk, Harvest;
    HarvestFrame(st, v);
    HarvestView(st, v, u, t);
    HarvestCarries(st, v);
    var h := Harvest(st, v, st.tokens);
    ReweighView(h, v, Stake(h, v) - amount, u, t);
  }

  lemma PayOutView(h: State, v: Address, x: Address, u: Address, t: Address)
    requires PayOut(h, v, x).Done?
    ensures View(PayOut(h, v, x).st, u, t) == View(h, u, t)
  {}

  lemma ClaimView(st: State, v: Address, x: Address, u: Address, t: Address)
    requires Shape(st) && DoClaim(st, v, x).Done? && Steady(st, ClaimFees(v, x), u)
    ensures View(DoClaim(st, v, x).st, u, t) == View(st, u, t)
  {
    HarvestView(st, v, u, t);
    HarvestCarries(st, v);
    hide Shape, View, AccrualGap, CustodyGap, AuditOk, Harvest, Restake, PayOut;
    var h := Harvest(st, v, st.tokens);
    if Compounds(st, v) { RestakeView(h, v, x, u, t); } else { PayOutView(h, v, x, u, t); }
  }

  lemma CompoundView(st: State, v: Address, x: Address, u: Address, t: Address)
    requires Shape(st) && DoCompound(st, v, x).Done? && u != v
    ensures View(DoCompound(st, v, x).st, u, t) == View(st, u, t)
  {
    HarvestView(st, v, u, t);
    HarvestCarries(st, v);
    hide Shape, View, AccrualGap, CustodyGap, AuditOk, Harvest, Restake;
    var h := Harvest(st, v, st.tokens);
    if Reward(h, v, x) != 0 { RestakeView(h, v, x, u, t); }
  }

  lemma CollectTracks(st: State, x: Address, amount: int, now: nat, u: Address, t: Address)
    requires Shape(st) && DoCollect(st, x, amount, now).Done?
    ensures Tracks(View(st, u, t), View(DoCollect(st, x, amount, now).st, u, t))
  {
    PaidInCarries(st, x, amount);
    var p := PaidIn(st, x, amount);
    assert View(p, u, t) == View(st, u, t);
    hide Shape, View, DoDistribute, PaidIn, AccrualGap, CustodyGap, AuditOk;
    if !(st.interval == 0 || now < st.lastAuto + st.interval) {
      DoDistributeTracks(p, st.tokens, now, u, t);
    }
  }

  lemma NewPoolView(st: State, x: Address, now: nat, u: Address, t: Address)
    requires Shape(st)
    ensures View(DoAddToken(st, x, now), u, t) == View(st, u, t)
  {
    hide Accounts, Sum, Accrued;
  }

  lemma SettingsView(a: State, b: State, u: Address, t: Address)
    requires b.stakes == a.stakes && b.compounding == a.compounding && b.rewards == a.rewards && b.debts == a.debts
    requires Acc(b, t) == Acc(a, t) && b.audit == a.audit.(withdrawn := b.audit.withdrawn)
    ensures View(b, u, t) == View(a, u, t)
  {}

  lemma SteadyStep(st: State, op: Op, u: Address, t: Address)
    requires Shape(st) && Steady(st, op, u)
    ensures Tracks(View(st, u, t), View(Settle(st, Call(st, op)), u, t))
  {
    hide Shape, View, DoDistribute, DoCollect, DoStake, DoUnstake, DoClaim, DoCompound, DoAddToken;
    if Call(st, op).Done? {
      match op
      case Collect(x, amount, now) => CollectTracks(st, x, amount, now, u, t);
      case Distribute(toks, now) => DoDistributeTracks(st, if toks == [] then st.tokens else toks, now, u, t);
      case StakeForFees(v, amount, compound) => StakeView(st, v, amount, compound, u, t);
      case Unstake(v, amount) => UnstakeView(st, v, amount, u, t);
      case ClaimFees(v, x) => ClaimView(st, v, x, u, t);
      case CompoundRewards(v, x) => CompoundView(st, v, x, u, t);
      case AddFeeToken(x, now) => NewPoolView(st, x, now, u, t);
      case _ => SettingsView(st, Call(st, op).st, u, t);
    }
  }

  ghost predicate SteadyRun(st: State, ops: seq<Op>, u: Address) {
    forall i :: 0 <= i < |ops| ==> Steady(Run(st, ops[..i]), ops[i], u)
  }

  lemma {:induction false} SteadyRunTracks(st: State, ops: seq<Op>, u: Address, t: Address)
    requires Shape(st) && SteadyRun(st, ops, u)
    ensures Shape(Run(st, ops)) && Tracks(View(st, u, t), View(Run(st, ops), u, t))
  {
    hide Shape, View, Call, Steady, AccrualGap, CustodyGap, AuditOk;
    if ops == [] {
    } else {
      var init, last := ops[..|ops| - 1], ops[|ops| - 1];
      forall i | 0 <= i < |init| ensures Steady(Run(st, init[..i]), init[i], u) {
        assert init[..i] == ops[..i];
      }
      SteadyRunTracks(st, init, u, t);
      CallCarries(Run(st, init), last);
      SteadyStep(Run(st, init), last, u, t);
    }
  }

  /** While a stake s does not change, its holder is credited floor(s*A1/P) - floor(s*A0/P), however often
      rewards are harvested or claimed and whatever others do; this is less than one unit above the exact
      pro-rata share and less than one unit plus s/P per distribution below it. */
  lemma FairShare(st: State, ops: seq<Op>, u: Address, t: Address)
    requires Inv(st) && SteadyRun(st, ops, u)
    ensures var end, s := Run(st, ops), Stake(st, u);
      var credit := Entitled(end, u, t) - Entitled(st, u, t);
      var exact := s as real * (GetReal(end.audit.exactPerShare, t) - GetReal(st.audit.exactPerShare, t));
      var rounds := (Get(end.audit.rounds, t) - Get(st.audit.rounds, t)) as real;
      && credit == Accrued(s, Acc(end, t)) - Accrued(s, Acc(st, t))
      && exact - s as real * rounds / PRECISION as real - 1.0 < credit as real < exact + 1.0
  {
    hide Run, Inv, Shape, SteadyRun, Entitled, Accrued;
    InvShape(st);
    SteadyRunTracks(st, ops, u, t);
    StakeNonNegative(st, u);
    var a, b := View(st, u, t), View(Run(st, ops), u, t);
    EntitledIsView(st, u, t);
    EntitledIsView(Run(st, ops), u, t);
    CreditBounds(a.stake, a.acc, b.acc, b.exact - a.exact, (b.rounds - a.rounds) as real);
  }

  lemma InvShape(st: State)
    requires Inv(st)
    ensures Shape(st)
  {}

  lemma CreditBounds(s: int, a: int, b: int, e: real, n: real)
    requires s >= 0 && PRECISION as real * e - n <= (b - a) as real <= PRECISION as real * e
    ensures s as real * e - s as real * n / PRECISION as real - 1.0
            < (Accrued(s, b) - Accrued(s, a)) as real < s as real * e + 1.0
  {
    SplitProduct(s, a);
    SplitProduct(s, b);
    assert s * b - s * a == s * (b - a);
    var credit := Accrued(s, b) - Accrued(s, a);
    assert s * (b - a) - PRECISION < PRECISION * credit < s * (b - a) + PRECISION;
    hide Accrued, Fraction;
    assert (s * (b - a)) as real == s as real * (b - a) as real;
    ShareBounds(s as real, (b - a) as real, credit as real, PRECISION as real, e, n);
  }

  lemma RealProduct(x: real, a: real, b: real)
    requires x >= 0.0 && a <= b
    ensures x * a <= x * b
  {}

  lemma ShareBounds(x: real, step: real, c: real, p: real, e: real, n: real)
    requires x >= 0.0 && p > 0.0
    requires x * step - p < p * c < x * step + p
    requires p * e - n <= step <= p * e
    ensures x * e - x * n / p - 1.0 < c < x * e + 1.0
  {
    var y := x * n / p;
    assert y * p == x * n;
    RealProduct(x, p * e - n, step);
    RealProduct(x, step, p * e);
    assert x * (p * e - n) == p * (x * e) - x * n;
    assert x * (p * e) == p * (x * e);
    if c >= x * e + 1.0 { RealProduct(p, x * e + 1.0, c); }
    if c <= x * e - y - 1.0 { RealProduct(p, c, x * e - y - 1.0); }
  }
}
