/** What every call of the fee distributor keeps: two exact conservation laws, one for rewards and one for tokens. */
module FeeDistributionInvariant {
  import opened Sums
  import opened FeeDistribution
  import opened Quotients

  // ---- The invariant --------------------------------------------------------------------------------------------

  ghost predicate PoolOk(p: FeePool) {
    p.pending >= 0 && p.accFeePerShare >= 0 && p.governancePool >= 0
    && p.totalCollected == p.totalDistributed + p.pending
  }

  ghost predicate VestingOk(v: Vesting) {
    0 <= v.claimedAmount <= v.totalAmount && v.duration > 0 && v.cliff <= v.duration
  }

  /** No debt exceeds what the stake has earned, so the source's subtraction never goes below zero. */
  ghost predicate AccountOk(st: State, u: Address, t: Address) {
    0 <= Debt(st, u, t) <= Accrued(Stake(st, u), Acc(st, t))
    && Reward(st, u, t) >= 0
    && (Reward(st, u, t) > 0 ==> u in st.stakes && t in st.pools)
  }

  ghost predicate Accounts(st: State) {
    forall u: Address, t: Address :: AccountOk(st, u, t)
  }

  ghost predicate Shape(st: State) {
    && ValidRatios(st.ratios)
    && (forall t :: t in st.pools <==> t in st.tokens)
    && (forall t :: t in st.pools ==> PoolOk(st.pools[t]))
    && (forall u :: u in st.stakes ==> st.stakes[u] >= 0)
    && st.totalStaked == Sum(st.stakes)
    && (forall v :: v in st.vestings ==> VestingOk(v))
    && Accounts(st)
  }

  /** A staker's scaled claim on a token: stored rewards, live rewards and the fraction not yet worth a unit. */
  ghost function Potential(st: State, u: Address, t: Address): int {
    PRECISION * (Reward(st, u, t) - Debt(st, u, t)) + Stake(st, u) * Acc(st, t)
  }

  ghost function Potentials(st: State, t: Address): map<Address, int> {
    map u | u in st.stakes :: Potential(st, u, t)
  }

  /** Zero exactly when every scaled reward is accounted for. */
  ghost function AccrualGap(st: State, t: Address): int {
    PRECISION * Get(st.audit.toStakers, t) + Get(st.audit.gained, t)
    - Sum(Potentials(st, t)) - Get(st.audit.dust, t)
    - PRECISION * (Get(st.audit.paid, t) + Get(st.audit.compounded, t))
  }

  ghost function VestingOwed(vs: seq<Vesting>, t: Address): int {
    if vs == [] then 0
    else VestingOwed(vs[..|vs| - 1], t)
         + var v := vs[|vs| - 1]; if v.token == t then v.totalAmount - v.claimedAmount else 0
  }

  ghost function Pending(st: State, t: Address): int { if t in st.pools then st.pools[t].pending else 0 }
  ghost function Governance(st: State, t: Address): int { if t in st.pools then st.pools[t].governancePool else 0 }

  /** Zero exactly when every token held is accounted for. */
  ghost function CustodyGap(st: State, t: Address): int {
    Get(st.balances, t) + Get(st.audit.withdrawn, t) + Get(st.audit.paid, t)
    - Pending(st, t) - Governance(st, t) - VestingOwed(st.vestings, t) - Get(st.audit.toStakers, t)
  }

  ghost predicate AuditOk(a: Audit, t: Address) {
    Get(a.dust, t) >= 0 && Get(a.compounded, t) >= 0 && Get(a.withdrawn, t) >= 0 && Get(a.paid, t) >= 0
    && Get(a.resets, t) >= 0 && Get(a.gained, t) <= (PRECISION - 1) * Get(a.resets, t)
  }

  ghost predicate Law(st: State, t: Address) {
    AccrualGap(st, t) == 0 && AuditOk(st.audit, t) && (t != st.stakingToken ==> CustodyGap(st, t) == 0)
  }

  ghost predicate Inv(st: State) {
    Shape(st) && forall t: Address :: Law(st, t)
  }

  /** The laws carry over from one state to the next. */
  ghost predicate Carries(st: State, st': State) {
    st'.stakingToken == st.stakingToken && Shape(st')
    && forall t: Address :: (AuditOk(st.audit, t) ==> AuditOk(st'.audit, t))
         && AccrualGap(st', t) == AccrualGap(st, t)
         && (t != st.stakingToken ==> CustodyGap(st', t) == CustodyGap(st, t))
  }

  // ---- Arithmetic ---------------------------------------------------------------------------------------------

  lemma SplitProduct(s: int, a: int)
    ensures s * a == PRECISION * Accrued(s, a) + Fraction(s, a)
    ensures 0 <= Fraction(s, a) < PRECISION
  {}

  lemma AccruedMonotone(s: int, a: int, b: int)
    requires 0 <= s && a <= b
    ensures Accrued(s, a) <= Accrued(s, b)
  {
    assert s * a <= s * b;
  }

  lemma AccruedNonNegative(s: int, a: int)
    requires 0 <= s && 0 <= a
    ensures 0 <= Accrued(s, a)
  {
    assert 0 <= s * a;
  }

  // ---- Harvesting -----------------------------------------------------------------------------------------------

  /** Harvesting moves live rewards into storage and changes no one's claim. */
  ghost predicate Harvested(st: State, h: State, u: Address) {
    && h == st.(rewards := h.rewards, debts := h.debts)
    && Accounts(h)
    && forall v: Address, t: Address ::
         AccountOk(h, v, t)
         && Reward(h, v, t) - Debt(h, v, t) == Reward(st, v, t) - Debt(st, v, t)
         && (v != u ==> Reward(h, v, t) == Reward(st, v, t))
  }

  lemma HarvestOneEffect(st: State, u: Address, t: Address)
    requires Accounts(st)
    ensures Harvested(st, HarvestOne(st, u, t), u)
    ensures t in st.pools ==> Debt(HarvestOne(st, u, t), u, t) == Accrued(Stake(st, u), Acc(st, t))
    ensures forall x: Address :: x != t ==> Debt(HarvestOne(st, u, t), u, x) == Debt(st, u, x)
  {
    var h := HarvestOne(st, u, t);
    forall v: Address, x: Address
      ensures AccountOk(h, v, x)
      ensures Reward(h, v, x) - Debt(h, v, x) == Reward(st, v, x) - Debt(st, v, x)
      ensures v != u ==> Reward(h, v, x) == Reward(st, v, x)
      ensures x != t ==> Debt(h, u, x) == Debt(st, u, x)
    {
      HarvestOneAccount(st, u, t, v, x);
    }
    HarvestOneAccount(st, u, t, u, t);
    HarvestOneShape(st, u, t);
    hide HarvestOne, AccountOk;
  }

  lemma HarvestOneShape(st: State, u: Address, t: Address)
    ensures var h := HarvestOne(st, u, t); h == st.(rewards := h.rewards, debts := h.debts)
  {}

  lemma HarvestOneAccount(st: State, u: Address, t: Address, v: Address, x: Address)
    requires Accounts(st)
    ensures var h := HarvestOne(st, u, t);
      && AccountOk(h, v, x)
      && Reward(h, v, x) - Debt(h, v, x) == Reward(st, v, x) - Debt(st, v, x)
      && (v != u || x != t ==> Reward(h, v, x) == Reward(st, v, x) && Debt(h, v, x) == Debt(st, v, x))
      && (t in st.pools ==> Debt(h, u, t) == Accrued(Stake(st, u), Acc(st, t)))
  {
    assert AccountOk(st, u, t) && AccountOk(st, v, x);
    hide Accounts;
  }

  lemma {:induction false} HarvestEachEffect(st: State, u: Address, toks: seq<Address>)
    requires Accounts(st)
    ensures Harvested(st, HarvestEach(st, u, toks), u)
    ensures forall t :: t in toks && t in st.pools ==>
              Debt(HarvestEach(st, u, toks), u, t) == Accrued(Stake(st, u), Acc(st, t))
  {
    if toks == [] {
      assert Harvested(st, st, u) by {
        assert forall v: Address, t: Address :: AccountOk(st, v, t);
      }
    } else {
      var init, last := toks[..|toks| - 1], toks[|toks| - 1];
      HarvestEachEffect(st, u, init);
      var mid := HarvestEach(st, u, init);
      HarvestOneEffect(mid, u, last);
      var h := HarvestOne(mid, u, last);
      forall v: Address, t: Address
        ensures AccountOk(h, v, t)
        ensures Reward(h, v, t) - Debt(h, v, t) == Reward(st, v, t) - Debt(st, v, t)
        ensures v != u ==> Reward(h, v, t) == Reward(st, v, t)
      {
        assert AccountOk(mid, v, t);
      }
    }
  }

  lemma HarvestEffect(st: State, u: Address)
    requires Shape(st)
    ensures Harvested(st, Harvest(st, u, st.tokens), u)
    ensures forall t :: t in st.pools ==>
              Debt(Harvest(st, u, st.tokens), u, t) == Accrued(Stake(st, u), Acc(st, t))
  {
    var h := Harvest(st, u, st.tokens);
    if Stake(st, u) == 0 {
      forall t | t in st.pools ensures Debt(h, u, t) == Accrued(Stake(st, u), Acc(st, t)) {
        assert AccountOk(st, u, t);
      }
      assert forall v: Address, t: Address :: AccountOk(st, v, t);
    } else {
      HarvestEachEffect(st, u, st.tokens);
    }
  }

  lemma HarvestCarries(st: State, u: Address)
    requires Shape(st)
    ensures Carries(st, Harvest(st, u, st.tokens))
  {
    HarvestEffect(st, u);
    var h := Harvest(st, u, st.tokens);
    forall t: Address ensures AccrualGap(h, t) == AccrualGap(st, t) {
      forall v | v in st.stakes ensures Potential(h, v, t) == Potential(st, v, t) {
        assert AccountOk(h, v, t);
      }
      assert Potentials(h, t) == Potentials(st, t);
    }
  }

  // ---- Changing a stake -----------------------------------------------------------------------------------------

  lemma SyncOneEffect(st: State, u: Address, s: int, x: Address)
    ensures var g := SyncOne(st, u, s, x);
      && g == st.(debts := g.debts)
      && forall v: Address, t: Address ::
           Debt(g, v, t) == if v == u && t == x && t in st.pools then Accrued(s, Acc(st, t)) else Debt(st, v, t)
  {
    hide Accrued;
  }

  lemma {:induction false} SyncEffect(st: State, u: Address, s: int, toks: seq<Address>)
    ensures var g := Sync(st, u, s, toks);
      && g == st.(debts := g.debts)
      && forall v: Address, t: Address ::
           Debt(g, v, t) == if v == u && t in toks && t in st.pools then Accrued(s, Acc(st, t)) else Debt(st, v, t)
  {
    hide Accrued, SyncOne;
    if toks == [] {
    } else {
      var init, last := toks[..|toks| - 1], toks[|toks| - 1];
      SyncEffect(st, u, s, init);
      assert forall t :: t in toks <==> t in init || t == last;
      SyncOneEffect(Sync(st, u, s, init), u, s, last);
    }
  }

  /** A debt reset restarts the staker at less than one unit, and the audit records exactly how much. */
  lemma ReweighCarries(h: State, u: Address, s: int)
    requires Shape(h) && s >= 0
    requires forall t :: t in h.pools ==> Debt(h, u, t) == Accrued(Stake(h, u), Acc(h, t))
    ensures Carries(h, Reweigh(h, u, s))
    ensures forall v: Address, t: Address :: Reward(Reweigh(h, u, s), v, t) == Reward(h, v, t)
    ensures forall t :: t in h.pools ==> Debt(Reweigh(h, u, s), u, t) == Accrued(s, Acc(h, t))
  {
    var w := Reweigh(h, u, s);
    SyncEffect(h.(stakes := h.stakes[u := s]), u, s, h.tokens);
    SumPut(h.stakes, u, s);
    ReweighAccounts(h, u, s);
    forall t: Address
      ensures AccrualGap(w, t) == AccrualGap(h, t) && (AuditOk(h.audit, t) ==> AuditOk(w.audit, t))
      ensures CustodyGap(w, t) == CustodyGap(h, t)
    {
      ReweighGap(h, u, s, t);
    }
  }

  lemma ReweighAccounts(h: State, u: Address, s: int)
    requires Shape(h) && s >= 0
    ensures Accounts(Reweigh(h, u, s))
    ensures forall v: Address, t: Address :: Debt(Reweigh(h, u, s), v, t) ==
              if v == u && t in h.pools then Accrued(s, Acc(h, t)) else Debt(h, v, t)
  {
    var w := Reweigh(h, u, s);
    var g := Sync(h.(stakes := h.stakes[u := s]), u, s, h.tokens);
    SyncEffect(h.(stakes := h.stakes[u := s]), u, s, h.tokens);
    forall v: Address, t: Address
      ensures AccountOk(w, v, t)
      ensures Debt(w, v, t) == if v == u && t in h.pools then Accrued(s, Acc(h, t)) else Debt(h, v, t)
    {
      assert AccountOk(h, v, t);
      assert Debt(w, v, t) == Debt(g, v, t);
      AccruedNonNegative(s, Acc(h, t));
    }
  }

  lemma AuditResetEffect(a: Audit, pools: map<Address, FeePool>, s0: int, s1: int, t: Address)
    ensures var b := AuditReset(a, pools, s0, s1);
      && Get(b.gained, t) - Get(a.gained, t) ==
           (if t in pools then Fraction(s1, pools[t].accFeePerShare) - Fraction(s0, pools[t].accFeePerShare) else 0)
      && (AuditOk(a, t) ==> AuditOk(b, t))
  {
    if t in pools {
      SplitProduct(s0, pools[t].accFeePerShare);
      SplitProduct(s1, pools[t].accFeePerShare);
    }
  }

  lemma ReweighPotential(h: State, u: Address, s: int, t: Address)
    requires Shape(h) && s >= 0
    requires t in h.pools ==> Debt(h, u, t) == Accrued(Stake(h, u), Acc(h, t))
    ensures var w := Reweigh(h, u, s);
      && Potential(w, u, t) - Potential(h, u, t) ==
           (if t in h.pools then Fraction(s, Acc(h, t)) - Fraction(Stake(h, u), Acc(h, t)) else 0)
      && forall v :: v != u ==> Potential(w, v, t) == Potential(h, v, t)
  {
    var w := Reweigh(h, u, s);
    SyncEffect(h.(stakes := h.stakes[u := s]), u, s, h.tokens);
    ReweighAccounts(h, u, s);
    assert AccountOk(h, u, t) && AccountOk(w, u, t);
    SplitProduct(Stake(h, u), Acc(h, t));
    SplitProduct(s, Acc(h, t));
    assert forall v: Address :: Reward(w, v, t) == Reward(h, v, t) && (v != u ==> Debt(w, v, t) == Debt(h, v, t));
  }

  /** Only u's claim on t changed, so the total changed by as much. */
  lemma PotentialsMove(h: State, w: State, u: Address, t: Address)
    requires w.stakes.Keys == h.stakes.Keys + {u}
    requires u !in h.stakes ==> Potential(h, u, t) == 0
    requires forall v :: v in h.stakes && v != u ==> Potential(w, v, t) == Potential(h, v, t)
    ensures Sum(Potentials(w, t)) - Sum(Potentials(h, t)) == Potential(w, u, t) - Potential(h, u, t)
  {
    var mine := Potential(w, u, t);
    assert Potentials(w, t) == Potentials(h, t)[u := mine];
    SumPut(Potentials(h, t), u, mine);
  }

  lemma NoStakeNoPotential(st: State, u: Address, t: Address)
    requires Accounts(st)
    ensures u !in st.stakes ==> Potential(st, u, t) == 0
  {
    assert AccountOk(st, u, t);
  }

  lemma ReweighGap(h: State, u: Address, s: int, t: Address)
    requires Shape(h) && s >= 0
    requires t in h.pools ==> Debt(h, u, t) == Accrued(Stake(h, u), Acc(h, t))
    ensures AccrualGap(Reweigh(h, u, s), t) == AccrualGap(h, t)
    ensures AuditOk(h.audit, t) ==> AuditOk(Reweigh(h, u, s).audit, t)
    ensures CustodyGap(Reweigh(h, u, s), t) == CustodyGap(h, t)
  {
    hide Fraction, Accrued, Potential, Potentials, Sync, AuditOk;
    var w := Reweigh(h, u, s);
    SyncEffect(h.(stakes := h.stakes[u := s]), u, s, h.tokens);
    ReweighPotential(h, u, s, t);
    NoStakeNoPotential(h, u, t);
    PotentialsMove(h, w, u, t);
    AuditResetEffect(h.audit, h.pools, Stake(h, u), s, t);
  }

  // ---- Distribution -----------------------------------------------------------------------------------------------

  lemma CutBounds(amount: int, bps: nat)
    requires amount >= 0 && bps <= BPS_DENOM
    ensures 0 <= BpsOf(amount, bps)
    ensures BpsOf(amount, bps) * BPS_DENOM <= amount * bps
  {
    assert 0 <= amount * bps;
  }

  /** The three cuts are non-negative and the treasury's remainder makes them add up to the whole. */
  lemma CutsSplit(st: State, t: Address)
    requires Shape(st) && t in st.pools
    ensures StakersCut(st, t) >= 0 && GovernanceCut(st, t) >= 0 && TreasuryCut(st, t) >= 0
    ensures StakersCut(st, t) + GovernanceCut(st, t) + TreasuryCut(st, t) == st.pools[t].pending
  {
    var p, r := st.pools[t].pending, st.ratios;
    CutBounds(p, r.stakersBps);
    CutBounds(p, r.governanceBps);
    assert p * r.stakersBps + p * r.governanceBps + p * r.treasuryBps == p * BPS_DENOM;
    assert p * r.treasuryBps >= 0;
  }

  lemma DeltaSplit(st: State, t: Address)
    requires Shape(st) && t in st.pools
    ensures Delta(st, t) >= 0
    ensures st.totalStaked > 0 && StakersCut(st, t) > 0 ==>
              Delta(st, t) * st.totalStaked + StakersCut(st, t) * PRECISION % st.totalStaked
              == StakersCut(st, t) * PRECISION
  {
    if st.totalStaked > 0 && StakersCut(st, t) > 0 {
      var x := StakersCut(st, t) * PRECISION;
      assert x / st.totalStaked >= 0;
      assert x == st.totalStaked * (x / st.totalStaked) + x % st.totalStaked;
    }
  }

  lemma DistributedPoolOk(st: State, t: Address, now: nat)
    requires Shape(st) && t in st.pools
    ensures PoolOk(DistributedPool(st, t, now))
    ensures DistributedPool(st, t, now).accFeePerShare == Acc(st, t) + Delta(st, t)
  {
    hide Delta, StakersCut, GovernanceCut;
    CutsSplit(st, t);
    DeltaSplit(st, t);
  }

  lemma DistributeOneAccounts(st: State, t: Address, now: nat)
    requires Shape(st) && DistributeOne(st, t, now).Done?
    ensures Accounts(DistributeOne(st, t, now).st)
  {
    hide Accrued, Delta, StakersCut, GovernanceCut, AuditRound;
    var st' := DistributeOne(st, t, now).st;
    if t in st.pools {
      DistributedPoolOk(st, t, now);
      DeltaSplit(st, t);
    }
    forall u: Address, x: Address ensures AccountOk(st', u, x) {
      assert AccountOk(st, u, x);
      AccruedMonotone(Stake(st, u), Acc(st, x), Acc(st', x));
    }
  }

  lemma DistributeOneShape(st: State, t: Address, now: nat)
    requires Shape(st) && DistributeOne(st, t, now).Done?
    ensures Shape(DistributeOne(st, t, now).st)
  {
    DistributeOneAccounts(st, t, now);
    hide Accounts, DistributedPool, TreasuryCut, AuditRound, Sum;
    if t in st.pools {
      DistributedPoolOk(st, t, now);
    }
  }

  lemma DistributeOnePotential(st: State, t: Address, now: nat, x: Address, u: Address)
    requires Shape(st) && t in st.pools && st.pools[t].pending != 0 && DistributeOne(st, t, now).Done?
    ensures Potential(DistributeOne(st, t, now).st, u, x)
            == Potential(st, u, x) + (if x == t then Delta(st, t) else 0) * Stake(st, u)
  {
    hide Shape, Delta, StakersCut, GovernanceCut, AuditRound;
    var d := if x == t then Delta(st, t) else 0;
    assert Stake(st, u) * (Acc(st, x) + d) == Stake(st, u) * Acc(st, x) + d * Stake(st, u);
  }

  lemma DistributeOnePotentials(st: State, t: Address, now: nat, x: Address)
    requires Shape(st) && t in st.pools && st.pools[t].pending != 0 && DistributeOne(st, t, now).Done?
    ensures Sum(Potentials(DistributeOne(st, t, now).st, x)) - Sum(Potentials(st, x)) ==
            if x == t then Delta(st, t) * st.totalStaked else 0
  {
    hide Potential, Delta, AuditRound, DistributedPool, TreasuryCut;
    var st' := DistributeOne(st, t, now).st;
    var before, after := Potentials(st, x), Potentials(st', x);
    var d := if x == t then Delta(st, t) else 0;
    forall u | u in st.stakes ensures after[u] == before[u] + d * st.stakes[u] {
      DistributeOnePotential(st, t, now, x, u);
    }
    SumLinear(before, st.stakes, after, d);
    assert st.totalStaked == Sum(st.stakes);
  }

  /** How one distribution enters the books of token x. */
  lemma DistributeOneBooks(st: State, t: Address, now: nat, x: Address)
    requires Shape(st) && t in st.pools && st.pools[t].pending != 0 && DistributeOne(st, t, now).Done?
    ensures var st' := DistributeOne(st, t, now).st;
      var cut := if x == t && st.totalStaked > 0 then StakersCut(st, t) else 0;
      && st'.audit == AuditRound(st, t)
      && Get(st'.audit.toStakers, x) - Get(st.audit.toStakers, x) == cut
      && Get(st'.balances, x) - Get(st.balances, x) - Pending(st', x) - Governance(st', x)
         == cut - Pending(st, x) - Governance(st, x)
      && (x != t ==> Get(st'.audit.dust, x) == Get(st.audit.dust, x))
  {
    CutsSplit(st, t);
    hide StakersCut, GovernanceCut, Delta;
  }

  lemma DistributeOneDust(st: State, t: Address)
    requires Shape(st) && t in st.pools
    ensures Get(AuditRound(st, t).dust, t) - Get(st.audit.dust, t) ==
            (if st.totalStaked > 0 then StakersCut(st, t) * PRECISION else 0) - Delta(st, t) * st.totalStaked
    ensures Get(AuditRound(st, t).dust, t) >= Get(st.audit.dust, t)
  {
    DeltaSplit(st, t);
    CutsSplit(st, t);
    hide StakersCut;
  }

  lemma DistributeOneAudit(st: State, t: Address, x: Address)
    requires Shape(st) && t in st.pools
    ensures AuditOk(st.audit, x) ==> AuditOk(AuditRound(st, t), x)
    ensures var a := AuditRound(st, t);
      && Get(a.gained, x) == Get(st.audit.gained, x) && Get(a.paid, x) == Get(st.audit.paid, x)
      && Get(a.compounded, x) == Get(st.audit.compounded, x) && Get(a.withdrawn, x) == Get(st.audit.withdrawn, x)
  {
    DistributeOneDust(st, t);
    hide StakersCut, Shape, Delta;
  }

  lemma DistributeOneCustody(st: State, t: Address, now: nat, x: Address)
    requires Shape(st) && t in st.pools && st.pools[t].pending != 0 && DistributeOne(st, t, now).Done?
    ensures CustodyGap(DistributeOne(st, t, now).st, x) == CustodyGap(st, x)
  {
    DistributeOneBooks(st, t, now, x);
    DistributeOneAudit(st, t, x);
    hide StakersCut, Shape, Delta, DistributedPool, AuditRound, TreasuryCut, Pending, Governance, AuditOk;
    assert DistributeOne(st, t, now).st.vestings == st.vestings;
  }

  lemma DistributeOneGap(st: State, t: Address, now: nat, x: Address)
    requires Shape(st) && DistributeOne(st, t, now).Done?
    ensures var st' := DistributeOne(st, t, now).st;
      && (AuditOk(st.audit, x) ==> AuditOk(st'.audit, x))
      && AccrualGap(st', x) == AccrualGap(st, x)
      && CustodyGap(st', x) == CustodyGap(st, x)
  {
    hide Potentials, Delta, StakersCut, DistributedPool, AuditRound, TreasuryCut, CustodyGap, AuditOk, Shape;
    if t in st.pools && st.pools[t].pending != 0 {
      DistributeOnePotentials(st, t, now, x);
      DistributeOneDust(st, t);
      DistributeOneBooks(st, t, now, x);
      DistributeOneAudit(st, t, x);
      DistributeOneCustody(st, t, now, x);
    }
  }

  lemma {:induction false} DistributeEachCarries(st: State, toks: seq<Address>, now: nat)
    requires Shape(st) && DistributeEach(st, toks, now).Done?
    ensures Carries(st, DistributeEach(st, toks, now).st)
  {
    hide AccrualGap, CustodyGap, AuditOk, Shape, DistributeOne;
    if toks == [] {
    } else {
      var init, last := toks[..|toks| - 1], toks[|toks| - 1];
      DistributeEachCarries(st, init, now);
      var mid := DistributeEach(st, init, now).st;
      DistributeOneShape(mid, last, now);
      DistributeOneToken(mid, last, now);
      forall x: Address ensures AccrualGap(DistributeOne(mid, last, now).st, x) == AccrualGap(mid, x)
        && (AuditOk(mid.audit, x) ==> AuditOk(DistributeOne(mid, last, now).st.audit, x))
        && CustodyGap(DistributeOne(mid, last, now).st, x) == CustodyGap(mid, x) {
        DistributeOneGap(mid, last, now, x);
      }
    }
  }

  lemma DistributeOneToken(st: State, t: Address, now: nat)
    requires DistributeOne(st, t, now).Done?
    ensures DistributeOne(st, t, now).st.stakingToken == st.stakingToken
  {}

  lemma DoDistributeCarries(st: State, toks: seq<Address>, now: nat)
    requires Shape(st) && DoDistribute(st, toks, now).Done?
    ensures Carries(st, DoDistribute(st, toks, now).st)
  {
    DistributeEachCarries(st, toks, now);
    var mid := DistributeEach(st, toks, now).st;
    SameLedger(mid, mid.(lastAuto := now));
  }

  /** Settings that no law mentions may change freely. */
  lemma SameLedger(a: State, b: State)
    requires Shape(a) && ValidRatios(b.ratios)
    requires b == a.(lastAuto := b.lastAuto, interval := b.interval, emergency := b.emergency,
                     ratios := b.ratios, compounding := b.compounding)
    ensures Carries(a, b)
  {
    forall u: Address, t: Address ensures AccountOk(b, u, t) {
      assert AccountOk(a, u, t);
    }
    forall t: Address ensures AccrualGap(b, t) == AccrualGap(a, t) && CustodyGap(b, t) == CustodyGap(a, t) {
      assert Potentials(b, t) == Potentials(a, t);
    }
  }

  // ---- Token movements and claims ---------------------------------------------------------------------------------

  /** A change of balances and audit alone keeps the shape and every scaled claim. */
  lemma BooksOnly(a: State, b: State)
    requires Shape(a) && b == a.(balances := b.balances, audit := b.audit)
    ensures Shape(b)
    ensures forall t: Address :: Sum(Potentials(b, t)) == Sum(Potentials(a, t))
  {
    forall u: Address, t: Address ensures AccountOk(b, u, t) {
      assert AccountOk(a, u, t);
    }
    forall t: Address ensures Potentials(b, t) == Potentials(a, t) {}
  }

  lemma StakingDepositCarries(h: State, amount: int)
    requires Shape(h)
    ensures Carries(h, Deposit(h, h.stakingToken, amount))
  {
    BooksOnly(h, Deposit(h, h.stakingToken, amount));
    hide Potentials, Shape;
  }

  lemma CarriesTrans(a: State, b: State, c: State)
    requires Carries(a, b) && Carries(b, c)
    ensures Carries(a, c)
  {
    hide Shape, AuditOk, AccrualGap, CustodyGap;
  }

  lemma StakeCarries(st: State, u: Address, amount: int, compound: bool)
    requires Shape(st) && DoStake(st, u, amount, compound).Done?
    ensures Carries(st, DoStake(st, u, amount, compound).st)
  {
    hide Shape, AuditOk, AccrualGap, CustodyGap, Reweigh;
    var h := Harvest(st, u, st.tokens);
    HarvestCarries(st, u);
    HarvestEffect(st, u);
    StakingDepositCarries(h, amount);
    var d := Deposit(h, st.stakingToken, amount);
    StakeNonNegative(d, u);
    ReweighCarries(d, u, Stake(d, u) + amount);
    var w := Reweigh(d, u, Stake(d, u) + amount);
    RatiosOk(w);
    SameLedger(w, w.(compounding := w.compounding[u := compound]));
    CarriesTrans(st, h, d);
    CarriesTrans(st, d, w);
    CarriesTrans(st, w, w.(compounding := w.compounding[u := compound]));
  }

  lemma StakeNonNegative(st: State, u: Address)
    requires Shape(st)
    ensures Stake(st, u) >= 0
  {}

  lemma RatiosOk(st: State)
    requires Shape(st)
    ensures ValidRatios(st.ratios)
  {}

  lemma UnstakeCarries(st: State, u: Address, amount: int)
    requires Shape(st) && DoUnstake(st, u, amount).Done?
    ensures Carries(st, DoUnstake(st, u, amount).st)
  {
    hide Shape, AuditOk, AccrualGap, CustodyGap, Reweigh;
    var h := Harvest(st, u, st.tokens);
    HarvestCarries(st, u);
    HarvestEffect(st, u);
    ReweighCarries(h, u, Stake(h, u) - amount);
    var w := Reweigh(h, u, Stake(h, u) - amount);
    StakingDepositCarries(w, -amount);
    CarriesTrans(st, h, w);
    CarriesTrans(st, w, Deposit(w, w.stakingToken, -amount));
  }

  /** Zeroing a stored reward lowers only that claim, by its full scaled amount. */
  lemma RewardTaken(h: State, g: State, u: Address, t: Address)
    requires Shape(h) && u in h.stakes
    requires g == h.(rewards := h.rewards[(u, t) := 0], balances := g.balances, audit := g.audit)
    ensures Shape(g)
    ensures forall x: Address :: Sum(Potentials(g, x)) ==
              Sum(Potentials(h, x)) - if x == t then PRECISION * Reward(h, u, t) else 0
  {
    forall v: Address, x: Address ensures AccountOk(g, v, x) {
      assert AccountOk(h, v, x);
    }
    forall x: Address
      ensures Sum(Potentials(g, x)) == Sum(Potentials(h, x)) - if x == t then PRECISION * Reward(h, u, t) else 0
    {
      PotentialsMove(h, g, u, x);
    }
  }

  lemma AccountAt(st: State, u: Address, t: Address)
    requires Shape(st)
    ensures AccountOk(st, u, t)
  {}

  lemma PayOutGap(h: State, u: Address, t: Address, x: Address)
    requires Reward(h, u, t) >= 0 && PayOut(h, u, t).Done?
    requires Sum(Potentials(PayOut(h, u, t).st, x))
             == Sum(Potentials(h, x)) - if x == t then PRECISION * Reward(h, u, t) else 0
    ensures var g := PayOut(h, u, t).st;
      && AccrualGap(g, x) == AccrualGap(h, x) && CustodyGap(g, x) == CustodyGap(h, x)
      && (AuditOk(h.audit, x) ==> AuditOk(g.audit, x))
  {
    hide Potentials;
  }

  lemma PayOutCarries(h: State, u: Address, t: Address)
    requires Shape(h) && Reward(h, u, t) != 0 && PayOut(h, u, t).Done?
    ensures Carries(h, PayOut(h, u, t).st)
  {
    hide Shape, Potentials, AccrualGap, CustodyGap, AuditOk, Accrued;
    AccountAt(h, u, t);
    var g := PayOut(h, u, t).st;
    RewardTaken(h, g, u, t);
    forall x: Address
      ensures AccrualGap(g, x) == AccrualGap(h, x) && CustodyGap(g, x) == CustodyGap(h, x)
      ensures AuditOk(h.audit, x) ==> AuditOk(g.audit, x)
    {
      PayOutGap(h, u, t, x);
    }
  }

  /** The reward leaves storage: its scaled amount is missing until the books record where it went. */
  lemma TakenGap(h: State, u: Address, t: Address)
    requires Shape(h) && Reward(h, u, t) != 0
    ensures var g := h.(rewards := h.rewards[(u, t) := 0]);
      Shape(g) && forall x: Address ::
        AccrualGap(g, x) == AccrualGap(h, x) + (if x == t then PRECISION * Reward(h, u, t) else 0)
        && CustodyGap(g, x) == CustodyGap(h, x)
  {
    AccountAt(h, u, t);
    RewardTaken(h, h.(rewards := h.rewards[(u, t) := 0]), u, t);
    hide Shape, Potentials;
  }

  lemma CompoundedGap(w: State, u: Address, t: Address, r: int)
    requires Shape(w) && r >= 0
    ensures var f := Compounded(w, u, t, r);
      Shape(f) && f.stakingToken == w.stakingToken && forall x: Address ::
        AccrualGap(f, x) == AccrualGap(w, x) - (if x == t then PRECISION * r else 0)
        && CustodyGap(f, x) == CustodyGap(w, x)
        && (AuditOk(w.audit, x) ==> AuditOk(f.audit, x))
  {
    BooksOnly(w, Compounded(w, u, t, r));
    hide Shape, Potentials;
  }

  lemma RestakeCarries(h: State, u: Address, t: Address)
    requires Shape(h) && Reward(h, u, t) != 0
    requires forall x :: x in h.pools ==> Debt(h, u, x) == Accrued(Stake(h, u), Acc(h, x))
    ensures Carries(h, Restake(h, u, t))
  {
    hide Shape, Reweigh, Compounded, Accrued, AccrualGap, CustodyGap, AuditOk;
    AccountAt(h, u, t);
    StakeNonNegative(h, u);
    var r := Reward(h, u, t);
    var g := h.(rewards := h.rewards[(u, t) := 0]);
    TakenGap(h, u, t);
    ReweighCarries(g, u, Stake(h, u) + r);
    CompoundedGap(Reweigh(g, u, Stake(h, u) + r), u, t, r);
  }

  lemma ClaimCarries(st: State, u: Address, t: Address)
    requires Shape(st) && DoClaim(st, u, t).Done?
    ensures Carries(st, DoClaim(st, u, t).st)
  {
    hide Shape, AuditOk, AccrualGap, CustodyGap, Restake, PayOut;
    var h := Harvest(st, u, st.tokens);
    HarvestCarries(st, u);
    HarvestEffect(st, u);
    if Compounds(st, u) {
      RestakeCarries(h, u, t);
      CarriesTrans(st, h, Restake(h, u, t));
    } else {
      PayOutCarries(h, u, t);
      CarriesTrans(st, h, PayOut(h, u, t).st);
    }
  }

  lemma CompoundCarries(st: State, u: Address, t: Address)
    requires Shape(st) && DoCompound(st, u, t).Done?
    ensures Carries(st, DoCompound(st, u, t).st)
  {
    hide Shape, AuditOk, AccrualGap, CustodyGap, Restake;
    var h := Harvest(st, u, st.tokens);
    HarvestCarries(st, u);
    HarvestEffect(st, u);
    if Reward(h, u, t) != 0 {
      RestakeCarries(h, u, t);
      CarriesTrans(st, h, Restake(h, u, t));
    }
  }

  // ---- Configuration, collection, vesting, emergency --------------------------------------------------------------

  /** Pools and vestings may change as long as no accumulator does. */
  lemma PoolsOnly(a: State, b: State)
    requires Shape(a)
    requires b == a.(tokens := b.tokens, pools := b.pools, vestings := b.vestings, balances := b.balances)
    requires forall t :: t in b.pools <==> t in b.tokens
    requires forall t :: t in b.pools ==> PoolOk(b.pools[t])
    requires a.pools.Keys <= b.pools.Keys && forall t :: Acc(b, t) == Acc(a, t)
    requires forall v :: v in b.vestings ==> VestingOk(v)
    ensures Shape(b)
    ensures forall t: Address :: AccrualGap(b, t) == AccrualGap(a, t)
  {
    forall u: Address, t: Address ensures AccountOk(b, u, t) {
      assert AccountOk(a, u, t);
    }
    forall t: Address ensures AccrualGap(b, t) == AccrualGap(a, t) {
      forall u | u in a.stakes ensures Potential(b, u, t) == Potential(a, u, t) {}
      assert Potentials(b, t) == Potentials(a, t);
    }
  }

  lemma AddTokenCarries(st: State, t: Address, now: nat)
    requires Shape(st)
    ensures Carries(st, DoAddToken(st, t, now))
  {
    var st' := DoAddToken(st, t, now);
    if t in st.tokens {
      CarriesRefl(st);
    } else {
      NewPool(st, t, now);
      hide Shape, AccrualGap;
    }
  }

  lemma NewPool(st: State, t: Address, now: nat)
    requires Shape(st) && t !in st.tokens
    ensures Shape(DoAddToken(st, t, now))
    ensures forall x: Address :: AccrualGap(DoAddToken(st, t, now), x) == AccrualGap(st, x)
  {
    hide Accounts, AccrualGap, Sum;
    PoolsOnly(st, DoAddToken(st, t, now));
  }

  lemma PaidInCarries(st: State, t: Address, amount: int)
    requires Shape(st) && t in st.pools && amount > 0
    ensures Carries(st, PaidIn(st, t, amount))
  {
    hide Accounts, AccrualGap, Sum;
    PoolsOnly(st, PaidIn(st, t, amount));
  }

  lemma CollectCarries(st: State, t: Address, amount: int, now: nat)
    requires Shape(st) && DoCollect(st, t, amount, now).Done?
    ensures Carries(st, DoCollect(st, t, amount, now).st)
  {
    hide Shape, AuditOk, AccrualGap, CustodyGap, DoDistribute, PaidIn;
    var paidIn := PaidIn(st, t, amount);
    PaidInCarries(st, t, amount);
    if !(st.interval == 0 || now < st.lastAuto + st.interval) {
      DoDistributeCarries(paidIn, st.tokens, now);
      CarriesTrans(st, paidIn, DoDistribute(paidIn, st.tokens, now).st);
    }
  }

  lemma VestingOwedAppend(vs: seq<Vesting>, v: Vesting, t: Address)
    ensures VestingOwed(vs + [v], t) ==
            VestingOwed(vs, t) + if v.token == t then v.totalAmount - v.claimedAmount else 0
  {
    assert (vs + [v])[..|vs|] == vs;
  }

  lemma {:induction false} VestingOwedPut(vs: seq<Vesting>, i: nat, claimed: int, t: Address)
    requires i < |vs|
    ensures VestingOwed(vs[i := vs[i].(claimedAmount := claimed)], t) ==
            VestingOwed(vs, t) - if vs[i].token == t then claimed - vs[i].claimedAmount else 0
  {
    var ws := vs[i := vs[i].(claimedAmount := claimed)];
    var n := |vs| - 1;
    if i < n {
      VestingOwedPut(vs[..n], i, claimed, t);
      assert ws[..n] == vs[..n][i := vs[..n][i].(claimedAmount := claimed)];
    } else {
      assert ws[..n] == vs[..n];
    }
  }

  lemma CreateVestingCarries(st: State, b: Address, t: Address, amount: int, duration: nat, cliff: nat, now: nat)
    requires Shape(st) && DoCreateVesting(st, b, t, amount, duration, cliff, now).Done?
    ensures Carries(st, DoCreateVesting(st, b, t, amount, duration, cliff, now).st)
  {
    var st' := DoCreateVesting(st, b, t, amount, duration, cliff, now).st;
    PoolsOnly(st, st');
    forall x: Address ensures CustodyGap(st', x) == CustodyGap(st, x) {
      VestingOwedAppend(st.vestings, Vesting(b, t, amount, 0, now, duration, cliff), x);
    }
    hide Shape, AccrualGap;
  }

  /** The schedule releases between nothing and everything. */
  lemma VestedBounds(v: Vesting, now: nat)
    requires VestingOk(v)
    ensures 0 <= Vested(v, now) <= v.totalAmount
  {
    var e := Elapsed(v, now);
    if e < v.duration {
      ProductMonotone(0, e, v.totalAmount);
      ProductMonotone(e, v.duration, v.totalAmount);
      FloorExact(v.totalAmount, v.duration);
      FloorMonotone(v.totalAmount * e, v.totalAmount * v.duration, v.duration);
      FloorMonotone(0, v.totalAmount * e, v.duration);
      FloorExact(0, v.duration);
    }
  }

  lemma ClaimVestedCarries(st: State, id: nat, now: nat)
    requires Shape(st) && DoClaimVested(st, id, now).Done?
    ensures Carries(st, DoClaimVested(st, id, now).st)
  {
    var st' := DoClaimVested(st, id, now).st;
    VestedBounds(st.vestings[id], now);
    PoolsOnly(st, st');
    hide Vested;
    forall x: Address | x != st.stakingToken ensures CustodyGap(st', x) == CustodyGap(st, x) {
      VestingOwedPut(st.vestings, id, Vested(st.vestings[id], now), x);
    }
    hide Shape, AccrualGap;
  }

  lemma WithdrawCarries(st: State, t: Address, amount: int)
    requires Shape(st) && DoEmergencyWithdraw(st, t, amount).Done?
    ensures Carries(st, DoEmergencyWithdraw(st, t, amount).st)
  {
    hide Shape, Potentials;
    var st' := DoEmergencyWithdraw(st, t, amount).st;
    BooksOnly(st, st');
    assert st'.pools == st.pools && st'.vestings == st.vestings;
  }

  // ---- Every call, every run --------------------------------------------------------------------------------------

  lemma CallCarries(st: State, op: Op)
    requires Shape(st)
    ensures Carries(st, Settle(st, Call(st, op)))
  {
    hide Carries, Shape;
    CarriesRefl(st);
    if Call(st, op).Done? {
      match op
      case UpdateRatios(_) => SameLedger(st, Call(st, op).st);
      case AddFeeToken(t, now) => AddTokenCarries(st, t, now);
      case SetInterval(_) => RatiosOk(st); SameLedger(st, Call(st, op).st);
      case SetEmergency(_) => RatiosOk(st); SameLedger(st, Call(st, op).st);
      case Collect(t, amount, now) => CollectCarries(st, t, amount, now);
      case Distribute(toks, now) => DoDistributeCarries(st, if toks == [] then st.tokens else toks, now);
      case StakeForFees(u, amount, compound) => StakeCarries(st, u, amount, compound);
      case Unstake(u, amount) => UnstakeCarries(st, u, amount);
      case ClaimFees(u, t) => ClaimCarries(st, u, t);
      case CompoundRewards(u, t) => CompoundCarries(st, u, t);
      case CreateVesting(b, t, amount, duration, cliff, now) =>
        CreateVestingCarries(st, b, t, amount, duration, cliff, now);
      case ClaimVested(id, now) => ClaimVestedCarries(st, id, now);
      case EmergencyWithdraw(t, amount) => WithdrawCarries(st, t, amount);
    }
  }

  lemma CarriesRefl(st: State)
    requires Shape(st)
    ensures Carries(st, st)
  {}

  /** The invariant holds after every history of calls. */
  lemma {:induction false} RunInv(stakingToken: Address, ratios: Ratios, ops: seq<Op>)
    requires ValidRatios(ratios)
    ensures Inv(Run(Init(stakingToken, ratios), ops))
    ensures Run(Init(stakingToken, ratios), ops).stakingToken == stakingToken
  {
    hide Call;
    var init := Init(stakingToken, ratios);
    if ops == [] {
      forall t: Address ensures Law(init, t) {
        assert Potentials(init, t) == map[];
      }
    } else {
      RunInv(stakingToken, ratios, ops[..|ops| - 1]);
      var mid := Run(init, ops[..|ops| - 1]);
      CallCarries(mid, ops[|ops| - 1]);
      hide Shape, AccrualGap, CustodyGap, AuditOk;
      forall t: Address ensures Law(Run(init, ops), t) {
        assert Law(mid, t);
      }
    }
  }
}
