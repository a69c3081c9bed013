/** Delegation moves voting power around without creating or losing any. */
module GovernancePower {
  import opened Sums
  import opened Governance

  /** Raw power of everyone who has delegated, and of those who delegated to d. */
  ghost function Away(st: State): map<Address, int> {
    map u | u in st.delegation :: Raw(st, u)
  }

  ghost function AwayTo(st: State, d: Address): map<Address, int> {
    map u | u in st.delegation && st.delegation[u] == d :: Raw(st, u)
  }

  ghost predicate ReceivedIsSum(st: State, d: Address) {
    Received(st, d) == Sum(AwayTo(st, d))
  }

  ghost predicate PowerInv(st: State) {
    && (forall u :: u in st.power ==> st.power[u] >= 0)
    && st.supply == Sum(st.power)
    && Sum(st.delegated) == Sum(Away(st))
    && (forall d: Address :: ReceivedIsSum(st, d))
    && (forall u :: u in st.delegation ==> st.delegation[u] != u)
  }

  /** Everybody's effective power. */
  ghost function Effective(st: State): map<Address, int> {
    map u | u in st.power.Keys + st.delegated.Keys + st.delegation.Keys :: EffectivePower(st, u)
  }

  /** Delegating, undelegating and voting keep the total effective power equal to the supply. */
  lemma EffectiveIsSupply(st: State)
    requires PowerInv(st)
    ensures Sum(Effective(st)) == st.supply
  {
    var keys := st.power.Keys + st.delegated.Keys + st.delegation.Keys;
    var raw, away, received := Extend(st.power, keys), Extend(Away(st), keys), Extend(st.delegated, keys);
    SumExtend(st.power, keys);
    SumExtend(Away(st), keys);
    SumExtend(st.delegated, keys);
    var own := map u | u in keys :: raw[u] - away[u];
    SumLinear(raw, away, own, -1);
    SumLinear(own, received, Effective(st), 1);
  }

  /** The amount a delegation takes back is covered by what its delegate received, so the clamp never fires. */
  lemma ClampNeverFires(st: State, u: Address)
    requires PowerInv(st) && u in st.delegation
    ensures 0 <= Raw(st, u) <= Received(st, st.delegation[u])
  {
    var d := st.delegation[u];
    var to: map<Address, int> := AwayTo(st, d);
    assert Received(st, d) == Sum(to) by { assert ReceivedIsSum(st, d); }
    SumNonNegative(to);
    assert u in to && to[u] == Raw(st, u);
  }

  lemma DelegationRemoved(st: State, u: Address, x: Address)
    requires u in st.delegation && ReceivedIsSum(st, x) && 0 <= Raw(st, u) <= Received(st, st.delegation[u])
    ensures ReceivedIsSum(RemoveDelegation(st, u), x)
  {
    var st', d := RemoveDelegation(st, u), st.delegation[u];
    if x == d {
      SumRemove(AwayTo(st, d), u);
      assert AwayTo(st', d) == AwayTo(st, d) - {u};
    } else {
      assert AwayTo(st', x) == AwayTo(st, x);
    }
  }

  lemma RemoveDelegationInv(st: State, u: Address)
    requires PowerInv(st)
    ensures PowerInv(RemoveDelegation(st, u))
  {
    if u in st.delegation {
      ClampNeverFires(st, u);
      var st', d := RemoveDelegation(st, u), st.delegation[u];
      SumPut(st.delegated, d, Received(st, d) - Raw(st, u));
      SumRemove(Away(st), u);
      assert Away(st') == Away(st) - {u};
      hide ReceivedIsSum, Sum, Away;
      forall x: Address ensures ReceivedIsSum(st', x) {
        DelegationRemoved(st, u, x);
      }
    }
  }

  lemma DelegateInv(st: State, u: Address, d: Address)
    requires PowerInv(st) && DoDelegate(st, u, d).Done?
    ensures PowerInv(DoDelegate(st, u, d).st)
  {
    RemoveDelegationInv(st, u);
    var freed, st' := RemoveDelegation(st, u), DoDelegate(st, u, d).st;
    assert u !in freed.delegation;
    DelegationAdded(freed, u, d, st');
  }

  lemma ShareAdded(freed: State, u: Address, d: Address, st': State, x: Address)
    requires u !in freed.delegation && ReceivedIsSum(freed, x)
    requires st' == freed.(delegation := freed.delegation[u := d],
                           delegated := freed.delegated[d := Received(freed, d) + Raw(freed, u)])
    ensures ReceivedIsSum(st', x)
  {
    if x == d {
      SumPut(AwayTo(freed, d), u, Raw(freed, u));
      assert AwayTo(st', d) == AwayTo(freed, d)[u := Raw(freed, u)];
    } else {
      assert AwayTo(st', x) == AwayTo(freed, x);
    }
  }

  lemma DelegationAdded(freed: State, u: Address, d: Address, st': State)
    requires PowerInv(freed) && u !in freed.delegation && u != d
    requires st' == freed.(delegation := freed.delegation[u := d],
                           delegated := freed.delegated[d := Received(freed, d) + Raw(freed, u)])
    ensures PowerInv(st')
  {
    hide ReceivedIsSum, Sum;
    var p := Raw(freed, u);
    SumPut(freed.delegated, d, Received(freed, d) + p);
    SumPut(Away(freed), u, p);
    assert Away(st') == Away(freed)[u := p];
    forall x: Address ensures ReceivedIsSum(st', x) {
      ShareAdded(freed, u, d, st', x);
    }
  }

  lemma SetPowerInv(st: State, u: Address, power: int)
    requires PowerInv(st) && power >= 0 && (u !in st.delegation || power == Raw(st, u))
    ensures PowerInv(DoSetPower(st, u, power).st)
  {
    var st' := DoSetPower(st, u, power).st;
    SumPut(st.power, u, power);
    assert Away(st') == Away(st);
    forall x: Address ensures ReceivedIsSum(st', x) {
      assert ReceivedIsSum(st, x);
      assert AwayTo(st', x) == AwayTo(st, x);
    }
  }

  /** Setting the power of an address keeps the total exactly when the address has no live delegation or the power
      does not change: the delegate's share is not updated with it. */
  lemma SetPowerKeepsTotalIff(st: State, u: Address, power: int)
    requires PowerInv(st) && power >= 0
    ensures var st' := DoSetPower(st, u, power).st;
      Sum(Effective(st')) == st'.supply <==> u !in st.delegation || power == Raw(st, u)
  {
    if u !in st.delegation || power == Raw(st, u) {
      SetPowerInv(st, u, power);
      EffectiveIsSupply(DoSetPower(st, u, power).st);
    } else {
      var st' := DoSetPower(st, u, power).st;
      EffectiveIsSupply(st);
      forall v: Address ensures EffectivePower(st', v) == EffectivePower(st, v) {}
      var keys := st'.power.Keys + st'.delegated.Keys + st'.delegation.Keys;
      assert keys == st.power.Keys + st.delegated.Keys + st.delegation.Keys;
      assert Effective(st') == Effective(st);
    }
  }

  lemma OtherCallsInv(st: State, st': State)
    requires PowerInv(st) && st'.power == st.power && st'.supply == st.supply
    requires st'.delegation == st.delegation && st'.delegated == st.delegated
    ensures PowerInv(st')
  {
    assert Away(st') == Away(st);
    forall x: Address ensures ReceivedIsSum(st', x) {
      assert ReceivedIsSum(st, x);
      assert AwayTo(st', x) == AwayTo(st, x);
    }
  }

  /** No call of the run sets the power of an address while it has a live delegation. */
  ghost predicate Orderly(st: State, ops: seq<Op>) {
    forall i :: 0 <= i < |ops| && ops[i].SetVotingPower? ==> ops[i].u !in Run(st, ops[..i]).delegation
  }

  lemma CallPower(st: State, op: Op)
    requires PowerInv(st) && (op.SetVotingPower? ==> op.u !in st.delegation)
    ensures PowerInv(Settle(st, Call(st, op)))
  {
    hide PowerInv;
    match op
    case SetVotingPower(u, power, _) => if power >= 0 { SetPowerInv(st, u, power); }
    case Delegate(u, d, _) => if u != d { DelegateInv(st, u, d); }
    case Undelegate(u, _) => RemoveDelegationInv(st, u);
    case _ =>
      if Call(st, op).Done? { OtherCallsInv(st, Call(st, op).st); }
  }

  /** On every orderly run the effective powers sum to the supply, each delegate's received power is the sum of the
      raw powers delegated to it, and no delegation can drive it below zero. */
  lemma {:induction false} PowerConserved(admin: Address, config: Config, ops: seq<Op>)
    requires Orderly(Init(admin, config), ops)
    ensures var st := Run(Init(admin, config), ops);
      && PowerInv(st)
      && Sum(Effective(st)) == st.supply
      && (forall d: Address :: Received(st, d) == Sum(AwayTo(st, d)))
  {
    var start := Init(admin, config);
    if ops == [] {
      assert Away(start) == map[];
      forall d: Address ensures ReceivedIsSum(start, d) { assert AwayTo(start, d) == map[]; }
    } else {
      var init := ops[..|ops| - 1];
      forall i | 0 <= i < |init| && init[i].SetVotingPower? ensures init[i].u !in Run(start, init[..i]).delegation {
        assert init[..i] == ops[..i];
      }
      PowerConserved(admin, config, init);
      CallPower(Run(start, init), ops[|ops| - 1]);
    }
    var st := Run(start, ops);
    EffectiveIsSupply(st);
    forall d: Address ensures Received(st, d) == Sum(AwayTo(st, d)) { assert ReceivedIsSum(st, d); }
  }

  // ---- The total broken -------------------------------------------------------------------------------------------

  const ANN: Address := 1
  const BEN: Address := 2

  /** Power is given, delegated, and then raised at its owner. */
  const RAISED_AFTER_DELEGATING: seq<Op> := [
    SetVotingPower(ANN, 10, 0), Delegate(ANN, BEN, 0), SetVotingPower(ANN, 30, 0)]

  lemma {:induction false} RunOn(st: State, ops: seq<Op>, op: Op)
    ensures Run(st, ops + [op]) == Settle(Run(st, ops), Call(Run(st, ops), op))
  {
    assert (ops + [op])[..|ops|] == ops;
  }

  /** A run after which the supply is thirty, the delegate votes with ten, and the owner with nothing. */
  lemma TotalBroken(admin: Address, config: Config)
    ensures var st := Run(Init(admin, config), RAISED_AFTER_DELEGATING);
      && st.supply == 30 && EffectivePower(st, ANN) == 0 && EffectivePower(st, BEN) == 10
      && Sum(Effective(st)) != st.supply
  {
    var start, ops := Init(admin, config), RAISED_AFTER_DELEGATING;
    var two := [ops[0], ops[1]];
    assert [] + [ops[0]] == [ops[0]] && [ops[0]] + [ops[1]] == two && two + [ops[2]] == ops;
    RunOn(start, [], ops[0]);
    RunOn(start, [ops[0]], ops[1]);
    RunOn(start, two, ops[2]);
    assert Run(start, []) == start;
    assert two[..0] == [];
    assert Orderly(start, two);
    PowerConserved(admin, config, two);
    hide PowerInv, Run, Effective;
    SetPowerKeepsTotalIff(Run(start, two), ANN, 30);
  }
}
