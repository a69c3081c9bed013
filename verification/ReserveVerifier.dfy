/** Reserve commitments, challenges and slashing: the storage as a value and the safety of every run. */
module ReserveVerifier {
  import opened MerkleProofs

  type Address = nat
  type BridgeId = nat

  datatype Status = Pending | Verified | Challenged | Resolved | Slashed
  datatype Challenger = NoOne | By(who: Address)

  datatype Config = Config(admin: Address, window: nat, slashAmount: int, minStake: int)
  datatype Operator = Operator(operator: Address, stake: int, active: bool, slashCount: nat, registeredAt: nat)
  datatype Commitment = Commitment(
    root: Digest, reserves: int, committedAt: nat, ledger: nat, status: Status, challenger: Challenger)

  datatype State = State(
    config: Config, operators: map<BridgeId, Operator>, bridges: seq<BridgeId>,
    latest: map<BridgeId, nat>, commitments: map<(BridgeId, nat), Commitment>)

  datatype Outcome = Done(st: State) | Panic

  function Init(config: Config): State { State(config, map[], [], map[], map[]) }

  function Latest(st: State, b: BridgeId): nat { if b in st.latest then st.latest[b] else 0 }

  function DoUpdateConfig(st: State, window: nat, slash: int, minStake: int): Outcome {
    if slash < 0 || minStake < 0 then Panic
    else Done(st.(config := st.config.(window := window, slashAmount := slash, minStake := minStake)))
  }

  function DoRegister(st: State, b: BridgeId, operator: Address, stake: int, now: nat): Outcome {
    if b in st.operators || stake < st.config.minStake then Panic
    else Done(st.(operators := st.operators[b := Operator(operator, stake, true, 0, now)],
                  latest := st.latest[b := 0], bridges := st.bridges + [b]))
  }

  function DoCommit(st: State, b: BridgeId, root: Digest, reserves: int, ledger: nat, now: nat): Outcome {
    if b !in st.operators || !st.operators[b].active || reserves < 0 then Panic
    else Done(st.(latest := st.latest[b := Latest(st, b) + 1],
                  commitments := st.commitments[(b, Latest(st, b) + 1) :=
                    Commitment(root, reserves, now, ledger, Pending, NoOne)]))
  }

  predicate WindowOver(st: State, c: Commitment, ledger: nat) { ledger > c.ledger + st.config.window }

  /** A valid proof after the window advances a pending commitment; nothing else is stored. */
  function DoVerify(h: Hash, st: State, key: (BridgeId, nat), p: Proof, ledger: nat): Outcome {
    if key !in st.commitments then Panic
    else
      var c := st.commitments[key];
      if Accepts(h, p, c.root) && c.status == Pending && WindowOver(st, c, ledger)
      then Done(st.(commitments := st.commitments[key := c.(status := Verified)])) else Done(st)
  }

  /** A challenge needs a proof that fails; one that verifies changes nothing. */
  function DoChallenge(h: Hash, st: State, key: (BridgeId, nat), who: Address, p: Proof, ledger: nat): Outcome {
    if key !in st.commitments || st.commitments[key].status != Pending
       || WindowOver(st, st.commitments[key], ledger) then Panic
    else
      var c := st.commitments[key];
      if Accepts(h, p, c.root) then Done(st)
      else Done(st.(commitments := st.commitments[key := c.(status := Challenged, challenger := By(who))]))
  }

  function SlashedOperator(o: Operator, config: Config): Operator {
    var stake := if o.stake >= config.slashAmount then o.stake - config.slashAmount else 0;
    o.(slashCount := o.slashCount + 1, stake := stake, active := o.active && stake >= config.minStake)
  }

  function DoSlash(st: State, b: BridgeId): Outcome {
    if b !in st.operators then Panic
    else Done(st.(operators := st.operators[b := SlashedOperator(st.operators[b], st.config)]))
  }

  function DoResolve(st: State, key: (BridgeId, nat), valid: bool): Outcome {
    if key !in st.commitments || st.commitments[key].status != Challenged then Panic
    else
      var c := st.commitments[key];
      if valid then Done(st.(commitments := st.commitments[key := c.(status := Resolved)]))
      else match DoSlash(st, key.0)
        case Panic => Panic
        case Done(cut) => Done(cut.(commitments := st.commitments[key := c.(status := Slashed)]))
  }

  datatype Op =
    | UpdateConfig(window: nat, slash: int, minStake: int)
    | Register(bridge: BridgeId, operator: Address, stake: int, now: nat)
    | Commit(bridge: BridgeId, root: Digest, reserves: int, ledger: nat, now: nat)
    | Verify(key: (BridgeId, nat), proof: Proof, ledger: nat)
    | Challenge(key: (BridgeId, nat), who: Address, proof: Proof, ledger: nat)
    | Resolve(key: (BridgeId, nat), valid: bool)
    | SlashOperator(bridge: BridgeId)

  function Call(h: Hash, st: State, op: Op): Outcome {
    match op
    case UpdateConfig(window, slash, minStake) => DoUpdateConfig(st, window, slash, minStake)
    case Register(b, operator, stake, now) => DoRegister(st, b, operator, stake, now)
    case Commit(b, root, reserves, ledger, now) => DoCommit(st, b, root, reserves, ledger, now)
    case Verify(key, p, ledger) => DoVerify(h, st, key, p, ledger)
    case Challenge(key, who, p, ledger) => DoChallenge(h, st, key, who, p, ledger)
    case Resolve(key, valid) => DoResolve(st, key, valid)
    case SlashOperator(b) => DoSlash(st, b)
  }

  function Settle(st: State, o: Outcome): State {
    match o case Done(st') => st' case Panic => st
  }

  function Run(h: Hash, st: State, ops: seq<Op>): State {
    if ops == [] then st
    else var mid := Run(h, st, ops[..|ops| - 1]);
         Settle(mid, Call(h, mid, ops[|ops| - 1]))
  }

  // ---- Commitments over runs --------------------------------------------------------------------------------------

  /** Sequence numbers of a bridge's commitments are exactly 1 to the latest, and nothing is committed for a bridge
      that is not registered. */
  ghost predicate Sequenced(st: State) {
    && (forall b: BridgeId, n: nat :: (b, n) in st.commitments <==> 1 <= n <= Latest(st, b))
    && (forall b :: b in st.latest <==> b in st.operators)
    && (forall b :: b in st.operators <==> b in st.bridges)
    && (forall i, j :: 0 <= i < j < |st.bridges| ==> st.bridges[i] != st.bridges[j])
  }

  lemma CommitSequenced(st: State, b: BridgeId, root: Digest, reserves: int, ledger: nat, now: nat)
    requires Sequenced(st)
    ensures Sequenced(Settle(st, DoCommit(st, b, root, reserves, ledger, now)))
  {}

  lemma RegisterSequenced(st: State, b: BridgeId, operator: Address, stake: int, now: nat)
    requires Sequenced(st)
    ensures Sequenced(Settle(st, DoRegister(st, b, operator, stake, now)))
  {}

  lemma SameNumbers(st: State, st': State)
    requires Sequenced(st) && st'.commitments.Keys == st.commitments.Keys && st'.operators.Keys == st.operators.Keys
    requires st'.latest == st.latest && st'.bridges == st.bridges
    ensures Sequenced(st')
  {}

  lemma CallSequenced(h: Hash, st: State, op: Op)
    requires Sequenced(st)
    ensures Sequenced(Settle(st, Call(h, st, op)))
  {
    hide Accepts, Sequenced;
    match op
    case Commit(b, root, reserves, ledger, now) => CommitSequenced(st, b, root, reserves, ledger, now);
    case Register(b, operator, stake, now) => RegisterSequenced(st, b, operator, stake, now);
    case _ => SameNumbers(st, Settle(st, Call(h, st, op)));
  }

  lemma {:induction false} RunSequenced(h: Hash, config: Config, ops: seq<Op>)
    ensures Sequenced(Run(h, Init(config), ops))
  {
    hide Call;
    if ops == [] {
    } else {
      RunSequenced(h, config, ops[..|ops| - 1]);
      CallSequenced(h, Run(h, Init(config), ops[..|ops| - 1]), ops[|ops| - 1]);
    }
  }

  predicate Settled(s: Status) { s in {Verified, Resolved, Slashed} }

  /** Everything a call can do to a commitment that is already there. */
  ghost predicate Moves(h: Hash, st: State, op: Op, key: (BridgeId, nat), c: Commitment, d: Commitment) {
    || d == c
    || (op.Verify? && op.key == key && c.status == Pending && Accepts(h, op.proof, c.root)
        && op.ledger > c.ledger + st.config.window && d == c.(status := Verified))
    || (op.Challenge? && op.key == key && c.status == Pending && !Accepts(h, op.proof, c.root)
        && op.ledger <= c.ledger + st.config.window && d == c.(status := Challenged, challenger := By(op.who)))
    || (op.Resolve? && op.key == key && c.status == Challenged
        && d == c.(status := if op.valid then Resolved else Slashed))
  }

  lemma CallMoves(h: Hash, st: State, op: Op, key: (BridgeId, nat))
    requires key in st.commitments && Sequenced(st)
    ensures var st' := Settle(st, Call(h, st, op));
      key in st'.commitments && Moves(h, st, op, key, st.commitments[key], st'.commitments[key])
  {
    hide Accepts;
    assert 1 <= key.1 <= Latest(st, key.0);
  }

  lemma NewCommitmentIsPending(h: Hash, st: State, op: Op, key: (BridgeId, nat))
    requires key !in st.commitments && key in Settle(st, Call(h, st, op)).commitments
    ensures var c := Settle(st, Call(h, st, op)).commitments[key]; c.status == Pending && c.challenger == NoOne
  {
    hide Accepts;
  }

  /** A commitment's root, amount and date never change, and verified, resolved and slashed are final. */
  lemma {:induction false} CommitmentsEndure(h: Hash, st: State, ops: seq<Op>, key: (BridgeId, nat))
    requires Sequenced(st) && key in st.commitments
    ensures Sequenced(Run(h, st, ops)) && key in Run(h, st, ops).commitments
    ensures var c, d := st.commitments[key], Run(h, st, ops).commitments[key];
      d == c.(status := d.status, challenger := d.challenger) && (Settled(c.status) ==> d == c)
  {
    hide Call, Sequenced;
    if ops == [] {
    } else {
      var init := ops[..|ops| - 1];
      CommitmentsEndure(h, st, init, key);
      CallMoves(h, Run(h, st, init), ops[|ops| - 1], key);
      CallSequenced(h, Run(h, st, init), ops[|ops| - 1]);
    }
  }

  ghost predicate VerifiedAt(h: Hash, st: State, ops: seq<Op>, key: (BridgeId, nat), c: Commitment, i: nat) {
    i < |ops| && ops[i].Verify? && ops[i].key == key && Accepts(h, ops[i].proof, c.root)
    && ops[i].ledger > c.ledger + Run(h, st, ops[..i]).config.window
  }

  ghost predicate ChallengedAt(h: Hash, st: State, ops: seq<Op>, key: (BridgeId, nat), c: Commitment, i: nat) {
    i < |ops| && ops[i].Challenge? && ops[i].key == key && c.challenger == By(ops[i].who)
    && !Accepts(h, ops[i].proof, c.root) && ops[i].ledger <= c.ledger + Run(h, st, ops[..i]).config.window
  }

  ghost predicate ResolvedAt(ops: seq<Op>, key: (BridgeId, nat), valid: bool, i: nat) {
    i < |ops| && ops[i].Resolve? && ops[i].key == key && ops[i].valid == valid
  }

  ghost predicate Trail(h: Hash, st: State, ops: seq<Op>, key: (BridgeId, nat), c: Commitment, a: nat, r: nat) {
    match c.status
    case Pending => c.challenger == NoOne
    case Verified => c.challenger == NoOne && VerifiedAt(h, st, ops, key, c, a)
    case Challenged => ChallengedAt(h, st, ops, key, c, a)
    case Resolved => a < r && ChallengedAt(h, st, ops, key, c, a) && ResolvedAt(ops, key, true, r)
    case Slashed => a < r && ChallengedAt(h, st, ops, key, c, a) && ResolvedAt(ops, key, false, r)
  }

  lemma TrailStep(h: Hash, st: State, ops: seq<Op>, key: (BridgeId, nat), c: Commitment, d: Commitment, a: nat, r: nat)
    returns (a': nat, r': nat)
    requires ops != [] && Trail(h, st, ops[..|ops| - 1], key, c, a, r)
    requires Moves(h, Run(h, st, ops[..|ops| - 1]), ops[|ops| - 1], key, c, d)
    ensures Trail(h, st, ops, key, d, a', r')
  {
    hide Run, Accepts;
    var n := |ops| - 1;
    assert forall i :: 0 <= i < n ==> ops[..n][..i] == ops[..i];
    a', r' := a, r;
    if d != c {
      if ops[n].Resolve? { r' := n; } else { a' := n; }
    }
  }

  /** Every commitment carries its trail. A verified one was never challenged and met a valid proof after its window;
      a challenged one met a failing proof inside it; a resolved or slashed one was challenged first and then judged. */
  lemma {:induction false} CommitmentTrail(h: Hash, config: Config, ops: seq<Op>, key: (BridgeId, nat))
    returns (a: nat, r: nat)
    requires key in Run(h, Init(config), ops).commitments
    ensures Trail(h, Init(config), ops, key, Run(h, Init(config), ops).commitments[key], a, r)
  {
    hide Call, Moves, Sequenced;
    var start := Init(config);
    a, r := 0, 0;
    if ops != [] {
      var init, last := ops[..|ops| - 1], ops[|ops| - 1];
      var s := Run(h, start, init);
      if key in s.commitments {
        a, r := CommitmentTrail(h, config, init, key);
        RunSequenced(h, config, init);
        CallMoves(h, s, last, key);
        a, r := TrailStep(h, start, ops, key, s.commitments[key], Run(h, start, ops).commitments[key], a, r);
      } else {
        NewCommitmentIsPending(h, s, last, key);
      }
    }
  }

  // ---- Operators --------------------------------------------------------------------------------------------------

  predicate NonNegative(c: Config) { c.slashAmount >= 0 && c.minStake >= 0 }

  ghost predicate StakesOk(st: State) {
    NonNegative(st.config) && forall b :: b in st.operators ==> st.operators[b].stake >= 0
  }

  /** What a slash leaves of a stake. */
  function Cut(stake: int, slashAmount: int): int { if stake >= slashAmount then stake - slashAmount else 0 }

  /** What a call does to an operator, under any configuration: nothing, or one counted slash of the configured amount
      that may end its activity. Inactivity is final, and an inactive operator can commit nothing. */
  lemma OperatorMoves(h: Hash, st: State, op: Op, b: BridgeId)
    requires b in st.operators
    ensures var st' := Settle(st, Call(h, st, op));
      && b in st'.operators
      && var o, o' := st.operators[b], st'.operators[b];
         && o'.operator == o.operator && o'.registeredAt == o.registeredAt
         && (o' == o || (o'.slashCount == o.slashCount + 1 && o'.stake == Cut(o.stake, st.config.slashAmount)
                         && (o'.active <==> o.active && o'.stake >= st.config.minStake)))
         && (!o.active && op.Commit? && op.bridge == b ==> Call(h, st, op).Panic?)
  {
    hide Accepts;
  }

  lemma CallStakes(h: Hash, st: State, op: Op)
    requires StakesOk(st)
    ensures StakesOk(Settle(st, Call(h, st, op)))
  {
    hide Accepts;
  }

  lemma {:induction false} RunStakes(h: Hash, config: Config, ops: seq<Op>)
    requires NonNegative(config)
    ensures StakesOk(Run(h, Init(config), ops))
  {
    hide Call;
    if ops == [] {
    } else {
      RunStakes(h, config, ops[..|ops| - 1]);
      CallStakes(h, Run(h, Init(config), ops[..|ops| - 1]), ops[|ops| - 1]);
    }
  }

  ghost predicate Declines(o: Operator, o': Operator) {
    && o'.operator == o.operator && o'.registeredAt == o.registeredAt
    && 0 <= o'.stake <= o.stake && o'.slashCount >= o.slashCount && (o'.slashCount == o.slashCount ==> o' == o)
    && (!o.active ==> !o'.active)
  }

  /** From a configuration without negative amounts, over any run and any further run: a stake stays non-negative and
      never rises, it changes only with a counted slash, and an inactive operator stays inactive. */
  lemma {:induction false} OperatorsOnlyFall(h: Hash, config: Config, pre: seq<Op>, post: seq<Op>, b: BridgeId)
    requires NonNegative(config) && b in Run(h, Init(config), pre).operators
    ensures var st := Run(h, Init(config), pre); var end := Run(h, st, post);
      b in end.operators && Declines(st.operators[b], end.operators[b])
    ensures StakesOk(Run(h, Run(h, Init(config), pre), post))
    decreases |post|
  {
    RunStakes(h, config, pre);
    if post != [] {
      var init, mid := post[..|post| - 1], Run(h, Run(h, Init(config), pre), post[..|post| - 1]);
      OperatorsOnlyFall(h, config, pre, init, b);
      OperatorMoves(h, mid, post[|post| - 1], b);
      CallStakes(h, mid, post[|post| - 1]);
      hide Call;
    }
  }

  /** After a run from the configuration, the call leaves the stake no higher. */
  ghost predicate Falls(h: Hash, config: Config, ops: seq<Op>, op: Op, b: BridgeId) {
    var st := Run(h, Init(config), ops);
    b in st.operators ==>
      var st' := Settle(st, Call(h, st, op));
      b in st'.operators && st'.operators[b].stake <= st.operators[b].stake
  }

  lemma {:induction false} RunOfOne(h: Hash, st: State, op: Op)
    ensures Run(h, st, [op]) == Settle(st, Call(h, st, op))
  {
    assert [op][..0] == [];
    assert Run(h, st, []) == st;
  }

  /** A stake that can be registered and that a slash then raises. */
  function Bait(c: Config): int {
    if c.slashAmount >= 0 then -1 else if c.minStake < 0 then 0 else c.minStake
  }

  lemma SlashRaises(h: Hash, config: Config)
    requires !NonNegative(config)
    ensures !Falls(h, config, [Register(0, 0, Bait(config), 0)], SlashOperator(0), 0)
  {
    RunOfOne(h, Init(config), Register(0, 0, Bait(config), 0));
    hide Run;
  }

  /** Stakes only fall on every run exactly when the contract was initialised without a negative amount, which its
      initialisation, unlike a later update, does not check. */
  lemma StakesFallIff(h: Hash, config: Config)
    ensures (forall ops: seq<Op>, op: Op, b: BridgeId :: Falls(h, config, ops, op, b)) <==> NonNegative(config)
  {
    if NonNegative(config) {
      forall ops: seq<Op>, op: Op, b: BridgeId ensures Falls(h, config, ops, op, b) {
        var st := Run(h, Init(config), ops);
        RunStakes(h, config, ops);
        if b in st.operators { OperatorMoves(h, st, op, b); }
        hide Run, Call;
      }
    } else {
      SlashRaises(h, config);
    }
  }

  /** A hundred staked, five taken away under a slash amount of minus five: a hundred and five. */
  lemma SlashThatPays(h: Hash)
    ensures var st := Run(h, Init(Config(0, 10, -5, 0)), [Register(7, 1, 100, 0), SlashOperator(7)]);
      7 in st.operators && st.operators[7].stake == 105
  {
    var start, ops := Init(Config(0, 10, -5, 0)), [Register(7, 1, 100, 0), SlashOperator(7)];
    assert ops[..1] == [Register(7, 1, 100, 0)];
    RunOfOne(h, start, ops[0]);
    hide Accepts;
  }
}
