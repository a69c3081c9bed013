/** What a proposal is created with, what a vote weighs and when each call completes, said in plain terms. */
module GovernanceTerms {
  import opened Sums
  import opened IntegerRoot
  import opened Governance
  import opened GovernancePower
  import opened GovernanceProposals

  /** The power an address votes with: its own unless delegated away, and what was delegated to it. */
  ghost function PowerOf(st: State, u: Address): int {
    (if u in st.delegation then 0 else Get(st.power, u)) + Get(st.delegated, u)
  }

  /** The weight of a power: itself, or under quadratic voting the whole part of its square root. */
  ghost predicate Weighs(w: int, power: int, quadratic: bool) {
    if quadratic then w >= 0 && w * w <= power < (w + 1) * (w + 1) else w == power
  }

  /** A vote is taken exactly from an address with power that has not voted, on an active proposal within its period.
      Its record is what was said, when, with what power and what weight, and exactly the named tally rises by the
      weight. */
  lemma VoteExact(st: State, u: Address, id: nat, choice: Choice, now: nat)
    ensures DoVote(st, u, id, choice, now).Done? <==>
      && id < |st.proposals| && st.proposals[id].status == Active
      && st.proposals[id].startTime <= now <= st.proposals[id].endTime
      && (id, u) !in st.votes && PowerOf(st, u) > 0
    ensures DoVote(st, u, id, choice, now).Done? ==>
      var st' := DoVote(st, u, id, choice, now).st;
      && (id, u) in st'.votes && st'.votes == st.votes[(id, u) := st'.votes[(id, u)]]
      && |st'.proposals| == |st.proposals| && st'.proposals == st.proposals[id := st'.proposals[id]]
      && st' == st.(votes := st'.votes, proposals := st'.proposals)
      && var v, p, q := st'.votes[(id, u)], st.proposals[id], st'.proposals[id];
         && v.choice == choice && v.time == now && v.power == PowerOf(st, u)
         && Weighs(v.effective, v.power, st.config.quadratic)
         && q == p.(votesFor := q.votesFor, votesAgainst := q.votesAgainst, votesAbstain := q.votesAbstain)
         && q.votesFor - p.votesFor == (if choice == For then v.effective else 0)
         && q.votesAgainst - p.votesAgainst == (if choice == Against then v.effective else 0)
         && q.votesAbstain - p.votesAbstain == (if choice == Abstain then v.effective else 0)
  {
    if EffectivePower(st, u) > 0 { RootIs(EffectivePower(st, u)); }
    hide Root;
  }

  /** Call i of the run cast the vote with the power and under the rule of that moment. */
  ghost predicate CastAt(st: State, ops: seq<Op>, k: (nat, Address), v: Vote, i: nat) {
    i < |ops| && ops[i] == CastVote(k.1, k.0, v.choice, v.time)
    && var s := Run(st, ops[..i]);
       v.power == PowerOf(s, k.1) > 0 && Weighs(v.effective, v.power, s.config.quadratic)
       && k.0 < |s.proposals| && s.proposals[k.0].status == Active
  }

  lemma OnlyVotesRecord(st: State, op: Op)
    requires Call(st, op).Done? && !op.CastVote?
    ensures Call(st, op).st.votes == st.votes
  {
    hide EffectivePower, QuorumMet, ThresholdMet;
  }

  /** Every record of every run was put there by such a call. */
  lemma {:induction false} VoteTrail(admin: Address, config: Config, ops: seq<Op>, k: (nat, Address)) returns (i: nat)
    requires k in Run(Init(admin, config), ops).votes
    ensures CastAt(Init(admin, config), ops, k, Run(Init(admin, config), ops).votes[k], i)
  {
    hide Call, PowerOf, Weighs;
    var start, n := Init(admin, config), |ops| - 1;
    var init, s, op := ops[..n], Run(start, ops[..n]), ops[n];
    if k in s.votes && s.votes[k] == Run(start, ops).votes[k] {
      i := VoteTrail(admin, config, init, k);
      assert init[..i] == ops[..i];
    } else {
      i := n;
      RecordedNow(s, op, k);
    }
  }

  lemma RecordedNow(st: State, op: Op, k: (nat, Address))
    requires k in Settle(st, Call(st, op)).votes
    requires k in st.votes ==> st.votes[k] != Settle(st, Call(st, op)).votes[k]
    ensures var v := Settle(st, Call(st, op)).votes[k];
      && op == CastVote(k.1, k.0, v.choice, v.time)
      && v.power == PowerOf(st, k.1) > 0 && Weighs(v.effective, v.power, st.config.quadratic)
      && k.0 < |st.proposals| && st.proposals[k.0].status == Active
  {
    if Call(st, op).Done? && !op.CastVote? { OnlyVotesRecord(st, op); }
    if op.CastVote? {
      VoteExact(st, op.u, op.id, op.choice, op.now);
      assert op == CastVote(op.u, op.id, op.choice, op.now);
    }
    hide DoVote, DoSetPower, DoCreate, DoActivate, DoFinalize, DoQueue;
    hide DoExecute, DoApprove, DoGuardianExecute, DoCancel;
  }

  /** A proposal needs power of at least the deposit; it is appended, open for votes from the delay after its
      creation for one voting period. */
  lemma CreationExact(st: State, proposer: Address, kind: Kind, now: nat)
    ensures DoCreate(st, proposer, kind, now).Done? <==> PowerOf(st, proposer) >= st.config.deposit
    ensures DoCreate(st, proposer, kind, now).Done? ==>
      var st' := DoCreate(st, proposer, kind, now).st;
      && |st'.proposals| == |st.proposals| + 1 && st'.proposals[..|st.proposals|] == st.proposals
      && st' == st.(proposals := st'.proposals)
      && var p := st'.proposals[|st.proposals|];
         && p.proposer == proposer && p.kind == kind && p.deposit == st.config.deposit && p.createdAt == now
         && p.startTime - now == st.config.votingDelay && p.endTime - p.startTime == st.config.votingPeriod
         && p.status == Pending && p.votesFor == p.votesAgainst == p.votesAbstain == 0
  {}

  // ---- The other calls --------------------------------------------------------------------------------------------

  /** When each lifecycle call completes, by the proposal it names. */
  ghost predicate Admitted(st: State, op: Op) {
    match op
    case Activate(id, now) =>
      id < |st.proposals| && st.proposals[id].status == Pending && now >= st.proposals[id].startTime
    case Finalize(id, now) => id < |st.proposals| && st.proposals[id].status == Active && now > st.proposals[id].endTime
    case Queue(id, _) => id < |st.proposals| && st.proposals[id].status == Passed
    case Execute(id, now) =>
      id < |st.proposals| && st.proposals[id].status == Queued && now >= st.proposals[id].executeAfter
    case GuardianExecute(g, id, _) =>
      g in st.guardians && Get(st.approvalCount, id) >= st.config.guardianThreshold && id < |st.proposals|
      && st.proposals[id].kind == EmergencyPause
      && (st.proposals[id].status == Active || st.proposals[id].status == Passed || st.proposals[id].status == Queued)
    case Cancel(caller, id, _) =>
      id < |st.proposals| && (caller == st.proposals[id].proposer || caller == st.admin)
      && (st.proposals[id].status == Pending || st.proposals[id].status == Active
          || st.proposals[id].status == Passed || st.proposals[id].status == Queued)
    case _ => false
  }

  predicate Lifecycle(op: Op) {
    op.Activate? || op.Finalize? || op.Queue? || op.Execute? || op.GuardianExecute? || op.Cancel?
  }

  /** A lifecycle call completes exactly then, and changes nothing but the proposal it names, and of that only the
      status and the time it sets. A finalised one passes exactly when, cross-multiplied, all votes reach the quorum
      of the supply and those for it the threshold of those for and against. */
  lemma LifecycleExact(st: State, op: Op)
    requires Lifecycle(op)
    ensures Call(st, op).Done? <==> Admitted(st, op)
    ensures Call(st, op).Done? ==>
      var st' := Call(st, op).st; var id := op.id;
      && |st'.proposals| == |st.proposals| && st' == st.(proposals := st.proposals[id := st'.proposals[id]])
      && var p, q := st.proposals[id], st'.proposals[id];
         match op
         case Activate(_, _) => q == p.(status := Active)
         case Finalize(_, _) =>
           q == p.(status := q.status) && (q.status == Passed || q.status == Failed)
           && (q.status == Passed <==>
                 && st.supply > 0
                 && (p.votesFor + p.votesAgainst + p.votesAbstain) * 10_000 >= st.config.quorumBps * st.supply
                 && p.votesFor + p.votesAgainst > 0
                 && p.votesFor * 10_000 >= st.config.passBps * (p.votesFor + p.votesAgainst))
         case Queue(_, now) => q == p.(status := Queued, executeAfter := now + st.config.timelock)
         case Execute(_, now) => q == p.(status := Executed, executedAt := now)
         case GuardianExecute(_, _, now) => q == p.(status := Executed, executedAt := now)
         case Cancel(_, _, _) => q == p.(status := Cancelled)
         case _ => true
  {
    if op.Finalize? && op.id < |st.proposals| { RoundingIsExact(st, st.proposals[op.id]); }
    hide QuorumMet, ThresholdMet;
  }

  /** A guardian approves once, whatever the proposal; guardians come and go one at a time. */
  lemma GuardiansExact(st: State, g: Address, id: nat)
    ensures DoApprove(st, g, id).Done? <==> g in st.guardians && (id, g) !in st.approvals
    ensures DoApprove(st, g, id).Done? ==>
      DoApprove(st, g, id).st == st.(approvals := st.approvals + {(id, g)},
                                     approvalCount := st.approvalCount[id := Get(st.approvalCount, id) + 1])
    ensures DoAddGuardian(st, g).guardians == st.guardians + {g}
    ensures DoRemoveGuardian(st, g).guardians == st.guardians - {g}
  {}

  /** A configuration keeps its shares of votes within the whole, asks for some approval, and leaves time to vote. */
  lemma ConfigurationExact(st: State, c: Config, now: nat)
    ensures Call(st, UpdateConfig(c, now))
            == if c.quorumBps <= 10_000 && 1 <= c.passBps <= 10_000 && c.votingPeriod >= 1 && c.deposit >= 0
               then Done(st.(config := c)) else Panic
  {}

  /** Delegating names a delegate other than oneself, who receives the delegator's own power, and takes that power
      back from the one before; undelegating only takes it back. */
  lemma DelegationExact(st: State, u: Address, d: Address)
    requires PowerInv(st)
    ensures DoDelegate(st, u, d).Done? <==> u != d
    ensures var own, st' := Get(st.power, u), RemoveDelegation(st, u);
      && st'.delegation == st.delegation - {u} && st' == st.(delegation := st'.delegation, delegated := st'.delegated)
      && forall x: Address :: Get(st'.delegated, x)
           == Get(st.delegated, x) - if u in st.delegation && x == st.delegation[u] then own else 0
    ensures u != d ==>
      var own, st' := Get(st.power, u), DoDelegate(st, u, d).st;
      && st'.delegation == (st.delegation - {u})[u := d]
      && st' == st.(delegation := st'.delegation, delegated := st'.delegated)
      && forall x: Address :: Get(st'.delegated, x)
           == Get(st.delegated, x) + (if x == d then own else 0)
              - if u in st.delegation && x == st.delegation[u] then own else 0
  {
    if u in st.delegation { ClampNeverFires(st, u); }
    hide PowerInv;
  }

  lemma PowerCallsExact(st: State, u: Address, power: int, now: nat)
    ensures Call(st, Undelegate(u, now)) == Done(RemoveDelegation(st, u))
    ensures Call(st, SetVotingPower(u, power, now)).Done? <==> power >= 0
    ensures power >= 0 ==>
      Call(st, SetVotingPower(u, power, now)).st
      == st.(power := st.power[u := power], supply := st.supply - Get(st.power, u) + power)
  {
    hide RemoveDelegation;
  }
}
