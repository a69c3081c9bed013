/** The life of a proposal: tallies, the path to execution, and the states that are never left. */
module GovernanceProposals {
  import opened Sums
  import opened Quotients
  import opened IntegerRoot
  import opened Governance

  // ---- Tallies ----------------------------------------------------------------------------------------------------

  /** The recorded votes of one choice on one proposal; a map has one record per voter. */
  ghost function Ballots(st: State, id: nat, c: Choice): map<(nat, Address), int> {
    map k | k in st.votes && k.0 == id && st.votes[k].choice == c :: st.votes[k].effective
  }

  function Tally(p: Proposal, c: Choice): int {
    match c case For => p.votesFor case Against => p.votesAgainst case Abstain => p.votesAbstain
  }

  ghost predicate Counted(st: State, id: nat, c: Choice) {
    if id < |st.proposals| then Tally(st.proposals[id], c) == Sum(Ballots(st, id, c)) else Ballots(st, id, c) == map[]
  }

  ghost function ApproversOf(st: State, id: nat): set<(nat, Address)> {
    set k | k in st.approvals && k.0 == id
  }

  ghost predicate ApprovalsCounted(st: State, id: nat) {
    ApprovalCount(st, id) == |ApproversOf(st, id)|
  }

  ghost predicate CountInv(st: State) {
    && (forall id: nat, c: Choice :: Counted(st, id, c))
    && (forall k :: k in st.votes ==> st.votes[k].effective > 0)
    && (forall id: nat :: ApprovalsCounted(st, id))
    && st.guardianCount == |st.guardians|
  }

  lemma VoteWeightPositive(st: State, u: Address)
    requires EffectivePower(st, u) > 0
    ensures VoteWeight(st, u) > 0
  {
    RootMonotone(1, EffectivePower(st, u));
    RootOfSquare(1);
  }

  lemma BallotAdded(st: State, u: Address, id: nat, v: Vote, x: nat, c: Choice, st': State)
    requires (id, u) !in st.votes && st'.votes == st.votes[(id, u) := v]
    ensures Sum(Ballots(st', x, c)) == Sum(Ballots(st, x, c)) + if x == id && c == v.choice then v.effective else 0
    ensures x != id ==> Ballots(st', x, c) == Ballots(st, x, c)
  {
    if x == id && c == v.choice {
      SumPut(Ballots(st, id, c), (id, u), v.effective);
      assert Ballots(st', id, c) == Ballots(st, id, c)[(id, u) := v.effective];
    } else {
      assert Ballots(st', x, c) == Ballots(st, x, c);
    }
  }

  lemma VoteCounted(st: State, u: Address, id: nat, choice: Choice, now: nat, x: nat, c: Choice)
    requires DoVote(st, u, id, choice, now).Done? && Counted(st, x, c)
    ensures Counted(DoVote(st, u, id, choice, now).st, x, c)
  {
    hide VoteWeight, EffectivePower, Ballots;
    var st' := DoVote(st, u, id, choice, now).st;
    BallotAdded(st, u, id, st'.votes[(id, u)], x, c, st');
  }

  lemma VoteInv(st: State, u: Address, id: nat, choice: Choice, now: nat)
    requires CountInv(st) && DoVote(st, u, id, choice, now).Done?
    ensures CountInv(DoVote(st, u, id, choice, now).st)
  {
    hide VoteWeight, Counted;
    var st' := DoVote(st, u, id, choice, now).st;
    VoteWeightPositive(st, u);
    forall x: nat, c: Choice ensures Counted(st', x, c) { VoteCounted(st, u, id, choice, now, x, c); }
    forall x: nat ensures ApprovalsCounted(st', x) { assert ApprovalsCounted(st, x); }
  }

  lemma ApproveInv(st: State, g: Address, id: nat)
    requires CountInv(st) && DoApprove(st, g, id).Done?
    ensures CountInv(DoApprove(st, g, id).st)
  {
    var st' := DoApprove(st, g, id).st;
    forall x: nat, c: Choice ensures Counted(st', x, c) {
      assert Counted(st, x, c) && Ballots(st', x, c) == Ballots(st, x, c);
    }
    forall x: nat ensures ApprovalsCounted(st', x) {
      assert ApprovalsCounted(st, x);
      assert ApproversOf(st', x) == if x == id then ApproversOf(st, x) + {(id, g)} else ApproversOf(st, x);
    }
  }

  /** Calls that neither vote nor approve keep every ballot and tally. */
  lemma UncountedInv(st: State, st': State)
    requires CountInv(st) && st'.votes == st.votes && st'.approvals == st.approvals
    requires st'.approvalCount == st.approvalCount && st'.guardianCount == |st'.guardians|
    requires |st.proposals| <= |st'.proposals|
    requires forall id: nat, c: Choice :: id < |st'.proposals| ==>
      Tally(st'.proposals[id], c) == if id < |st.proposals| then Tally(st.proposals[id], c) else 0
    ensures CountInv(st')
  {
    forall x: nat, c: Choice ensures Counted(st', x, c) {
      assert Counted(st, x, c) && Ballots(st', x, c) == Ballots(st, x, c);
    }
    forall x: nat ensures ApprovalsCounted(st', x) {
      assert ApprovalsCounted(st, x) && ApproversOf(st', x) == ApproversOf(st, x);
    }
  }

  lemma CallCounts(st: State, op: Op)
    requires CountInv(st)
    ensures CountInv(Settle(st, Call(st, op)))
  {
    if Call(st, op).Done? {
      match op
      case CastVote(u, id, choice, now) => VoteInv(st, u, id, choice, now); hide CountInv, EffectivePower, VoteWeight;
      case GuardianApprove(g, id, _) => ApproveInv(st, g, id); hide CountInv;
      case _ =>
        GuardiansCounted(st, op);
        BooksKept(st, op);
        TalliesKept(st, op);
        hide CountInv, Call, Tally;
        UncountedInv(st, Call(st, op).st);
    }
  }

  lemma TalliesKept(st: State, op: Op)
    requires Call(st, op).Done? && !op.CastVote?
    ensures var st' := Call(st, op).st;
      forall id: nat, c: Choice :: id < |st'.proposals| ==>
        Tally(st'.proposals[id], c) == if id < |st.proposals| then Tally(st.proposals[id], c) else 0
  {
    hide Call, Carried;
    var st' := Call(st, op).st;
    forall id: nat, c: Choice | id < |st'.proposals|
      ensures Tally(st'.proposals[id], c) == if id < |st.proposals| then Tally(st.proposals[id], c) else 0
    {
      if id < |st.proposals| { CallMoves(st, op, id); } else { NewProposalIsPending(st, op, id); }
    }
  }

  lemma BooksKept(st: State, op: Op)
    requires Call(st, op).Done? && !op.CastVote? && !op.GuardianApprove?
    ensures var st' := Call(st, op).st;
      st'.votes == st.votes && st'.approvals == st.approvals && st'.approvalCount == st.approvalCount
      && |st.proposals| <= |st'.proposals|
  {
    hide EffectivePower, QuorumMet, ThresholdMet;
  }

  lemma GuardiansCounted(st: State, op: Op)
    requires CountInv(st) && Call(st, op).Done?
    ensures Call(st, op).st.guardianCount == |Call(st, op).st.guardians|
  {
    hide EffectivePower, QuorumMet, ThresholdMet, VoteWeight, Counted, ApprovalsCounted;
  }

  /** On every run the three tallies of a proposal are the sums of its recorded votes, one record per voter, and its
      approval count is the number of distinct guardians that approved. */
  lemma {:induction false} TalliesAreSums(admin: Address, config: Config, ops: seq<Op>)
    ensures CountInv(Run(Init(admin, config), ops))
  {
    var start := Init(admin, config);
    if ops == [] {
      forall id: nat, c: Choice ensures Counted(start, id, c) {}
      forall id: nat ensures ApprovalsCounted(start, id) { assert ApproversOf(start, id) == {}; }
    } else {
      TalliesAreSums(admin, config, ops[..|ops| - 1]);
      CallCounts(Run(start, ops[..|ops| - 1]), ops[|ops| - 1]);
    }
  }

  // ---- The tests at finalisation ----------------------------------------------------------------------------------

  /** Quorum and threshold without rounding. */
  predicate Carried(st: State, p: Proposal) {
    && st.supply > 0
    && (p.votesFor + p.votesAgainst + p.votesAbstain) * 10_000 >= st.config.quorumBps * st.supply
    && p.votesFor + p.votesAgainst > 0
    && p.votesFor * 10_000 >= st.config.passBps * (p.votesFor + p.votesAgainst)
  }

  lemma QuotientAtLeast(x: int, d: int, k: int)
    requires d > 0
    ensures x / d >= k <==> x >= k * d
  {
    FloorBounds(x, d);
    ProductOrder(k, x / d, d);
    ProductOrder(x / d + 1, k, d);
  }

  /** Rounding the percentages down decides nothing. */
  lemma RoundingIsExact(st: State, p: Proposal)
    ensures QuorumMet(st, p) && ThresholdMet(st, p) <==> Carried(st, p)
  {
    if st.supply > 0 {
      QuotientAtLeast((p.votesFor + p.votesAgainst + p.votesAbstain) * 10_000, st.supply, st.config.quorumBps);
    }
    if p.votesFor + p.votesAgainst > 0 {
      QuotientAtLeast(p.votesFor * 10_000, p.votesFor + p.votesAgainst, st.config.passBps);
    }
  }

  // ---- Transitions ------------------------------------------------------------------------------------------------

  predicate Final(s: Status) { s in {Failed, Executed, Cancelled} }

  ghost predicate SameBallot(p: Proposal, q: Proposal) {
    q == p.(status := q.status, executeAfter := q.executeAfter, executedAt := q.executedAt)
  }

  /** Everything a call can do to a proposal that is already there. */
  ghost predicate Moves(st: State, op: Op, id: nat, p: Proposal, q: Proposal) {
    || q == p
    || (op.Activate? && op.id == id && p.status == Pending && op.now >= p.startTime && q == p.(status := Active))
    || (op.CastVote? && op.id == id && p.status == Active && p.startTime <= op.now <= p.endTime
        && q == p.(votesFor := q.votesFor, votesAgainst := q.votesAgainst, votesAbstain := q.votesAbstain))
    || (op.Finalize? && op.id == id && p.status == Active && op.now > p.endTime
        && q == p.(status := if Carried(st, p) then Passed else Failed))
    || (op.Queue? && op.id == id && p.status == Passed
        && q == p.(status := Queued, executeAfter := op.now + st.config.timelock))
    || (op.Execute? && op.id == id && p.status == Queued && op.now >= p.executeAfter
        && q == p.(status := Executed, executedAt := op.now))
    || (op.GuardianExecute? && op.id == id && p.kind == EmergencyPause && p.status in {Active, Passed, Queued}
        && op.g in st.guardians && ApprovalCount(st, id) >= st.config.guardianThreshold
        && q == p.(status := Executed, executedAt := op.now))
    || (op.Cancel? && op.id == id && (op.caller == p.proposer || op.caller == st.admin) && !Final(p.status)
        && q == p.(status := Cancelled))
  }

  lemma CallMoves(st: State, op: Op, id: nat)
    requires id < |st.proposals|
    ensures var st' := Settle(st, Call(st, op));
      |st.proposals| <= |st'.proposals| && Moves(st, op, id, st.proposals[id], st'.proposals[id])
  {
    if op.CastVote? {
      VoteMoves(st, op, id);
    } else if op.Finalize? {
      FinalizeMoves(st, op, id);
    } else if op.GuardianExecute? || op.Cancel? {
      OverrideMoves(st, op, id);
    } else {
      OtherMoves(st, op, id);
    }
  }

  lemma VoteMoves(st: State, op: Op, id: nat)
    requires id < |st.proposals| && op.CastVote?
    ensures var st' := Settle(st, Call(st, op));
      |st.proposals| <= |st'.proposals| && Moves(st, op, id, st.proposals[id], st'.proposals[id])
  {
    hide EffectivePower, VoteWeight, Carried;
  }

  lemma FinalizeMoves(st: State, op: Op, id: nat)
    requires id < |st.proposals| && op.Finalize?
    ensures var st' := Settle(st, Call(st, op));
      |st.proposals| <= |st'.proposals| && Moves(st, op, id, st.proposals[id], st'.proposals[id])
  {
    hide Carried, QuorumMet, ThresholdMet;
    RoundingIsExact(st, st.proposals[id]);
  }

  lemma OverrideMoves(st: State, op: Op, id: nat)
    requires id < |st.proposals| && (op.GuardianExecute? || op.Cancel?)
    ensures var st' := Settle(st, Call(st, op));
      |st.proposals| <= |st'.proposals| && Moves(st, op, id, st.proposals[id], st'.proposals[id])
  {
    hide Carried;
  }

  lemma OtherMoves(st: State, op: Op, id: nat)
    requires id < |st.proposals| && !op.CastVote? && !op.Finalize? && !op.GuardianExecute? && !op.Cancel?
    ensures var st' := Settle(st, Call(st, op));
      |st.proposals| <= |st'.proposals| && Moves(st, op, id, st.proposals[id], st'.proposals[id])
  {
    hide EffectivePower, Carried;
  }

  lemma NewProposalIsPending(st: State, op: Op, id: nat)
    requires |st.proposals| <= id < |Settle(st, Call(st, op)).proposals|
    ensures var p := Settle(st, Call(st, op)).proposals[id];
      p.status == Pending && p.votesFor == p.votesAgainst == p.votesAbstain == 0
  {
    hide EffectivePower, VoteWeight, QuorumMet, ThresholdMet;
  }

  /** Failed, executed and cancelled proposals never change again. */
  lemma {:induction false} FinalIsForever(st: State, ops: seq<Op>, id: nat)
    requires id < |st.proposals| && Final(st.proposals[id].status)
    ensures id < |Run(st, ops).proposals| && Run(st, ops).proposals[id] == st.proposals[id]
  {
    hide Call;
    if ops == [] {
    } else {
      FinalIsForever(st, ops[..|ops| - 1], id);
      CallMoves(Run(st, ops[..|ops| - 1]), ops[|ops| - 1], id);
    }
  }

  /** A vote once cast is never changed or withdrawn. */
  lemma {:induction false} VotesAreForever(st: State, ops: seq<Op>, k: (nat, Address))
    requires k in st.votes
    ensures k in Run(st, ops).votes && Run(st, ops).votes[k] == st.votes[k]
  {
    hide Call;
    if ops == [] {
    } else {
      VotesAreForever(st, ops[..|ops| - 1], k);
      VoteKept(Run(st, ops[..|ops| - 1]), ops[|ops| - 1], k);
    }
  }

  lemma VoteKept(st: State, op: Op, k: (nat, Address))
    requires k in st.votes
    ensures k in Settle(st, Call(st, op)).votes && Settle(st, Call(st, op)).votes[k] == st.votes[k]
  {
    if Call(st, op).Done? && !op.CastVote? && !op.GuardianApprove? {
      BooksKept(st, op);
    }
    hide EffectivePower, VoteWeight, QuorumMet, ThresholdMet, RemoveDelegation;
  }

  // ---- The path to execution --------------------------------------------------------------------------------------

  /** Call i of the run finalised the proposal, after its voting period, with p's final ballot carried. */
  ghost predicate FinalisedAt(st: State, ops: seq<Op>, id: nat, p: Proposal, i: nat) {
    i < |ops| && ops[i].Finalize? && ops[i].id == id
    && var s := Run(st, ops[..i]);
       id < |s.proposals| && s.proposals[id].status == Active && SameBallot(s.proposals[id], p)
       && ops[i].now > p.endTime && Carried(s, s.proposals[id])
  }

  /** Call i queued it, fixing its execution time by the timelock then configured. */
  ghost predicate QueuedAt(st: State, ops: seq<Op>, id: nat, p: Proposal, i: nat) {
    i < |ops| && ops[i].Queue? && ops[i].id == id
    && p.executeAfter == ops[i].now + Run(st, ops[..i]).config.timelock
  }

  ghost predicate ExecutedAt(st: State, ops: seq<Op>, id: nat, p: Proposal, i: nat) {
    i < |ops| && ops[i].Execute? && ops[i].id == id && p.executedAt == ops[i].now >= p.executeAfter
  }

  /** Call i was an emergency execution by a guardian, with enough distinct guardian approvals on record. */
  ghost predicate EmergencyAt(st: State, ops: seq<Op>, id: nat, p: Proposal, i: nat) {
    i < |ops| && ops[i].GuardianExecute? && ops[i].id == id && p.kind == EmergencyPause && p.executedAt == ops[i].now
    && var s := Run(st, ops[..i]);
       ops[i].g in s.guardians && |ApproversOf(s, id)| >= s.config.guardianThreshold
  }

  ghost predicate Trail(st: State, ops: seq<Op>, id: nat, p: Proposal, f: nat, q: nat, e: nat) {
    match p.status
    case Passed => FinalisedAt(st, ops, id, p, f)
    case Queued => f < q && FinalisedAt(st, ops, id, p, f) && QueuedAt(st, ops, id, p, q)
    case Executed =>
      || (f < q < e && FinalisedAt(st, ops, id, p, f) && QueuedAt(st, ops, id, p, q) && ExecutedAt(st, ops, id, p, e))
      || EmergencyAt(st, ops, id, p, e)
    case _ => true
  }

  lemma TrailExtends(st: State, ops: seq<Op>, id: nat, p: Proposal, f: nat, q: nat, e: nat)
    requires ops != [] && Trail(st, ops[..|ops| - 1], id, p, f, q, e)
    ensures Trail(st, ops, id, p, f, q, e)
  {
    hide Run, Carried, ApproversOf;
    var init := ops[..|ops| - 1];
    assert forall i :: 0 <= i < |init| ==> init[..i] == ops[..i];
  }

  /** From a finalised or queued proposal to the next stage of the same ballot. */
  lemma TrailAdvances(st: State, ops: seq<Op>, id: nat, p: Proposal, p': Proposal, f: nat, q: nat, e: nat)
    returns (q': nat, e': nat)
    requires ops != [] && Trail(st, ops[..|ops| - 1], id, p, f, q, e)
    requires var last, s := ops[|ops| - 1], Run(st, ops[..|ops| - 1]);
      id < |s.proposals| && s.proposals[id] == p && Moves(s, last, id, p, p')
      && (last.Queue? || last.Execute?) && p' != p
    ensures Trail(st, ops, id, p', f, q', e')
  {
    hide Run, Carried, ApproversOf;
    var init := ops[..|ops| - 1];
    assert forall i :: 0 <= i < |init| ==> init[..i] == ops[..i];
    q', e' := if ops[|ops| - 1].Queue? then |init| else q, |init|;
  }

  /** Every proposal of every run carries its trail: a passed one was finalised with quorum and threshold met on the
      ballot it still has; a queued one was finalised and then queued; an executed one was finalised, queued and
      executed in that order once the timelock had run, or was an emergency executed on enough guardian approvals. */
  lemma {:induction false} ProposalTrail(admin: Address, config: Config, ops: seq<Op>, id: nat)
    returns (f: nat, q: nat, e: nat)
    requires id < |Run(Init(admin, config), ops).proposals|
    ensures Trail(Init(admin, config), ops, id, Run(Init(admin, config), ops).proposals[id], f, q, e)
  {
    hide Call, Trail, Moves, Carried;
    var start := Init(admin, config);
    f, q, e := 0, 0, 0;
    if ops != [] {
      var init, last := ops[..|ops| - 1], ops[|ops| - 1];
      var s := Run(start, init);
      if id >= |s.proposals| {
        NewProposalIsPending(s, last, id);
        PendingTrail(start, ops, id, Run(start, ops).proposals[id]);
      } else {
        f, q, e := ProposalTrail(admin, config, init, id);
        CallMoves(s, last, id);
        TalliesAreSums(admin, config, init);
        f, q, e := TrailStep(start, ops, id, s.proposals[id], Run(start, ops).proposals[id], f, q, e);
      }
    }
  }

  lemma PendingTrail(st: State, ops: seq<Op>, id: nat, p: Proposal)
    requires p.status == Pending
    ensures Trail(st, ops, id, p, 0, 0, 0)
  {}

  lemma TrailStep(st: State, ops: seq<Op>, id: nat, p: Proposal, p': Proposal, f: nat, q: nat, e: nat)
    returns (f': nat, q': nat, e': nat)
    requires ops != [] && Trail(st, ops[..|ops| - 1], id, p, f, q, e)
    requires var s := Run(st, ops[..|ops| - 1]);
      id < |s.proposals| && s.proposals[id] == p && Moves(s, ops[|ops| - 1], id, p, p') && CountInv(s)
    ensures Trail(st, ops, id, p', f', q', e')
  {
    hide Run, Carried, CountInv, Trail;
    var n, last := |ops| - 1, ops[|ops| - 1];
    f', q', e' := f, q, e;
    if p' == p {
      TrailExtends(st, ops, id, p, f, q, e);
    } else if last.Finalize? {
      f' := n;
      FinalisedTrail(st, ops, id, p, p', q, e);
    } else if last.Queue? || last.Execute? {
      q', e' := TrailAdvances(st, ops, id, p, p', f, q, e);
    } else if last.GuardianExecute? {
      e' := n;
      EmergencyTrail(st, ops, id, p, p', f, q);
    } else {
      OpenTrail(st, ops, id, p', f, q, e);
    }
  }

  lemma FinalisedTrail(st: State, ops: seq<Op>, id: nat, p: Proposal, p': Proposal, q: nat, e: nat)
    requires ops != [] && ops[|ops| - 1].Finalize? && p' != p
    requires var s := Run(st, ops[..|ops| - 1]);
      id < |s.proposals| && s.proposals[id] == p && Moves(s, ops[|ops| - 1], id, p, p')
    ensures Trail(st, ops, id, p', |ops| - 1, q, e)
  {
    hide Run, Carried;
  }

  lemma EmergencyTrail(st: State, ops: seq<Op>, id: nat, p: Proposal, p': Proposal, f: nat, q: nat)
    requires ops != [] && ops[|ops| - 1].GuardianExecute? && p' != p
    requires var s := Run(st, ops[..|ops| - 1]);
      id < |s.proposals| && s.proposals[id] == p && Moves(s, ops[|ops| - 1], id, p, p') && CountInv(s)
    ensures Trail(st, ops, id, p', f, q, |ops| - 1)
  {
    hide Run, Counted;
    assert ApprovalsCounted(Run(st, ops[..|ops| - 1]), id);
  }

  lemma OpenTrail(st: State, ops: seq<Op>, id: nat, p: Proposal, f: nat, q: nat, e: nat)
    requires p.status !in {Passed, Queued, Executed}
    ensures Trail(st, ops, id, p, f, q, e)
  {}
}
