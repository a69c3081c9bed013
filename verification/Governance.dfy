/** The governance contract's storage as a value, and what every entrypoint does to it. */
module Governance {
  import opened Sums
  import opened IntegerRoot

  type Address = nat

  datatype Kind = ParameterChange | OperatorApproval | EmergencyPause
  datatype Status = Pending | Active | Passed | Failed | Queued | Executed | Cancelled
  datatype Choice = For | Against | Abstain

  datatype Proposal = Proposal(
    proposer: Address, kind: Kind, deposit: int, status: Status,
    votesFor: int, votesAgainst: int, votesAbstain: int,
    startTime: nat, endTime: nat, executeAfter: nat, createdAt: nat, executedAt: nat)

  datatype Vote = Vote(choice: Choice, power: int, effective: int, time: nat)

  datatype Config = Config(
    timelock: nat, votingPeriod: nat, votingDelay: nat, quorumBps: nat, passBps: nat,
    deposit: int, quadratic: bool, guardianThreshold: nat)

  datatype State = State(
    admin: Address, config: Config, supply: int, guardianCount: nat, guardians: set<Address>,
    proposals: seq<Proposal>, votes: map<(nat, Address), Vote>,
    power: map<Address, int>, delegation: map<Address, Address>, delegated: map<Address, int>,
    approvals: set<(nat, Address)>, approvalCount: map<nat, int>)

  datatype Outcome = Done(st: State) | Panic

  predicate ValidConfig(c: Config) {
    c.quorumBps <= 10_000 && 0 < c.passBps <= 10_000 && c.votingPeriod > 0 && c.deposit >= 0
  }

  function Init(admin: Address, c: Config): State {
    State(admin, c, 0, 0, {}, [], map[], map[], map[], map[], {}, map[])
  }

  // ---- Voting power -----------------------------------------------------------------------------------------------

  function Raw(st: State, u: Address): int { Get(st.power, u) }
  function Received(st: State, u: Address): int { Get(st.delegated, u) }

  /** Own power unless delegated away, plus power delegated in. */
  function EffectivePower(st: State, u: Address): int {
    (if u in st.delegation then 0 else Raw(st, u)) + Received(st, u)
  }

  function DoSetPower(st: State, u: Address, power: int): Outcome {
    if power < 0 then Panic
    else Done(st.(power := st.power[u := power], supply := st.supply - Raw(st, u) + power))
  }

  function NotNegative(x: int): int { if x < 0 then 0 else x }

  function RemoveDelegation(st: State, u: Address): State {
    if u !in st.delegation then st
    else
      var d := st.delegation[u];
      st.(delegated := st.delegated[d := NotNegative(Received(st, d) - Raw(st, u))],
          delegation := st.delegation - {u})
  }

  function DoDelegate(st: State, u: Address, d: Address): Outcome {
    if u == d then Panic
    else
      var freed := RemoveDelegation(st, u);
      Done(freed.(delegation := freed.delegation[u := d],
                  delegated := freed.delegated[d := Received(freed, d) + Raw(freed, u)]))
  }

  // ---- Proposals --------------------------------------------------------------------------------------------------

  function DoCreate(st: State, proposer: Address, kind: Kind, now: nat): Outcome {
    if EffectivePower(st, proposer) < st.config.deposit then Panic
    else
      var start := now + st.config.votingDelay;
      Done(st.(proposals := st.proposals + [
        Proposal(proposer, kind, st.config.deposit, Pending, 0, 0, 0,
                 start, start + st.config.votingPeriod, 0, now, 0)]))
  }

  function DoActivate(st: State, id: nat, now: nat): Outcome {
    if id >= |st.proposals| || st.proposals[id].status != Pending || now < st.proposals[id].startTime then Panic
    else Done(st.(proposals := st.proposals[id := st.proposals[id].(status := Active)]))
  }

  function VoteWeight(st: State, u: Address): int
    requires EffectivePower(st, u) > 0
  {
    if st.config.quadratic then Root(EffectivePower(st, u)) else EffectivePower(st, u)
  }

  function Tallied(p: Proposal, choice: Choice, votes: int): Proposal {
    match choice
    case For => p.(votesFor := p.votesFor + votes)
    case Against => p.(votesAgainst := p.votesAgainst + votes)
    case Abstain => p.(votesAbstain := p.votesAbstain + votes)
  }

  function DoVote(st: State, u: Address, id: nat, choice: Choice, now: nat): Outcome {
    if id >= |st.proposals| then Panic
    else
      var p := st.proposals[id];
      if p.status != Active || now < p.startTime || now > p.endTime || (id, u) in st.votes
         || EffectivePower(st, u) <= 0 then Panic
      else
        var w := VoteWeight(st, u);
        Done(st.(votes := st.votes[(id, u) := Vote(choice, EffectivePower(st, u), w, now)],
                 proposals := st.proposals[id := Tallied(p, choice, w)]))
  }

  /** The contract's two conditions, with their rounded-down percentages. */
  predicate QuorumMet(st: State, p: Proposal) {
    st.supply > 0 && (p.votesFor + p.votesAgainst + p.votesAbstain) * 10_000 / st.supply >= st.config.quorumBps
  }

  predicate ThresholdMet(st: State, p: Proposal) {
    p.votesFor + p.votesAgainst > 0 && p.votesFor * 10_000 / (p.votesFor + p.votesAgainst) >= st.config.passBps
  }

  function DoFinalize(st: State, id: nat, now: nat): Outcome {
    if id >= |st.proposals| || st.proposals[id].status != Active || now <= st.proposals[id].endTime then Panic
    else
      var p := st.proposals[id];
      Done(st.(proposals := st.proposals[id :=
        p.(status := if QuorumMet(st, p) && ThresholdMet(st, p) then Passed else Failed)]))
  }

  function DoQueue(st: State, id: nat, now: nat): Outcome {
    if id >= |st.proposals| || st.proposals[id].status != Passed then Panic
    else Done(st.(proposals := st.proposals[id :=
      st.proposals[id].(executeAfter := now + st.config.timelock, status := Queued)]))
  }

  function DoExecute(st: State, id: nat, now: nat): Outcome {
    if id >= |st.proposals| || st.proposals[id].status != Queued || now < st.proposals[id].executeAfter then Panic
    else Done(st.(proposals := st.proposals[id := st.proposals[id].(status := Executed, executedAt := now)]))
  }

  function ApprovalCount(st: State, id: nat): int { Get(st.approvalCount, id) }

  function DoApprove(st: State, g: Address, id: nat): Outcome {
    if g !in st.guardians || (id, g) in st.approvals then Panic
    else Done(st.(approvals := st.approvals + {(id, g)},
                  approvalCount := st.approvalCount[id := ApprovalCount(st, id) + 1]))
  }

  function DoGuardianExecute(st: State, g: Address, id: nat, now: nat): Outcome {
    if g !in st.guardians || ApprovalCount(st, id) < st.config.guardianThreshold || id >= |st.proposals|
       || st.proposals[id].kind != EmergencyPause || st.proposals[id].status !in {Active, Passed, Queued} then Panic
    else Done(st.(proposals := st.proposals[id := st.proposals[id].(status := Executed, executedAt := now)]))
  }

  function DoCancel(st: State, caller: Address, id: nat): Outcome {
    if id >= |st.proposals| || (caller != st.proposals[id].proposer && caller != st.admin)
       || st.proposals[id].status !in {Pending, Active, Passed, Queued} then Panic
    else Done(st.(proposals := st.proposals[id := st.proposals[id].(status := Cancelled)]))
  }

  function DoAddGuardian(st: State, g: Address): State {
    if g in st.guardians then st
    else st.(guardians := st.guardians + {g}, guardianCount := st.guardianCount + 1)
  }

  function DoRemoveGuardian(st: State, g: Address): State {
    if g !in st.guardians then st
    else st.(guardians := st.guardians - {g},
             guardianCount := if st.guardianCount > 0 then st.guardianCount - 1 else 0)
  }

  datatype Op =
    | SetVotingPower(u: Address, power: int, now: nat)
    | AddGuardian(g: Address, now: nat)
    | RemoveGuardian(g: Address, now: nat)
    | Delegate(u: Address, d: Address, now: nat)
    | Undelegate(u: Address, now: nat)
    | Create(proposer: Address, kind: Kind, now: nat)
    | Activate(id: nat, now: nat)
    | CastVote(u: Address, id: nat, choice: Choice, now: nat)
    | Finalize(id: nat, now: nat)
    | Queue(id: nat, now: nat)
    | Execute(id: nat, now: nat)
    | GuardianApprove(g: Address, id: nat, now: nat)
    | GuardianExecute(g: Address, id: nat, now: nat)
    | Cancel(caller: Address, id: nat, now: nat)
    | UpdateConfig(config: Config, now: nat)

  function Call(st: State, op: Op): Outcome {
    match op
    case SetVotingPower(u, power, _) => DoSetPower(st, u, power)
    case AddGuardian(g, _) => Done(DoAddGuardian(st, g))
    case RemoveGuardian(g, _) => Done(DoRemoveGuardian(st, g))
    case Delegate(u, d, _) => DoDelegate(st, u, d)
    case Undelegate(u, _) => Done(RemoveDelegation(st, u))
    case Create(proposer, kind, now) => DoCreate(st, proposer, kind, now)
    case Activate(id, now) => DoActivate(st, id, now)
    case CastVote(u, id, choice, now) => DoVote(st, u, id, choice, now)
    case Finalize(id, now) => DoFinalize(st, id, now)
    case Queue(id, now) => DoQueue(st, id, now)
    case Execute(id, now) => DoExecute(st, id, now)
    case GuardianApprove(g, id, _) => DoApprove(st, g, id)
    case GuardianExecute(g, id, now) => DoGuardianExecute(st, g, id, now)
    case Cancel(caller, id, _) => DoCancel(st, caller, id)
    case UpdateConfig(config, _) => if ValidConfig(config) then Done(st.(config := config)) else Panic
  }

  function Settle(st: State, o: Outcome): State {
    match o case Done(st') => st' case Panic => st
  }

  function Run(st: State, ops: seq<Op>): State {
    if ops == [] then st
    else var mid := Run(st, ops[..|ops| - 1]);
         Settle(mid, Call(mid, ops[|ops| - 1]))
  }
}
