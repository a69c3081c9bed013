/** The governance contract as it runs, proved equal to its specification in Governance. */
module GovernanceContract {
  import opened Sums
  import opened IntegerRoot
  import opened Governance

  class Contract {
    var admin: Address
    var config: Config
    var supply: int
    var guardianCount: nat
    var guardians: set<Address>
    var proposals: seq<Proposal>
    var votes: map<(nat, Address), Vote>
    var power: map<Address, int>
    var delegation: map<Address, Address>
    var delegated: map<Address, int>
    var approvals: set<(nat, Address)>
    var approvalCount: map<nat, int>

    ghost function St(): State
      reads this
    {
      State(admin, config, supply, guardianCount, guardians, proposals, votes, power, delegation, delegated,
            approvals, approvalCount)
    }

    ghost predicate Ended(before: State, o: Outcome, ok: bool)
      reads this
    {
      ok == o.Done? && St() == Settle(before, o)
    }

    constructor (admin: Address, config: Config)
      requires ValidConfig(config)
      ensures St() == Init(admin, config)
    {
      this.admin, this.config := admin, config;
      supply, guardianCount, guardians, proposals, votes := 0, 0, {}, [], map[];
      power, delegation, delegated, approvals, approvalCount := map[], map[], map[], {}, map[];
    }

    method SetVotingPower(u: Address, p: int, now: nat) returns (ok: bool)
      modifies this
      ensures Ended(old(St()), Call(old(St()), Op.SetVotingPower(u, p, now)), ok)
    {
      if p < 0 { return false; }
      var before := Get(power, u);
      power := power[u := p];
      var total := supply;
      total := total - before + p;
      supply := total;
      ok := true;
    }

    method AddGuardian(g: Address, now: nat)
      modifies this
      ensures Ended(old(St()), Call(old(St()), Op.AddGuardian(g, now)), true)
    {
      if g !in guardians {
        guardians := guardians + {g};
        guardianCount := guardianCount + 1;
      }
    }

    method RemoveGuardian(g: Address, now: nat)
      modifies this
      ensures Ended(old(St()), Call(old(St()), Op.RemoveGuardian(g, now)), true)
    {
      if g in guardians {
        guardians := guardians - {g};
        if guardianCount > 0 { guardianCount := guardianCount - 1; }
      }
    }

    method RemoveDelegationInternal(u: Address)
      modifies this`delegation, this`delegated
      ensures St() == RemoveDelegation(old(St()), u)
    {
      if u in delegation {
        var delegatee := delegation[u];
        var received := Get(delegated, delegatee);
        received := received - Get(power, u);
        if received < 0 { received := 0; }
        delegated := delegated[delegatee := received];
        delegation := delegation - {u};
      }
    }

    method DelegateVotes(u: Address, d: Address, now: nat) returns (ok: bool)
      modifies this
      ensures Ended(old(St()), Call(old(St()), Delegate(u, d, now)), ok)
    {
      if u == d { return false; }
      RemoveDelegationInternal(u);
      var p := Get(power, u);
      delegation := delegation[u := d];
      var received := Get(delegated, d);
      received := received + p;
      delegated := delegated[d := received];
      ok := true;
    }

    method UndelegateVotes(u: Address, now: nat)
      modifies this
      ensures Ended(old(St()), Call(old(St()), Undelegate(u, now)), true)
    {
      RemoveDelegationInternal(u);
    }

    method EffectivePowerOf(u: Address) returns (p: int)
      ensures p == EffectivePower(St(), u)
    {
      p := 0;
      if u !in delegation { p := Get(power, u); }
      p := p + Get(delegated, u);
    }

    method CreateProposal(proposer: Address, kind: Kind, now: nat) returns (ok: bool, id: nat)
      modifies this
      ensures Ended(old(St()), Call(old(St()), Create(proposer, kind, now)), ok)
      ensures ok ==> id == |old(proposals)| && proposals[..id] == old(proposals)
    {
      var p := EffectivePowerOf(proposer);
      id := |proposals|;
      if p < config.deposit { return false, id; }
      var start := now + config.votingDelay;
      var end := start + config.votingPeriod;
      proposals := proposals + [Proposal(proposer, kind, config.deposit, Pending, 0, 0, 0, start, end, 0, now, 0)];
      ok := true;
    }

    method ActivateProposal(id: nat, now: nat) returns (ok: bool)
      modifies this
      ensures Ended(old(St()), Call(old(St()), Activate(id, now)), ok)
    {
      if id >= |proposals| || proposals[id].status != Pending || now < proposals[id].startTime { return false; }
      var proposal := proposals[id].(status := Active);
      proposals := proposals[id := proposal];
      ok := true;
    }

    method CastVote(u: Address, id: nat, choice: Choice, now: nat) returns (ok: bool)
      modifies this
      ensures Ended(old(St()), Call(old(St()), Op.CastVote(u, id, choice, now)), ok)
    {
      if id >= |proposals| || proposals[id].status != Active { return false; }
      var proposal := proposals[id];
      if now < proposal.startTime || now > proposal.endTime || (id, u) in votes { return false; }
      var p := EffectivePowerOf(u);
      if p <= 0 { return false; }
      hide EffectivePower;
      var effective := p;
      if config.quadratic { effective := Isqrt(p); }
      assert effective == VoteWeight(St(), u);
      votes := votes[(id, u) := Vote(choice, p, effective, now)];
      match choice {
        case For => proposal := proposal.(votesFor := proposal.votesFor + effective);
        case Against => proposal := proposal.(votesAgainst := proposal.votesAgainst + effective);
        case Abstain => proposal := proposal.(votesAbstain := proposal.votesAbstain + effective);
      }
      proposals := proposals[id := proposal];
      ok := true;
    }

    method FinalizeProposal(id: nat, now: nat) returns (ok: bool)
      modifies this
      ensures Ended(old(St()), Call(old(St()), Finalize(id, now)), ok)
    {
      if id >= |proposals| || proposals[id].status != Active || now <= proposals[id].endTime { return false; }
      var p := proposals[id];
      var totalVotes := p.votesFor + p.votesAgainst + p.votesAbstain;
      var quorumMet := supply > 0 && totalVotes * 10_000 / supply >= config.quorumBps;
      var thresholdMet := p.votesFor + p.votesAgainst > 0
        && p.votesFor * 10_000 / (p.votesFor + p.votesAgainst) >= config.passBps;
      p := p.(status := if quorumMet && thresholdMet then Passed else Failed);
      proposals := proposals[id := p];
      ok := true;
    }

    method QueueProposal(id: nat, now: nat) returns (ok: bool)
      modifies this
      ensures Ended(old(St()), Call(old(St()), Queue(id, now)), ok)
    {
      if id >= |proposals| || proposals[id].status != Passed { return false; }
      var p := proposals[id];
      p := p.(executeAfter := now + config.timelock);
      p := p.(status := Queued);
      proposals := proposals[id := p];
      ok := true;
    }

    method ExecuteProposal(id: nat, now: nat) returns (ok: bool)
      modifies this
      ensures Ended(old(St()), Call(old(St()), Execute(id, now)), ok)
    {
      if id >= |proposals| || proposals[id].status != Queued || now < proposals[id].executeAfter { return false; }
      var p := proposals[id].(status := Executed);
      p := p.(executedAt := now);
      proposals := proposals[id := p];
      ok := true;
    }

    method GuardianApprove(g: Address, id: nat, now: nat) returns (ok: bool)
      modifies this
      ensures Ended(old(St()), Call(old(St()), Op.GuardianApprove(g, id, now)), ok)
    {
      if g !in guardians || (id, g) in approvals { return false; }
      approvals := approvals + {(id, g)};
      approvalCount := approvalCount[id := Get(approvalCount, id) + 1];
      ok := true;
    }

    method GuardianExecute(g: Address, id: nat, now: nat) returns (ok: bool)
      modifies this
      ensures Ended(old(St()), Call(old(St()), Op.GuardianExecute(g, id, now)), ok)
    {
      if g !in guardians || Get(approvalCount, id) < config.guardianThreshold { return false; }
      if id >= |proposals| || proposals[id].kind != EmergencyPause { return false; }
      var p := proposals[id];
      if p.status != Active && p.status != Passed && p.status != Queued { return false; }
      p := p.(status := Executed);
      p := p.(executedAt := now);
      proposals := proposals[id := p];
      ok := true;
    }

    method CancelProposal(caller: Address, id: nat, now: nat) returns (ok: bool)
      modifies this
      ensures Ended(old(St()), Call(old(St()), Cancel(caller, id, now)), ok)
    {
      if id >= |proposals| { return false; }
      var p := proposals[id];
      if caller != p.proposer && caller != admin { return false; }
      if p.status != Pending && p.status != Active && p.status != Passed && p.status != Queued { return false; }
      p := p.(status := Cancelled);
      proposals := proposals[id := p];
      ok := true;
    }

    method UpdateConfig(c: Config, now: nat) returns (ok: bool)
      modifies this
      ensures Ended(old(St()), Call(old(St()), Op.UpdateConfig(c, now)), ok)
    {
      if c.quorumBps > 10_000 || c.passBps == 0 || c.passBps > 10_000 { return false; }
      if c.votingPeriod == 0 || c.deposit < 0 { return false; }
      config := c;
      ok := true;
    }
  }
}
