/** What an escrow is created with, and exactly when it pays out or back, said in plain arithmetic. */
module EscrowTerms {
  import opened Sums
  import opened Quotients
  import opened Escrow
  import opened EscrowConservation

  /** A new escrow owes the configured share of its amount as a fee, rounded down, and is locked from now for the period
      set for its bridge and asset, an hour if none is set. */
  lemma CreationExact(st: State, depositor: Address, recipient: Address, bridge: Name, asset: Name, amount: int,
                      metadata: string, verifier: Address, now: nat) returns (fee: int)
    ensures IsQuotient(fee, amount * st.feeBps, 10_000)
    ensures DoCreate(st, depositor, recipient, bridge, asset, amount, metadata, verifier, now).Done?
            <==> !st.paused && amount > 0 && |metadata| <= 512
    ensures DoCreate(st, depositor, recipient, bridge, asset, amount, metadata, verifier, now).Done? ==>
      var st' := DoCreate(st, depositor, recipient, bridge, asset, amount, metadata, verifier, now).st;
      && st' == st.(escrows := st'.escrows, accrued := st.accrued + fee)
      && |st'.escrows| == |st.escrows| + 1 && st'.escrows[..|st.escrows|] == st.escrows
      && var e := st'.escrows[|st.escrows|];
         && e.depositor == depositor && e.recipient == recipient && e.verifier == verifier
         && e.amount == amount && e.feeTotal == fee && e.releasedAmount == 0
         && e.lockUntil - now == (if (bridge, asset) in st.lockPeriods then st.lockPeriods[(bridge, asset)] else 3_600)
         && e.status == Pending && !e.verified
  {
    fee := amount * st.feeBps / BPS_DENOMINATOR;
    QuotientIs(amount * st.feeBps, BPS_DENOMINATOR);
    hide IsQuotient;
  }

  /** A release is for the recipient or the administrator, of a pending and verified escrow at or after its lock, and
      of no more than is left beside the fee; it closes the escrow exactly when nothing is left. */
  lemma ReleaseExact(st: State, caller: Address, id: nat, amount: int, now: nat)
    ensures DoRelease(st, caller, id, amount, now).Done? <==>
      && !st.paused && !st.tripped && id < |st.escrows|
      && var e := st.escrows[id];
         && (caller == e.recipient || caller == st.admin)
         && e.status == Pending && e.verified && now >= e.lockUntil
         && 0 < amount <= e.amount - e.feeTotal - e.releasedAmount
    ensures DoRelease(st, caller, id, amount, now).Done? ==>
      var st' := DoRelease(st, caller, id, amount, now).st; var e := st.escrows[id];
      && Paid(st', id) == Paid(st, id) + amount
      && st'.escrows == st.escrows[id := e.(
           releasedAmount := e.releasedAmount + amount,
           status := if e.releasedAmount + amount == e.amount - e.feeTotal then Released else Pending)]
      && st'.accrued == st.accrued && st'.disputes == st.disputes
  {}

  /** A refund is for the depositor or the administrator: of a pending escrow that was never verified, or of a
      challenged one, verified or not, whose dispute was resolved against release. It pays back all that is left
      beside the fee. */
  lemma RefundExact(st: State, caller: Address, id: nat)
    ensures DoRefund(st, caller, id).Done? <==>
      && !st.paused && !st.tripped && id < |st.escrows|
      && var e := st.escrows[id];
         && (caller == e.depositor || caller == st.admin)
         && ((e.status == Pending && !e.verified)
             || (e.status == Challenged && id in st.disputes
                 && st.disputes[id].resolved && !st.disputes[id].decisionRelease))
         && e.amount - e.feeTotal - e.releasedAmount > 0
    ensures DoRefund(st, caller, id).Done? ==>
      var st' := DoRefund(st, caller, id).st; var e := st.escrows[id];
      && RefundPaid(st', id) == RefundPaid(st, id) + (e.amount - e.feeTotal - e.releasedAmount)
      && st'.escrows == st.escrows[id := e.(status := Refunded)]
      && st'.accrued == st.accrued && st'.disputes == st.disputes
  {}

  /** A resolution step needs a listed approver who has not signed, and the decision the first one took; the required
      number is the threshold at the first signature. A decision to release reopens the escrow, one against it does
      not. */
  lemma ResolutionExact(st: State, approver: Address, id: nat, release: bool)
    ensures var first := id !in st.disputes;
      DoResolve(st, approver, id, release).Done? <==>
        && !st.paused && approver in st.approvers && id < |st.escrows| && st.escrows[id].status == Challenged
        && (first || st.disputes[id].resolved
            || (st.disputes[id].decisionRelease == release && approver !in st.disputes[id].approvals))
    ensures DoResolve(st, approver, id, release).Done? && !(id in st.disputes && st.disputes[id].resolved) ==>
      var st' := DoResolve(st, approver, id, release).st;
      var before := if id in st.disputes then st.disputes[id].approvals else [];
      && id in st'.disputes
      && var d := st'.disputes[id];
         && d.approvals == before + [approver] && d.decisionRelease == release
         && d.required == (if id in st.disputes then st.disputes[id].required else st.threshold)
         && (d.resolved <==> |d.approvals| >= d.required)
         && st'.escrows == st.escrows[id := st.escrows[id].(
              status := if d.resolved && release then Pending else Challenged)]
    ensures DoResolve(st, approver, id, release).Done? && id in st.disputes && st.disputes[id].resolved ==>
      DoResolve(st, approver, id, release).st == st
  {}

  /** A challenge is raised once, on a pending escrow, before its lock has run out. */
  lemma ChallengeExact(st: State, id: nat, now: nat)
    ensures DoChallenge(st, id, now).Done? <==>
      !st.paused && id < |st.escrows| && st.escrows[id].status == Pending && now < st.escrows[id].lockUntil
      && id !in st.challenges
    ensures DoChallenge(st, id, now).Done? ==>
      var st' := DoChallenge(st, id, now).st;
      st'.escrows == st.escrows[id := st.escrows[id].(status := Challenged)] && st'.challenges == st.challenges + {id}
  {}

  /** The verifier of an open escrow sets its flag; an administrator moves an open escrow's lock later by what is
      asked; the collector takes no more than has accrued. */
  lemma SmallCallsExact(st: State, who: Address, id: nat, flag: bool, secs: nat, amount: int)
    ensures var open := id < |st.escrows| && st.escrows[id].status != Released && st.escrows[id].status != Refunded;
      && (DoSync(st, who, id, flag).Done? <==> open && who == st.escrows[id].verifier)
      && (DoSync(st, who, id, flag).Done? ==>
            DoSync(st, who, id, flag).st == st.(escrows := st.escrows[id := st.escrows[id].(verified := flag)]))
      && (DoExtend(st, id, secs).Done? <==> open && secs > 0)
      && (DoExtend(st, id, secs).Done? ==>
            DoExtend(st, id, secs).st
            == st.(escrows := st.escrows[id := st.escrows[id].(lockUntil := st.escrows[id].lockUntil + secs)]))
    ensures DoCollect(st, who, amount).Done? <==> who == st.feeCollector && 0 < amount <= st.accrued
    ensures DoCollect(st, who, amount).Done? ==>
      DoCollect(st, who, amount).st.accrued == st.accrued - amount
      && DoCollect(st, who, amount).st.escrows == st.escrows
  {}

  /** Settings: a lock period is positive, a fee at most a fifth, and a threshold within the number of approvers. */
  lemma SettingsExact(st: State, bridge: Name, asset: Name, secs: nat, who: Address, bps: nat,
                      approvers: seq<Address>, threshold: nat, on: bool)
    ensures Call(st, SetLockPeriod(bridge, asset, secs)).Done? <==> secs > 0
    ensures secs > 0 ==> Call(st, SetLockPeriod(bridge, asset, secs)).st
                         == st.(lockPeriods := st.lockPeriods[(bridge, asset) := secs])
    ensures Call(st, SetFeeConfig(who, bps)).Done? <==> bps <= 2_000
    ensures bps <= 2_000 ==> Call(st, SetFeeConfig(who, bps)).st == st.(feeCollector := who, feeBps := bps)
    ensures Call(st, SetApprovers(approvers, threshold)).Done? <==> 1 <= threshold <= |approvers|
    ensures 1 <= threshold <= |approvers| ==>
      Call(st, SetApprovers(approvers, threshold)).st == st.(approvers := approvers, threshold := threshold)
    ensures Call(st, SetEmergencyPause(on)) == Done(st.(paused := on))
    ensures Call(st, SetBreaker(on)) == Done(st.(tripped := on))
  {}

  /** Recovery needs the pause and takes no more than was deposited and not yet released, fee included; it counts as
      released, and closes the escrow once all but the fee is gone. */
  lemma RecoveryExact(st: State, id: nat, amount: int)
    ensures DoRecover(st, id, amount).Done?
            <==> st.paused && id < |st.escrows| && 0 < amount <= st.escrows[id].amount - st.escrows[id].releasedAmount
    ensures DoRecover(st, id, amount).Done? ==>
      var st' := DoRecover(st, id, amount).st; var e := st.escrows[id];
      && Recovered(st', id) == Recovered(st, id) + amount
      && st'.escrows == st.escrows[id := e.(
           releasedAmount := e.releasedAmount + amount,
           status := if e.releasedAmount + amount >= e.amount - e.feeTotal then Released else e.status)]
      && st'.accrued == st.accrued && st'.disputes == st.disputes
  {}
}
