/** The escrow contract as it runs, proved equal to its specification in Escrow. */
module EscrowContract {
  import opened Sums
  import opened Escrow

  datatype Result = Ok | Failed(error: Error)

  class Contract {
    var admin: Address
    var feeCollector: Address
    var feeBps: nat
    var approvers: seq<Address>
    var threshold: nat
    var paused: bool
    var tripped: bool
    var lockPeriods: map<(Name, Name), nat>
    var escrows: seq<Deposit>
    var challenges: set<nat>
    var disputes: map<nat, Dispute>
    var accrued: int
    ghost var audit: Audit

    ghost function St(): State
      reads this
    {
      State(admin, feeCollector, feeBps, approvers, threshold, paused, tripped, lockPeriods, escrows, challenges,
            disputes, accrued, audit)
    }

    /** The storage and the answer after a call; an error leaves storage as it was. */
    ghost predicate Ended(before: State, o: Outcome, r: Result)
      reads this
    {
      match o
      case Done(st) => St() == st && r == Ok
      case Err(error) => St() == before && r == Failed(error)
    }

    constructor (admin: Address, collector: Address, feeBps: nat, approvers: seq<Address>, threshold: nat)
      requires feeBps <= MAX_FEE_BPS && ValidApprovers(approvers, threshold)
      ensures St() == Init(admin, collector, feeBps, approvers, threshold)
    {
      this.admin, feeCollector, this.feeBps := admin, collector, feeBps;
      this.approvers, this.threshold, paused, tripped := approvers, threshold, false, false;
      lockPeriods, escrows, challenges, disputes, accrued := map[], [], {}, map[], 0;
      audit := Audit(map[], map[], map[], 0);
    }

    /** The configuration calls: check the argument, replace one setting. */
    method Configure(op: Op) returns (r: Result)
      requires op.SetLockPeriod? || op.SetFeeConfig? || op.SetApprovers? || op.SetEmergencyPause? || op.SetBreaker?
      modifies this
      ensures Ended(old(St()), Call(old(St()), op), r)
    {
      match op {
        case SetLockPeriod(bridge, asset, secs) =>
          if secs == 0 { return Failed(InvalidLockConfig); }
          lockPeriods := lockPeriods[(bridge, asset) := secs];
        case SetFeeConfig(collector, bps) =>
          if bps > MAX_FEE_BPS { return Failed(FeeConfigInvalid); }
          feeCollector, feeBps := collector, bps;
        case SetApprovers(list, needed) =>
          if list == [] || needed == 0 || needed > |list| { return Failed(InvalidDisputeDecision); }
          approvers, threshold := list, needed;
        case SetEmergencyPause(p) => paused := p;
        case SetBreaker(t) => tripped := t;
      }
      r := Ok;
    }

    method CreateEscrow(depositor: Address, recipient: Address, bridge: Name, asset: Name, amount: int,
                        metadata: string, verifier: Address, now: nat)
      returns (r: Result, id: nat)
      modifies this
      ensures Ended(old(St()),
                    Call(old(St()), Create(depositor, recipient, bridge, asset, amount, metadata, verifier, now)), r)
      ensures r.Ok? ==> id == |old(escrows)| && escrows[..id] == old(escrows)
    {
      id := |escrows|;
      if paused { return Failed(EmergencyNotEnabled), id; }
      if amount <= 0 { return Failed(InvalidAmount), id; }
      if |metadata| > MAX_METADATA_LEN { return Failed(MetadataTooLarge), id; }
      var fee := amount * feeBps / BPS_DENOMINATOR;
      var lock := DEFAULT_LOCK_SECS;
      if (bridge, asset) in lockPeriods { lock := lockPeriods[(bridge, asset)]; }
      accrued := accrued + fee;
      escrows := escrows + [Deposit(depositor, recipient, amount, fee, 0, now + lock, Pending, verifier, false)];
      r := Ok;
    }

    method SyncVerification(verifier: Address, id: nat, verified: bool) returns (r: Result)
      modifies this
      ensures Ended(old(St()), Call(old(St()), Op.SyncVerification(verifier, id, verified)), r)
    {
      if id >= |escrows| { return Failed(EscrowNotFound); }
      var e := escrows[id];
      if verifier != e.verifier { return Failed(NotAuthorized); }
      if e.status == Released || e.status == Refunded { return Failed(InvalidEscrowState); }
      e := e.(verified := verified);
      escrows := escrows[id := e];
      r := Ok;
    }

    method ChallengeEscrow(id: nat, now: nat) returns (r: Result)
      modifies this
      ensures Ended(old(St()), Call(old(St()), Challenge(id, now)), r)
    {
      if paused { return Failed(EmergencyNotEnabled); }
      if id >= |escrows| { return Failed(EscrowNotFound); }
      var e := escrows[id];
      if e.status != Pending { return Failed(InvalidEscrowState); }
      if now >= e.lockUntil { return Failed(ChallengeWindowClosed); }
      if id in challenges { return Failed(AlreadyChallenged); }
      e := e.(status := Challenged);
      escrows := escrows[id := e];
      challenges := challenges + {id};
      r := Ok;
    }

    /** Linear search of an address list. */
    static method ContainsAddr(list: seq<Address>, who: Address) returns (found: bool)
      ensures found <==> who in list
    {
      for i := 0 to |list|
        invariant who !in list[..i]
      {
        if list[i] == who { return true; }
      }
      found := false;
    }

    method ResolveChallenge(approver: Address, id: nat, release: bool) returns (r: Result)
      modifies this
      ensures Ended(old(St()), Call(old(St()), Resolve(approver, id, release)), r)
    {
      if paused { return Failed(EmergencyNotEnabled); }
      var allowed := ContainsAddr(approvers, approver);
      if !allowed { return Failed(NotAuthorized); }
      if id >= |escrows| { return Failed(EscrowNotFound); }
      var e := escrows[id];
      if e.status != Challenged { return Failed(NoChallenge); }
      var dispute := Dispute(release, [], threshold, false);
      if id in disputes { dispute := disputes[id]; }
      if dispute.resolved { return Ok; }
      if dispute.decisionRelease != release { return Failed(InvalidDisputeDecision); }
      var again := ContainsAddr(dispute.approvals, approver);
      if again { return Failed(AlreadyApproved); }
      dispute := dispute.(approvals := dispute.approvals + [approver]);
      if |dispute.approvals| >= dispute.required {
        dispute := dispute.(resolved := true);
        if dispute.decisionRelease { e := e.(status := Pending); }
      }
      disputes := disputes[id := dispute];
      escrows := escrows[id := e];
      r := Ok;
    }

    method ReleaseEscrow(caller: Address, id: nat, amount: int, now: nat) returns (r: Result)
      modifies this`escrows, this`audit
      ensures Ended(old(St()), Call(old(St()), Release(caller, id, amount, now)), r)
    {
      if paused { return Failed(EmergencyNotEnabled); }
      if tripped { return Failed(CircuitBreakerTripped); }
      if id >= |escrows| { return Failed(EscrowNotFound); }
      var e := escrows[id];
      if caller != e.recipient && caller != admin { return Failed(NotAuthorized); }
      if e.status == Refunded || e.status == Released { return Failed(InvalidEscrowState); }
      if e.status == Challenged { return Failed(NoChallenge); }
      if !e.verified { return Failed(VerificationPending); }
      if now < e.lockUntil { return Failed(LockNotElapsed); }
      if amount <= 0 { return Failed(InvalidAmount); }
      var releasable := e.amount - e.feeTotal;
      var remaining := releasable - e.releasedAmount;
      if remaining <= 0 { return Failed(NothingToRelease); }
      if amount > remaining { return Failed(InvalidAmount); }
      e := e.(releasedAmount := e.releasedAmount + amount);
      if e.releasedAmount >= releasable { e := e.(status := Released); }
      escrows := escrows[id := e];
      audit := audit.(paid := audit.paid[id := Get(audit.paid, id) + amount]);
      r := Ok;
    }

    /** Releases the same amount from each escrow in turn; the first error undoes all of them. */
    method BatchRelease(caller: Address, ids: seq<nat>, amount: int, now: nat) returns (r: Result, released: seq<int>)
      modifies this
      ensures Ended(old(St()), Call(old(St()), Op.BatchRelease(caller, ids, amount, now)), r)
      ensures r.Ok? ==> |released| == |ids| && forall x :: x in released ==> x == amount
    {
      hide DoRelease;
      released := [];
      if paused { return Failed(EmergencyNotEnabled), []; }
      if tripped { return Failed(CircuitBreakerTripped), []; }
      var escrows0 := escrows;
      ghost var audit0 := audit;
      for i := 0 to |ids|
        invariant ReleaseEach(old(St()), caller, ids[..i], amount, now) == Done(St())
        invariant St() == old(St()).(escrows := escrows, audit := audit)
        invariant |released| == i && forall x :: x in released ==> x == amount
      {
        assert ids[..i + 1][..i] == ids[..i];
        r := ReleaseEscrow(caller, ids[i], amount, now);
        if r.Failed? {
          EachFails(old(St()), caller, ids, i + 1, amount, now, r.error);
          escrows, audit := escrows0, audit0;
          return;
        }
        released := released + [amount];
      }
      assert ids[..|ids|] == ids;
      r := Ok;
    }

    static lemma EachFails(st: State, caller: Address, ids: seq<nat>, n: nat, amount: int, now: nat, error: Error)
      requires n <= |ids| && ReleaseEach(st, caller, ids[..n], amount, now) == Err(error)
      ensures ReleaseEach(st, caller, ids, amount, now) == Err(error)
      decreases |ids| - n
    {
      if n < |ids| {
        assert ids[..n + 1][..n] == ids[..n];
        EachFails(st, caller, ids, n + 1, amount, now, error);
      } else {
        assert ids[..n] == ids;
      }
    }

    method RefundEscrow(caller: Address, id: nat) returns (r: Result)
      modifies this
      ensures Ended(old(St()), Call(old(St()), Refund(caller, id)), r)
    {
      if paused { return Failed(EmergencyNotEnabled); }
      if tripped { return Failed(CircuitBreakerTripped); }
      if id >= |escrows| { return Failed(EscrowNotFound); }
      var e := escrows[id];
      if caller != e.depositor && caller != admin { return Failed(NotAuthorized); }
      if e.status == Released || e.status == Refunded { return Failed(InvalidEscrowState); }
      if e.status == Challenged {
        if id !in disputes { return Failed(NoChallenge); }
        var dispute := disputes[id];
        if !dispute.resolved || dispute.decisionRelease { return Failed(InvalidEscrowState); }
      } else if e.verified {
        return Failed(VerificationFailed);
      }
      var refund := e.amount - e.releasedAmount - e.feeTotal;
      if refund <= 0 { return Failed(NothingToRefund); }
      e := e.(status := Refunded);
      escrows := escrows[id := e];
      audit := audit.(refunded := audit.refunded[id := Get(audit.refunded, id) + refund]);
      r := Ok;
    }

    method ExtendLock(id: nat, secs: nat) returns (r: Result)
      modifies this
      ensures Ended(old(St()), Call(old(St()), Op.ExtendLock(id, secs)), r)
    {
      if secs == 0 { return Failed(InvalidLockConfig); }
      if id >= |escrows| { return Failed(EscrowNotFound); }
      var e := escrows[id];
      if e.status == Released || e.status == Refunded { return Failed(InvalidEscrowState); }
      e := e.(lockUntil := e.lockUntil + secs);
      escrows := escrows[id := e];
      r := Ok;
    }

    method EmergencyRecover(id: nat, amount: int) returns (r: Result)
      modifies this
      ensures Ended(old(St()), Call(old(St()), Op.EmergencyRecover(id, amount)), r)
    {
      if !paused { return Failed(EmergencyNotEnabled); }
      if id >= |escrows| { return Failed(EscrowNotFound); }
      var e := escrows[id];
      if amount <= 0 || amount > e.amount - e.releasedAmount { return Failed(InvalidAmount); }
      e := e.(releasedAmount := e.releasedAmount + amount);
      if e.releasedAmount >= e.amount - e.feeTotal { e := e.(status := Released); }
      escrows := escrows[id := e];
      audit := audit.(recovered := audit.recovered[id := Get(audit.recovered, id) + amount]);
      r := Ok;
    }

    method CollectFees(collector: Address, amount: int) returns (r: Result)
      modifies this
      ensures Ended(old(St()), Call(old(St()), Op.CollectFees(collector, amount)), r)
    {
      if collector != feeCollector { return Failed(NotAuthorized); }
      if amount <= 0 { return Failed(InvalidAmount); }
      if amount > accrued { return Failed(InvalidAmount); }
      var remaining := accrued - amount;
      accrued := remaining;
      audit := audit.(collected := audit.collected + amount);
      r := Ok;
    }
  }
}
