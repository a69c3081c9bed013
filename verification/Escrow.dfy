/** Time-locked escrows: the storage as a value and what every entrypoint does to it. */
module Escrow {
  import opened Sums

  type Address = nat
  type Name = string

  const DEFAULT_LOCK_SECS := 3_600
  const MAX_METADATA_LEN := 512
  const BPS_DENOMINATOR := 10_000
  const MAX_FEE_BPS := 2_000

  datatype Status = Pending | Challenged | Released | Refunded

  datatype Deposit = Deposit(
    depositor: Address, recipient: Address, amount: int, feeTotal: int, releasedAmount: int,
    lockUntil: nat, status: Status, verifier: Address, verified: bool)

  datatype Dispute = Dispute(decisionRelease: bool, approvals: seq<Address>, required: nat, resolved: bool)

  /** History the contract does not store: what left each escrow, and what fees were collected. */
  datatype Audit = Audit(paid: map<nat, int>, refunded: map<nat, int>, recovered: map<nat, int>, collected: int)

  datatype State = State(
    admin: Address, feeCollector: Address, feeBps: nat, approvers: seq<Address>, threshold: nat,
    paused: bool, tripped: bool, lockPeriods: map<(Name, Name), nat>,
    escrows: seq<Deposit>, challenges: set<nat>, disputes: map<nat, Dispute>, accrued: int, audit: Audit)

  datatype Error =
    | NotAuthorized | InvalidAmount | InvalidLockConfig | EscrowNotFound | LockNotElapsed | AlreadyChallenged
    | NoChallenge | ChallengeWindowClosed | InvalidEscrowState | VerificationPending | VerificationFailed
    | AlreadyApproved | InvalidDisputeDecision | MetadataTooLarge | EmergencyNotEnabled | FeeConfigInvalid
    | NothingToRelease | NothingToRefund | CircuitBreakerTripped

  datatype Outcome = Done(st: State) | Err(error: Error)

  predicate ValidApprovers(approvers: seq<Address>, threshold: nat) {
    approvers != [] && threshold != 0 && threshold <= |approvers|
  }

  function Init(admin: Address, collector: Address, feeBps: nat, approvers: seq<Address>, threshold: nat): State {
    State(admin, collector, feeBps, approvers, threshold, false, false, map[], [], {}, map[], 0,
          Audit(map[], map[], map[], 0))
  }

  // ---- Creation and verification ----------------------------------------------------------------------------------

  function DoCreate(st: State, depositor: Address, recipient: Address, bridge: Name, asset: Name, amount: int,
                    metadata: string, verifier: Address, now: nat): Outcome {
    if st.paused then Err(EmergencyNotEnabled)
    else if amount <= 0 then Err(InvalidAmount)
    else if |metadata| > MAX_METADATA_LEN then Err(MetadataTooLarge)
    else
      var fee := amount * st.feeBps / BPS_DENOMINATOR;
      var lock := if (bridge, asset) in st.lockPeriods then st.lockPeriods[(bridge, asset)] else DEFAULT_LOCK_SECS;
      Done(st.(accrued := st.accrued + fee,
               escrows := st.escrows + [
                 Deposit(depositor, recipient, amount, fee, 0, now + lock, Pending, verifier, false)]))
  }

  predicate Closed(e: Deposit) { e.status == Released || e.status == Refunded }

  function DoSync(st: State, verifier: Address, id: nat, verified: bool): Outcome {
    if id >= |st.escrows| then Err(EscrowNotFound)
    else if verifier != st.escrows[id].verifier then Err(NotAuthorized)
    else if Closed(st.escrows[id]) then Err(InvalidEscrowState)
    else Done(st.(escrows := st.escrows[id := st.escrows[id].(verified := verified)]))
  }

  // ---- Challenges -------------------------------------------------------------------------------------------------

  function DoChallenge(st: State, id: nat, now: nat): Outcome {
    if st.paused then Err(EmergencyNotEnabled)
    else if id >= |st.escrows| then Err(EscrowNotFound)
    else if st.escrows[id].status != Pending then Err(InvalidEscrowState)
    else if now >= st.escrows[id].lockUntil then Err(ChallengeWindowClosed)
    else if id in st.challenges then Err(AlreadyChallenged)
    else Done(st.(escrows := st.escrows[id := st.escrows[id].(status := Challenged)],
                  challenges := st.challenges + {id}))
  }

  function OpenDispute(st: State, id: nat, release: bool): Dispute {
    if id in st.disputes then st.disputes[id] else Dispute(release, [], st.threshold, false)
  }

  function DoResolve(st: State, approver: Address, id: nat, release: bool): Outcome {
    if st.paused then Err(EmergencyNotEnabled)
    else if approver !in st.approvers then Err(NotAuthorized)
    else if id >= |st.escrows| then Err(EscrowNotFound)
    else if st.escrows[id].status != Challenged then Err(NoChallenge)
    else
      var d := OpenDispute(st, id, release);
      if d.resolved then Done(st)
      else if d.decisionRelease != release then Err(InvalidDisputeDecision)
      else if approver in d.approvals then Err(AlreadyApproved)
      else
        var signed := d.(approvals := d.approvals + [approver],
                         resolved := |d.approvals| + 1 >= d.required);
        var e := st.escrows[id];
        Done(st.(disputes := st.disputes[id := signed],
                 escrows := st.escrows[id := if signed.resolved && release then e.(status := Pending) else e]))
  }

  // ---- Release and refund -----------------------------------------------------------------------------------------

  function Releasable(e: Deposit): int { e.amount - e.feeTotal }

  function DoRelease(st: State, caller: Address, id: nat, amount: int, now: nat): Outcome {
    if st.paused then Err(EmergencyNotEnabled)
    else if st.tripped then Err(CircuitBreakerTripped)
    else if id >= |st.escrows| then Err(EscrowNotFound)
    else
      var e := st.escrows[id];
      if caller != e.recipient && caller != st.admin then Err(NotAuthorized)
      else if Closed(e) then Err(InvalidEscrowState)
      else if e.status == Challenged then Err(NoChallenge)
      else if !e.verified then Err(VerificationPending)
      else if now < e.lockUntil then Err(LockNotElapsed)
      else if amount <= 0 then Err(InvalidAmount)
      else if Releasable(e) - e.releasedAmount <= 0 then Err(NothingToRelease)
      else if amount > Releasable(e) - e.releasedAmount then Err(InvalidAmount)
      else
        var total := e.releasedAmount + amount;
        Done(st.(escrows := st.escrows[id := e.(releasedAmount := total,
                   status := if total >= Releasable(e) then Released else e.status)],
                 audit := st.audit.(paid := st.audit.paid[id := Get(st.audit.paid, id) + amount])))
  }

  function ReleaseEach(st: State, caller: Address, ids: seq<nat>, amount: int, now: nat): Outcome {
    if ids == [] then Done(st)
    else match ReleaseEach(st, caller, ids[..|ids| - 1], amount, now)
      case Err(error) => Err(error)
      case Done(mid) => DoRelease(mid, caller, ids[|ids| - 1], amount, now)
  }

  function DoBatchRelease(st: State, caller: Address, ids: seq<nat>, amount: int, now: nat): Outcome {
    if st.paused then Err(EmergencyNotEnabled)
    else if st.tripped then Err(CircuitBreakerTripped)
    else ReleaseEach(st, caller, ids, amount, now)
  }

  function DoRefund(st: State, caller: Address, id: nat): Outcome {
    if st.paused then Err(EmergencyNotEnabled)
    else if st.tripped then Err(CircuitBreakerTripped)
    else if id >= |st.escrows| then Err(EscrowNotFound)
    else
      var e := st.escrows[id];
      var refund := e.amount - e.releasedAmount - e.feeTotal;
      if caller != e.depositor && caller != st.admin then Err(NotAuthorized)
      else if Closed(e) then Err(InvalidEscrowState)
      else if e.status == Challenged && id !in st.disputes then Err(NoChallenge)
      else if e.status == Challenged && (!st.disputes[id].resolved || st.disputes[id].decisionRelease)
        then Err(InvalidEscrowState)
      else if e.status != Challenged && e.verified then Err(VerificationFailed)
      else if refund <= 0 then Err(NothingToRefund)
      else Done(st.(escrows := st.escrows[id := e.(status := Refunded)],
                    audit := st.audit.(refunded := st.audit.refunded[id := Get(st.audit.refunded, id) + refund])))
  }

  function DoExtend(st: State, id: nat, secs: nat): Outcome {
    if secs == 0 then Err(InvalidLockConfig)
    else if id >= |st.escrows| then Err(EscrowNotFound)
    else if Closed(st.escrows[id]) then Err(InvalidEscrowState)
    else Done(st.(escrows := st.escrows[id := st.escrows[id].(lockUntil := st.escrows[id].lockUntil + secs)]))
  }

  function DoRecover(st: State, id: nat, amount: int): Outcome {
    if !st.paused then Err(EmergencyNotEnabled)
    else if id >= |st.escrows| then Err(EscrowNotFound)
    else
      var e := st.escrows[id];
      if amount <= 0 || amount > e.amount - e.releasedAmount then Err(InvalidAmount)
      else
        var total := e.releasedAmount + amount;
        Done(st.(escrows := st.escrows[id := e.(releasedAmount := total,
                   status := if total >= Releasable(e) then Released else e.status)],
                 audit := st.audit.(recovered := st.audit.recovered[id := Get(st.audit.recovered, id) + amount])))
  }

  function DoCollect(st: State, collector: Address, amount: int): Outcome {
    if collector != st.feeCollector then Err(NotAuthorized)
    else if amount <= 0 || amount > st.accrued then Err(InvalidAmount)
    else Done(st.(accrued := st.accrued - amount,
                  audit := st.audit.(collected := st.audit.collected + amount)))
  }

  // ---- Every call -------------------------------------------------------------------------------------------------

  datatype Op =
    | SetLockPeriod(bridge: Name, asset: Name, secs: nat)
    | SetFeeConfig(collector: Address, feeBps: nat)
    | SetApprovers(approvers: seq<Address>, threshold: nat)
    | SetEmergencyPause(paused: bool)
    | SetBreaker(tripped: bool)
    | Create(depositor: Address, recipient: Address, bridge: Name, asset: Name, amount: int,
             metadata: string, verifier: Address, now: nat)
    | SyncVerification(verifier: Address, id: nat, verified: bool)
    | Challenge(id: nat, now: nat)
    | Resolve(approver: Address, id: nat, release: bool)
    | Release(caller: Address, id: nat, amount: int, now: nat)
    | BatchRelease(caller: Address, ids: seq<nat>, amount: int, now: nat)
    | Refund(caller: Address, id: nat)
    | ExtendLock(id: nat, secs: nat)
    | EmergencyRecover(id: nat, amount: int)
    | CollectFees(collector: Address, amount: int)

  function Call(st: State, op: Op): Outcome {
    match op
    case SetLockPeriod(bridge, asset, secs) =>
      if secs == 0 then Err(InvalidLockConfig) else Done(st.(lockPeriods := st.lockPeriods[(bridge, asset) := secs]))
    case SetFeeConfig(collector, feeBps) =>
      if feeBps > MAX_FEE_BPS then Err(FeeConfigInvalid) else Done(st.(feeCollector := collector, feeBps := feeBps))
    case SetApprovers(approvers, threshold) =>
      if ValidApprovers(approvers, threshold) then Done(st.(approvers := approvers, threshold := threshold))
      else Err(InvalidDisputeDecision)
    case SetEmergencyPause(paused) => Done(st.(paused := paused))
    case SetBreaker(tripped) => Done(st.(tripped := tripped))
    case Create(depositor, recipient, bridge, asset, amount, metadata, verifier, now) =>
      DoCreate(st, depositor, recipient, bridge, asset, amount, metadata, verifier, now)
    case SyncVerification(verifier, id, verified) => DoSync(st, verifier, id, verified)
    case Challenge(id, now) => DoChallenge(st, id, now)
    case Resolve(approver, id, release) => DoResolve(st, approver, id, release)
    case Release(caller, id, amount, now) => DoRelease(st, caller, id, amount, now)
    case BatchRelease(caller, ids, amount, now) => DoBatchRelease(st, caller, ids, amount, now)
    case Refund(caller, id) => DoRefund(st, caller, id)
    case ExtendLock(id, secs) => DoExtend(st, id, secs)
    case EmergencyRecover(id, amount) => DoRecover(st, id, amount)
    case CollectFees(collector, amount) => DoCollect(st, collector, amount)
  }

  function Settle(st: State, o: Outcome): State {
    match o case Done(st') => st' case Err(_) => st
  }

  function Run(st: State, ops: seq<Op>): State {
    if ops == [] then st
    else var mid := Run(st, ops[..|ops| - 1]);
         Settle(mid, Call(mid, ops[|ops| - 1]))
  }
}
