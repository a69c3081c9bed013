/** What every history of the escrow contract conserves, and when recipients can be paid. */
module EscrowConservation {
  import opened Sums
  import opened Quotients
  import opened Escrow

  // ---- One escrow -------------------------------------------------------------------------------------------------

  function Paid(st: State, id: nat): int { Get(st.audit.paid, id) }
  function RefundPaid(st: State, id: nat): int { Get(st.audit.refunded, id) }
  function Recovered(st: State, id: nat): int { Get(st.audit.recovered, id) }

  /** What left an escrow matches its record: releases and recoveries are its released amount, less than everything but
      the fee while it is open; a refund closes it with at least that much gone. */
  ghost predicate EscrowOk(st: State, id: nat) requires id < |st.escrows| {
    var e := st.escrows[id];
    && 0 <= e.feeTotal < e.amount
    && Paid(st, id) >= 0 && Recovered(st, id) >= 0 && RefundPaid(st, id) >= 0
    && Paid(st, id) + Recovered(st, id) == e.releasedAmount
    && match e.status
       case Pending => e.releasedAmount < Releasable(e) && RefundPaid(st, id) == 0
       case Challenged => e.releasedAmount < Releasable(e) && RefundPaid(st, id) == 0
       case Released => e.releasedAmount >= Releasable(e)
       case Refunded => RefundPaid(st, id) > 0 && e.releasedAmount + RefundPaid(st, id) >= Releasable(e)
  }

  ghost predicate NothingYet(st: State, id: nat) {
    Paid(st, id) == RefundPaid(st, id) == Recovered(st, id) == 0 && id !in st.challenges && id !in st.disputes
  }

  /** A dispute has distinct approvers, and is resolved exactly when there are as many as it required. */
  ghost predicate DisputeOk(st: State, id: nat) {
    && (id in st.disputes ==>
         var d := st.disputes[id];
         && id in st.challenges
         && (forall i, j :: 0 <= i < j < |d.approvals| ==> d.approvals[i] != d.approvals[j])
         && 1 <= |d.approvals| <= d.required
         && (d.resolved <==> |d.approvals| == d.required)
         && (id < |st.escrows| && !d.resolved ==> st.escrows[id].status in {Challenged, Released})
         && (id < |st.escrows| && d.resolved && d.decisionRelease ==> st.escrows[id].status != Challenged)
         && (id < |st.escrows| && d.resolved && !d.decisionRelease ==> st.escrows[id].status != Pending))
    && (id < |st.escrows| && st.escrows[id].status == Challenged ==> id in st.challenges)
  }

  ghost predicate OneOk(st: State, id: nat) {
    (if id < |st.escrows| then EscrowOk(st, id) else NothingYet(st, id)) && DisputeOk(st, id)
  }

  ghost function Fees(es: seq<Deposit>): seq<int> {
    seq(|es|, i requires 0 <= i < |es| => es[i].feeTotal)
  }

  ghost predicate Inv(st: State) {
    && st.feeBps <= MAX_FEE_BPS && ValidApprovers(st.approvers, st.threshold)
    && (forall id: nat :: OneOk(st, id))
    && st.accrued >= 0 && st.audit.collected >= 0
    && st.accrued + st.audit.collected == SumSeq(Fees(st.escrows))
  }

  lemma FeePut(es: seq<Deposit>, id: nat, e: Deposit)
    requires id < |es| && e.feeTotal == es[id].feeTotal
    ensures Fees(es[id := e]) == Fees(es)
  {}

  /** A call that replaces one escrow, keeping its fee, only has to look after that one. */
  lemma OneChanged(st: State, st': State, id: nat)
    requires Inv(st) && id < |st.escrows| == |st'.escrows|
    requires st'.escrows == st.escrows[id := st'.escrows[id]] && st'.escrows[id].feeTotal == st.escrows[id].feeTotal
    requires st'.feeBps == st.feeBps && st'.approvers == st.approvers && st'.threshold == st.threshold
    requires st'.accrued == st.accrued && st'.audit.collected == st.audit.collected
    requires forall k: nat :: k != id ==>
      && Paid(st', k) == Paid(st, k) && RefundPaid(st', k) == RefundPaid(st, k) && Recovered(st', k) == Recovered(st, k)
      && (k in st'.challenges <==> k in st.challenges) && (k in st'.disputes <==> k in st.disputes)
      && (k in st.disputes ==> st'.disputes[k] == st.disputes[k])
    requires OneOk(st', id)
    ensures Inv(st')
  {
    FeePut(st.escrows, id, st'.escrows[id]);
    hide ValidApprovers, SumSeq;
    forall k: nat ensures OneOk(st', k) {
      assert OneOk(st, k);
    }
  }

  lemma CreateInv(st: State, depositor: Address, recipient: Address, bridge: Name, asset: Name, amount: int,
                  metadata: string, verifier: Address, now: nat)
    requires Inv(st) && DoCreate(st, depositor, recipient, bridge, asset, amount, metadata, verifier, now).Done?
    ensures Inv(DoCreate(st, depositor, recipient, bridge, asset, amount, metadata, verifier, now).st)
  {
    var st' := DoCreate(st, depositor, recipient, bridge, asset, amount, metadata, verifier, now).st;
    var fee := amount * st.feeBps / BPS_DENOMINATOR;
    FeeBounds(amount, st.feeBps);
    assert Fees(st'.escrows) == Fees(st.escrows) + [fee];
    SumSeqAppend(Fees(st.escrows), fee);
    forall k: nat ensures OneOk(st', k) {
      assert OneOk(st, k);
    }
  }

  lemma FeeBounds(amount: int, bps: nat)
    requires amount > 0 && bps <= MAX_FEE_BPS
    ensures 0 <= amount * bps / BPS_DENOMINATOR < amount
  {
    ProductMonotone(bps, MAX_FEE_BPS, amount);
    ProductMonotone(0, bps, amount);
  }

  lemma ReleaseInv(st: State, caller: Address, id: nat, amount: int, now: nat)
    requires Inv(st) && DoRelease(st, caller, id, amount, now).Done?
    ensures Inv(DoRelease(st, caller, id, amount, now).st)
  {
    assert OneOk(st, id);
    OneChanged(st, DoRelease(st, caller, id, amount, now).st, id);
  }

  lemma {:induction false} ReleaseEachInv(st: State, caller: Address, ids: seq<nat>, amount: int, now: nat)
    requires Inv(st) && ReleaseEach(st, caller, ids, amount, now).Done?
    ensures Inv(ReleaseEach(st, caller, ids, amount, now).st)
  {
    hide Inv, DoRelease;
    if ids == [] {
    } else {
      ReleaseEachInv(st, caller, ids[..|ids| - 1], amount, now);
      ReleaseInv(ReleaseEach(st, caller, ids[..|ids| - 1], amount, now).st, caller, ids[|ids| - 1], amount, now);
    }
  }

  lemma RefundInv(st: State, caller: Address, id: nat)
    requires Inv(st) && DoRefund(st, caller, id).Done?
    ensures Inv(DoRefund(st, caller, id).st)
  {
    assert OneOk(st, id);
    OneChanged(st, DoRefund(st, caller, id).st, id);
  }

  lemma ResolveInv(st: State, approver: Address, id: nat, release: bool)
    requires Inv(st) && DoResolve(st, approver, id, release).Done?
    ensures Inv(DoResolve(st, approver, id, release).st)
  {
    assert OneOk(st, id);
    OneChanged(st, DoResolve(st, approver, id, release).st, id);
  }

  lemma ChallengeInv(st: State, id: nat, now: nat)
    requires Inv(st) && DoChallenge(st, id, now).Done?
    ensures Inv(DoChallenge(st, id, now).st)
  {
    assert OneOk(st, id);
    OneChanged(st, DoChallenge(st, id, now).st, id);
  }

  lemma RecoverInv(st: State, id: nat, amount: int)
    requires Inv(st) && DoRecover(st, id, amount).Done?
    ensures Inv(DoRecover(st, id, amount).st)
  {
    assert OneOk(st, id);
    OneChanged(st, DoRecover(st, id, amount).st, id);
  }

  lemma SmallInv(st: State, op: Op)
    requires Inv(st) && Call(st, op).Done? && (op.SyncVerification? || op.ExtendLock?)
    ensures Inv(Call(st, op).st)
  {
    assert OneOk(st, op.id);
    OneChanged(st, Call(st, op).st, op.id);
  }

  lemma SettingsInv(st: State, op: Op)
    requires Inv(st) && Call(st, op).Done?
    requires op.SetLockPeriod? || op.SetFeeConfig? || op.SetApprovers? || op.SetEmergencyPause? || op.SetBreaker?
          || op.CollectFees?
    ensures Inv(Call(st, op).st)
  {
    var st' := Call(st, op).st;
    forall k: nat ensures OneOk(st', k) {
      assert OneOk(st, k);
    }
  }

  lemma CallInv(st: State, op: Op)
    requires Inv(st)
    ensures Inv(Settle(st, Call(st, op)))
  {
    hide Inv;
    if Call(st, op).Done? {
      match op
      case Create(depositor, recipient, bridge, asset, amount, metadata, verifier, now) =>
        CreateInv(st, depositor, recipient, bridge, asset, amount, metadata, verifier, now);
      case Challenge(id, now) => ChallengeInv(st, id, now);
      case Resolve(approver, id, release) => ResolveInv(st, approver, id, release);
      case Release(caller, id, amount, now) => ReleaseInv(st, caller, id, amount, now);
      case BatchRelease(caller, ids, amount, now) => ReleaseEachInv(st, caller, ids, amount, now);
      case Refund(caller, id) => RefundInv(st, caller, id);
      case EmergencyRecover(id, amount) => RecoverInv(st, id, amount);
      case SyncVerification(_, _, _) => SmallInv(st, op);
      case ExtendLock(_, _) => SmallInv(st, op);
      case _ => SettingsInv(st, op);
    }
  }

  /** Every history keeps every escrow's books, every dispute and the fee account. */
  lemma {:induction false} RunInv(start: State, ops: seq<Op>)
    requires Inv(start)
    ensures Inv(Run(start, ops))
  {
    hide Inv, Call;
    if ops == [] {
    } else {
      RunInv(start, ops[..|ops| - 1]);
      CallInv(Run(start, ops[..|ops| - 1]), ops[|ops| - 1]);
    }
  }

  // ---- The theorems -----------------------------------------------------------------------------------------------

  ghost function Out(st: State, id: nat): int { Paid(st, id) + RefundPaid(st, id) + Recovered(st, id) }

  ghost predicate Fresh(st: State) {
    exists admin, collector, bps: nat, approvers, threshold ::
      bps <= MAX_FEE_BPS && ValidApprovers(approvers, threshold)
      && st == Init(admin, collector, bps, approvers, threshold)
  }

  lemma FreshInv(st: State)
    requires Fresh(st)
    ensures Inv(st)
  {
    assert Fees([]) == [];
    forall id: nat ensures OneOk(st, id) {}
  }

  /** A recovery that leaves the bound alone: of an escrow not refunded, and not of its fee. */
  predicate Careful(st: State, id: nat, amount: int) requires id < |st.escrows| {
    var e := st.escrows[id];
    e.status != Refunded && amount <= Releasable(e) - e.releasedAmount
  }

  /** No call of the run recovers from the escrow carelessly. */
  ghost predicate CarefulRun(start: State, ops: seq<Op>, id: nat) {
    forall i :: 0 <= i < |ops| && ops[i].EmergencyRecover? && ops[i].id == id
                && Call(Run(start, ops[..i]), ops[i]).Done? ==>
      Careful(Run(start, ops[..i]), id, ops[i].amount)
  }

  /** A recovery keeps the bound exactly when the bound held and the recovery is careful. */
  lemma RecoveryKeepsBoundIff(st: State, id: nat, amount: int)
    requires Inv(st) && DoRecover(st, id, amount).Done?
    ensures Out(DoRecover(st, id, amount).st, id) <= Releasable(st.escrows[id])
            <==> Out(st, id) <= Releasable(st.escrows[id]) && Careful(st, id, amount)
  {
    assert OneOk(st, id);
  }

  /** Any other call keeps the bound, and no call brings it back. */
  lemma OthersKeepBound(st: State, op: Op, id: nat)
    requires Inv(st) && id < |st.escrows| && !(op.EmergencyRecover? && op.id == id && Call(st, op).Done?)
    ensures var st' := Settle(st, Call(st, op));
      && id < |st'.escrows| && Releasable(st'.escrows[id]) == Releasable(st.escrows[id])
      && (Out(st', id) <= Releasable(st.escrows[id]) <==> Out(st, id) <= Releasable(st.escrows[id]))
  {
    var st' := Settle(st, Call(st, op));
    CallInv(st, op);
    PaidOnlyWhenUnlocked(st, op, id);
    hide Inv, Call;
    assert OneOk(st, id) && OneOk(st', id) by { OneAt(st, id); OneAt(st', id); }
    OnlyThese(st, op, id);
    hide DisputeOk;
  }

  lemma OneAt(st: State, id: nat)
    requires Inv(st)
    ensures OneOk(st, id)
  {}

  /** What a call other than a recovery pays back. */
  lemma OnlyThese(st: State, op: Op, id: nat)
    requires id < |st.escrows| && !(op.EmergencyRecover? && op.id == id && Call(st, op).Done?)
    ensures var st' := Settle(st, Call(st, op));
      && Recovered(st', id) == Recovered(st, id)
      && (RefundPaid(st', id) != RefundPaid(st, id) ==>
            && !Closed(st.escrows[id]) && Paid(st', id) == Paid(st, id)
            && RefundPaid(st', id) - RefundPaid(st, id) == Releasable(st.escrows[id]) - st.escrows[id].releasedAmount)
  {
    hide ReleaseEach, ValidApprovers;
    if op.BatchRelease? && Call(st, op).Done? { BatchPays(st, op.caller, op.ids, op.amount, op.now, id); }
  }

  lemma {:induction false} BatchPays(st: State, caller: Address, ids: seq<nat>, amount: int, now: nat, id: nat)
    requires ReleaseEach(st, caller, ids, amount, now).Done?
    ensures var st' := ReleaseEach(st, caller, ids, amount, now).st;
      Recovered(st', id) == Recovered(st, id) && RefundPaid(st', id) == RefundPaid(st, id)
  {
    if ids == [] {
    } else {
      BatchPays(st, caller, ids[..|ids| - 1], amount, now, id);
    }
  }

  /** An escrow that is yet to come has no past. */
  lemma {:induction false} BoundIffCareful(start: State, ops: seq<Op>, id: nat)
    requires Inv(start) && id >= |start.escrows|
    ensures id < |Run(start, ops).escrows| ==>
      (Out(Run(start, ops), id) <= Releasable(Run(start, ops).escrows[id]) <==> CarefulRun(start, ops, id))
    ensures id >= |Run(start, ops).escrows| ==> CarefulRun(start, ops, id)
  {
    hide Inv, Call, Settle, OneOk, Careful;
    if ops == [] {
    } else {
      var init, op := ops[..|ops| - 1], ops[|ops| - 1];
      var st := Run(start, init);
      BoundIffCareful(start, init, id);
      RunInv(start, init);
      RunInv(start, ops);
      CarefulPrefix(start, ops, id);
      if id >= |st.escrows| {
        Newborn(st, op, id);
      } else if op.EmergencyRecover? && op.id == id && Call(st, op).Done? {
        RecoverIs(st, op);
        RecoveryKeepsBoundIff(st, id, op.amount);
      } else {
        OthersKeepBound(st, op, id);
      }
    }
  }

  lemma CarefulPrefix(start: State, ops: seq<Op>, id: nat)
    requires ops != []
    ensures var init, op := ops[..|ops| - 1], ops[|ops| - 1];
      CarefulRun(start, ops, id) <==>
        CarefulRun(start, init, id)
        && (op.EmergencyRecover? && op.id == id && Call(Run(start, init), op).Done? ==>
              Careful(Run(start, init), id, op.amount))
  {
    hide Run, Careful;
    var init := ops[..|ops| - 1];
    forall i | 0 <= i < |init| ensures init[..i] == ops[..i] {}
    assert ops[..|ops| - 1] == init;
  }

  lemma RecoverIs(st: State, op: Op)
    requires op.EmergencyRecover? && Call(st, op).Done?
    ensures Settle(st, Call(st, op)) == DoRecover(st, op.id, op.amount).st && DoRecover(st, op.id, op.amount).Done?
    ensures op.id < |st.escrows| == |Settle(st, Call(st, op)).escrows|
    ensures Releasable(Settle(st, Call(st, op)).escrows[op.id]) == Releasable(st.escrows[op.id])
  {}

  /** The call that creates an escrow pays nothing out of it. */
  lemma Newborn(st: State, op: Op, id: nat)
    requires Inv(st) && id >= |st.escrows|
    ensures var st' := Settle(st, Call(st, op));
      id < |st'.escrows| ==> Out(st', id) <= Releasable(st'.escrows[id])
    ensures op.EmergencyRecover? && op.id == id ==> Call(st, op).Err?
  {
    assert OneOk(st, id);
    if op.Create? && Call(st, op).Done? { NewFee(st, op); }
    if op.BatchRelease? && Call(st, op).Done? { SameLength(st, op.caller, op.ids, op.amount, op.now); }
    hide ReleaseEach, ValidApprovers;
  }

  lemma NewFee(st: State, op: Op)
    requires Inv(st) && op.Create? && Call(st, op).Done?
    ensures op.amount * st.feeBps / BPS_DENOMINATOR < op.amount
  {
    FeeBounds(op.amount, st.feeBps);
  }

  lemma {:induction false} SameLength(st: State, caller: Address, ids: seq<nat>, amount: int, now: nat)
    requires ReleaseEach(st, caller, ids, amount, now).Done?
    ensures |ReleaseEach(st, caller, ids, amount, now).st.escrows| == |st.escrows|
  {
    if ids == [] {
    } else {
      SameLength(st, caller, ids[..|ids| - 1], amount, now);
    }
  }

  /** On every history: what left an escrow reaches its amount less the fee exactly when it is released or refunded,
      and stays within it exactly when every emergency recovery of it was careful, so without recoveries always; fees
      accrued and collected are the sum of all fees; and a resolved dispute has exactly the required number of distinct
      approvers. */
  lemma EscrowConserved(start: State, ops: seq<Op>, id: nat)
    requires Fresh(start)
    requires id < |Run(start, ops).escrows|
    ensures var st := Run(start, ops); var e := st.escrows[id];
      && 0 <= Out(st, id)
      && (Closed(e) <==> Out(st, id) >= Releasable(e))
      && (Out(st, id) <= Releasable(e) <==> CarefulRun(start, ops, id))
      && ((forall op :: op in ops ==> !op.EmergencyRecover?) ==> CarefulRun(start, ops, id))
      && st.accrued + st.audit.collected == SumSeq(Fees(st.escrows)) && st.accrued >= 0
      && (id in st.disputes && st.disputes[id].resolved ==>
            var d := st.disputes[id];
            |d.approvals| == d.required
            && forall i, j :: 0 <= i < j < |d.approvals| ==> d.approvals[i] != d.approvals[j])
  {
    FreshInv(start);
    RunInv(start, ops);
    BoundIffCareful(start, ops, id);
    var st := Run(start, ops);
    hide Run, SumSeq, Fees, ValidApprovers;
    assert OneOk(st, id);
  }

  // ---- Locks and challenges ---------------------------------------------------------------------------------------

  /** The call releases to the recipient of id, alone or in a batch. */
  predicate Pays(op: Op, id: nat) {
    (op.Release? && op.id == id) || (op.BatchRelease? && id in op.ids)
  }

  /** What a release leaves of an escrow it may or may not touch. */
  ghost predicate Steps(a: State, b: State, id: nat, payable: bool) {
    && id < |a.escrows| <= |b.escrows|
    && var e, f := a.escrows[id], b.escrows[id];
       && f.depositor == e.depositor && f.recipient == e.recipient && f.amount == e.amount && f.feeTotal == e.feeTotal
       && e.lockUntil <= f.lockUntil && e.releasedAmount <= f.releasedAmount
       && (Closed(e) ==> f == e.(releasedAmount := f.releasedAmount, status := f.status))
       && Paid(b, id) >= Paid(a, id)
       && (Paid(b, id) > Paid(a, id) ==>
             payable && e.status == Pending && e.verified
             && Paid(b, id) - Paid(a, id) <= Releasable(e) - e.releasedAmount)
  }

  lemma ReleaseSteps(st: State, caller: Address, k: nat, amount: int, now: nat, id: nat)
    requires DoRelease(st, caller, k, amount, now).Done? && id < |st.escrows|
    ensures var st' := DoRelease(st, caller, k, amount, now).st;
      && Steps(st, st', id, k == id && now >= st.escrows[id].lockUntil)
      && st'.escrows[id].lockUntil == st.escrows[id].lockUntil && st'.escrows[id].verified == st.escrows[id].verified
      && |st'.escrows| == |st.escrows|
      && Paid(st', id) - Paid(st, id) == st'.escrows[id].releasedAmount - st.escrows[id].releasedAmount
      && (st'.escrows[id].status == Pending ==> st.escrows[id].status == Pending)
      && (Closed(st.escrows[id]) ==> st'.escrows[id] == st.escrows[id])
  {}

  lemma {:induction false} ReleaseEachSteps(st: State, caller: Address, ids: seq<nat>, amount: int, now: nat, id: nat)
    requires ReleaseEach(st, caller, ids, amount, now).Done? && id < |st.escrows|
    ensures var st' := ReleaseEach(st, caller, ids, amount, now).st;
      && Steps(st, st', id, id in ids && now >= st.escrows[id].lockUntil)
      && st'.escrows[id].lockUntil == st.escrows[id].lockUntil && st'.escrows[id].verified == st.escrows[id].verified
      && |st'.escrows| == |st.escrows|
      && Paid(st', id) - Paid(st, id) == st'.escrows[id].releasedAmount - st.escrows[id].releasedAmount
      && (st'.escrows[id].status == Pending ==> st.escrows[id].status == Pending)
      && (Closed(st.escrows[id]) ==> st'.escrows[id] == st.escrows[id])
  {
    hide DoRelease;
    if ids == [] {
    } else {
      ReleaseEachSteps(st, caller, ids[..|ids| - 1], amount, now, id);
      ReleaseSteps(ReleaseEach(st, caller, ids[..|ids| - 1], amount, now).st, caller, ids[|ids| - 1], amount, now, id);
      assert forall k :: k in ids <==> k in ids[..|ids| - 1] || k == ids[|ids| - 1];
    }
  }

  /** A recipient is paid only by a release of a pending, verified escrow at or after its lock, never while it is
      challenged; locks only move later; parties, amount and fee never change. */
  lemma PaidOnlyWhenUnlocked(st: State, op: Op, id: nat)
    requires id < |st.escrows|
    ensures Steps(st, Settle(st, Call(st, op)), id,
                  Pays(op, id)
                  && (if op.Release? || op.BatchRelease? then op.now >= st.escrows[id].lockUntil else false))
  {
    if Call(st, op).Done? {
      match op
      case Release(caller, k, amount, now) => ReleaseSteps(st, caller, k, amount, now, id);
      case BatchRelease(caller, ids, amount, now) => ReleaseEachSteps(st, caller, ids, amount, now, id);
      case _ =>
    }
    hide DoRelease, ReleaseEach, ValidApprovers;
  }

  /** Whatever happens, nothing reaches the recipient before the lock an escrow was created with has run out. */
  lemma {:induction false} NothingBeforeTheLock(st: State, ops: seq<Op>, id: nat)
    requires id < |st.escrows|
    requires forall op :: op in ops && (op.Release? || op.BatchRelease?) ==> op.now < st.escrows[id].lockUntil
    ensures id < |Run(st, ops).escrows| && Run(st, ops).escrows[id].lockUntil >= st.escrows[id].lockUntil
    ensures Paid(Run(st, ops), id) == Paid(st, id)
  {
    hide Call;
    if ops == [] {
    } else {
      assert ops[|ops| - 1] in ops;
      assert forall op :: op in ops[..|ops| - 1] ==> op in ops;
      NothingBeforeTheLock(st, ops[..|ops| - 1], id);
      PaidOnlyWhenUnlocked(Run(st, ops[..|ops| - 1]), ops[|ops| - 1], id);
    }
  }

  // ---- A careless recovery ----------------------------------------------------------------------------------------

  const DEPOSITOR: Address := 1
  const RECIPIENT: Address := 2

  /** Create, refund, pause, recover what was refunded. */
  const TWICE_PAID: seq<Op> := [
    Create(DEPOSITOR, RECIPIENT, "bridge", "asset", 100, "", 3, 0),
    Refund(DEPOSITOR, 0), SetEmergencyPause(true), EmergencyRecover(0, 100)]

  lemma {:induction false} RunOn(st: State, ops: seq<Op>, op: Op)
    ensures Run(st, ops + [op]) == Settle(Run(st, ops), Call(Run(st, ops), op))
  {
    assert (ops + [op])[..|ops|] == ops;
  }

  /** The states on the way. */
  lemma TwicePaidSteps()
    ensures var start := Init(0, 0, 0, [4], 1);
      var s1 := DoCreate(start, DEPOSITOR, RECIPIENT, "bridge", "asset", 100, "", 3, 0);
      && s1.Done? && DoRefund(s1.st, DEPOSITOR, 0).Done?
      && var s2 := DoRefund(s1.st, DEPOSITOR, 0).st;
         s2.escrows == [Deposit(DEPOSITOR, RECIPIENT, 100, 0, 0, DEFAULT_LOCK_SECS, Refunded, 3, false)]
         && s2.audit == Audit(map[], map[0 := 100], map[], 0)
  {}

  /** A run on which an escrow of a hundred pays out two hundred. */
  lemma RecoveryPaysTwice()
    ensures var st := Run(Init(0, 0, 0, [4], 1), TWICE_PAID);
      |st.escrows| == 1 && Releasable(st.escrows[0]) == 100 && Out(st, 0) == 200
  {
    var start := Init(0, 0, 0, [4], 1);
    TwicePaidSteps();
    var s1 := DoCreate(start, DEPOSITOR, RECIPIENT, "bridge", "asset", 100, "", 3, 0).st;
    var s2 := DoRefund(s1, DEPOSITOR, 0).st;
    RunOn(start, [], TWICE_PAID[0]);
    RunOn(start, TWICE_PAID[..1], TWICE_PAID[1]);
    RunOn(start, TWICE_PAID[..2], TWICE_PAID[2]);
    RunOn(start, TWICE_PAID[..3], TWICE_PAID[3]);
    assert Run(start, []) == start;
    hide Run, DoCreate, DoRefund, Careful;
    assert [] + [TWICE_PAID[0]] == TWICE_PAID[..1];
    assert Run(start, TWICE_PAID[..1]) == s1;
    assert TWICE_PAID[..1] + [TWICE_PAID[1]] == TWICE_PAID[..2];
    assert Run(start, TWICE_PAID[..2]) == s2;
    assert TWICE_PAID[..2] + [TWICE_PAID[2]] == TWICE_PAID[..3];
    assert Run(start, TWICE_PAID[..3]) == s2.(paused := true);
    assert TWICE_PAID[..3] + [TWICE_PAID[3]] == TWICE_PAID;
  }
}
