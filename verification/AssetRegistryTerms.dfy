/** Exactly when each registry call completes, and what becomes of the record it names. */
module AssetRegistryTerms {
  import opened AssetRegistry

  /** The steps of a life: review to active; active and paused to and fro; from either to deprecated or deactivated. */
  ghost predicate MayBecome(a: Status, b: Status) {
    match a
    case PendingReview => b == Active
    case Active => b == Paused || b == Deprecated || b == Deactivated
    case Paused => b == Active || b == Deprecated || b == Deactivated
    case _ => false
  }

  predicate ChangesRecord(op: Op) { !op.Register? && !op.Whitelist? && !op.Freeze? }

  /** When a call that changes a record completes. */
  ghost predicate Admitted(st: State, op: Op) requires ChangesRecord(op) {
    && op.code in st.meta
    && var m := st.meta[op.code];
       match op
       case UpdateMetadata(_, c, _, _, _) => !(c in st.frozen && st.frozen[c]) && m.status != Deprecated
       case UpdateRisk(_, _, _, bps, _) => bps <= 10_000
       case UpdateStatus(_, _, status, _) => MayBecome(m.status, status)
       case Deactivate(_, _, _, _) => m.status == Active
       case Restore(_, _, _) => m.status == Deactivated
       case _ => true
  }

  /** It changes that record alone, by the field it is about, the version and the time, and saves it as a version. */
  lemma RecordExact(st: State, op: Op)
    requires ChangesRecord(op) && Inv(st)
    ensures Call(st, op).Done? <==> Admitted(st, op)
    ensures Call(st, op).Done? ==>
      var st' := Call(st, op).st; var c := op.code;
      && c in st'.meta && st'.meta == st.meta[c := st'.meta[c]]
      && st'.list == st.list && st'.whitelist == st.whitelist && st'.frozen == st.frozen
      && var m, n := st.meta[c], st'.meta[c].(version := st.meta[c].version, updatedAt := st.meta[c].updatedAt);
         && st'.meta[c].version == m.version + 1 && st'.meta[c].updatedAt == op.now
         && match op
            case UpdateMetadata(_, _, texts, _, _) => n == m.(texts := texts)
            case UpdateCategory(_, _, category, _) => n == m.(category := category)
            case UpdateRisk(_, _, rating, bps, _) => n == m.(rating := rating, riskBps := bps)
            case UpdateStatus(_, _, status, _) => n == m.(status := status)
            case Deactivate(_, _, _, _) => n == m.(status := Deactivated)
            case Restore(_, _, _) => n == m.(status := Active)
            case UpdateCompliance(_, _, compliance, _) => n == m.(compliance := compliance)
            case _ => true
  {
    if op.code in st.meta { assert VersionsAgree(st, op.code); CodeOf(st, op.code); }
    hide Inv, VersionsAgree, Moved, Appended;
  }

  /** A registration is of a new code, listed if there is a whitelist at all; the record starts under review, at
      medium risk and version one. */
  lemma RegistrationExact(st: State, admin: Address, c: Code, texts: Texts, decimals: nat, category: Category, now: nat)
    ensures DoRegister(st, admin, c, texts, decimals, category, now).Done?
            <==> c !in st.meta && (st.whitelist == [] || c in st.whitelist)
    ensures DoRegister(st, admin, c, texts, decimals, category, now).Done? ==>
      var st' := DoRegister(st, admin, c, texts, decimals, category, now).st;
      && st'.meta == st.meta[c := Metadata(c, texts, decimals, category, PendingReview, Awaiting, Medium, 5_000, 1,
                                           now, now, admin)]
      && st'.list == st.list + [c] && st'.whitelist == st.whitelist && st'.frozen == st.frozen
  {
    hide Added;
  }

  /** Listing and unlisting need the code off and on the whitelist; freezing needs a registered code. */
  lemma ListsExact(st: State, c: Code, on: bool)
    ensures DoWhitelist(st, c, on).Done? <==> (on <==> c !in st.whitelist)
    ensures DoWhitelist(st, c, on).Done? ==>
      var st' := DoWhitelist(st, c, on).st;
      st' == st.(whitelist := st'.whitelist)
      && forall x :: x in st'.whitelist <==> if x == c then on else x in st.whitelist
    ensures DoFreeze(st, c, on).Done? <==> c in st.meta
    ensures DoFreeze(st, c, on).Done? ==> DoFreeze(st, c, on).st == st.(frozen := st.frozen[c := on])
  {
    RemovedEffect(st.whitelist, c);
  }
}
