/** Exactly when each call of the reserve verifier completes, and what it stores. */
module ReserveVerifierTerms {
  import opened MerkleProofs
  import opened ReserveVerifier

  /** A bridge registers once, with an operator and at least the minimum stake. */
  lemma RegisterExact(st: State, b: BridgeId, operator: Address, stake: int, now: nat)
    ensures DoRegister(st, b, operator, stake, now).Done? <==> b !in st.operators && stake >= st.config.minStake
    ensures DoRegister(st, b, operator, stake, now).Done? ==>
      var st' := DoRegister(st, b, operator, stake, now).st;
      && st'.operators == st.operators[b := Operator(operator, stake, true, 0, now)]
      && st'.bridges == st.bridges + [b] && Latest(st', b) == 0
      && st'.commitments == st.commitments && st'.config == st.config
  {}

  /** An active operator's bridge commits the given root and non-negative reserves under the next number. */
  lemma CommitExact(st: State, b: BridgeId, root: Digest, reserves: int, ledger: nat, now: nat)
    ensures DoCommit(st, b, root, reserves, ledger, now).Done?
            <==> b in st.operators && st.operators[b].active && reserves >= 0
    ensures DoCommit(st, b, root, reserves, ledger, now).Done? ==>
      var st' := DoCommit(st, b, root, reserves, ledger, now).st; var n := Latest(st, b) + 1;
      && Latest(st', b) == n
      && st'.commitments == st.commitments[(b, n) := Commitment(root, reserves, now, ledger, Pending, NoOne)]
      && st'.operators == st.operators && st'.config == st.config
  {}

  /** A proof is always answered; it advances its commitment exactly when it is accepted and the commitment is still
      pending after its window. */
  lemma VerifyExact(h: Hash, st: State, key: (BridgeId, nat), p: Proof, ledger: nat)
    ensures DoVerify(h, st, key, p, ledger).Done? <==> key in st.commitments
    ensures DoVerify(h, st, key, p, ledger).Done? ==>
      var st' := DoVerify(h, st, key, p, ledger).st; var c := st.commitments[key];
      if Accepts(h, p, c.root) && c.status == Pending && ledger > c.ledger + st.config.window
      then st' == st.(commitments := st.commitments[key := c.(status := Verified)]) else st' == st
  {
    hide Accepts;
  }

  /** A pending commitment can be challenged inside its window, and a proof that fails does so. */
  lemma ChallengeExact(h: Hash, st: State, key: (BridgeId, nat), who: Address, p: Proof, ledger: nat)
    ensures DoChallenge(h, st, key, who, p, ledger).Done? <==>
      key in st.commitments && st.commitments[key].status == Pending
      && ledger <= st.commitments[key].ledger + st.config.window
    ensures DoChallenge(h, st, key, who, p, ledger).Done? ==>
      var st' := DoChallenge(h, st, key, who, p, ledger).st; var c := st.commitments[key];
      if Accepts(h, p, c.root) then st' == st
      else st' == st.(commitments := st.commitments[key := c.(status := Challenged, challenger := By(who))])
  {
    hide Accepts;
  }

  /** A challenge is judged once; judged invalid, it costs the operator the configured amount, or all that is left. */
  lemma ResolveExact(st: State, key: (BridgeId, nat), valid: bool)
    ensures DoResolve(st, key, valid).Done? <==>
      key in st.commitments && st.commitments[key].status == Challenged && (valid || key.0 in st.operators)
    ensures DoResolve(st, key, valid).Done? ==>
      var st' := DoResolve(st, key, valid).st; var c := st.commitments[key];
      && st'.commitments == st.commitments[key := c.(status := if valid then Resolved else Slashed)]
      && (valid ==> st'.operators == st.operators)
      && (!valid ==>
            var o, b := st.operators[key.0], key.0;
            && b in st'.operators && st'.operators == st.operators[b := st'.operators[b]]
            && var left := if o.stake >= st.config.slashAmount then o.stake - st.config.slashAmount else 0;
               st'.operators[b] == o.(stake := left, slashCount := o.slashCount + 1,
                                      active := o.active && left >= st.config.minStake))
  {}

  lemma ConfigurationExact(st: State, window: nat, slash: int, minStake: int)
    ensures DoUpdateConfig(st, window, slash, minStake)
            == if slash >= 0 && minStake >= 0
               then Done(st.(config := Config(st.config.admin, window, slash, minStake))) else Panic
  {}
}
