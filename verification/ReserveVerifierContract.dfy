/** The verifier as it runs: the proof loop, the batch loop, and the entrypoints, proved equal to ReserveVerifier. */
module ReserveVerifierContract {
  import opened MerkleProofs
  import opened ReserveVerifier

  /** Climb from the leaf, concatenating on the side the index bit says and halving the index. */
  method VerifyMerkleProof(h: Hash, leaf: Digest, path: seq<Digest>, leafIndex: nat, root: Digest) returns (ok: bool)
    ensures ok <==> Accepts(h, Proof(leaf, path, leafIndex), root)
  {
    var computed := leaf;
    var index := leafIndex;
    for i := 0 to |path|
      invariant Fold(h, computed, path[i..], index) == Fold(h, leaf, path, leafIndex)
    {
      assert path[i..][1..] == path[i + 1..];
      var combined: seq<byte> := [];
      if index % 2 == 0 {
        combined := combined + computed;
        combined := combined + path[i];
      } else {
        combined := combined + path[i];
        combined := combined + computed;
      }
      assert combined == Pair(computed, path[i], index);
      computed := h(combined);
      index := index / 2;
    }
    ok := computed == root;
  }

  class Contract {
    const h: Hash
    var config: Config
    var operators: map<BridgeId, Operator>
    var bridges: seq<BridgeId>
    var latest: map<BridgeId, nat>
    var commitments: map<(BridgeId, nat), Commitment>

    ghost function St(): State
      reads this
    {
      State(config, operators, bridges, latest, commitments)
    }

    ghost predicate Ended(before: State, o: Outcome, ok: bool)
      reads this
    {
      ok == o.Done? && St() == Settle(before, o)
    }

    constructor (h: Hash, config: Config)
      ensures St() == Init(config) && this.h == h
    {
      this.h, this.config := h, config;
      operators, bridges, latest, commitments := map[], [], map[], map[];
    }

    method UpdateConfig(window: nat, slash: int, minStake: int) returns (ok: bool)
      modifies this
      ensures Ended(old(St()), Call(h, old(St()), Op.UpdateConfig(window, slash, minStake)), ok)
    {
      if slash < 0 || minStake < 0 { return false; }
      config := config.(window := window);
      config := config.(slashAmount := slash);
      config := config.(minStake := minStake);
      ok := true;
    }

    method RegisterBridge(b: BridgeId, operator: Address, stake: int, now: nat) returns (ok: bool)
      modifies this
      ensures Ended(old(St()), Call(h, old(St()), Register(b, operator, stake, now)), ok)
    {
      if b in operators || stake < config.minStake { return false; }
      operators := operators[b := Operator(operator, stake, true, 0, now)];
      latest := latest[b := 0];
      bridges := bridges + [b];
      ok := true;
    }

    method CommitReserves(b: BridgeId, root: Digest, reserves: int, ledger: nat, now: nat)
      returns (ok: bool, sequence: nat)
      modifies this
      ensures Ended(old(St()), Call(h, old(St()), Commit(b, root, reserves, ledger, now)), ok)
      ensures ok ==> sequence == Latest(old(St()), b) + 1 == Latest(St(), b)
    {
      if b !in operators || !operators[b].active || reserves < 0 { return false, 0; }
      var last := if b in latest then latest[b] else 0;
      sequence := last + 1;
      latest := latest[b := sequence];
      commitments := commitments[(b, sequence) := Commitment(root, reserves, now, ledger, Pending, NoOne)];
      ok := true;
    }

    method VerifyProof(key: (BridgeId, nat), p: Proof, ledger: nat) returns (ok: bool, valid: bool)
      modifies this
      ensures Ended(old(St()), Call(h, old(St()), Verify(key, p, ledger)), ok)
      ensures ok ==> key in old(commitments) && (valid <==> Accepts(h, p, old(commitments)[key].root))
    {
      hide Accepts;
      if key !in commitments { return false, false; }
      var c := commitments[key];
      valid := VerifyMerkleProof(h, p.leaf, p.path, p.index, c.root);
      assert Proof(p.leaf, p.path, p.index) == p;
      if valid && c.status == Pending && ledger > c.ledger + config.window {
        c := c.(status := Verified);
        commitments := commitments[key := c];
      }
      ok := true;
    }

    /** One answer per proof, in order; a batch advances no commitment. */
    method BatchVerifyProofs(key: (BridgeId, nat), proofs: seq<Proof>) returns (ok: bool, results: seq<bool>)
      ensures ok == (key in commitments)
      ensures ok ==> |results| == |proofs|
      ensures ok ==> forall i :: 0 <= i < |proofs| ==> (results[i] <==> Accepts(h, proofs[i], commitments[key].root))
    {
      hide Accepts;
      results := [];
      if key !in commitments { return false, results; }
      for n := 0 to |proofs|
        invariant |results| == n
        invariant forall i :: 0 <= i < n ==> (results[i] <==> Accepts(h, proofs[i], commitments[key].root))
      {
        var p := proofs[n];
        var valid := VerifyMerkleProof(h, p.leaf, p.path, p.index, commitments[key].root);
        assert Proof(p.leaf, p.path, p.index) == p;
        results := results + [valid];
      }
      ok := true;
    }

    method ChallengeCommitment(key: (BridgeId, nat), who: Address, p: Proof, ledger: nat) returns (ok: bool)
      modifies this
      ensures Ended(old(St()), Call(h, old(St()), Challenge(key, who, p, ledger)), ok)
    {
      hide Accepts;
      if key !in commitments || commitments[key].status != Pending { return false; }
      var c := commitments[key];
      if ledger > c.ledger + config.window { return false; }
      var valid := VerifyMerkleProof(h, p.leaf, p.path, p.index, c.root);
      assert Proof(p.leaf, p.path, p.index) == p;
      if !valid {
        c := c.(status := Challenged);
        c := c.(challenger := By(who));
        commitments := commitments[key := c];
      }
      ok := true;
    }

    method SlashOperatorInternal(b: BridgeId) returns (ok: bool)
      modifies this`operators
      ensures Ended(old(St()), DoSlash(old(St()), b), ok)
    {
      if b !in operators { return false; }
      var op := operators[b];
      op := op.(slashCount := op.slashCount + 1);
      op := op.(stake := if op.stake >= config.slashAmount then op.stake - config.slashAmount else 0);
      if op.stake < config.minStake { op := op.(active := false); }
      operators := operators[b := op];
      ok := true;
    }

    method ResolveChallenge(key: (BridgeId, nat), valid: bool) returns (ok: bool)
      modifies this
      ensures Ended(old(St()), Call(h, old(St()), Resolve(key, valid)), ok)
    {
      if key !in commitments || commitments[key].status != Challenged { return false; }
      var c := commitments[key];
      if valid {
        c := c.(status := Resolved);
      } else {
        c := c.(status := Slashed);
        var slashed := SlashOperatorInternal(key.0);
        if !slashed { return false; }
      }
      commitments := commitments[key := c];
      ok := true;
    }
  }
}
