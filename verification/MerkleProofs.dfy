/** Merkle inclusion proofs over an arbitrary hash: what they accept, and what a forged one would give away. */
module MerkleProofs {
  import opened Quotients

  newtype byte = x: int | 0 <= x < 256
  type Digest = d: seq<byte> | |d| == 32 witness seq(32, _ => 0)

  /** Any function from bytes to digests. Nothing is assumed about it. */
  type Hash = seq<byte> -> Digest

  datatype Proof = Proof(leaf: Digest, path: seq<Digest>, index: nat)

  /** The 64 bytes hashed at one level: an even index is a left child. */
  function Pair(node: Digest, sibling: Digest, index: nat): (r: seq<byte>)
    ensures |r| == 64
  {
    if index % 2 == 0 then node + sibling else sibling + node
  }

  /** The root computed from a leaf and its siblings. */
  function Fold(h: Hash, node: Digest, path: seq<Digest>, index: nat): Digest
    decreases |path|
  {
    if path == [] then node else Fold(h, h(Pair(node, path[0], index)), path[1..], index / 2)
  }

  predicate Accepts(h: Hash, p: Proof, root: Digest) {
    Fold(h, p.leaf, p.path, p.index) == root
  }

  // ---- Completeness -----------------------------------------------------------------------------------------------

  function Pow2(d: nat): (n: nat)
    ensures n >= 1
  {
    if d == 0 then 1 else 2 * Pow2(d - 1)
  }

  /** The level above: each pair of neighbours hashed together. */
  function Up(h: Hash, level: seq<Digest>): seq<Digest> {
    seq(|level| / 2, i requires 0 <= i < |level| / 2 => h(Pair(level[2 * i], level[2 * i + 1], 0)))
  }

  function TreeRoot(h: Hash, leaves: seq<Digest>, d: nat): Digest
    requires |leaves| == Pow2(d)
    decreases d
  {
    if d == 0 then leaves[0] else TreeRoot(h, Up(h, leaves), d - 1)
  }

  function Sibling(i: nat): nat { if i % 2 == 0 then i + 1 else i - 1 }

  function SiblingPath(h: Hash, leaves: seq<Digest>, d: nat, i: nat): (path: seq<Digest>)
    requires |leaves| == Pow2(d) && i < |leaves|
    ensures |path| == d
    decreases d
  {
    if d == 0 then [] else [leaves[Sibling(i)]] + SiblingPath(h, Up(h, leaves), d - 1, i / 2)
  }

  lemma {:induction false} PathFolds(h: Hash, leaves: seq<Digest>, d: nat, i: nat)
    requires |leaves| == Pow2(d) && i < |leaves|
    ensures Fold(h, leaves[i], SiblingPath(h, leaves, d, i), i) == TreeRoot(h, leaves, d)
    decreases d
  {
    hide Up, Pair;
    if d == 0 {
    } else {
      var up := Up(h, leaves);
      LevelSizes(h, leaves, d, i);
      ParentHash(h, leaves, i);
      PathFolds(h, up, d - 1, i / 2);
      var head, rest := leaves[Sibling(i)], SiblingPath(h, up, d - 1, i / 2);
      assert SiblingPath(h, leaves, d, i) == [head] + rest;
      assert TreeRoot(h, leaves, d) == TreeRoot(h, up, d - 1);
      hide *;
      FoldStep(h, leaves[i], head, rest, i, up[i / 2]);
    }
  }

  lemma FoldStep(h: Hash, node: Digest, head: Digest, rest: seq<Digest>, i: nat, parent: Digest)
    requires parent == h(Pair(node, head, i))
    ensures Fold(h, node, [head] + rest, i) == Fold(h, parent, rest, i / 2)
  {
    hide Pair;
    assert ([head] + rest)[1..] == rest;
  }

  lemma LevelSizes(h: Hash, leaves: seq<Digest>, d: nat, i: nat)
    requires |leaves| == Pow2(d) && i < |leaves| && d > 0
    ensures |Up(h, leaves)| == Pow2(d - 1) && i / 2 < |Up(h, leaves)| && Sibling(i) < |leaves| && |leaves| % 2 == 0
  {
    assert Pow2(d) == 2 * Pow2(d - 1);
  }

  /** A node and its sibling hash to their parent, whichever side the node is on. */
  lemma ParentHash(h: Hash, level: seq<Digest>, i: nat)
    requires |level| % 2 == 0 && i < |level|
    ensures Up(h, level)[i / 2] == h(Pair(level[i], level[Sibling(i)], i))
  {
    var j := i / 2;
    assert i == 2 * j || i == 2 * j + 1;
  }

  lemma HalfModulo(i: nat, m: nat, n: nat)
    requires m >= 1 && n == 2 * m
    ensures i % n / 2 == i / 2 % m && i % n % 2 == i % 2
  {
    Division(i, n);
    ModuloParts(i, m, n, i / n, i % n);
  }

  lemma Division(x: nat, d: nat)
    requires d > 0
    ensures x == d * (x / d) + x % d && x % d < d
  {}

  lemma ModuloParts(i: nat, m: nat, n: nat, q: nat, r: nat)
    requires m >= 1 && n == 2 * m && i == n * q + r && r < n
    ensures r / 2 == i / 2 % m && r % 2 == i % 2
  {
    DoubleProduct(m, q);
    HalfOfEven(i, m * q, r);
    ModuloUnique(i / 2, m, q, r / 2);
  }

  lemma DoubleProduct(m: int, q: int)
    ensures (2 * m) * q == 2 * (m * q)
  {}

  lemma HalfOfEven(i: nat, k: int, r: nat)
    requires i == 2 * k + r
    ensures i / 2 == k + r / 2 && i % 2 == r % 2
  {}

  lemma ModuloUnique(x: nat, m: nat, q: nat, r: nat)
    requires m >= 1 && x == m * q + r && r < m
    ensures x % m == r
  {
    assert q * m <= x && x < (q + 1) * m by { assert (q + 1) * m == m * q + m; }
    FloorUnique(x, m, q);
    assert x == m * (x / m) + x % m;
  }

  /** Only the low bits of the index matter, one per level of the path. */
  lemma {:induction false} IndexModulo(h: Hash, node: Digest, path: seq<Digest>, index: nat)
    ensures Fold(h, node, path, index) == Fold(h, node, path, index % Pow2(|path|))
    decreases |path|
  {
    if path == [] {
    } else {
      HalfModulo(index, Pow2(|path| - 1), Pow2(|path|));
      IndexModulo(h, h(Pair(node, path[0], index)), path[1..], index / 2);
    }
  }

  /** Every leaf of every perfect tree verifies with its sibling path, under any index that agrees with its own on as
      many bits as the tree is deep. */
  lemma EveryLeafVerifies(h: Hash, leaves: seq<Digest>, d: nat, i: nat, index: nat)
    requires |leaves| == Pow2(d) && i < |leaves| && index % Pow2(d) == i
    ensures Accepts(h, Proof(leaves[i], SiblingPath(h, leaves, d, i), index), TreeRoot(h, leaves, d))
  {
    PathFolds(h, leaves, d, i);
    IndexModulo(h, leaves[i], SiblingPath(h, leaves, d, i), index);
  }

  // ---- Binding ----------------------------------------------------------------------------------------------------

  /** Two different 64-byte inputs with the same hash. */
  predicate Collision(h: Hash, x: seq<byte>, y: seq<byte>) {
    |x| == |y| == 64 && x != y && h(x) == h(y)
  }

  datatype Extracted = Same | Found(x: seq<byte>, y: seq<byte>)

  /** Walk two proofs up together and return the first pair of different inputs whose hashes meet. */
  function Extract(h: Hash, a: Digest, p: seq<Digest>, b: Digest, q: seq<Digest>, index: nat): Extracted
    requires |p| == |q|
    decreases |p|
  {
    if p == [] then Same
    else
      var x, y := Pair(a, p[0], index), Pair(b, q[0], index);
      if x != y && h(x) == h(y) then Found(x, y) else Extract(h, h(x), p[1..], h(y), q[1..], index / 2)
  }

  lemma PairInjective(a: Digest, s: Digest, b: Digest, t: Digest, index: nat)
    requires Pair(a, s, index) == Pair(b, t, index)
    ensures a == b && s == t
  {
    var x, y := Pair(a, s, index), Pair(b, t, index);
    assert x[..32] == y[..32] && x[32..] == y[32..];
    if index % 2 == 0 {
      assert x[..32] == a && x[32..] == s && y[..32] == b && y[32..] == t;
    } else {
      assert x[..32] == s && x[32..] == a && y[..32] == t && y[32..] == b;
    }
  }

  lemma {:induction false} ExtractWorks(h: Hash, a: Digest, p: seq<Digest>, b: Digest, q: seq<Digest>, index: nat)
    requires |p| == |q| && Fold(h, a, p, index) == Fold(h, b, q, index)
    ensures match Extract(h, a, p, b, q, index)
            case Same => a == b && p == q
            case Found(x, y) => Collision(h, x, y)
    decreases |p|
  {
    if p == [] {
    } else {
      var x, y := Pair(a, p[0], index), Pair(b, q[0], index);
      if !(x != y && h(x) == h(y)) {
        ExtractWorks(h, h(x), p[1..], h(y), q[1..], index / 2);
        if Extract(h, a, p, b, q, index).Same? {
          assert x == y;
          PairInjective(a, p[0], b, q[0], index);
          assert p == [p[0]] + p[1..] && q == [q[0]] + q[1..];
        }
      }
    }
  }

  /** Two accepted proofs of one length at one position against one root are the same proof, or they hand over two
      different 64-byte inputs with one hash. */
  lemma ProofsBind(h: Hash, p: Proof, q: Proof, root: Digest)
    requires Accepts(h, p, root) && Accepts(h, q, root) && |p.path| == |q.path|
    requires p.index % Pow2(|p.path|) == q.index % Pow2(|q.path|)
    ensures (p.leaf == q.leaf && p.path == q.path)
         || match Extract(h, p.leaf, p.path, q.leaf, q.path, p.index % Pow2(|p.path|))
            case Same => false
            case Found(x, y) => Collision(h, x, y)
  {
    IndexModulo(h, p.leaf, p.path, p.index);
    IndexModulo(h, q.leaf, q.path, q.index);
    ExtractWorks(h, p.leaf, p.path, q.leaf, q.path, p.index % Pow2(|p.path|));
  }

  // ---- Proofs of every length -------------------------------------------------------------------------------------

  /** The low n bits of an index, and an index halved e times. */
  function Low(index: nat, n: nat): (i: nat)
    ensures i < Pow2(n)
  {
    index % Pow2(n)
  }

  function Shifted(index: nat, e: nat): nat { if e == 0 then index else Shifted(index / 2, e - 1) }

  /** The nodes n steps below the root: the leaves at full depth, the root alone at none. */
  function Level(h: Hash, leaves: seq<Digest>, d: nat, n: nat): (nodes: seq<Digest>)
    requires |leaves| == Pow2(d) && n <= d
    ensures |nodes| == Pow2(n)
    decreases d
  {
    if n == d then leaves else Level(h, Up(h, leaves), d - 1, n)
  }

  /** The top of a tree is a tree with the same root. */
  lemma {:induction false} LevelIsTree(h: Hash, leaves: seq<Digest>, d: nat, n: nat)
    requires |leaves| == Pow2(d) && n <= d
    ensures TreeRoot(h, Level(h, leaves, d, n), n) == TreeRoot(h, leaves, d)
    decreases d
  {
    hide Up;
    if n < d {
      LevelSizes(h, leaves, d, 0);
      LevelIsTree(h, Up(h, leaves), d - 1, n);
    }
  }

  /** The proof of the i-th node n steps below the root, with its own path. */
  function NodeProof(h: Hash, leaves: seq<Digest>, d: nat, n: nat, i: nat): Proof
    requires |leaves| == Pow2(d) && n <= d && i < Pow2(n)
  {
    Proof(Level(h, leaves, d, n)[i], SiblingPath(h, Level(h, leaves, d, n), n, i), i)
  }

  /** Not only leaves: every node of every height is accepted with its own, shorter path. */
  lemma EveryNodeVerifies(h: Hash, leaves: seq<Digest>, d: nat, n: nat, i: nat)
    requires |leaves| == Pow2(d) && n <= d && i < Pow2(n)
    ensures Accepts(h, NodeProof(h, leaves, d, n, i), TreeRoot(h, leaves, d))
  {
    hide Pow2, Level, SiblingPath, TreeRoot, Fold;
    LevelIsTree(h, leaves, d, n);
    LowIsSame(i, n);
    EveryLeafVerifies(h, Level(h, leaves, d, n), n, i, i);
  }

  lemma LowIsSame(i: nat, n: nat)
    requires i < Pow2(n)
    ensures i % Pow2(n) == Low(i, n) == i
  {
    hide Pow2;
    SmallModulo(i, Pow2(n));
  }

  lemma SmallModulo(i: nat, m: nat)
    requires i < m
    ensures i % m == i
  {}

  /** Comparing a proof of length n with that of the node at its position. */
  function Against(h: Hash, leaves: seq<Digest>, d: nat, p: Proof): Extracted
    requires |leaves| == Pow2(d) && |p.path| <= d
  {
    var i := Low(p.index, |p.path|);
    var q := NodeProof(h, leaves, d, |p.path|, i);
    Extract(h, p.leaf, p.path, q.leaf, q.path, i)
  }

  /** An accepted proof no longer than the tree is deep carries the node its length and index name, with that node's
      path, or it yields a collision. */
  lemma AcceptedMeansNode(h: Hash, leaves: seq<Digest>, d: nat, p: Proof)
    requires |leaves| == Pow2(d) && |p.path| <= d && Accepts(h, p, TreeRoot(h, leaves, d))
    ensures var n := |p.path|; var q := NodeProof(h, leaves, d, n, Low(p.index, n));
      match Against(h, leaves, d, p)
      case Same => p.leaf == q.leaf && p.path == q.path
      case Found(x, y) => Collision(h, x, y)
  {
    var n := |p.path|;
    var i := Low(p.index, n);
    EveryNodeVerifies(h, leaves, d, n, i);
    IndexModulo(h, p.leaf, p.path, p.index);
    var q := NodeProof(h, leaves, d, n, i);
    hide Fold, Extract, SiblingPath, TreeRoot, Level;
    ExtractWorks(h, p.leaf, p.path, q.leaf, q.path, i);
  }

  /** A proof as long as the tree is deep proves membership: its leaf is the one at its index. */
  lemma FullLengthMeansLeaf(h: Hash, leaves: seq<Digest>, d: nat, p: Proof)
    requires |leaves| == Pow2(d) && |p.path| == d && Accepts(h, p, TreeRoot(h, leaves, d))
    ensures p.leaf == leaves[Low(p.index, d)]
         || (Against(h, leaves, d, p).Found? && Collision(h, Against(h, leaves, d, p).x, Against(h, leaves, d, p).y))
  {
    AcceptedMeansNode(h, leaves, d, p);
    hide Fold, Extract, SiblingPath, TreeRoot;
  }

  lemma {:induction false} ExtractSame(h: Hash, a: Digest, p: seq<Digest>, index: nat)
    ensures Extract(h, a, p, a, p, index) == Same
    decreases |p|
  {
    if p != [] { ExtractSame(h, h(Pair(a, p[0], index)), p[1..], index / 2); }
  }

  /** Every accepted proof of length n is of a leaf, or yields a collision. */
  ghost predicate OnlyLeaves(h: Hash, leaves: seq<Digest>, d: nat, n: nat)
    requires |leaves| == Pow2(d) && n <= d
  {
    forall p: Proof :: |p.path| == n && Accepts(h, p, TreeRoot(h, leaves, d)) ==>
      p.leaf in leaves || Against(h, leaves, d, p).Found?
  }

  /** When "accepted means leaf" holds: for proofs of length n, exactly when the nodes that far below the root are all
      leaves themselves, as they are at full length. */
  lemma AcceptedMeansLeafIff(h: Hash, leaves: seq<Digest>, d: nat, n: nat)
    requires |leaves| == Pow2(d) && n <= d
    ensures OnlyLeaves(h, leaves, d, n) <==> forall x :: x in Level(h, leaves, d, n) ==> x in leaves
    ensures n == d ==> OnlyLeaves(h, leaves, d, n)
  {
    hide Accepts, Against, Level, TreeRoot, Pow2;
    var nodes := Level(h, leaves, d, n);
    if OnlyLeaves(h, leaves, d, n) {
      forall i | 0 <= i < |nodes| ensures nodes[i] in leaves { NodeIsLeaf(h, leaves, d, n, i); }
    }
    if forall x :: x in nodes ==> x in leaves {
      forall p: Proof | |p.path| == n && Accepts(h, p, TreeRoot(h, leaves, d))
        ensures p.leaf in leaves || Against(h, leaves, d, p).Found?
      {
        AcceptedIsNode(h, leaves, d, p);
      }
    }
    if n == d { FullLevel(h, leaves, d); }
  }

  lemma FullLevel(h: Hash, leaves: seq<Digest>, d: nat)
    requires |leaves| == Pow2(d)
    ensures Level(h, leaves, d, d) == leaves
  {}

  lemma NodeIsLeaf(h: Hash, leaves: seq<Digest>, d: nat, n: nat, i: nat)
    requires |leaves| == Pow2(d) && n <= d && i < |Level(h, leaves, d, n)| && OnlyLeaves(h, leaves, d, n)
    ensures Level(h, leaves, d, n)[i] in leaves
  {
    hide Accepts, Level, TreeRoot, Pow2, Extract, Low;
    var q := NodeProof(h, leaves, d, n, i);
    EveryNodeVerifies(h, leaves, d, n, i);
    LowIsSame(i, n);
    ExtractSame(h, q.leaf, q.path, i);
    assert |q.path| == n && Against(h, leaves, d, q) == Same;
  }

  lemma AcceptedIsNode(h: Hash, leaves: seq<Digest>, d: nat, p: Proof)
    requires |leaves| == Pow2(d) && |p.path| <= d && Accepts(h, p, TreeRoot(h, leaves, d))
    ensures p.leaf in Level(h, leaves, d, |p.path|) || Against(h, leaves, d, p).Found?
  {
    hide Accepts, Level, TreeRoot, Pow2, Extract;
    AcceptedMeansNode(h, leaves, d, p);
  }

  /** Climbing a path is climbing its beginning and then its end. */
  lemma {:induction false} FoldSplit(h: Hash, node: Digest, path: seq<Digest>, index: nat, e: nat)
    requires e <= |path|
    ensures Fold(h, node, path, index) == Fold(h, Fold(h, node, path[..e], index), path[e..], Shifted(index, e))
    decreases e
  {
    hide Pair;
    if e == 0 {
      assert path[..0] == [] && path[0..] == path;
    } else {
      FoldSplit(h, h(Pair(node, path[0], index)), path[1..], index / 2, e - 1);
      assert path[1..][..e - 1] == path[..e][1..] && path[1..][e - 1..] == path[e..];
      hide *;
    }
  }

  /** An accepted proof longer than the tree is deep names a preimage of a leaf: its first steps climb to the leaf its
      index names, or the rest yields a collision. */
  lemma LongerProofs(h: Hash, leaves: seq<Digest>, d: nat, p: Proof)
    requires |leaves| == Pow2(d) && |p.path| > d && Accepts(h, p, TreeRoot(h, leaves, d))
    ensures var e := |p.path| - d;
      var top := Proof(Fold(h, p.leaf, p.path[..e], p.index), p.path[e..], Shifted(p.index, e));
      top.leaf == leaves[Low(top.index, d)]
      || (Against(h, leaves, d, top).Found?
          && Collision(h, Against(h, leaves, d, top).x, Against(h, leaves, d, top).y))
  {
    var e := |p.path| - d;
    FoldSplit(h, p.leaf, p.path, p.index, e);
    hide Fold, Against, TreeRoot, Pow2, Low, Shifted;
    FullLengthMeansLeaf(h, leaves, d,
                        Proof(Fold(h, p.leaf, p.path[..e], p.index), p.path[e..], Shifted(p.index, e)));
  }

  /** What an accepted proof proves, whatever its length, unless it yields a collision: its leaf is the node its length
      and index name, which is a leaf of the tree at full length; beyond that its first steps climb to such a leaf. */
  lemma AcceptedMeansMember(h: Hash, leaves: seq<Digest>, d: nat, p: Proof)
    requires |leaves| == Pow2(d) && Accepts(h, p, TreeRoot(h, leaves, d))
    ensures var n := |p.path|;
      if n == d then p.leaf == leaves[Low(p.index, d)] || Against(h, leaves, d, p).Found?
      else if n < d then p.leaf == Level(h, leaves, d, n)[Low(p.index, n)] || Against(h, leaves, d, p).Found?
      else
        var top := Proof(Fold(h, p.leaf, p.path[..n - d], p.index), p.path[n - d..], Shifted(p.index, n - d));
        top.leaf == leaves[Low(top.index, d)] || Against(h, leaves, d, top).Found?
    ensures |p.path| <= d && Against(h, leaves, d, p).Found? ==>
              Collision(h, Against(h, leaves, d, p).x, Against(h, leaves, d, p).y)
  {
    if |p.path| <= d { AcceptedMeansNode(h, leaves, d, p); }
    if |p.path| == d { FullLengthMeansLeaf(h, leaves, d, p); }
    if |p.path| > d { LongerProofs(h, leaves, d, p); }
    hide *;
  }
}
