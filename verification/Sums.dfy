/** Finite maps read with a default of zero, and the sum of their values. */
module Sums {

  /** A stored value, or zero where the slot was never written. */
  function Get<K(==)>(m: map<K, int>, k: K): int {
    if k in m then m[k] else 0
  }

  /** The sum of all values of a map. */
  ghost function Sum<K>(m: map<K, int>): int {
    if m == map[] then 0 else
      var k :| k in m;
      m[k] + Sum(m - {k})
  }

  /** Any key can be taken out of the sum first. */
  lemma {:induction false} SumRemove<K>(m: map<K, int>, k: K)
    requires k in m
    ensures Sum(m) == m[k] + Sum(m - {k})
    decreases |m|
  {
    var j :| j in m && Sum(m) == m[j] + Sum(m - {j});
    if j != k {
      SumRemove(m - {j}, k);
      SumRemove(m - {k}, j);
      assert (m - {j}) - {k} == (m - {k}) - {j};
    }
  }

  /** Writing one slot moves the sum by the change of that slot. */
  lemma SumPut<K>(m: map<K, int>, k: K, v: int)
    ensures Sum(m[k := v]) == Sum(m) - Get(m, k) + v
  {
    SumRemove(m[k := v], k);
    if k in m {
      SumRemove(m, k);
      assert m[k := v] - {k} == m - {k};
    } else {
      assert m[k := v] - {k} == m;
    }
  }

  /** c = a + d*b slot by slot, so the sums are related the same way. */
  lemma {:induction false} SumLinear<K>(a: map<K, int>, b: map<K, int>, c: map<K, int>, d: int)
    requires a.Keys == b.Keys == c.Keys
    requires forall k :: k in a ==> c[k] == a[k] + d * b[k]
    ensures Sum(c) == Sum(a) + d * Sum(b)
    decreases |a|
  {
    if a == map[] {
      assert b == map[] && c == map[];
    } else {
      var k :| k in a;
      SumRemove(a, k);
      SumRemove(b, k);
      SumRemove(c, k);
      SumLinear(a - {k}, b - {k}, c - {k}, d);
      assert d * (b[k] + Sum(b - {k})) == d * b[k] + d * Sum(b - {k});
    }
  }

  /** Non-negative slots sum to at least any one of them. */
  lemma {:induction false} SumNonNegative<K>(m: map<K, int>)
    requires forall k :: k in m ==> m[k] >= 0
    ensures Sum(m) >= 0
    ensures forall k :: k in m ==> m[k] <= Sum(m)
    decreases |m|
  {
    forall k | k in m
      ensures Sum(m) >= m[k]
    {
      SumRemove(m, k);
      SumNonNegative(m - {k});
    }
    if m != map[] {
      var k :| k in m;
      assert Sum(m) >= m[k];
    }
  }

  /** The sum of a sequence of numbers. */
  ghost function SumSeq(s: seq<int>): int {
    if s == [] then 0 else SumSeq(s[..|s| - 1]) + s[|s| - 1]
  }

  lemma SumSeqAppend(s: seq<int>, x: int)
    ensures SumSeq(s + [x]) == SumSeq(s) + x
  {
    assert (s + [x])[..|s|] == s;
  }

  lemma {:induction false} SumSeqPut(s: seq<int>, i: nat, x: int)
    requires i < |s|
    ensures SumSeq(s[i := x]) == SumSeq(s) - s[i] + x
  {
    var n := |s| - 1;
    if i < n {
      SumSeqPut(s[..n], i, x);
      assert s[i := x][..n] == s[..n][i := x];
    } else {
      assert s[i := x][..n] == s[..n];
    }
  }

  lemma {:induction false} SumSeqNonNegative(s: seq<int>)
    requires forall i :: 0 <= i < |s| ==> s[i] >= 0
    ensures SumSeq(s) >= 0
    ensures forall i :: 0 <= i < |s| ==> s[i] <= SumSeq(s)
  {
    if s == [] {
    } else {
      var n := |s| - 1;
      SumSeqNonNegative(s[..n]);
      assert forall i :: 0 <= i < n ==> s[..n][i] == s[i];
    }
  }

  /** The same numbers over a larger set of keys. */
  ghost function Extend<K(!new)>(m: map<K, int>, keys: set<K>): map<K, int> {
    map k | k in keys :: Get(m, k)
  }

  lemma {:induction false} SumExtend<K(!new)>(m: map<K, int>, keys: set<K>)
    requires m.Keys <= keys
    ensures Sum(Extend(m, keys)) == Sum(m)
    decreases |keys|
  {
    if forall k :: k in keys ==> k in m {
      assert Extend(m, keys) == m;
    } else {
      var k :| k in keys && k !in m;
      SumExtend(m, keys - {k});
      SumRemove(Extend(m, keys), k);
      assert Extend(m, keys) - {k} == Extend(m, keys - {k});
    }
  }
}
