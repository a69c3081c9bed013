/** A ring of storage slots against the full history of what was pushed into it. */
module RingBuffers {
  import opened Quotients

  /** The last entries of a history, at most cap of them. */
  function Retained<T>(log: seq<T>, cap: nat): seq<T> {
    if |log| <= cap then log else log[|log| - cap..]
  }

  /** The slots hold the retained entries, entry i in slot i modulo the capacity, and the head is the next slot. */
  ghost predicate Holds<T>(slots: map<nat, T>, head: nat, count: nat, cap: nat, log: seq<T>) {
    && cap > 0 && count == |log| && head == count % cap
    && forall i :: 0 <= i < count && count - i <= cap ==> i % cap in slots && slots[i % cap] == log[i]
  }

  lemma ModuloStep(x: nat, cap: nat)
    requires cap > 0
    ensures (x % cap + 1) % cap == (x + 1) % cap
    ensures (x + 1) % cap == if x % cap == cap - 1 then 0 else x % cap + 1
  {
    FloorBounds(x, cap);
    var q, r := x / cap, x % cap;
    assert x == cap * q + r;
    if r == cap - 1 {
      assert x + 1 == cap * (q + 1);
      Residue(x + 1, cap, q + 1, 0);
      Residue(r + 1, cap, 1, 0);
    } else {
      Residue(x + 1, cap, q, r + 1);
      Residue(r + 1, cap, 0, r + 1);
    }
  }

  lemma Residue(x: int, m: nat, q: int, r: nat)
    requires m > 0 && x == m * q + r && r < m
    ensures x % m == r && x / m == q
  {
    assert q * m <= x < (q + 1) * m by { assert (q + 1) * m == m * q + m; }
    FloorUnique(x, m, q);
  }

  /** Entries less than a full turn apart live in different slots. */
  lemma DifferentSlots(i: nat, j: nat, cap: nat)
    requires i < j < i + cap
    ensures i % cap != j % cap
  {
    var q, r := i / cap, i % cap;
    assert i == cap * q + r;
    var d := j - i;
    if r + d < cap {
      Residue(j, cap, q, r + d);
    } else {
      assert j == cap * (q + 1) + (r + d - cap) by { assert cap * (q + 1) == cap * q + cap; }
      Residue(j, cap, q + 1, r + d - cap);
    }
  }

  /** Writing at the head and advancing it appends to the history; the overwritten slot is no longer retained. */
  lemma PushHolds<T>(slots: map<nat, T>, head: nat, count: nat, cap: nat, log: seq<T>, x: T)
    requires Holds(slots, head, count, cap, log)
    ensures Holds(slots[head := x], (head + 1) % cap, count + 1, cap, log + [x])
  {
    ModuloStep(count, cap);
    forall i | 0 <= i < count + 1 && count + 1 - i <= cap
      ensures i % cap in slots[head := x] && slots[head := x][i % cap] == (log + [x])[i]
    {
      if i < count { DifferentSlots(i, count, cap); }
    }
  }

  /** The slot before the head is that of the newest entry. */
  lemma NewestSlot(head: nat, count: nat, cap: nat)
    requires cap > 0 && count > 0 && head == count % cap
    ensures (if head == 0 then cap - 1 else head - 1) == (count - 1) % cap
  {
    ModuloStep(count - 1, cap);
  }

  /** Rewriting the newest slot rewrites the end of the history. */
  lemma ReplaceNewestHolds<T>(slots: map<nat, T>, head: nat, count: nat, cap: nat, log: seq<T>, x: T)
    requires Holds(slots, head, count, cap, log) && count > 0
    ensures Holds(slots[(count - 1) % cap := x], head, count, cap, log[count - 1 := x])
  {
    forall i | 0 <= i < count && count - i <= cap
      ensures i % cap in slots[(count - 1) % cap := x]
           && slots[(count - 1) % cap := x][i % cap] == log[count - 1 := x][i]
    {
      if i < count - 1 { DifferentSlots(i, count - 1, cap); }
    }
  }

  /** Reading i steps from the start slot finds the i-th retained entry. */
  lemma WalkFinds<T>(slots: map<nat, T>, head: nat, count: nat, cap: nat, log: seq<T>, i: nat)
    requires Holds(slots, head, count, cap, log) && i < |Retained(log, cap)|
    ensures var start := if count > cap then head else 0;
      (start + i) % cap in slots && slots[(start + i) % cap] == Retained(log, cap)[i]
  {
    if count > cap {
      var q, r := count / cap, count % cap;
      assert count == cap * q + r;
      var k := count - cap + i;
      assert k == cap * (q - 1) + (r + i) by { assert cap * (q - 1) == cap * q - cap; }
      if r + i < cap {
        Residue(k, cap, q - 1, r + i);
        Residue(r + i, cap, 0, r + i);
      } else {
        assert k == cap * q + (r + i - cap) by { assert cap * (q - 1) == cap * q - cap; }
        Residue(k, cap, q, r + i - cap);
        Residue(r + i, cap, 1, r + i - cap);
      }
      assert k % cap in slots;
    } else {
      assert i % cap in slots;
    }
  }
}
