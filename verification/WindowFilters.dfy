/** Filtering a history by a stamp: the entries within a window, each where it was, in the order it was. */
module WindowFilters {

  function Within<T>(xs: seq<T>, stamp: T -> nat, from: nat, to: nat): seq<T> {
    if xs == [] then []
    else
      var last := xs[|xs| - 1];
      Within(xs[..|xs| - 1], stamp, from, to) + if from <= stamp(last) <= to then [last] else []
  }

  /** r picks from xs, in ascending positions at, exactly the entries stamped within the window. */
  ghost predicate Picks<T>(xs: seq<T>, stamp: T -> nat, from: nat, to: nat, r: seq<T>, at: seq<nat>) {
    && |r| == |at|
    && (forall k :: 0 <= k < |at| ==> at[k] < |xs| && r[k] == xs[at[k]])
    && (forall j, k :: 0 <= j < k < |at| ==> at[j] < at[k])
    && (forall i: nat :: i < |xs| ==> (i in at <==> from <= stamp(xs[i]) <= to))
  }

  /** The filter picks. */
  lemma {:induction false} WithinPicks<T>(xs: seq<T>, stamp: T -> nat, from: nat, to: nat) returns (at: seq<nat>)
    ensures Picks(xs, stamp, from, to, Within(xs, stamp, from, to), at)
  {
    hide Picks;
    if xs == [] {
      at := [];
      NothingToPick(xs, stamp, from, to);
    } else {
      var n := |xs| - 1;
      var before := WithinPicks(xs[..n], stamp, from, to);
      var kept := Within(xs[..n], stamp, from, to);
      if from <= stamp(xs[n]) <= to {
        at := before + [n];
        PickLast(xs, stamp, from, to, kept, before);
      } else {
        at := before;
        SkipLast(xs, stamp, from, to, kept, before);
        assert kept + [] == kept;
      }
    }
  }

  lemma NothingToPick<T>(xs: seq<T>, stamp: T -> nat, from: nat, to: nat)
    requires xs == []
    ensures Picks(xs, stamp, from, to, [], [])
  {}

  lemma PickLast<T>(xs: seq<T>, stamp: T -> nat, from: nat, to: nat, r: seq<T>, at: seq<nat>)
    requires xs != [] && from <= stamp(xs[|xs| - 1]) <= to
    requires Picks(xs[..|xs| - 1], stamp, from, to, r, at)
    ensures Picks(xs, stamp, from, to, r + [xs[|xs| - 1]], at + [|xs| - 1])
  {
    var n := |xs| - 1;
    forall i: nat | i < |xs| ensures i in at + [n] <==> from <= stamp(xs[i]) <= to {
      if i < n { assert xs[..n][i] == xs[i] && (i in at + [n] <==> i in at); }
    }
  }

  lemma SkipLast<T>(xs: seq<T>, stamp: T -> nat, from: nat, to: nat, r: seq<T>, at: seq<nat>)
    requires xs != [] && !(from <= stamp(xs[|xs| - 1]) <= to)
    ensures Picks(xs[..|xs| - 1], stamp, from, to, r, at) <==> Picks(xs, stamp, from, to, r, at)
  {
    var n := |xs| - 1;
    assert forall i: nat :: i < n ==> xs[..n][i] == xs[i];
    if Picks(xs, stamp, from, to, r, at) {
      assert n !in at;
      forall k | 0 <= k < |at| ensures at[k] < n { assert at[k] in at; }
    }
    if Picks(xs[..n], stamp, from, to, r, at) {
      assert n !in at;
    }
  }

  /** Positions are in range and ascend. */
  lemma PickOrder<T>(xs: seq<T>, stamp: T -> nat, from: nat, to: nat, r: seq<T>, at: seq<nat>, j: int, k: int)
    requires Picks(xs, stamp, from, to, r, at)
    ensures 0 <= j < |at| ==> at[j] < |xs|
    ensures 0 <= j < k < |at| ==> at[j] < at[k]
  {}

  /** Nothing else does: an ordered selection of exactly those entries is the filter's. */
  lemma {:induction false} PicksAreWithin<T>(xs: seq<T>, stamp: T -> nat, from: nat, to: nat, r: seq<T>, at: seq<nat>)
    requires Picks(xs, stamp, from, to, r, at)
    ensures r == Within(xs, stamp, from, to)
  {
    PickOrder(xs, stamp, from, to, r, at, 0, 0);
    if xs == [] {
    } else {
      var n := |xs| - 1;
      if from <= stamp(xs[n]) <= to {
        LastPick(xs, stamp, from, to, r, at);
        hide Picks;
        PicksAreWithin(xs[..n], stamp, from, to, r[..|at| - 1], at[..|at| - 1]);
        assert r == r[..|at| - 1] + [r[|at| - 1]];
      } else {
        SkipLast(xs, stamp, from, to, r, at);
        hide Picks;
        PicksAreWithin(xs[..n], stamp, from, to, r, at);
        assert r + [] == r;
      }
    }
  }

  lemma LastPick<T>(xs: seq<T>, stamp: T -> nat, from: nat, to: nat, r: seq<T>, at: seq<nat>)
    requires xs != [] && Picks(xs, stamp, from, to, r, at) && from <= stamp(xs[|xs| - 1]) <= to
    ensures var n, m := |xs| - 1, |at| - 1;
      && m >= 0 && |r| == |at| && at[m] == n && r[m] == xs[n]
      && Picks(xs[..n], stamp, from, to, r[..m], at[..m])
  {
    var n, m := |xs| - 1, |at| - 1;
    PickOrder(xs, stamp, from, to, r, at, 0, 0);
    assert n in at;
    var k :| 0 <= k < |at| && at[k] == n;
    PickOrder(xs, stamp, from, to, r, at, k, m);
    PickOrder(xs, stamp, from, to, r, at, m, m);
    hide Picks;
    assert at == at[..m] + [n] && r == r[..m] + [xs[n]] by { PickValue(xs, stamp, from, to, r, at, m); }
    DropPick(xs, stamp, from, to, r[..m], at[..m]);
  }

  lemma PickValue<T>(xs: seq<T>, stamp: T -> nat, from: nat, to: nat, r: seq<T>, at: seq<nat>, k: nat)
    requires Picks(xs, stamp, from, to, r, at) && k < |at|
    ensures |r| == |at| && at[k] < |xs| && r[k] == xs[at[k]]
  {}

  lemma DropPick<T>(xs: seq<T>, stamp: T -> nat, from: nat, to: nat, r: seq<T>, at: seq<nat>)
    requires xs != [] && Picks(xs, stamp, from, to, r + [xs[|xs| - 1]], at + [|xs| - 1])
    ensures Picks(xs[..|xs| - 1], stamp, from, to, r, at)
  {
    var n := |xs| - 1;
    var longer := at + [n];
    assert forall k :: 0 <= k < |at| ==> longer[k] == at[k] && (r + [xs[n]])[k] == r[k];
    assert forall k :: 0 <= k < |at| ==> longer[k] < longer[|at|];
    forall i: nat | i < n ensures i in at <==> from <= stamp(xs[..n][i]) <= to {
      assert xs[..n][i] == xs[i] && (i in longer <==> i in at);
    }
  }

  /** Membership, without the positions. */
  lemma WithinMembers<T>(xs: seq<T>, stamp: T -> nat, from: nat, to: nat)
    ensures forall x :: x in Within(xs, stamp, from, to) <==> x in xs && from <= stamp(x) <= to
  {
    var r := Within(xs, stamp, from, to);
    var at := WithinPicks(xs, stamp, from, to);
    forall x ensures x in r <==> x in xs && from <= stamp(x) <= to {
      if x in r {
        var k :| 0 <= k < |r| && r[k] == x;
        assert at[k] in at && xs[at[k]] == x;
      }
      if x in xs && from <= stamp(x) <= to {
        var i: nat :| i < |xs| && xs[i] == x;
        assert i in at;
        var k :| 0 <= k < |at| && at[k] == i;
        assert r[k] == x;
      }
    }
  }
}
