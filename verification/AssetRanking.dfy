/** Ranking by weighted score: an insertion sort in place, and why its output does not depend on the input order. */
module AssetRanking {
  import opened Quotients

  type Code = string

  datatype Weights = Weights(health: nat, volume: nat, liquidity: nat, version: nat)
  datatype Input = Input(code: Code, health: nat, stability: nat, liquidity: nat)
  datatype Rank = Rank(code: Code, rank: nat, score: nat, timestamp: nat)

  predicate ValidWeights(w: Weights) { w.health + w.volume + w.liquidity == 100 }

  datatype Update = Set(weights: Weights) | Panic

  /** New weights must sum to 100; each change advances the version. */
  function SetWeights(current: Weights, health: nat, volume: nat, liquidity: nat): (u: Update)
    ensures u.Set? <==> health + volume + liquidity == 100
    ensures u.Set? ==> ValidWeights(u.weights) && u.weights.version == current.version + 1
  {
    if health + volume + liquidity != 100 then Panic
    else Set(Weights(health, volume, liquidity, current.version + 1))
  }

  function Score(w: Weights, x: Input): nat {
    (x.health * w.health + x.stability * w.volume + x.liquidity * w.liquidity) / 100
  }

  /** A weighted mean of scores lies between the least and the greatest of them, so percentages give a percentage. */
  lemma ScoreIsMean(w: Weights, x: Input, lo: nat, hi: nat)
    requires ValidWeights(w)
    requires lo <= x.health <= hi && lo <= x.stability <= hi && lo <= x.liquidity <= hi
    ensures lo <= Score(w, x) <= hi
  {
    ProductMonotone(lo, x.health, w.health);
    ProductMonotone(lo, x.stability, w.volume);
    ProductMonotone(lo, x.liquidity, w.liquidity);
    ProductMonotone(x.health, hi, w.health);
    ProductMonotone(x.stability, hi, w.volume);
    ProductMonotone(x.liquidity, hi, w.liquidity);
    var sum := x.health * w.health + x.stability * w.volume + x.liquidity * w.liquidity;
    assert lo * w.health + lo * w.volume + lo * w.liquidity == lo * 100;
    assert hi * w.health + hi * w.volume + hi * w.liquidity == hi * 100;
    FloorMonotone(lo * 100, sum, 100);
    FloorMonotone(sum, hi * 100, 100);
  }

  // ---- The order --------------------------------------------------------------------------------------------------

  /** Codes compare character by character; a proper prefix comes first. */
  predicate Less(a: Code, b: Code) {
    b != [] && (a == [] || a[0] < b[0] || (a[0] == b[0] && Less(a[1..], b[1..])))
  }

  lemma {:induction false} LessTrichotomy(a: Code, b: Code)
    ensures Less(a, b) || a == b || Less(b, a)
    ensures !(Less(a, b) && Less(b, a)) && !Less(a, a)
  {
    if a != [] && b != [] {
      LessTrichotomy(a[1..], b[1..]);
      LessTrichotomy(a[1..], a[1..]);
      if a[0] == b[0] && a[1..] == b[1..] { assert a == [a[0]] + a[1..] && b == [b[0]] + b[1..]; }
    } else if a != [] {
      LessTrichotomy(a[1..], a[1..]);
    }
  }

  lemma {:induction false} LessTransitive(a: Code, b: Code, c: Code)
    requires Less(a, b) && Less(b, c)
    ensures Less(a, c)
  {
    if a != [] && a[0] == b[0] == c[0] {
      LessTransitive(a[1..], b[1..], c[1..]);
    }
  }

  /** The sort moves x ahead of y: higher score first, equal scores by code. */
  predicate Ahead(x: Rank, y: Rank) {
    x.score > y.score || (x.score == y.score && Less(x.code, y.code))
  }

  lemma AheadOrder(x: Rank, y: Rank, z: Rank)
    ensures !Ahead(x, y) && !Ahead(y, z) ==> !Ahead(x, z)
    ensures !(Ahead(x, y) && Ahead(y, x))
    ensures !Ahead(x, y) && !Ahead(y, x) ==> x.score == y.score && x.code == y.code
  {
    LessTrichotomy(x.code, y.code);
    LessTrichotomy(y.code, z.code);
    LessTrichotomy(x.code, z.code);
    if Less(x.code, z.code) && Less(z.code, y.code) { LessTransitive(x.code, z.code, y.code); }
    if Less(y.code, x.code) && Less(x.code, z.code) { LessTransitive(y.code, x.code, z.code); }
  }

  ghost predicate Sorted(s: seq<Rank>) {
    forall i, j :: 0 <= i < j < |s| ==> !Ahead(s[j], s[i])
  }

  // ---- The sort ---------------------------------------------------------------------------------------------------

  /** Everything but the hole at j is in order, and what was shifted past the hole comes after the lifted record. */
  ghost predicate Shifting(s: seq<Rank>, i: nat, j: nat, current: Rank) {
    && j <= i < |s|
    && (forall k, m :: 0 <= k < m <= i && k != j && m != j ==> !Ahead(s[m], s[k]))
    && (forall k :: j < k <= i ==> Ahead(current, s[k]))
  }

  lemma ShiftStep(s: seq<Rank>, i: nat, j: nat, current: Rank)
    requires Shifting(s, i, j, current) && j > 0 && Ahead(current, s[j - 1])
    ensures Shifting(s[j := s[j - 1]], i, j - 1, current)
  {
    hide Ahead;
    var t := s[j := s[j - 1]];
    forall k, m | 0 <= k < m <= i && k != j - 1 && m != j - 1 ensures !Ahead(t[m], t[k]) {
      assert !Ahead(s[if m == j then j - 1 else m], s[if k == j then j - 1 else k]);
    }
  }

  lemma ShiftKeeps(s: seq<Rank>, j: nat, current: Rank)
    requires 0 < j < |s|
    ensures multiset(s[j := s[j - 1]][j - 1 := current]) == multiset(s[j := current])
  {
    var a := s[j := current];
    assert s[j := s[j - 1]][j - 1 := current] == a[j := a[j - 1]][j - 1 := a[j]];
    SwapKeeps(a, j - 1, j);
  }

  lemma SwapKeeps(s: seq<Rank>, i: nat, j: nat)
    requires i < j < |s|
    ensures multiset(s[j := s[i]][i := s[j]]) == multiset(s)
  {}

  lemma PlaceHole(s: seq<Rank>, i: nat, j: nat, current: Rank)
    requires Shifting(s, i, j, current) && (j > 0 ==> !Ahead(current, s[j - 1]))
    ensures Sorted(s[j := current][..i + 1])
  {
    var t := s[j := current];
    forall k, m | 0 <= k < m < i + 1 ensures !Ahead(t[m], t[k]) {
      if m == j {
        if k < j - 1 { AheadOrder(current, s[j - 1], s[k]); }
      } else if k == j {
        AheadOrder(current, s[m], s[m]);
      }
    }
  }

  /** One round of the sort: lift the record at i, shift larger ones right, drop it into the hole. */
  method Insert(a: array<Rank>, i: nat)
    requires i < a.Length && Sorted(a[..i])
    modifies a
    ensures Sorted(a[..i + 1]) && multiset(a[..]) == multiset(old(a[..]))
  {
    hide Sorted, Shifting;
    var current := a[i];
    var j := i;
    ghost var was := a[..];
    assert was[i := current] == was;
    LiftHole(was, i);
    while j > 0
      invariant 0 <= j <= i && Shifting(a[..], i, j, current)
      invariant multiset(a[..][j := current]) == multiset(was)
    {
      var prev := a[j - 1];
      var shouldSwap := current.score > prev.score || (current.score == prev.score && Less(current.code, prev.code));
      if !shouldSwap { break; }
      ghost var before := a[..];
      ShiftStep(before, i, j, current);
      ShiftKeeps(before, j, current);
      a[j] := prev;
      assert a[..] == before[j := before[j - 1]];
      j := j - 1;
    }
    ghost var before := a[..];
    PlaceHole(before, i, j, current);
    a[j] := current;
    assert a[..] == before[j := current];
    assert a[..i + 1] == a[..][..i + 1];
  }

  lemma LiftHole(s: seq<Rank>, i: nat)
    requires i < |s| && Sorted(s[..i])
    ensures Shifting(s, i, i, s[i])
  {
    forall k, m | 0 <= k < m < i ensures !Ahead(s[m], s[k]) {
      assert s[..i][m] == s[m] && s[..i][k] == s[k];
    }
  }

  /** The contract's insertion sort. */
  method InsertionSort(a: array<Rank>)
    modifies a
    ensures Sorted(a[..]) && multiset(a[..]) == multiset(old(a[..]))
  {
    if a.Length == 0 { return; }
    for i := 1 to a.Length
      invariant Sorted(a[..i]) && multiset(a[..]) == multiset(old(a[..]))
    {
      Insert(a, i);
    }
    assert a[..a.Length] == a[..];
  }

  // ---- The ranking ------------------------------------------------------------------------------------------------

  function Scored(w: Weights, assets: seq<Input>, now: nat): seq<Rank> {
    seq(|assets|, i requires 0 <= i < |assets| => Rank(assets[i].code, 0, Score(w, assets[i]), now))
  }

  function Unranked(r: Rank): Rank { r.(rank := 0) }

  /** The scored inputs, every one once, best first with ties by code, numbered from one. */
  ghost predicate IsRanking(w: Weights, assets: seq<Input>, now: nat, ranked: seq<Rank>) {
    && |ranked| == |assets|
    && (forall i :: 0 <= i < |ranked| ==> ranked[i].rank == i + 1)
    && Sorted(ranked)
    && multiset(seq(|ranked|, i requires 0 <= i < |ranked| => Unranked(ranked[i]))) == multiset(Scored(w, assets, now))
  }

  method ComputeAllRankings(w: Weights, assets: seq<Input>, now: nat) returns (ranked: seq<Rank>)
    ensures IsRanking(w, assets, now, ranked)
  {
    hide Score;
    var scored := new Rank[|assets|](i requires 0 <= i < |assets| => Rank(assets[i].code, 0, Score(w, assets[i]), now));
    assert scored[..] == Scored(w, assets, now);
    InsertionSort(scored);
    ranked := [];
    for i := 0 to scored.Length
      invariant |ranked| == i
      invariant forall k :: 0 <= k < i ==> ranked[k] == scored[k].(rank := k + 1)
    {
      ranked := ranked + [scored[i].(rank := i + 1)];
    }
    SizeOf(scored[..], Scored(w, assets, now));
    AllUnranked(scored[..], w, assets, now);
    Renumbered(scored[..], ranked);
  }

  /** The score is the health, stability and liquidity of the asset, each by its own weight, in hundredths rounded
      down. */
  ghost predicate ScoredAs(r: Rank, x: Input, w: Weights, now: nat) {
    r.code == x.code && r.timestamp == now
    && IsQuotient(r.score, x.health * w.health + x.stability * w.volume + x.liquidity * w.liquidity, 100)
  }

  lemma ScoreExact(w: Weights, x: Input, now: nat)
    ensures ScoredAs(Rank(x.code, 0, Score(w, x), now), x, w, now)
  {
    QuotientIs(x.health * w.health + x.stability * w.volume + x.liquidity * w.liquidity, 100);
  }

  /** Every place of a ranking is held by one of the assets with its score, and every asset holds a place. */
  lemma RankedScores(w: Weights, assets: seq<Input>, now: nat, ranked: seq<Rank>)
    requires IsRanking(w, assets, now, ranked)
    ensures forall i :: 0 <= i < |ranked| ==> exists x :: x in assets && ScoredAs(ranked[i], x, w, now)
    ensures forall x :: x in assets ==> exists r :: r in ranked && ScoredAs(r, x, w, now)
  {
    hide Score, ScoredAs, Sorted;
    var scored := Scored(w, assets, now);
    var plain := seq(|ranked|, i requires 0 <= i < |ranked| => Unranked(ranked[i]));
    assert forall r :: r in plain <==> r in scored by {
      assert forall r :: r in plain <==> r in multiset(plain);
      assert forall r :: r in scored <==> r in multiset(scored);
    }
    forall i | 0 <= i < |ranked| ensures exists x :: x in assets && ScoredAs(ranked[i], x, w, now) {
      assert plain[i] in scored;
      var j :| 0 <= j < |scored| && scored[j] == plain[i];
      ScoreExact(w, assets[j], now);
      RankIsAside(ranked[i], assets[j], w, now);
      assert assets[j] in assets;
    }
    forall x | x in assets ensures exists r :: r in ranked && ScoredAs(r, x, w, now) {
      var j :| 0 <= j < |assets| && assets[j] == x;
      assert scored[j] in plain;
      var i :| 0 <= i < |plain| && plain[i] == scored[j];
      ScoreExact(w, x, now);
      RankIsAside(ranked[i], x, w, now);
      assert ranked[i] in ranked;
    }
  }

  lemma RankIsAside(r: Rank, x: Input, w: Weights, now: nat)
    ensures ScoredAs(Unranked(r), x, w, now) <==> ScoredAs(r, x, w, now)
  {}

  lemma SizeOf(s: seq<Rank>, t: seq<Rank>)
    requires multiset(s) == multiset(t)
    ensures |s| == |t|
  {
    assert |multiset(s)| == |s| && |multiset(t)| == |t|;
  }

  lemma AllUnranked(s: seq<Rank>, w: Weights, assets: seq<Input>, now: nat)
    requires multiset(s) == multiset(Scored(w, assets, now))
    ensures forall r :: r in s ==> r.rank == 0 && r.timestamp == now
  {
    forall r | r in s ensures r.rank == 0 && r.timestamp == now {
      assert r in multiset(s);
      assert r in Scored(w, assets, now);
    }
  }

  lemma Renumbered(s: seq<Rank>, ranked: seq<Rank>)
    requires |ranked| == |s| && Sorted(s)
    requires forall k :: 0 <= k < |s| ==> ranked[k] == s[k].(rank := k + 1) && s[k].rank == 0
    ensures Sorted(ranked)
    ensures seq(|ranked|, i requires 0 <= i < |ranked| => Unranked(ranked[i])) == s
  {
    forall i, j | 0 <= i < j < |ranked| ensures !Ahead(ranked[j], ranked[i]) {
      assert !Ahead(s[j], s[i]);
    }
  }

  // ---- Order independence -----------------------------------------------------------------------------------------

  /** Equal keys mean equal records. */
  ghost predicate KeyedRecords(s: seq<Rank>) {
    forall x, y :: x in s && y in s && x.score == y.score && x.code == y.code ==> x == y
  }

  lemma HeadsAgree(s: seq<Rank>, t: seq<Rank>)
    requires s != [] && t != [] && Sorted(s) && Sorted(t) && multiset(s) == multiset(t) && KeyedRecords(s)
    ensures s[0] == t[0]
  {
    assert s[0] in multiset(t) && t[0] in multiset(s);
    AheadOrder(s[0], t[0], t[0]);
    hide Ahead;
    var i :| 0 <= i < |t| && t[i] == s[0];
    var j :| 0 <= j < |s| && s[j] == t[0];
    assert j > 0 ==> !Ahead(s[j], s[0]);
    assert i > 0 ==> !Ahead(t[i], t[0]);
    assert s[j] in s && s[0] in s;
  }

  lemma TailCounts(s: seq<Rank>)
    requires s != []
    ensures multiset(s[1..]) == multiset(s) - multiset{s[0]}
  {
    assert s == [s[0]] + s[1..];
  }

  /** A multiset has one sorted arrangement. */
  lemma {:induction false} SortedUnique(s: seq<Rank>, t: seq<Rank>)
    requires Sorted(s) && Sorted(t) && multiset(s) == multiset(t) && KeyedRecords(s)
    ensures s == t
  {
    SizeOf(s, t);
    if s == [] {
    } else {
      HeadsAgree(s, t);
      TailCounts(s);
      TailCounts(t);
      TailSorted(s);
      TailSorted(t);
      hide Sorted;
      assert s == [s[0]] + s[1..] && t == [t[0]] + t[1..];
      SortedUnique(s[1..], t[1..]);
    }
  }

  lemma TailSorted(s: seq<Rank>)
    requires s != [] && Sorted(s)
    ensures Sorted(s[1..])
    ensures KeyedRecords(s) ==> KeyedRecords(s[1..])
  {
    hide Ahead;
  }

  /** Taking out position j takes out one copy of what is there. */
  lemma TakeOut<T>(s: seq<T>, j: nat)
    requires j < |s|
    ensures multiset(s[..j] + s[j + 1..]) == multiset(s) - multiset{s[j]}
  {
    assert s == s[..j] + [s[j]] + s[j + 1..];
  }

  lemma ScoredTakeOut(w: Weights, xs: seq<Input>, j: nat, now: nat)
    requires j < |xs|
    ensures multiset(Scored(w, xs[..j] + xs[j + 1..], now))
            == multiset(Scored(w, xs, now)) - multiset{Scored(w, xs, now)[j]}
  {
    hide Score;
    var s := Scored(w, xs, now);
    assert Scored(w, xs[..j] + xs[j + 1..], now) == s[..j] + s[j + 1..];
    TakeOut(s, j);
  }

  lemma PutBack<T>(a: multiset<T>, b: multiset<T>, x: T)
    requires x in a && x in b && a - multiset{x} == b - multiset{x}
    ensures a == b
  {
    assert a == a - multiset{x} + multiset{x} && b == b - multiset{x} + multiset{x};
  }

  /** The position of one copy of a record. */
  lemma Locate<T>(ys: seq<T>, x: T) returns (j: nat)
    requires x in multiset(ys)
    ensures j < |ys| && ys[j] == x
  {
    j :| 0 <= j < |ys| && ys[j] == x;
  }

  lemma {:induction false} ScoredPermutes(w: Weights, xs: seq<Input>, ys: seq<Input>, now: nat)
    requires multiset(xs) == multiset(ys)
    ensures multiset(Scored(w, xs, now)) == multiset(Scored(w, ys, now))
    decreases |xs|, 1
  {
    assert |multiset(xs)| == |xs| && |multiset(ys)| == |ys|;
    if xs == [] {
    } else {
      hide Score;
      assert xs[0] in multiset(xs);
      var j := Locate(ys, xs[0]);
      var s, t := Scored(w, xs, now), Scored(w, ys, now);
      assert s[0] == t[j] && s[0] in multiset(s) && t[j] in multiset(t);
      hide Scored;
      ScoredRest(w, xs, ys, j, now);
      PutBack(multiset(s), multiset(t), s[0]);
    }
  }

  lemma ScoredRest(w: Weights, xs: seq<Input>, ys: seq<Input>, j: nat, now: nat)
    requires multiset(xs) == multiset(ys) && xs != [] && j < |ys| && ys[j] == xs[0]
    ensures multiset(Scored(w, xs, now)) - multiset{Scored(w, xs, now)[0]}
            == multiset(Scored(w, ys, now)) - multiset{Scored(w, ys, now)[j]}
    decreases |xs|, 0
  {
    var xr, yr := xs[..0] + xs[0 + 1..], ys[..j] + ys[j + 1..];
    SameRest(xs, ys, j);
    ScoredPermutes(w, xr, yr, now);
    ScoredTakeOut(w, ys, j, now);
    ScoredTakeOut(w, xs, 0, now);
    hide Scored;
  }

  lemma SameRest<T>(xs: seq<T>, ys: seq<T>, j: nat)
    requires multiset(xs) == multiset(ys) && xs != [] && j < |ys| && ys[j] == xs[0]
    ensures multiset(xs[..0] + xs[0 + 1..]) == multiset(ys[..j] + ys[j + 1..])
  {
    TakeOut(ys, j);
    TakeOut(xs, 0);
  }

  /** Any reordering of the inputs gives the identical ranking. */
  lemma RankingIgnoresInputOrder(w: Weights, xs: seq<Input>, ys: seq<Input>, now: nat, r: seq<Rank>, q: seq<Rank>)
    requires multiset(xs) == multiset(ys) && IsRanking(w, xs, now, r) && IsRanking(w, ys, now, q)
    ensures r == q
  {
    ScoredPermutes(w, xs, ys, now);
    hide Score;
    var s := seq(|r|, i requires 0 <= i < |r| => Unranked(r[i]));
    var t := seq(|q|, i requires 0 <= i < |q| => Unranked(q[i]));
    forall i, j | 0 <= i < j < |s| ensures !Ahead(s[j], s[i]) { assert !Ahead(r[j], r[i]); }
    forall i, j | 0 <= i < j < |t| ensures !Ahead(t[j], t[i]) { assert !Ahead(q[j], q[i]); }
    AllUnranked(s, w, xs, now);
    hide Sorted, Unranked;
    SortedUnique(s, t);
    forall i | 0 <= i < |r| ensures r[i] == q[i] {
      assert Unranked(r[i]) == s[i] == t[i] == Unranked(q[i]);
    }
  }
}
