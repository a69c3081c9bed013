/** Snapshots, daily buckets and impermanent loss of one monitored pool. */
module LiquidityPool {
  import opened Sums
  import opened Quotients
  import opened IntegerRoot

  const MAX_SNAPSHOTS := 720
  const MAX_DAILY_BUCKETS := 90
  const DAY_SECS := 86_400
  const PRECISION := 10_000_000

  datatype PoolType = Sdex | Amm

  datatype Snapshot = Snapshot(
    reserveA: int, reserveB: int, totalShares: int, price: int, volume: int, fees: int,
    poolType: PoolType, timestamp: nat)

  datatype Bucket = Bucket(
    day: nat, open: int, high: int, low: int, close: int, volume: int, fees: int,
    avgA: int, avgB: int, count: nat)

  function Price(reserveA: int, reserveB: int): int {
    if reserveA > 0 then Truncate(reserveB * PRECISION, reserveA) else 0
  }

  function DayOf(timestamp: nat): nat { timestamp / DAY_SECS * DAY_SECS }

  // ---- Daily buckets ----------------------------------------------------------------------------------------------

  function NewBucket(s: Snapshot): Bucket {
    Bucket(DayOf(s.timestamp), s.price, s.price, s.price, s.price, s.volume, s.fees, s.reserveA, s.reserveB, 1)
  }

  function RunningAverage(avg: int, n: nat, x: int): int { Truncate(avg * n + x, n + 1) }

  function Merged(b: Bucket, s: Snapshot): Bucket {
    b.(high := if s.price > b.high then s.price else b.high,
       low := if s.price < b.low then s.price else b.low,
       close := s.price, volume := b.volume + s.volume, fees := b.fees + s.fees,
       avgA := RunningAverage(b.avgA, b.count, s.reserveA), avgB := RunningAverage(b.avgB, b.count, s.reserveB),
       count := b.count + 1)
  }

  /** The newest bucket absorbs a snapshot of its own day; any other snapshot opens a bucket. */
  function WithSnapshot(bs: seq<Bucket>, s: Snapshot): seq<Bucket> {
    if bs != [] && bs[|bs| - 1].day == DayOf(s.timestamp)
    then bs[|bs| - 1 := Merged(bs[|bs| - 1], s)] else bs + [NewBucket(s)]
  }

  /** All buckets ever opened by a history of snapshots. */
  function Buckets(log: seq<Snapshot>): seq<Bucket> {
    if log == [] then [] else WithSnapshot(Buckets(log[..|log| - 1]), log[|log| - 1])
  }

  /** The snapshots of one day, in order. */
  function DaySnapshots(log: seq<Snapshot>, day: nat): seq<Snapshot> {
    if log == [] then []
    else DaySnapshots(log[..|log| - 1], day)
         + if DayOf(log[|log| - 1].timestamp) == day then [log[|log| - 1]] else []
  }

  /** Ledger time never decreases. */
  ghost predicate InTime(log: seq<Snapshot>) {
    forall i, j :: 0 <= i < j < |log| ==> log[i].timestamp <= log[j].timestamp
  }

  ghost predicate IsMax(x: int, xs: seq<int>) { x in xs && forall y :: y in xs ==> y <= x }
  ghost predicate IsMin(x: int, xs: seq<int>) { x in xs && forall y :: y in xs ==> x <= y }

  function Prices(ss: seq<Snapshot>): seq<int> { seq(|ss|, i requires 0 <= i < |ss| => ss[i].price) }
  function Volumes(ss: seq<Snapshot>): seq<int> { seq(|ss|, i requires 0 <= i < |ss| => ss[i].volume) }
  function Fees(ss: seq<Snapshot>): seq<int> { seq(|ss|, i requires 0 <= i < |ss| => ss[i].fees) }
  function ReservesA(ss: seq<Snapshot>): seq<int> { seq(|ss|, i requires 0 <= i < |ss| => ss[i].reserveA) }
  function ReservesB(ss: seq<Snapshot>): seq<int> { seq(|ss|, i requires 0 <= i < |ss| => ss[i].reserveB) }

  /** A running average of non-negative values: n times it falls short of their sum by at most n(n-1)/2, and it lies
      between the least and the greatest of them. */
  ghost predicate Averages(avg: int, xs: seq<int>) {
    (forall x :: x in xs ==> x >= 0) ==>
      && 0 <= 2 * (SumSeq(xs) - |xs| * avg) <= |xs| * (|xs| - 1)
      && (exists x :: x in xs && x <= avg) && (exists x :: x in xs && avg <= x)
  }

  /** A bucket tells the truth about the snapshots of its day. */
  ghost predicate Summarises(b: Bucket, ss: seq<Snapshot>) {
    && ss != [] && b.count == |ss|
    && b.open == ss[0].price && b.close == ss[|ss| - 1].price
    && IsMax(b.high, Prices(ss)) && IsMin(b.low, Prices(ss))
    && b.volume == SumSeq(Volumes(ss)) && b.fees == SumSeq(Fees(ss))
    && Averages(b.avgA, ReservesA(ss)) && Averages(b.avgB, ReservesB(ss))
  }

  lemma AverageOfOne(x: int)
    ensures Averages(x, [x])
  {
    assert SumSeq([x]) == x by { assert [x][..0] == []; }
    assert x in [x];
  }

  lemma AverageStep(avg: int, xs: seq<int>, x: int)
    requires xs != [] && Averages(avg, xs)
    ensures Averages(RunningAverage(avg, |xs|, x), xs + [x])
  {
    if forall y :: y in xs + [x] ==> y >= 0 {
      assert forall y :: y in xs ==> y in xs + [x];
      assert x in xs + [x];
      var n, next := |xs|, RunningAverage(avg, |xs|, x);
      SumSeqAppend(xs, x);
      var lo :| lo in xs && lo <= avg;
      var hi :| hi in xs && avg <= hi;
      AverageArithmetic(avg, n, x, SumSeq(xs), next);
      assert (exists y :: y in xs + [x] && y <= next) by { assert lo in xs + [x]; }
      assert (exists y :: y in xs + [x] && next <= y) by { assert hi in xs + [x]; }
    }
  }

  lemma AverageArithmetic(avg: int, n: nat, x: int, sum: int, next: int)
    requires n >= 1 && avg >= 0 && x >= 0 && next == RunningAverage(avg, n, x)
    requires 0 <= 2 * (sum - n * avg) <= n * (n - 1)
    ensures 0 <= 2 * (sum + x - (n + 1) * next) <= (n + 1) * n
    ensures avg <= next <= x || x <= next <= avg
  {
    var t := avg * n + x;
    ProductMonotone(0, avg, n);
    FloorBounds(t, n + 1);
    RoundingStep(n, avg, x, sum, next);
    WeightedBetween(avg, x, n);
  }

  lemma RoundingStep(n: nat, avg: int, x: int, sum: int, next: int)
    requires n >= 1 && next * (n + 1) <= avg * n + x < (next + 1) * (n + 1)
    requires 0 <= 2 * (sum - n * avg) <= n * (n - 1)
    ensures 0 <= 2 * (sum + x - (n + 1) * next) <= (n + 1) * n
  {
    var r := avg * n + x - next * (n + 1);
    assert (next + 1) * (n + 1) == next * (n + 1) + n + 1;
    assert 0 <= r <= n;
    assert (n + 1) * n == n * (n - 1) + 2 * n;
  }

  lemma WeightedBetween(avg: int, x: int, n: nat)
    requires n >= 1
    ensures var next := (avg * n + x) / (n + 1); avg <= next <= x || x <= next <= avg
  {
    var t := avg * n + x;
    FloorExact(avg, n + 1);
    FloorExact(x, n + 1);
    assert avg * (n + 1) == avg * n + avg && x * (n + 1) == x * n + x;
    if avg <= x {
      ProductMonotone(avg, x, n);
      FloorMonotone(avg * (n + 1), t, n + 1);
      FloorMonotone(t, x * (n + 1), n + 1);
    } else {
      ProductMonotone(x, avg, n);
      FloorMonotone(x * (n + 1), t, n + 1);
      FloorMonotone(t, avg * (n + 1), n + 1);
    }
  }

  lemma MapsOf(ss: seq<Snapshot>, s: Snapshot)
    ensures Prices(ss + [s]) == Prices(ss) + [s.price]
    ensures Volumes(ss + [s]) == Volumes(ss) + [s.volume] && Fees(ss + [s]) == Fees(ss) + [s.fees]
    ensures ReservesA(ss + [s]) == ReservesA(ss) + [s.reserveA] && ReservesB(ss + [s]) == ReservesB(ss) + [s.reserveB]
  {}

  lemma SingletonSum(xs: seq<int>)
    requires |xs| == 1
    ensures SumSeq(xs) == xs[0]
  {
    assert xs[..0] == [];
  }

  lemma NewSummarises(s: Snapshot)
    ensures Summarises(NewBucket(s), [s])
  {
    hide Averages, SumSeq;
    AverageOfOne(s.reserveA);
    AverageOfOne(s.reserveB);
    assert ReservesA([s]) == [s.reserveA] && ReservesB([s]) == [s.reserveB];
    SingletonSum(Volumes([s]));
    SingletonSum(Fees([s]));
    assert Prices([s]) == [s.price];
    assert IsMax(s.price, [s.price]) && IsMin(s.price, [s.price]);
  }

  lemma MergedSummarises(b: Bucket, ss: seq<Snapshot>, s: Snapshot)
    requires Summarises(b, ss)
    ensures Summarises(Merged(b, s), ss + [s])
  {
    MapsOf(ss, s);
    SumSeqAppend(Volumes(ss), s.volume);
    SumSeqAppend(Fees(ss), s.fees);
    AverageStep(b.avgA, ReservesA(ss), s.reserveA);
    AverageStep(b.avgB, ReservesB(ss), s.reserveB);
    ExtremesStep(b, Prices(ss), s.price);
    hide Averages, RunningAverage, IsMax, IsMin;
  }

  lemma ExtremesStep(b: Bucket, xs: seq<int>, x: int)
    requires IsMax(b.high, xs) && IsMin(b.low, xs)
    ensures IsMax(if x > b.high then x else b.high, xs + [x])
    ensures IsMin(if x < b.low then x else b.low, xs + [x])
  {
    assert x in xs + [x];
    assert forall y :: y in xs + [x] <==> y in xs || y == x;
  }

  ghost predicate HasDay(bs: seq<Bucket>, day: nat) { exists b :: b in bs && b.day == day }

  ghost predicate Faithful(bs: seq<Bucket>, log: seq<Snapshot>) {
    && (forall i, j :: 0 <= i < j < |bs| ==> bs[i].day < bs[j].day)
    && (forall i :: 0 <= i < |bs| ==> Summarises(bs[i], DaySnapshots(log, bs[i].day)))
    && (forall i :: 0 <= i < |log| ==> HasDay(bs, DayOf(log[i].timestamp)))
    && (log == [] <==> bs == [])
    && (log != [] ==> bs[|bs| - 1].day == DayOf(log[|log| - 1].timestamp))
  }

  lemma {:induction false} NoSnapshots(log: seq<Snapshot>, day: nat)
    requires forall i :: 0 <= i < |log| ==> DayOf(log[i].timestamp) != day
    ensures DaySnapshots(log, day) == []
  {
    if log == [] {
    } else {
      NoSnapshots(log[..|log| - 1], day);
    }
  }

  lemma DayMonotone(a: nat, b: nat)
    requires a <= b
    ensures DayOf(a) <= DayOf(b)
  {
    FloorMonotone(a, b, DAY_SECS);
  }

  lemma DaysSoFar(init: seq<Snapshot>, s: Snapshot, log: seq<Snapshot>)
    requires log == init + [s] && InTime(log)
    ensures forall i :: 0 <= i < |init| ==>
              DayOf(init[i].timestamp) <= DayOf(init[|init| - 1].timestamp) <= DayOf(s.timestamp)
  {
    forall i | 0 <= i < |init|
      ensures DayOf(init[i].timestamp) <= DayOf(init[|init| - 1].timestamp) <= DayOf(s.timestamp)
    {
      assert log[i] == init[i] && log[|init| - 1] == init[|init| - 1] && log[|init|] == s;
      DayMonotone(log[i].timestamp, log[|init| - 1].timestamp);
      DayMonotone(log[|init| - 1].timestamp, log[|init|].timestamp);
    }
    hide DayOf;
  }

  /** With time that never decreases, days come in strictly ascending order, every recorded day has its bucket, and
      every bucket summarises exactly the snapshots of its day. */
  lemma {:induction false} BucketsFaithful(log: seq<Snapshot>)
    requires InTime(log)
    ensures Faithful(Buckets(log), log)
  {
    if log == [] {
    } else {
      var init, s := log[..|log| - 1], log[|log| - 1];
      assert log == init + [s];
      BucketsFaithful(init);
      DaysSoFar(init, s, log);
      BucketStep(Buckets(init), init, s);
      FaithfulStep(Buckets(init), init, s, log);
      hide *;
    }
  }

  /** The bucket of the day of a new snapshot, merged or new. */
  lemma BucketStep(bs: seq<Bucket>, init: seq<Snapshot>, s: Snapshot)
    requires Faithful(bs, init)
    requires forall i :: 0 <= i < |init| ==>
               DayOf(init[i].timestamp) <= DayOf(init[|init| - 1].timestamp) <= DayOf(s.timestamp)
    ensures bs != [] ==> bs[|bs| - 1].day <= DayOf(s.timestamp)
    ensures var day := DayOf(s.timestamp);
      if bs != [] && bs[|bs| - 1].day == day
      then Summarises(Merged(bs[|bs| - 1], s), DaySnapshots(init, day) + [s])
      else DaySnapshots(init, day) == [] && Summarises(NewBucket(s), [s])
  {
    hide DayOf, Summarises, Merged, NewBucket, HasDay, DaySnapshots;
    var day := DayOf(s.timestamp);
    if bs != [] && bs[|bs| - 1].day == day {
      MergedSummarises(bs[|bs| - 1], DaySnapshots(init, day), s);
    } else {
      NoSnapshots(init, day);
      NewSummarises(s);
    }
  }

  lemma DaysStay(bs: seq<Bucket>, s: Snapshot, day: nat)
    requires HasDay(bs, day)
    ensures HasDay(WithSnapshot(bs, s), day)
  {
    hide DayOf, RunningAverage;
    var i :| 0 <= i < |bs| && bs[i].day == day;
    assert WithSnapshot(bs, s)[i].day == day && WithSnapshot(bs, s)[i] in WithSnapshot(bs, s);
  }

  lemma DaysCovered(bs: seq<Bucket>, init: seq<Snapshot>, s: Snapshot, log: seq<Snapshot>)
    requires log == init + [s]
    requires forall i :: 0 <= i < |init| ==> HasDay(bs, DayOf(init[i].timestamp))
    ensures forall i :: 0 <= i < |log| ==> HasDay(WithSnapshot(bs, s), DayOf(log[i].timestamp))
  {
    hide DayOf, RunningAverage;
    forall i | 0 <= i < |log| ensures HasDay(WithSnapshot(bs, s), DayOf(log[i].timestamp)) {
      if i < |init| {
        DaysStay(bs, s, DayOf(init[i].timestamp));
      } else {
        var next := WithSnapshot(bs, s);
        assert next[|next| - 1] in next;
      }
    }
  }

  lemma FaithfulStep(bs: seq<Bucket>, init: seq<Snapshot>, s: Snapshot, log: seq<Snapshot>)
    requires log == init + [s] && Faithful(bs, init)
    requires bs != [] ==> bs[|bs| - 1].day <= DayOf(s.timestamp)
    requires var day := DayOf(s.timestamp);
      if bs != [] && bs[|bs| - 1].day == day
      then Summarises(Merged(bs[|bs| - 1], s), DaySnapshots(init, day) + [s])
      else DaySnapshots(init, day) == [] && Summarises(NewBucket(s), [s])
    ensures Faithful(WithSnapshot(bs, s), log)
  {
    hide Summarises, RunningAverage, DayOf, HasDay;
    assert log[..|log| - 1] == init;
    var day := DayOf(s.timestamp);
    var next := WithSnapshot(bs, s);
    forall i | 0 <= i < |next| ensures Summarises(next[i], DaySnapshots(log, next[i].day)) {
      if i < |next| - 1 {
        assert next[i] == bs[i] && next[i].day < day;
        assert DaySnapshots(log, next[i].day) == DaySnapshots(init, next[i].day);
      } else {
        assert DaySnapshots(log, day) == DaySnapshots(init, day) + [s];
        assert [] + [s] == [s];
      }
    }
    DaysCovered(bs, init, s, log);
  }

  // ---- Impermanent loss -------------------------------------------------------------------------------------------

  datatype Loss = Loss(ilPercentage: int, currentValue: int, hodlValue: int, netLoss: int)

  function PriceRatio(entry: int, current: int): int requires entry > 0 {
    Truncate(current * PRECISION, entry)
  }

  function RootOf(n: int): nat { if n <= 0 then 0 else Root(n) }

  /** The loss before it is clamped at zero. */
  function IlFactor(ratio: int): int {
    if PRECISION + ratio > 0
    then PRECISION - Truncate(2 * RootOf(ratio * PRECISION) * PRECISION, PRECISION + ratio) else 0
  }

  function ImpermanentLoss(entry: int, current: int, value: int): Loss {
    if entry <= 0 || current <= 0 then Loss(0, value, value, 0)
    else
      var ratio := PriceRatio(entry, current);
      var il := if IlFactor(ratio) > 0 then IlFactor(ratio) else 0;
      var hodl := Truncate(value * (PRECISION + ratio), 2 * PRECISION);
      var now := Truncate(hodl * (PRECISION - il), PRECISION);
      Loss(il, now, hodl, hodl - now)
  }

  /** Twice the root of a product is at most the sum of its factors, even after rounding. */
  lemma RootMean(a: nat, b: nat)
    ensures 2 * Root(a * b) <= a + b
  {
    var r := Root(a * b);
    assert r * r <= a * b by { RootIs(a * b); }
    hide *;
    MeanBound(a, b);
    SquareOfSum(r, r);
    assert (2 * r) * (2 * r) == (r + r) * (r + r);
    if a + b + 1 <= 2 * r {
      SquareMonotone(a + b + 1, 2 * r);
      SquareOfSum(a + b, 1);
    }
  }

  lemma FactorBounds(ratio: int)
    requires ratio >= 0
    ensures 0 <= IlFactor(ratio) <= PRECISION
  {
    var p: nat := PRECISION;
    var r := RootOf(ratio * p);
    if ratio > 0 { RootMean(ratio, p); }
    assert 0 <= 2 * r <= p + ratio;
    ProductMonotone(2 * r, p + ratio, p);
    FloorMonotone(2 * r * p, (p + ratio) * p, p + ratio);
    FloorMonotone(0, 2 * r * p, p + ratio);
    FloorExact(p, p + ratio);
    FloorExact(0, p + ratio);
  }

  /** For positive prices and a non-negative position the loss is between nothing and everything, the clamp never
      fires, and the position is never worth more than holding; equal prices lose nothing at all. */
  lemma LossBounds(entry: int, current: int, value: int)
    requires entry > 0 && current > 0 && value >= 0
    ensures var l := ImpermanentLoss(entry, current, value);
      && l.ilPercentage == IlFactor(PriceRatio(entry, current))
      && 0 <= l.ilPercentage <= PRECISION
      && 0 <= l.currentValue <= l.hodlValue && l.netLoss == l.hodlValue - l.currentValue >= 0
      && (entry == current ==> l == Loss(0, value, value, 0))
  {
    var ratio := PriceRatio(entry, current);
    FloorMonotone(0, current * PRECISION, entry);
    FloorExact(0, entry);
    FactorBounds(ratio);
    var l := ImpermanentLoss(entry, current, value);
    ProductMonotone(0, PRECISION + ratio, value);
    FloorMonotone(0, value * (PRECISION + ratio), 2 * PRECISION);
    assert l.hodlValue >= 0;
    ProductMonotone(0, PRECISION - l.ilPercentage, l.hodlValue);
    ProductMonotone(PRECISION - l.ilPercentage, PRECISION, l.hodlValue);
    FloorMonotone(0, l.hodlValue * (PRECISION - l.ilPercentage), PRECISION);
    FloorMonotone(l.hodlValue * (PRECISION - l.ilPercentage), l.hodlValue * PRECISION, PRECISION);
    FloorExact(l.hodlValue, PRECISION);
    if entry == current {
      assert current * PRECISION == PRECISION * entry;
      FloorExact(PRECISION, entry);
      RootOfSquare(PRECISION);
    }
  }
}
