/** The pool monitor as it runs: two rings of storage slots written in place, read back by walking them. The ghost
    log is the full history of recordings; every query is stated against it. */
module LiquidityPoolContract {
  import opened Quotients
  import opened IntegerRoot
  import opened RingBuffers
  import opened LiquidityPool
  import opened WindowFilters

  datatype Found<T> = Nothing | Just(value: T)

  function StampOf(s: Snapshot): nat { s.timestamp }
  function StartOf(b: Bucket): nat { b.day }

  class PoolMonitor {
    var snapshots: map<nat, Snapshot>
    var head: nat
    var count: nat
    var daily: map<nat, Bucket>
    var dailyHead: nat
    var dailyCount: nat
    ghost var log: seq<Snapshot>

    ghost predicate Valid()
      reads this
    {
      && Holds(snapshots, head, count, MAX_SNAPSHOTS, log)
      && Holds(daily, dailyHead, dailyCount, MAX_DAILY_BUCKETS, Buckets(log))
    }

    constructor ()
      ensures Valid() && log == []
    {
      snapshots, head, count := map[], 0, 0;
      daily, dailyHead, dailyCount := map[], 0, 0;
      log := [];
    }

    /** Appends one snapshot to the history, whatever has been recorded before. */
    method RecordPoolState(reserveA: int, reserveB: int, shares: int, volume: int, fees: int, kind: PoolType, now: nat)
      requires Valid()
      modifies this
      ensures Valid()
      ensures log == old(log) + [
                Snapshot(reserveA, reserveB, shares, Price(reserveA, reserveB), volume, fees, kind, now)]
    {
      var price := 0;
      if reserveA > 0 { price := Truncate(reserveB * PRECISION, reserveA); }
      var snapshot := Snapshot(reserveA, reserveB, shares, price, volume, fees, kind, now);
      PushHolds(snapshots, head, count, MAX_SNAPSHOTS, log, snapshot);
      snapshots := snapshots[head := snapshot];
      head := (head + 1) % MAX_SNAPSHOTS;
      count := count + 1;
      UpdateDailyBucket(snapshot);
      assert (log + [snapshot])[..|log|] == log;
      log := log + [snapshot];
    }

    /** Update the bucket of the day with one more snapshot. */
    static method Merge(start: Bucket, s: Snapshot) returns (b: Bucket)
      ensures b == Merged(start, s)
    {
      b := start;
      if s.price > b.high { b := b.(high := s.price); }
      if s.price < b.low { b := b.(low := s.price); }
      b := b.(close := s.price);
      b := b.(volume := b.volume + s.volume, fees := b.fees + s.fees);
      var n := b.count;
      b := b.(avgA := Truncate(b.avgA * n + s.reserveA, n + 1));
      b := b.(avgB := Truncate(b.avgB * n + s.reserveB, n + 1));
      b := b.(count := n + 1);
    }

    method UpdateDailyBucket(s: Snapshot)
      requires Holds(daily, dailyHead, dailyCount, MAX_DAILY_BUCKETS, Buckets(log))
      modifies this`daily, this`dailyHead, this`dailyCount
      ensures Holds(daily, dailyHead, dailyCount, MAX_DAILY_BUCKETS, WithSnapshot(Buckets(log), s))
    {
      hide Merged;
      var day := s.timestamp / DAY_SECS * DAY_SECS;
      if dailyCount > 0 {
        var last := if dailyHead == 0 then MAX_DAILY_BUCKETS - 1 else dailyHead - 1;
        NewestSlot(dailyHead, dailyCount, MAX_DAILY_BUCKETS);
        if last in daily && daily[last].day == day {
          var b := Merge(daily[last], s);
          ReplaceNewestHolds(daily, dailyHead, dailyCount, MAX_DAILY_BUCKETS, Buckets(log), b);
          daily := daily[last := b];
          return;
        }
      }
      var b := Bucket(day, s.price, s.price, s.price, s.price, s.volume, s.fees, s.reserveA, s.reserveB, 1);
      PushHolds(daily, dailyHead, dailyCount, MAX_DAILY_BUCKETS, Buckets(log), b);
      daily := daily[dailyHead := b];
      dailyHead := (dailyHead + 1) % MAX_DAILY_BUCKETS;
      dailyCount := dailyCount + 1;
    }

    /** The last recorded snapshot, also right after the ring has wrapped. */
    method GetLatestSnapshot() returns (r: Found<Snapshot>)
      requires Valid()
      ensures r == if log == [] then Nothing else Just(log[|log| - 1])
    {
      if count == 0 { return Nothing; }
      var latest := if head == 0 then MAX_SNAPSHOTS - 1 else head - 1;
      NewestSlot(head, count, MAX_SNAPSHOTS);
      if latest !in snapshots { return Nothing; }
      r := Just(snapshots[latest]);
    }

    /** Exactly the retained snapshots stamped within the window, oldest first. */
    method GetSnapshotsInWindow(from: nat, to: nat) returns (result: seq<Snapshot>)
      requires Valid()
      ensures result == Within(Retained(log, 720), StampOf, from, to)
    {
      var actual := if count > MAX_SNAPSHOTS then MAX_SNAPSHOTS else count;
      result := [];
      if actual == 0 { return; }
      var start := if count > MAX_SNAPSHOTS then head else 0;
      ghost var kept := Retained(log, MAX_SNAPSHOTS);
      for i := 0 to actual
        invariant result == Within(kept[..i], StampOf, from, to)
      {
        assert kept[..i + 1][..i] == kept[..i];
        WalkFinds(snapshots, head, count, MAX_SNAPSHOTS, log, i);
        var idx := (start + i) % MAX_SNAPSHOTS;
        if idx in snapshots {
          var s := snapshots[idx];
          if s.timestamp >= from && s.timestamp <= to { result := result + [s]; }
        }
      }
      assert kept[..actual] == kept;
    }

    /** Exactly the retained buckets dated within the window, oldest first. */
    method GetDailyHistory(from: nat, to: nat) returns (result: seq<Bucket>)
      requires Valid()
      ensures result == Within(Retained(Buckets(log), 90), StartOf, from, to)
    {
      var actual := if dailyCount > MAX_DAILY_BUCKETS then MAX_DAILY_BUCKETS else dailyCount;
      result := [];
      if actual == 0 { return; }
      var start := if dailyCount > MAX_DAILY_BUCKETS then dailyHead else 0;
      ghost var kept := Retained(Buckets(log), MAX_DAILY_BUCKETS);
      for i := 0 to actual
        invariant result == Within(kept[..i], StartOf, from, to)
      {
        assert kept[..i + 1][..i] == kept[..i];
        WalkFinds(daily, dailyHead, dailyCount, MAX_DAILY_BUCKETS, Buckets(log), i);
        var idx := (start + i) % MAX_DAILY_BUCKETS;
        if idx in daily {
          var b := daily[idx];
          if b.day >= from && b.day <= to { result := result + [b]; }
        }
      }
      assert kept[..actual] == kept;
    }

    /** The loss against the price of the last recording, computed with the contract's own root. */
    method CalculateImpermanentLoss(entry: int, value: int) returns (l: Loss)
      requires Valid()
      ensures l == ImpermanentLoss(entry, if log == [] then 0 else log[|log| - 1].price, value)
    {
      var latest := GetLatestSnapshot();
      var current := if latest.Just? then latest.value.price else 0;
      if entry <= 0 || current <= 0 { return Loss(0, value, value, 0); }
      var ratio := Truncate(current * PRECISION, entry);
      var sqrtRatio := IsqrtSigned(ratio * PRECISION);
      var numerator := 2 * sqrtRatio;
      var denominator := PRECISION + ratio;
      var factor := 0;
      if denominator > 0 { factor := PRECISION - Truncate(numerator * PRECISION, denominator); }
      var il := if factor > 0 then factor else 0;
      var hodl := Truncate(value * (PRECISION + ratio), 2 * PRECISION);
      var now := Truncate(hodl * (PRECISION - il), PRECISION);
      l := Loss(il, now, hodl, hodl - now);
    }
  }

  // ---- What the daily history tells -------------------------------------------------------------------------------

  /** With time that never decreases, a daily history has ascending days of its window, each with the truth about all
      snapshots of that day, and misses no recorded day of its window that is not older than what is retained. */
  lemma HistoryIsFaithful(log: seq<Snapshot>, from: nat, to: nat)
    requires InTime(log)
    ensures var kept := Retained(Buckets(log), MAX_DAILY_BUCKETS); var r := Within(kept, StartOf, from, to);
      && (forall j, k :: 0 <= j < k < |r| ==> r[j].day < r[k].day)
      && (forall b :: b in r ==> from <= b.day <= to && Summarises(b, DaySnapshots(log, b.day)))
      && (forall i :: 0 <= i < |log| ==>
            var day := DayOf(log[i].timestamp);
            from <= day <= to && (|Buckets(log)| <= MAX_DAILY_BUCKETS || kept[0].day <= day) ==> HasDay(r, day))
  {
    var all := Buckets(log);
    BucketsFaithful(log);
    hide Within, Buckets, Summarises, DayOf, HasDay, Faithful;
    AscendingDays(all, log, from, to);
    TruthfulDays(all, log, from, to);
    forall i | 0 <= i < |log| && from <= DayOf(log[i].timestamp) <= to
               && (|all| <= MAX_DAILY_BUCKETS || Retained(all, MAX_DAILY_BUCKETS)[0].day <= DayOf(log[i].timestamp))
      ensures HasDay(Within(Retained(all, MAX_DAILY_BUCKETS), StartOf, from, to), DayOf(log[i].timestamp))
    {
      DayIsKept(all, log, from, to, i);
    }
  }

  lemma AscendingDays(all: seq<Bucket>, log: seq<Snapshot>, from: nat, to: nat)
    requires Faithful(all, log)
    ensures var r := Within(Retained(all, MAX_DAILY_BUCKETS), StartOf, from, to);
      forall j, k :: 0 <= j < k < |r| ==> r[j].day < r[k].day
  {
    hide Within, Summarises, DayOf, HasDay, DaySnapshots;
    var kept := Retained(all, MAX_DAILY_BUCKETS);
    var at := WithinPicks(kept, StartOf, from, to);
    var r := Within(kept, StartOf, from, to);
    forall j, k | 0 <= j < k < |r| ensures r[j].day < r[k].day { assert at[j] < at[k]; }
  }

  lemma TruthfulDays(all: seq<Bucket>, log: seq<Snapshot>, from: nat, to: nat)
    requires Faithful(all, log)
    ensures forall b :: b in Within(Retained(all, MAX_DAILY_BUCKETS), StartOf, from, to) ==>
              from <= b.day <= to && Summarises(b, DaySnapshots(log, b.day))
  {
    hide Within, Summarises, DayOf, HasDay, DaySnapshots;
    WithinMembers(Retained(all, MAX_DAILY_BUCKETS), StartOf, from, to);
  }

  lemma DayIsKept(all: seq<Bucket>, log: seq<Snapshot>, from: nat, to: nat, i: nat)
    requires Faithful(all, log) && i < |log|
    requires from <= DayOf(log[i].timestamp) <= to
    requires |all| <= MAX_DAILY_BUCKETS || Retained(all, MAX_DAILY_BUCKETS)[0].day <= DayOf(log[i].timestamp)
    ensures HasDay(Within(Retained(all, MAX_DAILY_BUCKETS), StartOf, from, to), DayOf(log[i].timestamp))
  {
    hide Within, Summarises, DayOf, DaySnapshots;
    var kept, day := Retained(all, MAX_DAILY_BUCKETS), DayOf(log[i].timestamp);
    WithinMembers(kept, StartOf, from, to);
    assert HasDay(all, day);
    var n :| 0 <= n < |all| && all[n].day == day;
    var skip := |all| - |kept|;
    assert skip <= n;
    assert all[n] == kept[n - skip] && all[n] in Within(kept, StartOf, from, to);
  }
}
