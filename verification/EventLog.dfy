/** The replay log: ordering keys, filtered queries, and paging through a log that does not change. */
module EventLog {
  import opened Quotients
  import opened RingBuffers

  const SCHEMA_VERSION := 1
  const MAX_QUERY_LIMIT := 100
  const MAX_LOG_SIZE := 1_000
  const TWO32 := 0x1_0000_0000
  const TWO64 := 0x1_0000_0000_0000_0000

  type Address = nat

  datatype Entry = Entry(
    id: nat, eventType: string, actor: Address, subject: string, value: int, timestamp: nat, key: nat, schema: nat)

  datatype Wanted = Any | Only(what: string)
  datatype Filter = Filter(eventType: Wanted, asset: Wanted, from: nat, limit: nat)
  datatype QueryResult = QueryResult(events: seq<Entry>, totalMatched: nat, hasMore: bool, schema: nat)

  // ---- Ordering keys ----------------------------------------------------------------------------------------------

  /** The timestamp shifted left by 32 in 64 bits, with the sequence number in the low bits. */
  function OrderingKey(now: nat, seqNo: nat): nat {
    now * TWO32 % TWO64 + seqNo
  }

  lemma KeyIs(now: nat, seqNo: nat)
    ensures OrderingKey(now, seqNo) == now % TWO32 * TWO32 + seqNo
  {
    var q, r := now / TWO32, now % TWO32;
    assert now * TWO32 == TWO64 * q + r * TWO32;
    Residue(now * TWO32, TWO64, q, r * TWO32);
  }

  /** Keys of consecutive numbers ascend exactly when the low 32 bits of the time do not fall. */
  lemma KeysAscendIff(t: nat, u: nat, m: nat, n: nat)
    requires m < n < TWO32
    ensures OrderingKey(t, m) < OrderingKey(u, n) <==> t % TWO32 <= u % TWO32
  {
    KeyIs(t, m);
    KeyIs(u, n);
    ProductOrder(t % TWO32 + 1, u % TWO32, TWO32);
    ProductOrder(u % TWO32 + 1, t % TWO32, TWO32);
  }

  /** So with time that never decreases the order breaks only past 32 bits: the first second after them sorts before
      the last one within them. */
  lemma KeysWrap(m: nat, n: nat)
    requires m < n < TWO32
    ensures OrderingKey(TWO32, n) < OrderingKey(TWO32 - 1, m)
  {
    KeyIs(TWO32, n);
    KeyIs(TWO32 - 1, m);
  }

  // ---- The history ------------------------------------------------------------------------------------------------

  /** Entry i is the (i+1)st event, keyed by its time and number. */
  ghost predicate Numbered(all: seq<Entry>) {
    |all| < TWO32
    && forall i :: 0 <= i < |all| ==>
         all[i].id == i + 1 && all[i].key == OrderingKey(all[i].timestamp, i + 1) && all[i].schema == SCHEMA_VERSION
  }

  ghost predicate InTime(all: seq<Entry>) {
    (forall i :: 0 <= i < |all| ==> all[i].timestamp < TWO32)
    && forall i, j :: 0 <= i < j < |all| ==> all[i].timestamp <= all[j].timestamp
  }

  ghost predicate Ascending(log: seq<Entry>) {
    forall i, j :: 0 <= i < j < |log| ==> log[i].key < log[j].key
  }

  /** With ledger time below 2^32 that never decreases, the retained log is in strictly ascending key order. */
  lemma RetainedAscends(all: seq<Entry>)
    requires Numbered(all) && InTime(all)
    ensures Ascending(Retained(all, MAX_LOG_SIZE))
  {
    var log := Retained(all, MAX_LOG_SIZE);
    var skip := |all| - |log|;
    forall i, j | 0 <= i < j < |log| ensures log[i].key < log[j].key {
      assert log[i] == all[skip + i] && log[j] == all[skip + j];
      KeysAscendIff(all[skip + i].timestamp, all[skip + j].timestamp, skip + i + 1, skip + j + 1);
    }
  }

  // ---- Queries ----------------------------------------------------------------------------------------------------

  predicate Wants(w: Wanted, s: string) { w.Only? ==> s == w.what }

  predicate Matches(e: Entry, f: Filter) {
    e.key >= f.from && Wants(f.eventType, e.eventType) && Wants(f.asset, e.subject)
  }

  /** The matching entries, oldest first. */
  function Matching(log: seq<Entry>, f: Filter): (r: seq<Entry>)
    ensures |r| <= |log|
  {
    if log == [] then []
    else Matching(log[..|log| - 1], f) + if Matches(log[|log| - 1], f) then [log[|log| - 1]] else []
  }

  function Limit(f: Filter): nat {
    if f.limit > MAX_QUERY_LIMIT then MAX_QUERY_LIMIT else if f.limit == 0 then 50 else f.limit
  }

  function Prefix(s: seq<Entry>, n: nat): seq<Entry> { if |s| <= n then s else s[..n] }

  function Query(log: seq<Entry>, f: Filter): QueryResult {
    var all := Matching(log, f);
    QueryResult(Prefix(all, Limit(f)), |all|, |all| > |Prefix(all, Limit(f))|, SCHEMA_VERSION)
  }

  lemma {:induction false} MatchingMembers(log: seq<Entry>, f: Filter)
    ensures forall e :: e in Matching(log, f) <==> e in log && Matches(e, f)
    ensures Ascending(log) ==> Ascending(Matching(log, f))
  {
    if log == [] {
    } else {
      var init, last := log[..|log| - 1], log[|log| - 1];
      MatchingMembers(init, f);
      assert log == init + [last];
      var kept := Matching(init, f);
      if Ascending(log) {
        forall i | 0 <= i < |kept| ensures kept[i].key < last.key {
          assert kept[i] in init;
        }
      }
    }
  }

  lemma LaterCursor(e: Entry, f: Filter, from: nat)
    requires f.from <= from
    ensures Matches(e, f.(from := from)) <==> Matches(e, f) && e.key >= from
    ensures Matches(e, f) ==> e.key >= f.from
  {}

  /** A later cursor keeps, of the matches, those at or past it. */
  lemma {:induction false} MatchingLater(log: seq<Entry>, f: Filter, from: nat)
    requires f.from <= from
    ensures Matching(log, f.(from := from)) == Matching(Matching(log, f), f.(from := from))
  {
    hide Matches;
    if log == [] {
    } else {
      var init, last := log[..|log| - 1], log[|log| - 1];
      MatchingLater(init, f, from);
      LaterCursor(last, f, from);
      var kept := Matching(init, f);
      if Matches(last, f) {
        var all := Matching(log, f);
        assert all == kept + [last] && all[..|all| - 1] == kept;
      } else {
        assert Matching(log, f) == kept;
      }
    }
  }

  /** Of ascending entries that all match, a cursor keeps a suffix. */
  lemma {:induction false} CursorCuts(all: seq<Entry>, f: Filter, from: nat, n: nat)
    requires Ascending(all) && n <= |all| && f.from <= from
    requires forall i :: 0 <= i < |all| ==> Matches(all[i], f) && (all[i].key >= from <==> i >= n)
    ensures Matching(all, f.(from := from)) == all[n..]
  {
    hide Matches;
    if all == [] {
    } else {
      var init, last := all[..|all| - 1], all[|all| - 1];
      LaterCursor(last, f, from);
      if n < |all| {
        CursorCuts(init, f, from, n);
        assert all[n..] == init[n..] + [last];
      } else {
        CursorCuts(init, f, from, n - 1);
        assert all[n..] == [] && init[n - 1..] == [];
      }
    }
  }

  /** Moving the cursor just past the entry at position n - 1 of the matches leaves exactly the rest of them. */
  lemma MatchingAfter(log: seq<Entry>, f: Filter, n: nat)
    requires Ascending(log) && 0 < n <= |Matching(log, f)|
    ensures Matching(log, f.(from := Matching(log, f)[n - 1].key + 1)) == Matching(log, f)[n..]
  {
    MatchingMembers(log, f);
    var all := Matching(log, f);
    hide Matching;
    forall i | 0 <= i < |all| ensures Matches(all[i], f) { assert all[i] in all; }
    var from := all[n - 1].key + 1;
    MatchingLater(log, f, from);
    CursorCuts(all, f, from, n);
  }

  // ---- Results in full ---------------------------------------------------------------------------------------------

  /** The entry is at or past the cursor and has the type and subject asked for, if any was. */
  ghost predicate IsWanted(e: Entry, f: Filter) {
    && f.from <= e.key
    && (f.eventType == Any || f.eventType == Only(e.eventType))
    && (f.asset == Any || f.asset == Only(e.subject))
  }

  /** at lists, ascending, the positions of the entries wanted. */
  ghost predicate Selects(log: seq<Entry>, f: Filter, at: seq<nat>) {
    && (forall j, k :: 0 <= j < k < |at| ==> at[j] < at[k])
    && (forall k :: 0 <= k < |at| ==> at[k] < |log|)
    && (forall i: nat :: i < |log| ==> (i in at <==> IsWanted(log[i], f)))
  }

  lemma {:induction false} MatchingSelects(log: seq<Entry>, f: Filter) returns (at: seq<nat>)
    ensures Selects(log, f, at)
    ensures |Matching(log, f)| == |at| && forall k :: 0 <= k < |at| ==> Matching(log, f)[k] == log[at[k]]
  {
    at := [];
    if log != [] {
      var n := |log| - 1;
      var before := MatchingSelects(log[..n], f);
      hide IsWanted, Matches;
      assert Matches(log[n], f) <==> IsWanted(log[n], f) by { MatchIsWanted(log[n], f); }
      at := if Matches(log[n], f) then before + [n] else before;
      SelectsOneMore(log, f, before, at);
    }
  }

  lemma MatchIsWanted(e: Entry, f: Filter)
    ensures Matches(e, f) <==> IsWanted(e, f)
  {}

  lemma SelectsOneMore(log: seq<Entry>, f: Filter, before: seq<nat>, at: seq<nat>)
    requires log != [] && Selects(log[..|log| - 1], f, before)
    requires at == if IsWanted(log[|log| - 1], f) then before + [|log| - 1] else before
    ensures Selects(log, f, at)
  {
    hide IsWanted;
    var n := |log| - 1;
    forall i: nat | i < |log| ensures i in at <==> IsWanted(log[i], f) {
      if i < n {
        assert log[..n][i] == log[i] && (i in at <==> i in before);
      } else {
        assert forall k :: 0 <= k < |before| ==> before[k] < n;
      }
    }
  }

  /** A query returns, in order, the first of all entries wanted, up to its limit: fifty if none is given, never more
      than a hundred. It counts them all, and says there are more exactly when it had to stop. */
  lemma QueryExact(log: seq<Entry>, f: Filter) returns (at: seq<nat>)
    ensures Selects(log, f, at)
    ensures var r := Query(log, f); var limit := if f.limit == 0 then 50 else if f.limit > 100 then 100 else f.limit;
      && r.totalMatched == |at|
      && |r.events| == (if |at| < limit then |at| else limit)
      && (forall k :: 0 <= k < |r.events| ==> r.events[k] == log[at[k]])
      && (r.hasMore <==> |at| > limit)
  {
    at := MatchingSelects(log, f);
    hide Matching, Selects;
  }

  // ---- Paging -----------------------------------------------------------------------------------------------------

  /** Repeat the query from just past the last key until it reports no more. */
  function Pages(log: seq<Entry>, f: Filter): seq<Entry>
    requires Ascending(log)
    decreases |Matching(log, f)|
  {
    var page := Query(log, f);
    if !page.hasMore then page.events
    else
      MatchingAfter(log, f, Limit(f));
      page.events + Pages(log, NextCursor(page, f))
  }

  /** The same filter from just past the last event of a page. */
  function NextCursor(page: QueryResult, f: Filter): Filter
    requires page.events != []
  {
    f.(from := page.events[|page.events| - 1].key + 1)
  }

  /** Paging ends and returns every matching event of an unchanged log exactly once, in order, whatever the limit. */
  lemma {:induction false} PagesComplete(log: seq<Entry>, f: Filter)
    requires Ascending(log)
    ensures Pages(log, f) == Matching(log, f)
    decreases |Matching(log, f)|
  {
    hide Ascending, Matching;
    var all, page, n := Matching(log, f), Query(log, f), Limit(f);
    if page.hasMore {
      MatchingAfter(log, f, n);
      PagesComplete(log, NextCursor(page, f));
      assert all == all[..n] + all[n..];
    }
  }

  // ---- The log as it runs -----------------------------------------------------------------------------------------

  class ReplayLog {
    var counter: nat
    var log: seq<Entry>
    ghost var all: seq<Entry>

    ghost predicate Valid()
      reads this
    {
      counter == |all| && Numbered(all) && log == Retained(all, MAX_LOG_SIZE)
    }

    constructor ()
      ensures Valid() && all == []
    {
      counter, log, all := 0, [], [];
    }

    /** Appends one event unless its number would leave 32 bits; the oldest entry makes room when the log is full. */
    method AppendEvent(eventType: string, actor: Address, subject: string, value: int, now: nat) returns (ok: bool)
      requires Valid()
      modifies this
      ensures Valid() && (ok <==> |old(all)| + 1 < TWO32)
      ensures ok ==> all == old(all) + [Entry(|old(all)| + 1, eventType, actor, subject, value, now,
                                              OrderingKey(now, |old(all)| + 1), SCHEMA_VERSION)]
      ensures log == Retained(all, 1_000)
      ensures !ok ==> all == old(all) && log == old(log)
    {
      if counter + 1 >= TWO32 { return false; }
      counter := counter + 1;
      var key := now * TWO32 % TWO64 + counter;
      var entry := Entry(counter, eventType, actor, subject, value, now, key, SCHEMA_VERSION);
      var next := log + [entry];
      if |next| > MAX_LOG_SIZE {
        var trimmed: seq<Entry> := [];
        for i := 1 to |next|
          invariant trimmed == next[1..i]
        {
          trimmed := trimmed + [next[i]];
        }
        next := trimmed;
      }
      log := next;
      all := all + [entry];
      ok := true;
    }

    /** Up to the limit of the matching entries, with the full count. */
    method QueryEvents(f: Filter) returns (r: QueryResult)
      ensures r == Query(log, f)
    {
      var limit := f.limit;
      if f.limit > MAX_QUERY_LIMIT { limit := MAX_QUERY_LIMIT; } else if f.limit == 0 { limit := 50; }
      var matched: seq<Entry> := [];
      var total := 0;
      for i := 0 to |log|
        invariant total == |Matching(log[..i], f)| && matched == Prefix(Matching(log[..i], f), limit)
      {
        assert log[..i + 1][..i] == log[..i];
        if Matches(log[i], f) {
          total := total + 1;
          if |matched| < limit { matched := matched + [log[i]]; }
        }
      }
      assert log[..|log|] == log;
      r := QueryResult(matched, total, total > |matched|, SCHEMA_VERSION);
    }

    /** The first entries at or past a key; a limit above the maximum panics. */
    method GetReplayPage(from: nat, limit: nat) returns (ok: bool, page: seq<Entry>, total: nat)
      ensures ok == (limit <= MAX_QUERY_LIMIT)
      ensures ok ==> page == Prefix(Matching(log, Filter(Any, Any, from, limit)), limit) && total == |log|
    {
      page, total := [], |log|;
      if limit > MAX_QUERY_LIMIT { return false, [], 0; }
      ghost var f := Filter(Any, Any, from, limit);
      for i := 0 to |log|
        invariant page == Prefix(Matching(log[..i], f), limit)
      {
        if |page| >= limit {
          MatchingGrows(log, i, f);
          break;
        }
        assert log[..i + 1][..i] == log[..i];
        if log[i].key >= from { page := page + [log[i]]; }
      }
      assert log[..|log|] == log;
      ok := true;
    }
  }

  /** Reading further only appends matches. */
  lemma {:induction false} MatchingGrows(log: seq<Entry>, n: nat, f: Filter)
    requires n <= |log|
    ensures Matching(log[..n], f) <= Matching(log, f)
    decreases |log| - n
  {
    if n == |log| {
      assert log[..n] == log;
    } else {
      assert log[..n + 1][..n] == log[..n];
      MatchingGrows(log, n + 1, f);
    }
  }
}
