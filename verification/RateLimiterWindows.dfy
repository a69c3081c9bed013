/** Exactly how much a window lets through in an interval of its own length, by the state it is in when the interval
    begins. */
module RateLimiterWindows {
  import opened RateLimiter
  import opened RateLimiterBounds

  // ---- What is left at a -------------------------------------------------------------------------------------------

  function AtLeastZero(x: int): int { if x < 0 then 0 else x }

  /** The window still counts at time a. */
  predicate Open(s: Stored, m: Meter, a: int) { s.Present? && a < s.w.start + Length(m) }

  /** What the window in storage at a can still take, and what a window that starts inside the interval can. */
  function Rest(s: Stored, m: Meter, a: int, L: int): int {
    if Open(s, m, a) then AtLeastZero(L - Used(s.w, m)) else 0
  }

  function Fresh(s: Stored, m: Meter, a: int, L: int): int {
    if Open(s, m, a) && s.w.start >= a then 0 else L
  }

  function Most(s: Stored, m: Meter, a: int, L: int): int { Rest(s, m, a, L) + Fresh(s, m, a, L) }

  /** The limit itself bounds the interval exactly when no window with room left was open before a. */
  predicate LimitIsBound(s: Stored, m: Meter, a: int, L: int) {
    !(Open(s, m, a) && s.w.start < a && Used(s.w, m) < L)
  }

  lemma MostWithinLimitIff(s: Stored, m: Meter, a: int, L: int)
    requires L >= 0 && (s.Present? ==> Used(s.w, m) >= 0)
    ensures Most(s, m, a, L) <= L <==> LimitIsBound(s, m, a, L)
    ensures !LimitIsBound(s, m, a, L) ==> Most(s, m, a, L) == 2 * L - Used(s.w, m)
  {}

  // ---- One step ----------------------------------------------------------------------------------------------------

  /** Spending since a: all in the window found there, or some in it and the rest in one that started later. */
  ghost predicate Since(x: Split, s: Stored, stored: Stored, m: Meter, a: int, L: int, now: int) {
    var b := a + Length(m);
    match stored
    case Absent => s.Absent? && x == Split(0, 0)
    case Present(w) =>
      && 0 <= Used(w, m)
      && if s.Present? && w.start == s.w.start
         then
           && x.earlier == 0 && 0 <= x.current <= Used(w, m) - Used(s.w, m)
           && x.current <= Rest(s, m, a, L)
         else
           && a <= w.start <= now && (s.Present? ==> w.start >= s.w.start + Length(m))
           && 0 <= x.earlier <= Rest(s, m, a, L) + (if w.start >= b then Fresh(s, m, a, L) else 0)
           && 0 <= x.current <= L && x.current <= Used(w, m) && (w.start >= b ==> x.current == 0)
  }

  lemma SinceStep(x: Split, s: Stored, before: Stored, after: Stored, m: Meter, a: int, L: int, last: int, now: nat,
                  weight: int)
    requires L >= 0 && last <= now && a <= now && weight >= 0 && Since(x, s, before, m, a, L, last)
    requires var w := Opened(before, now, Length(m));
      if weight > 0 then after.Present? && after.w.start == w.start && Used(after.w, m) == Used(w, m) + weight
      else after == before || after == Present(w)
    requires weight > 0 && now < a + Length(m) ==> after.Present? && Used(after.w, m) <= L
    ensures var moved := if before.Present? && after.Present? && after.w.start != before.w.start
                         then Split(x.earlier + x.current, 0) else x;
      var charged := if now < a + Length(m) then moved.(current := moved.current + weight) else moved;
      Since(charged, s, after, m, a, L, now)
  {
    assert Length(m) > 0;
    hide Length;
  }

  lemma SinceBound(x: Split, s: Stored, stored: Stored, m: Meter, a: int, L: int, now: int)
    requires L >= 0 && Since(x, s, stored, m, a, L, now)
    ensures x.earlier + x.current <= Most(s, m, a, L)
  {
    assert Length(m) > 0;
    hide Length;
  }

  // ---- The contract ------------------------------------------------------------------------------------------------

  /** The calls before a, and those from a on. */
  ghost predicate SplitAt(pre: seq<Op>, post: seq<Op>, a: int) {
    (forall op :: op in pre ==> op.now < a) && (forall op :: op in post ==> a <= op.now)
  }

  lemma {:induction false} NothingBefore(st: State, ops: seq<Op>, m: Meter, a: int, b: int)
    requires forall op :: op in ops ==> op.now < a
    ensures SplitIn(st, ops, m, a, b) == Split(0, 0)
  {
    hide Step, Charge, WindowOf;
    if ops == [] {
    } else {
      var init := ops[..|ops| - 1];
      assert forall op :: op in init ==> op in ops;
      assert ops[|ops| - 1] in ops;
      NothingBefore(st, init, m, a, b);
    }
  }

  lemma NoLimitsBefore(st: State, ops: seq<Op>, m: Meter, a: int, b: int, L: int)
    requires forall op :: op in ops ==> op.now < a
    ensures LimitsAtMost(st, ops, m, a, b, L)
  {
    hide Counts, InForce, Run;
    forall i | 0 <= i < |ops| ensures ops[i].now < a { assert ops[i] in ops; }
  }

  /** The window found at a is sound: not from the future and not overdrawn below zero. */
  lemma FoundAt(start: nat, pre: seq<Op>, m: Meter, a: int, L: int)
    requires L >= 0 && Timely(pre, start) && forall op :: op in pre ==> op.now < a
    ensures var s := WindowOf(Run(Init(start), pre), m);
      && Since(Split(0, 0), s, s, m, a, L, if pre == [] then start else pre[|pre| - 1].now)
      && (s.Present? ==> Used(s.w, m) >= 0)
  {
    var st := Init(start);
    NoLimitsBefore(st, pre, m, a, a + Length(m), L);
    assert Within(Split(0, 0), WindowOf(st, m), m, a, L, start);
    RunWithin(st, pre, m, a, L, start);
    hide Run, SplitIn, WindowOf, Timely, LimitsAtMost;
  }

  lemma {:induction false} RunSince(start: nat, pre: seq<Op>, post: seq<Op>, m: Meter, a: int, L: int)
    requires L >= 0 && Timely(pre + post, start) && SplitAt(pre, post, a)
    requires LimitsAtMost(Init(start), pre + post, m, a, a + Length(m), L)
    ensures var ops, s := pre + post, WindowOf(Run(Init(start), pre), m);
      Since(SplitIn(Init(start), ops, m, a, a + Length(m)), s, WindowOf(Run(Init(start), ops), m), m, a, L,
            if ops == [] then start else ops[|ops| - 1].now)
    decreases |post|
  {
    hide *;
    var st, ops := Init(start), pre + post;
    if post == [] {
      assert ops == pre;
      assert forall op :: op in pre ==> op.now < a by { SplitHolds(pre, post, a); }
      NothingBefore(st, pre, m, a, a + Length(m));
      FoundAt(start, pre, m, a, L);
    } else {
      var rest, op := post[..|post| - 1], post[|post| - 1];
      var init := pre + rest;
      assert ops[..|ops| - 1] == init && ops[|ops| - 1] == op && op in post;
      LastCall(pre, post, start, a);
      PrefixHypotheses(st, ops, m, a, L, start);
      RunSince(start, pre, rest, m, a, L);
      var st0 := Run(st, init);
      SplitLast(st, ops, m, a, a + Length(m));
      StepCharges(st, ops, m, a, L);
      SinceStep(SplitIn(st, init, m, a, a + Length(m)), WindowOf(Run(st, pre), m), WindowOf(st0, m),
                WindowOf(Step(st0, op), m), m, a, L, if init == [] then start else init[|init| - 1].now, op.now,
                Charge(st0, m, op));
    }
  }

  lemma SplitHolds(pre: seq<Op>, post: seq<Op>, a: int)
    requires SplitAt(pre, post, a)
    ensures forall op :: op in pre ==> op.now < a
    ensures forall op :: op in post ==> a <= op.now
  {}

  lemma LastCall(pre: seq<Op>, post: seq<Op>, start: nat, a: int)
    requires post != [] && SplitAt(pre, post, a) && Timely(pre + post, start)
    ensures var ops := pre + post; var init, op := ops[..|ops| - 1], ops[|ops| - 1];
      && SplitAt(pre, post[..|post| - 1], a) && op.now >= a
      && (if init == [] then start else init[|init| - 1].now) <= op.now
  {
    var ops := pre + post;
    assert ops[|ops| - 1] in post;
    assert forall x :: x in post[..|post| - 1] ==> x in post;
    if |ops| > 1 { assert ops[|ops| - 2].now <= ops[|ops| - 1].now; }
  }

  lemma SplitLast(st: State, ops: seq<Op>, m: Meter, a: int, b: int)
    requires ops != []
    ensures var init, op := ops[..|ops| - 1], ops[|ops| - 1];
      var st0, x := Run(st, init), SplitIn(st, init, m, a, b);
      var before, after := WindowOf(st0, m), WindowOf(Step(st0, op), m);
      var moved := if before.Present? && after.Present? && after.w.start != before.w.start
                   then Split(x.earlier + x.current, 0) else x;
      && Run(st, ops) == Step(st0, op)
      && SplitIn(st, ops, m, a, b)
         == if a <= op.now < b then moved.(current := moved.current + Charge(st0, m, op)) else moved
  {
    hide Step, Charge, WindowOf;
  }

  /** What the last call of a run does to a window. */
  lemma StepCharges(st: State, ops: seq<Op>, m: Meter, a: int, L: int)
    requires ops != [] && LimitsAtMost(st, ops, m, a, a + Length(m), L)
    ensures var st0, op := Run(st, ops[..|ops| - 1]), ops[|ops| - 1];
      var before, after := WindowOf(st0, m), WindowOf(Step(st0, op), m);
      var w, weight := Opened(before, op.now, Length(m)), Charge(st0, m, op);
      && weight >= 0
      && (if weight > 0 then after.Present? && after.w.start == w.start && Used(after.w, m) == Used(w, m) + weight
          else after == before || after == Present(w))
      && (weight > 0 && a <= op.now < a + Length(m) ==> after.Present? && Used(after.w, m) <= L)
  {
    hide Step, Charge, Counts, WindowOf, InForce, Used, Length, Run, Opened;
    StepWindow(Run(st, ops[..|ops| - 1]), m, ops[|ops| - 1]);
  }

  /** For every counter and every interval as long as its window, in every run from initialisation: by the window in
      storage when the interval begins, no more than what it has left plus what one fresh window takes. So the limit
      itself is the bound whenever that window is absent, has expired, began at a or is used up. */
  lemma BoundByWindowFound(start: nat, pre: seq<Op>, post: seq<Op>, m: Meter, a: int, L: int)
    requires L >= 0 && Timely(pre + post, start) && SplitAt(pre, post, a)
    requires LimitsAtMost(Init(start), pre + post, m, a, a + Length(m), L)
    ensures var s := WindowOf(Run(Init(start), pre), m);
      var spent := SpentIn(Init(start), pre + post, m, a, a + Length(m));
      && spent <= Most(s, m, a, L)
      && (LimitIsBound(s, m, a, L) ==> spent <= L)
  {
    hide *;
    var ops, s := pre + post, WindowOf(Run(Init(start), pre), m);
    RunSince(start, pre, post, m, a, L);
    SplitAddsUp(Init(start), ops, m, a, a + Length(m));
    SinceBound(SplitIn(Init(start), ops, m, a, a + Length(m)), s, WindowOf(Run(Init(start), ops), m), m, a, L,
               if ops == [] then start else ops[|ops| - 1].now);
    TimelyPrefix(pre, post, start);
    SplitHolds(pre, post, a);
    FoundAt(start, pre, m, a, L);
    MostWithinLimitIff(s, m, a, L);
  }

  lemma TimelyPrefix(pre: seq<Op>, post: seq<Op>, start: nat)
    requires Timely(pre + post, start)
    ensures Timely(pre, start)
  {
    forall i | 0 <= i < |pre| ensures (pre + post)[i] == pre[i] {}
    assert forall i :: 0 <= i < |pre| ==> start <= (pre + post)[i].now;
  }

  // ---- The window rule alone ---------------------------------------------------------------------------------------

  datatype Transfer = Transfer(now: nat, amount: nat)

  /** The rule the contract applies to one window: restart it if it has run its length, and charge it if the limit
      allows. A transfer it refuses leaves it as it was. */
  function Admit(s: Stored, m: Meter, L: int, c: Transfer): (Stored, int) {
    var w := Opened(s, c.now, Length(m));
    if Used(w, m) + Weight(m, c.amount) <= L then (Present(Charged(w, c.amount)), Weight(m, c.amount)) else (s, 0)
  }

  function AdmitAll(s: Stored, m: Meter, L: int, cs: seq<Transfer>): (Stored, int) {
    if cs == [] then (s, 0)
    else
      var before := AdmitAll(s, m, L, cs[..|cs| - 1]);
      var after := Admit(before.0, m, L, cs[|cs| - 1]);
      (after.0, before.1 + after.1)
  }

  /** Transfers of positive amounts in [a, b), in time order. */
  ghost predicate Inside(cs: seq<Transfer>, a: int, b: int) {
    && (forall i :: 0 <= i < |cs| ==> a <= cs[i].now < b && cs[i].amount > 0)
    && (forall i, j :: 0 <= i < j < |cs| ==> cs[i].now <= cs[j].now)
  }

  lemma AdmitCharges(s: Stored, m: Meter, L: int, c: Transfer)
    requires c.amount > 0
    ensures var w, r := Opened(s, c.now, Length(m)), Admit(s, m, L, c);
      && r.1 >= 0
      && (if r.1 > 0 then r.0.Present? && r.0.w.start == w.start && Used(r.0.w, m) == Used(w, m) + r.1 <= L
          else r.0 == s)
  {
    hide Opened, Length;
  }

  lemma {:induction false} AdmitsAtMost(s: Stored, m: Meter, a: nat, L: nat, cs: seq<Transfer>) returns (x: Split)
    requires s.Present? ==> Used(s.w, m) >= 0
    requires Inside(cs, a, a + Length(m))
    ensures x.earlier + x.current == AdmitAll(s, m, L, cs).1
    ensures Since(x, s, AdmitAll(s, m, L, cs).0, m, a, L, if cs == [] then a else cs[|cs| - 1].now)
  {
    x := Split(0, 0);
    if cs != [] {
      var init, c := cs[..|cs| - 1], cs[|cs| - 1];
      assert a <= c.now < a + Length(m) && c.amount > 0;
      x := AdmitsAtMost(s, m, a, L, init);
      var before := AdmitAll(s, m, L, init);
      var after := Admit(before.0, m, L, c);
      AdmitCharges(before.0, m, L, c);
      hide Admit, Since, Opened, Length;
      SinceStep(x, s, before.0, after.0, m, a, L, if init == [] then a else init[|init| - 1].now, c.now, after.1);
      if before.0.Present? && after.0.Present? && after.0.w.start != before.0.w.start {
        x := Split(x.earlier + x.current, 0);
      }
      x := x.(current := x.current + after.1);
    }
  }

  function Units(now: nat, n: nat): seq<Transfer> { seq(n, _ => Transfer(now, 1)) }

  /** Unit transfers at one time all pass while the limit allows. */
  lemma {:induction false} UnitsPass(s: Stored, m: Meter, L: int, cs: seq<Transfer>, now: nat, n: nat)
    requires Used(Opened(AdmitAll(s, m, L, cs).0, now, Length(m)), m) + n <= L
    ensures var before, after := AdmitAll(s, m, L, cs), AdmitAll(s, m, L, cs + Units(now, n));
      var w := Opened(before.0, now, Length(m));
      && after.1 == before.1 + n
      && (if n == 0 then after.0 == before.0
          else after.0.Present? && after.0.w.start == w.start && Used(after.0.w, m) == Used(w, m) + n)
  {
    if n == 0 {
      assert cs + Units(now, 0) == cs;
    } else {
      UnitsPass(s, m, L, cs, now, n - 1);
      var all := cs + Units(now, n);
      assert all[..|all| - 1] == cs + Units(now, n - 1) && all[|all| - 1] == Transfer(now, 1);
      assert Length(m) > 0;
      hide Length;
    }
  }

  /** A plan that takes everything the rule lets through: the rest of the open window at a, then a full limit as soon
      as the next window can start. */
  function Plan(s: Stored, m: Meter, a: nat, L: nat): seq<Transfer> {
    if Open(s, m, a) then
      Units(a, AtLeastZero(L - Used(s.w, m)))
      + if s.w.start < a then Units(s.w.start + Length(m), L) else []
    else Units(a, L)
  }

  lemma PlanIsInside(s: Stored, m: Meter, a: nat, L: nat)
    ensures Inside(Plan(s, m, a, L), a, a + Length(m))
  {
    assert Length(m) > 0;
    hide Length, Used;
  }

  lemma PlanTakesMost(s: Stored, m: Meter, a: nat, L: nat)
    requires s.Present? ==> Used(s.w, m) >= 0
    ensures AdmitAll(s, m, L, Plan(s, m, a, L)).1 == Most(s, m, a, L)
  {
    hide AdmitAll, Length, Units;
    if !Open(s, m, a) {
      FromNothing(s, m, L, a, L);
    } else {
      var rest: nat := AtLeastZero(L - Used(s.w, m));
      FromNothing(s, m, L, a, rest);
      if s.w.start < a {
        NextWindow(s, m, a, L, Units(a, rest), AdmitAll(s, m, L, Units(a, rest)).0);
      } else {
        assert Units(a, rest) + [] == Units(a, rest);
      }
    }
  }

  /** The first transfers of a plan. */
  lemma FromNothing(s: Stored, m: Meter, L: int, a: nat, n: nat)
    requires n == 0 || Used(Opened(s, a, Length(m)), m) + n <= L
    ensures var after := AdmitAll(s, m, L, Units(a, n));
      && after.1 == n
      && (if n == 0 then after.0 == s else after.0.Present? && after.0.w.start == Opened(s, a, Length(m)).start)
  {
    hide Length, Units, Opened;
    if n == 0 {
      NoUnits(s, m, L, a);
    } else {
      assert AdmitAll(s, m, L, []) == (s, 0) && [] + Units(a, n) == Units(a, n);
      UnitsPass(s, m, L, [], a, n);
    }
  }

  /** A full limit in the window that follows. */
  lemma NextWindow(s: Stored, m: Meter, a: nat, L: nat, cs: seq<Transfer>, t: Stored)
    requires Open(s, m, a) && AdmitAll(s, m, L, cs).0 == t && t.Present? && t.w.start == s.w.start
    ensures AdmitAll(s, m, L, cs + Units(s.w.start + Length(m), L)).1 == AdmitAll(s, m, L, cs).1 + L
  {
    hide AdmitAll, Length, Units;
    UnitsPass(s, m, L, cs, s.w.start + Length(m), L);
  }

  lemma NoUnits(s: Stored, m: Meter, L: int, now: nat)
    ensures Units(now, 0) == [] && AdmitAll(s, m, L, Units(now, 0)) == (s, 0)
  {}

  /** What the rule lets through in an interval is at most that, it is reached, and so the limit itself holds of every
      sequence of transfers if and only if no window with room left was open before the interval. */
  lemma WindowRuleExact(s: Stored, m: Meter, a: nat, L: nat)
    requires s.Present? ==> Used(s.w, m) >= 0
    ensures forall cs: seq<Transfer> :: Inside(cs, a, a + Length(m)) ==> AdmitAll(s, m, L, cs).1 <= Most(s, m, a, L)
    ensures exists cs: seq<Transfer> :: Inside(cs, a, a + Length(m)) && AdmitAll(s, m, L, cs).1 == Most(s, m, a, L)
    ensures (forall cs: seq<Transfer> :: Inside(cs, a, a + Length(m)) ==> AdmitAll(s, m, L, cs).1 <= L)
            <==> LimitIsBound(s, m, a, L)
  {
    hide AdmitAll, Inside, Since, Plan, Most, LimitIsBound;
    forall cs: seq<Transfer> | Inside(cs, a, a + Length(m)) ensures AdmitAll(s, m, L, cs).1 <= Most(s, m, a, L) {
      var x := AdmitsAtMost(s, m, a, L, cs);
      SinceBound(x, s, AdmitAll(s, m, L, cs).0, m, a, L, if cs == [] then a else cs[|cs| - 1].now);
    }
    PlanIsInside(s, m, a, L);
    PlanTakesMost(s, m, a, L);
    MostWithinLimitIff(s, m, a, L);
  }
}
