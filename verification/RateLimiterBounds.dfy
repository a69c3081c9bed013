/** How much the limiter lets through in any interval as long as one of its windows. */
module RateLimiterBounds {
  import opened RateLimiter

  // ---- The limits the contract enforces ---------------------------------------------------------------------------

  datatype Period = Daily | Weekly | Monthly
  datatype Measure = Value | Count

  /** One of the eight counters: a user's value or count per period, or the global value per day or week. */
  datatype Meter = User(u: Address, period: Period, measure: Measure) | Global(weekly: bool)

  function Length(m: Meter): nat {
    match m
    case User(_, Daily, _) => DAY_SECS
    case User(_, Weekly, _) => WEEK_SECS
    case User(_, Monthly, _) => MONTH_SECS
    case Global(weekly) => if weekly then WEEK_SECS else DAY_SECS
  }

  function PeriodWindow(g: Usage, p: Period): Window {
    match p case Daily => g.daily case Weekly => g.weekly case Monthly => g.monthly
  }

  datatype Stored = Absent | Present(w: Window)

  function WindowOf(st: State, m: Meter): Stored {
    match m
    case User(u, p, _) => if u in st.usage then Present(PeriodWindow(st.usage[u], p)) else Absent
    case Global(weekly) => Present(if weekly then st.globalUsage.weekly else st.globalUsage.daily)
  }

  function Used(w: Window, m: Meter): int {
    if m.User? && m.measure.Count? then w.countUsed else w.valueUsed
  }

  function Weight(m: Meter, amount: int): int {
    if m.User? && m.measure.Count? then 1 else amount
  }

  /** The limit in force for a counter at a given moment. */
  function InForce(st: State, m: Meter, now: nat): int {
    match m
    case User(u, p, Value) =>
      (var l := Effective(st, u, now);
       match p case Daily => l.dailyValue case Weekly => l.weeklyValue case Monthly => l.monthlyValue)
    case User(u, p, Count) =>
      (var l := Effective(st, u, now);
       match p case Daily => l.dailyCount case Weekly => l.weeklyCount case Monthly => l.monthlyCount)
    case Global(weekly) => if weekly then st.globalLimits.weeklyValue else st.globalLimits.dailyValue
  }

  /** The call is an allowed consume that counts on this meter. */
  predicate Counts(st: State, m: Meter, op: Op) {
    op.ConsumeLimit? && (m.User? ==> op.u == m.u) && Consume(st, op.u, op.amount, op.now).1.Allowed?
  }

  /** What a call adds to the meter. */
  function Charge(st: State, m: Meter, op: Op): int {
    if Counts(st, m, op) then Weight(m, op.amount) else 0
  }

  /** Everything allowed on a meter during [a, b) of a run. */
  function SpentIn(st: State, ops: seq<Op>, m: Meter, a: int, b: int): int {
    if ops == [] then 0
    else
      var init, op := ops[..|ops| - 1], ops[|ops| - 1];
      SpentIn(st, init, m, a, b)
      + if a <= op.now < b then Charge(Run(st, init), m, op) else 0
  }

  /** Ledger time starts at t0 and never decreases. */
  ghost predicate Timely(ops: seq<Op>, t0: nat) {
    forall i :: 0 <= i < |ops| ==> t0 <= ops[i].now && forall j :: 0 <= j < i ==> ops[j].now <= ops[i].now
  }

  /** Every limit applied to the meter during [a, b) is at most L. */
  ghost predicate LimitsAtMost(st: State, ops: seq<Op>, m: Meter, a: int, b: int, L: int) {
    forall i :: 0 <= i < |ops| && a <= ops[i].now < b && Counts(Run(st, ops[..i]), m, ops[i]) ==>
      InForce(Run(st, ops[..i]), m, ops[i].now) <= L
  }

  // ---- What one call does to one window ---------------------------------------------------------------------------

  /** The window a call at this time works on. */
  function Opened(s: Stored, now: nat, secs: nat): Window {
    match s case Absent => Window(0, 0, now) case Present(w) => Decayed(w, now, secs)
  }

  /** A call leaves a window alone, stores it opened, or charges it within the limit; a window never leaves storage. */
  ghost predicate Touches(st: State, m: Meter, op: Op) {
    var before, after := WindowOf(st, m), WindowOf(Step(st, op), m);
    var w := Opened(before, op.now, Length(m));
    if Charge(st, m, op) > 0 then
      && after.Present? && after.w.start == w.start
      && Used(after.w, m) == Used(w, m) + Charge(st, m, op) <= InForce(st, m, op.now)
      && Counts(st, m, op)
    else Charge(st, m, op) == 0 && (after == before || after == Present(w))
  }

  lemma ConsumeTouchesUser(st: State, u: Address, p: Period, k: Measure, op: Op)
    requires op.ConsumeLimit?
    ensures Touches(st, User(u, p, k), op)
  {
    hide Effective;
    if op.u == u {
      match p { case Daily => case Weekly => case Monthly => }
    }
  }

  lemma ConsumeTouchesGlobal(st: State, weekly: bool, op: Op)
    requires op.ConsumeLimit?
    ensures Touches(st, Global(weekly), op)
  {
    hide Effective, UserBreach;
  }

  lemma OtherTouches(st: State, m: Meter, op: Op)
    requires !op.ConsumeLimit?
    ensures Touches(st, m, op)
  {
    hide Effective, AdjustmentFactor, Reduced;
    if op.ClearCooldown? && m.User? && m.u == op.u {
      match m.period { case Daily => case Weekly => case Monthly => }
    }
  }

  lemma StepWindow(st: State, m: Meter, op: Op)
    ensures Touches(st, m, op)
  {
    hide Touches;
    if !op.ConsumeLimit? {
      OtherTouches(st, m, op);
    } else {
      match m
      case User(u, p, k) => ConsumeTouchesUser(st, u, p, k, op);
      case Global(weekly) => ConsumeTouchesGlobal(st, weekly, op);
    }
  }

  // ---- The bound --------------------------------------------------------------------------------------------------

  /** Spending inside [a, b), split by whether it happened in an earlier window or in the current one. */
  datatype Split = Split(earlier: int, current: int)

  function SplitIn(st: State, ops: seq<Op>, m: Meter, a: int, b: int): Split {
    if ops == [] then Split(0, 0)
    else
      var init, op := ops[..|ops| - 1], ops[|ops| - 1];
      var st0, before := Run(st, init), SplitIn(st, init, m, a, b);
      var stored, next := WindowOf(st0, m), WindowOf(Step(st0, op), m);
      var moved := if stored.Present? && next.Present? && next.w.start != stored.w.start
                   then Split(before.earlier + before.current, 0) else before;
      if a <= op.now < b then moved.(current := moved.current + Charge(st0, m, op)) else moved
  }

  lemma {:induction false} SplitAddsUp(st: State, ops: seq<Op>, m: Meter, a: int, b: int)
    ensures SplitIn(st, ops, m, a, b).earlier + SplitIn(st, ops, m, a, b).current == SpentIn(st, ops, m, a, b)
  {
    hide Step, Charge, WindowOf;
    if ops == [] {
    } else {
      SplitAddsUp(st, ops[..|ops| - 1], m, a, b);
    }
  }

  /** At most two windows meet [a, a + secs): the current one holds at most its own use and at most L, the earlier
      one at most L, and if there was an earlier one the current started after a. */
  ghost predicate Within(s: Split, stored: Stored, m: Meter, a: int, L: int, now: nat) {
    var b := a + Length(m);
    match stored
    case Absent => s == Split(0, 0)
    case Present(w) =>
      && w.start <= now && 0 <= Used(w, m)
      && 0 <= s.earlier <= (if w.start >= b then 2 * L else L)
      && 0 <= s.current <= L && s.current <= Used(w, m)
      && (s.current > 0 ==> a - Length(m) < w.start < b)
      && (s.earlier > 0 ==> w.start > a)
  }

  lemma StepWithin(s: Split, before: Stored, after: Stored, m: Meter, a: int, L: int, last: nat, now: nat, weight: int)
    requires L >= 0 && last <= now && weight >= 0 && Within(s, before, m, a, L, last)
    requires var w := Opened(before, now, Length(m));
      if weight > 0 then after.Present? && after.w.start == w.start && Used(after.w, m) == Used(w, m) + weight
      else after == before || after == Present(w)
    requires weight > 0 && a <= now < a + Length(m) ==> after.Present? && Used(after.w, m) <= L
    ensures var moved := if before.Present? && after.Present? && after.w.start != before.w.start
                         then Split(s.earlier + s.current, 0) else s;
      var charged := if a <= now < a + Length(m) then moved.(current := moved.current + weight) else moved;
      Within(charged, after, m, a, L, now)
  {
    assert Length(m) > 0;
    hide Length;
  }

  lemma {:induction false} RunWithin(st: State, ops: seq<Op>, m: Meter, a: int, L: int, t0: nat)
    requires L >= 0 && Within(Split(0, 0), WindowOf(st, m), m, a, L, t0)
    requires Timely(ops, t0) && LimitsAtMost(st, ops, m, a, a + Length(m), L)
    ensures Within(SplitIn(st, ops, m, a, a + Length(m)), WindowOf(Run(st, ops), m), m, a, L,
                   if ops == [] then t0 else ops[|ops| - 1].now)
  {
    hide Step, Charge, Counts, WindowOf, InForce, Within, Used, Weight, Length;
    if ops == [] {
    } else {
      var init, op := ops[..|ops| - 1], ops[|ops| - 1];
      PrefixHypotheses(st, ops, m, a, L, t0);
      RunWithin(st, init, m, a, L, t0);
      var st0 := Run(st, init);
      assert ops[..|ops| - 1] == init;
      StepWindow(st0, m, op);
      StepWithin(SplitIn(st, init, m, a, a + Length(m)), WindowOf(st0, m), WindowOf(Step(st0, op), m), m, a, L,
                 if init == [] then t0 else init[|init| - 1].now, op.now,
                 Charge(st0, m, op));
    }
  }

  lemma PrefixHypotheses(st: State, ops: seq<Op>, m: Meter, a: int, L: int, t0: nat)
    requires ops != [] && Timely(ops, t0) && LimitsAtMost(st, ops, m, a, a + Length(m), L)
    ensures Timely(ops[..|ops| - 1], t0) && LimitsAtMost(st, ops[..|ops| - 1], m, a, a + Length(m), L)
  {
    hide Counts, InForce, Length, Run;
    var init := ops[..|ops| - 1];
    forall i | 0 <= i < |init| ensures init[..i] == ops[..i] {}
  }

  /** For every counter and every interval as long as its window, in every run from initialisation: what was allowed
      in the interval is at most twice the largest limit applied there. */
  lemma IntervalBound(start: nat, ops: seq<Op>, m: Meter, a: int, L: int)
    requires L >= 0 && Timely(ops, start)
    requires LimitsAtMost(Init(start), ops, m, a, a + Length(m), L)
    ensures SpentIn(Init(start), ops, m, a, a + Length(m)) <= 2 * L
  {
    var st := Init(start);
    assert Within(Split(0, 0), WindowOf(st, m), m, a, L, start);
    RunWithin(st, ops, m, a, L, start);
    SplitAddsUp(st, ops, m, a, a + Length(m));
    hide Run, SplitIn, SpentIn, Timely, LimitsAtMost, WindowOf;
  }
}
