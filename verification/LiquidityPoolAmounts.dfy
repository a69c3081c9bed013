/** Prices and losses of a monitored pool, in plain arithmetic. */
module LiquidityPoolAmounts {
  import opened Quotients
  import opened IntegerRoot
  import opened LiquidityPool

  lemma TruncateIs(x: int, d: int)
    requires x >= 0 && d > 0
    ensures IsQuotient(Truncate(x, d), x, d) && Truncate(x, d) >= 0
  {
    QuotientIs(x, d);
    FloorMonotone(0, x, d);
    FloorExact(0, d);
  }

  /** A recorded price is reserve B over reserve A in ten-millionths, rounded down, and zero without reserve A. */
  lemma PriceExact(reserveA: int, reserveB: int)
    requires reserveB >= 0
    ensures if reserveA <= 0 then Price(reserveA, reserveB) == 0
            else IsQuotient(Price(reserveA, reserveB), reserveB * 10_000_000, reserveA)
  {
    if reserveA > 0 { TruncateIs(reserveB * PRECISION, reserveA); }
  }

  /** The average after one more value weighs the old average by the n values behind it, rounded down. */
  lemma AverageExact(avg: int, n: nat, x: int)
    requires avg >= 0 && x >= 0
    ensures IsQuotient(RunningAverage(avg, n, x), avg * n + x, n + 1)
  {
    ProductMonotone(0, avg, n);
    TruncateIs(avg * n + x, n + 1);
  }

  /** For positive prices and a non-negative value, with P ten million: r is the price ratio times P, s the root of r
      times P, the loss is what 2s over P + r, in units of P, falls short of P; holding is worth the value times P +
      r over 2P, and the position what the loss leaves of that; all rounded down. */
  lemma LossExact(entry: int, current: int, value: int) returns (r: int, s: int, x: int)
    requires entry > 0 && current > 0 && value >= 0
    ensures r >= 0 && IsQuotient(r, current * 10_000_000, entry)
    ensures s >= 0 && s * s <= r * 10_000_000 < (s + 1) * (s + 1)
    ensures IsQuotient(x, 2 * s * 10_000_000, 10_000_000 + r)
    ensures var l := ImpermanentLoss(entry, current, value);
      && l.ilPercentage == 10_000_000 - x
      && IsQuotient(l.hodlValue, value * (10_000_000 + r), 2 * 10_000_000)
      && IsQuotient(l.currentValue, l.hodlValue * x, 10_000_000)
      && l.netLoss == l.hodlValue - l.currentValue
  {
    r := PriceRatio(entry, current);
    TruncateIs(current * PRECISION, entry);
    s := RootOf(r * PRECISION);
    RootIs(r * PRECISION);
    x := Truncate(2 * s * PRECISION, PRECISION + r);
    TruncateIs(2 * s * PRECISION, PRECISION + r);
    LossBounds(entry, current, value);
    var l := ImpermanentLoss(entry, current, value);
    ProductMonotone(0, PRECISION + r, value);
    TruncateIs(value * (PRECISION + r), 2 * PRECISION);
    ProductMonotone(0, l.hodlValue, x);
    assert l.hodlValue * x >= 0;
    TruncateIs(l.hodlValue * x, PRECISION);
    hide Root, IsQuotient, Truncate;
  }

  /** Without a positive entry price and a positive recorded price nothing is computed and nothing lost. */
  lemma NoPriceNoLoss(entry: int, current: int, value: int)
    requires entry <= 0 || current <= 0
    ensures ImpermanentLoss(entry, current, value) == Loss(0, value, value, 0)
  {}

  /** A fourfold price rise on a million: a fifth lost against holding. */
  lemma FourfoldRise()
    ensures ImpermanentLoss(10_000_000, 40_000_000, 1_000_000) == Loss(2_000_000, 2_000_000, 2_500_000, 500_000)
  {
    RootOfSquare(20_000_000);
    hide Root;
    assert PriceRatio(10_000_000, 40_000_000) == 40_000_000;
  }

  /** A day starts at a multiple of 86 400 seconds and lasts that long. */
  lemma DayExact(timestamp: nat)
    ensures DayOf(timestamp) % 86_400 == 0 && DayOf(timestamp) <= timestamp < DayOf(timestamp) + 86_400
  {}
}
