/** Facts about floor division by a positive divisor that the solver does not find unaided. */
module Quotients {

  lemma ProductMonotone(a: int, b: int, d: int)
    requires a <= b && d >= 0
    ensures a * d <= b * d
  {}

  lemma ProductOrder(a: int, b: int, d: int)
    requires d >= 0
    ensures a <= b ==> a * d <= b * d
  {}

  lemma FloorBounds(x: int, d: int)
    requires d > 0
    ensures x / d * d <= x < (x / d + 1) * d
  {
    assert x == d * (x / d) + x % d;
  }

  /** A value between q*d and (q+1)*d has quotient q. */
  lemma FloorUnique(x: int, d: int, q: int)
    requires d > 0 && q * d <= x < (q + 1) * d
    ensures x / d == q
  {
    FloorBounds(x, d);
    var r := x / d;
    ProductOrder(r + 1, q, d);
    ProductOrder(q + 1, r, d);
  }

  lemma FloorMonotone(x: int, y: int, d: int)
    requires x <= y && d > 0
    ensures x / d <= y / d
  {
    FloorBounds(x, d);
    FloorBounds(y, d);
    ProductOrder(y / d + 1, x / d, d);
  }

  lemma FloorExact(q: int, d: int)
    requires d > 0
    ensures q * d / d == q
  {
    assert (q + 1) * d == q * d + d;
    FloorUnique(q * d, d, q);
  }

  /** q is x divided by d, rounded down. */
  ghost predicate IsQuotient(q: int, x: int, d: int) { q * d <= x < (q + 1) * d }

  lemma QuotientIs(x: int, d: int)
    requires d > 0
    ensures IsQuotient(x / d, x, d)
  {
    FloorBounds(x, d);
  }

  /** Rounding down twice is rounding down once. */
  lemma QuotientOfQuotient(x: int, a: int, b: int)
    requires a > 0 && b > 0
    ensures IsQuotient(x / a / b, x, a * b)
  {
    var p := x / a;
    var q := p / b;
    FloorBounds(x, a);
    FloorBounds(p, b);
    ProductMonotone(q * b, p, a);
    ProductMonotone(p + 1, (q + 1) * b, a);
    assert q * (a * b) == q * b * a && (q + 1) * (a * b) == (q + 1) * b * a;
  }

  /** Division by a positive divisor that drops the fraction toward zero. */
  function Truncate(x: int, d: int): int
    requires d > 0
  {
    if x >= 0 then x / d else -(-x / d)
  }
}
