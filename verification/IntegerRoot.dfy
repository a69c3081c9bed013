/** The integer square root both contracts compute by Newton's iteration. */
module IntegerRoot {
  import opened Quotients

  ghost predicate IsRoot(r: nat, n: nat) {
    r * r <= n < (r + 1) * (r + 1)
  }

  /** The floor of the square root, found the slow way. */
  function Root(n: nat): (r: nat)
    ensures IsRoot(r, n)
  {
    if n == 0 then 0 else
      var r := Root(n - 1);
      if (r + 1) * (r + 1) <= n then r + 1 else r
  }

  lemma SquareMonotone(a: nat, b: nat)
    ensures a <= b ==> a * a <= b * b
  {
    ProductOrder(a, b, a);
    ProductOrder(a, b, b);
  }

  lemma RootUnique(r: nat, n: nat)
    requires IsRoot(r, n)
    ensures r == Root(n)
  {
    var s := Root(n);
    SquareMonotone(r + 1, s);
    SquareMonotone(s + 1, r);
  }

  lemma RootMonotone(m: nat, n: nat)
    requires m <= n
    ensures Root(m) <= Root(n)
  {
    SquareMonotone(Root(n) + 1, Root(m));
  }

  lemma RootOfSquare(r: nat)
    ensures Root(r * r) == r
  {
    RootUnique(r, r * r);
  }

  lemma SquareOfSum(x: int, y: int)
    ensures (x + y) * (x + y) == x * x + 2 * (x * y) + y * y
  {}

  /** Splitting a weight never lowers the total of its roots. */
  lemma RootSubadditive(a: nat, b: nat)
    ensures Root(a + b) <= Root(a) + Root(b)
  {
    var x, y, z := Root(a), Root(b), Root(a + b);
    hide *;
    assert IsRoot(x, a) && IsRoot(y, b) && IsRoot(z, a + b) by { RootIs(a); RootIs(b); RootIs(a + b); }
    RootsAdd(a, b, x, y, z);
  }

  lemma RootIs(n: nat)
    ensures IsRoot(Root(n), n)
  {}

  lemma RootsAdd(a: nat, b: nat, x: nat, y: nat, z: nat)
    requires IsRoot(x, a) && IsRoot(y, b) && IsRoot(z, a + b)
    ensures z <= x + y
  {
    SquareOfSum(x, 1);
    SquareOfSum(y, 1);
    SquareOfSum(x + y, 1);
    SquareOfSum(x, y);
    ProductMonotone(0, x, y);
    SquareMonotone(x + y + 1, z);
  }

  /** The arithmetic mean is at least the geometric one. */
  lemma MeanBound(x: int, q: int)
    ensures 4 * (x * q) <= (x + q) * (x + q)
  {
    SquareOfSum(x, q);
    SquareOfSum(x, -q);
    assert (x - q) * (x - q) >= 0;
  }

  /** One Newton step from any positive x never falls below the root. */
  lemma NewtonStaysAbove(n: nat, x: nat)
    requires x > 0
    ensures var y := (x + n / x) / 2; y >= 0 && n < (y + 1) * (y + 1)
  {
    var q := n / x;
    FloorBounds(n, x);
    FloorMonotone(0, n, x);
    StepAbove(n, x, q, (x + q) / 2);
  }

  lemma StepAbove(n: nat, x: nat, q: nat, y: nat)
    requires n < (q + 1) * x && x + q + 1 <= 2 * (y + 1)
    ensures n < (y + 1) * (y + 1)
  {
    MeanBound(x, q + 1);
    SquareMonotone(x + (q + 1), 2 * (y + 1));
    SquareOfSum(y + 1, y + 1);
  }

  /** Newton's iteration from n down: it stops when the next step no longer falls. */
  method Descend(n: nat) returns (x: nat)
    requires n > 0
    ensures x == Root(n)
  {
    x := n;
    var y := (x + 1) / 2;
    FloorUnique(n, n, 1);
    SquareOfSum(n, 1);
    ProductMonotone(1, n, n);
    while y < x
      invariant 0 < x && n < (x + 1) * (x + 1)
      invariant y == (x + n / x) / 2
      decreases x
    {
      NewtonStaysAbove(n, x);
      x := y;
      y := (x + n / x) / 2;
    }
    FloorBounds(n, x);
    ProductMonotone(x, n / x, x);
    RootUnique(x, n);
  }

  /** The root of an unsigned number. */
  method Isqrt(n: nat) returns (x: nat)
    ensures x == Root(n)
  {
    if n == 0 { return 0; }
    x := Descend(n);
  }

  /** The root of a signed number, zero for negative ones. */
  method IsqrtSigned(n: int) returns (x: nat)
    ensures x == if n <= 0 then 0 else Root(n)
  {
    if n <= 0 { return 0; }
    if n == 1 {
      RootOfSquare(1);
      return 1;
    }
    x := Descend(n);
  }
}
