// Facts about products and quotients that scaling (Scaling) and aiming (AimMotion) share.

module Arithmetic {

  lemma Ordered(a: int, b: int, d: nat)
    requires a <= b
    ensures a * d <= b * d
  {
  }

  lemma Distribute(a: int, b: int, c: int)
    ensures (a + b) * c == a * c + b * c
    ensures (a - b) * c == a * c - b * c
  {
  }

  lemma Associate(a: int, b: int, c: int)
    ensures a * (b * c) == a * b * c
  {
  }

  lemma ProductPositive(a: int, b: int)
    requires a > 0 && b > 0
    ensures a * b > 0
  {
  }

  lemma DivBounds(n: int, d: nat)
    requires d > 0
    ensures n / d * d <= n < n / d * d + d
  {
  }

  // The quotient is the one number that leaves a remainder below the divisor.
  lemma DivIs(n: int, d: nat, q: int)
    requires d > 0 && q * d <= n < q * d + d
    ensures n / d == q
  {
    DivBounds(n, d);
    var r := n / d;
    if r < q {
      Ordered(r + 1, q, d);
    } else if q < r {
      Ordered(q + 1, r, d);
    }
  }

  lemma DivAtLeast(n: int, d: nat, q: int)
    requires d > 0 && q * d <= n
    ensures q <= n / d
  {
    DivBounds(n, d);
    if n / d < q {
      Ordered(n / d + 1, q, d);
    }
  }

  lemma DivMonotone(a: int, b: int, d: nat)
    requires d > 0 && a <= b
    ensures a / d <= b / d
  {
    DivBounds(a, d);
    DivAtLeast(b, d, a / d);
  }

  lemma CancelFactor(n: nat, d: nat, h: nat)
    requires d > 0 && h > 0
    ensures d * h > 0 && n * h / (d * h) == n / d
  {
    var q := n / d;
    DivBounds(n, d);
    ProductPositive(d, h);
    Ordered(q * d, n, h);
    Ordered(n + 1, q * d + d, h);
    Associate(q, d, h);
    Distribute(q * d, d, h);
    Distribute(n, 1, h);
    DivIs(n * h, d * h, q);
  }

  // Half the divisor rounds to the nearest, whether or not the divisor is doubled first.
  lemma HalfDoubled(x: nat, w: nat)
    requires w > 0
    ensures (2 * x + w) / (2 * w) == (x + w / 2) / w
  {
    var q := (x + w / 2) / w;
    DivBounds(x + w / 2, w);
    assert q * (2 * w) == 2 * (q * w);
    DivIs(2 * x + w, 2 * w, q);
  }
}
