/** Nonlinear facts, each proved alone. */
module Arithmetic {
  /** Quotient and remainder are unique. */
  lemma DivModUnique(a: nat, n: nat, q: nat, r: nat)
    requires n > 0 && a == q * n + r && r < n
    ensures a / n == q && a % n == r
  {
    var d := a / n - q;
    assert a == (a / n) * n + a % n;
    assert d * n == r - a % n by { assert d * n == (a / n) * n - q * n; }
    assert d > 0 ==> d * n >= n;
    assert d < 0 ==> d * n <= -(n as int);
  }

  lemma SmallMod(a: nat, n: nat)
    requires a < n
    ensures a / n == 0 && a % n == a
  {
  }

  lemma ModSubtract(c: nat, m: nat)
    requires m > 0
    ensures c % m == if c < m then c else (c - m) % m
  {
    if c >= m {
      var q, r := (c - m) / m, (c - m) % m;
      assert c - m == q * m + r;
      DivModUnique(c, m, q + 1, r);
    } else {
      SmallMod(c, m);
    }
  }

  lemma Distribute(a: nat, b: nat, f: nat)
    ensures a * f + b * f == (a + b) * f
  {
  }

  lemma DivAtMost(a: nat, n: nat)
    requires n > 0
    ensures 0 <= a / n <= a
  {
    var q, r := a / n, a % n;
    assert a == q * n + r;
    if q > 0 { MulMonotone(1, n, q); }
  }

  lemma AddMultiple(c: nat, n: nat, m: nat)
    requires n > 0
    ensures (c + n * m) % n == c % n && (c + n * m) / n == c / n + m
  {
    var q, r := c / n, c % n;
    assert c == q * n + r;
    assert c + n * m == (q + m) * n + r;
    DivModUnique(c + n * m, n, q + m, r);
  }

  lemma ModAdd(c: nat, n: nat, m: nat)
    requires m > 0
    ensures (c % m + n) % m == (c + n) % m
  {
    AddMultiple(c % m + n, m, c / m);
    assert c % m + n + m * (c / m) == c + n;
  }

  /** Quotients of quotients, for bytes. */
  lemma DivDiv(c: nat, b: nat)
    requires b > 0
    ensures c / (256 * b) == c / 256 / b
  {
    var d := c / 256;
    var q, r := d / b, d % b;
    assert d == q * b + r;
    Reassociate(q, b);
    DivModUnique(c, 256 * b, q, 256 * r + c % 256);
  }

  lemma Reassociate(q: nat, b: nat)
    ensures q * (256 * b) == 256 * (q * b)
  {
  }

  lemma MulNat(a: nat, b: nat)
    ensures a * b >= 0
  {
  }

  lemma MulMonotone(a: nat, b: nat, f: nat)
    requires a <= b
    ensures a * f <= b * f
  {
  }
}
