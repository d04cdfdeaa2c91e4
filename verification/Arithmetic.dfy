/** The facts about products and rounding division that the other modules rest on. */
module Arithmetic {
  lemma Distribute(a: int, b: int, c: int)
    ensures (a + b) * c == a * c + b * c
  {
  }

  lemma MulMono(a: nat, b: nat, c: nat)
    requires a <= b
    ensures a * c <= b * c
  {
  }

  lemma Cancel(a: nat, b: nat, c: nat)
    requires c > 0 && a * c <= b * c
    ensures a <= b
  {
  }

  /** A quotient is known as soon as the number lies between two consecutive multiples. */
  lemma DivRange(n: nat, k: nat, d: nat)
    requires d > 0 && k * d <= n < (k + 1) * d
    ensures n / d == k
  {
    var q := n / d;
    assert n == q * d + n % d;
    if q < k {
      MulMono(q + 1, k, d);
      Distribute(q, 1, d);
    } else if q > k {
      MulMono(k + 1, q, d);
    }
  }

  lemma DivMono(a: nat, b: nat, d: nat)
    requires a <= b && d > 0
    ensures a / d <= b / d
  {
    var (q, p) := (b / d, a / d);
    assert b == q * d + b % d && a == p * d + a % d;
    if p > q {
      MulMono(q + 1, p, d);
      Distribute(q, 1, d);
    }
  }

  /** Rounding down never exceeds, and misses by less than the divisor. */
  lemma DivBounds(n: nat, d: nat)
    requires d > 0
    ensures n / d * d <= n < (n / d + 1) * d
  {
    var q := n / d;
    assert n == q * d + n % d;
    Distribute(q, 1, d);
  }

  lemma DivAtMost(n: nat, k: nat, d: nat)
    requires d > 0 && n <= k * d
    ensures n / d <= k
  {
  }

  lemma MultipleDiv(k: nat, d: nat)
    requires d > 0
    ensures k * d / d == k && k * d % d == 0
  {
    Distribute(k, 1, d);
    DivRange(k * d, k, d);
    assert k * d == k * d / d * d + k * d % d;
  }

  lemma ModMinus(n: nat, d: nat)
    requires n >= d > 0
    ensures (n - d) % d == n % d
  {
    var (q, r) := (n / d, n % d);
    assert n == q * d + r;
    if q == 0 { assert false; }
    Distribute(q - 1, 1, d);
    DivRange(n - d, q - 1, d);
    assert n - d == (n - d) / d * d + (n - d) % d;
  }
}
