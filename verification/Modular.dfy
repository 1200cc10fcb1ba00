/** Facts about indices that wrap around. */
module Modular {

  lemma ModDecompose(a: nat, n: nat) returns (q: nat)
    requires n > 0
    ensures a == n * q + a % n && q == a / n
  {
    q := a / n;
  }

  lemma ModFrom(a: nat, q: nat, r: nat, n: nat)
    requires n > 0 && r < n && a == n * q + r
    ensures a % n == r
  {
    var p := ModDecompose(a, n);
    SameDivision(n, p, a % n, q, r);
  }

  lemma MulSub(n: nat, p: nat, q: nat)
    ensures n * q - n * p == n * (q - p)
  {}

  /** Quotient and remainder are unique. */
  lemma SameDivision(n: nat, p: nat, r: nat, q: nat, s: nat)
    requires n * p + r == n * q + s && r < n && s < n
    ensures p == q && r == s
  {
    MulSub(n, p, q);
    MulSub(n, q, p);
    if p < q { MulAtLeast(n, q - p); }
    if q < p { MulAtLeast(n, p - q); }
  }

  lemma {:induction false} MulAtLeast(n: nat, k: nat)
    requires k >= 1
    ensures n * k >= n
  {
    if k > 1 {
      MulAtLeast(n, k - 1);
      assert n * k == n * (k - 1) + n;
    }
  }

  /** Two positions less than a whole turn apart coincide only if they are the same. */
  lemma ModEqual(a: nat, b: nat, n: nat)
    requires n > 0 && a <= b < a + n && a % n == b % n
    ensures a == b
  {
    var p := ModDecompose(a, n);
    var q := ModDecompose(b, n);
    MulSub(n, p, q);
    if q > p { MulAtLeast(n, q - p); }
    if q < p { MulLess(n, q, p); }
  }

  lemma MulLess(n: nat, q: nat, p: nat)
    requires q < p && n > 0
    ensures n * q < n * p
  {
    MulSub(n, q, p);
    MulAtLeast(n, p - q);
  }

  /** Moving on by k positions on the ring. */
  lemma ModPlus(a: nat, k: nat, n: nat)
    requires n > 0
    ensures (a % n + k) % n == (a + k) % n
  {
    var p := ModDecompose(a, n);
    var q := ModDecompose(a % n + k, n);
    assert a + k == n * p + n * q + (a % n + k) % n == n * (p + q) + (a % n + k) % n;
    ModFrom(a + k, p + q, (a % n + k) % n, n);
  }

  /** Without reaching the end of the ring, positions simply add. */
  lemma ModNoWrap(a: nat, k: nat, n: nat)
    requires n > 0 && a % n + k < n
    ensures (a + k) % n == a % n + k
  {
    ModPlus(a, k, n);
    ModFrom(a % n + k, 0, a % n + k, n);
  }

  /** How far `b` is ahead of `a`, read off the wrapped positions. */
  lemma ModAhead(a: nat, b: nat, n: nat)
    requires n > 0 && a < b < a + n
    ensures a % n != b % n
    ensures b % n > a % n ==> b - a == b % n - a % n
    ensures b % n < a % n ==> b - a >= n - a % n
  {
    if a % n == b % n { ModEqual(a, b, n); }
    var t := a % n;
    if t + (b - a) < n {
      ModNoWrap(a, b - a, n);
    } else {
      // The position of b has wrapped around once.
      var q := ModDecompose(a, n);
      assert b == n * q + t + (b - a) == n * (q + 1) + (t + (b - a) - n);
      ModFrom(b, q + 1, t + (b - a) - n, n);
    }
  }
}
