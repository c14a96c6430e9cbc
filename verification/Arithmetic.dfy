/** Division and remainder, for indices that wrap around. */
module Arithmetic {
  lemma MulGe(a: int, n: nat)
    requires a >= 1
    ensures a * n >= n
  {
    assert (a - 1) * n >= 0;
    assert a * n == (a - 1) * n + n;
  }

  /** A remainder is known by its range. */
  lemma ModUnique(x: int, n: nat, q: int, r: int)
    requires n > 0 && 0 <= r < n && x == q * n + r
    ensures x % n == r && x / n == q
  {
    var p := x / n;
    assert x == p * n + x % n;
    assert (p - q) * n == r - x % n;
    assert (q - p) * n == -((p - q) * n);
    if p > q {
      MulGe(p - q, n);
      assert false;
    } else if p < q {
      MulGe(q - p, n);
      assert false;
    }
  }

  /** One more either fills the divisor up or adds to the remainder. */
  lemma NextDivision(m: nat, n: nat)
    requires n > 0
    ensures if m % n == n - 1 then (m + 1) / n == m / n + 1 && (m + 1) % n == 0
            else (m + 1) / n == m / n && (m + 1) % n == m % n + 1
  {
    var q, r := m / n, m % n;
    assert m == q * n + r;
    if r == n - 1 {
      assert m + 1 == (q + 1) * n + 0;
      ModUnique(m + 1, n, q + 1, 0);
    } else {
      assert m + 1 == q * n + (r + 1);
      ModUnique(m + 1, n, q, r + 1);
    }
  }
}
