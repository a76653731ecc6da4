/** Facts about Euclidean remainder used by the cyclic navigation proofs. */
module Arith {

  lemma {:induction false} MulAtLeast(n: int, d: int)
    requires n > 0 && d >= 1
    ensures n * d >= n
    decreases d
  {
    if d > 1 {
      MulAtLeast(n, d - 1);
      assert n * d == n * (d - 1) + n;
    }
  }

  /** A remainder is determined by any quotient-remainder decomposition. */
  lemma ModUnique(a: int, n: int, q: int, r: int)
    requires 0 <= r < n && a == n * q + r
    ensures a % n == r
  {
    var q', r' := a / n, a % n;
    assert a == n * q' + r';
    assert n * (q - q') == r' - r;
    if q - q' > 0 {
      MulAtLeast(n, q - q');
    } else if q - q' < 0 {
      MulAtLeast(n, q' - q);
    }
  }

  lemma ModSuccessor(i: int, k: int, n: int)
    requires 0 <= i < n && 0 < k
    ensures ((i + 1) % n + (k - 1)) % n == (i + k) % n
  {
    if i + 1 == n {
      var q, r := (k - 1) / n, (k - 1) % n;
      ModUnique(i + 1, n, 1, 0);
      ModUnique(i + k, n, q + 1, r);
    } else {
      ModUnique(i + 1, n, 0, i + 1);
    }
  }

  /** One step back on a cycle of `n` positions. */
  lemma ModPredecessor(i: int, n: int)
    ensures 0 <= i < n ==> (i - 1 + n) % n == if i == 0 then n - 1 else i - 1
  {
    if 0 <= i < n {
      if i == 0 {
        ModUnique(n - 1, n, 0, n - 1);
      } else {
        ModUnique(i - 1 + n, n, 1, i - 1);
      }
    }
  }
}
