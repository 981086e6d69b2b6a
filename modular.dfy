/** Facts about Euclidean division that the rotation arithmetic of the
    loading message and of the wizard cards rests on. */
module Modular {
  lemma {:induction false} MulAtLeast(d: nat, n: nat)
    requires d >= 1
    ensures d * n >= n
  {
    if d > 1 {
      MulAtLeast(d - 1, n);
      assert d * n == (d - 1) * n + n;
    }
  }

  /** A remainder is determined by any quotient-remainder decomposition. */
  lemma {:induction false} ModUnique(a: int, n: int, q: int, r: int)
    requires n > 0 && 0 <= r < n && a == q * n + r
    ensures a % n == r
  {
    var q0, r0 := a / n, a % n;
    assert a == q0 * n + r0;
    var d := q - q0;
    assert d * n == q * n - q0 * n;
    assert d * n == r0 - r;
    if d >= 1 {
      MulAtLeast(d, n);
    } else if d <= -1 {
      MulAtLeast(-d, n);
    }
  }

  /** Stepping the remainder by one and reducing again is reducing the successor. */
  lemma {:induction false} ModSuccessor(a: nat, n: nat)
    requires n > 0
    ensures (a % n + 1) % n == (a + 1) % n
  {
    var q, r := a / n, a % n;
    assert a == q * n + r;
    if r + 1 < n {
      ModUnique(a + 1, n, q, r + 1);
      ModUnique(r + 1, n, 0, r + 1);
    } else {
      assert a + 1 == (q + 1) * n;
      ModUnique(a + 1, n, q + 1, 0);
      ModUnique(r + 1, n, 1, 0);
    }
  }

  /** Adding the modulus does not change the remainder. */
  lemma {:induction false} ModAddPeriod(t: nat, n: nat)
    requires n > 0
    ensures (t + n) % n == t % n
  {
    var q := t / n;
    assert t == q * n + t % n;
    assert (q + 1) * n == q * n + n;
    ModUnique(t + n, n, q + 1, t % n);
  }
}
