/** Remainders and multiples: the few nonlinear facts the proofs share. */
module Arithmetic {

  lemma {:induction false} ModSucc(a: nat, n: nat)
    requires n > 0
    ensures (a + 1) % n == if a % n == n - 1 then 0 else a % n + 1
  {
    assert a == (a / n) * n + a % n;
    if a % n == n - 1 {
      assert a + 1 == (a / n + 1) * n + 0;
      ModIs(a + 1, a / n + 1, 0, n);
    } else {
      ModIs(a + 1, a / n, a % n + 1, n);
    }
  }

  lemma {:induction false} ModIs(x: nat, q: nat, r: nat, n: nat)
    requires r < n && x == q * n + r
    ensures x % n == r
  {
    var d := x / n - q;
    assert x == (x / n) * n + x % n;
    assert d * n == r - x % n;
    Multiple(d, n);
  }

  lemma {:induction false} Multiple(d: int, n: nat)
    ensures d >= 1 ==> d * n >= n
    ensures d <= -1 ==> d * n + n <= 0
  {
  }

  lemma {:induction false} ModTwice(a: nat, k: nat, n: nat)
    requires n > 0
    ensures (a % n + k) % n == (a + k) % n
    decreases k
  {
    if k > 0 {
      ModTwice(a, k - 1, n);
      ModSucc(a % n + (k - 1), n);
      ModSucc(a + (k - 1), n);
    }
  }

  lemma {:induction false} Monotone(a: int, b: int, m: int)
    requires a <= b && m >= 0
    ensures a * m <= b * m
  {
  }
}
