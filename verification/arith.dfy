/** Integer helpers: wrap-around of fixed-width C integers and bit tests. */
module Arith {

  /** `x % n` for `0 <= x < 2n` is a single conditional subtraction. */
  lemma ModSmall(x: int, n: int)
    requires 0 < n && 0 <= x < 2 * n
    ensures x % n == (if x < n then x else x - n)
  {
    var q, r := x / n, x % n;
    assert x == q * n + r && 0 <= r < n;
    MulBounds(q, n);
    assert q == 0 || q == 1;
  }

  lemma MulBounds(q: int, n: int)
    requires 0 < n
    ensures q >= 2 ==> q * n >= 2 * n
    ensures q <= -1 ==> q * n <= -n
  {
  }

  /** Division by `n` recovers the quotient and remainder of `q * n + r`. */
  lemma DivModUnique(q: int, r: int, n: int)
    requires 0 < n && 0 <= r < n
    ensures (q * n + r) / n == q && (q * n + r) % n == r
  {
    var x := q * n + r;
    var q', r' := x / n, x % n;
    assert (q - q') * n == r' - r;
    MulBounds(q - q' + 1, n);
    MulBounds(q - q' - 1, n);
  }

  /** A remainder by a larger divisor is the number itself. */
  lemma ModBelow(x: int, n: int)
    requires 0 <= x < n
    ensures x % n == x
  {
    DivModUnique(0, x, n);
  }

  /** The quotient times the divisor is at most the dividend and within
      one divisor of it. */
  lemma DivBounds(x: nat, n: nat)
    requires 0 < n
    ensures (x / n) * n <= x < (x / n) * n + n
  {
    assert x == (x / n) * n + x % n;
  }

  /** The row-major index of cell `(i, j)` of an `n` by `m` matrix is in
      range. */
  lemma RowMajorIndex(i: nat, j: nat, n: nat, m: nat)
    requires i < n && j < m
    ensures i * m + j < n * m
  {
    assert (i + 1) * m <= n * m by {
      assert n * m - (i + 1) * m == (n - i - 1) * m;
    }
  }

  /** Reducing a summand first does not change a sum's remainder. */
  lemma {:induction false} AddMod(a: nat, b: nat, n: nat)
    requires 0 < n
    ensures (a % n + b) % n == (a + b) % n
  {
    var r' := (a % n + b) % n;
    var q' := (a % n + b) / n;
    assert a + b == (a / n + q') * n + r';
    DivModUnique(a / n + q', r', n);
  }
}
