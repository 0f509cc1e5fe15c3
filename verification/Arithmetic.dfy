/** Facts about products, quotients and rests. */
module Arithmetic {

  lemma MulMonotone(a: nat, b: nat, c: nat)
    requires a <= b
    ensures a * c <= b * c
  {
    assert (b - a) * c >= 0;
  }

  /** Row m of a matrix with `rows` rows ends inside it. */
  lemma RowFits(m: nat, rows: nat, cols: nat)
    requires m < rows
    ensures m * cols + cols <= rows * cols
    ensures (m + 1) * cols == m * cols + cols
  {
    MulMonotone(m + 1, rows, cols);
  }

  /** Quotient and rest are unique. */
  lemma DivisionIsUnique(x: nat, q: nat, r: nat, d: nat)
    requires r < d && x == q * d + r
    ensures x / d == q && x % d == r
  {
    var q', r' := x / d, x % d;
    assert x == q' * d + r';
    assert (q + 1) * d == q * d + d && (q' + 1) * d == q' * d + d;
    if q < q' {
      MulMonotone(q + 1, q', d);
    } else if q' < q {
      MulMonotone(q' + 1, q, d);
    }
  }

  /** A multiple of the modulus does not count. */
  lemma ModShift(x: nat, k: nat, n: nat)
    requires n > 0
    ensures (k * n + x) % n == x % n
  {
    var q, r := x / n, x % n;
    assert x == q * n + r;
    assert k * n + x == (k + q) * n + r;
    DivisionIsUnique(k * n + x, k + q, r, n);
  }
}
