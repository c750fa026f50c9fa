/** Facts about products and quotients that the solver needs to be told. */
module Arithmetic {
  lemma MulOrder(a: int, b: int, n: nat)
    requires a <= b
    ensures a * n <= b * n
  {
    assert 0 <= (b - a) * n;
  }

  lemma Distribute(a: int, b: int, n: int)
    ensures (a + b) * n == a * n + b * n
  {}

  /** Integer division is the adjoint of multiplication. */
  lemma QuotientAtLeast(a: nat, q: nat, n: nat)
    requires n > 0
    ensures q <= a / n <==> q * n <= a
  {
    var d := a / n;
    assert a == d * n + a % n;
    if q <= d { MulOrder(q, d, n); } else { MulOrder(d + 1, q, n); }
  }

  lemma QuotientMonotone(a: nat, b: nat, n: nat)
    requires n > 0 && a <= b
    ensures a / n <= b / n
  {
    QuotientAtLeast(a, a / n, n);
    QuotientAtLeast(b, a / n, n);
  }

  /** Row and column of a row-major index. */
  lemma RowMajor(x: nat, y: nat, width: nat)
    requires x < width
    ensures (y * width + x) / width == y && (y * width + x) % width == x
  {
    var i := y * width + x;
    QuotientAtLeast(i, y, width);
    Distribute(y, 1, width);
    QuotientAtLeast(i, y + 1, width);
    assert i == i / width * width + i % width;
  }
}
