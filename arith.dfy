/** Integer facts shared by the resampler and the frame indexing of the renderer. */
module Arith {

  function Min(a: int, b: int): (m: int)
    ensures m <= a && m <= b && (m == a || m == b)
  {
    if a <= b then a else b
  }

  /** Euclidean division is unique: a quotient and remainder in range are THE quotient and remainder. */
  lemma DivModUnique(m: int, d: int, q: int, r: int)
    requires d > 0 && 0 <= r < d && m == q * d + r
    ensures m / d == q && m % d == r
  {
    var q', r' := m / d, m % d;
    assert m == q' * d + r';
    assert (q - q') * d == r' - r;
    if q' < q {
      assert (q - q') * d >= d by { MulAtLeast(q - q', d); }
    } else if q < q' {
      assert (q' - q) * d >= d by { MulAtLeast(q' - q, d); }
    }
  }

  lemma MulAtLeast(a: int, d: int)
    requires a >= 1 && d > 0
    ensures a * d >= d
  {
    assert (a - 1) * d >= 0;
  }

  lemma MulMono(a: nat, b: nat, c: nat)
    requires a <= b
    ensures a * c <= b * c
  {
    assert (b - a) * c >= 0;
  }

  /** Frame `i` of a buffer of `c`-channel frames occupies slots `i*c .. i*c+c`, inside the first `(n/c)*c`. */
  lemma FrameSlot(n: nat, c: nat, i: nat, j: nat)
    requires c > 0 && i < n / c && j < c
    ensures i * c + j < (n / c) * c <= n
    ensures (i * c + j) / c == i && (i * c + j) % c == j
  {
    DivModUnique(i * c + j, c, i, j);
    assert (n / c - i) * c >= c by { MulAtLeast(n / c - i, c); }
    assert (n / c) * c <= n;
  }
}
