/** Machine integer types and the integer division facts shared by the byte
    decoder and the wavelet index arithmetic. Dafny's `/` and `%` on
    non-negative operands agree with the unsigned C and numpy operations
    they model. */
module Arith {

  /** An 8-bit byte of a raw buffer. */
  newtype byte = x: int | 0 <= x < 0x100

  /** C's `uint32_t` and ROOT's `UInt_t`. */
  newtype uint32 = x: int | 0 <= x < 0x1_0000_0000

  /** Euclidean division is determined by quotient and remainder. */
  lemma DivModUnique(a: int, d: int, q: int, r: int)
    requires d > 0 && 0 <= r < d && a == q * d + r
    ensures a / d == q && a % d == r
  {
    var q', r' := a / d, a % d;
    assert a == q' * d + r';
    MulDistributes(q, q', d);
    if q > q' {
      MulAtLeast(q - q', d);
    } else if q < q' {
      MulDistributes(q', q, d);
      MulAtLeast(q' - q, d);
    }
  }

  lemma MulDistributes(x: int, y: int, d: int)
    ensures (x - y) * d == x * d - y * d
  {
  }

  lemma MulAtLeast(x: int, d: int)
    requires x >= 1 && d > 0
    ensures x * d >= d
  {
  }

  /** Position `first + k * step` of a strided index set lies in phase `first`
      and is the `k`-th element of that phase. */
  lemma StrideDivMod(first: nat, k: nat, step: nat)
    requires first < step
    ensures (first + k * step) % step == first
    ensures (first + k * step) / step == k
  {
    DivModUnique(first + k * step, step, k, first);
  }

  /** Every index is `step * (i / step) + i % step`. */
  lemma SplitIndex(i: nat, step: nat)
    requires step > 0
    ensures i == (i / step) * step + i % step
    ensures 0 <= i % step < step
  {
  }

  /** An index below `m * step` has quotient below `m`. */
  lemma QuotientBound(i: nat, m: nat, step: nat)
    requires step > 0 && i < m * step
    ensures i / step < m
  {
    SplitIndex(i, step);
  }

  /** Member `k < m` of phase `first` lies below `m * step`. */
  lemma QuotientBoundConverse(k: nat, m: nat, step: nat, first: nat)
    requires k < m && first < step
    ensures first + k * step < m * step
  {
    assert (k + 1) * step <= m * step;
  }

  /** Divisibility by `2 * d` implies divisibility by `d`, with twice the quotient. */
  lemma HalfDivides(n: nat, d: nat)
    requires d > 0 && n % (2 * d) == 0
    ensures n % d == 0
    ensures n / d == 2 * (n / (2 * d))
  {
    var q := n / (2 * d);
    assert n == q * (2 * d);
    DivModUnique(n, d, 2 * q, 0);
  }
}
