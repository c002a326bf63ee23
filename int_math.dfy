/**
 * Integer facts shared by the bit-field and layout models: C++ bit fields
 * and strided buffers are described with `/` and `%` on non-negative
 * operands, where Dafny's Euclidean division agrees with C++.
 */
module IntMath {
  /** Division recovers the quotient and remainder a value is built from. */
  lemma QuotRem(n: int, d: int, q: int, r: int)
    requires d > 0 && n == d * q + r && 0 <= r < d
    ensures n / d == q && n % d == r
  {
    var q1, r1 := n / d, n % d;
    assert n == d * q1 + r1 && 0 <= r1 < d;
    var k := q - q1;
    assert d * k == r1 - r by {
      assert d * q - d * q1 == d * (q - q1);
    }
    MultipleInRange(d, k);
  }

  /** Euclidean division splits n into quotient and remainder. */
  lemma DivModSplit(n: int, d: int)
    requires d > 0
    ensures n == d * (n / d) + n % d && 0 <= n % d < d
  {
  }

  /** The only multiple of d strictly between -d and d is 0. */
  lemma MultipleInRange(d: int, k: int)
    requires d > 0 && -d < d * k < d
    ensures k == 0
  {
    if k >= 1 {
      MulAtLeast(d, k);
      assert false;
    } else if k <= -1 {
      MulAtLeast(d, -k);
      assert false;
    }
  }

  lemma MulAtLeast(d: int, k: int)
    requires d > 0 && k >= 1
    ensures d * k >= d
  {
  }
}
