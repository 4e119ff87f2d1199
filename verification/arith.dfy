/** Facts about multiplication and division by a positive number that the
    solver does not find on its own. */
module Arith {

  /** Multiplication by a positive factor preserves the order. */
  lemma MulMonotone(a: int, c: int, b: int)
    requires b > 0 && a <= c
    ensures a * b <= c * b
  {
  }

  /** Multiplication by a positive factor reflects the order. */
  lemma MulLess(a: int, c: int, b: int)
    requires b > 0 && a * b < c * b
    ensures a < c
  {
  }

  /** The only multiple of a positive b strictly between -b and b is 0. */
  lemma MulStrict(m: int, b: int)
    requires b > 0 && -b < m * b < b
    ensures m == 0
  {
    if m >= 1 {
      MulMonotone(1, m, b);
    } else if m <= -1 {
      MulMonotone(m, -1, b);
    }
  }

  /** Quotient and remainder are unique. */
  lemma DivUnique(x: int, b: int, q: int, r: int)
    requires b > 0 && 0 <= r < b && x == q * b + r
    ensures x / b == q && x % b == r
  {
    var d, m := x / b, x % b;
    assert (q - d) * b == m - r;
    MulStrict(q - d, b);
  }

  /** A multiple of b leaves no remainder. */
  lemma MultipleMod(q: int, b: int)
    requires b > 0
    ensures (q * b) % b == 0
  {
    DivUnique(q * b, b, q, 0);
  }

  /** Removing b from the dividend removes one from the quotient. */
  lemma DivShift(x: int, b: int)
    requires b > 0
    ensures x / b == (x - b) / b + 1
  {
    var q, r := (x - b) / b, (x - b) % b;
    assert x == (q + 1) * b + r;
    DivUnique(x, b, q + 1, r);
  }

  /** One fewer factor of b is b less. */
  lemma MulPred(k: int, b: int)
    ensures (k - 1) * b == k * b - b
  {
  }
}
