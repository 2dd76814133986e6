/** Products and quotients of integers. */
module Arithmetic {

  function Min(x: int, y: int): int {
    if x <= y then x else y
  }

  function Max(x: int, y: int): int {
    if x <= y then y else x
  }

  lemma DivBounds(x: int, d: int)
    requires d > 0
    ensures x / d * d <= x < (x / d + 1) * d
  {
    assert x == x / d * d + x % d;
    assert (x / d + 1) * d == x / d * d + d;
  }

  lemma MulMonotone(a: int, b: int, d: int)
    requires a <= b && d > 0
    ensures a * d <= b * d
  {
  }

  /** Division as a Galois connection: k is at most the quotient iff k*d fits into x. */
  lemma AtMostQuotient(x: int, d: int, k: int)
    requires d > 0
    ensures k <= x / d <==> k * d <= x
  {
    DivBounds(x, d);
    if k <= x / d {
      MulMonotone(k, x / d, d);
    } else {
      MulMonotone(x / d + 1, k, d);
    }
  }

  /** If q*d <= x < (q+1)*d then q is the quotient. */
  lemma QuotientIsUnique(x: int, d: int, q: int)
    requires d > 0 && q * d <= x < (q + 1) * d
    ensures x / d == q
  {
    AtMostQuotient(x, d, q);
    AtMostQuotient(x, d, q + 1);
  }
}
