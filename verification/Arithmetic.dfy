/** Facts about products and quotients of integers that the solver does not find by itself. */
module Arithmetic {
  lemma MulStep(c: int, n: int)
    ensures c * (n + 1) == c * n + c && (n + 1) * c == n * c + c
  {
  }

  lemma ProductEqual(a: int, b: int, w: int)
    requires w > 0 && a * w == b * w
    ensures a == b
  {
  }

  lemma ProductOrder(x: int, y: int, w: int)
    requires w >= 0
    ensures x <= y ==> x * w <= y * w
  {
  }

  lemma QuotientIs(a: int, b: int, q: int)
    requires b > 0 && q * b <= a < (q + 1) * b
    ensures a / b == q
  {
    var d := a / b;
    assert d * b <= a < (d + 1) * b;
    ProductOrder(d + 1, q, b);
    ProductOrder(q + 1, d, b);
  }

  lemma QuotientBounds(a: int, b: int)
    requires b > 0
    ensures (a / b) * b <= a < (a / b + 1) * b
  {
  }

  lemma QuotientMonotone(a: int, a': int, b: int)
    requires b > 0 && a <= a'
    ensures a / b <= a' / b
  {
    var d, d' := a / b, a' / b;
    ProductOrder(d' + 1, d, b);
  }
}
