/** Order and quotients of real numbers. */
module Reals {
  lemma ProductPositive(a: real, b: real)
    requires a > 0.0 && b > 0.0
    ensures a * b > 0.0
  {
  }

  /** A positive factor keeps the order. */
  lemma ProductOrder(a: real, b: real, c: real)
    requires c > 0.0
    ensures a >= b <==> a * c >= b * c
    ensures a > b <==> a * c > b * c
  {
    if a > b {
      ProductPositive(a - b, c);
    } else if b > a {
      ProductPositive(b - a, c);
    }
  }

  lemma QuotientTimes(a: real, b: real)
    requires b != 0.0
    ensures a / b * b == a
  {
  }

  lemma QuotientIs(a: real, b: real, q: real)
    requires b != 0.0 && a == q * b
    ensures a / b == q
  {
    QuotientTimes(a, b);
    var r := a / b;
    if b > 0.0 {
      ProductOrder(r, q, b);
      ProductOrder(q, r, b);
    } else {
      assert r * -b == -a == q * -b;
      ProductOrder(r, q, -b);
      ProductOrder(q, r, -b);
    }
  }

  lemma QuotientOrder(a: real, b: real, c: real)
    requires c > 0.0
    ensures a <= b <==> a / c <= b / c
  {
    QuotientTimes(a, c);
    QuotientTimes(b, c);
    ProductOrder(b / c, a / c, c);
  }

  /** A ratio is at least a bound exactly when the numerator is at least that multiple. */
  lemma RatioBound(a: real, b: real, least: real)
    requires b > 0.0
    ensures a / b >= least <==> a >= least * b
  {
    QuotientTimes(a, b);
    ProductOrder(a / b, least, b);
  }

  /** Shares of one amount: the one of the larger whole is the smaller. */
  lemma LessOfMore(q: real, r: real, low: real, high: real)
    requires 0.0 < low <= high && r >= 0.0 && q * high == r * low
    ensures q <= r
  {
    assert r * high >= r * low by {
      if r > 0.0 {
        ProductOrder(high, low, r);
      }
    }
    ProductOrder(r, q, high);
  }
}
