/** Division by numbers that are not known. */
module Arith {

  lemma DivIs(a: int, d: int, q: int, r: int)
    requires d > 0 && a == d * q + r && 0 <= r < d
    ensures a / d == q
  {
    SameQuotient(d, q, r, a / d, a % d);
  }

  lemma SameQuotient(d: int, q: int, r: int, q': int, r': int)
    requires d > 0 && d * q + r == d * q' + r' && 0 <= r < d && 0 <= r' < d
    ensures q == q'
  {
    if q > q' {
      Multiple(d, q - q');
    } else if q < q' {
      Multiple(d, q' - q);
    }
  }

  lemma Multiple(d: int, n: int)
    requires d > 0 && n > 0
    ensures d * n >= d
  {
  }

  lemma DivNonNegative(a: int, d: int)
    requires 0 <= a && 0 < d
    ensures a / d >= 0
  {
  }

  lemma MultipleHasNoRest(d: int, q: int)
    requires d > 0
    ensures d * q % d == 0
  {
    SameQuotient(d, q, 0, d * q / d, d * q % d);
  }

  lemma AtLeastOne(a: int, d: int)
    requires 0 < d <= a
    ensures a / d >= 1
  {
    if a / d < 1 {
      DivNonNegative(a, d);
    }
  }

  lemma DivTwice(a: int, d: int)
    requires d > 0
    ensures a / 2 / d == a / (2 * d)
  {
    var q, r := a / 2 / d, a / 2 % d;
    assert a / 2 == d * q + r;
    assert a == 2 * d * q + (2 * r + a % 2);
    SameQuotient(2 * d, q, 2 * r + a % 2, a / (2 * d), a % (2 * d));
  }
}
