/** Division and remainder by a variable divisor. */
module Arith {

  lemma Scaled(d: int, k: int)
    requires d > 0 && k >= 1
    ensures d * k >= d
  {
  }

  lemma Distribute(d: int, a: int, b: int)
    ensures d * (a - b) == d * a - d * b
    ensures d * (a + b) == d * a + d * b
  {
  }

  lemma Euclid(x: int, d: int)
    requires d > 0
    ensures x == d * (x / d) + x % d && 0 <= x % d < d
  {
  }

  // Quotient and remainder are determined by the division equation.
  lemma DivisionIs(x: int, d: int, q: int, r: int)
    requires d > 0 && x == d * q + r && 0 <= r < d
    ensures x % d == r && x / d == q
  {
    Euclid(x, d);
    var q', r' := x / d, x % d;
    Distribute(d, q', q);
    Distribute(d, q, q');
    if q' > q {
      Scaled(d, q' - q);
    } else if q' < q {
      Scaled(d, q - q');
    }
  }

  // Taking the remainder by a multiple first changes nothing.
  lemma RemainderOfRemainder(x: int, m: int, d: int)
    requires m > 0 && d > 0 && m % d == 0
    ensures x % m % d == x % d
  {
    var t, q, r := m / d, x / m, x % m;
    Euclid(x, m);
    Euclid(m, d);
    Euclid(r, d);
    Regroup(d, t, q);
    Distribute(d, t * q, r / d);
    DivisionIs(x, d, t * q + r / d, r % d);
  }

  lemma Regroup(a: int, b: int, c: int)
    ensures (a * b) * c == a * (b * c)
  {
  }

  lemma QuotientBound(x: int, d: int)
    requires d > 0 && x >= 0
    ensures 0 <= x / d <= x
  {
    Euclid(x, d);
    var q := x / d;
    if q < 0 {
      Distribute(d, 0, q);
      Scaled(d, -q);
    } else if q > 0 {
      Scaled(q, d);
    }
  }

  // A quotient lies between the bounds that its numerator respects.
  lemma QuotientBetween(x: int, d: int, lo: int, hi: int)
    requires d > 0 && lo * d <= x <= hi * d
    ensures lo <= x / d <= hi
  {
    Euclid(x, d);
    var q := x / d;
    if q < lo {
      Distribute(d, lo, q);
      Scaled(d, lo - q);
    } else if q > hi {
      Distribute(d, q, hi);
      Scaled(d, q - hi);
    }
  }

  lemma Monotone(a: int, b: int, k: int)
    requires a <= b && k >= 0
    ensures a * k <= b * k
    ensures k * a <= k * b
  {
  }
}
