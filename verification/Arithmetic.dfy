/** Multiplication and division facts shared by the arithmetic proofs. */
module Arithmetic {
  lemma Multiple(d: int, bound: int)
    requires bound >= 0
    ensures d >= 1 ==> d * bound >= bound
    ensures d <= -1 ==> d * bound <= -bound
  {
    if d >= 1 {
      assert (d - 1) * bound >= 0;
    } else if d <= -1 {
      assert (-1 - d) * bound >= 0;
    }
  }

  lemma QuotientUnique(d: int, q: int, bound: nat, r: nat, t: nat)
    requires r < bound && t < bound && d * bound + r == q * bound + t
    ensures d == q && r == t
  {
    assert (d - q) * bound == d * bound - q * bound;
    Multiple(d - q, bound);
  }

  lemma Divides(v: nat, bound: nat, q: int, r: nat)
    requires r < bound && v == q * bound + r
    ensures v % bound == r && v / bound == q
  {
    QuotientUnique(v / bound, q, bound, v % bound, r);
  }

  lemma Euclid(a: int, b: int)
    requires b > 0
    ensures a == a / b * b + a % b && 0 <= a % b < b
  {
  }

  lemma QuotientBounds(a: int, b: int, low: int, high: int)
    requires b > 0 && low * b <= a < high * b + b
    ensures low <= a / b <= high
  {
    var q := a / b;
    Euclid(a, b);
    assert (q - low) * b == q * b - low * b;
    assert (q - high) * b == q * b - high * b;
    Multiple(q - low, b);
    Multiple(q - high, b);
  }

  lemma Gap(p: int, q: int, b: int, r: int, t: int)
    requires 0 <= r < b && 0 <= t < b && q * b + t >= p * b + r + b
    ensures q > p
  {
    assert (q - p) * b == q * b - p * b;
    Multiple(q - p, b);
  }

  /** Numbers at least one divisor apart have different quotients. */
  lemma QuotientGap(a: int, c: int, b: int)
    requires b > 0 && c >= a + b
    ensures c / b > a / b
  {
    Euclid(a, b);
    Euclid(c, b);
    Gap(a / b, c / b, b, a % b, c % b);
  }

  /** Quotients by one divisor are monotone. */
  lemma QuotientMonotone(a: int, c: int, b: int)
    requires b > 0 && a <= c
    ensures a / b <= c / b
  {
    Euclid(a, b);
    Euclid(c, b);
    NoInversion(a / b, c / b, b, a % b, c % b);
  }

  lemma NoInversion(p: int, q: int, b: int, r: int, t: int)
    requires 0 <= r < b && 0 <= t < b && q * b + t >= p * b + r
    ensures p <= q
  {
    assert (p - q) * b == p * b - q * b;
    Multiple(p - q, b);
  }
}
