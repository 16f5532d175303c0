/**
 * Facts about real multiplication and division that the geometry relies on,
 * each stated on its own so that the solver sees nothing but the numbers
 * involved.
 */
module Reals {

  /** Dividing both coordinates by the exact length gives squares that add up to 1. */
  lemma UnitQuotient(x: real, y: real, l: real, s: real)
    requires l != 0.0 && s != 0.0
    requires l * l == s && x * x + y * y == s
    ensures (x / l) * (x / l) + (y / l) * (y / l) == 1.0
  {
    var u, v := x / l, y / l;
    DivTimes(x, l);
    DivTimes(y, l);
    var uu := u * u;
    var vv := v * v;
    SquareOfProduct(u, l, x, uu, s);
    SquareOfProduct(v, l, y, vv, s);
    CancelFactor(uu, vv, s, x * x, y * y);
  }

  /** Division by a nonzero number is undone by multiplying back. */
  lemma DivTimes(x: real, l: real)
    requires l != 0.0
    ensures (x / l) * l == x
  {
  }

  /** Squaring u * l = x, with l * l = s. */
  lemma SquareOfProduct(u: real, l: real, x: real, uu: real, s: real)
    requires u * l == x && uu == u * u && s == l * l
    ensures uu * s == x * x
  {
  }

  /** p * s + q * s = s with s nonzero leaves p + q = 1. */
  lemma CancelFactor(p: real, q: real, s: real, a: real, b: real)
    requires s != 0.0
    requires p * s == a && q * s == b && a + b == s
    ensures p + q == 1.0
  {
    assert (p + q - 1.0) * s == 0.0;
  }

  /** A square is never negative. */
  lemma SquareNonnegative(r: real)
    ensures 0.0 <= r * r
  {
    if r < 0.0 {
      assert r * r == (-r) * (-r);
    }
  }

  /** A product of two nonnegative numbers is nonnegative. */
  lemma ProductNonnegative(p: real, q: real)
    requires 0.0 <= p && 0.0 <= q
    ensures 0.0 <= p * q
  {
  }

  /** Multiplying by a positive factor keeps the sign. */
  lemma PositiveScaleSign(k: real, d: real)
    requires 0.0 < k
    ensures 0.0 < k * d <==> 0.0 < d
    ensures k * d <= 0.0 <==> d <= 0.0
  {
    if d > 0.0 {
      assert k * d > 0.0;
    }
    if d <= 0.0 {
      assert k * d <= 0.0;
    }
  }

  /** A quotient times its divisor gives back the dividend. */
  lemma QuotientTimes(n: real, d: real, t: real)
    requires d != 0.0 && t == n / d
    ensures t * d == n
  {
  }

  /** Squaring is monotone on the nonnegative numbers. */
  lemma SquareMonotone(a: real, b: real)
    requires 0.0 <= a && 0.0 <= b && a * a < b * b
    ensures a < b
  {
  }

  /** A nonnegative number over a positive one is nonnegative. */
  lemma QuotientNonnegative(a: real, b: real)
    requires 0.0 <= a && 0.0 < b
    ensures 0.0 <= a / b
  {
  }

  /** Dividing a sum that includes t * n by n gives t on top of the rest's quotient. */
  lemma QuotientOfShift(s: real, t: real, n: real, tn: real)
    requires n != 0.0 && tn == t * n
    ensures (s + tn) / n == s / n + t
  {
    assert tn / n == t;
    assert (s + tn) / n == s / n + tn / n;
  }
}
