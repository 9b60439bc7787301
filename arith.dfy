/** Small facts of real arithmetic that the solver does not find by itself
    (products of unknowns), kept apart so that each proof stays cheap. */
module Arith {

  /** Zero divided by twice a product of non-zero numbers is zero. Stated
      for two numbers, since facts about a square x * x are not usable by
      the solver when obtained from a lemma. */
  lemma ZeroOverTwiceProduct(s: real, u: real)
    requires s != 0.0 && u != 0.0
    ensures -(0.0 * 0.0) / (2.0 * (s * u)) == 0.0
  {
  }

  /** Dividing by s and multiplying by c * s leaves a multiplied by c. */
  lemma QuotientTimes(a: real, s: real, c: real)
    requires s != 0.0
    ensures (a / s) * (c * s) == a * c
  {
    assert (a / s) * s == a;
    assert (a / s) * (c * s) == ((a / s) * s) * c;
  }

  /** x * (t - g) == x * t - g * x. */
  lemma Distribute(x: real, t: real, g: real)
    ensures x * (t - g) == 1.0 * (x * t) + -g * x
  {
  }

  /** Multiplying by a positive factor keeps the sign, in both directions. */
  lemma SignOfProduct(d: real, k: real)
    requires k > 0.0
    ensures d >= 0.0 <==> d * k >= 0.0
    ensures d > 0.0 <==> d * k > 0.0
  {
    if d >= 0.0 {
      assert d * k >= 0.0;
      if d > 0.0 { assert d * k > 0.0; }
    } else {
      assert (-d) * k > 0.0;
    }
  }

  /** A non-zero factor cancels. */
  lemma CancelNonZero(a: real, b: real, k: real)
    requires k != 0.0 && a * k == b * k
    ensures a == b
  {
    assert (a - b) * k == 0.0;
  }

  /** From c * s <= t with s > 0, c <= t / s. */
  lemma DivAtLeast(c: real, t: real, s: real)
    requires s > 0.0 && c * s <= t
    ensures c <= t / s
  {
    var q := t / s;
    assert q * s == t;
    assert (q - c) * s == t - c * s;
    SignOfProduct(q - c, s);
  }

  /** From t <= c * s with s > 0, t / s <= c. */
  lemma DivAtMost(c: real, t: real, s: real)
    requires s > 0.0 && t <= c * s
    ensures t / s <= c
  {
    var q := t / s;
    assert q * s == t;
    assert (c - q) * s == c * s - t;
    SignOfProduct(c - q, s);
  }

  /** (t - g * s) / s == t / s - g. */
  lemma DivShift(t: real, s: real, g: real)
    requires s != 0.0
    ensures (t - g * s) / s == t / s - g
  {
    assert (t / s - g) * s == t - g * s;
  }

  /** A non-decreasing factor: a <= b and x > 0 give a * x <= b * x. */
  lemma MulMonotone(a: real, b: real, x: real)
    requires a <= b && x > 0.0
    ensures a * x <= b * x
  {
    SignOfProduct(b - a, x);
    assert (b - a) * x == b * x - a * x;
  }

  /** A quotient of positive numbers is positive. */
  lemma PositiveQuotient(c: real, e: real)
    requires c > 0.0 && e > 0.0
    ensures c / e > 0.0
  {
    SignOfProduct(c / e, e);
  }

  /** An offset d within an extent e, multiplied by a factor at most
      k times c / e, stays within [0, k * c]. */
  lemma FitWithin(d: real, e: real, s: real, c: real, k: real)
    requires 0.0 <= d <= e && e > 0.0 && 0.0 < s <= k * (c / e)
    ensures 0.0 <= d * s <= k * c
  {
    SignOfProduct(d, s);
    MulMonotone(d, e, s);
    MulMonotone(s, k * (c / e), e);
    assert (c / e) * e == c;
    assert (k * (c / e)) * e == k * ((c / e) * e);
    assert d * s <= e * s;
  }

  /** x ** 2. Kept as a function so that facts about a square stay
      attached to one term. */
  function Square(a: real): real
  {
    a * a
  }

  /** A square is never negative, and zero exactly when the number is. */
  lemma SquareSign(a: real)
    ensures Square(a) >= 0.0
    ensures Square(a) == 0.0 <==> a == 0.0
  {
    if a != 0.0 {
      assert Square(a) / a == a;
    }
  }
}
