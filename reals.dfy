/** Facts about real products and quotients that the averages and the
    diversity score rest on. */
module Reals {
  /** Multiplying by a positive number keeps the sign. */
  lemma MulSign(x: real, t: real)
    requires t > 0.0
    ensures x > 0.0 ==> x * t > 0.0
    ensures x < 0.0 ==> x * t < 0.0
  {
  }

  /** A positive factor can be cancelled. */
  lemma Cancel(a: real, b: real, t: real)
    requires t > 0.0 && a * t == b * t
    ensures a == b
  {
    MulSign(a - b, t);
  }

  /** A share of a positive whole lies in [0, 1], and is 1 exactly for the whole. */
  lemma ShareRange(s: real, t: real)
    requires t > 0.0 && 0.0 <= s <= t
    ensures 0.0 <= s / t <= 1.0
    ensures s / t == 1.0 <==> s == t
  {
    var r := s / t;
    assert r * t == s;
    MulSign(r, t);
    MulSign(r - 1.0, t);
  }

  /** Scaling by a number in [0, 1] does not increase a non-negative number. */
  lemma ScaleRange(a: real, m: real)
    requires 0.0 <= a <= 1.0 && m >= 0.0
    ensures 0.0 <= a * m <= m
  {
    assert (1.0 - a) * m >= 0.0;
  }
}
