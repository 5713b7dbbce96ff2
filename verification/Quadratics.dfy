/** The roots of a quadratic a t^2 + 2 b t + c that is negative at 0. */
module Quadratics {
  import opened RealAlgebra

  function Quadratic(a: real, b: real, c: real, t: real): real {
    a * (t * t) + 2.0 * (b * t) + c
  }

  function Root(a: real, b: real, s: real): real
    requires a != 0.0
  {
    (s - b) / a
  }

  lemma Scaled(a: real, b: real, c: real, t: real, w: real)
    requires w == a * t
    ensures a * Quadratic(a, b, c, t) == w * w + 2.0 * (b * w) + a * c
  {}

  lemma Factors(w: real, b: real, s: real)
    ensures (w - (s - b)) * (w + b + s) == w * w + 2.0 * (b * w) + b * b - s * s
  {}

  /** A product of a, with s^2 the discriminant, is a difference of squares. */
  lemma Factored(a: real, b: real, c: real, s: real, t: real)
    requires s * s == b * b - a * c
    ensures a * Quadratic(a, b, c, t) == (a * t - (s - b)) * (a * t + b + s)
  {
    Scaled(a, b, c, t, a * t);
    Factors(a * t, b, s);
  }

  lemma RootSolves(a: real, b: real, c: real, s: real)
    requires a > 0.0 && s * s == b * b - a * c
    ensures Quadratic(a, b, c, Root(a, b, s)) == 0.0
  {
    var t := Root(a, b, s);
    Quotient(s - b, a);
    Factored(a, b, c, s, t);
    SignOf(a, Quadratic(a, b, c, t));
  }

  lemma PositiveDiscriminant(a: real, b: real, c: real)
    requires a > 0.0 && c < 0.0
    ensures b * b - a * c > 0.0
  {
    SquareNonNegative(b);
    MulPositive(a, -c);
  }

  /** The discriminant of a quadratic that is negative at 0 dominates its middle coefficient. */
  lemma Dominates(a: real, b: real, c: real, s: real)
    requires a > 0.0 && c < 0.0 && s >= 0.0 && s * s == b * b - a * c
    ensures s > b && s > -b
  {
    MulPositive(a, -c);
    SquareMonotone(if b >= 0.0 then b else -b, s);
  }

  /** Negative at 0 and not negative at 1: the larger root lies between. */
  lemma LeavingRoot(a: real, b: real, c: real, s: real)
    requires a > 0.0 && c < 0.0 && a + 2.0 * b + c >= 0.0
    requires s >= 0.0 && s * s == b * b - a * c
    ensures 0.0 < Root(a, b, s) <= 1.0
  {
    var t := Root(a, b, s);
    Dominates(a, b, c, s);
    Quotient(s - b, a);
    SignOf(a, t);
    MulNonNegative(a, a + 2.0 * b + c);
    assert (a + b) * (a + b) - s * s == a * (a + 2.0 * b + c);
    SquareMonotone(s, a + b);
    SignOf(a, t - 1.0);
    assert a * (t - 1.0) == s - (a + b);
  }

  /** Right of 0 the quadratic is negative exactly before the larger root and zero exactly there. */
  lemma SignRightOfZero(a: real, b: real, c: real, s: real, u: real)
    requires a > 0.0 && c < 0.0 && u >= 0.0
    requires s >= 0.0 && s * s == b * b - a * c
    ensures u < Root(a, b, s) <==> Quadratic(a, b, c, u) < 0.0
    ensures u == Root(a, b, s) <==> Quadratic(a, b, c, u) == 0.0
  {
    var t, f := Root(a, b, s), Quadratic(a, b, c, u);
    Dominates(a, b, c, s);
    Quotient(s - b, a);
    MulNonNegative(a, u);
    var g := a * u + b + s;
    Factored(a, b, c, s, u);
    MulDifference(a, u, t);
    SignOf(g, a * u - (s - b));
    SignOf(a, f);
    SignOf(a, u - t);
  }

  /** A quadratic that opens upwards lies below its chord. */
  lemma BelowChord(a: real, b: real, c: real, u: real)
    requires a >= 0.0 && 0.0 <= u <= 1.0
    ensures Quadratic(a, b, c, u) <= (1.0 - u) * c + u * (a + 2.0 * b + c)
  {
    MulNonNegative(u, 1.0 - u);
    MulNonNegative(a, u * (1.0 - u));
    Gap(a, b, c, u);
  }

  lemma Gap(a: real, b: real, c: real, u: real)
    ensures (1.0 - u) * c + u * (a + 2.0 * b + c) - Quadratic(a, b, c, u) == a * (u * (1.0 - u))
  {}

  lemma Mixture(c: real, e: real, u: real)
    requires c < 0.0 && e < 0.0 && 0.0 <= u <= 1.0
    ensures (1.0 - u) * c + u * e < 0.0
  {
    if u < 0.5 {
      MulPositive(1.0 - u, -c);
      MulNonNegative(u, -e);
    } else {
      MulPositive(u, -e);
      MulNonNegative(1.0 - u, -c);
    }
  }
}
