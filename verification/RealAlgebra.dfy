/** Real numbers: the library functions the models share, and facts about products and quotients. */
module RealAlgebra {

  type Fn = real -> real

  /** The square root, by its defining equation. */
  ghost predicate IsSqrt(sqrt: Fn) {
    forall v :: v >= 0.0 ==> sqrt(v) >= 0.0 && sqrt(v) * sqrt(v) == v
  }

  function Max(a: real, b: real): real {
    if a < b then b else a
  }

  function Min(a: real, b: real): real {
    if b < a then b else a
  }

  function Clamp(v: real, lo: real, hi: real): real {
    if v < lo then lo else if hi < v then hi else v
  }

  function Abs(a: real): real {
    if a < 0.0 then -a else a
  }

  ghost predicate Sorted(a: seq<real>) {
    forall i, j :: 0 <= i <= j < |a| ==> a[i] <= a[j]
  }

  lemma MulPositive(a: real, b: real)
    requires a > 0.0 && b > 0.0
    ensures a * b > 0.0
  {}

  lemma MulNonNegative(a: real, b: real)
    requires a >= 0.0 && b >= 0.0
    ensures a * b >= 0.0
  {}

  lemma SquareNonNegative(a: real)
    ensures a * a >= 0.0
  {}

  lemma SquareOfNegation(a: real, b: real)
    requires a == -b
    ensures a * a == b * b
  {}

  lemma MulMonotone(a: real, b: real, c: real)
    requires a <= b && c >= 0.0
    ensures a * c <= b * c
  {}

  lemma MulStrict(a: real, b: real, c: real)
    requires a < b && c > 0.0
    ensures a * c < b * c
  {}

  lemma MulCancel(a: real, b: real)
    requires a * b == 0.0
    ensures a == 0.0 || b == 0.0
  {}

  /** The sign of a factor, read off a product with a positive one. */
  lemma SignOf(a: real, b: real)
    requires a > 0.0
    ensures a * b > 0.0 <==> b > 0.0
    ensures a * b < 0.0 <==> b < 0.0
    ensures a * b == 0.0 <==> b == 0.0
  {}

  lemma SquaresSum(a: real, b: real)
    ensures a * a + b * b >= 0.0
    ensures a * a + b * b == 0.0 ==> a == 0.0 && b == 0.0
  {
    SquareNonNegative(a);
    SquareNonNegative(b);
    if a * a == 0.0 {
      MulCancel(a, a);
    }
    if b * b == 0.0 {
      MulCancel(b, b);
    }
  }

  lemma SquareStrict(a: real, b: real)
    requires 0.0 <= a < b
    ensures a * a < b * b
  {
    calc {
      a * a;
    <= { MulMonotone(a, b, a); }
      b * a;
    ==
      a * b;
    <  { MulStrict(a, b, b); }
      b * b;
    }
  }

  lemma SquareMonotone(a: real, b: real)
    requires a >= 0.0 && b >= 0.0
    ensures a <= b <==> a * a <= b * b
    ensures a < b <==> a * a < b * b
    ensures a == b <==> a * a == b * b
  {
    if a < b {
      SquareStrict(a, b);
    } else if b < a {
      SquareStrict(b, a);
    }
  }

  lemma Quotient(n: real, a: real)
    requires a != 0.0
    ensures a * (n / a) == n
  {}

  lemma QuotientIs(n: real, a: real, p: real)
    requires a != 0.0 && a * p == n
    ensures n / a == p
  {}

  lemma MulDifference(a: real, u: real, t: real)
    ensures a * (u - t) == a * u - a * t
  {}
}
