/** Sine, cosine and arc cosine, by their defining laws. */
module Angles {
  import opened RealAlgebra

  /** Sine and cosine, by the circle and by their addition laws. */
  ghost predicate IsTrig(sin: Fn, cos: Fn) {
    && (forall a :: sin(a) * sin(a) + cos(a) * cos(a) == 1.0)
    && (forall a, b :: sin(a + b) == sin(a) * cos(b) + cos(a) * sin(b))
    && (forall a, b :: cos(a + b) == cos(a) * cos(b) - sin(a) * sin(b))
  }

  /** The principal arc cosine: it undoes the cosine and ranges from zero to acos(-1), the first
      half turn, inside which the sine is positive.
   */
  ghost predicate IsAcos(acos: Fn, sin: Fn, cos: Fn) {
    && (forall c :: -1.0 <= c <= 1.0 ==> 0.0 <= acos(c) <= acos(-1.0) && cos(acos(c)) == c)
    && (forall a :: 0.0 < a < acos(-1.0) ==> sin(a) > 0.0)
  }

  /** Angles are in radians: near zero the sine is about the angle. */
  ghost predicate InRadians(sin: Fn) {
    && (forall a :: a >= 0.0 ==> sin(a) <= a)
    && (forall a :: 0.0 <= a <= 1.0 ==> sin(a) >= 0.5 * a)
  }

  lemma TrigCircle(sin: Fn, cos: Fn, a: real)
    requires IsTrig(sin, cos)
    ensures sin(a) * sin(a) + cos(a) * cos(a) == 1.0
    ensures -1.0 <= sin(a) <= 1.0 && -1.0 <= cos(a) <= 1.0
  {
    OnCircle(sin(a), cos(a));
  }

  lemma OnCircle(s: real, c: real)
    requires s * s + c * c == 1.0
    ensures -1.0 <= s <= 1.0 && -1.0 <= c <= 1.0
  {
    SmallSquare(s, c);
    SmallSquare(c, s);
  }

  lemma SmallSquare(s: real, c: real)
    requires s * s + c * c == 1.0
    ensures -1.0 <= c <= 1.0
  {
    SquareNonNegative(s);
    if c > 1.0 {
      SquareStrict(1.0, c);
    } else if c < -1.0 {
      SquareStrict(1.0, -c);
      SquareOfNegation(c, -c);
    }
  }

  lemma AdditionLaws(sin: Fn, cos: Fn, a: real, b: real)
    requires IsTrig(sin, cos)
    ensures sin(a + b) == sin(a) * cos(b) + cos(a) * sin(b)
    ensures cos(a + b) == cos(a) * cos(b) - sin(a) * sin(b)
  {}

  lemma AcosFact(acos: Fn, sin: Fn, cos: Fn, c: real)
    requires IsAcos(acos, sin, cos) && -1.0 <= c <= 1.0
    ensures 0.0 <= acos(c) <= acos(-1.0) && cos(acos(c)) == c
  {}

  lemma SinePositive(acos: Fn, sin: Fn, cos: Fn, a: real)
    requires IsAcos(acos, sin, cos)
    ensures 0.0 < a < acos(-1.0) ==> sin(a) > 0.0
  {}

  lemma DifferenceLaws(sin: Fn, cos: Fn, a: real, b: real)
    requires IsTrig(sin, cos)
    ensures sin(a - b) == sin(a) * cos(b) - cos(a) * sin(b)
    ensures cos(a - b) == cos(a) * cos(b) + sin(a) * sin(b)
  {
    hide IsTrig;
    var d := a - b;
    assert d + b == a;
    AdditionLaws(sin, cos, d, b);
    TrigCircle(sin, cos, b);
    Solved(sin(d), cos(d), sin(b), cos(b), sin(a), cos(a));
  }

  /** Solving the addition laws for the first angle. */
  lemma Solved(x: real, y: real, s: real, c: real, p: real, q: real)
    requires p == x * c + y * s && q == y * c - x * s && s * s + c * c == 1.0
    ensures x == p * c - q * s && y == q * c + p * s
  {
    calc {
      p * c - q * s;
    ==
      (x * c + y * s) * c - (y * c - x * s) * s;
    ==
      x * (s * s + c * c);
    ==
      x;
    }
    calc {
      q * c + p * s;
    ==
      (y * c - x * s) * c + (x * c + y * s) * s;
    ==
      y * (s * s + c * c);
    ==
      y;
    }
  }

  lemma AtZero(sin: Fn, cos: Fn)
    requires IsTrig(sin, cos)
    ensures sin(0.0) == 0.0 && cos(0.0) == 1.0
  {
    hide IsTrig;
    DifferenceLaws(sin, cos, 1.0, 1.0);
    TrigCircle(sin, cos, 1.0);
    assert 1.0 - 1.0 == 0.0;
  }

  /** The half turn, and that it is longer than a radian. */
  lemma HalfTurn(acos: Fn, sin: Fn, cos: Fn)
    requires IsTrig(sin, cos) && IsAcos(acos, sin, cos)
    ensures sin(acos(-1.0)) == 0.0 && cos(acos(-1.0)) == -1.0 && acos(-1.0) > 0.0
    ensures InRadians(sin) ==> acos(-1.0) > 1.0
  {
    hide IsTrig, IsAcos;
    var pi := acos(-1.0);
    AcosFact(acos, sin, cos, -1.0);
    TrigCircle(sin, cos, pi);
    AtZero(sin, cos);
    ZeroSine(sin(pi), cos(pi));
    assert InRadians(sin) && pi <= 1.0 ==> 0.5 * pi <= sin(pi);
  }

  lemma ZeroSine(s: real, c: real)
    requires s * s + c * c == 1.0 && c == -1.0
    ensures s == 0.0
  {
    MulCancel(s, s);
  }

  /** The arc cosine's sine is not negative. */
  lemma SineOfAcos(acos: Fn, sin: Fn, cos: Fn, c: real)
    requires IsTrig(sin, cos) && IsAcos(acos, sin, cos) && -1.0 <= c <= 1.0
    ensures sin(acos(c)) >= 0.0
  {
    hide IsTrig, IsAcos;
    HalfTurn(acos, sin, cos);
    AtZero(sin, cos);
    AcosFact(acos, sin, cos, c);
    SinePositive(acos, sin, cos, acos(c));
  }

  /** Over the first half turn the cosine falls. */
  lemma CosineFalls(acos: Fn, sin: Fn, cos: Fn, a: real, b: real)
    requires IsTrig(sin, cos) && IsAcos(acos, sin, cos) && 0.0 <= a < b <= acos(-1.0)
    ensures cos(a) > cos(b)
  {
    hide IsTrig, IsAcos;
    var m, h := (a + b) / 2.0, (b - a) / 2.0;
    assert m + h == b && m - h == a;
    AdditionLaws(sin, cos, m, h);
    DifferenceLaws(sin, cos, m, h);
    SinePositive(acos, sin, cos, m);
    SinePositive(acos, sin, cos, h);
    MulPositive(sin(m), sin(h));
  }

  /** The arc cosine exceeds an angle of the first half turn exactly when its argument is below
      that angle's cosine.
   */
  lemma AcosExceedsIff(acos: Fn, sin: Fn, cos: Fn, c: real, a: real)
    requires IsTrig(sin, cos) && IsAcos(acos, sin, cos) && -1.0 <= c <= 1.0 && 0.0 <= a <= acos(-1.0)
    ensures acos(c) > a <==> c < cos(a)
  {
    hide IsTrig, IsAcos;
    var t := acos(c);
    AcosFact(acos, sin, cos, c);
    if t > a {
      CosineFalls(acos, sin, cos, a, t);
    } else if t < a {
      CosineFalls(acos, sin, cos, t, a);
    }
  }

  lemma SameHalfTurn(acos: Fn, acos': Fn, sin: Fn, cos: Fn)
    requires IsTrig(sin, cos) && IsAcos(acos, sin, cos) && IsAcos(acos', sin, cos)
    ensures acos(-1.0) == acos'(-1.0)
  {
    hide IsTrig, IsAcos;
    HalfTurn(acos, sin, cos);
    HalfTurn(acos', sin, cos);
    SinePositive(acos', sin, cos, acos(-1.0));
    SinePositive(acos, sin, cos, acos'(-1.0));
  }

  /** There is only one arc cosine. */
  lemma AcosUnique(acos: Fn, acos': Fn, sin: Fn, cos: Fn, c: real)
    requires IsTrig(sin, cos) && IsAcos(acos, sin, cos) && IsAcos(acos', sin, cos) && -1.0 <= c <= 1.0
    ensures acos(c) == acos'(c)
  {
    hide IsTrig, IsAcos;
    SameHalfTurn(acos, acos', sin, cos);
    AcosFact(acos, sin, cos, c);
    AcosFact(acos', sin, cos, c);
    var a, b := acos(c), acos'(c);
    if a < b {
      CosineFalls(acos, sin, cos, a, b);
    } else if b < a {
      CosineFalls(acos, sin, cos, b, a);
    }
  }

  lemma SineOfRadians(sin: Fn, a: real)
    requires InRadians(sin) && a >= 0.0
    ensures sin(a) <= a && (a <= 1.0 ==> 0.5 * a <= sin(a))
  {}

  /** The angle is at least its sine, and at most twice its sine when that is at most the cosine. */
  lemma AngleBySine(acos: Fn, sin: Fn, cos: Fn, c: real)
    requires IsTrig(sin, cos) && IsAcos(acos, sin, cos) && InRadians(sin) && -1.0 <= c <= 1.0
    ensures sin(acos(c)) <= acos(c)
    ensures 2.0 * sin(acos(c)) <= c && c > 0.0 ==> acos(c) <= 2.0 * sin(acos(c))
  {
    hide IsTrig, IsAcos, InRadians;
    var a := acos(c);
    AcosFact(acos, sin, cos, c);
    SineOfAcos(acos, sin, cos, c);
    SineOfRadians(sin, a);
    if a > 1.0 && c > 0.0 {
      LongAngle(acos, sin, cos, a);
    }
  }

  /** Beyond one radian, twice the sine exceeds a positive cosine. */
  lemma LongAngle(acos: Fn, sin: Fn, cos: Fn, a: real)
    requires IsTrig(sin, cos) && IsAcos(acos, sin, cos) && InRadians(sin)
    requires 1.0 < a <= acos(-1.0) && sin(a) >= 0.0 && cos(a) > 0.0
    ensures 2.0 * sin(a) > cos(a)
  {
    hide IsTrig, IsAcos, InRadians;
    DifferenceLaws(sin, cos, a, 1.0);
    SinePositive(acos, sin, cos, a - 1.0);
    SineOfRadians(sin, 1.0);
    TrigCircle(sin, cos, 1.0);
    LargeAngle(sin(a), cos(a), sin(1.0), cos(1.0));
  }

  lemma LargeAngle(s: real, c: real, s1: real, c1: real)
    requires s >= 0.0 && c > 0.0 && s1 >= 0.5 && c1 <= 1.0 && s * c1 - c * s1 > 0.0
    ensures 2.0 * s > c
  {
    MulMonotone(c1, 1.0, s);
    MulMonotone(0.5, s1, c);
  }
}
