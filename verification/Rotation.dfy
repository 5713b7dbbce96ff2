/** Rodrigues' formula and the three exponentials. */
module Rotation {
  import opened Angles
  import opened RealAlgebra
  import opened Space

  function Norm(sqrt: Fn, v: V3): real {
    sqrt(Dot(v, v))
  }

  lemma SumOfSquares(x: real, y: real, z: real)
    ensures Sum3(x, x, y, y, z, z) >= 0.0
  {
    SquareNonNegative(x);
    SquareNonNegative(y);
    SquareNonNegative(z);
  }

  lemma NormSquared(sqrt: Fn, v: V3)
    requires IsSqrt(sqrt)
    ensures Norm(sqrt, v) >= 0.0 && Mul(Norm(sqrt, v), Norm(sqrt, v)) == Dot(v, v)
  {
    SumOfSquares(v.x, v.y, v.z);
    hide Sum3;
  }

  lemma UnitAxis(v: V3, n: real)
    requires n > 0.0 && Mul(n, n) == Dot(v, v)
    ensures Dot(Over(v, n), Over(v, n)) == 1.0
  {
    var u := Over(v, n);
    hide Sum3, Mul;
    PositiveSquare(n);
    OverTimes(v, n);
    SumOfScaled(n, u.x, u.y, u.z, v.x, v.y, v.z);
    OneIfScaled(Mul(n, n), Dot(u, u));
  }

  lemma PositiveSquare(n: real)
    requires n > 0.0
    ensures Mul(n, n) > 0.0
  {
    hide Mul;
    PositiveProduct(n, n);
  }

  lemma PositiveProduct(a: real, b: real)
    requires a > 0.0 && b > 0.0
    ensures Mul(a, b) > 0.0
  {
    MulPositive(a, b);
  }

  lemma OverTimes(v: V3, n: real)
    requires n != 0.0
    ensures Times(n, Over(v, n)) == v
  {
    Quotient(v.x, n);
    Quotient(v.y, n);
    Quotient(v.z, n);
  }

  lemma SumOfScaled(n: real, a: real, b: real, c: real, x: real, y: real, z: real)
    requires Mul(n, a) == x && Mul(n, b) == y && Mul(n, c) == z
    ensures Sum3(x, x, y, y, z, z) == Mul(Mul(n, n), Sum3(a, a, b, b, c, c))
  {
    SquareScaled(n, a, x);
    SquareScaled(n, b, y);
    SquareScaled(n, c, z);
  }

  lemma SquareScaled(n: real, a: real, x: real)
    requires n * a == x
    ensures x * x == (n * n) * (a * a)
  {
    calc {
      x * x;
    ==
      (n * a) * (n * a);
    ==
      (n * n) * (a * a);
    }
  }

  lemma OneIfScaled(m: real, w: real)
    requires m != 0.0 && Mul(m, w) == m
    ensures w == 1.0
  {
    MulCancel(m, w - 1.0);
  }

  // -- Scaling -------------------------------------------------------------------------------

  lemma DotTimes(a: V3, s: real, k: V3)
    ensures Dot(a, Times(s, k)) == Mul(s, Dot(a, k))
  {
    ScaledSum(a.x, a.y, a.z, s, k.x, k.y, k.z);
    hide Sum3, Mul;
  }

  lemma TimesTimes(p: real, q: real, v: V3)
    ensures Times(p, Times(q, v)) == Times(Mul(p, q), v)
  {
    AssociateMul(p, q, v.x);
    AssociateMul(p, q, v.y);
    AssociateMul(p, q, v.z);
    hide Mul;
  }

  lemma AssociateMul(p: real, q: real, x: real)
    ensures Mul(p, Mul(q, x)) == Mul(Mul(p, q), x)
  {}

  lemma SameScaled(m: real, x: real, y: real)
    requires m != 0.0 && Mul(m, x) == Mul(m, y)
    ensures x == y
  {
    MulCancel(m, x - y);
  }

  lemma SameScaledVectors(m: real, u: V3, v: V3)
    requires m != 0.0 && Times(m, u) == Times(m, v)
    ensures u == v
  {
    hide Mul;
    SameScaled(m, u.x, v.x);
    SameScaled(m, u.y, v.y);
    SameScaled(m, u.z, v.z);
  }

  lemma DotScaled(p: real, a: V3, q: real, b: V3)
    ensures Dot(Times(p, a), Times(q, b)) == Mul(Mul(p, q), Dot(a, b))
  {
    DotTimes(Times(p, a), q, b);
    DotSymmetric(Times(p, a), b);
    DotTimes(b, p, a);
    DotSymmetric(b, a);
    AssociateMul(q, p, Dot(a, b));
    SwapMul(p, q);
    hide Dot, Times;
  }

  lemma SwapMul(p: real, q: real)
    ensures Mul(p, q) == Mul(q, p)
  {}

  lemma NormOfScaled(sqrt: Fn, k: V3, r: real)
    requires IsSqrt(sqrt) && Dot(k, k) == 1.0 && r >= 0.0
    ensures Norm(sqrt, Times(r, k)) == r
    ensures r > 0.0 ==> Over(Times(r, k), r) == k
  {
    NormSquared(sqrt, Times(r, k));
    DotScaled(r, k, r, k);
    assert Mul(Mul(r, r), 1.0) == Mul(r, r);
    SameSquares(Norm(sqrt, Times(r, k)), r);
    if r > 0.0 {
      OverTimes(Times(r, k), r);
      SameScaledVectors(r, Over(Times(r, k), r), k);
    }
    hide Norm, Dot, Over, Times, Mul;
  }

  lemma SameSquares(a: real, b: real)
    requires a >= 0.0 && b >= 0.0 && Mul(a, a) == Mul(b, b)
    ensures a == b
  {
    SquareMonotone(a, b);
  }

  // -- Rodrigues' formula --------------------------------------------------------------------

  /** Eye + s K + (1 - c) K K for the cross product matrix K of an axis. */
  function Rodrigues(axis: V3, s: real, c: real): M3 {
    var k := SkewSymMat(axis);
    MPlus(MPlus(EYE3, MTimes(s, k)), Product(MTimes(1.0 - c, k), k))
  }

  /** What the matrix does to a vector. */
  function Turn(k: V3, s: real, c: real, v: V3): V3 {
    Plus(Plus(v, Times(s, Cross(k, v))), Times(1.0 - c, Cross(k, Cross(k, v))))
  }

  lemma RodriguesTurns(k: V3, s: real, c: real, v: V3)
    ensures Apply(Rodrigues(k, s, c), v) == Turn(k, s, c, v)
  {
    hide Apply, MPlus, MTimes, Product, Plus, Times, Cross, SkewSymMat;
    var m := SkewSymMat(k);
    ApplyPlus(MPlus(EYE3, MTimes(s, m)), Product(MTimes(1.0 - c, m), m), v);
    ApplyPlus(EYE3, MTimes(s, m), v);
    ApplyEye(v);
    ApplyTimes(s, m, v);
    ApplyProduct(MTimes(1.0 - c, m), m, v);
    ApplySkew(k, v);
    ApplyTimes(1.0 - c, m, Cross(k, v));
    ApplySkew(k, Cross(k, v));
  }

  /** Turning about one axis twice is turning once, by the addition laws. */
  lemma TurnTwice(k: V3, s1: real, c1: real, s2: real, c2: real, v: V3)
    requires Dot(k, k) == 1.0
    ensures Turn(k, s1, c1, Turn(k, s2, c2, v)) == Turn(k, s1 * c2 + c1 * s2, c1 * c2 - s1 * s2, v)
  {
    var u1 := Cross(k, v);
    var u2 := Cross(k, u1);
    CrossThrice(k, v);
    CrossOfTurn(k, s2, c2, v, u1, u2);
    CrossOfCross(k, s2, c2, u1, u2);
    hide Cross, Dot, Mul;
    TurnCoordinate(v.x, u1.x, u2.x, s1, c1, s2, c2);
    TurnCoordinate(v.y, u1.y, u2.y, s1, c1, s2, c2);
    TurnCoordinate(v.z, u1.z, u2.z, s1, c1, s2, c2);
  }

  /** The cross product of the axis with a turned vector. */
  function CrossTurned(u1: V3, u2: V3, s: real, c: real): V3 {
    Plus(Plus(u1, Times(s, u2)), Times(1.0 - c, Times(-1.0, u1)))
  }

  lemma CrossOfTurn(k: V3, s: real, c: real, v: V3, u1: V3, u2: V3)
    requires u1 == Cross(k, v) && u2 == Cross(k, u1) && Cross(k, u2) == Times(-1.0, u1)
    ensures Cross(k, Turn(k, s, c, v)) == CrossTurned(u1, u2, s, c)
  {
    hide Cross, Plus, Times;
    CrossPlus(k, Plus(v, Times(s, u1)), Times(1.0 - c, u2));
    CrossPlus(k, v, Times(s, u1));
    CrossTimes(k, s, u1);
    CrossTimes(k, 1.0 - c, u2);
  }

  lemma CrossOfCross(k: V3, s: real, c: real, u1: V3, u2: V3)
    requires u2 == Cross(k, u1) && Cross(k, u2) == Times(-1.0, u1)
    ensures Cross(k, CrossTurned(u1, u2, s, c)) ==
            Plus(Plus(u2, Times(s, Times(-1.0, u1))), Times(1.0 - c, Times(-1.0, u2)))
  {
    hide Cross, Plus, Times;
    CrossPlus(k, Plus(u1, Times(s, u2)), Times(1.0 - c, Times(-1.0, u1)));
    CrossPlus(k, u1, Times(s, u2));
    CrossTimes(k, s, u2);
    CrossTimes(k, 1.0 - c, Times(-1.0, u1));
    CrossTimes(k, -1.0, u1);
  }

  lemma TurnCoordinate(v: real, u1: real, u2: real, s1: real, c1: real, s2: real, c2: real)
    ensures ((v + Mul(s2, u1)) + Mul(1.0 - c2, u2))
          + Mul(s1, (u1 + Mul(s2, u2)) + Mul(1.0 - c2, Mul(-1.0, u1)))
          + Mul(1.0 - c1, (u2 + Mul(s2, Mul(-1.0, u1))) + Mul(1.0 - c2, Mul(-1.0, u2)))
         == (v + Mul(s1 * c2 + c1 * s2, u1)) + Mul(1.0 - (c1 * c2 - s1 * s2), u2)
  {}

  /** Matrices of one axis multiply by the addition laws. */
  lemma RodriguesProduct(k: V3, s1: real, c1: real, s2: real, c2: real, s: real, c: real)
    requires Dot(k, k) == 1.0 && s == s1 * c2 + c1 * s2 && c == c1 * c2 - s1 * s2
    ensures Product(Rodrigues(k, s1, c1), Rodrigues(k, s2, c2)) == Rodrigues(k, s, c)
  {
    var a, b := Rodrigues(k, s1, c1), Rodrigues(k, s2, c2);
    var r := Rodrigues(k, s, c);
    ProductActs(k, s1, c1, s2, c2, E0);
    ProductActs(k, s1, c1, s2, c2, E1);
    ProductActs(k, s1, c1, s2, c2, E2);
    hide Apply, Product, Rodrigues, Turn;
    SameAction(Product(a, b), r);
  }

  lemma ProductActs(k: V3, s1: real, c1: real, s2: real, c2: real, v: V3)
    requires Dot(k, k) == 1.0
    ensures Apply(Product(Rodrigues(k, s1, c1), Rodrigues(k, s2, c2)), v)
         == Apply(Rodrigues(k, s1 * c2 + c1 * s2, c1 * c2 - s1 * s2), v)
  {
    hide Apply, Product, Rodrigues, Turn;
    ApplyProduct(Rodrigues(k, s1, c1), Rodrigues(k, s2, c2), v);
    RodriguesTurns(k, s2, c2, v);
    RodriguesTurns(k, s1, c1, Turn(k, s2, c2, v));
    TurnTwice(k, s1, c1, s2, c2, v);
    RodriguesTurns(k, s1 * c2 + c1 * s2, c1 * c2 - s1 * s2, v);
  }

  lemma TransposeRodrigues(k: V3, s: real, c: real)
    ensures Transpose(Rodrigues(k, s, c)) == Rodrigues(k, -s, c)
  {
    RodriguesEntries(k, s, c);
    RodriguesEntries(k, -s, c);
    hide Rodrigues, Mul;
    Mirror(s, k.x);
    Mirror(s, k.y);
    Mirror(s, k.z);
  }

  lemma Mirror(s: real, x: real)
    ensures Mul(-s, x) == Mul(s, -x) && Mul(-s, -x) == Mul(s, x)
  {}

  /** The entries: a symmetric part and the skew-symmetric part s K. */
  lemma RodriguesEntries(k: V3, s: real, c: real)
    ensures var d, r := 1.0 - c, Rodrigues(k, s, c);
      && r.c0 == V3(1.0 + Mul(d, Diagonal(k.y, k.z)), Mul(s, k.z) + Mul(d, k.x * k.y), Mul(s, -k.y) + Mul(d, k.x * k.z))
      && r.c1 == V3(Mul(s, -k.z) + Mul(d, k.x * k.y), 1.0 + Mul(d, Diagonal(k.x, k.z)), Mul(s, k.x) + Mul(d, k.y * k.z))
      && r.c2 == V3(Mul(s, k.y) + Mul(d, k.x * k.z), Mul(s, -k.x) + Mul(d, k.y * k.z), 1.0 + Mul(d, Diagonal(k.x, k.y)))
  {
    hide Rodrigues, Apply, Cross, Diagonal, Mul;
    RodriguesTurns(k, s, c, E0);
    RodriguesTurns(k, s, c, E1);
    RodriguesTurns(k, s, c, E2);
    ColumnsAreImages(Rodrigues(k, s, c));
    CrossOfAxes(k);
    CrossTwiceOfAxes(k);
    MulZero(s);
  }

  function Diagonal(p: real, q: real): real {
    -(p * p) - q * q
  }

  lemma CrossOfAxes(k: V3)
    ensures Cross(k, E0) == V3(0.0, k.z, -k.y) && Cross(k, E1) == V3(-k.z, 0.0, k.x)
    ensures Cross(k, E2) == V3(k.y, -k.x, 0.0)
  {}

  lemma CrossTwiceOfAxes(k: V3)
    ensures Cross(k, V3(0.0, k.z, -k.y)) == V3(Diagonal(k.y, k.z), k.x * k.y, k.x * k.z)
    ensures Cross(k, V3(-k.z, 0.0, k.x)) == V3(k.x * k.y, Diagonal(k.x, k.z), k.y * k.z)
    ensures Cross(k, V3(k.y, -k.x, 0.0)) == V3(k.x * k.z, k.y * k.z, Diagonal(k.x, k.y))
  {}

  lemma MulZero(s: real)
    ensures Mul(s, 0.0) == 0.0
  {}

  // -- Rotations -----------------------------------------------------------------------------

  /** Cross products go to cross products: the orientation is kept. */
  ghost predicate KeepsCross(r: M3) {
    forall a, b :: Cross(Apply(r, a), Apply(r, b)) == Apply(r, Cross(a, b))
  }

  /** Orthogonal, and not a reflection. */
  ghost predicate IsRotation(r: M3) {
    Product(r, Transpose(r)) == EYE3 && KeepsCross(r)
  }

  lemma RodriguesOrthogonal(k: V3, s: real, c: real)
    requires Dot(k, k) == 1.0 && s * s + c * c == 1.0
    ensures Product(Rodrigues(k, s, c), Transpose(Rodrigues(k, s, c))) == EYE3
  {
    hide Rodrigues, Product, Transpose, Dot;
    TransposeRodrigues(k, s, c);
    BackAndForth(s, c);
    RodriguesProduct(k, s, c, -s, c, 0.0, 1.0);
    RodriguesOfZero(k);
  }

  lemma BackAndForth(s: real, c: real)
    requires s * s + c * c == 1.0
    ensures s * c + c * -s == 0.0 && c * c - s * -s == 1.0
  {}

  lemma RodriguesOfZero(k: V3)
    ensures Rodrigues(k, 0.0, 1.0) == EYE3
  {
    RodriguesEntries(k, 0.0, 1.0);
    hide Rodrigues, Diagonal;
  }

  /** With u = k x a, w = k x u and the same for b, all nine products in terms of k's action. */
  lemma DerivedProducts(k: V3, a: V3, b: V3)
    requires Dot(k, k) == 1.0
    ensures var u, v := Cross(k, a), Cross(k, b);
      var w, x := Cross(k, u), Cross(k, v);
      && Cross(k, Cross(a, b)) == Plus(Cross(u, b), Cross(a, v))
      && Cross(k, Cross(k, Cross(a, b))) == Plus(Plus(Cross(w, b), Cross(u, v)), Plus(Cross(u, v), Cross(a, x)))
      && Plus(Cross(w, v), Cross(u, x)) == V3(0.0, 0.0, 0.0)
      && Cross(w, x) == Cross(u, v)
  {
    hide Cross, Dot, Times, Plus;
    var u, v := Cross(k, a), Cross(k, b);
    var w, x := Cross(k, u), Cross(k, v);
    Derivation(k, a, b);
    CrossPlus(k, Cross(u, b), Cross(a, v));
    Derivation(k, u, b);
    Derivation(k, a, v);
    CrossOfCrosses(k, a, b);
    Derivation(k, u, v);
    CrossSelf(k, Dot(k, Cross(a, b)));
    CrossOfCrosses(k, u, v);
    CrossThrice(k, a);
    CrossThrice(k, b);
    LastProduct(k, u, v, w, x);
  }

  lemma LastProduct(k: V3, u: V3, v: V3, w: V3, x: V3)
    requires Cross(k, u) == w && Cross(k, v) == x && Cross(k, w) == Times(-1.0, u) && Cross(k, x) == Times(-1.0, v)
    requires Plus(Cross(w, v), Cross(u, x)) == V3(0.0, 0.0, 0.0)
    ensures Cross(w, x) == Cross(u, v)
  {
    CrossPlus(k, Cross(w, v), Cross(u, x));
    Derivation(k, w, v);
    Derivation(k, u, x);
    CrossZero(k);
    NegatedFactors(u, v);
    hide Cross;
  }

  lemma CrossZero(k: V3)
    ensures Cross(k, V3(0.0, 0.0, 0.0)) == V3(0.0, 0.0, 0.0)
  {}

  lemma NegatedFactors(u: V3, v: V3)
    ensures Cross(Times(-1.0, u), v) == V3(-Cross(u, v).x, -Cross(u, v).y, -Cross(u, v).z)
    ensures Cross(u, Times(-1.0, v)) == V3(-Cross(u, v).x, -Cross(u, v).y, -Cross(u, v).z)
  {}

  /** A turn takes cross products to cross products, so it is not a reflection. */
  lemma TurnKeepsCross(k: V3, s: real, c: real, a: V3, b: V3)
    requires Dot(k, k) == 1.0 && s * s + c * c == 1.0
    ensures Cross(Turn(k, s, c, a), Turn(k, s, c, b)) == Turn(k, s, c, Cross(a, b))
  {
    var d := 1.0 - c;
    var u, v, m := Cross(k, a), Cross(k, b), Cross(a, b);
    var w, x := Cross(k, u), Cross(k, v);
    DerivedProducts(k, a, b);
    hide Cross, Dot, Mul;
    assert Turn(k, s, c, a) == Combine(a, s, u, d, w) && Turn(k, s, c, b) == Combine(b, s, v, d, x);
    CrossCombine(Combine(a, s, u, d, w), b, s, v, d, x);
    CombineCross(a, s, u, d, w, b);
    CombineCross(a, s, u, d, w, v);
    CombineCross(a, s, u, d, w, x);
    NineProducts(s, c, m.x, Cross(u, b).x, Cross(w, b).x, Cross(a, v).x, Cross(u, v).x, Cross(w, v).x, Cross(a, x).x);
    NineProducts(s, c, m.y, Cross(u, b).y, Cross(w, b).y, Cross(a, v).y, Cross(u, v).y, Cross(w, v).y, Cross(a, x).y);
    NineProducts(s, c, m.z, Cross(u, b).z, Cross(w, b).z, Cross(a, v).z, Cross(u, v).z, Cross(w, v).z, Cross(a, x).z);
  }

  lemma NineProducts(s: real, c: real, ab: real, ub: real, wb: real, av: real, uv: real, wv: real, ax: real)
    requires s * s + c * c == 1.0
    ensures (ab + Mul(s, ub) + Mul(1.0 - c, wb))
          + Mul(s, av + Mul(s, uv) + Mul(1.0 - c, wv))
          + Mul(1.0 - c, ax + Mul(s, -wv) + Mul(1.0 - c, uv))
         == ab + Mul(s, ub + av) + Mul(1.0 - c, (wb + uv) + (uv + ax))
  {}

  lemma RodriguesKeepsCross(k: V3, s: real, c: real)
    requires Dot(k, k) == 1.0 && s * s + c * c == 1.0
    ensures KeepsCross(Rodrigues(k, s, c))
  {
    hide Rodrigues, Apply, Cross, Turn, Dot;
    forall a, b
      ensures Cross(Apply(Rodrigues(k, s, c), a), Apply(Rodrigues(k, s, c), b))
           == Apply(Rodrigues(k, s, c), Cross(a, b))
    {
      RodriguesTurns(k, s, c, a);
      RodriguesTurns(k, s, c, b);
      RodriguesTurns(k, s, c, Cross(a, b));
      TurnKeepsCross(k, s, c, a, b);
    }
  }

  lemma RodriguesIsRotation(k: V3, s: real, c: real)
    requires Dot(k, k) == 1.0 && s * s + c * c == 1.0
    ensures IsRotation(Rodrigues(k, s, c))
  {
    hide Rodrigues, Product, KeepsCross, Dot;
    RodriguesOrthogonal(k, s, c);
    RodriguesKeepsCross(k, s, c);
  }

  lemma SumSwaps(x: real, a: real, y: real, b: real, z: real, c: real)
    ensures Sum3(x, a, y, b, z, c) == Sum3(a, x, b, y, c, z)
  {}

  lemma TransposeProduct(a: M3, b: M3)
    ensures Transpose(Product(a, b)) == Product(Transpose(b), Transpose(a))
  {
    TransposedColumn(b, a.c0.x, a.c1.x, a.c2.x);
    TransposedColumn(b, a.c0.y, a.c1.y, a.c2.y);
    TransposedColumn(b, a.c0.z, a.c1.z, a.c2.z);
    hide Sum3;
  }

  lemma TransposedColumn(b: M3, x: real, y: real, z: real)
    ensures Apply(Transpose(b), V3(x, y, z))
         == V3(Sum3(b.c0.x, x, b.c0.y, y, b.c0.z, z), Sum3(b.c1.x, x, b.c1.y, y, b.c1.z, z),
               Sum3(b.c2.x, x, b.c2.y, y, b.c2.z, z))
  {
    hide Sum3;
    SumSwaps(b.c0.x, x, b.c0.y, y, b.c0.z, z);
    SumSwaps(b.c1.x, x, b.c1.y, y, b.c1.z, z);
    SumSwaps(b.c2.x, x, b.c2.y, y, b.c2.z, z);
  }

  lemma ProductAssociative(a: M3, b: M3, c: M3)
    ensures Product(Product(a, b), c) == Product(a, Product(b, c))
  {
    ApplyProduct(a, b, c.c0);
    ApplyProduct(a, b, c.c1);
    ApplyProduct(a, b, c.c2);
    assert Product(b, c) == M3(Apply(b, c.c0), Apply(b, c.c1), Apply(b, c.c2));
    hide Apply;
  }

  lemma EyeTimes(a: M3)
    ensures Product(EYE3, a) == a
  {
    ApplyEye(a.c0);
    ApplyEye(a.c1);
    ApplyEye(a.c2);
    hide Apply;
  }

  /** One rotation after another is a rotation. */
  lemma ProductIsRotation(a: M3, b: M3)
    requires IsRotation(a) && IsRotation(b)
    ensures IsRotation(Product(a, b))
  {
    hide Product, Transpose, KeepsCross;
    var ta, tb := Transpose(a), Transpose(b);
    TransposeProduct(a, b);
    ProductAssociative(a, b, Product(tb, ta));
    ProductAssociative(b, tb, ta);
    EyeTimes(ta);
    ProductKeepsCross(a, b);
  }

  lemma ProductKeepsCross(a: M3, b: M3)
    requires KeepsCross(a) && KeepsCross(b)
    ensures KeepsCross(Product(a, b))
  {
    hide Apply, Cross, Product;
    forall u, v
      ensures Cross(Apply(Product(a, b), u), Apply(Product(a, b), v)) == Apply(Product(a, b), Cross(u, v))
    {
      ApplyProduct(a, b, u);
      ApplyProduct(a, b, v);
      ApplyProduct(a, b, Cross(u, v));
    }
  }

  lemma EyeIsRotation()
    ensures IsRotation(EYE3)
  {
    EyeTwice();
    forall v
      ensures Apply(EYE3, v) == v
    {
      ApplyEye(v);
    }
    hide Apply, Cross;
  }

  lemma EyeTwice()
    ensures Product(EYE3, EYE3) == EYE3 && Transpose(EYE3) == EYE3
  {}

  // -- The exponentials ----------------------------------------------------------------------

  function Exp(sqrt: Fn, sin: Fn, cos: Fn, ang: V3): M3 {
    var norm := Norm(sqrt, ang);
    if norm > 0.0000001 then Rodrigues(Over(ang, norm), sin(norm), cos(norm)) else EYE3
  }

  /** With an angular velocity and a time. */
  function ExpRate(sqrt: Fn, sin: Fn, cos: Fn, angVel: V3, dt: real): M3 {
    var norm := Norm(sqrt, angVel);
    if norm > 0.0000001 then
      var ang := Mul(norm, dt);
      Rodrigues(Over(angVel, norm), sin(ang), cos(ang))
    else EYE3
  }

  /** With three numbers, and a threshold a hundred times as large. */
  function ExpXyz(sqrt: Fn, sin: Fn, cos: Fn, v1: real, v2: real, v3: real): M3 {
    var norm := Norm(sqrt, V3(v1, v2, v3));
    if norm > 0.00001 then Rodrigues(Over(V3(v1, v2, v3), norm), sin(norm), cos(norm)) else EYE3
  }

  lemma NormUnit(sqrt: Fn, v: V3)
    requires IsSqrt(sqrt) && Norm(sqrt, v) > 0.0
    ensures Dot(Over(v, Norm(sqrt, v)), Over(v, Norm(sqrt, v))) == 1.0
  {
    NormSquared(sqrt, v);
    UnitAxis(v, Norm(sqrt, v));
  }

  /** Whatever the argument, all three exponentials are rotations. */
  lemma ExpIsRotation(sqrt: Fn, sin: Fn, cos: Fn, ang: V3, dt: real)
    requires IsSqrt(sqrt) && IsTrig(sin, cos)
    ensures IsRotation(Exp(sqrt, sin, cos, ang))
    ensures IsRotation(ExpRate(sqrt, sin, cos, ang, dt))
    ensures IsRotation(ExpXyz(sqrt, sin, cos, ang.x, ang.y, ang.z))
  {
    hide IsRotation, IsTrig, IsSqrt, Norm, Rodrigues, Dot, Over, Mul;
    var n := Norm(sqrt, ang);
    EyeIsRotation();
    TrigCircle(sin, cos, n);
    TrigCircle(sin, cos, Mul(n, dt));
    if n > 0.0000001 {
      NormUnit(sqrt, ang);
      RodriguesIsRotation(Over(ang, n), sin(n), cos(n));
      RodriguesIsRotation(Over(ang, n), sin(Mul(n, dt)), cos(Mul(n, dt)));
    }
  }

  /** Turning for two times in a row is turning for their sum. */
  lemma ExpRateAdds(sqrt: Fn, sin: Fn, cos: Fn, angVel: V3, t1: real, t2: real)
    requires IsSqrt(sqrt) && IsTrig(sin, cos)
    ensures Product(ExpRate(sqrt, sin, cos, angVel, t1), ExpRate(sqrt, sin, cos, angVel, t2))
         == ExpRate(sqrt, sin, cos, angVel, t1 + t2)
  {
    hide Rodrigues, Product, Norm, Dot, Over, IsTrig, IsSqrt;
    EyeTwice();
    var n := Norm(sqrt, angVel);
    if n > 0.0000001 {
      NormUnit(sqrt, angVel);
      var a, b := Mul(n, t1), Mul(n, t2);
      assert Mul(n, t1 + t2) == a + b;
      hide Mul;
      AdditionLaws(sin, cos, a, b);
      RodriguesProduct(Over(angVel, n), sin(a), cos(a), sin(b), cos(b), sin(a + b), cos(a + b));
    }
  }

  // -- Which way they turn -------------------------------------------------------------------

  /** Across the axis a turn is by the cosine along the vector and by the sine along its left. */
  lemma TurnAcross(k: V3, s: real, c: real, v: V3)
    requires Dot(k, k) == 1.0 && Dot(k, v) == 0.0
    ensures Turn(k, s, c, v) == Plus(Times(c, v), Times(s, Cross(k, v)))
  {
    TwiceOrthogonal(k, v);
    var u := Cross(k, v);
    hide Cross, Dot, Mul;
    AcrossCoordinate(v.x, s, u.x, c);
    AcrossCoordinate(v.y, s, u.y, c);
    AcrossCoordinate(v.z, s, u.z, c);
  }

  lemma AcrossCoordinate(v: real, s: real, u: real, c: real)
    ensures v + Mul(s, u) + Mul(1.0 - c, Mul(-1.0, v)) == Mul(c, v) + Mul(s, u)
  {}

  lemma TurnAlong(k: V3, s: real, c: real, t: real)
    ensures Turn(k, s, c, Times(t, k)) == Times(t, k)
  {
    CrossSelf(k, t);
    CrossSelf(k, 0.0);
    assert Times(0.0, k) == V3(0.0, 0.0, 0.0);
    assert Times(s, V3(0.0, 0.0, 0.0)) == V3(0.0, 0.0, 0.0) == Times(1.0 - c, V3(0.0, 0.0, 0.0));
    hide Cross, Times;
  }

  /** What Rodrigues' matrix about an argument's axis does to the argument and across it. */
  lemma AxisTurns(sqrt: Fn, ang: V3, s: real, c: real, v: V3)
    requires IsSqrt(sqrt) && Norm(sqrt, ang) > 0.0
    ensures var r := Rodrigues(Over(ang, Norm(sqrt, ang)), s, c);
      && Apply(r, ang) == ang
      && (Dot(ang, v) == 0.0 ==>
            Apply(r, v) == Plus(Times(c, v), Times(s, Cross(Over(ang, Norm(sqrt, ang)), v))))
  {
    var n := Norm(sqrt, ang);
    var k := Over(ang, n);
    NormUnit(sqrt, ang);
    OverTimes(ang, n);
    hide Norm, Rodrigues, Apply, Turn, Dot, Over, Times, Cross, Mul, IsSqrt;
    RodriguesTurns(k, s, c, ang);
    TurnAlong(k, s, c, n);
    RodriguesTurns(k, s, c, v);
    if Dot(ang, v) == 0.0 {
      DotSymmetric(ang, v);
      DotTimes(v, n, k);
      ZeroFactor(n, Dot(v, k));
      DotSymmetric(v, k);
      TurnAcross(k, s, c, v);
    }
  }

  lemma ZeroFactor(n: real, x: real)
    requires n != 0.0 && Mul(n, x) == 0.0
    ensures x == 0.0
  {
    MulCancel(n, x);
  }

  /** The exponential keeps its argument, and turns what is across it by its length, the right hand's
      way: a quarter turn takes v to the axis times v.
   */
  lemma ExpTurns(sqrt: Fn, sin: Fn, cos: Fn, ang: V3, v: V3)
    requires IsSqrt(sqrt) && Norm(sqrt, ang) > 0.0000001
    ensures Apply(Exp(sqrt, sin, cos, ang), ang) == ang
    ensures var n := Norm(sqrt, ang);
      Dot(ang, v) == 0.0 ==>
        Apply(Exp(sqrt, sin, cos, ang), v) == Plus(Times(cos(n), v), Times(sin(n), Cross(Over(ang, n), v)))
  {
    hide Norm, Rodrigues, Apply, Dot, Over, Times, Cross, IsSqrt;
    AxisTurns(sqrt, ang, sin(Norm(sqrt, ang)), cos(Norm(sqrt, ang)), v);
  }

  /** With an angular velocity and a time the angle is their product. */
  lemma ExpRateTurns(sqrt: Fn, sin: Fn, cos: Fn, angVel: V3, dt: real, v: V3, a: real)
    requires IsSqrt(sqrt) && Norm(sqrt, angVel) > 0.0000001 && a == Norm(sqrt, angVel) * dt
    ensures Apply(ExpRate(sqrt, sin, cos, angVel, dt), angVel) == angVel
    ensures var n := Norm(sqrt, angVel);
      Dot(angVel, v) == 0.0 ==>
        Apply(ExpRate(sqrt, sin, cos, angVel, dt), v)
          == Plus(Times(cos(a), v), Times(sin(a), Cross(Over(angVel, n), v)))
  {
    assert Mul(Norm(sqrt, angVel), dt) == a;
    hide Norm, Rodrigues, Apply, Dot, Over, Times, Cross, IsSqrt, Mul;
    AxisTurns(sqrt, angVel, sin(a), cos(a), v);
  }

  /** The exponentials agree where none of them is cut off. */
  lemma ExponentialsAgree(sqrt: Fn, sin: Fn, cos: Fn, angVel: V3, dt: real)
    requires IsSqrt(sqrt) && dt > 0.0
    requires Norm(sqrt, angVel) > 0.0000001 && Norm(sqrt, Times(dt, angVel)) > 0.0000001
    ensures Exp(sqrt, sin, cos, Times(dt, angVel)) == ExpRate(sqrt, sin, cos, angVel, dt)
    ensures Norm(sqrt, angVel) > 0.00001 ==>
      ExpXyz(sqrt, sin, cos, angVel.x, angVel.y, angVel.z) == Exp(sqrt, sin, cos, angVel)
  {
    var n := Norm(sqrt, angVel);
    var k := Over(angVel, n);
    NormUnit(sqrt, angVel);
    OverTimes(angVel, n);
    PositiveProduct(n, dt);
    hide Norm, Rodrigues, Dot, Over, Times, Mul, IsSqrt;
    TimesTimes(dt, n, k);
    SwapMul(dt, n);
    NormOfScaled(sqrt, k, Mul(n, dt));
    assert V3(angVel.x, angVel.y, angVel.z) == angVel;
  }

  /** One radian a second about the third axis: the first axis goes to its cosine and sine. */
  lemma TurnAboutThird(sqrt: Fn, sin: Fn, cos: Fn, dt: real)
    requires IsSqrt(sqrt)
    ensures Apply(ExpRate(sqrt, sin, cos, V3(0.0, 0.0, 1.0), dt), V3(1.0, 0.0, 0.0)) == V3(cos(dt), sin(dt), 0.0)
  {
    var z, x := V3(0.0, 0.0, 1.0), V3(1.0, 0.0, 0.0);
    UnitNorm(sqrt);
    assert Over(z, 1.0) == z && Cross(z, x) == V3(0.0, 1.0, 0.0) && Dot(z, x) == 0.0;
    assert Times(cos(dt), x) == V3(cos(dt), 0.0, 0.0);
    assert Times(sin(dt), V3(0.0, 1.0, 0.0)) == V3(0.0, sin(dt), 0.0);
    hide Norm, ExpRate, Apply, Over, Cross, Dot, Times, IsSqrt;
    ExpRateTurns(sqrt, sin, cos, z, dt, x, dt);
  }

  lemma UnitNorm(sqrt: Fn)
    requires IsSqrt(sqrt)
    ensures Norm(sqrt, V3(0.0, 0.0, 1.0)) == 1.0
  {
    NormSquared(sqrt, V3(0.0, 0.0, 1.0));
    assert Dot(V3(0.0, 0.0, 1.0), V3(0.0, 0.0, 1.0)) == 1.0 == Mul(1.0, 1.0);
    hide Norm, Dot, IsSqrt;
    SameSquares(Norm(sqrt, V3(0.0, 0.0, 1.0)), 1.0);
  }
}
