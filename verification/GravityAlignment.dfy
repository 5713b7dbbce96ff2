/** Initialising the inertial unit: the running means of the first samples and the rotation that
    takes the measured gravity to the configured one.
 */
module GravityAlignment {
  import opened Angles
  import opened RealAlgebra
  import opened Rotation
  import opened Space

  /** The matrix built from the configured gravity. */
  function HatGrav(g: V3): M3 {
    M3(V3(0.0, -g.z, g.y), V3(g.z, 0.0, -g.x), V3(-g.y, g.x, 0.0))
  }

  lemma HatGravIsCross(g: V3, t: V3)
    ensures Apply(HatGrav(g), t) == Cross(t, g)
  {
    assert HatGrav(g) == SkewSymMat(V3(-g.x, -g.y, -g.z));
    ApplySkew(V3(-g.x, -g.y, -g.z), t);
    OppositeArea(g.y, g.z, t.y, t.z);
    OppositeArea(g.z, g.x, t.z, t.x);
    OppositeArea(g.x, g.y, t.x, t.y);
    hide Apply, Area;
  }

  lemma OppositeArea(p: real, q: real, a: real, b: real)
    ensures Area(-p, -q, a, b) == Area(a, b, p, q)
  {}

  // -- Aligning unit vectors -----------------------------------------------------------------

  /** About the axis of two unit vectors, by the angle between them, the first turns to the second. */
  lemma AlignUnits(a: V3, b: V3, k: V3, s: real, c: real)
    requires Dot(a, a) == 1.0 && Dot(b, b) == 1.0 && Dot(k, k) == 1.0 && c == Dot(a, b)
    requires s != 0.0 && Times(s, k) == Cross(a, b)
    ensures Turn(k, s, c, a) == b
  {
    AxisOrthogonal(a, b, k, s);
    TwiceOrthogonal(k, a);
    SineTerm(a, b, k, s);
    assert Turn(k, s, c, a) == Plus(Plus(a, Plus(b, Times(-Dot(a, b), a))), Times(1.0 - c, Times(-1.0, a)));
    hide Cross, Dot, Mul;
    EndCoordinate(a.x, b.x, c);
    EndCoordinate(a.y, b.y, c);
    EndCoordinate(a.z, b.z, c);
  }

  lemma EndCoordinate(a: real, b: real, c: real)
    ensures (a + (b + Mul(-c, a))) + Mul(1.0 - c, Mul(-1.0, a)) == b
  {}

  lemma AxisOrthogonal(a: V3, b: V3, k: V3, s: real)
    requires s != 0.0 && Times(s, k) == Cross(a, b)
    ensures Dot(k, a) == 0.0
  {
    CrossOrthogonal(a, b);
    ScaledSum(a.x, a.y, a.z, s, k.x, k.y, k.z);
    hide Cross, Sum3, Times;
    assert Dot(a, Times(s, k)) == Mul(s, Dot(a, k)) by { DotTimes(a, s, k); }
    DotSymmetric(a, k);
    CancelMul(s, Dot(a, k));
  }

  lemma CancelMul(s: real, x: real)
    requires s != 0.0 && Mul(s, x) == 0.0
    ensures x == 0.0
  {
    MulCancel(s, x);
  }

  /** s k x a is what b adds to its part along a. */
  lemma SineTerm(a: V3, b: V3, k: V3, s: real)
    requires Dot(a, a) == 1.0 && Times(s, k) == Cross(a, b)
    ensures Times(s, Cross(k, a)) == Plus(b, Times(-Dot(a, b), a))
  {
    CrossAnti(k, a);
    CrossTimes(a, s, k);
    TripleProduct(a, a, b);
    var u := Cross(a, k);
    assert Times(s, u) == Plus(Times(Dot(a, b), a), Times(-1.0, b)) by { hide Cross; assert -Dot(a, a) == -1.0; }
    hide Cross, Dot, Mul;
    Opposite(s, u.x, Dot(a, b), a.x, b.x);
    Opposite(s, u.y, Dot(a, b), a.y, b.y);
    Opposite(s, u.z, Dot(a, b), a.z, b.z);
  }

  lemma Opposite(s: real, u: real, c: real, a: real, b: real)
    requires Mul(s, u) == Mul(c, a) + Mul(-1.0, b)
    ensures Mul(s, Mul(-1.0, u)) == b + Mul(-c, a)
  {
    assert s * (-1.0 * u) == -(s * u);
  }

  // -- The sine and the cosine of the angle --------------------------------------------------

  lemma LagrangeThree(t: V3, g: V3)
    ensures Dot(Cross(t, g), Cross(t, g)) + Mul(Dot(t, g), Dot(t, g)) == Mul(Dot(t, t), Dot(g, g))
  {
    ScalarTriple(t, g, Cross(t, g));
    TripleProduct(g, t, g);
    var m := Cross(t, g);
    assert Dot(m, m) == Dot(t, Cross(g, m));
    DotOfPlus(t, Dot(g, g), t, -Dot(g, t), g);
    DotSymmetric(t, g);
    hide Cross, Dot;
    Products(Dot(g, g), Dot(t, t), Dot(t, g));
  }

  lemma Products(gg: real, tt: real, tg: real)
    ensures Mul(gg, tt) + Mul(-tg, tg) + Mul(tg, tg) == Mul(tt, gg)
  {}

  lemma DotOfPlus(a: V3, s: real, u: V3, d: real, w: V3)
    ensures Dot(a, Plus(Times(s, u), Times(d, w))) == Mul(s, Dot(a, u)) + Mul(d, Dot(a, w))
  {
    SumOfSums(a.x, a.y, a.z, Mul(s, u.x), Mul(s, u.y), Mul(s, u.z), Mul(d, w.x), Mul(d, w.y), Mul(d, w.z));
    ScaledSum(a.x, a.y, a.z, s, u.x, u.y, u.z);
    ScaledSum(a.x, a.y, a.z, d, w.x, w.y, w.z);
    hide Sum3, Mul;
  }

  // -- Set_init ------------------------------------------------------------------------------

  function AlignNorm(sqrt: Fn, gravity: V3, t: V3): real
    requires Norm(sqrt, gravity) != 0.0 && Norm(sqrt, t) != 0.0
  {
    Norm(sqrt, Apply(HatGrav(gravity), t)) / Norm(sqrt, gravity) / Norm(sqrt, t)
  }

  function AlignCos(sqrt: Fn, gravity: V3, t: V3): real
    requires Norm(sqrt, gravity) != 0.0 && Norm(sqrt, t) != 0.0
  {
    Dot(gravity, t) / Norm(sqrt, gravity) / Norm(sqrt, t)
  }

  function Unit(sqrt: Fn, v: V3): V3
    requires Norm(sqrt, v) != 0.0
  {
    Over(v, Norm(sqrt, v))
  }

  lemma DividedTwice(n: real, g: real, t: real)
    requires g != 0.0 && t != 0.0
    ensures Mul(Mul(t, g), n / g / t) == n
  {
    Quotient(n / g, t);
    Quotient(n, g);
    assert (t * g) * (n / g / t) == g * (t * (n / g / t));
  }

  lemma CrossScaled(p: real, a: V3, q: real, b: V3)
    ensures Cross(Times(p, a), Times(q, b)) == Times(Mul(p, q), Cross(a, b))
  {
    hide Cross, Times, Mul;
    CrossTimes(Times(p, a), q, b);
    CrossAnti(Times(p, a), b);
    CrossTimes(b, p, a);
    CrossAnti(a, b);
    TimesTimes(-1.0, p, Cross(b, a));
    TimesTimes(p, -1.0, Cross(b, a));
    SwapMul(-1.0, p);
    TimesTimes(q, p, Cross(a, b));
    SwapMul(p, q);
  }

  lemma NonzeroMul(p: real, q: real)
    requires p != 0.0 && q != 0.0
    ensures Mul(p, q) != 0.0
  {
    if p * q == 0.0 {
      MulCancel(p, q);
    }
  }

  lemma NormPositive(sqrt: Fn, v: V3)
    requires IsSqrt(sqrt) && Norm(sqrt, v) != 0.0
    ensures Norm(sqrt, v) > 0.0
    ensures Dot(Unit(sqrt, v), Unit(sqrt, v)) == 1.0 && Times(Norm(sqrt, v), Unit(sqrt, v)) == v
  {
    NormSquared(sqrt, v);
    NormUnit(sqrt, v);
    OverTimes(v, Norm(sqrt, v));
    hide Norm, Dot, Over, Times;
  }

  lemma CosineIsDot(sqrt: Fn, gravity: V3, t: V3)
    requires IsSqrt(sqrt) && Norm(sqrt, gravity) != 0.0 && Norm(sqrt, t) != 0.0
    ensures AlignCos(sqrt, gravity, t) == Dot(Unit(sqrt, t), Unit(sqrt, gravity))
  {
    var a, b, ta, gb := Unit(sqrt, t), Unit(sqrt, gravity), Norm(sqrt, t), Norm(sqrt, gravity);
    NormPositive(sqrt, t);
    NormPositive(sqrt, gravity);
    DividedTwice(Dot(gravity, t), gb, ta);
    hide Norm, Dot, Over, Times, Mul, Unit;
    DotScaled(ta, a, gb, b);
    DotSymmetric(t, gravity);
    NonzeroMul(ta, gb);
    SameScaled(Mul(ta, gb), AlignCos(sqrt, gravity, t), Dot(a, b));
  }

  /** Beyond the first test the axis is a unit vector and carries the cross product of the units. */
  lemma AxisCarriesCross(sqrt: Fn, gravity: V3, t: V3)
    requires IsSqrt(sqrt) && Norm(sqrt, gravity) != 0.0 && Norm(sqrt, t) != 0.0
    requires AlignNorm(sqrt, gravity, t) > 0.0
    ensures Norm(sqrt, Cross(t, gravity)) != 0.0
    ensures var k := Unit(sqrt, Cross(t, gravity));
      Dot(k, k) == 1.0
      && Times(AlignNorm(sqrt, gravity, t), k) == Cross(Unit(sqrt, t), Unit(sqrt, gravity))
  {
    HatGravIsCross(gravity, t);
    var n, ta, gb, s := Norm(sqrt, Cross(t, gravity)), Norm(sqrt, t), Norm(sqrt, gravity), AlignNorm(sqrt, gravity, t);
    var a, b := Unit(sqrt, t), Unit(sqrt, gravity);
    NormPositive(sqrt, t);
    NormPositive(sqrt, gravity);
    DividedTwice(n, gb, ta);
    hide Norm, Dot, Over, Times, Mul, Unit, Cross, Apply, AlignNorm;
    NonzeroMul(ta, gb);
    assert Mul(Mul(ta, gb), s) == n;
    NonzeroMul(Mul(ta, gb), s);
    NormPositive(sqrt, Cross(t, gravity));
    var k := Unit(sqrt, Cross(t, gravity));
    CrossScaled(ta, a, gb, b);
    TimesTimes(Mul(ta, gb), s, k);
    SameScaledVectors(Mul(ta, gb), Times(s, k), Cross(a, b));
  }

  /** Sine and cosine of the angle between the two gravities. */
  lemma SineSquared(a: V3, b: V3, k: V3, s: real)
    requires Dot(a, a) == 1.0 && Dot(b, b) == 1.0 && Dot(k, k) == 1.0 && Times(s, k) == Cross(a, b)
    ensures Mul(s, s) + Mul(Dot(a, b), Dot(a, b)) == 1.0
  {
    LagrangeThree(a, b);
    DotScaled(s, k, s, k);
    assert Mul(1.0, 1.0) == 1.0 && Mul(Mul(s, s), 1.0) == Mul(s, s);
    hide Dot, Cross, Times, Mul;
  }

  lemma AcosOf(acos: Fn, sin: Fn, cos: Fn, s: real, c: real)
    requires IsTrig(sin, cos) && IsAcos(acos, sin, cos) && s >= 0.0 && Mul(s, s) + Mul(c, c) == 1.0
    ensures -1.0 <= c <= 1.0 && acos(c) >= 0.0 && cos(acos(c)) == c && sin(acos(c)) == s
  {
    hide IsTrig, IsAcos, Mul;
    CircleOf(s, c);
    OnCircle(s, c);
    AcosFact(acos, sin, cos, c);
    SineOfAcos(acos, sin, cos, c);
    TrigCircle(sin, cos, acos(c));
    SameSine(sin(acos(c)), s, c);
  }

  lemma SameSine(x: real, s: real, c: real)
    requires x * x + c * c == 1.0 && s * s + c * c == 1.0 && x >= 0.0 && s >= 0.0
    ensures x == s
  {
    SquareMonotone(x, s);
  }

  /** Set_init writes the rotation from the measured to the configured gravity.  The parallel and
      the antiparallel case are cut off by a test on the sine; in the general case the rotation is
      exact, except that the exponential's own, larger, threshold may replace it by the identity.
   */
  method SetInit(tmpGravity: V3, gravity: V3, sqrt: Fn, sin: Fn, cos: Fn, acos: Fn) returns (rot: M3)
    requires IsSqrt(sqrt) && IsTrig(sin, cos) && IsAcos(acos, sin, cos)
    requires Norm(sqrt, gravity) != 0.0 && Norm(sqrt, tmpGravity) != 0.0
    ensures rot == InitialRotation(tmpGravity, gravity, sqrt, sin, cos, acos)
  {
    var hatGrav := HatGrav(gravity);
    var axis := Apply(hatGrav, tmpGravity);
    var alignNorm := Norm(sqrt, axis) / Norm(sqrt, gravity) / Norm(sqrt, tmpGravity);
    var alignCos := Dot(gravity, tmpGravity);
    alignCos := alignCos / Norm(sqrt, gravity) / Norm(sqrt, tmpGravity);
    if alignNorm < 0.000001 {
      if alignCos > 0.000001 {
        rot := EYE3;
      } else {
        rot := MTimes(-1.0, EYE3);
      }
    } else {
      AxisCarriesCross(sqrt, gravity, tmpGravity);
      HatGravIsCross(gravity, tmpGravity);
      hide Norm, Apply, Cross, Dot, HatGrav, Exp, ExpXyz;
      var alignAngle := Times(acos(alignCos), Over(axis, Norm(sqrt, axis)));
      rot := ExpXyz(sqrt, sin, cos, alignAngle.x, alignAngle.y, alignAngle.z);
    }
  }

  function InitialRotation(t: V3, gravity: V3, sqrt: Fn, sin: Fn, cos: Fn, acos: Fn): M3
    requires Norm(sqrt, gravity) != 0.0 && Norm(sqrt, t) != 0.0
  {
    if AlignNorm(sqrt, gravity, t) < 0.000001 then
      if AlignCos(sqrt, gravity, t) > 0.000001 then EYE3 else MTimes(-1.0, EYE3)
    else
      var axis := Apply(HatGrav(gravity), t);
      if Norm(sqrt, axis) == 0.0 then EYE3 else
      var angle := Times(acos(AlignCos(sqrt, gravity, t)), Over(axis, Norm(sqrt, axis)));
      ExpXyz(sqrt, sin, cos, angle.x, angle.y, angle.z)
  }

  predicate General(t: V3, gravity: V3, sqrt: Fn)
    requires Norm(sqrt, gravity) != 0.0 && Norm(sqrt, t) != 0.0
  {
    AlignNorm(sqrt, gravity, t) >= 0.000001
  }

  /** In the general case the result is Rodrigues' matrix of the axis, the sine and the cosine, or
      the identity when the angle is below the exponential's threshold.
   */
  lemma GeneralCase(t: V3, gravity: V3, sqrt: Fn, sin: Fn, cos: Fn, acos: Fn) returns (k: V3)
    requires IsSqrt(sqrt) && IsTrig(sin, cos) && IsAcos(acos, sin, cos)
    requires Norm(sqrt, gravity) != 0.0 && Norm(sqrt, t) != 0.0 && General(t, gravity, sqrt)
    ensures var s, c := AlignNorm(sqrt, gravity, t), AlignCos(sqrt, gravity, t);
      && Dot(k, k) == 1.0 && Times(s, k) == Cross(Unit(sqrt, t), Unit(sqrt, gravity))
      && Mul(s, s) + Mul(c, c) == 1.0
      && InitialRotation(t, gravity, sqrt, sin, cos, acos)
         == if acos(c) > 0.00001 then Rodrigues(k, s, c) else EYE3
  {
    AxisCarriesCross(sqrt, gravity, t);
    HatGravIsCross(gravity, t);
    CosineIsDot(sqrt, gravity, t);
    NormPositive(sqrt, t);
    NormPositive(sqrt, gravity);
    var s, c := AlignNorm(sqrt, gravity, t), AlignCos(sqrt, gravity, t);
    k := Unit(sqrt, Cross(t, gravity));
    hide Norm, Dot, Times, Mul, Cross, Apply, AlignNorm, AlignCos, HatGrav, Rodrigues, IsTrig, IsAcos, IsSqrt;
    SineSquared(Unit(sqrt, t), Unit(sqrt, gravity), k, s);
    AcosOf(acos, sin, cos, s, c);
    NormOfScaled(sqrt, k, acos(c));
    var angle := Times(acos(c), k);
    assert V3(angle.x, angle.y, angle.z) == angle;
  }

  /** In the general case the measured gravity is taken exactly onto the configured one if and only
      if the angle between them exceeds the exponential's threshold.
   */
  lemma AlignsIff(t: V3, gravity: V3, sqrt: Fn, sin: Fn, cos: Fn, acos: Fn)
    requires IsSqrt(sqrt) && IsTrig(sin, cos) && IsAcos(acos, sin, cos)
    requires Norm(sqrt, gravity) != 0.0 && Norm(sqrt, t) != 0.0 && General(t, gravity, sqrt)
    ensures Aligned(t, gravity, sqrt, sin, cos, acos) <==> acos(AlignCos(sqrt, gravity, t)) > 0.00001
  {
    var k := GeneralCase(t, gravity, sqrt, sin, cos, acos);
    var a, b, s, c := Unit(sqrt, t), Unit(sqrt, gravity), AlignNorm(sqrt, gravity, t), AlignCos(sqrt, gravity, t);
    CosineIsDot(sqrt, gravity, t);
    NormPositive(sqrt, t);
    NormPositive(sqrt, gravity);
    hide InitialRotation, Norm, Dot, Times, Mul, Cross, Apply, AlignNorm, AlignCos, Rodrigues, Unit, Turn;
    hide IsTrig, IsAcos, IsSqrt;
    AlignUnits(a, b, k, s, c);
    RodriguesTurns(k, s, c, a);
    ApplyEye(a);
    if a == b {
      ParallelUnits(a, k, s);
    }
  }

  /** The result takes the measured direction to the configured one. */
  predicate Aligned(t: V3, gravity: V3, sqrt: Fn, sin: Fn, cos: Fn, acos: Fn)
    requires Norm(sqrt, gravity) != 0.0 && Norm(sqrt, t) != 0.0
  {
    Apply(InitialRotation(t, gravity, sqrt, sin, cos, acos), Unit(sqrt, t)) == Unit(sqrt, gravity)
  }

  /** What a caller can test: with angles in radians, general inputs are aligned if and only if the
      cosine between the gravities is below that of 1e-5.  So a sine above 1e-5 is always enough,
      and no input with a sine of at most 5e-6 and a positive cosine is aligned.
   */
  lemma AlignsByCosine(t: V3, gravity: V3, sqrt: Fn, sin: Fn, cos: Fn, acos: Fn)
    requires IsSqrt(sqrt) && IsTrig(sin, cos) && IsAcos(acos, sin, cos) && InRadians(sin)
    requires Norm(sqrt, gravity) != 0.0 && Norm(sqrt, t) != 0.0 && General(t, gravity, sqrt)
    ensures Aligned(t, gravity, sqrt, sin, cos, acos) <==> AlignCos(sqrt, gravity, t) < cos(0.00001)
    ensures AlignNorm(sqrt, gravity, t) > 0.00001 ==> Aligned(t, gravity, sqrt, sin, cos, acos)
    ensures AlignNorm(sqrt, gravity, t) <= 0.000005 && AlignCos(sqrt, gravity, t) >= 0.00001 ==>
      !Aligned(t, gravity, sqrt, sin, cos, acos)
  {
    var s, c := AlignNorm(sqrt, gravity, t), AlignCos(sqrt, gravity, t);
    assert s >= 0.000001;
    hide Aligned, AlignNorm, AlignCos, Norm, Mul, Rodrigues, InitialRotation, General;
    hide IsTrig, IsAcos, IsSqrt, InRadians;
    AlignsIff(t, gravity, sqrt, sin, cos, acos);
    var k := GeneralCase(t, gravity, sqrt, sin, cos, acos);
    AcosOf(acos, sin, cos, s, c);
    HalfTurn(acos, sin, cos);
    AcosExceedsIff(acos, sin, cos, c, 0.00001);
    AngleBySine(acos, sin, cos, c);
  }

  lemma ParallelUnits(a: V3, k: V3, s: real)
    requires Dot(k, k) == 1.0 && Times(s, k) == Cross(a, a)
    ensures s == 0.0
  {
    CrossSelf(a, 1.0);
    assert Times(1.0, a) == a;
    DotScaled(s, k, s, k);
    assert Mul(Mul(s, s), 1.0) == Mul(s, s);
    hide Cross;
    if s != 0.0 {
      NonzeroMul(s, s);
    }
  }

  /** The result is a rotation in every case but the antiparallel one, where it is a reflection in
      the origin.
   */
  lemma RotationIff(t: V3, gravity: V3, sqrt: Fn, sin: Fn, cos: Fn, acos: Fn)
    requires IsSqrt(sqrt) && IsTrig(sin, cos) && IsAcos(acos, sin, cos)
    requires Norm(sqrt, gravity) != 0.0 && Norm(sqrt, t) != 0.0
    ensures IsRotation(InitialRotation(t, gravity, sqrt, sin, cos, acos))
       <==> General(t, gravity, sqrt) || AlignCos(sqrt, gravity, t) > 0.000001
  {
    EyeIsRotation();
    NegatedEyeIsNoRotation();
    hide IsRotation, Norm, Dot, Times, Mul, Cross, Apply, AlignNorm, AlignCos, Rodrigues, HatGrav, MTimes;
    hide IsTrig, IsAcos, IsSqrt;
    if General(t, gravity, sqrt) {
      var k := GeneralCase(t, gravity, sqrt, sin, cos, acos);
      CircleOf(AlignNorm(sqrt, gravity, t), AlignCos(sqrt, gravity, t));
      RodriguesIsRotation(k, AlignNorm(sqrt, gravity, t), AlignCos(sqrt, gravity, t));
    }
  }

  /** Where the first test cuts off, every vector is left as it is when the gravities point the same
      way, and turned into its opposite when they do not.
   */
  lemma CutOffCases(t: V3, gravity: V3, sqrt: Fn, sin: Fn, cos: Fn, acos: Fn, v: V3)
    requires Norm(sqrt, gravity) != 0.0 && Norm(sqrt, t) != 0.0 && AlignNorm(sqrt, gravity, t) < 0.000001
    ensures Apply(InitialRotation(t, gravity, sqrt, sin, cos, acos), v)
         == if AlignCos(sqrt, gravity, t) > 0.000001 then v else V3(-v.x, -v.y, -v.z)
  {
    ApplyEye(v);
    ApplyTimes(-1.0, EYE3, v);
    assert Times(-1.0, v) == V3(-v.x, -v.y, -v.z);
    hide Apply, AlignNorm, AlignCos, Norm, MTimes, Times;
  }

  lemma CircleOf(s: real, c: real)
    requires Mul(s, s) + Mul(c, c) == 1.0
    ensures s * s + c * c == 1.0
  {}

  lemma NegatedEyeIsNoRotation()
    ensures !IsRotation(MTimes(-1.0, EYE3))
  {
    var r := MTimes(-1.0, EYE3);
    assert Cross(Apply(r, E0), Apply(r, E1)) == E2;
    assert Apply(r, Cross(E0, E1)) == V3(0.0, 0.0, -1.0);
  }

  // -- Two inputs ----------------------------------------------------------------------------

  lemma NormIs(sqrt: Fn, v: V3, n: real)
    requires IsSqrt(sqrt) && n >= 0.0 && Dot(v, v) == Mul(n, n)
    ensures Norm(sqrt, v) == n
  {
    NormSquared(sqrt, v);
    hide Norm, Dot;
    SameSquares(Norm(sqrt, v), n);
  }

  /** Gravity configured straight up, and measured off it by two millionths. */
  const UP := V3(0.0, 0.0, 1.0)
  const NEARLY_UP := V3(2000000.0, 0.0, 999999999999.0)

  /** An input beyond the first test that is left as it is: the two gravities differ, and the
      result is the identity.
   */
  lemma MisalignedInput(sqrt: Fn, sin: Fn, cos: Fn, acos: Fn)
    requires IsSqrt(sqrt) && IsTrig(sin, cos) && IsAcos(acos, sin, cos) && InRadians(sin)
    ensures Norm(sqrt, UP) == 1.0 && Norm(sqrt, NEARLY_UP) == 1000000000001.0
    ensures General(NEARLY_UP, UP, sqrt) && !Aligned(NEARLY_UP, UP, sqrt, sin, cos, acos)
    ensures InitialRotation(NEARLY_UP, UP, sqrt, sin, cos, acos) == EYE3
  {
    NearlyUp(sqrt);
    var s, c := AlignNorm(sqrt, UP, NEARLY_UP), AlignCos(sqrt, UP, NEARLY_UP);
    hide Aligned, AlignNorm, AlignCos, Norm, Mul, Rodrigues, InitialRotation, IsTrig, IsAcos, IsSqrt, InRadians;
    AlignsByCosine(NEARLY_UP, UP, sqrt, sin, cos, acos);
    AlignsIff(NEARLY_UP, UP, sqrt, sin, cos, acos);
    var k := GeneralCase(NEARLY_UP, UP, sqrt, sin, cos, acos);
  }

  lemma NearlyUp(sqrt: Fn)
    requires IsSqrt(sqrt)
    ensures Norm(sqrt, UP) == 1.0 && Norm(sqrt, NEARLY_UP) == 1000000000001.0
    ensures AlignNorm(sqrt, UP, NEARLY_UP) == 2000000.0 / 1000000000001.0
    ensures AlignCos(sqrt, UP, NEARLY_UP) == 999999999999.0 / 1000000000001.0
  {
    hide Dot, Cross, Norm, IsSqrt, Mul, AlignNorm, AlignCos;
    NearlyUpProducts();
    NormIs(sqrt, UP, 1.0);
    NormIs(sqrt, NEARLY_UP, 1000000000001.0);
    NormIs(sqrt, Cross(NEARLY_UP, UP), 2000000.0);
    AlignValues(sqrt, UP, NEARLY_UP, 2000000.0, 999999999999.0, 1.0, 1000000000001.0);
  }

  lemma NearlyUpProducts()
    ensures Dot(UP, UP) == Mul(1.0, 1.0)
    ensures Dot(NEARLY_UP, NEARLY_UP) == Mul(1000000000001.0, 1000000000001.0)
    ensures Dot(Cross(NEARLY_UP, UP), Cross(NEARLY_UP, UP)) == Mul(2000000.0, 2000000.0)
    ensures Dot(UP, NEARLY_UP) == 999999999999.0
  {
    assert Cross(NEARLY_UP, UP) == V3(0.0, -2000000.0, 0.0);
  }

  /** Both tested quotients, by the lengths and the product they are made of. */
  lemma AlignValues(sqrt: Fn, gravity: V3, t: V3, n: real, d: real, g: real, m: real)
    requires Norm(sqrt, gravity) == g != 0.0 && Norm(sqrt, t) == m != 0.0
    requires Norm(sqrt, Cross(t, gravity)) == n && Dot(gravity, t) == d
    ensures AlignNorm(sqrt, gravity, t) == n / g / m && AlignCos(sqrt, gravity, t) == d / g / m
  {
    hide Norm, Dot, Cross, Apply, HatGrav;
    HatGravIsCross(gravity, t);
  }

  /** Exactly opposite gravities, of any size: the result is minus the identity, no rotation. */
  lemma OppositeInput(gravity: V3, sqrt: Fn, sin: Fn, cos: Fn, acos: Fn)
    requires IsSqrt(sqrt) && Norm(sqrt, gravity) != 0.0
    ensures Norm(sqrt, Times(-1.0, gravity)) == Norm(sqrt, gravity)
    ensures InitialRotation(Times(-1.0, gravity), gravity, sqrt, sin, cos, acos) == MTimes(-1.0, EYE3)
    ensures !IsRotation(MTimes(-1.0, EYE3))
  {
    NegatedEyeIsNoRotation();
    Opposed(sqrt, gravity);
    hide IsRotation, Norm, AlignNorm, AlignCos, IsSqrt, MTimes;
  }

  lemma Opposed(sqrt: Fn, gravity: V3)
    requires IsSqrt(sqrt) && Norm(sqrt, gravity) != 0.0
    ensures Norm(sqrt, Times(-1.0, gravity)) == Norm(sqrt, gravity)
    ensures AlignNorm(sqrt, gravity, Times(-1.0, gravity)) == 0.0
    ensures AlignCos(sqrt, gravity, Times(-1.0, gravity)) == -1.0
  {
    hide Norm, Dot, Cross, IsSqrt, Times, AlignNorm, AlignCos, Mul, Unit;
    var t, n := Times(-1.0, gravity), Norm(sqrt, gravity);
    OpposedProducts(gravity);
    NormPositive(sqrt, gravity);
    NormIs(sqrt, t, n) by { NormOf(sqrt, gravity); }
    NormIs(sqrt, Cross(t, gravity), 0.0) by { assert Mul(0.0, 0.0) == 0.0 by { ZeroMul(0.0); } }
    AlignValues(sqrt, gravity, t, 0.0, -Dot(gravity, gravity), n, n);
    NormOf(sqrt, gravity);
    MinusOne(n, -Dot(gravity, gravity));
  }

  lemma NormOf(sqrt: Fn, v: V3)
    requires IsSqrt(sqrt)
    ensures Dot(v, v) == Mul(Norm(sqrt, v), Norm(sqrt, v))
  {
    NormSquared(sqrt, v);
    hide Norm, Dot;
  }

  lemma OpposedProducts(gravity: V3)
    ensures var t := Times(-1.0, gravity);
      Dot(t, t) == Dot(gravity, gravity) && Dot(gravity, t) == -Dot(gravity, gravity)
      && Dot(Cross(t, gravity), Cross(t, gravity)) == 0.0
  {
    var t := Times(-1.0, gravity);
    assert t == V3(-gravity.x, -gravity.y, -gravity.z);
    CrossAnti(t, gravity);
    CrossSelf(gravity, -1.0);
    assert Cross(t, gravity) == V3(0.0, 0.0, 0.0) by { hide Cross, Dot; }
    hide Cross;
    OppositeSums(gravity.x, gravity.y, gravity.z);
  }

  lemma OppositeSums(x: real, y: real, z: real)
    ensures Sum3(-x, -x, -y, -y, -z, -z) == Sum3(x, x, y, y, z, z)
    ensures Sum3(x, -x, y, -y, z, -z) == -Sum3(x, x, y, y, z, z)
  {}

  lemma ZeroMul(x: real)
    ensures Mul(0.0, x) == 0.0
  {}

  lemma MinusOne(n: real, m: real)
    requires n > 0.0 && m == -Mul(n, n)
    ensures m / n / n == -1.0 && 0.0 / n / n == 0.0
  {
    assert m == n * -n;
    QuotientIs(m, n, -n);
    QuotientIs(-n, n, -1.0);
    QuotientIs(0.0, n, 0.0);
  }

  // -- The running means ---------------------------------------------------------------------

  datatype Sample = Sample(acceleration: V3, rate: V3)

  const MAX_INI_COUNT: nat := 100

  function SumOf(vs: seq<V3>): V3 {
    if vs == [] then V3(0.0, 0.0, 0.0) else Plus(SumOf(vs[..|vs| - 1]), vs[|vs| - 1])
  }

  function Accelerations(samples: seq<Sample>): (vs: seq<V3>)
    ensures |vs| == |samples|
  {
    seq(|samples|, i requires 0 <= i < |samples| => samples[i].acceleration)
  }

  function Rates(samples: seq<Sample>): (vs: seq<V3>)
    ensures |vs| == |samples|
  {
    seq(|samples|, i requires 0 <= i < |samples| => samples[i].rate)
  }

  /** m is the arithmetic mean of the vectors. */
  ghost predicate IsMean(m: V3, vs: seq<V3>) {
    Times(|vs| as real, m) == SumOf(vs)
  }

  function Stepped(m: V3, v: V3, n: real): V3
    requires n != 0.0
  {
    V3(m.x + (v.x - m.x) / n, m.y + (v.y - m.y) / n, m.z + (v.z - m.z) / n)
  }

  /** One step of the running mean keeps the mean. */
  lemma MeanStep(m: V3, vs: seq<V3>, v: V3)
    requires IsMean(m, vs)
    ensures IsMean(Stepped(m, v, (|vs| + 1) as real), vs + [v])
  {
    var n := |vs| as real;
    assert (vs + [v])[..|vs|] == vs;
    MeanCoordinate(m.x, v.x, n, SumOf(vs).x);
    MeanCoordinate(m.y, v.y, n, SumOf(vs).y);
    MeanCoordinate(m.z, v.z, n, SumOf(vs).z);
    hide Mul;
  }

  lemma MeanCoordinate(m: real, v: real, n: real, sum: real)
    requires n >= 0.0 && Mul(n, m) == sum
    ensures Mul(n + 1.0, m + (v - m) / (n + 1.0)) == sum + v
  {
    var q := (v - m) / (n + 1.0);
    Quotient(v - m, n + 1.0);
    assert (n + 1.0) * (m + q) == n * m + m + (n + 1.0) * q;
  }

  lemma AppendSample(seen: seq<Sample>, x: Sample)
    ensures Accelerations(seen + [x]) == Accelerations(seen) + [x.acceleration]
    ensures Rates(seen + [x]) == Rates(seen) + [x.rate]
  {}

  /** The samples and the cloud of one scan. */
  datatype MeasureGroup = MeasureGroup(imu: seq<Sample>, lidar: seq<V3>)

  class ImuProcess {
    var imuEn: bool
    var meanAcc: V3
    var meanGyr: V3
    var initIterNum: nat
    var firstFrame: bool
    var needInit: bool
    var afterInit: bool
    ghost var seen: seq<Sample>

    ghost predicate Valid()
      reads this
    {
      !firstFrame ==>
        initIterNum == |seen| + 1 && IsMean(meanAcc, Accelerations(seen)) && IsMean(meanGyr, Rates(seen))
    }

    constructor ()
      ensures Valid() && firstFrame && needInit && imuEn && !afterInit
    {
      meanAcc, meanGyr := V3(0.0, 0.0, 0.0), V3(0.0, 0.0, 0.0);
      imuEn, initIterNum, firstFrame, needInit, afterInit, seen := true, 1, true, true, false, [];
    }

    method Reset()
      modifies this
      ensures meanAcc == V3(0.0, 0.0, 0.0) && meanGyr == V3(0.0, 0.0, 0.0)
      ensures initIterNum == 1 && needInit && !afterInit && seen == []
      ensures firstFrame == old(firstFrame) && imuEn == old(imuEn)
    {
      meanAcc, meanGyr := V3(0.0, 0.0, 0.0), V3(0.0, 0.0, 0.0);
      needInit, initIterNum, afterInit, seen := true, 1, false, [];
    }

    /** Everything but the means. */
    function Flags(): (bool, bool, bool, bool)
      reads this
    {
      (imuEn, firstFrame, needInit, afterInit)
    }

    /** One sample enters the means. */
    method Average(x: Sample)
      requires Valid() && !firstFrame
      modifies this
      ensures Valid() && Flags() == old(Flags()) && seen == old(seen) + [x]
    {
      hide IsMean, Stepped;
      MeanStep(meanAcc, Accelerations(seen), x.acceleration);
      MeanStep(meanGyr, Rates(seen), x.rate);
      AppendSample(seen, x);
      meanAcc := Stepped(meanAcc, x.acceleration, initIterNum as real);
      meanGyr := Stepped(meanGyr, x.rate, initIterNum as real);
      initIterNum := initIterNum + 1;
      seen := seen + [x];
    }

    /** The means are those of all samples since the first frame; that frame's first sample, with
        which the means start, is not counted twice.
     */
    method ImuInit(samples: seq<Sample>)
      requires Valid() && samples != []
      modifies this
      ensures Valid() && !firstFrame && imuEn == old(imuEn)
      ensures seen == (if old(firstFrame) then [] else old(seen)) + samples
      ensures needInit == (old(firstFrame) || old(needInit))
      ensures afterInit == (!old(firstFrame) && old(afterInit))
    {
      ghost var earlier := if firstFrame then [] else seen;
      if firstFrame {
        Reset();
        initIterNum := 1;
        firstFrame := false;
        meanAcc := samples[0].acceleration;
        meanGyr := samples[0].rate;
        EmptyMean(meanAcc);
        EmptyMean(meanGyr);
      }
      hide Valid;
      ghost var flags := Flags();
      for i := 0 to |samples|
        invariant Valid() && Flags() == flags && seen == earlier + samples[..i]
      {
        Average(samples[i]);
        assert samples[..i + 1] == samples[..i] + [samples[i]];
      }
      assert samples[..|samples|] == samples;
    }

    /** A scan.  While the unit is initialising its samples are averaged, and the flag falls once
        there are a hundred; the cloud is handed over by every call that finds the unit disabled,
        or that has samples and leaves the unit initialised, and left as it was by every other.
     */
    method Process(meas: MeasureGroup, cloud: seq<V3>) returns (out: seq<V3>)
      requires Valid()
      modifies this
      ensures Valid() && imuEn == old(imuEn)
      ensures out == if !imuEn || (meas.imu != [] && !needInit) then meas.lidar else cloud
      ensures imuEn && meas.imu != [] && old(needInit) ==>
        && seen == (if old(firstFrame) then [] else old(seen)) + meas.imu
        && (needInit <==> |seen| < 100) && !firstFrame
        && afterInit == (!old(firstFrame) && old(afterInit))
      ensures imuEn && meas.imu != [] && !old(needInit) ==>
        seen == old(seen) && !needInit && firstFrame == old(firstFrame) && afterInit
      ensures !imuEn || meas.imu == [] ==> seen == old(seen) && Flags() == old(Flags())
    {
      out := cloud;
      if imuEn {
        if meas.imu == [] {
          return;
        }
        if needInit {
          ImuInit(meas.imu);
          needInit := true;
          if initIterNum > MAX_INI_COUNT {
            needInit := false;
            out := meas.lidar;
          }
          return;
        }
        if !afterInit {
          afterInit := true;
        }
        out := meas.lidar;
      } else {
        out := meas.lidar;
      }
    }
  }

  lemma EmptyMean(m: V3)
    ensures IsMean(m, [])
  {
    assert Times(0.0, m) == V3(0.0, 0.0, 0.0);
  }
}
