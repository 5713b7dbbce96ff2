/** The curvature of the path around the look-ahead point: the circle through three points. */
module Curvature {
  import opened RealAlgebra
  import opened Plane
  import opened ArcLength
  import LookAhead

  const NO_CURVATURE_RADIUS: real := 1000000000.0
  const SMALLEST_RADIUS: real := 0.000000001

  /** Twice the determinant of the three points; zero when they lie on a line. */
  function Denominator(p1: Point, p2: Point, p3: Point): real {
    2.0 * (p1.x * (p2.y - p3.y) + p2.x * (p3.y - p1.y) + p3.x * (p1.y - p2.y))
  }

  function NumeratorX(p1: Point, p2: Point, p3: Point): real {
    NormSq(p1) * (p2.y - p3.y) + NormSq(p2) * (p3.y - p1.y) + NormSq(p3) * (p1.y - p2.y)
  }

  function NumeratorY(p1: Point, p2: Point, p3: Point): real {
    NormSq(p1) * (p3.x - p2.x) + NormSq(p2) * (p1.x - p3.x) + NormSq(p3) * (p2.x - p1.x)
  }

  function Center(p1: Point, p2: Point, p3: Point): Point
    requires Denominator(p1, p2, p3) != 0.0
  {
    Point(NumeratorX(p1, p2, p3) / Denominator(p1, p2, p3), NumeratorY(p1, p2, p3) / Denominator(p1, p2, p3), 0.0)
  }

  /** Where the controller divides by zero, its radius is infinite or not a number. */
  function CalculateCurvatureRadius(near: Point, current: Point, far: Point, hypot: Hypot): (radius: real)
    ensures radius >= SMALLEST_RADIUS
  {
    if Denominator(near, current, far) == 0.0 then NO_CURVATURE_RADIUS
    else
      var center := Center(near, current, far);
      var radius := Length(hypot, center, current);
      if radius < SMALLEST_RADIUS then NO_CURVATURE_RADIUS else radius
  }

  /** The centre satisfies the equations of the two perpendicular bisectors. */
  lemma Bisector(x1: real, y1: real, x2: real, y2: real, x3: real, y3: real,
                 n1: real, n2: real, n3: real, den: real, cx: real, cy: real)
    requires den == 2.0 * (x1 * (y2 - y3) + x2 * (y3 - y1) + x3 * (y1 - y2)) && den != 0.0
    requires den * cx == n1 * (y2 - y3) + n2 * (y3 - y1) + n3 * (y1 - y2)
    requires den * cy == n1 * (x3 - x2) + n2 * (x1 - x3) + n3 * (x2 - x1)
    ensures 2.0 * (x2 - x1) * cx + 2.0 * (y2 - y1) * cy == n2 - n1
    ensures 2.0 * (x3 - x2) * cx + 2.0 * (y3 - y2) * cy == n3 - n2
  {
    var u, v := 2.0 * (x2 - x1) * cx + 2.0 * (y2 - y1) * cy, 2.0 * (x3 - x2) * cx + 2.0 * (y3 - y2) * cy;
    Combine(x2 - x1, y2 - y1, cx, cy, den);
    Combine(x3 - x2, y3 - y2, cx, cy, den);
    FirstIdentity(x1, y1, x2, y2, x3, y3, n1, n2, n3);
    SecondIdentity(x1, y1, x2, y2, x3, y3, n1, n2, n3);
    SameFactor(den, u, n2 - n1);
    SameFactor(den, v, n3 - n2);
  }

  lemma Combine(dx: real, dy: real, cx: real, cy: real, den: real)
    ensures den * (2.0 * dx * cx + 2.0 * dy * cy) == 2.0 * dx * (den * cx) + 2.0 * dy * (den * cy)
  {}

  lemma FirstIdentity(x1: real, y1: real, x2: real, y2: real, x3: real, y3: real, n1: real, n2: real, n3: real)
    ensures 2.0 * (x2 - x1) * (n1 * (y2 - y3) + n2 * (y3 - y1) + n3 * (y1 - y2))
          + 2.0 * (y2 - y1) * (n1 * (x3 - x2) + n2 * (x1 - x3) + n3 * (x2 - x1))
         == 2.0 * (x1 * (y2 - y3) + x2 * (y3 - y1) + x3 * (y1 - y2)) * (n2 - n1)
  {}

  lemma SecondIdentity(x1: real, y1: real, x2: real, y2: real, x3: real, y3: real, n1: real, n2: real, n3: real)
    ensures 2.0 * (x3 - x2) * (n1 * (y2 - y3) + n2 * (y3 - y1) + n3 * (y1 - y2))
          + 2.0 * (y3 - y2) * (n1 * (x3 - x2) + n2 * (x1 - x3) + n3 * (x2 - x1))
         == 2.0 * (x1 * (y2 - y3) + x2 * (y3 - y1) + x3 * (y1 - y2)) * (n3 - n2)
  {}

  lemma SameFactor(a: real, u: real, v: real)
    requires a != 0.0 && a * u == a * v
    ensures u == v
  {
    MulCancel(a, u - v);
  }

  lemma EqualDistances(x1: real, y1: real, x2: real, y2: real, cx: real, cy: real)
    requires 2.0 * (x2 - x1) * cx + 2.0 * (y2 - y1) * cy == (x2 * x2 + y2 * y2) - (x1 * x1 + y1 * y1)
    ensures (x1 - cx) * (x1 - cx) + (y1 - cy) * (y1 - cy) == (x2 - cx) * (x2 - cx) + (y2 - cy) * (y2 - cy)
  {}

  /** The point c lies on the perpendicular bisector of p and q. */
  ghost predicate OnBisector(c: Point, p: Point, q: Point) {
    2.0 * (q.x - p.x) * c.x + 2.0 * (q.y - p.y) * c.y == NormSq(q) - NormSq(p)
  }

  lemma BisectorEqualDistances(c: Point, p: Point, q: Point)
    requires OnBisector(c, p, q)
    ensures DistSq(c, p) == DistSq(c, q)
  {
    EqualDistances(p.x, p.y, q.x, q.y, c.x, c.y);
  }

  lemma CenterOnBisectors(p1: Point, p2: Point, p3: Point, c: Point)
    requires Denominator(p1, p2, p3) != 0.0
    requires Denominator(p1, p2, p3) * c.x == NumeratorX(p1, p2, p3)
    requires Denominator(p1, p2, p3) * c.y == NumeratorY(p1, p2, p3)
    ensures OnBisector(c, p1, p2) && OnBisector(c, p2, p3)
  {
    hide NormSq;
    var den := Denominator(p1, p2, p3);
    Bisector(p1.x, p1.y, p2.x, p2.y, p3.x, p3.y, NormSq(p1), NormSq(p2), NormSq(p3), den, c.x, c.y);
  }

  /** The centre is equally far from all three points. */
  lemma CircleThroughThree(p1: Point, p2: Point, p3: Point)
    requires Denominator(p1, p2, p3) != 0.0
    ensures var c := Center(p1, p2, p3); DistSq(c, p1) == DistSq(c, p2) == DistSq(c, p3)
  {
    hide Center, Denominator, NumeratorX, NumeratorY, OnBisector, DistSq;
    CenterSolves(p1, p2, p3);
    var c := Center(p1, p2, p3);
    CenterOnBisectors(p1, p2, p3, c);
    BisectorEqualDistances(c, p1, p2);
    BisectorEqualDistances(c, p2, p3);
  }

  lemma CenterSolves(p1: Point, p2: Point, p3: Point)
    requires Denominator(p1, p2, p3) != 0.0
    ensures var c := Center(p1, p2, p3);
      && Denominator(p1, p2, p3) * c.x == NumeratorX(p1, p2, p3)
      && Denominator(p1, p2, p3) * c.y == NumeratorY(p1, p2, p3)
  {
    hide Denominator, NumeratorX, NumeratorY;
    Quotient(NumeratorX(p1, p2, p3), Denominator(p1, p2, p3));
    Quotient(NumeratorY(p1, p2, p3), Denominator(p1, p2, p3));
  }

  /** Either the radius is that of the circle through the three points, or they lie on a line or
      the circle is tiny.
   */
  lemma RadiusOfCircle(near: Point, current: Point, far: Point, hypot: Hypot)
    requires IsHypot(hypot) && Denominator(near, current, far) != 0.0
    ensures var c, r := Center(near, current, far), CalculateCurvatureRadius(near, current, far, hypot);
      (r * r == DistSq(c, near) && r * r == DistSq(c, current) && r * r == DistSq(c, far))
      || (r == NO_CURVATURE_RADIUS && DistSq(c, current) < SMALLEST_RADIUS * SMALLEST_RADIUS)
  {
    hide Center, Denominator, Length, DistSq, IsHypot;
    CircleThroughThree(near, current, far);
    var c := Center(near, current, far);
    LengthSquared(hypot, c, current);
    var h := Length(hypot, c, current);
    if h < SMALLEST_RADIUS {
      SquareStrict(h, SMALLEST_RADIUS);
    }
  }

  /** A radius is at least the smallest one, so its reciprocal exists. */
  function Reciprocal(radius: real): (c: real)
    requires radius >= SMALLEST_RADIUS
    ensures 0.0 < c <= 1000000000.0 && c * radius == 1.0
  {
    var c := 1.0 / radius;
    Quotient(1.0, radius);
    SignOf(radius, c);
    MulMonotone(SMALLEST_RADIUS, radius, c);
    c
  }

  method CalculateCurvature(
    path: seq<Pose>, lookahead: Pose, forwardDist: real, backwardDist: real, hypot: Hypot
  ) returns (curvature: real)
    requires IsHypot(hypot)
    ensures 0.0 < curvature <= 1000000000.0
    ensures HasCurvature(path, lookahead, forwardDist, backwardDist, hypot, curvature)
  {
    hide IsHypot, IsCumulative, IsPoseAt, CalculateCurvatureRadius, IsCurvature, CurvatureAt, Reciprocal;
    var cum := CalculateCumulativeDistances(path, hypot);
    var lookaheadDistance := hypot(lookahead.position.x, lookahead.position.y);
    var backward := FindPoseAtDistance(path, cum, lookaheadDistance - backwardDist, hypot);
    var forward := FindPoseAtDistance(path, cum, lookaheadDistance + forwardDist, hypot);
    var radius := CalculateCurvatureRadius(backward.position, lookahead.position, forward.position, hypot);
    curvature := Reciprocal(radius);
    CurvatureFromParts(path, lookahead, forwardDist, backwardDist, hypot, cum, backward, forward);
  }

  lemma CurvatureFromParts(path: seq<Pose>, lookahead: Pose, forwardDist: real, backwardDist: real,
                           hypot: Hypot, cum: seq<real>, near: Pose, far: Pose)
    requires IsCumulative(hypot, path, cum)
    requires IsPoseAt(hypot, path, cum, hypot(lookahead.position.x, lookahead.position.y) - backwardDist, near)
    requires IsPoseAt(hypot, path, cum, hypot(lookahead.position.x, lookahead.position.y) + forwardDist, far)
    ensures CurvatureAt(path, lookahead, forwardDist, backwardDist, hypot, cum,
              Reciprocal(CalculateCurvatureRadius(near.position, lookahead.position, far.position, hypot)))
  {
    hide IsHypot, IsCumulative, IsPoseAt, CalculateCurvatureRadius, Reciprocal;
    assert IsCurvature(path, lookahead, forwardDist, backwardDist, hypot, cum, near, far,
              Reciprocal(CalculateCurvatureRadius(near.position, lookahead.position, far.position, hypot)));
  }

  ghost predicate HasCurvature(path: seq<Pose>, lookahead: Pose, forwardDist: real, backwardDist: real,
                               hypot: Hypot, curvature: real)
  {
    exists cum :: CurvatureAt(path, lookahead, forwardDist, backwardDist, hypot, cum, curvature)
  }

  ghost predicate CurvatureAt(path: seq<Pose>, lookahead: Pose, forwardDist: real, backwardDist: real,
                              hypot: Hypot, cum: seq<real>, curvature: real)
  {
    exists near, far :: IsCurvature(path, lookahead, forwardDist, backwardDist, hypot, cum, near, far, curvature)
  }

  /** The curvature of the circle through the look-ahead point and two points of the path.  Their
      lengths along the path are those of the look-ahead point less and plus a given one, as if
      its straight distance from the robot were its length along the path.
   */
  ghost predicate IsCurvature(path: seq<Pose>, lookahead: Pose, forwardDist: real, backwardDist: real,
                              hypot: Hypot, cum: seq<real>, near: Pose, far: Pose, curvature: real)
  {
    var d := hypot(lookahead.position.x, lookahead.position.y);
    && IsCumulative(hypot, path, cum)
    && IsPoseAt(hypot, path, cum, d - backwardDist, near)
    && IsPoseAt(hypot, path, cum, d + forwardDist, far)
    && curvature == Reciprocal(CalculateCurvatureRadius(near.position, lookahead.position, far.position, hypot))
  }

  /** The outer two of the three points are at most the two distances apart. */
  lemma OuterPointsAreNear(path: seq<Pose>, lookahead: Pose, forwardDist: real, backwardDist: real,
                           hypot: Hypot, cum: seq<real>, near: Pose, far: Pose, curvature: real)
    requires IsHypot(hypot) && path != [] && forwardDist >= 0.0 && backwardDist >= 0.0
    requires IsCurvature(path, lookahead, forwardDist, backwardDist, hypot, cum, near, far, curvature)
    ensures Length(hypot, near.position, far.position) <= forwardDist + backwardDist
  {
    hide IsHypot, IsCumulative, IsPoseAt, Length, AtDistance, CalculateCurvatureRadius, Reciprocal, Clamp;
    OneEach(hypot, path, cum);
    var d, total := hypot(lookahead.position.x, lookahead.position.y), cum[|cum| - 1];
    FoundAtDistance(hypot, path, cum, d - backwardDist, near);
    FoundAtDistance(hypot, path, cum, d + forwardDist, far);
    EndsAtDistance(hypot, path, cum);
    EndIsLast(hypot, path, cum, path[0].position, 0.0);
    NonNegativeHypot(hypot, lookahead.position);
    ClampedBracket(d, 0.0, total, forwardDist, backwardDist);
    ChordAtMostArc(hypot, path, cum, near.position, Clamp(d - backwardDist, 0.0, total),
                   far.position, Clamp(d + forwardDist, 0.0, total));
  }

  /** The look-ahead point lies on the path at length d: where the other two lie.  The far one is
      ahead exactly when the path to the look-ahead point exceeds its straight distance by at most
      the forward distance; the near one is behind it when the path starts close to the robot.
   */
  lemma PointsBracketCarrot(path: seq<Pose>, lookahead: Pose, forwardDist: real, backwardDist: real,
                            hypot: Hypot, cum: seq<real>, near: Pose, far: Pose, curvature: real, d: real)
                            returns (dNear: real, dFar: real)
    requires IsHypot(hypot) && path != [] && forwardDist >= 0.0 && backwardDist >= 0.0
    requires IsCurvature(path, lookahead, forwardDist, backwardDist, hypot, cum, near, far, curvature)
    requires AtDistance(hypot, path, cum, lookahead.position, d)
    ensures AtDistance(hypot, path, cum, near.position, dNear) && AtDistance(hypot, path, cum, far.position, dFar)
    ensures dNear <= dFar <= dNear + forwardDist + backwardDist
    ensures var straight := hypot(lookahead.position.x, lookahead.position.y);
      && (dNear <= d <==> straight - backwardDist <= d || d == cum[|cum| - 1])
      && (d <= dFar <==> d <= straight + forwardDist)
    ensures hypot(path[0].position.x, path[0].position.y) <= backwardDist ==> dNear <= d
  {
    hide IsCumulative, AtDistance, IsPoseAt, Length, CalculateCurvatureRadius, Reciprocal, IsHypot, Clamp;
    OneEach(hypot, path, cum);
    var straight, total := hypot(lookahead.position.x, lookahead.position.y), cum[|cum| - 1];
    FoundAtDistance(hypot, path, cum, straight - backwardDist, near);
    FoundAtDistance(hypot, path, cum, straight + forwardDist, far);
    dNear, dFar := Clamp(straight - backwardDist, 0.0, total), Clamp(straight + forwardDist, 0.0, total);
    StartBelow(hypot, path, cum, lookahead.position, d);
    EndIsLast(hypot, path, cum, lookahead.position, d);
    NonNegativeHypot(hypot, lookahead.position);
    ClampedBracket(straight, d, total, forwardDist, backwardDist);
  }

  lemma ClampedBracket(s: real, d: real, total: real, f: real, b: real)
    requires 0.0 <= d <= total && s >= 0.0 && f >= 0.0 && b >= 0.0
    ensures Clamp(s - b, 0.0, total) <= Clamp(s + f, 0.0, total) <= Clamp(s - b, 0.0, total) + f + b
    ensures Clamp(s - b, 0.0, total) <= d <==> s - b <= d || d == total
    ensures d <= Clamp(s + f, 0.0, total) <==> d <= s + f
  {}

  lemma OneEach(hypot: Hypot, path: seq<Pose>, cum: seq<real>)
    requires IsCumulative(hypot, path, cum) && path != []
    ensures |cum| == |path|
  {
    hide Length;
  }

  lemma NonNegativeHypot(hypot: Hypot, p: Point)
    requires IsHypot(hypot)
    ensures hypot(p.x, p.y) >= 0.0
  {}

  /** A point of the path is no further from the robot than the path's start and its length. */
  lemma StartBelow(hypot: Hypot, path: seq<Pose>, cum: seq<real>, p: Point, d: real)
    requires IsHypot(hypot) && IsCumulative(hypot, path, cum) && path != [] && AtDistance(hypot, path, cum, p, d)
    ensures hypot(p.x, p.y) <= hypot(path[0].position.x, path[0].position.y) + d
  {
    ChordFromStart(hypot, path, cum, p, d);
    LengthNonNegative(hypot, path[0].position, p);
    TriangleOfPoints(hypot, ORIGIN, path[0].position, p);
    FromOrigin(hypot, p);
    FromOrigin(hypot, path[0].position);
    hide IsHypot, IsCumulative, AtDistance, Length;
  }

  lemma FromOrigin(hypot: Hypot, p: Point)
    ensures Length(hypot, ORIGIN, p) == hypot(p.x, p.y)
  {}

  // -- A path that turns back ----------------------------------------------------------------

  function OnAxis(x: real): Pose {
    Pose(Point(x, 0.0, 0.0), 0.0, "", 0)
  }

  /** From the robot one ahead, back again, and two ahead. */
  function FoldedPath(): seq<Pose> {
    [OnAxis(0.0), OnAxis(1.0), OnAxis(0.0), OnAxis(2.0)]
  }

  /** With a look-ahead distance of two the controller's look-ahead point is that path's end, with
      interpolation and without.
   */
  lemma FoldedCarrot(useInterpolation: bool)
    ensures LookAhead.FirstFar(FoldedPath(), 2.0, 3)
    ensures LookAhead.IsCarrot(FoldedPath(), 2.0, useInterpolation, 3, OnAxis(2.0))
  {
    hide LookAhead.Far, LookAhead.Crosses;
    FarOnAxis(0.0);
    FarOnAxis(1.0);
    FarOnAxis(2.0);
    FoldedCrossing();
  }

  lemma FarOnAxis(x: real)
    requires x >= 0.0
    ensures LookAhead.Far(OnAxis(x), 2.0) <==> x >= 2.0
  {
    if x < 2.0 {
      SquareStrict(x, 2.0);
    } else {
      SquareMonotone(2.0, x);
    }
  }

  lemma FoldedCrossing()
    ensures LookAhead.Crosses(OnAxis(0.0).position, OnAxis(2.0).position, 2.0, OnAxis(2.0).position)
  {
    var p, q := OnAxis(0.0).position, OnAxis(2.0).position;
    forall u | 0.0 <= u < 1.0
      ensures LookAhead.Inside(Along(p, q, u), 2.0)
    {
      assert Along(p, q, u) == Point(2.0 * u, 0.0, 0.0);
      SquareStrict(2.0 * u, 2.0);
    }
    assert LookAhead.Crossing(p, q, 2.0, q, 1.0);
  }

  /** With the look-ahead point at that path's end and a forward distance of 0.7, the point that
      should lie ahead of it lies behind it.
   */
  lemma FarPointBehind(hypot: Hypot, cum: seq<real>, far: Pose)
    requires IsHypot(hypot) && IsCumulative(hypot, FoldedPath(), cum)
    requires IsPoseAt(hypot, FoldedPath(), cum, hypot(OnAxis(2.0).position.x, OnAxis(2.0).position.y) + 0.7, far)
    ensures AtDistance(hypot, FoldedPath(), cum, OnAxis(2.0).position, 4.0)
    ensures AtDistance(hypot, FoldedPath(), cum, far.position, 2.7)
  {
    hide IsHypot, IsCumulative, AtDistance, IsPoseAt, Length;
    var path := FoldedPath();
    FoldedLengths(hypot, cum);
    EndsAtDistance(hypot, path, cum);
    FoundAtDistance(hypot, path, cum, 2.0 + 0.7, far);
  }

  lemma FoldedLengths(hypot: Hypot, cum: seq<real>)
    requires IsHypot(hypot) && IsCumulative(hypot, FoldedPath(), cum)
    ensures |cum| == 4 && cum[3] == 4.0
    ensures hypot(OnAxis(2.0).position.x, OnAxis(2.0).position.y) == 2.0
  {
    hide Length, IsHypot;
    var path := FoldedPath();
    AxisLengths(hypot);
    FromOrigin(hypot, OnAxis(2.0).position);
    assert cum[1] == cum[0] + Length(hypot, path[0].position, path[1].position);
    assert cum[2] == cum[1] + Length(hypot, path[1].position, path[2].position);
    assert cum[3] == cum[2] + Length(hypot, path[2].position, path[3].position);
  }

  lemma AxisLengths(hypot: Hypot)
    requires IsHypot(hypot)
    ensures Length(hypot, OnAxis(0.0).position, OnAxis(1.0).position) == 1.0
    ensures Length(hypot, OnAxis(1.0).position, OnAxis(0.0).position) == 1.0
    ensures Length(hypot, OnAxis(0.0).position, OnAxis(2.0).position) == 2.0
  {
    AxisLength(hypot, 0.0, 1.0, 1.0);
    AxisLength(hypot, 1.0, 0.0, 1.0);
    AxisLength(hypot, 0.0, 2.0, 2.0);
  }

  lemma AxisLength(hypot: Hypot, x: real, y: real, l: real)
    requires IsHypot(hypot) && l >= 0.0 && (y - x == l || y - x == -l)
    ensures Length(hypot, OnAxis(x).position, OnAxis(y).position) == l
  {
    var h := Length(hypot, OnAxis(x).position, OnAxis(y).position);
    assert h * h == (y - x) * (y - x);
    if y - x == -l {
      SquareOfNegation(y - x, l);
    }
    SquareMonotone(h, l);
  }

  // -- The curvature is determined -----------------------------------------------------------

  lemma PoseAtUnique(hypot: Hypot, path: seq<Pose>, cum: seq<real>, target: real, p: Pose, q: Pose)
    requires IsHypot(hypot) && IsCumulative(hypot, path, cum)
    requires IsPoseAt(hypot, path, cum, target, p) && IsPoseAt(hypot, path, cum, target, q)
    ensures p.position.x == q.position.x && p.position.y == q.position.y
  {
    if path != [] {
      hide IsHypot, IsCumulative, IsPoseAt, AtDistance, Clamp;
      FoundAtDistance(hypot, path, cum, target, p);
      FoundAtDistance(hypot, path, cum, target, q);
      DistanceDeterminesPlace(hypot, path, cum, p.position, q.position, Clamp(target, 0.0, cum[|cum| - 1]));
    }
  }

  lemma RadiusByPlace(hypot: Hypot, near: Point, current: Point, far: Point, near': Point, far': Point)
    requires near.x == near'.x && near.y == near'.y && far.x == far'.x && far.y == far'.y
    ensures CalculateCurvatureRadius(near, current, far, hypot) == CalculateCurvatureRadius(near', current, far', hypot)
  {
    SameNorm(near, near');
    SameNorm(far, far');
    assert Denominator(near, current, far) == Denominator(near', current, far') by { hide NormSq; }
    assert NumeratorX(near, current, far) == NumeratorX(near', current, far') by { hide NormSq; }
    assert NumeratorY(near, current, far) == NumeratorY(near', current, far') by { hide NormSq; }
    hide NormSq, Denominator, NumeratorX, NumeratorY, Length;
  }

  lemma SameNorm(p: Point, q: Point)
    requires p.x == q.x && p.y == q.y
    ensures NormSq(p) == NormSq(q)
  {}

  /** A path and a look-ahead point have one curvature. */
  lemma CurvatureUnique(path: seq<Pose>, lookahead: Pose, forwardDist: real, backwardDist: real,
                        hypot: Hypot, c: real, c': real)
    requires IsHypot(hypot)
    requires HasCurvature(path, lookahead, forwardDist, backwardDist, hypot, c)
    requires HasCurvature(path, lookahead, forwardDist, backwardDist, hypot, c')
    ensures c == c'
  {
    hide IsHypot, IsCumulative, IsPoseAt, CalculateCurvatureRadius, Reciprocal;
    var d := hypot(lookahead.position.x, lookahead.position.y);
    var cum :| CurvatureAt(path, lookahead, forwardDist, backwardDist, hypot, cum, c);
    var near, far :| IsCurvature(path, lookahead, forwardDist, backwardDist, hypot, cum, near, far, c);
    var cum' :| CurvatureAt(path, lookahead, forwardDist, backwardDist, hypot, cum', c');
    var near', far' :| IsCurvature(path, lookahead, forwardDist, backwardDist, hypot, cum', near', far', c');
    CumulativeSame(hypot, path, cum, cum');
    PoseAtUnique(hypot, path, cum, d - backwardDist, near, near');
    PoseAtUnique(hypot, path, cum, d + forwardDist, far, far');
    RadiusByPlace(hypot, near.position, lookahead.position, far.position, near'.position, far'.position);
  }

  // -- Straight paths ------------------------------------------------------------------------

  /** The line a x + b y = c. */
  datatype Line = Line(a: real, b: real, c: real)

  predicate IsLine(l: Line) {
    l.a != 0.0 || l.b != 0.0
  }

  predicate OnLine(l: Line, p: Point) {
    l.a * p.x + l.b * p.y == l.c
  }

  predicate Collinear(l: Line, p: Point, q: Point, r: Point) {
    IsLine(l) && OnLine(l, p) && OnLine(l, q) && OnLine(l, r)
  }

  /** Twice the area of the triangle, by two of its sides. */
  lemma DenominatorBySides(p1: Point, p2: Point, p3: Point)
    ensures Denominator(p1, p2, p3) == 2.0 * (Dx(p1, p2) * Dy(p1, p3) - Dx(p1, p3) * Dy(p1, p2))
  {}

  lemma SideAlongLine(l: Line, p: Point, q: Point)
    requires OnLine(l, p) && OnLine(l, q)
    ensures l.a * Dx(p, q) == -(l.b * Dy(p, q))
  {}

  /** Two sides of one direction span no area. */
  lemma SidesParallel(a: real, b: real, u: real, v: real, x: real, y: real)
    requires (a != 0.0 || b != 0.0) && a * u == -(b * v) && a * x == -(b * y)
    ensures u * y - x * v == 0.0
  {
    var d := u * y - x * v;
    ParallelFirst(a, b, u, v, x, y);
    ParallelSecond(a, b, u, v, x, y);
    if a != 0.0 {
      MulCancel(a, d);
    } else {
      MulCancel(b, d);
    }
  }

  lemma ParallelFirst(a: real, b: real, u: real, v: real, x: real, y: real)
    requires a * u == -(b * v) && a * x == -(b * y)
    ensures a * (u * y - x * v) == 0.0
  {
    assert a * (u * y - x * v) == (a * u) * y - (a * x) * v;
    assert (b * v) * y == (b * y) * v;
  }

  lemma ParallelSecond(a: real, b: real, u: real, v: real, x: real, y: real)
    requires a * u == -(b * v) && a * x == -(b * y)
    ensures b * (u * y - x * v) == 0.0
  {
    assert b * (u * y - x * v) == u * (b * y) - x * (b * v);
    assert u * (a * x) == x * (a * u);
  }

  lemma NoDenominatorOnLine(l: Line, p1: Point, p2: Point, p3: Point)
    requires Collinear(l, p1, p2, p3)
    ensures Denominator(p1, p2, p3) == 0.0
  {
    SideAlongLine(l, p1, p2);
    SideAlongLine(l, p1, p3);
    DenominatorBySides(p1, p2, p3);
    hide Dx, Dy, Denominator, OnLine;
    SidesParallel(l.a, l.b, Dx(p1, p2), Dy(p1, p2), Dx(p1, p3), Dy(p1, p3));
  }

  lemma ThroughTwo(p: Point, q: Point) returns (l: Line)
    requires p.x != q.x || p.y != q.y
    ensures IsLine(l) && OnLine(l, p) && OnLine(l, q)
    ensures forall r: Point :: Denominator(p, q, r) == 0.0 ==> OnLine(l, r)
  {
    l := Line(Dy(p, q), -Dx(p, q), Dy(p, q) * p.x - Dx(p, q) * p.y);
    forall r: Point | Denominator(p, q, r) == 0.0
      ensures OnLine(l, r)
    {
      DenominatorBySides(p, q, r);
    }
  }

  /** The determinant vanishes exactly for three points on one line. */
  lemma CollinearIff(p1: Point, p2: Point, p3: Point)
    ensures Denominator(p1, p2, p3) == 0.0 <==> exists l :: Collinear(l, p1, p2, p3)
  {
    if l :| Collinear(l, p1, p2, p3) {
      NoDenominatorOnLine(l, p1, p2, p3);
    }
    if Denominator(p1, p2, p3) == 0.0 {
      if p1.x != p2.x || p1.y != p2.y {
        var l := ThroughTwo(p1, p2);
        assert Collinear(l, p1, p2, p3);
      } else if p1.x != p3.x || p1.y != p3.y {
        var l := ThroughTwo(p1, p3);
        assert Collinear(l, p1, p2, p3);
      } else {
        assert Collinear(Line(1.0, 0.0, p1.x), p1, p2, p3);
      }
    }
  }

  /** Three points on one line, two of them the same or not, get the radius of 1e9. */
  lemma StraightRadius(l: Line, near: Point, current: Point, far: Point, hypot: Hypot)
    requires Collinear(l, near, current, far)
    ensures CalculateCurvatureRadius(near, current, far, hypot) == 1000000000.0
  {
    hide Denominator, Collinear;
    NoDenominatorOnLine(l, near, current, far);
  }

  lemma AlongOnLine(l: Line, p: Point, q: Point, t: real)
    requires OnLine(l, p) && OnLine(l, q)
    ensures OnLine(l, Along(p, q, t))
  {
    SideAlongLine(l, p, q);
    var dx, dy := Dx(p, q), Dy(p, q);
    hide Dx, Dy;
    assert l.a * (p.x + t * dx) + l.b * (p.y + t * dy) == l.a * p.x + l.b * p.y + t * (l.a * dx + l.b * dy);
  }

  lemma PoseOnLine(l: Line, hypot: Hypot, path: seq<Pose>, cum: seq<real>, target: real, pose: Pose)
    requires IsCumulative(hypot, path, cum) && IsPoseAt(hypot, path, cum, target, pose) && path != []
    requires forall k :: 0 <= k < |path| ==> OnLine(l, path[k].position)
    ensures OnLine(l, pose.position)
  {
    hide IsCumulative, OnLine, Along, Length;
    OneEach(hypot, path, cum);
    if 0.0 < target && target < cum[|cum| - 1] {
      var i: nat, ratio :| Interpolated(hypot, path, cum, target, pose, i, ratio);
      AlongOnLine(l, path[i - 1].position, path[i].position, ratio);
    }
  }

  /** A path and a look-ahead point on one line have the curvature 1e-9; so has an empty path. */
  lemma StraightCurvature(l: Line, path: seq<Pose>, lookahead: Pose, forwardDist: real, backwardDist: real,
                          hypot: Hypot, curvature: real)
    requires HasCurvature(path, lookahead, forwardDist, backwardDist, hypot, curvature)
    requires IsLine(l) && OnLine(l, lookahead.position)
    requires forall k :: 0 <= k < |path| ==> OnLine(l, path[k].position)
    ensures curvature * 1000000000.0 == 1.0 && curvature == 0.000000001
  {
    hide IsCumulative, IsPoseAt, CalculateCurvatureRadius, OnLine, IsLine;
    var cum :| CurvatureAt(path, lookahead, forwardDist, backwardDist, hypot, cum, curvature);
    var near, far :| IsCurvature(path, lookahead, forwardDist, backwardDist, hypot, cum, near, far, curvature);
    var d := hypot(lookahead.position.x, lookahead.position.y);
    if path == [] {
      NoPose(hypot, cum, d - backwardDist, near);
      NoPose(hypot, cum, d + forwardDist, far);
      TwoTheSame(near.position, lookahead.position, hypot);
    } else {
      PoseOnLine(l, hypot, path, cum, d - backwardDist, near);
      PoseOnLine(l, hypot, path, cum, d + forwardDist, far);
      StraightRadius(l, near.position, lookahead.position, far.position, hypot);
    }
  }

  lemma NoPose(hypot: Hypot, cum: seq<real>, target: real, pose: Pose)
    requires IsCumulative(hypot, [], cum) && IsPoseAt(hypot, [], cum, target, pose)
    ensures pose == DEFAULT_POSE
  {}

  lemma TwoTheSame(p: Point, q: Point, hypot: Hypot)
    ensures CalculateCurvatureRadius(p, q, p, hypot) == 1000000000.0
  {
    DenominatorBySides(p, q, p);
    hide Denominator;
  }
}
