/** The look-ahead point of the pursuit controller: the first pose of the plan that is far enough
    away, or the point where the plan crosses the look-ahead circle just before it.
 */
module LookAhead {
  import opened RealAlgebra
  import opened Plane
  import opened Quadratics

  // -- Squared distance along a segment ------------------------------------------------------

  function Slope(p: Point, q: Point): real {
    p.x * Dx(p, q) + p.y * Dy(p, q)
  }

  function Determinant(p1: Point, p2: Point): real {
    p1.x * p2.y - p2.x * p1.y
  }

  lemma AlongIsQuadratic(p: Point, q: Point, r: real, c: real, t: real)
    requires c == NormSq(p) - r * r
    ensures NormSq(Along(p, q, t)) - r * r == Quadratic(DistSq(p, q), Slope(p, q), c, t)
  {
    hide Dx, Dy;
    Expand(p.x, p.y, Dx(p, q), Dy(p, q), t, r * r);
  }

  lemma Expand(x: real, y: real, dx: real, dy: real, t: real, r2: real)
    ensures (x + t * dx) * (x + t * dx) + (y + t * dy) * (y + t * dy) - r2
         == (dx * dx + dy * dy) * (t * t) + 2.0 * ((x * dx + y * dy) * t) + (x * x + y * y - r2)
  {}

  function Radicand(p1: Point, p2: Point, r: real): real {
    r * r * DistSq(p1, p2) - Determinant(p1, p2) * Determinant(p1, p2)
  }

  lemma Discriminant(p: Point, q: Point, r: real, c: real)
    requires c == NormSq(p) - r * r
    ensures Radicand(p, q, r) == Slope(p, q) * Slope(p, q) - DistSq(p, q) * c
  {
    DeterminantBySides(p, q);
    hide Dx, Dy, Determinant;
    Lagrange(p.x, p.y, Dx(p, q), Dy(p, q), r * r);
  }

  lemma DeterminantBySides(p: Point, q: Point)
    ensures Determinant(p, q) == p.x * Dy(p, q) - p.y * Dx(p, q)
  {}

  lemma Lagrange(x: real, y: real, dx: real, dy: real, r2: real)
    ensures r2 * (dx * dx + dy * dy) - (x * dy - y * dx) * (x * dy - y * dx)
         == (x * dx + y * dy) * (x * dx + y * dy) - (dx * dx + dy * dy) * (x * x + y * y - r2)
  {}

  // -- The intersection ----------------------------------------------------------------------

  predicate Inside(p: Point, r: real) {
    NormSq(p) < r * r
  }

  function CopySign(m: real): real {
    if m >= 0.0 then 1.0 else -1.0
  }

  function Component(d: real, dy: real, sign: real, dx: real, s: real, dr2: real): real
    requires dr2 != 0.0
  {
    (d * dy + sign * dx * s) / dr2
  }

  function CircleSegmentIntersection(p1: Point, p2: Point, r: real, sqrt: Fn): Point
    requires DistSq(p1, p2) != 0.0
  {
    var dx, dy := Dx(p1, p2), Dy(p1, p2);
    var dr2 := DistSq(p1, p2);
    var d := Determinant(p1, p2);
    var dd := NormSq(p2) - NormSq(p1);
    var sqrtTerm := sqrt(Radicand(p1, p2, r));
    Point(Component(d, dy, CopySign(dd), dx, sqrtTerm, dr2), Component(-d, dx, CopySign(dd), dy, sqrtTerm, dr2), 0.0)
  }

  lemma RadicandPositive(p1: Point, p2: Point, r: real)
    requires Inside(p1, r) && !Inside(p2, r)
    ensures DistSq(p1, p2) > 0.0 && Radicand(p1, p2, r) > 0.0
  {
    DistSqSymmetric(p1, p2);
    if DistSq(p1, p2) == 0.0 {
      SameEnds(p1, p2);
    }
    var c := NormSq(p1) - r * r;
    Discriminant(p1, p2, r, c);
    hide DistSq, Radicand, Slope, NormSq;
    PositiveDiscriminant(DistSq(p1, p2), Slope(p1, p2), c);
  }

  lemma RadicandSymmetric(p1: Point, p2: Point, r: real)
    ensures Radicand(p1, p2, r) == Radicand(p2, p1, r)
  {
    DistSqSymmetric(p1, p2);
    assert Determinant(p1, p2) == -Determinant(p2, p1);
    SquareOfNegation(Determinant(p1, p2), Determinant(p2, p1));
  }

  /** One end strictly inside and the other not: the segment has a length and the square root is
      taken of a positive number.
   */
  lemma WellDefined(p1: Point, p2: Point, r: real)
    requires Inside(p1, r) != Inside(p2, r)
    ensures DistSq(p1, p2) > 0.0 && Radicand(p1, p2, r) > 0.0
  {
    if Inside(p1, r) {
      RadicandPositive(p1, p2, r);
    } else {
      RadicandPositive(p2, p1, r);
      RadicandSymmetric(p1, p2, r);
      DistSqSymmetric(p1, p2);
    }
  }

  /** The closed form is the point of the segment's line at a root of the quadratic. */
  lemma ClosedForm(p1: Point, p2: Point, r: real, sqrt: Fn)
    requires DistSq(p1, p2) > 0.0 && NormSq(p1) <= NormSq(p2)
    ensures var p := CircleSegmentIntersection(p1, p2, r, sqrt);
      var t := Root(DistSq(p1, p2), Slope(p1, p2), sqrt(Radicand(p1, p2, r)));
      p.x == Along(p1, p2, t).x && p.y == Along(p1, p2, t).y
  {
    var s := sqrt(Radicand(p1, p2, r));
    var dx, dy, a, b := Dx(p1, p2), Dy(p1, p2), DistSq(p1, p2), Slope(p1, p2);
    DeterminantBySides(p1, p2);
    hide Dx, Dy, NormSq, Radicand, Determinant, Component;
    Quotient(s - b, a);
    Coordinate(a, b, p1.x, p1.y, dx, dy, Determinant(p1, p2), s, Root(a, b, s));
    Coordinate(a, b, p1.y, p1.x, dy, dx, -Determinant(p1, p2), s, Root(a, b, s));
    hide DistSq, Slope, Root;
  }

  lemma Coordinate(a: real, b: real, x: real, y: real, dx: real, dy: real, d: real, s: real, t: real)
    requires a > 0.0 && a == dx * dx + dy * dy && b == x * dx + y * dy && d == x * dy - y * dx
    requires a * t == s - b
    ensures Component(d, dy, 1.0, dx, s, a) == x + t * dx
  {
    Spread(a, t, x, dx, s - b);
    Collect(x, y, dx, dy, s);
    QuotientIs(d * dy + 1.0 * dx * s, a, x + t * dx);
  }

  lemma Spread(a: real, t: real, x: real, dx: real, n: real)
    requires a * t == n
    ensures a * (x + t * dx) == a * x + n * dx
  {
    assert a * (t * dx) == (a * t) * dx;
  }

  lemma Collect(x: real, y: real, dx: real, dy: real, s: real)
    ensures (dx * dx + dy * dy) * x + (s - (x * dx + y * dy)) * dx == (x * dy - y * dx) * dy + dx * s
  {}

  /** At parameter t the segment from p1 to p2 meets the circle of radius r, in p; before it the
      segment is inside and after it outside, so there is no other meeting.
   */
  ghost predicate Crossing(p1: Point, p2: Point, r: real, p: Point, t: real) {
    && 0.0 < t <= 1.0
    && p.x == Along(p1, p2, t).x && p.y == Along(p1, p2, t).y
    && NormSq(p) == r * r
    && (forall u :: 0.0 <= u < t ==> Inside(Along(p1, p2, u), r))
    && (forall u :: t < u <= 1.0 ==> NormSq(Along(p1, p2, u)) > r * r)
  }

  ghost predicate Crosses(p1: Point, p2: Point, r: real, p: Point) {
    exists t :: Crossing(p1, p2, r, p, t)
  }

  /** A segment that starts inside the circle and does not end inside: the closed form gives its
      only crossing.
   */
  lemma IntersectionLeaving(p1: Point, p2: Point, r: real, sqrt: Fn) returns (t: real)
    requires IsSqrt(sqrt) && Inside(p1, r) && !Inside(p2, r)
    ensures DistSq(p1, p2) > 0.0
    ensures Crossing(p1, p2, r, CircleSegmentIntersection(p1, p2, r, sqrt), t)
  {
    RadicandPositive(p1, p2, r);
    hide Dx, Dy, Radicand, DistSq, Slope, Root, Quadratic, Determinant, NormSq, CircleSegmentIntersection;
    var p := CircleSegmentIntersection(p1, p2, r, sqrt);
    var a, b, c, s := DistSq(p1, p2), Slope(p1, p2), NormSq(p1) - r * r, sqrt(Radicand(p1, p2, r));
    ClosedForm(p1, p2, r, sqrt);
    Discriminant(p1, p2, r, c);
    EndValue(p1, p2, r, c);
    t := Root(a, b, s);
    LeavingRoot(a, b, c, s);
    RootSolves(a, b, c, s);
    AlongIsQuadratic(p1, p2, r, c, t);
    SameNorm(p, Along(p1, p2, t));
    hide Along;
    forall u | 0.0 <= u <= 1.0
      ensures u < t ==> Inside(Along(p1, p2, u), r)
      ensures t < u ==> NormSq(Along(p1, p2, u)) > r * r
    {
      AlongIsQuadratic(p1, p2, r, c, u);
      SignRightOfZero(a, b, c, s, u);
    }
  }

  lemma SameNorm(p: Point, q: Point)
    requires p.x == q.x && p.y == q.y
    ensures NormSq(p) == NormSq(q)
  {}

  lemma EndValue(p: Point, q: Point, r: real, c: real)
    requires c == NormSq(p) - r * r
    ensures DistSq(p, q) + 2.0 * Slope(p, q) + c == NormSq(q) - r * r
  {
    AlongIsQuadratic(p, q, r, c, 1.0);
    AlongEnds(p, q);
    hide DistSq, Slope, NormSq, Along;
  }

  /** A segment that ends inside: the sign makes the closed form give the point of the reversed
      segment.
   */
  lemma IntersectionEntering(p1: Point, p2: Point, r: real, sqrt: Fn) returns (t: real)
    requires IsSqrt(sqrt) && !Inside(p1, r) && Inside(p2, r)
    ensures DistSq(p1, p2) > 0.0
    ensures Crossing(p2, p1, r, CircleSegmentIntersection(p1, p2, r, sqrt), t)
  {
    WellDefined(p1, p2, r);
    t := IntersectionLeaving(p2, p1, r, sqrt);
    SameWhenReversed(p1, p2, r, sqrt);
  }

  lemma SameWhenReversed(p1: Point, p2: Point, r: real, sqrt: Fn)
    requires DistSq(p1, p2) > 0.0 && NormSq(p1) != NormSq(p2)
    ensures DistSq(p2, p1) > 0.0
    ensures CircleSegmentIntersection(p1, p2, r, sqrt) == CircleSegmentIntersection(p2, p1, r, sqrt)
  {
    DistSqSymmetric(p1, p2);
    RadicandSymmetric(p1, p2, r);
    var s := sqrt(Radicand(p1, p2, r));
    var d, sign := Determinant(p1, p2), CopySign(NormSq(p2) - NormSq(p1));
    var dx, dy, dr2 := Dx(p1, p2), Dy(p1, p2), DistSq(p1, p2);
    hide DistSq, NormSq, Radicand, Component;
    Reversed(d, dy, sign, dx, s, dr2);
    Reversed(-d, dx, sign, dy, s, dr2);
    assert Determinant(p2, p1) == -d;
  }

  lemma Reversed(d: real, dy: real, sign: real, dx: real, s: real, dr2: real)
    requires dr2 != 0.0
    ensures Component(d, dy, sign, dx, s, dr2) == Component(-d, -dy, -sign, -dx, s, dr2)
  {
    assert d * dy + sign * dx * s == (-d) * (-dy) + (-sign) * (-dx) * s;
  }

  // -- The look-ahead point ------------------------------------------------------------------

  ghost predicate Far(p: Pose, r: real) {
    r <= 0.0 || !Inside(p.position, r)
  }

  /** Index k is the first pose at least the look-ahead distance away, or the length if none is. */
  ghost predicate FirstFar(plan: seq<Pose>, r: real, k: nat) {
    && k <= |plan|
    && (k < |plan| ==> Far(plan[k], r))
    && forall j :: 0 <= j < k ==> !Far(plan[j], r)
  }

  method FindFirstFar(plan: seq<Pose>, r: real, hypot: (real, real) -> real) returns (k: nat)
    requires IsHypot(hypot)
    ensures FirstFar(plan, r, k)
  {
    k := 0;
    while k < |plan|
      invariant k <= |plan|
      invariant forall j :: 0 <= j < k ==> !Far(plan[j], r)
    {
      HypotAtLeast(hypot, plan[k].position.x, plan[k].position.y, r);
      if hypot(plan[k].position.x, plan[k].position.y) >= r {
        return;
      }
      k := k + 1;
    }
  }

  /** What the carrot is: the last pose when none is far enough; the first far pose when it is the
      first of all or when interpolation is off; otherwise the crossing of the circle, with a
      default heading, the frame of the pose before it and the stamp of the pose after it.
   */
  ghost predicate IsCarrot(plan: seq<Pose>, r: real, interpolate: bool, k: nat, carrot: Pose)
    requires |plan| > 0 && k <= |plan|
  {
    if k == |plan| then carrot == plan[k - 1]
    else if k == 0 || !interpolate then carrot == plan[k]
    else
      && Crosses(plan[k - 1].position, plan[k].position, r, carrot.position)
      && carrot.position.z == 0.0 && carrot.heading == 0.0
      && carrot.frame == plan[k - 1].frame && carrot.stamp == plan[k].stamp
  }

  /** Every pose is nearer to the robot than the look-ahead distance. */
  ghost predicate AllWithin(plan: seq<Pose>, r: real) {
    r > 0.0 && forall j :: 0 <= j < |plan| ==> NormSq(plan[j].position) < r * r
  }

  method GetLookAheadPoint(
    lookaheadDist: real, plan: seq<Pose>, useInterpolation: bool,
    hypot: (real, real) -> real, sqrt: Fn
  ) returns (carrot: Pose)
    requires IsHypot(hypot) && IsSqrt(sqrt) && |plan| > 0
    ensures exists k: nat ::
              FirstFar(plan, lookaheadDist, k) && IsCarrot(plan, lookaheadDist, useInterpolation, k, carrot)
    ensures AllWithin(plan, lookaheadDist) ==> carrot == plan[|plan| - 1]
    ensures NormSq(plan[0].position) >= lookaheadDist * lookaheadDist ==> carrot == plan[0]
    ensures !useInterpolation ==> carrot in plan
    ensures lookaheadDist > 0.0 && !AllWithin(plan, lookaheadDist) ==>
              NormSq(carrot.position) >= lookaheadDist * lookaheadDist
  {
    var k := FindFirstFar(plan, lookaheadDist, hypot);
    hide Crossing, Inside, NormSq, DistSq;
    if k == |plan| {
      carrot := plan[k - 1];
    } else if useInterpolation && k != 0 {
      assert !Far(plan[k - 1], lookaheadDist);
      ghost var t := IntersectionLeaving(plan[k - 1].position, plan[k].position, lookaheadDist, sqrt);
      var point := CircleSegmentIntersection(plan[k - 1].position, plan[k].position, lookaheadDist, sqrt);
      carrot := Pose(point, 0.0, plan[k - 1].frame, plan[k].stamp);
      assert point.z == 0.0;
    } else {
      carrot := plan[k];
    }
    assert IsCarrot(plan, lookaheadDist, useInterpolation, k, carrot);
  }

  // -- The carrot is the first point of the plan on the circle ------------------------------

  /** A disc is convex. */
  lemma DiscConvex(p: Point, q: Point, r: real, u: real)
    requires Inside(p, r) && Inside(q, r) && 0.0 <= u <= 1.0
    ensures Inside(Along(p, q, u), r)
  {
    var a, b, c := DistSq(p, q), Slope(p, q), NormSq(p) - r * r;
    AlongIsQuadratic(p, q, r, c, u);
    EndValue(p, q, r, c);
    DistSqSymmetric(p, q);
    BelowChord(a, b, c, u);
    Mixture(c, a + 2.0 * b + c, u);
    hide DistSq, Slope, Quadratic, Along, NormSq;
  }

  /** The point at parameter u of the plan's segment j. */
  function OnPlan(plan: seq<Pose>, j: nat, u: real): Point
    requires j + 1 < |plan|
  {
    Along(plan[j].position, plan[j + 1].position, u)
  }

  /** Everything on the plan before the interpolated carrot is strictly inside the look-ahead
      circle and the carrot is on it: no earlier point of the plan is that far away.
   */
  lemma CarrotIsFirstOnCircle(plan: seq<Pose>, r: real, k: nat, carrot: Pose)
    requires FirstFar(plan, r, k) && 0 < k < |plan| && IsCarrot(plan, r, true, k, carrot)
    ensures NormSq(carrot.position) == r * r
    ensures forall j, u :: 0 <= j < k - 1 && 0.0 <= u <= 1.0 ==> Inside(OnPlan(plan, j, u), r)
  {
    var t :| Crossing(plan[k - 1].position, plan[k].position, r, carrot.position, t);
    forall j, u | 0 <= j < k - 1 && 0.0 <= u <= 1.0
      ensures Inside(OnPlan(plan, j, u), r)
    {
      assert !Far(plan[j], r) && !Far(plan[j + 1], r);
      DiscConvex(plan[j].position, plan[j + 1].position, r, u);
    }
  }
}
