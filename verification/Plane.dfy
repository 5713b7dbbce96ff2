/** Points and poses of a path in the robot's frame, and the two library functions the geometry
    rests on, given by their defining equations.
 */
module Plane {
  import opened RealAlgebra

  datatype Point = Point(x: real, y: real, z: real)

  datatype Pose = Pose(position: Point, heading: real, frame: string, stamp: int)

  const ORIGIN := Point(0.0, 0.0, 0.0)

  const DEFAULT_POSE := Pose(ORIGIN, 0.0, "", 0)

  /** Squared distance from the origin, which is the robot; heights do not count. */
  function NormSq(p: Point): real {
    p.x * p.x + p.y * p.y
  }

  function Dx(p: Point, q: Point): real {
    q.x - p.x
  }

  function Dy(p: Point, q: Point): real {
    q.y - p.y
  }

  function DistSq(p: Point, q: Point): real {
    Dx(p, q) * Dx(p, q) + Dy(p, q) * Dy(p, q)
  }

  /** The point at parameter t of the segment from p to q. */
  function Along(p: Point, q: Point, t: real): Point {
    Point(p.x + t * Dx(p, q), p.y + t * Dy(p, q), p.z + t * (q.z - p.z))
  }

  ghost predicate IsHypot(hypot: (real, real) -> real) {
    forall x, y :: hypot(x, y) >= 0.0 && hypot(x, y) * hypot(x, y) == x * x + y * y
  }

  /** A hypotenuse is compared with a length through the squares. */
  lemma HypotAtLeast(hypot: (real, real) -> real, x: real, y: real, r: real)
    requires IsHypot(hypot)
    ensures hypot(x, y) >= r <==> r <= 0.0 || x * x + y * y >= r * r
  {
    if r > 0.0 {
      SquareMonotone(r, hypot(x, y));
    }
  }

  lemma AlongEnds(p: Point, q: Point)
    ensures Along(p, q, 0.0) == p && Along(p, q, 1.0) == q
  {}

  lemma SameEnds(p: Point, q: Point)
    requires DistSq(p, q) == 0.0
    ensures p.x == q.x && p.y == q.y
  {
    SquaresSum(Dx(p, q), Dy(p, q));
  }

  lemma DistSqSymmetric(p: Point, q: Point)
    ensures DistSq(p, q) == DistSq(q, p) && DistSq(p, q) >= 0.0
  {
    assert Dx(q, p) == -Dx(p, q) && Dy(q, p) == -Dy(p, q);
    SquareOfNegation(Dx(q, p), Dx(p, q));
    SquareOfNegation(Dy(q, p), Dy(p, q));
    SquaresSum(Dx(p, q), Dy(p, q));
  }
}
