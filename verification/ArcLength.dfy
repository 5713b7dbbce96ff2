/** Lengths along the path: the running distances of its poses, and the pose at a given distance. */
module ArcLength {
  import opened RealAlgebra
  import opened Plane

  type Hypot = (real, real) -> real

  function Length(hypot: Hypot, p: Point, q: Point): real {
    hypot(Dx(p, q), Dy(p, q))
  }

  lemma LengthSquared(hypot: Hypot, p: Point, q: Point)
    requires IsHypot(hypot)
    ensures Length(hypot, p, q) >= 0.0 && Length(hypot, p, q) * Length(hypot, p, q) == DistSq(p, q)
  {}

  lemma LengthNonNegative(hypot: Hypot, p: Point, q: Point)
    requires IsHypot(hypot)
    ensures Length(hypot, p, q) >= 0.0
    ensures Length(hypot, p, q) == 0.0 ==> p.x == q.x && p.y == q.y
  {
    var l := Length(hypot, p, q);
    if l == 0.0 {
      assert l * l == DistSq(p, q);
      SameEnds(p, q);
    }
  }

  // -- Running distances ---------------------------------------------------------------------

  /** Entry i is the length of the path up to its pose i. */
  ghost predicate IsCumulative(hypot: Hypot, path: seq<Pose>, cum: seq<real>) {
    && |cum| == (if |path| == 0 then 1 else |path|)
    && cum[0] == 0.0
    && forall i :: 1 <= i < |path| ==> cum[i] == cum[i - 1] + Length(hypot, path[i - 1].position, path[i].position)
  }

  method CalculateCumulativeDistances(path: seq<Pose>, hypot: Hypot) returns (cum: seq<real>)
    ensures IsCumulative(hypot, path, cum)
  {
    cum := [0.0];
    var i := 1;
    while i < |path|
      invariant 1 <= i && (i <= |path| || (i == 1 && path == []))
      invariant |cum| == i && cum[0] == 0.0
      invariant forall j :: 1 <= j < i ==> cum[j] == cum[j - 1] + Length(hypot, path[j - 1].position, path[j].position)
    {
      var distance := hypot(Dx(path[i - 1].position, path[i].position), Dy(path[i - 1].position, path[i].position));
      cum := cum + [cum[i - 1] + distance];
      i := i + 1;
    }
  }

  lemma {:induction false} Nondecreasing(hypot: Hypot, path: seq<Pose>, cum: seq<real>, i: nat, j: nat)
    requires IsHypot(hypot) && IsCumulative(hypot, path, cum) && i <= j < |cum|
    ensures 0.0 <= cum[i] <= cum[j]
    decreases i, j - i
  {
    if i < j {
      Nondecreasing(hypot, path, cum, i, j - 1);
      LengthNonNegative(hypot, path[j - 1].position, path[j].position);
    } else if i > 0 {
      Nondecreasing(hypot, path, cum, i - 1, i - 1);
      LengthNonNegative(hypot, path[i - 1].position, path[i].position);
    }
  }

  lemma {:induction false} CumulativeUnique(hypot: Hypot, path: seq<Pose>, cum: seq<real>, cum': seq<real>, i: nat)
    requires IsCumulative(hypot, path, cum) && IsCumulative(hypot, path, cum') && i < |cum|
    ensures cum[i] == cum'[i]
  {
    hide Length;
    if i > 0 {
      CumulativeUnique(hypot, path, cum, cum', i - 1);
    }
  }

  lemma CumulativeSame(hypot: Hypot, path: seq<Pose>, cum: seq<real>, cum': seq<real>)
    requires IsCumulative(hypot, path, cum) && IsCumulative(hypot, path, cum')
    ensures cum == cum'
  {
    forall i | 0 <= i < |cum|
      ensures cum[i] == cum'[i]
    {
      CumulativeUnique(hypot, path, cum, cum', i);
    }
  }

  /** The length of the whole path. */
  ghost predicate HasLength(hypot: Hypot, path: seq<Pose>, length: real) {
    exists cum :: IsCumulative(hypot, path, cum) && length == cum[|cum| - 1]
  }

  lemma LengthUnique(hypot: Hypot, path: seq<Pose>, length: real, length': real)
    requires HasLength(hypot, path, length) && HasLength(hypot, path, length')
    ensures length == length'
  {
    hide Length;
    var cum :| IsCumulative(hypot, path, cum) && length == cum[|cum| - 1];
    var cum' :| IsCumulative(hypot, path, cum') && length' == cum'[|cum'| - 1];
    CumulativeSame(hypot, path, cum, cum');
  }

  // -- Finding a distance --------------------------------------------------------------------

  /** Binary search for the first entry that is not below v. */
  method LowerBound(a: seq<real>, v: real) returns (first: nat)
    requires Sorted(a)
    ensures first <= |a|
    ensures forall i :: 0 <= i < first ==> a[i] < v
    ensures forall i :: first <= i < |a| ==> v <= a[i]
  {
    first := 0;
    var len: nat := |a|;
    while len > 0
      invariant first + len <= |a|
      invariant forall i :: 0 <= i < first ==> a[i] < v
      invariant forall i :: first + len <= i < |a| ==> v <= a[i]
    {
      var half := len / 2;
      var middle := first + half;
      if a[middle] < v {
        first := middle + 1;
        len := len - half - 1;
      } else {
        len := half;
      }
    }
  }

  /** The point p lies on segment i at parameter t, and the way to it along the path, through the
      poses before it and then straight, has length d.
   */
  ghost predicate OnSegment(hypot: Hypot, path: seq<Pose>, cum: seq<real>, p: Point, d: real, i: nat, t: real)
    requires |cum| >= |path|
  {
    && 1 <= i < |path| && 0.0 <= t <= 1.0
    && p == Along(path[i - 1].position, path[i].position, t)
    && d == cum[i - 1] + Length(hypot, path[i - 1].position, p)
  }

  ghost predicate AtDistance(hypot: Hypot, path: seq<Pose>, cum: seq<real>, p: Point, d: real)
    requires |cum| >= |path| > 0
  {
    || (p == path[0].position && d == 0.0)
    || exists i, t :: OnSegment(hypot, path, cum, p, d, i, t)
  }

  /** Part of a segment has that part of its length. */
  lemma PartialLength(hypot: Hypot, p: Point, q: Point, t: real)
    requires IsHypot(hypot) && t >= 0.0
    ensures Length(hypot, p, Along(p, q, t)) == t * Length(hypot, p, q)
  {
    var dx, dy, m := Dx(p, q), Dy(p, q), Along(p, q, t);
    assert Dx(p, m) == t * dx && Dy(p, m) == t * dy;
    var whole, part := Length(hypot, p, q), Length(hypot, p, m);
    assert part * part == (t * dx) * (t * dx) + (t * dy) * (t * dy);
    hide Dx, Dy, Along, Length;
    ScaledSquares(t, dx, dy, whole);
    MulNonNegative(t, whole);
    SquareMonotone(part, t * whole);
  }

  lemma ScaledSquares(t: real, dx: real, dy: real, w: real)
    requires w * w == dx * dx + dy * dy
    ensures (t * w) * (t * w) == (t * dx) * (t * dx) + (t * dy) * (t * dy)
  {
    assert (t * w) * (t * w) == t * t * (w * w);
    assert (t * dx) * (t * dx) + (t * dy) * (t * dy) == t * t * (dx * dx + dy * dy);
  }

  /** The first and the last pose are where they should be. */
  lemma EndsAtDistance(hypot: Hypot, path: seq<Pose>, cum: seq<real>)
    requires IsHypot(hypot) && IsCumulative(hypot, path, cum) && |path| > 0
    ensures AtDistance(hypot, path, cum, path[0].position, 0.0)
    ensures AtDistance(hypot, path, cum, path[|path| - 1].position, cum[|path| - 1])
  {
    var n := |path|;
    if n > 1 {
      AlongEnds(path[n - 2].position, path[n - 1].position);
      assert OnSegment(hypot, path, cum, path[n - 1].position, cum[n - 1], n - 1, 1.0);
    }
  }

  ghost predicate Interpolated(hypot: Hypot, path: seq<Pose>, cum: seq<real>, target: real, pose: Pose,
                               i: nat, ratio: real)
    requires |cum| >= |path|
  {
    && OnSegment(hypot, path, cum, pose.position, target, i, ratio)
    && 0.0 < ratio && cum[i - 1] < target <= cum[i]
    && pose.heading == path[i].heading && pose.frame == path[i].frame && pose.stamp == path[i].stamp
  }

  /** Interpolating between two neighbouring poses. */
  lemma InterpolationPlaces(hypot: Hypot, path: seq<Pose>, cum: seq<real>, target: real, index: nat, ratio: real)
    requires IsHypot(hypot) && IsCumulative(hypot, path, cum) && 1 <= index < |path|
    requires 0.0 <= ratio <= 1.0 && ratio * (cum[index] - cum[index - 1]) == target - cum[index - 1]
    ensures OnSegment(hypot, path, cum, Along(path[index - 1].position, path[index].position, ratio),
                      target, index, ratio)
  {
    var a, b := path[index - 1].position, path[index].position;
    PartialLength(hypot, a, b, ratio);
    assert cum[index] - cum[index - 1] == Length(hypot, a, b);
  }

  /** Positions are interpolated; everything else is that of the second pose. */
  function Interpolate(pose1: Pose, pose2: Pose, ratio: real): Pose {
    Pose(
      Point(pose1.position.x + ratio * (pose2.position.x - pose1.position.x),
            pose1.position.y + ratio * (pose2.position.y - pose1.position.y),
            pose1.position.z + ratio * (pose2.position.z - pose1.position.z)),
      pose2.heading, pose2.frame, pose2.stamp)
  }

  lemma InterpolateAlong(pose1: Pose, pose2: Pose, ratio: real)
    ensures Interpolate(pose1, pose2, ratio) ==
            Pose(Along(pose1.position, pose2.position, ratio), pose2.heading, pose2.frame, pose2.stamp)
  {
    var a, b := pose1.position, pose2.position;
    assert Dx(a, b) == b.x - a.x && Dy(a, b) == b.y - a.y;
    assert Along(a, b, ratio).x == a.x + ratio * (b.x - a.x);
    assert Along(a, b, ratio).y == a.y + ratio * (b.y - a.y);
  }

  lemma RatioInRange(lo: real, hi: real, target: real)
    requires lo < target <= hi
    ensures 0.0 < (target - lo) / (hi - lo) <= 1.0
    ensures (target - lo) / (hi - lo) * (hi - lo) == target - lo
  {
    var ratio := (target - lo) / (hi - lo);
    Quotient(target - lo, hi - lo);
    SignOf(hi - lo, ratio);
    SignOf(hi - lo, ratio - 1.0);
  }

  /** The pose at a distance along the path, case by case. */
  ghost predicate IsPoseAt(hypot: Hypot, path: seq<Pose>, cum: seq<real>, target: real, pose: Pose)
    requires IsCumulative(hypot, path, cum)
  {
    if path == [] then pose == DEFAULT_POSE
    else if target <= 0.0 then pose == path[0]
    else if target >= cum[|cum| - 1] then pose == path[|path| - 1]
    else exists i, ratio :: Interpolated(hypot, path, cum, target, pose, i, ratio)
  }

  /** No case divides by zero or indexes outside. */
  method FindPoseAtDistance(path: seq<Pose>, cum: seq<real>, target: real, ghost hypot: Hypot) returns (pose: Pose)
    requires IsHypot(hypot) && IsCumulative(hypot, path, cum)
    ensures IsPoseAt(hypot, path, cum, target, pose)
  {
    if path == [] || cum == [] {
      return DEFAULT_POSE;
    }
    if target <= 0.0 {
      return path[0];
    }
    if target >= cum[|cum| - 1] {
      return path[|path| - 1];
    }
    SortedDistances(hypot, path, cum);
    hide IsHypot, Sorted;
    var index := LowerBound(cum, target);
    // The controller's case of index 0 cannot arise: the first running distance is 0, below the target.
    assert index != 0;
    var lo, hi := cum[index - 1], cum[index];
    RatioInRange(lo, hi, target);
    var ratio := (target - lo) / (hi - lo);
    pose := Interpolate(path[index - 1], path[index], ratio);
    InterpolationPlaces(hypot, path, cum, target, index, ratio);
    InterpolateAlong(path[index - 1], path[index], ratio);
    hide OnSegment, Along, IsCumulative, Interpolate;
    assert Interpolated(hypot, path, cum, target, pose, index, ratio);
  }

  lemma SortedDistances(hypot: Hypot, path: seq<Pose>, cum: seq<real>)
    requires IsHypot(hypot) && IsCumulative(hypot, path, cum)
    ensures Sorted(cum)
  {
    forall i, j | 0 <= i <= j < |cum|
      ensures cum[i] <= cum[j]
    {
      Nondecreasing(hypot, path, cum, i, j);
    }
  }

  /** The pose found lies at the wanted distance along the path, clamped to the path's length. */
  lemma FoundAtDistance(hypot: Hypot, path: seq<Pose>, cum: seq<real>, target: real, pose: Pose)
    requires IsHypot(hypot) && IsCumulative(hypot, path, cum) && path != []
    requires IsPoseAt(hypot, path, cum, target, pose)
    ensures AtDistance(hypot, path, cum, pose.position, Clamp(target, 0.0, cum[|cum| - 1]))
  {
    EndsAtDistance(hypot, path, cum);
    Nondecreasing(hypot, path, cum, 0, |cum| - 1);
    hide OnSegment, IsHypot;
  }

  // -- Distances and positions ---------------------------------------------------------------

  /** The product of two lengths bounds the inner product. */
  lemma CauchySchwarz(a: real, b: real, c: real, d: real, u: real, v: real)
    requires u >= 0.0 && v >= 0.0 && u * u == a * a + b * b && v * v == c * c + d * d
    ensures a * c + b * d <= u * v
  {
    var w := a * c + b * d;
    if w > 0.0 {
      SquareNonNegative(a * d - b * c);
      LagrangeIdentity(a, b, c, d);
      SquareOfProduct(u, v, a * a + b * b, c * c + d * d);
      SquareNonNegative(w);
      MulNonNegative(u, v);
      SquareMonotone(w, u * v);
    } else {
      MulNonNegative(u, v);
    }
  }

  lemma SquareOfProduct(u: real, v: real, uu: real, vv: real)
    requires u * u == uu && v * v == vv
    ensures (u * v) * (u * v) == uu * vv
  {
    assert (u * v) * (u * v) == (u * u) * (v * v);
  }

  lemma LagrangeIdentity(a: real, b: real, c: real, d: real)
    ensures (a * a + b * b) * (c * c + d * d) == (a * c + b * d) * (a * c + b * d) + (a * d - b * c) * (a * d - b * c)
  {}

  lemma Triangle(hypot: Hypot, a: real, b: real, c: real, d: real)
    requires IsHypot(hypot)
    ensures hypot(a + c, b + d) <= hypot(a, b) + hypot(c, d)
  {
    var u, v, w := hypot(a, b), hypot(c, d), hypot(a + c, b + d);
    CauchySchwarz(a, b, c, d, u, v);
    assert (a + c) * (a + c) + (b + d) * (b + d) == (a * a + b * b) + 2.0 * (a * c + b * d) + (c * c + d * d);
    assert (u + v) * (u + v) == u * u + 2.0 * (u * v) + v * v;
    SquareMonotone(w, u + v);
  }

  lemma TriangleOfPoints(hypot: Hypot, p: Point, q: Point, r: Point)
    requires IsHypot(hypot)
    ensures Length(hypot, p, r) <= Length(hypot, p, q) + Length(hypot, q, r)
  {
    Triangle(hypot, Dx(p, q), Dy(p, q), Dx(q, r), Dy(q, r));
    assert Dx(p, r) == Dx(p, q) + Dx(q, r) && Dy(p, r) == Dy(p, q) + Dy(q, r);
    hide Dx, Dy;
  }

  lemma LengthOfNothing(hypot: Hypot, p: Point, q: Point)
    requires IsHypot(hypot) && p.x == q.x && p.y == q.y
    ensures Length(hypot, p, q) == 0.0
  {
    var l := Length(hypot, p, q);
    assert l * l == 0.0;
    MulCancel(l, l);
  }

  /** Poses of the path are no further apart than the path between them is long. */
  lemma {:induction false} ChordOfPoses(hypot: Hypot, path: seq<Pose>, cum: seq<real>, i: nat, j: nat)
    requires IsHypot(hypot) && IsCumulative(hypot, path, cum) && i <= j < |path|
    ensures Length(hypot, path[i].position, path[j].position) <= cum[j] - cum[i]
    decreases j - i
  {
    if i == j {
      LengthOfNothing(hypot, path[i].position, path[j].position);
    } else {
      ChordOfPoses(hypot, path, cum, i, j - 1);
      TriangleOfPoints(hypot, path[i].position, path[j - 1].position, path[j].position);
    }
  }

  /** From a point of segment i on to the segment's end. */
  lemma RestOfSegment(hypot: Hypot, path: seq<Pose>, cum: seq<real>, p: Point, d: real, i: nat, t: real)
    requires IsHypot(hypot) && IsCumulative(hypot, path, cum) && OnSegment(hypot, path, cum, p, d, i, t)
    ensures Length(hypot, p, path[i].position) == cum[i] - d && d <= cum[i]
  {
    var a, b := path[i - 1].position, path[i].position;
    PartialLength(hypot, a, b, t);
    PartialLength(hypot, b, a, 1.0 - t);
    LengthSymmetric(hypot, a, b);
    assert Along(b, a, 1.0 - t).x == p.x && Along(b, a, 1.0 - t).y == p.y by { FromTheOtherEnd(a, b, t); }
    LengthSymmetric(hypot, p, b);
    assert Length(hypot, b, p) == Length(hypot, b, Along(b, a, 1.0 - t));
    var l := Length(hypot, a, b);
    assert (1.0 - t) * l == l - t * l;
    LengthNonNegative(hypot, p, b);
  }

  lemma FromTheOtherEnd(a: Point, b: Point, t: real)
    ensures Along(b, a, 1.0 - t).x == Along(a, b, t).x && Along(b, a, 1.0 - t).y == Along(a, b, t).y
  {}

  lemma LengthSymmetric(hypot: Hypot, p: Point, q: Point)
    requires IsHypot(hypot)
    ensures Length(hypot, p, q) == Length(hypot, q, p)
  {
    DistSqSymmetric(p, q);
    SquareMonotone(Length(hypot, p, q), Length(hypot, q, p));
  }

  /** Two points of one segment are exactly as far apart as their distances along the path. */
  lemma ChordOnSegment(hypot: Hypot, path: seq<Pose>, cum: seq<real>, i: nat,
                       p: Point, d: real, t: real, q: Point, e: real, u: real)
    requires IsHypot(hypot) && IsCumulative(hypot, path, cum) && d <= e
    requires OnSegment(hypot, path, cum, p, d, i, t) && OnSegment(hypot, path, cum, q, e, i, u)
    ensures Length(hypot, p, q) == e - d
  {
    hide Along, Length, Dx, Dy, IsHypot, IsCumulative;
    var a, b := path[i - 1].position, path[i].position;
    PartialLength(hypot, a, b, t);
    PartialLength(hypot, a, b, u);
    DifferenceOfParts(t, u, u - t, Length(hypot, a, b));
    ChordOnLine(hypot, a, b, t, u, u - t, e - d);
  }

  lemma DifferenceOfParts(t: real, u: real, k: real, l: real)
    requires k == u - t
    ensures u * l - t * l == k * l
  {}

  lemma ChordOnLine(hypot: Hypot, a: Point, b: Point, t: real, u: real, k: real, g: real)
    requires IsHypot(hypot) && k == u - t && g == k * Length(hypot, a, b) && g >= 0.0
    ensures Length(hypot, Along(a, b, t), Along(a, b, u)) == g
  {
    hide Along, Length, IsHypot, Dx, Dy;
    var p, q := Along(a, b, t), Along(a, b, u);
    SidesAlong(a, b, t, u, k);
    LengthSquared(hypot, p, q);
    LengthSquared(hypot, a, b);
    ScaledLength(k, Dx(a, b), Dy(a, b), Length(hypot, a, b), Dx(p, q), Dy(p, q), Length(hypot, p, q), g);
  }

  lemma ScaledLength(k: real, dx: real, dy: real, l: real, ex: real, ey: real, h: real, g: real)
    requires l * l == dx * dx + dy * dy && ex == k * dx && ey == k * dy && h * h == ex * ex + ey * ey
    requires h >= 0.0 && g == k * l && g >= 0.0
    ensures h == g
  {
    ScaledSquares(k, dx, dy, l);
    SquareMonotone(h, g);
  }

  lemma SidesAlong(a: Point, b: Point, t: real, u: real, k: real)
    requires k == u - t
    ensures Dx(Along(a, b, t), Along(a, b, u)) == k * Dx(a, b)
    ensures Dy(Along(a, b, t), Along(a, b, u)) == k * Dy(a, b)
  {
    var dx, dy := Dx(a, b), Dy(a, b);
    assert Dx(Along(a, b, t), Along(a, b, u)) == u * dx - t * dx;
    assert Dy(Along(a, b, t), Along(a, b, u)) == u * dy - t * dy;
  }

  /** Points of the path are never further apart than their distances along it: the chord is at
      most the arc.
   */
  lemma ChordAtMostArc(hypot: Hypot, path: seq<Pose>, cum: seq<real>, p: Point, d: real, q: Point, e: real)
    requires IsHypot(hypot) && IsCumulative(hypot, path, cum) && |path| > 0 && d <= e
    requires AtDistance(hypot, path, cum, p, d) && AtDistance(hypot, path, cum, q, e)
    ensures Length(hypot, p, q) <= e - d
  {
    assert |cum| == |path|;
    hide Dx, Dy, Along, Length, IsHypot, IsCumulative;
    if p == path[0].position && d == 0.0 {
      ChordFromStart(hypot, path, cum, q, e);
    } else {
      var i: nat, t :| OnSegment(hypot, path, cum, p, d, i, t);
      if q == path[0].position && e == 0.0 {
        ChordFromStart(hypot, path, cum, p, d);
        StartIsFirst(hypot, path, cum, p, d, i, t);
        LengthSymmetric(hypot, p, q);
      } else {
        var j: nat, u :| OnSegment(hypot, path, cum, q, e, j, u);
        ChordOfSegments(hypot, path, cum, p, d, i, t, q, e, j, u);
      }
    }
  }

  lemma StartIsFirst(hypot: Hypot, path: seq<Pose>, cum: seq<real>, p: Point, d: real, i: nat, t: real)
    requires IsHypot(hypot) && IsCumulative(hypot, path, cum) && OnSegment(hypot, path, cum, p, d, i, t)
    ensures d >= 0.0
  {
    LengthNonNegative(hypot, path[i - 1].position, p);
    Nondecreasing(hypot, path, cum, i - 1, i - 1);
  }

  lemma EndIsLast(hypot: Hypot, path: seq<Pose>, cum: seq<real>, p: Point, d: real)
    requires IsHypot(hypot) && IsCumulative(hypot, path, cum) && |path| > 0 && AtDistance(hypot, path, cum, p, d)
    ensures 0.0 <= d <= cum[|cum| - 1]
  {
    assert cum[0] == 0.0 && |cum| == |path|;
    hide Dx, Dy, Along, Length, IsHypot, IsCumulative;
    Nondecreasing(hypot, path, cum, 0, |cum| - 1);
    if !(p == path[0].position && d == 0.0) {
      var i: nat, t :| OnSegment(hypot, path, cum, p, d, i, t);
      StartIsFirst(hypot, path, cum, p, d, i, t);
      RestOfSegment(hypot, path, cum, p, d, i, t);
      LengthNonNegative(hypot, p, path[i].position);
      Nondecreasing(hypot, path, cum, i, |cum| - 1);
    }
  }

  lemma ChordFromStart(hypot: Hypot, path: seq<Pose>, cum: seq<real>, q: Point, e: real)
    requires IsHypot(hypot) && IsCumulative(hypot, path, cum) && |path| > 0 && AtDistance(hypot, path, cum, q, e)
    ensures Length(hypot, path[0].position, q) <= e
  {
    assert cum[0] == 0.0 && |cum| == |path|;
    hide Dx, Dy, Along, Length, IsHypot, IsCumulative;
    if q == path[0].position && e == 0.0 {
      LengthOfNothing(hypot, q, q);
    } else {
      var j: nat, u :| OnSegment(hypot, path, cum, q, e, j, u);
      ChordOfPoses(hypot, path, cum, 0, j - 1);
      TriangleOfPoints(hypot, path[0].position, path[j - 1].position, q);
    }
  }

  lemma ChordOfSegments(hypot: Hypot, path: seq<Pose>, cum: seq<real>,
                        p: Point, d: real, i: nat, t: real, q: Point, e: real, j: nat, u: real)
    requires IsHypot(hypot) && IsCumulative(hypot, path, cum) && d <= e
    requires OnSegment(hypot, path, cum, p, d, i, t) && OnSegment(hypot, path, cum, q, e, j, u)
    ensures Length(hypot, p, q) <= e - d
  {
    RestOfSegment(hypot, path, cum, p, d, i, t);
    if i == j {
      ChordOnSegment(hypot, path, cum, i, p, d, t, q, e, u);
    } else if i < j {
      ChordOfPoses(hypot, path, cum, i, j - 1);
      TriangleOfPoints(hypot, p, path[i].position, path[j - 1].position);
      TriangleOfPoints(hypot, p, path[j - 1].position, q);
    } else {
      // Segment j comes first, so both distances are those of the poses between.
      RestOfSegment(hypot, path, cum, q, e, j, u);
      ChordOfPoses(hypot, path, cum, j, i - 1);
      LengthNonNegative(hypot, path[i - 1].position, p);
      TriangleOfPoints(hypot, q, path[j].position, path[i - 1].position);
      TriangleOfPoints(hypot, q, path[i - 1].position, p);
      LengthSymmetric(hypot, p, q);
    }
  }

  /** A distance along the path determines the place. */
  lemma DistanceDeterminesPlace(hypot: Hypot, path: seq<Pose>, cum: seq<real>, p: Point, q: Point, d: real)
    requires IsHypot(hypot) && IsCumulative(hypot, path, cum) && |path| > 0
    requires AtDistance(hypot, path, cum, p, d) && AtDistance(hypot, path, cum, q, d)
    ensures p.x == q.x && p.y == q.y
  {
    ChordAtMostArc(hypot, path, cum, p, d, q, d);
    LengthNonNegative(hypot, p, q);
  }
}
