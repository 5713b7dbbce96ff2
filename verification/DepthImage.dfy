/** Projecting a cloud onto a depth image: every point writes its own pixel, and fills those of the
    eight pixels around it that are still empty.
 */
module DepthImage {

  datatype Point = Point(x: real, y: real, z: real)

  /** Rounding to the nearest integer, halves away from zero. */
  function Round(r: real): int {
    if r >= 0.0 then (r + 0.5).Floor else -((-r + 0.5).Floor)
  }

  lemma RoundIsNearest(r: real)
    ensures -0.5 <= r - Round(r) as real <= 0.5
    ensures r - Round(r) as real == 0.5 ==> r < 0.0
    ensures r - Round(r) as real == -0.5 ==> r > 0.0
    ensures Round(-r) == -Round(r)
  {}

  function Column(p: Point): int
    requires p.z > 0.0
  {
    Round(p.x / p.z)
  }

  function Line(p: Point): int
    requires p.z > 0.0
  {
    Round(p.y / p.z)
  }

  /** By the point's coordinates, without a division: the column is u when x is within half a pixel
      of u pixels at the point's depth, and never when it is more than that away.
   */
  lemma ColumnByDistance(p: Point, u: int)
    requires p.z > 0.0
    ensures -p.z < 2.0 * (p.x - u as real * p.z) < p.z ==> Column(p) == u
    ensures Column(p) == u ==> -p.z <= 2.0 * (p.x - u as real * p.z) <= p.z
  {
    NearestByDistance(p.x, p.z, p.x / p.z, u);
  }

  lemma LineByDistance(p: Point, v: int)
    requires p.z > 0.0
    ensures -p.z < 2.0 * (p.y - v as real * p.z) < p.z ==> Line(p) == v
    ensures Line(p) == v ==> -p.z <= 2.0 * (p.y - v as real * p.z) <= p.z
  {
    NearestByDistance(p.y, p.z, p.y / p.z, v);
  }

  lemma NearestByDistance(x: real, z: real, r: real, u: int)
    requires z > 0.0 && r == x / z
    ensures -z < 2.0 * (x - u as real * z) < z ==> Round(r) == u
    ensures Round(r) == u ==> -z <= 2.0 * (x - u as real * z) <= z
  {
    RoundIsNearest(r);
    var e, f := r - u as real, x - u as real * z;
    Divided(x, z, r);
    assert f == z * e;
    hide Round;
    InProportion(z, e);
    if -0.5 < e < 0.5 {
      RoundsTo(r, u);
    }
  }

  lemma Divided(x: real, z: real, r: real)
    requires z > 0.0 && r == x / z
    ensures z * r == x
  {}

  lemma InProportion(z: real, e: real)
    requires z > 0.0
    ensures -z < 2.0 * (z * e) < z <==> -0.5 < e < 0.5
    ensures -0.5 <= e <= 0.5 ==> -z <= 2.0 * (z * e) <= z
  {
    var b, t := 0.5 - e, 0.5 + e;
    assert z - 2.0 * (z * e) == 2.0 * (z * b) && z + 2.0 * (z * e) == 2.0 * (z * t);
    SameSign(z, b);
    SameSign(z, t);
  }

  lemma SameSign(z: real, b: real)
    requires z > 0.0
    ensures z * b > 0.0 <==> b > 0.0
    ensures b == 0.0 ==> z * b == 0.0
  {}

  lemma RoundsTo(r: real, u: int)
    requires -0.5 < r - u as real < 0.5
    ensures Round(r) == u
  {}

  predicate InImage(p: Point, width: nat, height: nat) {
    p.z > 0.0 && 0 <= Column(p) < width && 0 <= Line(p) < height
  }

  predicate Hits(p: Point, width: nat, height: nat, u: int, v: int) {
    InImage(p, width, height) && Column(p) == u && Line(p) == v
  }

  predicate Covers(p: Point, width: nat, height: nat, u: int, v: int) {
    InImage(p, width, height) && -1 <= u - Column(p) <= 1 && -1 <= v - Line(p) <= 1
  }

  // -- What the image is ---------------------------------------------------------------------

  /** The depth of a pixel: that of the last point that hits it; if none does, that of the first
      point whose neighbourhood covers it; if none does, zero.
   */
  ghost predicate IsDepth(cloud: seq<Point>, width: nat, height: nat, u: int, v: int, d: real) {
    if Hit(cloud, width, height, u, v) then
      exists i :: LastHit(cloud, width, height, u, v, i) && d == cloud[i].z
    else if Covered(cloud, width, height, u, v) then
      exists i :: FirstCover(cloud, width, height, u, v, i) && d == cloud[i].z
    else d == 0.0
  }

  ghost predicate Hit(cloud: seq<Point>, width: nat, height: nat, u: int, v: int) {
    exists i :: 0 <= i < |cloud| && Hits(cloud[i], width, height, u, v)
  }

  ghost predicate Covered(cloud: seq<Point>, width: nat, height: nat, u: int, v: int) {
    exists i :: 0 <= i < |cloud| && Covers(cloud[i], width, height, u, v)
  }

  ghost predicate LastHit(cloud: seq<Point>, width: nat, height: nat, u: int, v: int, i: int) {
    && 0 <= i < |cloud| && Hits(cloud[i], width, height, u, v)
    && forall j :: i < j < |cloud| ==> !Hits(cloud[j], width, height, u, v)
  }

  ghost predicate FirstCover(cloud: seq<Point>, width: nat, height: nat, u: int, v: int, i: int) {
    && 0 <= i < |cloud| && Covers(cloud[i], width, height, u, v)
    && forall j :: 0 <= j < i ==> !Covers(cloud[j], width, height, u, v)
  }

  /** The effect of one point on one pixel. */
  function Splatted(p: Point, width: nat, height: nat, u: int, v: int, before: real): real {
    if Hits(p, width, height, u, v) then p.z
    else if Covers(p, width, height, u, v) && before == 0.0 then p.z
    else before
  }

  /** One more point takes the depth of the cloud so far to that of the longer cloud. */
  lemma SplatKeepsDepth(cloud: seq<Point>, p: Point, width: nat, height: nat, u: int, v: int, before: real)
    requires IsDepth(cloud, width, height, u, v, before)
    ensures IsDepth(cloud + [p], width, height, u, v, Splatted(p, width, height, u, v, before))
  {
    var more, n := cloud + [p], |cloud|;
    assert forall i :: 0 <= i < n ==> more[i] == cloud[i];
    assert more[n] == p;
    DepthZeroIff(cloud, width, height, u, v, before);
    if Hits(p, width, height, u, v) {
      assert LastHit(more, width, height, u, v, n);
    } else if Hit(cloud, width, height, u, v) {
      var i :| LastHit(cloud, width, height, u, v, i) && before == cloud[i].z;
      assert LastHit(more, width, height, u, v, i);
    } else {
      NoHit(cloud, p, width, height, u, v);
      if Covered(cloud, width, height, u, v) {
        var i :| FirstCover(cloud, width, height, u, v, i) && before == cloud[i].z;
        assert FirstCover(more, width, height, u, v, i);
      } else if Covers(p, width, height, u, v) {
        assert FirstCover(more, width, height, u, v, n);
      }
    }
  }

  lemma NoHit(cloud: seq<Point>, p: Point, width: nat, height: nat, u: int, v: int)
    requires !Hit(cloud, width, height, u, v) && !Hits(p, width, height, u, v)
    ensures !Hit(cloud + [p], width, height, u, v)
  {
    forall i | 0 <= i < |cloud + [p]|
      ensures !Hits((cloud + [p])[i], width, height, u, v)
    {
      if i < |cloud| {
        assert !Hits(cloud[i], width, height, u, v);
      }
    }
  }

  /** An empty pixel is one that nothing covers. */
  lemma DepthZeroIff(cloud: seq<Point>, width: nat, height: nat, u: int, v: int, d: real)
    requires IsDepth(cloud, width, height, u, v, d)
    ensures d >= 0.0
    ensures d == 0.0 <==> !Covered(cloud, width, height, u, v)
  {
    if Hit(cloud, width, height, u, v) {
      var i :| LastHit(cloud, width, height, u, v, i) && d == cloud[i].z;
      assert Covers(cloud[i], width, height, u, v);
    }
  }

  /** The depth is determined by the cloud. */
  lemma DepthUnique(cloud: seq<Point>, width: nat, height: nat, u: int, v: int, d: real, e: real)
    requires IsDepth(cloud, width, height, u, v, d) && IsDepth(cloud, width, height, u, v, e)
    ensures d == e
  {
    if Hit(cloud, width, height, u, v) {
      var i :| LastHit(cloud, width, height, u, v, i) && d == cloud[i].z;
      var j :| LastHit(cloud, width, height, u, v, j) && e == cloud[j].z;
      assert !(i < j) && !(j < i);
    } else if Covered(cloud, width, height, u, v) {
      var i :| FirstCover(cloud, width, height, u, v, i) && d == cloud[i].z;
      var j :| FirstCover(cloud, width, height, u, v, j) && e == cloud[j].z;
      assert !(i < j) && !(j < i);
    }
  }

  /** The point projects into column u, line v, by its coordinates. */
  predicate ProjectsTo(p: Point, u: int, v: int) {
    p.z > 0.0 && -p.z < 2.0 * (p.x - u as real * p.z) < p.z && -p.z < 2.0 * (p.y - v as real * p.z) < p.z
  }

  lemma ProjectsWhere(p: Point, u: int, v: int)
    requires ProjectsTo(p, u, v)
    ensures Column(p) == u && Line(p) == v
  {
    ColumnByDistance(p, u);
    LineByDistance(p, v);
  }

  /** A cloud of one point: its pixel and the eight around it get its depth, all others none. */
  lemma OnePoint(p: Point, width: nat, height: nat, u: int, v: int, x: int, y: int, d: real)
    requires ProjectsTo(p, u, v) && 0 <= u < width && 0 <= v < height
    requires IsDepth([p], width, height, x, y, d)
    ensures d == if -1 <= x - u <= 1 && -1 <= y - v <= 1 then p.z else 0.0
  {
    ProjectsWhere(p, u, v);
    assert [p][0] == p;
    assert Hits([p][0], width, height, x, y) <==> x == u && y == v;
    assert Covers([p][0], width, height, x, y) <==> -1 <= x - u <= 1 && -1 <= y - v <= 1;
  }

  /** A cloud of two points: the later one takes the pixel that both project to; a neighbour keeps
      its own pixel's depth.
   */
  lemma TwoPoints(p: Point, q: Point, width: nat, height: nat, u: int, v: int, u': int, v': int, d: real)
    requires ProjectsTo(p, u, v) && ProjectsTo(q, u', v') && 0 <= u < width && 0 <= v < height
    requires 0 <= u' < width && 0 <= v' < height
    requires IsDepth([p, q], width, height, u, v, d)
    ensures d == if u == u' && v == v' then q.z else p.z
  {
    ProjectsWhere(p, u, v);
    ProjectsWhere(q, u', v');
    var cloud := [p, q];
    assert Hits(cloud[0], width, height, u, v);
    assert Hits(cloud[1], width, height, u, v) <==> u == u' && v == v';
    if u == u' && v == v' {
      assert LastHit(cloud, width, height, u, v, 1);
    } else {
      assert LastHit(cloud, width, height, u, v, 0);
    }
  }

  // -- The loops -----------------------------------------------------------------------------

  predicate Near(d: int) {
    -1 <= d <= 1
  }

  /** The neighbour at (du, dv) comes before (a, b) in the order of the two inner loops. */
  predicate Before(du: int, dv: int, a: int, b: int) {
    Near(du) && Near(dv) && (du < a || (du == a && dv < b))
  }

  /** A pixel once the neighbours before (a, b) of column u, line v have been visited. */
  function Filled(z: real, u: int, v: int, a: int, b: int, x: int, y: int, before: real): real {
    if x == u && y == v then z
    else if Before(x - u, y - v, a, b) && before == 0.0 then z
    else before
  }

  method Splat(img: array2<real>, u: nat, v: nat, z: real)
    requires u < img.Length1 && v < img.Length0 && z > 0.0
    modifies img
    ensures forall y, x :: 0 <= y < img.Length0 && 0 <= x < img.Length1 ==>
      img[y, x] == Filled(z, u, v, 2, -1, x, y, old(img[y, x]))
  {
    img[v, u] := z;
    for du := -1 to 2
      invariant forall y, x :: 0 <= y < img.Length0 && 0 <= x < img.Length1 ==>
        img[y, x] == Filled(z, u, v, du, -1, x, y, old(img[y, x]))
    {
      for dv := -1 to 2
        invariant forall y, x :: 0 <= y < img.Length0 && 0 <= x < img.Length1 ==>
          img[y, x] == Filled(z, u, v, du, dv, x, y, old(img[y, x]))
      {
        var nu, nv := u + du, v + dv;
        if 0 <= nu < img.Length1 && 0 <= nv < img.Length0 {
          if img[nv, nu] == 0.0 {
            img[nv, nu] := z;
          }
        }
      }
    }
  }

  lemma FilledIsSplatted(p: Point, width: nat, height: nat, x: int, y: int, before: real)
    requires InImage(p, width, height) && 0 <= x < width && 0 <= y < height
    ensures Filled(p.z, Column(p), Line(p), 2, -1, x, y, before) == Splatted(p, width, height, x, y, before)
  {}

  method ProjectCloudToDepth(cloud: seq<Point>, scaledWidth: nat, scaledHeight: nat) returns (img: array2<real>)
    ensures fresh(img) && img.Length0 == scaledHeight && img.Length1 == scaledWidth
    ensures forall y, x :: 0 <= y < scaledHeight && 0 <= x < scaledWidth ==>
      IsDepth(cloud, scaledWidth, scaledHeight, x, y, img[y, x])
  {
    img := new real[scaledHeight, scaledWidth]((_, _) => 0.0);
    var i := 0;
    while i < |cloud|
      invariant i <= |cloud|
      invariant forall y, x :: 0 <= y < scaledHeight && 0 <= x < scaledWidth ==>
        IsDepth(cloud[..i], scaledWidth, scaledHeight, x, y, img[y, x])
    {
      ProjectPoint(cloud[i], img, cloud[..i]);
      assert cloud[..i + 1] == cloud[..i] + [cloud[i]];
      i := i + 1;
    }
    assert cloud[..i] == cloud;
  }

  method ProjectPoint(p: Point, img: array2<real>, ghost done: seq<Point>)
    requires forall y, x :: 0 <= y < img.Length0 && 0 <= x < img.Length1 ==>
      IsDepth(done, img.Length1, img.Length0, x, y, img[y, x])
    modifies img
    ensures forall y, x :: 0 <= y < img.Length0 && 0 <= x < img.Length1 ==>
      IsDepth(done + [p], img.Length1, img.Length0, x, y, img[y, x])
  {
    ghost var width, height := img.Length1, img.Length0;
    forall y, x | 0 <= y < height && 0 <= x < width
      ensures IsDepth(done + [p], width, height, x, y, Splatted(p, width, height, x, y, img[y, x]))
    {
      SplatKeepsDepth(done, p, width, height, x, y, img[y, x]);
    }
    hide IsDepth;
    if p.z <= 0.0 {
      return;
    }
    var u, v := Round(p.x / p.z), Round(p.y / p.z);
    if 0 <= u < img.Length1 && 0 <= v < img.Length0 {
      forall y, x | 0 <= y < height && 0 <= x < width
        ensures Filled(p.z, u, v, 2, -1, x, y, img[y, x]) == Splatted(p, width, height, x, y, img[y, x])
      {
        FilledIsSplatted(p, width, height, x, y, img[y, x]);
      }
      Splat(img, u, v, p.z);
    }
  }
}
