/** The measurement of one group of points. */
module Measurement {
  import opened Options
  import opened RealAlgebra
  import opened Rotation
  import opened Space

  /** a x + b y + c z + d = 0, with the unit normal (a, b, c). */
  datatype Plane = Plane(normal: V3, offset: real)

  /** What the map gives for a point: how many neighbours, and the plane fitted to them, if one. */
  datatype Match = Match(neighbours: nat, plane: Option<Plane>)

  datatype Pose = Pose(rot: M3, pos: V3, offR: M3, offT: V3)

  /** One row of twelve numbers. */
  datatype Row = Row(normal: V3, a: V3, b: V3, c: V3)

  const NUM_MATCH_POINTS: nat := 5
  const ZERO := V3(0.0, 0.0, 0.0)

  function InImuFrame(pose: Pose, body: V3): V3 {
    Plus(Apply(pose.offR, body), pose.offT)
  }

  function PointBodyToWorld(pose: Pose, body: V3): V3 {
    Plus(Apply(pose.rot, InImuFrame(pose, body)), pose.pos)
  }

  function Distance(plane: Plane, p: V3): real {
    Dot(plane.normal, p) + plane.offset
  }

  /** The test of the first pass. */
  predicate Accepted(pose: Pose, matchS: real, body: V3, norm: real, found: Match) {
    && found.neighbours >= NUM_MATCH_POINTS
    && found.plane.Some?
    && var pd2 := Abs(Distance(found.plane.value, PointBodyToWorld(pose, body)));
       norm > matchS * pd2 * pd2
  }

  /** The row of one accepted point; without extrinsic estimation the last six numbers are zero. */
  function RowOf(pose: Pose, extrinsic: bool, body: V3, plane: Plane): Row {
    var c := Apply(Transpose(pose.rot), plane.normal);
    var a := Apply(SkewSymMat(InImuFrame(pose, body)), c);
    if extrinsic then Row(plane.normal, a, Apply(Product(SkewSymMat(body), Transpose(pose.offR)), c), c)
    else Row(plane.normal, a, ZERO, ZERO)
  }

  function ResidualOf(pose: Pose, body: V3, plane: Plane): real {
    -Dot(plane.normal, PointBodyToWorld(pose, body)) - plane.offset
  }

  /** Moving the world point by the residual along a unit normal puts it on its plane. */
  lemma ResidualReachesPlane(pose: Pose, body: V3, plane: Plane)
    requires Dot(plane.normal, plane.normal) == 1.0
    ensures var p := PointBodyToWorld(pose, body);
      Distance(plane, Plus(p, Times(ResidualOf(pose, body, plane), plane.normal))) == 0.0
  {
    hide Dot, Plus, Times, Mul, PointBodyToWorld;
    var n, r := plane.normal, ResidualOf(pose, body, plane);
    DotPlus(n, PointBodyToWorld(pose, body), Times(r, n));
    DotScales(n, r, n);
    MulOne(r);
  }

  lemma MulOne(r: real)
    ensures Mul(r, 1.0) == r
  {}

  /** What decides about a point, besides its neighbours and its plane, is its distance: a point on its
      plane with a positive norm passes, and so does a point nearer its plane, or further out, than
      one that passes; five neighbours are enough and four are not.
   */
  lemma AcceptanceIsMonotone(pose: Pose, matchS: real, body: V3, norm: real, found: Match,
                             pose': Pose, body': V3, norm': real, found': Match)
    requires matchS >= 0.0 && found.plane.Some? && found'.plane.Some?
    ensures Accepted(pose, matchS, body, norm, found) ==> found.neighbours >= 5
    ensures var d := Distance(found.plane.value, PointBodyToWorld(pose, body));
      found.neighbours >= 5 && norm > 0.0 && d == 0.0 ==> Accepted(pose, matchS, body, norm, found)
    ensures var d, d' := Distance(found.plane.value, PointBodyToWorld(pose, body)),
                         Distance(found'.plane.value, PointBodyToWorld(pose', body'));
      Accepted(pose', matchS, body', norm', found') && found.neighbours >= 5 && norm >= norm'
      && -Abs(d') <= d <= Abs(d') ==>
        Accepted(pose, matchS, body, norm, found)
  {
    hide Distance, PointBodyToWorld;
    var d, d' := Abs(Distance(found.plane.value, PointBodyToWorld(pose, body))),
                 Abs(Distance(found'.plane.value, PointBodyToWorld(pose', body')));
    NoDistance(matchS, d);
    if d <= d' {
      NearerWeighsLess(matchS, d, d');
    }
  }

  /** The norm weighs against the square of the distance: r times as far takes r squared times the
      norm, and at distance one the norm is measured against the threshold itself.
   */
  lemma AcceptanceScales(pose: Pose, matchS: real, body: V3, norm: real, found: Match,
                         pose': Pose, body': V3, norm': real, found': Match, r: real)
    requires r > 0.0 && norm' == r * (r * norm)
    requires found.plane.Some? && found'.plane.Some? && found.neighbours >= 5 && found'.neighbours >= 5
    ensures var d, d' := Distance(found.plane.value, PointBodyToWorld(pose, body)),
                         Distance(found'.plane.value, PointBodyToWorld(pose', body'));
      && (d' == r * d ==>
            (Accepted(pose', matchS, body', norm', found') <==> Accepted(pose, matchS, body, norm, found)))
      && (d == 1.0 || d == -1.0 ==> (Accepted(pose, matchS, body, norm, found) <==> norm > matchS))
  {
    hide Distance, PointBodyToWorld;
    var d, d' := Distance(found.plane.value, PointBodyToWorld(pose, body)),
                 Distance(found'.plane.value, PointBodyToWorld(pose', body'));
    if d' == r * d {
      ScaledAbs(r, d);
      ScaledTest(matchS, Abs(d), Abs(d'), norm, norm', r);
    }
  }

  lemma ScaledAbs(r: real, d: real)
    requires r > 0.0
    ensures Abs(r * d) == r * Abs(d)
  {
    SignOf(r, d);
  }

  lemma ScaledTest(w: real, d: real, e: real, norm: real, norm': real, r: real)
    requires r > 0.0 && e == r * d && norm' == r * (r * norm)
    ensures norm' > w * e * e <==> norm > w * d * d
  {
    var b := norm - w * d * d;
    assert w * e * e == r * (r * (w * d * d));
    assert norm' - w * e * e == r * (r * b);
    SignOf(r, r * b);
    SignOf(r, b);
  }

  lemma NoDistance(w: real, d: real)
    ensures d == 0.0 ==> w * d * d == 0.0
  {}

  lemma NearerWeighsLess(w: real, d: real, d': real)
    requires w >= 0.0 && 0.0 <= d <= d'
    ensures w * d * d <= w * d' * d'
  {
    MulMonotone(d, d', d);
    MulMonotone(d, d', d');
    MulMonotone(d * d, d' * d', w);
    assert w * d * d == (d * d) * w && w * d' * d' == (d' * d') * w;
  }

  // -- The accepted points of a group --------------------------------------------------------

  datatype Scan = Scan(pose: Pose, extrinsic: bool, matchS: real, body: seq<V3>, norms: seq<real>, found: seq<Match>)

  ghost predicate WellFormed(s: Scan) {
    |s.body| == |s.norms| == |s.found|
  }

  predicate Takes(s: Scan, i: nat)
    requires WellFormed(s) && i < |s.body|
  {
    Accepted(s.pose, s.matchS, s.body[i], s.norms[i], s.found[i])
  }

  /** The accepted indices from lo up to hi, in order. */
  function Selected(s: Scan, lo: nat, hi: nat): (ks: seq<nat>)
    requires WellFormed(s) && lo <= hi <= |s.body|
    ensures forall m :: 0 <= m < |ks| ==> lo <= ks[m] < hi && Takes(s, ks[m])
  {
    if lo == hi then [] else Selected(s, lo, hi - 1) + if Takes(s, hi - 1) then [hi - 1] else []
  }

  lemma {:induction false} SelectedIsExact(s: Scan, lo: nat, hi: nat)
    requires WellFormed(s) && lo <= hi <= |s.body|
    ensures forall m, n :: 0 <= m < n < |Selected(s, lo, hi)| ==> Selected(s, lo, hi)[m] < Selected(s, lo, hi)[n]
    ensures forall i :: lo <= i < hi && Takes(s, i) ==> i in Selected(s, lo, hi)
    decreases hi
  {
    if lo < hi {
      SelectedIsExact(s, lo, hi - 1);
    }
  }

  lemma {:induction false} SelectedGrows(s: Scan, lo: nat, mid: nat, hi: nat)
    requires WellFormed(s) && lo <= mid <= hi <= |s.body|
    ensures Selected(s, lo, mid) <= Selected(s, lo, hi)
    decreases hi
  {
    if mid < hi {
      SelectedGrows(s, lo, mid, hi - 1);
    }
  }

  // -- The two passes ------------------------------------------------------------------------

  /** The marks of the window up to hi are those of the first pass; all others are as before. */
  ghost predicate Marked(s: Scan, lo: nat, hi: nat, marks: seq<bool>, before: seq<bool>)
    requires WellFormed(s)
  {
    && |marks| == |before| == |s.body| && lo <= hi <= |s.body|
    && forall i :: 0 <= i < |s.body| ==> marks[i] == if lo <= i < hi then Takes(s, i) else before[i]
  }

  /** The planes of the accepted points of the window. */
  ghost predicate Kept(s: Scan, lo: nat, hi: nat, planes: seq<Plane>)
    requires WellFormed(s)
  {
    && lo <= hi <= |s.body| && hi - lo <= |planes|
    && forall j :: 0 <= j < hi - lo && Takes(s, lo + j) ==> planes[j] == s.found[lo + j].plane.value
  }

  /** The first pass for one point. */
  method SelectPoint(s: Scan, i: nat, j: nat, pointSelectedSurf: array<bool>, normvec: array<Plane>)
    requires WellFormed(s) && i < |s.body| == pointSelectedSurf.Length && j < normvec.Length
    modifies pointSelectedSurf, normvec
    ensures pointSelectedSurf[..] == old(pointSelectedSurf[..])[i := Takes(s, i)]
    ensures Takes(s, i) ==> normvec[..] == old(normvec[..])[j := s.found[i].plane.value]
    ensures !Takes(s, i) ==> normvec[..] == old(normvec[..])
  {
    var world := PointBodyToWorld(s.pose, s.body[i]);
    pointSelectedSurf[i] := false;
    if s.found[i].neighbours >= NUM_MATCH_POINTS {
      if s.found[i].plane.Some? {
        var plane := s.found[i].plane.value;
        var pd2 := Abs(Distance(plane, world));
        hide Distance, PointBodyToWorld, Abs;
        if s.norms[i] > s.matchS * pd2 * pd2 {
          pointSelectedSurf[i] := true;
          normvec[j] := plane;
        }
      }
    }
  }

  lemma OneMorePoint(s: Scan, lo: nat, i: nat, marks: seq<bool>, before: seq<bool>, planes: seq<Plane>)
    requires WellFormed(s) && lo <= i < |s.body| && i - lo < |planes|
    requires Marked(s, lo, i, marks, before) && Kept(s, lo, i, planes)
    ensures Marked(s, lo, i + 1, marks[i := Takes(s, i)], before)
    ensures Takes(s, i) ==> Kept(s, lo, i + 1, planes[i - lo := s.found[i].plane.value])
    ensures !Takes(s, i) ==> Kept(s, lo, i + 1, planes)
    ensures |Selected(s, lo, i + 1)| == |Selected(s, lo, i)| + if Takes(s, i) then 1 else 0
  {
    hide Accepted;
  }

  /** The first pass marks the accepted points of the window and keeps their planes. */
  method SelectPoints(s: Scan, lo: nat, count: nat, pointSelectedSurf: array<bool>, normvec: array<Plane>)
    returns (effectNum: nat)
    requires WellFormed(s) && lo + count <= |s.body| == pointSelectedSurf.Length && normvec.Length == count
    modifies pointSelectedSurf, normvec
    ensures Marked(s, lo, lo + count, pointSelectedSurf[..], old(pointSelectedSurf[..]))
    ensures Kept(s, lo, lo + count, normvec[..])
    ensures effectNum == |Selected(s, lo, lo + count)|
  {
    effectNum := 0;
    hide Accepted;
    assert Marked(s, lo, lo, pointSelectedSurf[..], old(pointSelectedSurf[..])) && Kept(s, lo, lo, normvec[..]);
    hide Takes, Marked, Kept;
    for j := 0 to count
      invariant Marked(s, lo, lo + j, pointSelectedSurf[..], old(pointSelectedSurf[..]))
      invariant Kept(s, lo, lo + j, normvec[..])
      invariant effectNum == |Selected(s, lo, lo + j)|
    {
      OneMorePoint(s, lo, lo + j, pointSelectedSurf[..], old(pointSelectedSurf[..]), normvec[..]);
      SelectPoint(s, lo + j, j, pointSelectedSurf, normvec);
      if pointSelectedSurf[lo + j] {
        effectNum := effectNum + 1;
      }
    }
  }

  ghost predicate RowsOf(s: Scan, ks: seq<nat>, hx: seq<Row>, z: seq<real>)
    requires WellFormed(s)
  {
    && |hx| == |z| == |ks|
    && forall m :: 0 <= m < |ks| ==>
      && ks[m] < |s.body| && s.found[ks[m]].plane.Some?
      && hx[m] == RowOf(s.pose, s.extrinsic, s.body[ks[m]], s.found[ks[m]].plane.value)
      && z[m] == ResidualOf(s.pose, s.body[ks[m]], s.found[ks[m]].plane.value)
  }

  lemma OneMoreRow(s: Scan, lo: nat, i: nat, hx: seq<Row>, z: seq<real>)
    requires WellFormed(s) && lo <= i < |s.body| && RowsOf(s, Selected(s, lo, i), hx, z)
    ensures !Takes(s, i) ==> RowsOf(s, Selected(s, lo, i + 1), hx, z)
    ensures Takes(s, i) ==> RowsOf(s, Selected(s, lo, i + 1),
      hx + [RowOf(s.pose, s.extrinsic, s.body[i], s.found[i].plane.value)],
      z + [ResidualOf(s.pose, s.body[i], s.found[i].plane.value)])
  {
    hide RowOf, ResidualOf, Distance, PointBodyToWorld;
  }

  /** One row of the second pass. */
  method FillRow(s: Scan, i: nat, plane: Plane, m: nat, hx: array<Row>, z: array<real>)
    requires WellFormed(s) && i < |s.body| && m < hx.Length == z.Length
    modifies hx, z
    ensures hx[..] == old(hx[..])[m := RowOf(s.pose, s.extrinsic, s.body[i], plane)]
    ensures z[..] == old(z[..])[m := ResidualOf(s.pose, s.body[i], plane)]
  {
    hide RowOf, ResidualOf;
    hx[m] := RowOf(s.pose, s.extrinsic, s.body[i], plane);
    z[m] := ResidualOf(s.pose, s.body[i], plane);
  }

  lemma PrefixGrows<T>(before: seq<T>, m: nat, x: T)
    requires m < |before|
    ensures before[m := x][..m + 1] == before[..m] + [x]
  {}

  /** What the second pass finds at point i, and how the filled rows grow by it. */
  lemma RowsGrow(s: Scan, lo: nat, hi: nat, i: nat, marks: seq<bool>, before: seq<bool>, planes: seq<Plane>,
                 hx: seq<Row>, z: seq<real>, m: nat)
    requires WellFormed(s) && Marked(s, lo, hi, marks, before) && Kept(s, lo, hi, planes)
    requires lo <= i < hi <= |s.body| && m == |Selected(s, lo, i)|
    requires |hx| == |z| == |Selected(s, lo, hi)| && m <= |hx| && RowsOf(s, Selected(s, lo, i), hx[..m], z[..m])
    ensures marks[i] == Takes(s, i)
    ensures !marks[i] ==> m == |Selected(s, lo, i + 1)| && RowsOf(s, Selected(s, lo, i + 1), hx[..m], z[..m])
    ensures marks[i] ==> m < |hx| && m + 1 == |Selected(s, lo, i + 1)| && RowsOf(s, Selected(s, lo, i + 1),
      hx[m := RowOf(s.pose, s.extrinsic, s.body[i], planes[i - lo])][..m + 1],
      z[m := ResidualOf(s.pose, s.body[i], planes[i - lo])][..m + 1])
  {
    OneMoreRow(s, lo, i, hx[..m], z[..m]);
    SelectedGrows(s, lo, i + 1, hi);
    hide Accepted, RowOf, ResidualOf, RowsOf;
    if Takes(s, i) {
      assert planes[i - lo] == s.found[lo + (i - lo)].plane.value;
      PrefixGrows(hx, m, RowOf(s.pose, s.extrinsic, s.body[i], planes[i - lo]));
      PrefixGrows(z, m, ResidualOf(s.pose, s.body[i], planes[i - lo]));
    }
  }

  /** The second pass goes over the marks and never runs past the counted rows. */
  method FillRows(s: Scan, lo: nat, count: nat, pointSelectedSurf: array<bool>, normvec: array<Plane>,
                  hx: array<Row>, z: array<real>, ghost before: seq<bool>)
    requires WellFormed(s) && lo + count <= |s.body| == pointSelectedSurf.Length && normvec.Length == count
    requires Marked(s, lo, lo + count, pointSelectedSurf[..], before) && Kept(s, lo, lo + count, normvec[..])
    requires hx.Length == z.Length == |Selected(s, lo, lo + count)|
    modifies hx, z
    ensures RowsOf(s, Selected(s, lo, lo + count), hx[..], z[..])
  {
    assert hx[..0] == [] && z[..0] == [];
    assert RowsOf(s, Selected(s, lo, lo), hx[..0], z[..0]);
    hide Takes, RowOf, ResidualOf, RowsOf, Marked, Kept, Selected;
    var m := 0;
    for j := 0 to count
      invariant m == |Selected(s, lo, lo + j)| <= hx.Length
      invariant RowsOf(s, Selected(s, lo, lo + j), hx[..m], z[..m])
    {
      RowsGrow(s, lo, lo + count, lo + j, pointSelectedSurf[..], before, normvec[..], hx[..], z[..], m);
      if pointSelectedSurf[lo + j] {
        FillRow(s, lo + j, normvec[j], m, hx, z);
        m := m + 1;
      }
    }
    assert hx[..m] == hx[..] && z[..m] == z[..];
  }

  /** What the filter shares with the measurement, and the running count of accepted points. */
  class EkfomData {
    var valid: bool
    var hx: array<Row>
    var z: array<real>
    var effctFeatNum: nat

    constructor ()
      ensures valid && effctFeatNum == 0 && fresh(hx) && fresh(z)
    {
      valid, effctFeatNum := true, 0;
      hx, z := new Row[0], new real[0];
    }
  }

  /** The measurement of one group: when no point is accepted it is marked invalid and the rows of
      the previous call stay; otherwise there is exactly one new row for each accepted point, in
      order.
   */
  method HModel(s: Scan, idx: int, count: nat, pointSelectedSurf: array<bool>, data: EkfomData)
    requires WellFormed(s) && 0 <= idx + 1 && idx + 1 + count <= |s.body| == pointSelectedSurf.Length
    modifies pointSelectedSurf, data
    ensures Marked(s, idx + 1, idx + 1 + count, pointSelectedSurf[..], old(pointSelectedSurf[..]))
    ensures var accepted := Selected(s, idx + 1, idx + 1 + count);
      if accepted == [] then
        !data.valid && data.hx == old(data.hx) && data.z == old(data.z) && data.effctFeatNum == old(data.effctFeatNum)
      else
        && data.valid == old(data.valid) && data.effctFeatNum == old(data.effctFeatNum) + |accepted|
        && fresh(data.hx) && fresh(data.z) && RowsOf(s, accepted, data.hx[..], data.z[..])
  {
    hide Takes, RowsOf, Marked, Kept, Selected;
    ghost var before := pointSelectedSurf[..];
    var normvec := new Plane[count](_ => Plane(ZERO, 0.0));
    var effectNum := SelectPoints(s, idx + 1, count, pointSelectedSurf, normvec);
    if effectNum == 0 {
      data.valid := false;
      return;
    }
    var hx := new Row[effectNum](_ => Row(ZERO, ZERO, ZERO, ZERO));
    var z := new real[effectNum](_ => 0.0);
    data.hx, data.z := hx, z;
    FillRows(s, idx + 1, count, pointSelectedSurf, normvec, hx, z, before);
    data.effctFeatNum := data.effctFeatNum + effectNum;
  }

  // -- What a row means ----------------------------------------------------------------------

  /** The transpose is the adjoint. */
  lemma Adjoint(n: V3, m: M3, v: V3)
    ensures Dot(n, Apply(m, v)) == Dot(Apply(Transpose(m), n), v)
  {
    AdjointSum(n.x, n.y, n.z, v.x, v.y, v.z, m.c0, m.c1, m.c2);
    hide Sum3;
  }

  lemma AdjointSum(n: real, o: real, p: real, x: real, y: real, z: real, c0: V3, c1: V3, c2: V3)
    ensures Sum3(n, Sum3(x, c0.x, y, c1.x, z, c2.x), o, Sum3(x, c0.y, y, c1.y, z, c2.y),
                 p, Sum3(x, c0.z, y, c1.z, z, c2.z))
         == Sum3(Sum3(n, c0.x, o, c0.y, p, c0.z), x, Sum3(n, c1.x, o, c1.y, p, c1.z), y,
                 Sum3(n, c2.x, o, c2.y, p, c2.z), z)
  {}

  lemma DotPlus(n: V3, a: V3, b: V3)
    ensures Dot(n, Plus(a, b)) == Dot(n, a) + Dot(n, b)
  {
    SumOfSums(n.x, n.y, n.z, a.x, a.y, a.z, b.x, b.y, b.z);
    hide Sum3;
  }

  /** A turn about w of a vector p, seen along n: the row entry is p x n. */
  lemma TurnedAlong(n: V3, w: V3, p: V3)
    ensures Dot(n, Cross(w, p)) == Dot(Cross(p, n), w)
  {
    ScalarTriple(p, n, w);
    ScalarTriple(w, p, n);
    DotSymmetric(n, Cross(w, p));
    DotSymmetric(Cross(p, n), w);
    hide Cross, Dot;
  }

  /** A change of the pose: shift and turn of the body, shift and turn of the sensor on it. */
  datatype Change = Change(shift: V3, turn: V3, sensorTurn: V3, sensorShift: V3)

  /** Turning to first order: the identity plus the turn's cross product matrix, which is a rotation
      only up to second order.  Rotations themselves follow below.
   */
  function Turned(r: M3, turn: V3): M3 {
    Product(r, MPlus(EYE3, SkewSymMat(turn)))
  }

  function Changed(pose: Pose, d: Change): Pose {
    Pose(Turned(pose.rot, d.turn), Plus(pose.pos, d.shift),
         Turned(pose.offR, d.sensorTurn), Plus(pose.offT, d.sensorShift))
  }

  /** How the sensor's change moves a point on the body. */
  function MovedOnBody(pose: Pose, body: V3, d: Change): V3 {
    Plus(Apply(pose.offR, Cross(d.sensorTurn, body)), d.sensorShift)
  }

  /** How a change moves a point in the world, to first order. */
  function Moved(pose: Pose, body: V3, d: Change): V3 {
    Plus(Plus(d.shift, Apply(pose.rot, Cross(d.turn, InImuFrame(pose, body)))),
         Apply(pose.rot, MovedOnBody(pose, body, d)))
  }

  /** What two turns at once add to that. */
  function MovedTwice(pose: Pose, body: V3, d: Change): V3 {
    Apply(pose.rot, Cross(d.turn, MovedOnBody(pose, body, d)))
  }

  lemma ApplyTurned(r: M3, turn: V3, v: V3)
    ensures Apply(Turned(r, turn), v) == Plus(Apply(r, v), Apply(r, Cross(turn, v)))
  {
    hide Apply, MPlus, Product, Plus, Cross, SkewSymMat;
    ApplyProduct(r, MPlus(EYE3, SkewSymMat(turn)), v);
    ApplyPlus(EYE3, SkewSymMat(turn), v);
    ApplyEye(v);
    ApplySkew(turn, v);
    ApplyToPlus(r, v, Cross(turn, v));
  }

  lemma PlusFour(a: V3, b: V3, c: V3, d: V3)
    ensures Plus(Plus(a, b), Plus(c, d)) == Plus(Plus(a, c), Plus(b, d))
  {}

  /** Where the pose changed to first order puts the point. */
  lemma ChangedPoint(pose: Pose, body: V3, d: Change)
    ensures PointBodyToWorld(Changed(pose, d), body)
         == Plus(Plus(PointBodyToWorld(pose, body), Moved(pose, body, d)), MovedTwice(pose, body, d))
  {
    hide Apply, Plus, Cross, Turned;
    var q, m := InImuFrame(pose, body), MovedOnBody(pose, body, d);
    ApplyTurned(pose.offR, d.sensorTurn, body);
    PlusFour(Apply(pose.offR, body), Apply(pose.offR, Cross(d.sensorTurn, body)), pose.offT, d.sensorShift);
    assert InImuFrame(Changed(pose, d), body) == Plus(q, m);
    ApplyTurned(pose.rot, d.turn, Plus(q, m));
    CrossPlus(d.turn, q, m);
    ApplyToPlus(pose.rot, q, m);
    ApplyToPlus(pose.rot, Cross(d.turn, q), Cross(d.turn, m));
    Gather(Apply(pose.rot, q), Apply(pose.rot, m), Apply(pose.rot, Cross(d.turn, q)),
           Apply(pose.rot, Cross(d.turn, m)), pose.pos, d.shift);
  }

  lemma Gather(a: V3, b: V3, c: V3, e: V3, p: V3, s: V3)
    ensures Plus(Plus(Plus(a, b), Plus(c, e)), Plus(p, s)) == Plus(Plus(Plus(a, p), Plus(Plus(s, c), b)), e)
  {}

  /** What a row says about a change: the sum of its four dot products. */
  function RowTimes(r: Row, d: Change): real {
    Dot(r.normal, d.shift) + Dot(r.a, d.turn) + (Dot(r.b, d.sensorTurn) + Dot(r.c, d.sensorShift))
  }

  lemma RowIsMotion(pose: Pose, body: V3, plane: Plane, d: Change)
    ensures Dot(plane.normal, Moved(pose, body, d)) == RowTimes(RowOf(pose, true, body, plane), d)
  {
    hide Cross, Dot, Apply, Plus, Transpose, Product, SkewSymMat, InImuFrame;
    var n, c := plane.normal, Apply(Transpose(pose.rot), plane.normal);
    var p, m := InImuFrame(pose, body), MovedOnBody(pose, body, d);
    var e := Apply(Transpose(pose.offR), c);
    var turned := Apply(pose.rot, Cross(d.turn, p));
    DotPlus(n, Plus(d.shift, turned), Apply(pose.rot, m));
    DotPlus(n, d.shift, turned);
    Adjoint(n, pose.rot, Cross(d.turn, p));
    TurnedAlong(c, d.turn, p);
    ApplySkew(p, c);
    Adjoint(n, pose.rot, m);
    DotPlus(c, Apply(pose.offR, Cross(d.sensorTurn, body)), d.sensorShift);
    Adjoint(c, pose.offR, Cross(d.sensorTurn, body));
    TurnedAlong(e, d.sensorTurn, body);
    ApplyProduct(SkewSymMat(body), Transpose(pose.offR), c);
    ApplySkew(body, e);
  }

  /** The change in a point's distance from its plane is the row times the change, plus a term that
      is nonzero only when body and sensor move together.
   */
  lemma DistanceChange(pose: Pose, body: V3, plane: Plane, d: Change)
    ensures Distance(plane, PointBodyToWorld(Changed(pose, d), body))
         == Distance(plane, PointBodyToWorld(pose, body)) + RowTimes(RowOf(pose, true, body, plane), d)
            + Dot(plane.normal, MovedTwice(pose, body, d))
  {
    hide Dot, Plus, PointBodyToWorld, Moved, MovedTwice, Changed, RowTimes, RowOf;
    ChangedPoint(pose, body, d);
    RowIsMotion(pose, body, plane, d);
    var w, m := PointBodyToWorld(pose, body), Moved(pose, body, d);
    DotPlus(plane.normal, Plus(w, m), MovedTwice(pose, body, d));
    DotPlus(plane.normal, w, m);
  }

  function Scaled(r: real, d: Change): Change {
    Change(Times(r, d.shift), Times(r, d.turn), Times(r, d.sensorTurn), Times(r, d.sensorShift))
  }

  lemma DotScales(n: V3, r: real, v: V3)
    ensures Dot(n, Times(r, v)) == Mul(r, Dot(n, v))
  {
    ScaledSum(n.x, n.y, n.z, r, v.x, v.y, v.z);
    hide Sum3, Mul;
  }

  lemma TimesPlus(r: real, a: V3, b: V3)
    ensures Times(r, Plus(a, b)) == Plus(Times(r, a), Times(r, b))
  {
    MulPlus(r, a.x, b.x);
    MulPlus(r, a.y, b.y);
    MulPlus(r, a.z, b.z);
    hide Mul;
  }

  lemma MulPlus(r: real, a: real, b: real)
    ensures Mul(r, a + b) == Mul(r, a) + Mul(r, b)
  {}

  lemma CrossTimesLeft(r: real, a: V3, b: V3)
    ensures Cross(Times(r, a), b) == Times(r, Cross(a, b))
  {
    ScaledArea(r, a.y, a.z, b.y, b.z);
    ScaledArea(r, a.z, a.x, b.z, b.x);
    ScaledArea(r, a.x, a.y, b.x, b.y);
    hide Area, Mul;
  }

  lemma ScaledArea(r: real, p: real, q: real, a: real, b: real)
    ensures Area(Mul(r, p), Mul(r, q), a, b) == Mul(r, Area(p, q, a, b))
  {}

  lemma ScaledOnBody(pose: Pose, body: V3, r: real, d: Change)
    ensures MovedOnBody(pose, body, Scaled(r, d)) == Times(r, MovedOnBody(pose, body, d))
  {
    hide Apply, Cross, Times, Plus;
    CrossTimesLeft(r, d.sensorTurn, body);
    ApplyToTimes(pose.offR, r, Cross(d.sensorTurn, body));
    TimesPlus(r, Apply(pose.offR, Cross(d.sensorTurn, body)), d.sensorShift);
  }

  /** Along any direction of change the distance is a quadratic whose slope at zero is the row times
      the direction: the twelve numbers of a row are the derivatives of the distance.
   */
  lemma RowIsDerivative(pose: Pose, body: V3, plane: Plane, d: Change, r: real)
    ensures Distance(plane, PointBodyToWorld(Changed(pose, Scaled(r, d)), body))
         == Distance(plane, PointBodyToWorld(pose, body)) + Mul(r, RowTimes(RowOf(pose, true, body, plane), d))
            + Mul(r, Mul(r, Dot(plane.normal, MovedTwice(pose, body, d))))
  {
    hide Dot, Times, Mul, Apply, Cross, Changed, PointBodyToWorld, MovedOnBody, Distance, RowOf;
    var row, n, m := RowOf(pose, true, body, plane), plane.normal, MovedOnBody(pose, body, d);
    DistanceChange(pose, body, plane, Scaled(r, d));
    DotScales(row.normal, r, d.shift);
    DotScales(row.a, r, d.turn);
    DotScales(row.b, r, d.sensorTurn);
    DotScales(row.c, r, d.sensorShift);
    MulPlus(r, Dot(row.normal, d.shift) + Dot(row.a, d.turn), Dot(row.b, d.sensorTurn) + Dot(row.c, d.sensorShift));
    MulPlus(r, Dot(row.normal, d.shift), Dot(row.a, d.turn));
    MulPlus(r, Dot(row.b, d.sensorTurn), Dot(row.c, d.sensorShift));
    ScaledOnBody(pose, body, r, d);
    CrossTimesLeft(r, d.turn, Times(r, m));
    CrossTimes(d.turn, r, m);
    ApplyToTimes(pose.rot, r, Times(r, Cross(d.turn, m)));
    ApplyToTimes(pose.rot, r, Cross(d.turn, m));
    DotScales(n, r, Times(r, Apply(pose.rot, Cross(d.turn, m))));
    DotScales(n, r, Apply(pose.rot, Cross(d.turn, m)));
  }

  /** Without extrinsic estimation a first-order change of the body changes the distance by just
      what the row says, and the row says nothing about the sensor.
   */
  lemma RowWithoutExtrinsics(pose: Pose, body: V3, plane: Plane, d: Change)
    requires d.sensorTurn == ZERO && d.sensorShift == ZERO
    ensures Distance(plane, PointBodyToWorld(Changed(pose, d), body))
         == Distance(plane, PointBodyToWorld(pose, body)) + RowTimes(RowOf(pose, false, body, plane), d)
    ensures RowOf(pose, false, body, plane).b == RowOf(pose, false, body, plane).c == ZERO
  {
    DistanceChange(pose, body, plane, d);
    hide Distance, PointBodyToWorld, Changed;
    SensorStandsStill(pose, body, d);
    StillPointStays(pose, body, d);
    var full, row := RowOf(pose, true, body, plane), RowOf(pose, false, body, plane);
    assert row.normal == full.normal && row.a == full.a;
    hide RowOf;
    assert Dot(full.b, ZERO) == Dot(full.c, ZERO) == Dot(row.b, ZERO) == Dot(row.c, ZERO) == 0.0;
    assert Dot(plane.normal, ZERO) == 0.0;
  }

  lemma SensorStandsStill(pose: Pose, body: V3, d: Change)
    requires d.sensorTurn == ZERO && d.sensorShift == ZERO
    ensures MovedOnBody(pose, body, d) == ZERO
  {
    assert Cross(ZERO, body) == ZERO;
    ApplyZero(pose.offR);
    hide Cross, Apply;
  }

  lemma StillPointStays(pose: Pose, body: V3, d: Change)
    requires MovedOnBody(pose, body, d) == ZERO
    ensures MovedTwice(pose, body, d) == ZERO
  {
    CrossZeroRight(d.turn);
    ApplyZero(pose.rot);
    hide Cross, Apply;
  }

  lemma CrossZeroRight(k: V3)
    ensures Cross(k, ZERO) == ZERO
  {}

  lemma ApplyZero(m: M3)
    ensures Apply(m, ZERO) == ZERO
  {}

  // -- Rotations -----------------------------------------------------------------------------

  /** A rotated vector seen along n through a matrix. */
  lemma RotatedAlong(n: V3, m: M3, k: V3, s: real, c: real, v: V3)
    ensures Dot(n, Apply(Product(m, Rodrigues(k, s, c)), v))
         == Dot(n, Apply(m, v)) + Mul(s, Dot(Cross(v, Apply(Transpose(m), n)), k))
            + Mul(1.0 - c, Dot(n, Apply(m, Cross(k, Cross(k, v)))))
  {
    hide Apply, Cross, Dot, Plus, Times, Mul, Rodrigues, Product, Transpose;
    var u, w := Cross(k, v), Cross(k, Cross(k, v));
    ApplyProduct(m, Rodrigues(k, s, c), v);
    RodriguesTurns(k, s, c, v);
    ApplyToPlus(m, Plus(v, Times(s, u)), Times(1.0 - c, w));
    ApplyToPlus(m, v, Times(s, u));
    ApplyToTimes(m, s, u);
    ApplyToTimes(m, 1.0 - c, w);
    DotPlus(n, Plus(Apply(m, v), Times(s, Apply(m, u))), Times(1.0 - c, Apply(m, w)));
    DotPlus(n, Apply(m, v), Times(s, Apply(m, u)));
    DotScales(n, s, Apply(m, u));
    DotScales(n, 1.0 - c, Apply(m, w));
    Adjoint(n, m, u);
    TurnedAlong(Apply(Transpose(m), n), k, v);
  }

  /** A rotation about an axis by the angle of sine s and cosine c. */
  datatype Spin = Spin(axis: V3, s: real, c: real)

  function Spun(m: M3, spin: Spin): M3 {
    Product(m, Rodrigues(spin.axis, spin.s, spin.c))
  }

  /** A motion of the pose: shift and rotation of the body, shift and rotation of the sensor on it. */
  datatype Motion = Motion(shift: V3, spin: Spin, sensorSpin: Spin, sensorShift: V3)

  function MovedBy(pose: Pose, g: Motion): Pose {
    Pose(Spun(pose.rot, g.spin), Plus(pose.pos, g.shift),
         Spun(pose.offR, g.sensorSpin), Plus(pose.offT, g.sensorShift))
  }

  function ToFirstOrder(g: Motion): Change {
    Change(g.shift, Times(g.spin.s, g.spin.axis), Times(g.sensorSpin.s, g.sensorSpin.axis), g.sensorShift)
  }

  function TwiceAcross(k: V3, v: V3): V3 {
    Cross(k, Cross(k, v))
  }

  /** How the sensor's motion moves a point on the body. */
  function SensorMoved(pose: Pose, body: V3, g: Motion): V3 {
    Plus(Plus(Apply(Spun(pose.offR, g.sensorSpin), body), Times(-1.0, Apply(pose.offR, body))), g.sensorShift)
  }

  /** What the row leaves out: a term in each 1 - c, and the product of the two motions. */
  function SecondOrder(pose: Pose, body: V3, plane: Plane, g: Motion): real {
    var n, c, m := plane.normal, Apply(Transpose(pose.rot), plane.normal), SensorMoved(pose, body, g);
    Mul(1.0 - g.spin.c, Dot(n, Apply(pose.rot, TwiceAcross(g.spin.axis, Plus(InImuFrame(pose, body), m)))))
    + Mul(1.0 - g.sensorSpin.c, Dot(c, Apply(pose.offR, TwiceAcross(g.sensorSpin.axis, body))))
    + Mul(g.spin.s, Dot(Cross(m, c), g.spin.axis))
  }

  /** For every motion, however large, the distance changes by the row times the motion's sines, up
      to terms of second order.
   */
  lemma RowUnderMotion(pose: Pose, body: V3, plane: Plane, g: Motion)
    ensures Distance(plane, PointBodyToWorld(MovedBy(pose, g), body))
         == Distance(plane, PointBodyToWorld(pose, body)) + RowTimes(RowOf(pose, true, body, plane), ToFirstOrder(g))
            + SecondOrder(pose, body, plane, g)
  {
    hide Apply, Cross, Dot, Plus, Times, Mul, Product, Transpose, SkewSymMat, InImuFrame, Spun, TwiceAcross;
    var n, c := plane.normal, Apply(Transpose(pose.rot), plane.normal);
    var q, m := InImuFrame(pose, body), SensorMoved(pose, body, g);
    SensorMovesPoint(pose, body, g);
    DotPlus(n, Apply(Spun(pose.rot, g.spin), Plus(q, m)), Plus(pose.pos, g.shift));
    DotPlus(n, pose.pos, g.shift);
    DotPlus(n, Apply(pose.rot, q), pose.pos);
    SpunAlong(n, pose.rot, g.spin, Plus(q, m));
    ApplyToPlus(pose.rot, q, m);
    DotPlus(n, Apply(pose.rot, q), Apply(pose.rot, m));
    Adjoint(n, pose.rot, m);
    CrossOfSum(q, m, c, g.spin);
    ApplySkew(q, c);
    SensorAlong(pose, body, c, g);
    ApplyProduct(SkewSymMat(body), Transpose(pose.offR), c);
    ApplySkew(body, Apply(Transpose(pose.offR), c));
    DotScales(Cross(q, c), g.spin.s, g.spin.axis);
    DotScales(Cross(body, Apply(Transpose(pose.offR), c)), g.sensorSpin.s, g.sensorSpin.axis);
  }

  lemma SensorMovesPoint(pose: Pose, body: V3, g: Motion)
    ensures InImuFrame(MovedBy(pose, g), body) == Plus(InImuFrame(pose, body), SensorMoved(pose, body, g))
  {
    hide Apply, Spun;
  }

  lemma SpunAlong(n: V3, m: M3, spin: Spin, v: V3)
    ensures Dot(n, Apply(Spun(m, spin), v))
         == Dot(n, Apply(m, v)) + Mul(spin.s, Dot(Cross(v, Apply(Transpose(m), n)), spin.axis))
            + Mul(1.0 - spin.c, Dot(n, Apply(m, TwiceAcross(spin.axis, v))))
  {
    hide Apply, Cross, Dot, Mul, Rodrigues, Product, Transpose;
    RotatedAlong(n, m, spin.axis, spin.s, spin.c, v);
  }

  lemma CrossOfSum(q: V3, m: V3, c: V3, spin: Spin)
    ensures Mul(spin.s, Dot(Cross(Plus(q, m), c), spin.axis))
         == Mul(spin.s, Dot(Cross(q, c), spin.axis)) + Mul(spin.s, Dot(Cross(m, c), spin.axis))
  {
    hide Cross, Dot, Plus, Mul;
    CrossPlusLeft(q, m, c);
    DotSymmetric(Plus(Cross(q, c), Cross(m, c)), spin.axis);
    DotPlus(spin.axis, Cross(q, c), Cross(m, c));
    DotSymmetric(Cross(q, c), spin.axis);
    DotSymmetric(Cross(m, c), spin.axis);
    MulPlus(spin.s, Dot(Cross(q, c), spin.axis), Dot(Cross(m, c), spin.axis));
  }

  lemma CrossPlusLeft(a: V3, b: V3, c: V3)
    ensures Cross(Plus(a, b), c) == Plus(Cross(a, c), Cross(b, c))
  {
    CrossAnti(Plus(a, b), c);
    CrossPlus(c, a, b);
    TimesPlus(-1.0, Cross(c, a), Cross(c, b));
    CrossAnti(a, c);
    CrossAnti(b, c);
    hide Cross, Times, Plus;
  }

  lemma SensorAlong(pose: Pose, body: V3, c: V3, g: Motion)
    ensures Dot(c, SensorMoved(pose, body, g))
         == Mul(g.sensorSpin.s, Dot(Cross(body, Apply(Transpose(pose.offR), c)), g.sensorSpin.axis))
            + Mul(1.0 - g.sensorSpin.c, Dot(c, Apply(pose.offR, TwiceAcross(g.sensorSpin.axis, body))))
            + Dot(c, g.sensorShift)
  {
    hide Apply, Cross, Dot, Plus, Times, Mul, Transpose, Spun, TwiceAcross;
    var u, v := Apply(Spun(pose.offR, g.sensorSpin), body), Apply(pose.offR, body);
    DotPlus(c, Plus(u, Times(-1.0, v)), g.sensorShift);
    DotPlus(c, u, Times(-1.0, v));
    DotScales(c, -1.0, v);
    MinusOneTimes(Dot(c, v));
    SpunAlong(c, pose.offR, g.sensorSpin, body);
  }

  lemma MinusOneTimes(x: real)
    ensures Mul(-1.0, x) == -x
  {}

  /** Without extrinsic estimation: under a rotation of the body alone the distance changes by the
      sine times the row's second part along the axis, and a term in 1 - c.
   */
  lemma RowUnderRotation(pose: Pose, body: V3, plane: Plane, spin: Spin)
    ensures Distance(plane, PointBodyToWorld(pose.(rot := Spun(pose.rot, spin)), body))
         == Distance(plane, PointBodyToWorld(pose, body))
            + Mul(spin.s, Dot(RowOf(pose, false, body, plane).a, spin.axis))
            + Mul(1.0 - spin.c, Dot(plane.normal, Apply(pose.rot, TwiceAcross(spin.axis, InImuFrame(pose, body)))))
  {
    hide Apply, Cross, Dot, Plus, Mul, Product, Transpose, InImuFrame, Spun, TwiceAcross;
    var n, q := plane.normal, InImuFrame(pose, body);
    SameOnBody(pose, body, Spun(pose.rot, spin));
    SpunAlong(n, pose.rot, spin, q);
    ApplySkew(q, Apply(Transpose(pose.rot), n));
    DotPlus(n, Apply(Spun(pose.rot, spin), q), pose.pos);
    DotPlus(n, Apply(pose.rot, q), pose.pos);
  }

  lemma SameOnBody(pose: Pose, body: V3, r: M3)
    ensures InImuFrame(pose.(rot := r), body) == InImuFrame(pose, body)
  {}

  /** A unit axis and a point of the circle make the moved matrices rotations again. */
  lemma SpunIsRotation(m: M3, spin: Spin)
    requires IsRotation(m) && Dot(spin.axis, spin.axis) == 1.0 && spin.s * spin.s + spin.c * spin.c == 1.0
    ensures IsRotation(Spun(m, spin))
  {
    hide IsRotation, Rodrigues, Product;
    RodriguesIsRotation(spin.axis, spin.s, spin.c);
    ProductIsRotation(m, Rodrigues(spin.axis, spin.s, spin.c));
  }
}
