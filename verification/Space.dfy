/** Vectors and matrices of three dimensions; a matrix is its three columns. */
module Space {
  datatype V3 = V3(x: real, y: real, z: real)

  datatype M3 = M3(c0: V3, c1: V3, c2: V3)

  const E0 := V3(1.0, 0.0, 0.0)
  const E1 := V3(0.0, 1.0, 0.0)
  const E2 := V3(0.0, 0.0, 1.0)
  const EYE3 := M3(E0, E1, E2)

  function Plus(a: V3, b: V3): V3 {
    V3(a.x + b.x, a.y + b.y, a.z + b.z)
  }

  function Mul(r: real, x: real): real {
    r * x
  }

  function Times(r: real, a: V3): V3 {
    V3(Mul(r, a.x), Mul(r, a.y), Mul(r, a.z))
  }

  function Over(a: V3, r: real): V3
    requires r != 0.0
  {
    V3(a.x / r, a.y / r, a.z / r)
  }

  function Sum3(x: real, a: real, y: real, b: real, z: real, c: real): real {
    x * a + y * b + z * c
  }

  function Area(a: real, b: real, c: real, d: real): real {
    a * d - b * c
  }

  function Dot(a: V3, b: V3): real {
    Sum3(a.x, b.x, a.y, b.y, a.z, b.z)
  }

  function Cross(a: V3, b: V3): V3 {
    V3(Area(a.y, a.z, b.y, b.z), Area(a.z, a.x, b.z, b.x), Area(a.x, a.y, b.x, b.y))
  }

  function MPlus(a: M3, b: M3): M3 {
    M3(Plus(a.c0, b.c0), Plus(a.c1, b.c1), Plus(a.c2, b.c2))
  }

  function MTimes(r: real, a: M3): M3 {
    M3(Times(r, a.c0), Times(r, a.c1), Times(r, a.c2))
  }

  function Transpose(a: M3): M3 {
    M3(V3(a.c0.x, a.c1.x, a.c2.x), V3(a.c0.y, a.c1.y, a.c2.y), V3(a.c0.z, a.c1.z, a.c2.z))
  }

  function Apply(a: M3, v: V3): V3 {
    V3(Sum3(v.x, a.c0.x, v.y, a.c1.x, v.z, a.c2.x),
       Sum3(v.x, a.c0.y, v.y, a.c1.y, v.z, a.c2.y),
       Sum3(v.x, a.c0.z, v.y, a.c1.z, v.z, a.c2.z))
  }

  function Product(a: M3, b: M3): M3 {
    M3(Apply(a, b.c0), Apply(a, b.c1), Apply(a, b.c2))
  }

  /** The matrix of the cross product with v. */
  function SkewSymMat(v: V3): M3 {
    M3(V3(0.0, v.z, -v.y), V3(-v.z, 0.0, v.x), V3(v.y, -v.x, 0.0))
  }

  // -- Linearity, coordinate by coordinate ---------------------------------------------------

  lemma SumOfSums(x: real, y: real, z: real, a: real, b: real, c: real, d: real, e: real, f: real)
    ensures Sum3(x, a + d, y, b + e, z, c + f) == Sum3(x, a, y, b, z, c) + Sum3(x, d, y, e, z, f)
  {}

  lemma ScaledSum(x: real, y: real, z: real, r: real, a: real, b: real, c: real)
    ensures Sum3(x, Mul(r, a), y, Mul(r, b), z, Mul(r, c)) == Mul(r, Sum3(x, a, y, b, z, c))
  {}

  lemma ApplyPlus(a: M3, b: M3, v: V3)
    ensures Apply(MPlus(a, b), v) == Plus(Apply(a, v), Apply(b, v))
  {
    hide Sum3;
    SumOfSums(v.x, v.y, v.z, a.c0.x, a.c1.x, a.c2.x, b.c0.x, b.c1.x, b.c2.x);
    SumOfSums(v.x, v.y, v.z, a.c0.y, a.c1.y, a.c2.y, b.c0.y, b.c1.y, b.c2.y);
    SumOfSums(v.x, v.y, v.z, a.c0.z, a.c1.z, a.c2.z, b.c0.z, b.c1.z, b.c2.z);
  }

  lemma ApplyTimes(r: real, a: M3, v: V3)
    ensures Apply(MTimes(r, a), v) == Times(r, Apply(a, v))
  {
    hide Sum3, Mul;
    ScaledSum(v.x, v.y, v.z, r, a.c0.x, a.c1.x, a.c2.x);
    ScaledSum(v.x, v.y, v.z, r, a.c0.y, a.c1.y, a.c2.y);
    ScaledSum(v.x, v.y, v.z, r, a.c0.z, a.c1.z, a.c2.z);
  }

  lemma SumOfPairs(x: real, y: real, z: real, u: real, v: real, w: real, a: real, b: real, c: real)
    ensures Sum3(x + u, a, y + v, b, z + w, c) == Sum3(x, a, y, b, z, c) + Sum3(u, a, v, b, w, c)
  {}

  /** A matrix acts linearly. */
  lemma ApplyToPlus(m: M3, a: V3, b: V3)
    ensures Apply(m, Plus(a, b)) == Plus(Apply(m, a), Apply(m, b))
  {
    hide Sum3;
    SumOfPairs(a.x, a.y, a.z, b.x, b.y, b.z, m.c0.x, m.c1.x, m.c2.x);
    SumOfPairs(a.x, a.y, a.z, b.x, b.y, b.z, m.c0.y, m.c1.y, m.c2.y);
    SumOfPairs(a.x, a.y, a.z, b.x, b.y, b.z, m.c0.z, m.c1.z, m.c2.z);
  }

  lemma ScaledPairs(r: real, x: real, y: real, z: real, a: real, b: real, c: real)
    ensures Sum3(Mul(r, x), a, Mul(r, y), b, Mul(r, z), c) == Mul(r, Sum3(x, a, y, b, z, c))
  {}

  lemma ApplyToTimes(m: M3, r: real, a: V3)
    ensures Apply(m, Times(r, a)) == Times(r, Apply(m, a))
  {
    hide Sum3, Mul;
    ScaledPairs(r, a.x, a.y, a.z, m.c0.x, m.c1.x, m.c2.x);
    ScaledPairs(r, a.x, a.y, a.z, m.c0.y, m.c1.y, m.c2.y);
    ScaledPairs(r, a.x, a.y, a.z, m.c0.z, m.c1.z, m.c2.z);
  }

  lemma ApplyEye(v: V3)
    ensures Apply(EYE3, v) == v
  {}

  lemma ApplySkew(k: V3, v: V3)
    ensures Apply(SkewSymMat(k), v) == Cross(k, v)
  {
    SkewRow(k.y, k.z, v.x, v.y, v.z);
    SkewRow(k.z, k.x, v.y, v.z, v.x);
    SkewRow(k.x, k.y, v.z, v.x, v.y);
    SumRotates(v.x, 0.0, v.y, -k.z, v.z, k.y);
    hide Sum3, Area;
  }

  lemma SkewRow(p: real, q: real, x: real, y: real, z: real)
    ensures Sum3(x, 0.0, y, -q, z, p) == Area(p, q, y, z)
    ensures Sum3(z, p, x, 0.0, y, -q) == Area(p, q, y, z)
    ensures Sum3(y, -q, z, p, x, 0.0) == Area(p, q, y, z)
  {}

  lemma SumRotates(x: real, a: real, y: real, b: real, z: real, c: real)
    ensures Sum3(x, a, y, b, z, c) == Sum3(y, b, z, c, x, a)
  {}

  lemma NestedSum(x: real, y: real, z: real, p: V3, q: V3, r: V3, a: real, b: real, c: real)
    ensures Sum3(Sum3(x, p.x, y, q.x, z, r.x), a, Sum3(x, p.y, y, q.y, z, r.y), b, Sum3(x, p.z, y, q.z, z, r.z), c)
         == Sum3(x, Sum3(p.x, a, p.y, b, p.z, c), y, Sum3(q.x, a, q.y, b, q.z, c), z, Sum3(r.x, a, r.y, b, r.z, c))
  {}

  lemma ApplyProduct(a: M3, b: M3, v: V3)
    ensures Apply(Product(a, b), v) == Apply(a, Apply(b, v))
  {
    hide Sum3;
    NestedSum(v.x, v.y, v.z, b.c0, b.c1, b.c2, a.c0.x, a.c1.x, a.c2.x);
    NestedSum(v.x, v.y, v.z, b.c0, b.c1, b.c2, a.c0.y, a.c1.y, a.c2.y);
    NestedSum(v.x, v.y, v.z, b.c0, b.c1, b.c2, a.c0.z, a.c1.z, a.c2.z);
  }

  lemma ColumnsAreImages(a: M3)
    ensures Apply(a, E0) == a.c0 && Apply(a, E1) == a.c1 && Apply(a, E2) == a.c2
  {}

  /** Matrices that act alike on the axes are equal. */
  lemma SameAction(a: M3, b: M3)
    requires Apply(a, E0) == Apply(b, E0) && Apply(a, E1) == Apply(b, E1) && Apply(a, E2) == Apply(b, E2)
    ensures a == b
  {
    hide Apply;
    ColumnsAreImages(a);
    ColumnsAreImages(b);
  }

  // -- The cross product ---------------------------------------------------------------------

  lemma AreaPlus(p: real, q: real, a: real, b: real, c: real, d: real)
    ensures Area(p, q, a + c, b + d) == Area(p, q, a, b) + Area(p, q, c, d)
  {}

  lemma AreaTimes(p: real, q: real, r: real, a: real, b: real)
    ensures Area(p, q, Mul(r, a), Mul(r, b)) == Mul(r, Area(p, q, a, b))
  {}

  lemma CrossPlus(k: V3, a: V3, b: V3)
    ensures Cross(k, Plus(a, b)) == Plus(Cross(k, a), Cross(k, b))
  {
    hide Area;
    AreaPlus(k.y, k.z, a.y, a.z, b.y, b.z);
    AreaPlus(k.z, k.x, a.z, a.x, b.z, b.x);
    AreaPlus(k.x, k.y, a.x, a.y, b.x, b.y);
  }

  lemma CrossTimes(k: V3, r: real, a: V3)
    ensures Cross(k, Times(r, a)) == Times(r, Cross(k, a))
  {
    hide Area, Mul;
    AreaTimes(k.y, k.z, r, a.y, a.z);
    AreaTimes(k.z, k.x, r, a.z, a.x);
    AreaTimes(k.x, k.y, r, a.x, a.y);
  }

  lemma CrossAnti(a: V3, b: V3)
    ensures Cross(a, b) == Times(-1.0, Cross(b, a))
  {
    AreaAnti(a.y, a.z, b.y, b.z);
    AreaAnti(a.z, a.x, b.z, b.x);
    AreaAnti(a.x, a.y, b.x, b.y);
    hide Area, Mul;
  }

  lemma AreaAnti(p: real, q: real, a: real, b: real)
    ensures Area(p, q, a, b) == Mul(-1.0, Area(a, b, p, q))
  {}

  function Combine(a: V3, s: real, u: V3, d: real, w: V3): V3 {
    Plus(Plus(a, Times(s, u)), Times(d, w))
  }

  lemma CrossCombine(y: V3, a: V3, s: real, u: V3, d: real, w: V3)
    ensures Cross(y, Combine(a, s, u, d, w)) == Combine(Cross(y, a), s, Cross(y, u), d, Cross(y, w))
  {
    hide Cross, Plus, Times;
    CrossPlus(y, Plus(a, Times(s, u)), Times(d, w));
    CrossPlus(y, a, Times(s, u));
    CrossTimes(y, s, u);
    CrossTimes(y, d, w);
  }

  lemma CombineCross(a: V3, s: real, u: V3, d: real, w: V3, y: V3)
    ensures Cross(Combine(a, s, u, d, w), y) == Combine(Cross(a, y), s, Cross(u, y), d, Cross(w, y))
  {
    CrossCombine(y, a, s, u, d, w);
    CrossAnti(Combine(a, s, u, d, w), y);
    CrossAnti(a, y);
    CrossAnti(u, y);
    CrossAnti(w, y);
    CombineNegated(Cross(y, a), s, Cross(y, u), d, Cross(y, w));
    hide Cross, Combine, Times;
  }

  lemma CombineNegated(a: V3, s: real, u: V3, d: real, w: V3)
    ensures Times(-1.0, Combine(a, s, u, d, w)) == Combine(Times(-1.0, a), s, Times(-1.0, u), d, Times(-1.0, w))
  {
    NegatedCoordinate(a.x, s, u.x, d, w.x);
    NegatedCoordinate(a.y, s, u.y, d, w.y);
    NegatedCoordinate(a.z, s, u.z, d, w.z);
    hide Mul;
  }

  lemma NegatedCoordinate(a: real, s: real, u: real, d: real, w: real)
    ensures Mul(-1.0, a + Mul(s, u) + Mul(d, w)) == Mul(-1.0, a) + Mul(s, Mul(-1.0, u)) + Mul(d, Mul(-1.0, w))
  {}

  /** The cross product with k is a derivation of the cross product. */
  lemma Derivation(k: V3, a: V3, b: V3)
    ensures Cross(k, Cross(a, b)) == Plus(Cross(Cross(k, a), b), Cross(a, Cross(k, b)))
  {
    DerivationCoordinate(k.x, k.y, k.z, a.x, a.y, a.z, b.x, b.y, b.z);
    DerivationCoordinate(k.y, k.z, k.x, a.y, a.z, a.x, b.y, b.z, b.x);
    DerivationCoordinate(k.z, k.x, k.y, a.z, a.x, a.y, b.z, b.x, b.y);
    hide Area;
  }

  lemma DerivationCoordinate(p: real, q: real, r: real, a: real, b: real, c: real, e: real, f: real, g: real)
    ensures Area(q, r, Area(c, a, g, e), Area(a, b, e, f))
         == Area(Area(r, p, c, a), Area(p, q, a, b), f, g) + Area(b, c, Area(r, p, g, e), Area(p, q, e, f))
  {}

  lemma CrossSelf(k: V3, t: real)
    ensures Cross(k, Times(t, k)) == V3(0.0, 0.0, 0.0)
  {
    AreaSelf(k.y, k.z, t);
    AreaSelf(k.z, k.x, t);
    AreaSelf(k.x, k.y, t);
    hide Area, Mul;
  }

  lemma AreaSelf(p: real, q: real, t: real)
    ensures Area(p, q, Mul(t, p), Mul(t, q)) == 0.0
  {}

  lemma CrossOrthogonal(k: V3, v: V3)
    ensures Dot(k, Cross(k, v)) == 0.0 && Dot(v, Cross(k, v)) == 0.0
  {
    OrthogonalSum(k.x, k.y, k.z, v.x, v.y, v.z);
  }

  lemma OrthogonalSum(p: real, q: real, r: real, a: real, b: real, c: real)
    ensures p * (q * c - r * b) + q * (r * a - p * c) + r * (p * b - q * a) == 0.0
    ensures a * (q * c - r * b) + b * (r * a - p * c) + c * (p * b - q * a) == 0.0
  {}

  /** The vector triple product. */
  lemma TripleProduct(x: V3, k: V3, u: V3)
    ensures Cross(x, Cross(k, u)) == Plus(Times(Dot(x, u), k), Times(-Dot(x, k), u))
  {
    TripleCoordinate(x.x, x.y, x.z, k.x, k.y, k.z, u.x, u.y, u.z);
    TripleCoordinate(x.y, x.z, x.x, k.y, k.z, k.x, u.y, u.z, u.x);
    TripleCoordinate(x.z, x.x, x.y, k.z, k.x, k.y, u.z, u.x, u.y);
    SumRotates(x.x, u.x, x.y, u.y, x.z, u.z);
    SumRotates(x.y, u.y, x.z, u.z, x.x, u.x);
    SumRotates(x.x, k.x, x.y, k.y, x.z, k.z);
    SumRotates(x.y, k.y, x.z, k.z, x.x, k.x);
    hide Sum3, Area, Mul;
  }

  lemma TripleCoordinate(e: real, f: real, g: real, p: real, q: real, r: real, a: real, b: real, c: real)
    ensures Area(f, g, Area(r, p, c, a), Area(p, q, a, b))
         == Mul(Sum3(e, a, f, b, g, c), p) + Mul(-Sum3(e, p, f, q, g, r), a)
  {}

  /** The scalar triple product. */
  lemma ScalarTriple(k: V3, a: V3, b: V3)
    ensures Dot(Cross(k, a), b) == Dot(k, Cross(a, b))
  {
    ScalarTripleSum(k.x, k.y, k.z, a.x, a.y, a.z, b.x, b.y, b.z);
    hide Sum3, Area;
  }

  lemma ScalarTripleSum(p: real, q: real, r: real, a: real, b: real, c: real, e: real, f: real, g: real)
    ensures Sum3(Area(q, r, b, c), e, Area(r, p, c, a), f, Area(p, q, a, b), g)
         == Sum3(p, Area(b, c, f, g), q, Area(c, a, g, e), r, Area(a, b, e, f))
  {}

  lemma DotSymmetric(a: V3, b: V3)
    ensures Dot(a, b) == Dot(b, a)
  {}

  /** Two cross products with k span nothing but k. */
  lemma CrossOfCrosses(k: V3, a: V3, b: V3)
    ensures Cross(Cross(k, a), Cross(k, b)) == Times(Dot(k, Cross(a, b)), k)
  {
    TripleProduct(Cross(k, a), k, b);
    ScalarTriple(k, a, b);
    CrossOrthogonal(k, a);
    DotSymmetric(Cross(k, a), k);
    hide Cross, Dot;
  }

  lemma TwiceOrthogonal(k: V3, u: V3)
    requires Dot(k, k) == 1.0 && Dot(k, u) == 0.0
    ensures Cross(k, Cross(k, u)) == Times(-1.0, u)
  {
    TripleProduct(k, k, u);
    hide Dot, Cross;
  }

  /** Three cross products with a unit vector are the negative of one. */
  lemma CrossThrice(k: V3, v: V3)
    requires Dot(k, k) == 1.0
    ensures Cross(k, Cross(k, Cross(k, v))) == Times(-1.0, Cross(k, v))
  {
    CrossOrthogonal(k, v);
    TwiceOrthogonal(k, Cross(k, v));
  }
}
