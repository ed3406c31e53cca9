/** Triangle areas, barycentric coordinates and the point-in-triangle test. */
module Triangles {
  import opened Reals
  import opened Vectors
  import opened Shapes

  /** The normal `(b - a) × (c - a)` of a triangle. */
  function TriangleNormal(tri: Triangle): Vec3 {
    Cross(Sub(tri.b, tri.a), Sub(tri.c, tri.a))
  }

  /** The triangle has no normal: its vertices lie on one line. */
  predicate Degenerate(tri: Triangle) {
    TriangleNormal(tri) == Zero
  }

  /** `p1`, `p2` and `p3` lie on one line (or coincide). */
  predicate Collinear(p1: Vec3, p2: Vec3, p3: Vec3) {
    Degenerate(Triangle(p1, p2, p3))
  }

  /** The point with barycentric coordinates `(la, lb, lc)` in `tri`. */
  function Combination(tri: Triangle, la: real, lb: real, lc: real): Vec3 {
    Add(Add(Scale(tri.a, la), Scale(tri.b, lb)), Scale(tri.c, lc))
  }

  // ---------------------------------------------------------------------
  // Areas

  /** getTriangleArea(vec_a, vec_b): half the length of `a × b`, the area of
      the triangle with edges `a` and `b`; it vanishes exactly for parallel
      edges. */
  function TriangleAreaOfEdges(sqrt: real -> real, a: Vec3, b: Vec3): (r: real)
    requires IsSqrt(sqrt)
    ensures 0.0 <= r
    ensures r == 0.0 <==> Parallel(a, b)
  {
    0.5 * Length(sqrt, Cross(a, b))
  }

  /** The area's square is the Lagrange form `(|a|²|b|² - (a · b)²) / 4`,
      which needs no square root. */
  lemma TriangleAreaLagrange(sqrt: real -> real, a: Vec3, b: Vec3)
    requires IsSqrt(sqrt)
    ensures var r := TriangleAreaOfEdges(sqrt, a, b);
            4.0 * (r * r) == Dot(a, a) * Dot(b, b) - Dot(a, b) * Dot(a, b)
  {
    var l := Length(sqrt, Cross(a, b));
    Lagrange(a, b);
    HalfSquare(l);
  }

  /** `4 (l/2)² == l²` */
  lemma HalfSquare(l: real)
    ensures 4.0 * ((0.5 * l) * (0.5 * l)) == l * l
  {
  }

  /** The order of the two edges does not matter. */
  lemma TriangleAreaOfEdgesSymmetric(sqrt: real -> real, a: Vec3, b: Vec3)
    requires IsSqrt(sqrt)
    ensures TriangleAreaOfEdges(sqrt, a, b) == TriangleAreaOfEdges(sqrt, b, a)
  {
    CrossAnti(a, b);
    LengthNeg(sqrt, Cross(a, b));
  }

  /** getTriangleArea(pnt_1, pnt_2, pnt_3): the area from the edges
      `p1 - p2` and `p2 - p3`. It agrees with the textbook form built on the
      two edges leaving `p1`, and it vanishes exactly for collinear points. */
  function TriangleAreaOfPoints(sqrt: real -> real, p1: Vec3, p2: Vec3, p3: Vec3): (r: real)
    requires IsSqrt(sqrt)
    ensures r == TriangleAreaOfEdges(sqrt, Sub(p2, p1), Sub(p3, p1))
    ensures r == 0.0 <==> Collinear(p1, p2, p3)
  {
    EdgeCross(p1, p2, p3);
    TriangleAreaOfEdges(sqrt, Sub(p1, p2), Sub(p2, p3))
  }

  /** The cross product of the source's two edges is the cross product of
      the edges leaving `p1`. */
  lemma EdgeCross(p1: Vec3, p2: Vec3, p3: Vec3)
    ensures Cross(Sub(p1, p2), Sub(p2, p3)) == Cross(Sub(p2, p1), Sub(p3, p1))
  {
  }

  /** Rotating the three points leaves the area unchanged. */
  lemma TriangleAreaRotate(sqrt: real -> real, p1: Vec3, p2: Vec3, p3: Vec3)
    requires IsSqrt(sqrt)
    ensures TriangleAreaOfPoints(sqrt, p1, p2, p3) == TriangleAreaOfPoints(sqrt, p2, p3, p1)
  {
    EdgeCross(p1, p2, p3);
    EdgeCross(p2, p3, p1);
    assert Cross(Sub(p1, p2), Sub(p2, p3)) == Cross(Sub(p2, p3), Sub(p3, p1));
  }

  /** Swapping the first two points leaves the area unchanged; with the
      rotation this covers every order of the points. */
  lemma TriangleAreaSwap(sqrt: real -> real, p1: Vec3, p2: Vec3, p3: Vec3)
    requires IsSqrt(sqrt)
    ensures TriangleAreaOfPoints(sqrt, p1, p2, p3) == TriangleAreaOfPoints(sqrt, p2, p1, p3)
  {
    EdgeCross(p1, p2, p3);
    EdgeCross(p2, p1, p3);
    assert Cross(Sub(p2, p1), Sub(p1, p3)) == Neg(Cross(Sub(p1, p2), Sub(p2, p3)));
    LengthNeg(sqrt, Cross(Sub(p1, p2), Sub(p2, p3)));
  }

  /** A triangle with two equal points has no area. */
  lemma TriangleAreaRepeated(sqrt: real -> real, p: Vec3, q: Vec3)
    requires IsSqrt(sqrt)
    ensures TriangleAreaOfPoints(sqrt, p, p, q) == 0.0
    ensures TriangleAreaOfPoints(sqrt, p, q, p) == 0.0
    ensures TriangleAreaOfPoints(sqrt, q, p, p) == 0.0
  {
    assert Sub(p, p) == Zero;
    assert TriangleNormal(Triangle(p, p, q)) == Zero;
    assert TriangleNormal(Triangle(p, q, p)) == Zero;
    assert TriangleNormal(Triangle(q, p, p)) == Zero;
  }

  /** getTriangleArea(triangle): the area of the triangle's three points;
      it vanishes exactly for degenerate triangles. */
  function TriangleArea(sqrt: real -> real, tri: Triangle): (r: real)
    requires IsSqrt(sqrt)
    ensures 0.0 <= r
    ensures r == 0.0 <==> Degenerate(tri)
  {
    TriangleAreaOfPoints(sqrt, tri.a, tri.b, tri.c)
  }

  /** Starting the vertex list at another vertex keeps the area. */
  lemma TriangleAreaOfRotatedTriangle(sqrt: real -> real, tri: Triangle)
    requires IsSqrt(sqrt)
    ensures TriangleArea(sqrt, Triangle(tri.b, tri.c, tri.a)) == TriangleArea(sqrt, tri)
  {
    TriangleAreaRotate(sqrt, tri.a, tri.b, tri.c);
  }

  // ---------------------------------------------------------------------
  // Barycentric coordinates

  /** Adding a multiple of `u` to `w` does not change `u × w`. */
  lemma CrossShear(u: Vec3, w: Vec3, k: real, m: real)
    ensures Cross(u, Add(Scale(w, k), Scale(u, m))) == Scale(Cross(u, w), k)
  {
    CrossAddRight(u, Scale(w, k), Scale(u, m));
    CrossScaleRight(u, w, k);
    CrossScaleRight(u, u, m);
    assert Cross(u, u) == Zero;
  }

  /** Replacing the second edge `w` by `k w + m u` scales the area by `|k|`. */
  lemma AreaOfEdgesShear(sqrt: real -> real, u: Vec3, w: Vec3, k: real, m: real)
    requires IsSqrt(sqrt)
    ensures TriangleAreaOfEdges(sqrt, u, Add(Scale(w, k), Scale(u, m)))
         == Abs(k) * TriangleAreaOfEdges(sqrt, u, w)
  {
    CrossShear(u, w, k, m);
    LengthScale(sqrt, Cross(u, w), k);
  }

  /** The point with coordinates `(la, lb, 1 - la - lb)` seen from each vertex. */
  lemma CombinationOffsets(tri: Triangle, la: real, lb: real)
    ensures var p := Combination(tri, la, lb, 1.0 - la - lb);
            Sub(p, tri.b) == Add(Scale(Sub(tri.a, tri.b), la), Scale(Sub(tri.c, tri.b), 1.0 - la - lb))
            && Sub(p, tri.a) == Add(Scale(Sub(tri.b, tri.a), lb), Scale(Sub(tri.c, tri.a), 1.0 - la - lb))
            && Sub(p, tri.c) == Add(Scale(Sub(tri.b, tri.c), lb), Scale(Sub(tri.a, tri.c), la))
  {
    OffsetFrom(tri.b, tri.a, tri.c, la, lb, 1.0 - la - lb);
    OffsetFrom(tri.a, tri.b, tri.c, lb, la, 1.0 - la - lb);
    OffsetFrom(tri.c, tri.b, tri.a, lb, 1.0 - la - lb, la);
    assert Combination(tri, la, lb, 1.0 - la - lb)
        == Add(Add(Scale(tri.a, la), Scale(tri.b, lb)), Scale(tri.c, 1.0 - la - lb));
  }

  /** An affine combination `ku u + ko o + kw w` with weights summing to one,
      seen from `o`. */
  lemma OffsetFrom(o: Vec3, u: Vec3, w: Vec3, ku: real, ko: real, kw: real)
    requires ku + ko + kw == 1.0
    ensures Sub(Add(Add(Scale(u, ku), Scale(o, ko)), Scale(w, kw)), o)
         == Add(Scale(Sub(u, o), ku), Scale(Sub(w, o), kw))
  {
    assert ko == 1.0 - ku - kw;
  }

  /** Rotating the points keeps the source's edge cross product. */
  lemma EdgeCrossRotate(p1: Vec3, p2: Vec3, p3: Vec3)
    ensures Cross(Sub(p1, p2), Sub(p2, p3)) == Cross(Sub(p2, p3), Sub(p3, p1))
  {
  }

  /** The triangle's normal computed from the other two vertices. */
  lemma NormalRotations(tri: Triangle)
    ensures Cross(Sub(tri.c, tri.b), Sub(tri.a, tri.b)) == TriangleNormal(tri)
    ensures Cross(Sub(tri.a, tri.c), Sub(tri.b, tri.c)) == TriangleNormal(tri)
  {
    var a, b, c := tri.a, tri.b, tri.c;
    EdgeCross(b, c, a);
    EdgeCrossRotate(a, b, c);
    EdgeCross(a, b, c);
    EdgeCross(c, a, b);
    EdgeCrossRotate(b, c, a);
  }

  /** A point `p` whose offset from `b` is `k (a - b)` plus a multiple of
      `c - b` spans `|k|` times the area of `a, b, c` with `b` and `c`. */
  lemma SubAreaOfOffset(sqrt: real -> real, a: Vec3, b: Vec3, c: Vec3, p: Vec3, k: real, m: real)
    requires IsSqrt(sqrt)
    requires Sub(p, b) == Add(Scale(Sub(a, b), k), Scale(Sub(c, b), m))
    ensures TriangleAreaOfPoints(sqrt, p, b, c) == Abs(k) * TriangleAreaOfPoints(sqrt, a, b, c)
  {
    var u, w, v := Sub(c, b), Sub(a, b), Sub(p, b);
    calc {
      TriangleAreaOfPoints(sqrt, p, b, c);
    == { TriangleAreaRotate(sqrt, p, b, c); }
      TriangleAreaOfPoints(sqrt, b, c, p);
    ==
      TriangleAreaOfEdges(sqrt, u, v);
    == { AreaOfEdgesShear(sqrt, u, w, k, m); }
      Abs(k) * TriangleAreaOfEdges(sqrt, u, w);
    ==
      Abs(k) * TriangleAreaOfPoints(sqrt, b, c, a);
    == { TriangleAreaRotate(sqrt, a, b, c); }
      Abs(k) * TriangleAreaOfPoints(sqrt, a, b, c);
    }
  }

  /** The sub-triangle `p, b, c` has `|la|` times the triangle's area. */
  lemma SubAreaA(sqrt: real -> real, tri: Triangle, la: real, lb: real)
    requires IsSqrt(sqrt)
    ensures TriangleAreaOfPoints(sqrt, Combination(tri, la, lb, 1.0 - la - lb), tri.b, tri.c)
         == Abs(la) * TriangleArea(sqrt, tri)
  {
    var p := Combination(tri, la, lb, 1.0 - la - lb);
    CombinationOffsets(tri, la, lb);
    SubAreaOfOffset(sqrt, tri.a, tri.b, tri.c, p, la, 1.0 - la - lb);
  }

  /** The sub-triangle `p, a, c` has `|lb|` times the triangle's area. */
  lemma SubAreaB(sqrt: real -> real, tri: Triangle, la: real, lb: real)
    requires IsSqrt(sqrt)
    ensures TriangleAreaOfPoints(sqrt, Combination(tri, la, lb, 1.0 - la - lb), tri.a, tri.c)
         == Abs(lb) * TriangleArea(sqrt, tri)
  {
    var a, b, c := tri.a, tri.b, tri.c;
    var p := Combination(tri, la, lb, 1.0 - la - lb);
    CombinationOffsets(tri, la, lb);
    SubAreaOfOffset(sqrt, b, a, c, p, lb, 1.0 - la - lb);
    TriangleAreaSwap(sqrt, b, a, c);
  }

  /** GetPntBarCord: the barycentric coordinates of `point` as ratios of
      unsigned sub-triangle areas to the triangle's area; the third is what
      is left of one. A degenerate triangle makes the source divide by zero,
      so callers must not pass one. */
  function GetPntBarCord(sqrt: real -> real, point: Vec3, tri: Triangle): (r: Vec3)
    requires IsSqrt(sqrt)
    requires !Degenerate(tri)
    ensures r.x + r.y + r.z == 1.0
    ensures 0.0 <= r.x && 0.0 <= r.y
  {
    var area := TriangleArea(sqrt, tri);
    var ea := TriangleAreaOfPoints(sqrt, point, tri.b, tri.c);
    var eb := TriangleAreaOfPoints(sqrt, point, tri.a, tri.c);
    QuotientNonneg(ea, area);
    QuotientNonneg(eb, area);
    AreaRatios(area, ea, eb)
  }

  /** The coordinates from the two sub-areas `ea`, `eb` and the area: the
      ratios `ea / area`, `eb / area` and what is left of one. */
  function AreaRatios(area: real, ea: real, eb: real): Vec3
    requires area != 0.0
  {
    Vec3(ea / area, eb / area, 1.0 - ea / area - eb / area)
  }

  /** Sub-areas that are `ka` and `kb` times the triangle's area give the
      coordinates `(ka, kb, 1 - ka - kb)`. */
  lemma BarCordOfAreas(sqrt: real -> real, p: Vec3, tri: Triangle, ka: real, kb: real)
    requires IsSqrt(sqrt)
    requires !Degenerate(tri)
    requires TriangleAreaOfPoints(sqrt, p, tri.b, tri.c) == ka * TriangleArea(sqrt, tri)
    requires TriangleAreaOfPoints(sqrt, p, tri.a, tri.c) == kb * TriangleArea(sqrt, tri)
    ensures GetPntBarCord(sqrt, p, tri) == Vec3(ka, kb, 1.0 - ka - kb)
  {
    AreaRatiosOfMultiples(TriangleArea(sqrt, tri), TriangleAreaOfPoints(sqrt, p, tri.b, tri.c),
                          TriangleAreaOfPoints(sqrt, p, tri.a, tri.c), ka, kb);
  }

  /** Sub-areas `ka d` and `kb d` of an area `d` give the ratios `ka`, `kb`. */
  lemma AreaRatiosOfMultiples(d: real, ea: real, eb: real, ka: real, kb: real)
    requires d != 0.0 && ea == ka * d && eb == kb * d
    ensures AreaRatios(d, ea, eb) == Vec3(ka, kb, 1.0 - ka - kb)
  {
    DivUnique(ka, ea, d);
    DivUnique(kb, eb, d);
  }

  /** For a point of the triangle's plane with barycentric coordinates
      `(la, lb, 1 - la - lb)`, the source's coordinates are
      `(|la|, |lb|, 1 - |la| - |lb|)`: exact inside the triangle, but the
      signs of outside points are lost. */
  lemma GetPntBarCordOfCombination(sqrt: real -> real, tri: Triangle, la: real, lb: real)
    requires IsSqrt(sqrt)
    requires !Degenerate(tri)
    ensures GetPntBarCord(sqrt, Combination(tri, la, lb, 1.0 - la - lb), tri)
         == Vec3(Abs(la), Abs(lb), 1.0 - Abs(la) - Abs(lb))
  {
    SubAreaA(sqrt, tri, la, lb);
    SubAreaB(sqrt, tri, la, lb);
    BarCordOfCombinationAreas(sqrt, tri, la, lb);
  }

  /** `BarCordOfAreas` for the point with barycentric coordinates
      `(la, lb, 1 - la - lb)`. */
  lemma BarCordOfCombinationAreas(sqrt: real -> real, tri: Triangle, la: real, lb: real)
    requires IsSqrt(sqrt)
    requires !Degenerate(tri)
    requires TriangleAreaOfPoints(sqrt, Combination(tri, la, lb, 1.0 - la - lb), tri.b, tri.c)
          == Abs(la) * TriangleArea(sqrt, tri)
    requires TriangleAreaOfPoints(sqrt, Combination(tri, la, lb, 1.0 - la - lb), tri.a, tri.c)
          == Abs(lb) * TriangleArea(sqrt, tri)
    ensures GetPntBarCord(sqrt, Combination(tri, la, lb, 1.0 - la - lb), tri)
         == Vec3(Abs(la), Abs(lb), 1.0 - Abs(la) - Abs(lb))
  {
    BarCordOfAreas(sqrt, Combination(tri, la, lb, 1.0 - la - lb), tri, Abs(la), Abs(lb));
  }

  /** At vertex `a` the coordinates are `(1, 0, 0)`. */
  lemma GetPntBarCordAtA(sqrt: real -> real, tri: Triangle)
    requires IsSqrt(sqrt)
    requires !Degenerate(tri)
    ensures GetPntBarCord(sqrt, tri.a, tri) == Vec3(1.0, 0.0, 0.0)
  {
    assert Combination(tri, 1.0, 0.0, 1.0 - 1.0 - 0.0) == tri.a;
    GetPntBarCordOfCombination(sqrt, tri, 1.0, 0.0);
  }

  /** At vertex `b` the coordinates are `(0, 1, 0)`. */
  lemma GetPntBarCordAtB(sqrt: real -> real, tri: Triangle)
    requires IsSqrt(sqrt)
    requires !Degenerate(tri)
    ensures GetPntBarCord(sqrt, tri.b, tri) == Vec3(0.0, 1.0, 0.0)
  {
    assert Combination(tri, 0.0, 1.0, 1.0 - 0.0 - 1.0) == tri.b;
    GetPntBarCordOfCombination(sqrt, tri, 0.0, 1.0);
  }

  /** At vertex `c` the coordinates are `(0, 0, 1)`. */
  lemma GetPntBarCordAtC(sqrt: real -> real, tri: Triangle)
    requires IsSqrt(sqrt)
    requires !Degenerate(tri)
    ensures GetPntBarCord(sqrt, tri.c, tri) == Vec3(0.0, 0.0, 1.0)
  {
    TriangleAreaRepeated(sqrt, tri.c, tri.b);
    TriangleAreaRepeated(sqrt, tri.c, tri.a);
    var area := TriangleArea(sqrt, tri);
    assert TriangleAreaOfPoints(sqrt, tri.c, tri.b, tri.c) == 0.0 * area;
    assert TriangleAreaOfPoints(sqrt, tri.c, tri.a, tri.c) == 0.0 * area;
    BarCordOfAreas(sqrt, tri.c, tri, 0.0, 0.0);
  }

  /** pntInPlane: the point counts as inside when none of its three
      coordinates is below `EPSILON`. */
  function PntInPlane(sqrt: real -> real, pnt: Vec3, tri: Triangle): (r: bool)
    requires IsSqrt(sqrt)
    requires !Degenerate(tri)
    ensures r ==> 0.0 < GetPntBarCord(sqrt, pnt, tri).z < 1.0
  {
    var bar := GetPntBarCord(sqrt, pnt, tri);
    !(bar.x < Epsilon || bar.y < Epsilon || bar.z < Epsilon)
  }

  /** The vertices themselves are classified as outside. */
  lemma PntInPlaneVertices(sqrt: real -> real, tri: Triangle)
    requires IsSqrt(sqrt)
    requires !Degenerate(tri)
    ensures !PntInPlane(sqrt, tri.a, tri)
    ensures !PntInPlane(sqrt, tri.b, tri)
    ensures !PntInPlane(sqrt, tri.c, tri)
  {
    GetPntBarCordAtA(sqrt, tri);
    GetPntBarCordAtB(sqrt, tri);
    GetPntBarCordAtC(sqrt, tri);
  }

  /** For a point of the triangle's plane, the test accepts it exactly when
      `|la|`, `|lb|` and `1 - |la| - |lb|` all reach `EPSILON`. */
  lemma PntInPlaneOfCombination(sqrt: real -> real, tri: Triangle, la: real, lb: real)
    requires IsSqrt(sqrt)
    requires !Degenerate(tri)
    ensures PntInPlane(sqrt, Combination(tri, la, lb, 1.0 - la - lb), tri)
        <==> Abs(la) >= Epsilon && Abs(lb) >= Epsilon && 1.0 - Abs(la) - Abs(lb) >= Epsilon
  {
    GetPntBarCordOfCombination(sqrt, tri, la, lb);
  }

  /** `p` lies in the closed triangle: its barycentric coordinates are all
      non-negative. */
  ghost predicate InsideTriangle(p: Vec3, tri: Triangle) {
    exists la: real, lb: real, lc: real ::
      0.0 <= la && 0.0 <= lb && 0.0 <= lc && la + lb + lc == 1.0
      && p == Combination(tri, la, lb, lc)
  }

  /** The test as written accepts points outside the triangle: every
      non-degenerate triangle has a point of its plane with coordinates
      `(-0.1, 0.2, 0.9)`, which lies outside, and the test accepts it. */
  lemma PntInPlaneAcceptsOutside(sqrt: real -> real, tri: Triangle)
    requires IsSqrt(sqrt)
    requires !Degenerate(tri)
    ensures PntInPlane(sqrt, Combination(tri, -0.1, 0.2, 0.9), tri)
    ensures !InsideTriangle(Combination(tri, -0.1, 0.2, 0.9), tri)
  {
    var p := Combination(tri, -0.1, 0.2, 0.9);
    assert p == Combination(tri, -0.1, 0.2, 1.0 - (-0.1) - 0.2);
    PntInPlaneOfCombination(sqrt, tri, -0.1, 0.2);
    forall la: real, lb: real, lc: real | la + lb + lc == 1.0 && p == Combination(tri, la, lb, lc)
      ensures la == -0.1
    {
      BarycentricUnique(tri, la, lb, lc, -0.1, 0.2, 0.9);
    }
  }

  // ---------------------------------------------------------------------
  // Signed barycentric coordinates

  /** Barycentric coordinates from signed sub-triangle areas: each
      sub-triangle's cross product measured along the triangle's normal. */
  function SignedBarycentric(p: Vec3, tri: Triangle): (r: Vec3)
    requires !Degenerate(tri)
    ensures r.x + r.y + r.z == 1.0
  {
    var n := TriangleNormal(tri);
    var nn := Dot(n, n);
    DotSelf(n);
    var la := Dot(Cross(Sub(tri.c, tri.b), Sub(p, tri.b)), n) / nn;
    var lb := Dot(Cross(Sub(tri.a, tri.c), Sub(p, tri.c)), n) / nn;
    Vec3(la, lb, 1.0 - la - lb)
  }

  /** The signed coordinates recover the barycentric coordinates of every
      point of the triangle's plane, whatever their signs. */
  lemma SignedBarycentricOfCombination(tri: Triangle, la: real, lb: real)
    requires !Degenerate(tri)
    ensures SignedBarycentric(Combination(tri, la, lb, 1.0 - la - lb), tri)
         == Vec3(la, lb, 1.0 - la - lb)
  {
    var a, b, c := tri.a, tri.b, tri.c;
    var p := Combination(tri, la, lb, 1.0 - la - lb);
    var n := TriangleNormal(tri);
    var nn := Dot(n, n);
    DotSelf(n);
    var ea := Dot(Cross(Sub(c, b), Sub(p, b)), n);
    var eb := Dot(Cross(Sub(a, c), Sub(p, c)), n);
    SignedNumerators(tri, la, lb);
    DotScale(n, n, la);
    DotScale(n, n, lb);
    DivUnique(la, ea, nn);
    DivUnique(lb, eb, nn);
  }

  /** The cross products the signed coordinates measure are the triangle's
      normal scaled by the first two coordinates. */
  lemma SignedNumerators(tri: Triangle, la: real, lb: real)
    ensures var p := Combination(tri, la, lb, 1.0 - la - lb);
            Cross(Sub(tri.c, tri.b), Sub(p, tri.b)) == Scale(TriangleNormal(tri), la)
            && Cross(Sub(tri.a, tri.c), Sub(p, tri.c)) == Scale(TriangleNormal(tri), lb)
  {
    var a, b, c := tri.a, tri.b, tri.c;
    CombinationOffsets(tri, la, lb);
    NormalRotations(tri);
    CrossShear(Sub(c, b), Sub(a, b), la, 1.0 - la - lb);
    CrossShear(Sub(a, c), Sub(b, c), lb, la);
  }

  /** A point of a non-degenerate triangle's plane has only one set of
      barycentric coordinates. */
  lemma BarycentricUnique(tri: Triangle, la: real, lb: real, lc: real, ma: real, mb: real, mc: real)
    requires !Degenerate(tri)
    requires la + lb + lc == 1.0 && ma + mb + mc == 1.0
    requires Combination(tri, la, lb, lc) == Combination(tri, ma, mb, mc)
    ensures la == ma && lb == mb && lc == mc
  {
    assert lc == 1.0 - la - lb && mc == 1.0 - ma - mb;
    SignedBarycentricOfCombination(tri, la, lb);
    SignedBarycentricOfCombination(tri, ma, mb);
  }

  /** The corrected point-in-triangle test: all three signed coordinates
      reach `EPSILON`. */
  function PntInTriangle(pnt: Vec3, tri: Triangle): (r: bool)
    requires !Degenerate(tri)
    ensures r ==> SignedBarycentric(pnt, tri).z <= 1.0 - 2.0 * Epsilon
  {
    var bar := SignedBarycentric(pnt, tri);
    bar.x >= Epsilon && bar.y >= Epsilon && bar.z >= Epsilon
  }

  /** For a point of the triangle's plane, the corrected test accepts it
      exactly when its three barycentric coordinates reach `EPSILON`; so
      every accepted point of the plane lies inside the triangle. */
  lemma PntInTriangleOfCombination(tri: Triangle, la: real, lb: real)
    requires !Degenerate(tri)
    ensures PntInTriangle(Combination(tri, la, lb, 1.0 - la - lb), tri)
        <==> la >= Epsilon && lb >= Epsilon && 1.0 - la - lb >= Epsilon
    ensures PntInTriangle(Combination(tri, la, lb, 1.0 - la - lb), tri)
        ==> InsideTriangle(Combination(tri, la, lb, 1.0 - la - lb), tri)
  {
    SignedBarycentricOfCombination(tri, la, lb);
    assert la + lb + (1.0 - la - lb) == 1.0;
  }

  /** Moving a point along the triangle's normal does not change its signed
      coordinates: each cross product the coordinates measure changes by a
      vector orthogonal to the normal. */
  lemma SignedBarycentricAlongNormal(p: Vec3, tri: Triangle, t: real)
    requires !Degenerate(tri)
    ensures SignedBarycentric(Add(p, Scale(TriangleNormal(tri), t)), tri) == SignedBarycentric(p, tri)
  {
    var n := TriangleNormal(tri);
    var q := Add(p, Scale(n, t));
    assert Sub(q, tri.b) == Add(Sub(p, tri.b), Scale(n, t));
    assert Sub(q, tri.c) == Add(Sub(p, tri.c), Scale(n, t));
    NumeratorAlongNormal(Sub(tri.c, tri.b), Sub(p, tri.b), n, t);
    NumeratorAlongNormal(Sub(tri.a, tri.c), Sub(p, tri.c), n, t);
  }

  /** `(u × (w + t n)) · n == (u × w) · n` */
  lemma NumeratorAlongNormal(u: Vec3, w: Vec3, n: Vec3, t: real)
    ensures Dot(Cross(u, Add(w, Scale(n, t))), n) == Dot(Cross(u, w), n)
  {
    CrossAddRight(u, w, Scale(n, t));
    CrossScaleRight(u, n, t);
    CrossOrthogonal(u, n);
    DotAdd(Cross(u, w), Scale(Cross(u, n), t), n);
    DotScale(Cross(u, n), n, t);
  }

  /** The corrected test judges a point by its projection onto the
      triangle's plane: a point `t n` off the plane point with coordinates
      `(la, lb, 1 - la - lb)` is accepted exactly when those coordinates
      reach `EPSILON`. */
  lemma PntInTriangleAlongNormal(tri: Triangle, la: real, lb: real, t: real)
    requires !Degenerate(tri)
    ensures PntInTriangle(Add(Combination(tri, la, lb, 1.0 - la - lb), Scale(TriangleNormal(tri), t)), tri)
        <==> la >= Epsilon && lb >= Epsilon && 1.0 - la - lb >= Epsilon
  {
    SignedBarycentricAlongNormal(Combination(tri, la, lb, 1.0 - la - lb), tri, t);
    PntInTriangleOfCombination(tri, la, lb);
  }

  /** The centroid of every non-degenerate triangle is accepted by both
      tests: its coordinates `1/3` reach `EPSILON`. */
  lemma CentroidAccepted(sqrt: real -> real, tri: Triangle)
    requires IsSqrt(sqrt)
    requires !Degenerate(tri)
    ensures PntInPlane(sqrt, Combination(tri, 1.0 / 3.0, 1.0 / 3.0, 1.0 / 3.0), tri)
    ensures PntInTriangle(Combination(tri, 1.0 / 3.0, 1.0 / 3.0, 1.0 / 3.0), tri)
  {
    assert 1.0 - 1.0 / 3.0 - 1.0 / 3.0 == 1.0 / 3.0;
    PntInPlaneOfCombination(sqrt, tri, 1.0 / 3.0, 1.0 / 3.0);
    PntInTriangleOfCombination(tri, 1.0 / 3.0, 1.0 / 3.0);
  }

  /** Inside the triangle the source's unsigned coordinates and the signed
      ones agree, and so do the two tests. */
  lemma GetPntBarCordInside(sqrt: real -> real, tri: Triangle, la: real, lb: real)
    requires IsSqrt(sqrt)
    requires !Degenerate(tri)
    requires 0.0 <= la && 0.0 <= lb && 0.0 <= 1.0 - la - lb
    ensures var p := Combination(tri, la, lb, 1.0 - la - lb);
            GetPntBarCord(sqrt, p, tri) == SignedBarycentric(p, tri)
            && PntInPlane(sqrt, p, tri) == PntInTriangle(p, tri)
  {
    GetPntBarCordOfCombination(sqrt, tri, la, lb);
    SignedBarycentricOfCombination(tri, la, lb);
  }
}
