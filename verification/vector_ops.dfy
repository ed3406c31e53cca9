/** The vector helpers of the class: projection, reflection, the point-line
    offset, the surface normal, the clamped cosine and sine of the angle
    between two vectors, and the facing direction. */
module VectorOps {
  import opened Reals
  import opened Vectors
  import opened Shapes

  // ---------------------------------------------------------------------
  // Projection

  /** vecProj: the projection of `b` onto the axis `a` (EngineHelper.cpp),
      computed through the normalized axis. A zero axis makes glm's
      normalize divide by zero, so callers must not pass one. The result is
      `b`'s coefficient along `a` times `a`, and what is left of `b` is
      orthogonal to `a`. */
  function VecProj(sqrt: real -> real, a: Vec3, b: Vec3): (r: Vec3)
    requires IsSqrt(sqrt)
    requires a != Zero
    ensures Dot(a, a) > 0.0 && r == Scale(a, Dot(a, b) / Dot(a, a))
    ensures Dot(Sub(b, r), a) == 0.0
  {
    var aHat := Normalize(sqrt, a);
    NormalizedProjection(sqrt, a, b);
    ProjectionResidue(a, b, Dot(a, b) / Dot(a, a));
    Scale(aHat, Dot(aHat, b))
  }

  /** Scaling the unit axis by `b`'s component along it is scaling `a` by
      `(a · b) / (a · a)`. */
  lemma NormalizedProjection(sqrt: real -> real, a: Vec3, b: Vec3)
    requires IsSqrt(sqrt)
    requires a != Zero
    ensures Dot(a, a) > 0.0
    ensures var aHat := Normalize(sqrt, a);
            Scale(aHat, Dot(aHat, b)) == Scale(a, Dot(a, b) / Dot(a, a))
  {
    DotSelf(a);
    NormalizeUnit(sqrt, a);
    ScaledAxisProjection(a, Normalize(sqrt, a), b, 1.0 / Length(sqrt, a));
  }

  /** The same for any unit axis `aHat == s a`. */
  lemma ScaledAxisProjection(a: Vec3, aHat: Vec3, b: Vec3, s: real)
    requires aHat == Scale(a, s) && Dot(aHat, aHat) == 1.0
    ensures Dot(a, a) != 0.0
    ensures Scale(aHat, Dot(aHat, b)) == Scale(a, Dot(a, b) / Dot(a, a))
  {
    var d, e := Dot(a, a), Dot(a, b);
    var m := s * e;
    DotScaleSelf(a, s);
    assert s * s * d == Dot(aHat, aHat);
    InverseSquare(s, d, e, m);
    DotScale(a, b, s);
    assert Dot(aHat, b) == Dot(Scale(a, s), b) == m;
    calc {
      Scale(aHat, Dot(aHat, b));
    ==
      Scale(aHat, m);
    == { ScaleScale(a, aHat, s, m); }
      Scale(a, m * s);
    ==
      Scale(a, e / d);
    }
  }

  /** `b - k a` is orthogonal to `a` for the projection coefficient `k`. */
  lemma ProjectionResidue(a: Vec3, b: Vec3, k: real)
    requires Dot(a, a) != 0.0
    requires k == Dot(a, b) / Dot(a, a)
    ensures Dot(Sub(b, Scale(a, k)), a) == 0.0
  {
    calc {
      Dot(Sub(b, Scale(a, k)), a);
    ==
      { DotSub(b, Scale(a, k), a); DotScale(a, a, k); }
      Dot(b, a) - k * Dot(a, a);
    ==
      { DivMul(Dot(a, b), Dot(a, a)); }
      0.0;
    }
  }

  /** Rescaling the projection axis by `k` leaves the coefficient of the
      original axis unchanged. */
  lemma RescaledCoefficient(k: real, e: real, d: real, m: real)
    requires k != 0.0 && d != 0.0
    requires m == (k * e) / (k * k * d)
    ensures m * k == e / d
  {
  }

  /** Rescaling the axis by any non-zero `k` does not change the projection. */
  lemma VecProjRescale(sqrt: real -> real, a: Vec3, b: Vec3, k: real)
    requires IsSqrt(sqrt)
    requires a != Zero && k != 0.0
    ensures Scale(a, k) != Zero
    ensures VecProj(sqrt, Scale(a, k), b) == VecProj(sqrt, a, b)
  {
    DotSelf(a);
    ScaleNonzero(a, k);
    ProjectionRescale(a, b, k);
  }

  /** The projection coefficient formula gives the same vector for the axis
      `a` and the axis `k a`. */
  lemma ProjectionRescale(a: Vec3, b: Vec3, k: real)
    requires Dot(a, a) != 0.0 && k != 0.0
    ensures Dot(Scale(a, k), Scale(a, k)) != 0.0
    ensures var ka := Scale(a, k);
            Scale(ka, Dot(ka, b) / Dot(ka, ka)) == Scale(a, Dot(a, b) / Dot(a, a))
  {
    var ka := Scale(a, k);
    DotScaleSelf(a, k);
    DotScale(a, b, k);
    var e := Dot(a, b);
    var d := Dot(a, a);
    ProductZero(k, k);
    ProductZero(k * k, d);
    var m := (k * e) / (k * k * d);
    calc {
      Scale(ka, Dot(ka, b) / Dot(ka, ka));
      { assert Dot(ka, b) == k * e && Dot(ka, ka) == k * k * d; }
      Scale(ka, m);
      { ScaleScale(a, ka, k, m); }
      Scale(a, m * k);
      { RescaledCoefficient(k, e, d, m); }
      Scale(a, e / d);
    }
  }

  /** A vector already on the axis is its own projection, so projecting twice
      is projecting once. */
  lemma VecProjOfParallel(sqrt: real -> real, a: Vec3, t: real)
    requires IsSqrt(sqrt)
    requires a != Zero
    ensures VecProj(sqrt, a, Scale(a, t)) == Scale(a, t)
  {
    DotSelf(a);
    DotComm(a, Scale(a, t));
    DotScale(a, a, t);
    DivUnique(t, Dot(a, Scale(a, t)), Dot(a, a));
  }

  lemma VecProjIdempotent(sqrt: real -> real, a: Vec3, b: Vec3)
    requires IsSqrt(sqrt)
    requires a != Zero
    ensures VecProj(sqrt, a, VecProj(sqrt, a, b)) == VecProj(sqrt, a, b)
  {
    DotSelf(a);
    VecProjOfParallel(sqrt, a, Dot(a, b) / Dot(a, a));
  }

  // ---------------------------------------------------------------------
  // Reflection

  /** vecReflection: `v` mirrored in the plane orthogonal to `n`, i.e. `v`
      minus twice its projection onto `n`. The component along `n` changes
      sign. */
  function VecReflection(sqrt: real -> real, v: Vec3, n: Vec3): (r: Vec3)
    requires IsSqrt(sqrt)
    requires n != Zero
    ensures Dot(r, n) == -Dot(v, n)
  {
    var p := VecProj(sqrt, n, v);
    DotSub(v, Scale(p, 2.0), n);
    DotScale(p, n, 2.0);
    DotSub(v, p, n);
    Sub(v, Scale(p, 2.0))
  }

  /** Reflection keeps the part of `v` orthogonal to `n`. */
  lemma ReflectionKeepsTangent(sqrt: real -> real, v: Vec3, n: Vec3)
    requires IsSqrt(sqrt)
    requires n != Zero
    ensures var r := VecReflection(sqrt, v, n);
            Sub(r, VecProj(sqrt, n, r)) == Sub(v, VecProj(sqrt, n, v))
  {
    ReflectedProjection(sqrt, v, n);
  }

  /** The projection of the reflection is the negated projection. */
  lemma ReflectedProjection(sqrt: real -> real, v: Vec3, n: Vec3)
    requires IsSqrt(sqrt)
    requires n != Zero
    ensures VecProj(sqrt, n, VecReflection(sqrt, v, n)) == Neg(VecProj(sqrt, n, v))
  {
    var r := VecReflection(sqrt, v, n);
    DotComm(r, n);
    DotComm(v, n);
    calc {
      VecProj(sqrt, n, r);
      Scale(n, Dot(n, r) / Dot(n, n));
    == { QuotientNeg(Dot(n, v), Dot(n, n)); }
      Scale(n, -(Dot(n, v) / Dot(n, n)));
    == { ScaleNegated(n, Dot(n, v) / Dot(n, n)); }
      Neg(Scale(n, Dot(n, v) / Dot(n, n)));
      Neg(VecProj(sqrt, n, v));
    }
  }

  /** Reflecting twice in the same normal gives back the original vector. */
  lemma ReflectionInvolution(sqrt: real -> real, v: Vec3, n: Vec3)
    requires IsSqrt(sqrt)
    requires n != Zero
    ensures VecReflection(sqrt, VecReflection(sqrt, v, n), n) == v
  {
    ReflectedProjection(sqrt, v, n);
  }

  /** Reflection preserves length. */
  lemma ReflectionLength(sqrt: real -> real, v: Vec3, n: Vec3)
    requires IsSqrt(sqrt)
    requires n != Zero
    ensures Length(sqrt, VecReflection(sqrt, v, n)) == Length(sqrt, v)
  {
    var p := VecProj(sqrt, n, v);
    var w := Sub(v, p);
    // v = w + p and r = w - p with w orthogonal to p
    assert v == Add(w, p);
    assert VecReflection(sqrt, v, n) == Add(w, Neg(p));
    var k := Dot(n, v) / Dot(n, n);
    assert Dot(w, n) == 0.0;
    DotScale(n, w, k);
    DotComm(n, w);
    OrthogonalMirror(w, p);
  }

  /** Flipping one of two orthogonal parts keeps the squared length. */
  lemma OrthogonalMirror(w: Vec3, p: Vec3)
    requires Dot(w, p) == 0.0
    ensures Dot(Add(w, Neg(p)), Add(w, Neg(p))) == Dot(Add(w, p), Add(w, p))
  {
    Pythagoras(w, p);
    Pythagoras(w, Neg(p));
  }

  /** Orthogonal vectors add their squared lengths. */
  lemma Pythagoras(u: Vec3, w: Vec3)
    requires Dot(u, w) == 0.0
    ensures Dot(Add(u, w), Add(u, w)) == Dot(u, u) + Dot(w, w)
  {
  }

  // ---------------------------------------------------------------------
  // Point and line

  /** The result of PntLineRelation: the distance from the point to the line
      and the vector from the point to its foot on the line. */
  datatype LineOffset = LineOffset(distance: real, perp: Vec3)

  /** `p` is a point of `line`. */
  ghost predicate OnLine(p: Vec3, line: Line) {
    exists t: real :: p == PointOnLine(line, t)
  }

  /** PntLineRelation: the offset from `pnt` to the line is the part of
      `line.point - pnt` orthogonal to the direction; adding it to `pnt`
      lands on the line, and the distance is its length. A zero direction
      makes the projection divide by zero, so callers must not pass one. */
  function PntLineRelation(sqrt: real -> real, pnt: Vec3, line: Line): (r: LineOffset)
    requires IsSqrt(sqrt)
    requires line.dir != Zero
    ensures Dot(r.perp, line.dir) == 0.0
    ensures OnLine(Add(pnt, r.perp), line)
    ensures r.distance == Length(sqrt, r.perp)
  {
    var b := Sub(line.point, pnt);
    var ba := VecProj(sqrt, line.dir, b);
    var bperp := Sub(b, ba);
    var k := Dot(line.dir, b) / Dot(line.dir, line.dir);
    assert bperp == Sub(b, Scale(line.dir, k));
    ResidueOnLine(pnt, line, k);
    LineOffset(Length(sqrt, bperp), bperp)
  }

  /** Adding to `pnt` the offset to the line's point less `k dir` lands on
      the line at parameter `-k`. */
  lemma ResidueOnLine(pnt: Vec3, line: Line, k: real)
    ensures Add(pnt, Sub(Sub(line.point, pnt), Scale(line.dir, k))) == PointOnLine(line, -k)
  {
  }

  /** The distance is zero exactly for points on the line. */
  lemma PntLineDistanceZero(sqrt: real -> real, pnt: Vec3, line: Line)
    requires IsSqrt(sqrt)
    requires line.dir != Zero
    ensures PntLineRelation(sqrt, pnt, line).distance == 0.0 <==> OnLine(pnt, line)
  {
    var r := PntLineRelation(sqrt, pnt, line);
    if OnLine(pnt, line) {
      var t :| pnt == PointOnLine(line, t);
      var b := Sub(line.point, pnt);
      assert b == Scale(line.dir, -t);
      VecProjOfParallel(sqrt, line.dir, -t);
      assert r.perp == Zero;
    }
    if r.distance == 0.0 {
      assert r.perp == Zero;
      assert Add(pnt, r.perp) == pnt;
    }
  }

  /** The distance is the least distance from `pnt` to any point of the line. */
  lemma PntLineDistanceMinimal(sqrt: real -> real, pnt: Vec3, line: Line, t: real)
    requires IsSqrt(sqrt)
    requires line.dir != Zero
    ensures var r := PntLineRelation(sqrt, pnt, line);
            var q := Sub(PointOnLine(line, t), pnt);
            r.distance * r.distance <= Dot(q, q)
  {
    var r := PntLineRelation(sqrt, pnt, line);
    var b := Sub(line.point, pnt);
    var k := Dot(line.dir, b) / Dot(line.dir, line.dir);
    assert r.perp == Sub(b, Scale(line.dir, k));
    ShiftAlong(b, line.dir, k, t);
    assert Sub(PointOnLine(line, t), pnt) == Add(r.perp, Scale(line.dir, k + t));
    OrthogonalShiftBound(r.perp, line.dir, k + t);
  }

  /** Moving the residue `b - k d` by `(k + t) d` reaches `b + t d`. */
  lemma ShiftAlong(b: Vec3, d: Vec3, k: real, t: real)
    ensures Add(Sub(b, Scale(d, k)), Scale(d, k + t)) == Add(b, Scale(d, t))
  {
  }

  /** Adding a multiple of a direction orthogonal to `p` cannot shorten `p`. */
  lemma OrthogonalShiftBound(p: Vec3, d: Vec3, s: real)
    requires Dot(p, d) == 0.0
    ensures Dot(p, p) <= Dot(Add(p, Scale(d, s)), Add(p, Scale(d, s)))
  {
    var w := Scale(d, s);
    DotSelf(w);
    DotScale(d, p, s);
    DotComm(d, p);
    DotComm(w, p);
    Pythagoras(p, w);
  }

  // ---------------------------------------------------------------------
  // Surface normal

  /** findSurfaceNorm: the unit normal of the plane spanned by `a` and `b`,
      by the right-hand rule. Parallel vectors make glm's normalize divide
      by zero, so callers must not pass them. */
  function FindSurfaceNorm(sqrt: real -> real, a: Vec3, b: Vec3): (r: Vec3)
    requires IsSqrt(sqrt)
    requires !Parallel(a, b)
    ensures Dot(r, r) == 1.0
    ensures Dot(r, a) == 0.0 && Dot(r, b) == 0.0
    ensures Dot(r, Cross(a, b)) > 0.0
  {
    var c := Cross(a, b);
    var s := 1.0 / Length(sqrt, c);
    NormalizeUnit(sqrt, c);
    CrossOrthogonal(a, b);
    DotScale(c, a, s);
    DotScale(c, b, s);
    SameDirection(c, s);
    Normalize(sqrt, c)
  }

  /** Swapping the two vectors flips the normal. */
  lemma FindSurfaceNormSwap(sqrt: real -> real, a: Vec3, b: Vec3)
    requires IsSqrt(sqrt)
    requires !Parallel(a, b)
    ensures !Parallel(b, a)
    ensures FindSurfaceNorm(sqrt, b, a) == Neg(FindSurfaceNorm(sqrt, a, b))
  {
    CrossAnti(a, b);
    NormalizeNeg(sqrt, Cross(a, b));
  }

  // ---------------------------------------------------------------------
  // Angles

  /** glm::clamp */
  function Clamp(x: real, lo: real, hi: real): (r: real)
    requires lo <= hi
    ensures lo <= r <= hi
    ensures lo <= x <= hi ==> r == x
  {
    if x < lo then lo else if x > hi then hi else x
  }

  /** Cauchy-Schwarz, `|a · b| <= |a| |b|`, and its companion
      `|a × b| <= |a| |b|`, both from Lagrange's identity. */
  lemma CauchySchwarz(sqrt: real -> real, a: Vec3, b: Vec3)
    requires IsSqrt(sqrt)
    ensures -(Length(sqrt, a) * Length(sqrt, b)) <= Dot(a, b) <= Length(sqrt, a) * Length(sqrt, b)
    ensures Length(sqrt, Cross(a, b)) <= Length(sqrt, a) * Length(sqrt, b)
  {
    DotBound(sqrt, a, b);
    CrossBound(sqrt, a, b);
  }

  lemma DotBound(sqrt: real -> real, a: Vec3, b: Vec3)
    requires IsSqrt(sqrt)
    ensures -(Length(sqrt, a) * Length(sqrt, b)) <= Dot(a, b) <= Length(sqrt, a) * Length(sqrt, b)
  {
    var la := Length(sqrt, a);
    var lb := Length(sqrt, b);
    var e, da, db := Dot(a, b), Dot(a, a), Dot(b, b);
    assert la * la == da && lb * lb == db;
    DotSquareBound(a, b);
    SquareBoundByProduct(e, da, db, la, lb);
  }

  lemma CrossBound(sqrt: real -> real, a: Vec3, b: Vec3)
    requires IsSqrt(sqrt)
    ensures Length(sqrt, Cross(a, b)) <= Length(sqrt, a) * Length(sqrt, b)
  {
    CrossSquareBound(a, b);
    LengthBoundOfSquares(sqrt, Cross(a, b), a, b);
  }

  /** `(a · b)² <= |a|² |b|²`, which needs no square root. */
  lemma DotSquareBound(a: Vec3, b: Vec3)
    ensures Dot(a, b) * Dot(a, b) <= Dot(a, a) * Dot(b, b)
  {
    Lagrange(a, b);
    DotSelf(Cross(a, b));
  }

  /** `|a × b|² <= |a|² |b|²`, which needs no square root. */
  lemma CrossSquareBound(a: Vec3, b: Vec3)
    ensures Dot(Cross(a, b), Cross(a, b)) <= Dot(a, a) * Dot(b, b)
  {
    var e := Dot(a, b);
    Lagrange(a, b);
    SquareNonneg(e);
  }

  /** getCos: the cosine of the angle between two non-zero vectors, clamped
      to `[-1, 1]`. Over the reals the clamp never changes the quotient. */
  function GetCos(sqrt: real -> real, a: Vec3, b: Vec3): (r: real)
    requires IsSqrt(sqrt)
    requires a != Zero && b != Zero
    ensures -1.0 <= r <= 1.0
    ensures r * (Length(sqrt, a) * Length(sqrt, b)) == Dot(a, b)
  {
    var la := Length(sqrt, a);
    var lb := Length(sqrt, b);
    var e := Dot(a, b);
    DotBound(sqrt, a, b);
    QuotientBound(e, la, lb);
    Clamp(e / (la * lb), -1.0, 1.0)
  }

  /** getSin: the sine of the angle between two non-zero vectors, clamped to
      `[-1, 1]`; it is never negative and the clamp never changes it. */
  function GetSin(sqrt: real -> real, a: Vec3, b: Vec3): (r: real)
    requires IsSqrt(sqrt)
    requires a != Zero && b != Zero
    ensures 0.0 <= r <= 1.0
    ensures r * (Length(sqrt, a) * Length(sqrt, b)) == Length(sqrt, Cross(a, b))
  {
    var la := Length(sqrt, a);
    var lb := Length(sqrt, b);
    var lc := Length(sqrt, Cross(a, b));
    CrossBound(sqrt, a, b);
    RatioBound(lc, la, lb);
    Clamp(lc / (la * lb), -1.0, 1.0)
  }

  /** The clamped cosine and sine still satisfy `cos² + sin² == 1`. */
  lemma CosSinIdentity(sqrt: real -> real, a: Vec3, b: Vec3)
    requires IsSqrt(sqrt)
    requires a != Zero && b != Zero
    ensures var c := GetCos(sqrt, a, b);
            var s := GetSin(sqrt, a, b);
            c * c + s * s == 1.0
  {
    CosSinOfRatios(sqrt, a, b, GetCos(sqrt, a, b), GetSin(sqrt, a, b));
  }

  /** Any `c` and `s` that scale `|a| |b|` to `a · b` and `|a × b|` satisfy
      `c² + s² == 1`. */
  lemma CosSinOfRatios(sqrt: real -> real, a: Vec3, b: Vec3, c: real, s: real)
    requires IsSqrt(sqrt)
    requires a != Zero && b != Zero
    requires c * (Length(sqrt, a) * Length(sqrt, b)) == Dot(a, b)
    requires s * (Length(sqrt, a) * Length(sqrt, b)) == Length(sqrt, Cross(a, b))
    ensures c * c + s * s == 1.0
  {
    var la := Length(sqrt, a);
    var lb := Length(sqrt, b);
    var lc := Length(sqrt, Cross(a, b));
    var e, da, db := Dot(a, b), Dot(a, a), Dot(b, b);
    assert la * la == da && lb * lb == db;
    SineSquare(sqrt, a, b);
    UnitPair(c, s, la, lb, e, lc, da, db);
  }

  /** Lagrange's identity in lengths: `|a × b|² + (a · b)² == |a|² |b|²`. */
  lemma SineSquare(sqrt: real -> real, a: Vec3, b: Vec3)
    requires IsSqrt(sqrt)
    ensures var lc := Length(sqrt, Cross(a, b));
            var e := Dot(a, b);
            e * e + lc * lc == Dot(a, a) * Dot(b, b)
  {
    Lagrange(a, b);
  }

  /** The real-number core of `cos² + sin² == 1`: if `c` and `s` times
      `p == la lb` are `e` and `f`, and `e² + f² == p²`, then
      `c² + s² == 1`. */
  lemma UnitPair(c: real, s: real, la: real, lb: real, e: real, f: real, da: real, db: real)
    requires 0.0 < la && 0.0 < lb
    requires la * la == da && lb * lb == db
    requires c * (la * lb) == e && s * (la * lb) == f
    requires e * e + f * f == da * db
    ensures c * c + s * s == 1.0
  {
    assert (la * la) * (lb * lb) == da * db;
    assert la * lb > 0.0;
    calc {
      (c * c + s * s) * ((la * lb) * (la * lb));
      (c * (la * lb)) * (c * (la * lb)) + (s * (la * lb)) * (s * (la * lb));
      e * e + f * f;
      (la * lb) * (la * lb);
    }
    CancelSquare(c * c + s * s, la * lb);
  }

  // ---------------------------------------------------------------------
  // Facing direction

  /** faceDirection: the sign of the dot product. */
  function FaceDirectionOf(a: Vec3, b: Vec3): (r: FaceDirection)
    ensures r == Oppose <==> Dot(a, b) < 0.0
    ensures r == Perpendicular <==> Dot(a, b) == 0.0
    ensures r == Same <==> Dot(a, b) > 0.0
  {
    if Dot(a, b) < 0.0 then Oppose
    else if Dot(a, b) == 0.0 then Perpendicular
    else Same
  }

  /** The facing direction does not depend on the order of the vectors. */
  lemma FaceDirectionSymmetric(a: Vec3, b: Vec3)
    ensures FaceDirectionOf(a, b) == FaceDirectionOf(b, a)
  {
    DotComm(a, b);
  }
}
