/** The value types of the helper class: lines, planes, triangles, spheres,
    the facing-direction enumeration and the `EPSILON` tolerance, with the
    four ways of building a plane. */
module Shapes {
  import opened Reals
  import opened Vectors

  /** Tolerance of the point-in-triangle test (`1e-4`). */
  const Epsilon: real := 0.0001

  /** How two vectors face each other; the source gives the members the
      codes 1, 2 and 3. */
  datatype FaceDirection = Same | Oppose | Perpendicular {
    function Code(): (c: int)
      ensures 1 <= c <= 3
      ensures c == 1 <==> this == Same
      ensures c == 2 <==> this == Oppose
      ensures c == 3 <==> this == Perpendicular
    {
      match this
      case Same => 1
      case Oppose => 2
      case Perpendicular => 3
    }
  }

  /** The line through `point` with direction `dir`. */
  datatype Line = Line(point: Vec3, dir: Vec3)

  /** The plane `normal · p + d == 0`. */
  datatype Plane = Plane(normal: Vec3, d: real)

  /** Vertices in counter-clockwise order. */
  datatype Triangle = Triangle(a: Vec3, b: Vec3, c: Vec3)

  datatype Sphere = Sphere(center: Vec3, radius: real)

  /** `p` satisfies the plane equation of `pln`. */
  predicate OnPlane(p: Vec3, pln: Plane) {
    Dot(pln.normal, p) + pln.d == 0.0
  }

  /** The points `base + t * dir` lie on the line. */
  function PointOnLine(line: Line, t: real): Vec3 {
    Add(line.point, Scale(line.dir, t))
  }

  /** `a` scaled by a positive factor points the same way as `a`. */
  lemma SameDirection(a: Vec3, s: real)
    requires a != Zero && s > 0.0
    ensures Parallel(Scale(a, s), a)
    ensures Dot(Scale(a, s), a) > 0.0
  {
    DotSelf(a);
    calc {
      Dot(Scale(a, s), a);
    ==
      s * Dot(a, a);
    >
      0.0;
    }
  }

  /** Plane through `point` with normal `normalVec`, the normal normalized. */
  function PlaneFromPointNormal(sqrt: real -> real, point: Vec3, normalVec: Vec3): (r: Plane)
    requires IsSqrt(sqrt)
    requires normalVec != Zero
    ensures OnPlane(point, r)
    ensures Dot(r.normal, r.normal) == 1.0
    ensures Parallel(r.normal, normalVec) && Dot(r.normal, normalVec) > 0.0
  {
    var n := Normalize(sqrt, normalVec);
    NormalizeUnit(sqrt, normalVec);
    SameDirection(normalVec, 1.0 / Length(sqrt, normalVec));
    Plane(n, -Dot(n, point))
  }

  /** The points of the point-normal plane are exactly those `q` with
      `q - point` orthogonal to `normalVec`. */
  lemma PointNormalPlaneMembers(sqrt: real -> real, point: Vec3, normalVec: Vec3, q: Vec3)
    requires IsSqrt(sqrt)
    requires normalVec != Zero
    ensures OnPlane(q, PlaneFromPointNormal(sqrt, point, normalVec))
        <==> Dot(normalVec, Sub(q, point)) == 0.0
  {
    var s := 1.0 / Length(sqrt, normalVec);
    NormalizeUnit(sqrt, normalVec);
    var pln := PlaneFromPointNormal(sqrt, point, normalVec);
    calc {
      Dot(pln.normal, q) + pln.d;
    ==
      Dot(Scale(normalVec, s), q) - Dot(Scale(normalVec, s), point);
    ==
      { DotScale(normalVec, q, s); DotScale(normalVec, point, s); }
      s * (Dot(normalVec, q) - Dot(normalVec, point));
    ==
      s * Dot(normalVec, Sub(q, point));
    }
    ProductZero(s, Dot(normalVec, Sub(q, point)));
  }

  /** Plane through three non-collinear points; the normal follows the
      right-hand rule on `p2 - p1`, `p3 - p1`. */
  function PlaneFromPoints(sqrt: real -> real, p1: Vec3, p2: Vec3, p3: Vec3): (r: Plane)
    requires IsSqrt(sqrt)
    requires Cross(Sub(p2, p1), Sub(p3, p1)) != Zero
    ensures OnPlane(p1, r) && OnPlane(p2, r) && OnPlane(p3, r)
    ensures Dot(r.normal, r.normal) == 1.0
    ensures Dot(r.normal, Cross(Sub(p2, p1), Sub(p3, p1))) > 0.0
  {
    var v1 := Sub(p2, p1);
    var v2 := Sub(p3, p1);
    CrossOrthogonal(v1, v2);
    PointNormalPlaneMembers(sqrt, p1, Cross(v1, v2), p2);
    PointNormalPlaneMembers(sqrt, p1, Cross(v1, v2), p3);
    PlaneFromPointNormal(sqrt, p1, Cross(v1, v2))
  }

  /** Plane through two intersecting lines `p1 + s * dir1` and `p2 + t * dir2`;
      only the first line's point is used. */
  function PlaneFromLines(sqrt: real -> real, p1: Vec3, dir1: Vec3, p2: Vec3, dir2: Vec3): (r: Plane)
    requires IsSqrt(sqrt)
    requires Cross(dir1, dir2) != Zero
    ensures OnPlane(p1, r) && OnPlane(Add(p1, dir1), r) && OnPlane(Add(p1, dir2), r)
    ensures Dot(r.normal, r.normal) == 1.0
    ensures Dot(r.normal, Cross(dir1, dir2)) > 0.0
  {
    CrossOrthogonal(dir1, dir2);
    assert Sub(Add(p1, dir1), p1) == dir1;
    assert Sub(Add(p1, dir2), p1) == dir2;
    PointNormalPlaneMembers(sqrt, p1, Cross(dir1, dir2), Add(p1, dir1));
    PointNormalPlaneMembers(sqrt, p1, Cross(dir1, dir2), Add(p1, dir2));
    PlaneFromPointNormal(sqrt, p1, Cross(dir1, dir2))
  }

  /** The second line's point `p2` is never read: it lies on the plane exactly
      when the two lines are coplanar, `(p2 - p1) · (dir1 × dir2) == 0`. */
  lemma PlaneFromLinesSecondPoint(sqrt: real -> real, p1: Vec3, dir1: Vec3, p2: Vec3, dir2: Vec3)
    requires IsSqrt(sqrt)
    requires Cross(dir1, dir2) != Zero
    ensures OnPlane(p2, PlaneFromLines(sqrt, p1, dir1, p2, dir2))
        <==> Dot(Cross(dir1, dir2), Sub(p2, p1)) == 0.0
  {
    PointNormalPlaneMembers(sqrt, p1, Cross(dir1, dir2), p2);
  }

  /** Plane through a line and a point off it; the normal follows the
      right-hand rule on the direction and `pointNotOnLine - pointOnLine`.
      In C++ this constructor has the same signature as the three-point one,
      so the class does not compile as written; the two get separate names
      here, and `PlaneFromPointsAsLineAndPoint` relates them. */
  function PlaneFromLineAndPoint(sqrt: real -> real, pointOnLine: Vec3, lineDirection: Vec3,
                                 pointNotOnLine: Vec3): (r: Plane)
    requires IsSqrt(sqrt)
    requires Cross(lineDirection, Sub(pointNotOnLine, pointOnLine)) != Zero
    ensures OnPlane(pointOnLine, r) && OnPlane(pointNotOnLine, r)
    ensures OnPlane(Add(pointOnLine, lineDirection), r)
    ensures Dot(r.normal, r.normal) == 1.0
    ensures Dot(r.normal, Cross(lineDirection, Sub(pointNotOnLine, pointOnLine))) > 0.0
  {
    var v := Sub(pointNotOnLine, pointOnLine);
    CrossOrthogonal(lineDirection, v);
    assert Sub(Add(pointOnLine, lineDirection), pointOnLine) == lineDirection;
    PointNormalPlaneMembers(sqrt, pointOnLine, Cross(lineDirection, v), pointNotOnLine);
    PointNormalPlaneMembers(sqrt, pointOnLine, Cross(lineDirection, v), Add(pointOnLine, lineDirection));
    PlaneFromPointNormal(sqrt, pointOnLine, Cross(lineDirection, v))
  }

  /** Every point of the given line lies on the line-and-point plane. */
  lemma LineInPlane(sqrt: real -> real, pointOnLine: Vec3, lineDirection: Vec3,
                    pointNotOnLine: Vec3, t: real)
    requires IsSqrt(sqrt)
    requires Cross(lineDirection, Sub(pointNotOnLine, pointOnLine)) != Zero
    ensures OnPlane(PointOnLine(Line(pointOnLine, lineDirection), t),
                    PlaneFromLineAndPoint(sqrt, pointOnLine, lineDirection, pointNotOnLine))
  {
    var v := Sub(pointNotOnLine, pointOnLine);
    var q := PointOnLine(Line(pointOnLine, lineDirection), t);
    CrossOrthogonal(lineDirection, v);
    calc {
      Dot(Cross(lineDirection, v), Sub(q, pointOnLine));
    ==
      { assert Sub(q, pointOnLine) == Scale(lineDirection, t); }
      Dot(Cross(lineDirection, v), Scale(lineDirection, t));
    ==
      { DotComm(Cross(lineDirection, v), Scale(lineDirection, t));
        DotScale(lineDirection, Cross(lineDirection, v), t);
        DotComm(lineDirection, Cross(lineDirection, v)); }
      t * Dot(Cross(lineDirection, v), lineDirection);
    ==
      0.0;
    }
    PointNormalPlaneMembers(sqrt, pointOnLine, Cross(lineDirection, v), q);
  }

  /** The three-point plane is the line-and-point plane of the line through
      `p1` and `p2` and the point `p3`. */
  lemma PlaneFromPointsAsLineAndPoint(sqrt: real -> real, p1: Vec3, p2: Vec3, p3: Vec3)
    requires IsSqrt(sqrt)
    requires Cross(Sub(p2, p1), Sub(p3, p1)) != Zero
    ensures PlaneFromPoints(sqrt, p1, p2, p3) == PlaneFromLineAndPoint(sqrt, p1, Sub(p2, p1), p3)
  {
  }
}
