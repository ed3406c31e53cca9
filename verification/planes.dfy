/** Points on a plane and the distance of a point from a plane. */
module Planes {
  import opened Reals
  import opened Vectors
  import opened Shapes

  /** getPntOnPln: a point of the plane `A x + B y + C z + D == 0`. It solves
      for `z` when `C` is non-zero, else for `y` when `B` is, else for `x`,
      and sets the other two coordinates to one. The source reaches no
      `return` for an all-zero normal, so callers must not pass one. */
  function GetPntOnPln(pln: Plane): (r: Vec3)
    requires pln.normal != Zero
    ensures OnPlane(r, pln)
    ensures pln.normal.z != 0.0 ==> r.x == 1.0 && r.y == 1.0
    ensures pln.normal.z == 0.0 && pln.normal.y != 0.0 ==> r.x == 1.0 && r.z == 1.0
    ensures pln.normal.z == 0.0 && pln.normal.y == 0.0 ==> r.y == 1.0 && r.z == 1.0
  {
    var a, b, c, d := pln.normal.x, pln.normal.y, pln.normal.z, pln.d;
    if c != 0.0 then
      var e := -(a * 1.0 + b * 1.0 + d);
      DivMul(e, c);
      Vec3(1.0, 1.0, e / c)
    else if b != 0.0 then
      var e := -(a * 1.0 + c * 1.0 + d);
      DivMul(e, b);
      Vec3(1.0, e / b, 1.0)
    else
      var e := -(b * 1.0 + c * 1.0 + d);
      DivMul(e, a);
      Vec3(e / a, 1.0, 1.0)
  }

  /** The point is the only point of the plane with the two coordinates the
      source fixes at one. */
  lemma GetPntOnPlnUnique(pln: Plane, q: Vec3)
    requires pln.normal != Zero
    requires OnPlane(q, pln)
    ensures pln.normal.z != 0.0 && q.x == 1.0 && q.y == 1.0 ==> q == GetPntOnPln(pln)
    ensures pln.normal.z == 0.0 && pln.normal.y != 0.0 && q.x == 1.0 && q.z == 1.0
            ==> q == GetPntOnPln(pln)
    ensures pln.normal.z == 0.0 && pln.normal.y == 0.0 && q.y == 1.0 && q.z == 1.0
            ==> q == GetPntOnPln(pln)
  {
    var a, b, c, d := pln.normal.x, pln.normal.y, pln.normal.z, pln.d;
    if c != 0.0 && q.x == 1.0 && q.y == 1.0 {
      DivUnique(q.z, -(a * 1.0 + b * 1.0 + d), c);
    } else if c == 0.0 && b != 0.0 && q.x == 1.0 && q.z == 1.0 {
      DivUnique(q.y, -(a * 1.0 + c * 1.0 + d), b);
    } else if c == 0.0 && b == 0.0 && q.y == 1.0 && q.z == 1.0 {
      DivUnique(q.x, -(b * 1.0 + c * 1.0 + d), a);
    }
  }

  /** distance: `|(pnt - q) · normal|` for the point `q` the plane yields.
      Whatever point the plane yields, this is `|normal · pnt + d|`; it is
      zero exactly for the points of the plane. */
  function Distance(pnt: Vec3, pln: Plane): (r: real)
    requires pln.normal != Zero
    ensures r == Abs(Dot(pln.normal, pnt) + pln.d)
    ensures r >= 0.0 && (r == 0.0 <==> OnPlane(pnt, pln))
  {
    var q := GetPntOnPln(pln);
    var v := Sub(pnt, q);
    DotSub(pnt, q, pln.normal);
    DotComm(pnt, pln.normal);
    DotComm(q, pln.normal);
    Abs(Dot(v, pln.normal))
  }

  /** `(n · v)² <= |v|²` for a unit vector `n`. */
  lemma UnitProjectionBound(n: Vec3, v: Vec3)
    requires Dot(n, n) == 1.0
    ensures Dot(n, v) * Dot(n, v) <= Dot(v, v)
  {
    var c := Cross(n, v);
    UnitLagrange(n, v);
    DotSelf(c);
  }

  /** Lagrange's identity for a unit `n`: `|n × v|² = |v|² - (n · v)²`. */
  lemma UnitLagrange(n: Vec3, v: Vec3)
    requires Dot(n, n) == 1.0
    ensures Dot(Cross(n, v), Cross(n, v)) == Dot(v, v) - Dot(n, v) * Dot(n, v)
  {
    Lagrange(n, v);
  }

  /** For a unit normal `n`, no point `q` of the plane `n · p + d == 0` is
      closer to `pnt` than `|n · pnt + d|`, the value of `Distance`: it is the
      Euclidean distance from the plane. */
  lemma DistanceMinimal(pnt: Vec3, pln: Plane, q: Vec3)
    requires Dot(pln.normal, pln.normal) == 1.0
    requires OnPlane(q, pln)
    ensures var g := Abs(Dot(pln.normal, pnt) + pln.d);
            g * g <= Dot(Sub(pnt, q), Sub(pnt, q))
  {
    var n := pln.normal;
    var v := Sub(pnt, q);
    var s := Dot(n, pnt) + pln.d;
    PlaneOffset(pnt, pln, q);
    UnitProjectionBound(n, v);
    AbsSquareBound(s, Dot(v, v));
  }

  /** Seen from a point `q` of the plane, `pnt` is offset `n · pnt + d`
      along the normal. */
  lemma PlaneOffset(pnt: Vec3, pln: Plane, q: Vec3)
    requires OnPlane(q, pln)
    ensures Dot(pln.normal, Sub(pnt, q)) == Dot(pln.normal, pnt) + pln.d
  {
  }

  /** The foot point of `pnt` on a plane with unit normal. */
  function FootPoint(pnt: Vec3, pln: Plane): Vec3 {
    Sub(pnt, Scale(pln.normal, Dot(pln.normal, pnt) + pln.d))
  }

  /** For a unit normal the foot point lies on the plane, at distance
      `|n · pnt + d|` from `pnt`: the value of `Distance` is attained. */
  lemma DistanceAttained(pnt: Vec3, pln: Plane)
    requires Dot(pln.normal, pln.normal) == 1.0
    ensures OnPlane(FootPoint(pnt, pln), pln)
    ensures var f := FootPoint(pnt, pln);
            var g := Abs(Dot(pln.normal, pnt) + pln.d);
            g * g == Dot(Sub(pnt, f), Sub(pnt, f))
  {
    var n := pln.normal;
    var s := Dot(n, pnt) + pln.d;
    var f := FootPoint(pnt, pln);
    calc {
      Dot(n, f) + pln.d;
    == { DotComm(n, f); DotSub(pnt, Scale(n, s), n); DotComm(pnt, n); DotScale(n, n, s); }
      Dot(n, pnt) - s * Dot(n, n) + pln.d;
    ==
      0.0;
    }
    var w := Sub(pnt, f);
    assert w == Scale(n, s);
    calc {
      Dot(w, w);
    == { DotScaleSelf(n, s); }
      s * s * Dot(n, n);
    ==
      s * s;
    == { AbsSquare(s); }
      Abs(s) * Abs(s);
    }
  }
}
