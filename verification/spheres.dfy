/** Completing a point of a sphere from two of its coordinates. */
module Spheres {
  import opened Reals
  import opened Vectors
  import opened Shapes

  /** An optional coordinate (`std::optional<float>`). */
  datatype Option<T> = None | Some(value: T)

  /** `p` lies on the surface of `s`. */
  predicate OnSphere(p: Vec3, s: Sphere) {
    Dot(Sub(p, s.center), Sub(p, s.center)) == s.radius * s.radius
  }

  /** The offsets `du`, `dv` from the centre in two axes reach no farther
      than the radius, so the sphere has a point with them. */
  predicate WithinDisk(s: Sphere, du: real, dv: real) {
    du * du + dv * dv <= s.radius * s.radius
  }

  /** The offset of the missing coordinate from the centre: the non-negative
      root of what the two given offsets leave of the squared radius. */
  function Height(sqrt: real -> real, s: Sphere, du: real, dv: real): (h: real)
    requires IsSqrt(sqrt)
    requires WithinDisk(s, du, dv)
    ensures 0.0 <= h
    ensures du * du + dv * dv + h * h == s.radius * s.radius
  {
    sqrt(s.radius * s.radius - (du * du + dv * dv))
  }

  /** findMissingCoordinate: given exactly two coordinates, the point of the
      sphere with those two coordinates on the far side of the centre in the
      third axis (the positive root). When all three or fewer than two are
      given, or no point of the sphere has the two given coordinates, the
      centre comes back instead. The pairs are tried in the order `x, y`,
      `x, z`, `y, z`. */
  function FindMissingCoordinate(sqrt: real -> real, sphere: Sphere,
                                 x: Option<real>, y: Option<real>, z: Option<real>): (r: Vec3)
    requires IsSqrt(sqrt)
    ensures x.Some? && y.Some? && z.Some? ==> r == sphere.center
    ensures (x.None? && y.None?) || (x.None? && z.None?) || (y.None? && z.None?)
            ==> r == sphere.center
    ensures r == sphere.center || OnSphere(r, sphere)
    ensures x.Some? && y.Some? && z.None? ==>
              if WithinDisk(sphere, x.value - sphere.center.x, y.value - sphere.center.y)
              then r.x == x.value && r.y == y.value && r.z >= sphere.center.z && OnSphere(r, sphere)
              else r == sphere.center
    ensures x.Some? && y.None? && z.Some? ==>
              if WithinDisk(sphere, x.value - sphere.center.x, z.value - sphere.center.z)
              then r.x == x.value && r.z == z.value && r.y >= sphere.center.y && OnSphere(r, sphere)
              else r == sphere.center
    ensures x.None? && y.Some? && z.Some? ==>
              if WithinDisk(sphere, y.value - sphere.center.y, z.value - sphere.center.z)
              then r.y == y.value && r.z == z.value && r.x >= sphere.center.x && OnSphere(r, sphere)
              else r == sphere.center
  {
    var c := sphere.center;
    if x.Some? && y.Some? && z.Some? then
      c
    else if x.Some? && y.Some? then
      if !WithinDisk(sphere, x.value - c.x, y.value - c.y) then c
      else SolveZ(sqrt, sphere, x.value, y.value)
    else if x.Some? && z.Some? then
      if !WithinDisk(sphere, x.value - c.x, z.value - c.z) then c
      else SolveY(sqrt, sphere, x.value, z.value)
    else if y.Some? && z.Some? then
      if !WithinDisk(sphere, y.value - c.y, z.value - c.z) then c
      else SolveX(sqrt, sphere, y.value, z.value)
    else
      c
  }

  /** The point of the sphere with the given `x` and `y` and `z` at or
      beyond the centre's. */
  function SolveZ(sqrt: real -> real, sphere: Sphere, x: real, y: real): (r: Vec3)
    requires IsSqrt(sqrt)
    requires WithinDisk(sphere, x - sphere.center.x, y - sphere.center.y)
    ensures r.x == x && r.y == y && r.z >= sphere.center.z && OnSphere(r, sphere)
  {
    var c := sphere.center;
    var h := Height(sqrt, sphere, x - c.x, y - c.y);
    var r := Vec3(x, y, h + c.z);
    assert Sub(r, c) == Vec3(x - c.x, y - c.y, h);
    OffsetOnSphere(r, sphere, x - c.x, y - c.y, h);
    r
  }

  /** The point of the sphere with the given `x` and `z` and `y` at or
      beyond the centre's. */
  function SolveY(sqrt: real -> real, sphere: Sphere, x: real, z: real): (r: Vec3)
    requires IsSqrt(sqrt)
    requires WithinDisk(sphere, x - sphere.center.x, z - sphere.center.z)
    ensures r.x == x && r.z == z && r.y >= sphere.center.y && OnSphere(r, sphere)
  {
    var c := sphere.center;
    var h := Height(sqrt, sphere, x - c.x, z - c.z);
    var r := Vec3(x, h + c.y, z);
    assert Sub(r, c) == Vec3(x - c.x, h, z - c.z);
    OffsetOnSphere(r, sphere, x - c.x, h, z - c.z);
    r
  }

  /** The point of the sphere with the given `y` and `z` and `x` at or
      beyond the centre's. */
  function SolveX(sqrt: real -> real, sphere: Sphere, y: real, z: real): (r: Vec3)
    requires IsSqrt(sqrt)
    requires WithinDisk(sphere, y - sphere.center.y, z - sphere.center.z)
    ensures r.y == y && r.z == z && r.x >= sphere.center.x && OnSphere(r, sphere)
  {
    var c := sphere.center;
    var h := Height(sqrt, sphere, y - c.y, z - c.z);
    var r := Vec3(h + c.x, y, z);
    assert Sub(r, c) == Vec3(h, y - c.y, z - c.z);
    OffsetOnSphere(r, sphere, h, y - c.y, z - c.z);
    r
  }

  /** A point whose offset from the centre has squared length `r²` is on
      the sphere. */
  lemma OffsetOnSphere(p: Vec3, s: Sphere, du: real, dv: real, dw: real)
    requires Sub(p, s.center) == Vec3(du, dv, dw)
    requires du * du + dv * dv + dw * dw == s.radius * s.radius
    ensures OnSphere(p, s)
  {
  }

  /** A point of the sphere is the only one with its two given coordinates
      and the missing one at or beyond the centre's. */
  lemma HeightOfSpherePoint(sqrt: real -> real, s: Sphere, du: real, dv: real, dw: real)
    requires IsSqrt(sqrt)
    requires du * du + dv * dv + dw * dw == s.radius * s.radius
    requires 0.0 <= dw
    ensures WithinDisk(s, du, dv)
    ensures Height(sqrt, s, du, dv) == dw
  {
    var h := Height(sqrt, s, du, dv);
    SqrtUnique(h, dw);
  }

  /** Round trip: a point of the sphere whose `z` is not below the centre's
      is recovered from its `x` and `y`. */
  lemma FindMissingZ(sqrt: real -> real, sphere: Sphere, p: Vec3)
    requires IsSqrt(sqrt)
    requires OnSphere(p, sphere) && p.z >= sphere.center.z
    ensures FindMissingCoordinate(sqrt, sphere, Some(p.x), Some(p.y), None) == p
  {
    var c := sphere.center;
    HeightOfSpherePoint(sqrt, sphere, p.x - c.x, p.y - c.y, p.z - c.z);
  }

  /** Round trip: a point of the sphere whose `y` is not below the centre's
      is recovered from its `x` and `z`. */
  lemma FindMissingY(sqrt: real -> real, sphere: Sphere, p: Vec3)
    requires IsSqrt(sqrt)
    requires OnSphere(p, sphere) && p.y >= sphere.center.y
    ensures FindMissingCoordinate(sqrt, sphere, Some(p.x), None, Some(p.z)) == p
  {
    var c := sphere.center;
    HeightOfSpherePoint(sqrt, sphere, p.x - c.x, p.z - c.z, p.y - c.y);
  }

  /** Round trip: a point of the sphere whose `x` is not below the centre's
      is recovered from its `y` and `z`. */
  lemma FindMissingX(sqrt: real -> real, sphere: Sphere, p: Vec3)
    requires IsSqrt(sqrt)
    requires OnSphere(p, sphere) && p.x >= sphere.center.x
    ensures FindMissingCoordinate(sqrt, sphere, None, Some(p.y), Some(p.z)) == p
  {
    var c := sphere.center;
    HeightOfSpherePoint(sqrt, sphere, p.y - c.y, p.z - c.z, p.x - c.x);
  }
}
