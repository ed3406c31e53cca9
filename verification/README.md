# OpenGLHelper geometry, modelled in Dafny

`OpenGLHelper` (EngineHelper.h, EngineHelper.cpp) is a small C++ geometry helper
for an OpenGL engine. It defines value types for a line, a plane (with four
constructors, two of which — the three-point constructor at EngineHelper.h:45
and the line-and-point constructor at EngineHelper.h:59 — have the same
signature of three `const glm::vec3&`, so the class does not compile as
written), a triangle and a sphere, a `FaceDirection` enumeration and the
tolerance `EPSILON`, plus static functions:

- vector projection and reflection;
- the offset of a point from a line;
- the unit normal of two vectors;
- the three forms of triangle area;
- barycentric coordinates and the point-in-triangle test `pntInPlane`;
- a point on a plane and the distance of a point from a plane;
- the missing coordinate of a point on a sphere;
- the facing direction of two vectors.

This project models each of these over Dafny's `real`. `glm::vec3` becomes the
datatype `Vectors.Vec3`. The module layout is:

| module | file | contents |
|---|---|---|
| `Reals` | reals.dfy | small facts about real arithmetic (roots, quotients, bounds) |
| `Vectors` | vectors.dfy | `Vec3` with add, subtract, scale, dot, cross, length and normalize |
| `Shapes` | shapes.dfy | `EPSILON`, `FaceDirection`, `Line`, `Plane`, `Triangle`, `Sphere`, the four plane constructors |
| `VectorOps` | vector_ops.dfy | projection, reflection, point-line offset, surface normal, cosine and sine, facing direction |
| `Triangles` | triangles.dfy | areas, barycentric coordinates, `pntInPlane` and its corrected form |
| `Planes` | planes.dfy | `getPntOnPln` and `distance` |
| `Spheres` | spheres.dfy | `findMissingCoordinate` |

The library square root (`std::sqrt`, also inside `glm::length` and
`glm::normalize`) is not code this model sees. Every operation that needs it
takes a parameter `sqrt: real -> real` and requires `IsSqrt(sqrt)`: it returns
the non-negative root of every non-negative real.

Five inputs give the source no meaningful result:

- a zero vector given to `glm::normalize`, which divides by the zero length;
- parallel vectors given to a cross-product normal, which normalizes a zero cross product;
- a zero vector given to `getCos` or `getSin`, which divide by the zero product of the lengths;
- a degenerate triangle given to `GetPntBarCord`, which divides by the zero area;
- an all-zero plane normal given to `getPntOnPln`. This is not a division: the function prints an error and runs off its end without a `return`, which is undefined behaviour.

The first four produce NaN or infinities. The model states all five as preconditions.

## Model

| member | source | states |
|---|---|---|
| Shapes.FaceDirection.Code | EngineHelper.h:15-19 | `same`, `oppose` and `perpendicular` carry the codes 1, 2 and 3, and each code belongs to exactly one member |
| Shapes.PlaneFromPointNormal | EngineHelper.h:39-42 | the given point satisfies the plane equation `normal · p + d == 0` documented at line 36; the stored normal has unit length and points the same way as the given normal |
| Shapes.PointNormalPlaneMembers | EngineHelper.h:34-42 | a point lies on the point-normal plane exactly when its offset from the given point is orthogonal to the given normal |
| Shapes.PlaneFromPoints | EngineHelper.h:45-50 | all three points satisfy the plane equation; the normal has unit length and follows the right-hand rule on `p2 - p1`, `p3 - p1` |
| Shapes.PlaneFromLines | EngineHelper.h:53-56 | `p1`, `p1 + dir1` and `p1 + dir2` satisfy the plane equation; the normal has unit length and follows `dir1 × dir2` |
| Shapes.PlaneFromLinesSecondPoint | EngineHelper.h:53-56 | the second line's point, which the constructor never reads, lies on the plane exactly when the two lines are coplanar |
| Shapes.PlaneFromLineAndPoint | EngineHelper.h:59-63 | `pointOnLine`, `pointOnLine + lineDirection` and `pointNotOnLine` satisfy the plane equation; the normal has unit length and follows the right-hand rule |
| Shapes.LineInPlane | EngineHelper.h:59-63 | every point of the given line lies on the line-and-point plane |
| Shapes.PlaneFromPointsAsLineAndPoint | EngineHelper.h:45-63 | the three-point plane equals the line-and-point plane of the line through `p1`, `p2` and the point `p3` |
| VectorOps.VecProj | EngineHelper.cpp:5-8 | the projection of `b` onto `a` is `a` times `b`'s coefficient along `a`, and what it leaves of `b` is orthogonal to `a` |
| VectorOps.NormalizedProjection | EngineHelper.cpp:5-8 | the source's formula, the unit axis scaled by `b`'s component along it, equals `a` scaled by `(a · b) / (a · a)` |
| VectorOps.VecProjRescale | EngineHelper.cpp:5-8 | rescaling the axis by any non-zero factor leaves the projection unchanged |
| VectorOps.VecProjOfParallel | EngineHelper.cpp:5-8 | a vector on the axis is its own projection |
| VectorOps.VecProjIdempotent | EngineHelper.cpp:5-8 | projecting a projection again changes nothing |
| VectorOps.VecReflection | EngineHelper.cpp:18-22 | the reflection's component along the normal is the negation of the input's |
| VectorOps.ReflectionKeepsTangent | EngineHelper.cpp:18-22 | the component of the input orthogonal to the normal is unchanged by reflection |
| VectorOps.ReflectedProjection | EngineHelper.cpp:18-22 | the projection of the reflection onto the normal is the negated projection of the input |
| VectorOps.ReflectionInvolution | EngineHelper.cpp:18-22 | reflecting twice in the same normal returns the input |
| VectorOps.ReflectionLength | EngineHelper.cpp:18-22 | reflection preserves length |
| VectorOps.PntLineRelation | EngineHelper.cpp:10-16 | the returned offset is orthogonal to the line's direction, the point moved by it lands on the line, and the returned distance is its length |
| VectorOps.PntLineDistanceZero | EngineHelper.cpp:10-16 | the distance is zero exactly for points of the line |
| VectorOps.PntLineDistanceMinimal | EngineHelper.cpp:10-16 | no point of the line is closer to the point than the returned distance |
| VectorOps.FindSurfaceNorm | EngineHelper.cpp:24-27 | the normal has unit length, is orthogonal to both inputs and points along `a × b` (right-hand rule) |
| VectorOps.FindSurfaceNormSwap | EngineHelper.cpp:24-27 | swapping the two inputs flips the normal |
| VectorOps.CauchySchwarz | EngineHelper.cpp:54-64 | both `|a · b|` and `|a × b|` are at most `|a| |b|`, which is why the clamps in getCos and getSin never change a value |
| VectorOps.GetCos | EngineHelper.cpp:54-58 | the result lies in `[-1, 1]` and times `|a| |b|` gives `a · b` |
| VectorOps.GetSin | EngineHelper.cpp:60-64 | the result lies in `[0, 1]` and times `|a| |b|` gives `|a × b|` |
| VectorOps.CosSinIdentity | EngineHelper.cpp:54-64 | the clamped cosine and sine satisfy `cos² + sin² == 1` |
| VectorOps.FaceDirectionOf | EngineHelper.cpp:191-200 | `oppose` exactly when the dot product is negative, `perpendicular` exactly when it is zero, `same` exactly when it is positive |
| VectorOps.FaceDirectionSymmetric | EngineHelper.cpp:191-200 | the facing direction does not depend on the order of the two vectors |
| Triangles.TriangleAreaOfEdges | EngineHelper.cpp:29-32 | the area is non-negative and is zero exactly for parallel edges |
| Triangles.TriangleAreaLagrange | EngineHelper.cpp:29-32 | four times the squared area is `|a|²|b|² - (a · b)²` |
| Triangles.TriangleAreaOfEdgesSymmetric | EngineHelper.h:121-128 | the order of the two edge vectors does not matter, as the doc comment promises |
| Triangles.TriangleAreaOfPoints | EngineHelper.cpp:34-39 | the area from the edges `p1 - p2`, `p2 - p3` equals the area from the two edges leaving `p1`, and is zero exactly for collinear points |
| Triangles.TriangleAreaRotate | EngineHelper.cpp:34-39 | rotating the three points leaves the area unchanged |
| Triangles.TriangleAreaSwap | EngineHelper.cpp:34-39 | swapping the first two points leaves the area unchanged |
| Triangles.TriangleAreaRepeated | EngineHelper.cpp:34-39 | a triangle with two equal points has zero area |
| Triangles.TriangleArea | EngineHelper.cpp:41-44 | the triangle's area is non-negative and is zero exactly for degenerate triangles |
| Triangles.TriangleAreaOfRotatedTriangle | EngineHelper.cpp:41-44 | listing the vertices from another starting vertex keeps the area |
| Triangles.SubAreaA | EngineHelper.cpp:46-48 | for a point of the plane with barycentric coordinates `(la, lb, 1 - la - lb)`, the area of `p, b, c` is `|la|` times the triangle's area |
| Triangles.SubAreaB | EngineHelper.cpp:46-49 | likewise, the area of `p, a, c` is `|lb|` times the triangle's area |
| Triangles.GetPntBarCord | EngineHelper.cpp:46-52 | the three coordinates sum to one and the first two are non-negative |
| Triangles.GetPntBarCordOfCombination | EngineHelper.cpp:46-52 | for a point of the plane with barycentric coordinates `(la, lb, 1 - la - lb)`, the result is `(|la|, |lb|, 1 - |la| - |lb|)` |
| Triangles.GetPntBarCordAtA | EngineHelper.cpp:46-52 | at vertex `pnt_a` the result is `(1, 0, 0)` |
| Triangles.GetPntBarCordAtB | EngineHelper.cpp:46-52 | at vertex `pnt_b` the result is `(0, 1, 0)` |
| Triangles.GetPntBarCordAtC | EngineHelper.cpp:46-52 | at vertex `pnt_c` the result is `(0, 0, 1)` |
| Triangles.PntInPlane | EngineHelper.cpp:76-85 | an accepted point has its third coordinate strictly between zero and one |
| Triangles.PntInPlaneVertices | EngineHelper.cpp:76-85 | every vertex of the triangle is classified as outside |
| Triangles.PntInPlaneOfCombination | EngineHelper.cpp:76-85 | for a point of the plane, the test accepts exactly when `|la|`, `|lb|` and `1 - |la| - |lb|` all reach `EPSILON` |
| Triangles.PntInPlaneAcceptsOutside | EngineHelper.cpp:76-85 | in every non-degenerate triangle the test accepts the point with barycentric coordinates `(-0.1, 0.2, 0.9)`, which lies outside the triangle |
| Triangles.SignedBarycentric | EngineHelper.cpp:46-52 | corrected form of the cited lines: the signed coordinates sum to one |
| Triangles.SignedBarycentricOfCombination | EngineHelper.cpp:46-52 | the signed coordinates recover the barycentric coordinates of every point of the plane, whatever their signs |
| Triangles.BarycentricUnique | EngineHelper.cpp:46-52 | a point of a non-degenerate triangle's plane has only one set of barycentric coordinates |
| Triangles.PntInTriangle | EngineHelper.cpp:76-85 | corrected form of the cited lines: an accepted point has a third signed coordinate of at most `1 - 2 EPSILON` |
| Triangles.PntInTriangleOfCombination | EngineHelper.cpp:76-85 | the corrected test accepts a point of the plane exactly when its three barycentric coordinates reach `EPSILON`, so every accepted point of the plane lies inside the triangle |
| Triangles.SignedBarycentricAlongNormal | EngineHelper.cpp:46-52 | corrected form of the cited lines: moving a point along the triangle's normal leaves its signed coordinates unchanged |
| Triangles.PntInTriangleAlongNormal | EngineHelper.cpp:76-85 | corrected form of the cited lines: a point off the plane is accepted exactly when its projection onto the plane is, i.e. when the projection's three barycentric coordinates reach `EPSILON` |
| Triangles.CentroidAccepted | EngineHelper.h:7 | the tolerance `EPSILON` is small enough that the centroid of every non-degenerate triangle, with coordinates `1/3`, is accepted by both pntInPlane and the corrected test |
| Triangles.GetPntBarCordInside | EngineHelper.cpp:46-85 | inside the triangle the source's coordinates equal the signed ones, and the source's test agrees with the corrected one |
| Planes.GetPntOnPln | EngineHelper.cpp:88-118 | the point satisfies the plane equation; it has `x = y = 1` when `C` is non-zero, else `x = z = 1` when `B` is non-zero, else `y = z = 1` |
| Planes.GetPntOnPlnUnique | EngineHelper.cpp:88-118 | the point is the only point of the plane with the two coordinates its branch fixes at one |
| Planes.Distance | EngineHelper.cpp:125-130 | the distance is `|normal · pnt + d|`, whichever plane point it is measured from; it is non-negative and zero exactly for points on the plane |
| Planes.DistanceMinimal | EngineHelper.cpp:125-130 | for a unit normal no point of the plane is closer to the point than `|normal · pnt + d|`, the value distance returns |
| Planes.DistanceAttained | EngineHelper.cpp:125-130 | for a unit normal the foot point lies on the plane at exactly `|normal · pnt + d|` from the point, so distance is the Euclidean distance to the plane |
| Spheres.FindMissingCoordinate | EngineHelper.cpp:133-190 | the centre comes back when all three or fewer than two coordinates are given; otherwise the pairs are tried in the order x-y, x-z, y-z; the centre comes back when no sphere point has the given pair; else the two given coordinates are kept and the missing one is at or beyond the centre's, so the result lies on the sphere |
| Spheres.Height | EngineHelper.cpp:149-155 | the missing offset is non-negative and completes the two given offsets to the squared radius |
| Spheres.HeightOfSpherePoint | EngineHelper.cpp:149-155 | the offsets of a sphere point are within the disk, and its non-negative third offset is the one computed |
| Spheres.SolveZ | EngineHelper.cpp:147-158 | for given `x`, `y` within the disk, the completed point keeps them, has `z` at or above the centre's and lies on the sphere |
| Spheres.SolveY | EngineHelper.cpp:160-171 | for given `x`, `z` within the disk, the completed point keeps them, has `y` at or above the centre's and lies on the sphere |
| Spheres.SolveX | EngineHelper.cpp:173-184 | for given `y`, `z` within the disk, the completed point keeps them, has `x` at or above the centre's and lies on the sphere |
| Spheres.FindMissingZ | EngineHelper.cpp:147-158 | a sphere point with `z` at or above the centre's is recovered from its `x` and `y` |
| Spheres.FindMissingY | EngineHelper.cpp:160-171 | a sphere point with `y` at or above the centre's is recovered from its `x` and `z` |
| Spheres.FindMissingX | EngineHelper.cpp:173-184 | a sphere point with `x` at or above the centre's is recovered from its `y` and `z` |

## Left out

- Floating point: `GLfloat` and `glm::vec3` become `real`. No rounding, overflow, NaN or infinity is modelled. The exact zero tests in `getPntOnPln` and `faceDirection` and the `EPSILON` comparisons in `pntInPlane` are exact comparisons of reals. `EPSILON` (`1e-4f`) is the real `0.0001`.
- The square root is a parameter (see above). `glm::length`, `glm::normalize`, `glm::dot`, `glm::cross` and `glm::clamp` are re-implemented over `Vec3`. The library headers (`core.h`, glm) are not part of this model.
- getDegree (EngineHelper.cpp:66-74) needs `acos` and `glm::degrees`, which are transcendental. It is not modelled. Its input, the clamped cosine, is modelled.
- printPlaneEquation (EngineHelper.h:66-68) and the `std::cout`/`std::cerr` messages of `getPntOnPln` and `findMissingCoordinate` are console output only. They are left out; the model keeps the returned values.
- Planes.GetPntOnPln: the all-zero-normal branch is a precondition. It prints an error and returns no value, which is undefined behaviour.
- Planes.Distance: requires a non-zero normal, because it is computed from the point getPntOnPln yields.
- Planes.Distance: assumes that the unqualified `abs` at EngineHelper.cpp:128 is the floating-point overload. Which overload is chosen depends on the includes of `core.h`, which is not part of this model. Where only C's `int abs(int)` is visible, the source would truncate the distance to an integer.
- VectorOps.VecProj, VectorOps.VecReflection, VectorOps.PntLineRelation, VectorOps.FindSurfaceNorm, VectorOps.GetCos, VectorOps.GetSin and the four plane constructors require non-zero vectors or non-parallel pairs. Otherwise `glm::normalize` or the length quotient divides by zero.
- Shapes.PlaneFromLineAndPoint: the model gives the line-and-point constructor (EngineHelper.h:59-63) and the three-point constructor (EngineHelper.h:45-50) separate names. In C++ they redeclare the same signature, so no call can reach either and the same three arguments would mean different planes under the two readings: `(0,0,1)`, `(1,0,1)`, `(0,1,1)` has normal `(0,0,1)` as three points and `(-1,0,1)/√2` as a line and a point. Shapes.PlaneFromPointsAsLineAndPoint states how the two relate: the three-point plane of `p1`, `p2`, `p3` is the line-and-point plane of `p1`, `p2 - p1`, `p3`.
- Triangles.GetPntBarCord and Triangles.PntInPlane require a non-degenerate triangle. Otherwise the area quotient divides by zero.
- Triangles.PntInPlane: points off the triangle's plane are not characterised. The source's unsigned sub-areas grow with the distance from the plane, so its coordinates there follow no simple rule; the lemmas about the test cover the points of the plane.

## Findings

| source | as written | input that shows it | evidently intended | confidence | as-written member | corrected member |
|---|---|---|---|---|---|---|
| EngineHelper.cpp:46-52, 76-85 | GetPntBarCord divides unsigned areas by the triangle's area, so the first two coordinates can never be negative. pntInPlane then accepts points outside the triangle whose absolute coordinates happen to reach `EPSILON`. | triangle `(0,0,0)`, `(1,0,0)`, `(0,1,0)`, point `(0.2, 0.9, 0)`. Its barycentric coordinates are `(-0.1, 0.2, 0.9)` and GetPntBarCord yields `(0.1, 0.2, 0.7)`, so the point is accepted. | accept a point only when all three signed barycentric coordinates reach `EPSILON` | high for the real-number model; not executed | Triangles.PntInPlaneAcceptsOutside | Triangles.PntInTriangleOfCombination |
