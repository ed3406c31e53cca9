/** Real-valued three-component vectors: the part of glm's `vec3` that the
    helper library uses (component-wise arithmetic, dot and cross products,
    length and normalization).

    Dafny has no square root over `real`, and the library's `std::sqrt`
    (also behind `glm::length` and `glm::normalize`) is code this model does
    not see. Every operation that needs one therefore receives the square
    root as a parameter `sqrt` together with the requirement `IsSqrt(sqrt)`:
    it returns the non-negative root of every non-negative real. */
module Vectors {
  import opened Reals

  datatype Vec3 = Vec3(x: real, y: real, z: real)

  const Zero := Vec3(0.0, 0.0, 0.0)

  function Add(a: Vec3, b: Vec3): Vec3 {
    Vec3(a.x + b.x, a.y + b.y, a.z + b.z)
  }

  function Sub(a: Vec3, b: Vec3): Vec3 {
    Vec3(a.x - b.x, a.y - b.y, a.z - b.z)
  }

  function Neg(a: Vec3): Vec3 {
    Vec3(-a.x, -a.y, -a.z)
  }

  /** `k * a` */
  function Scale(a: Vec3, k: real): Vec3 {
    Vec3(k * a.x, k * a.y, k * a.z)
  }

  function Dot(a: Vec3, b: Vec3): real {
    a.x * b.x + a.y * b.y + a.z * b.z
  }

  /** Right-handed cross product `a × b`. */
  function Cross(a: Vec3, b: Vec3): Vec3 {
    Vec3(a.y * b.z - a.z * b.y,
         a.z * b.x - a.x * b.z,
         a.x * b.y - a.y * b.x)
  }

  /** `a` and `b` are parallel (or one of them is zero). */
  predicate Parallel(a: Vec3, b: Vec3) {
    Cross(a, b) == Zero
  }

  /** `sqrt` is a square root: the non-negative root of every non-negative real. */
  ghost predicate IsSqrt(sqrt: real -> real) {
    forall t: real :: 0.0 <= t ==> 0.0 <= sqrt(t) && sqrt(t) * sqrt(t) == t
  }

  // ---------------------------------------------------------------------
  // Squared lengths and roots

  /** The squared length of `a` is never negative and is zero exactly for the
      zero vector. */
  lemma DotSelf(a: Vec3)
    ensures Dot(a, a) >= 0.0
    ensures Dot(a, a) == 0.0 <==> a == Zero
  {
    if a != Zero {
      calc {
        Dot(a, a);
      ==
        a.x * a.x + a.y * a.y + a.z * a.z;
      >
        0.0;
      }
    }
  }

  /** The square root of zero is zero and only zero has it as root. */
  lemma SqrtZero(sqrt: real -> real, t: real)
    requires IsSqrt(sqrt)
    requires 0.0 <= t
    ensures sqrt(t) == 0.0 <==> t == 0.0
  {
    if t == 0.0 && sqrt(t) != 0.0 {
      calc { 0.0; == sqrt(t) * sqrt(t); > 0.0; }
    }
  }

  // ---------------------------------------------------------------------
  // Length and normalization

  /** glm::length: the Euclidean length `sqrt(a · a)`. */
  function Length(sqrt: real -> real, a: Vec3): (r: real)
    requires IsSqrt(sqrt)
    ensures 0.0 <= r && r * r == Dot(a, a)
    ensures r == 0.0 <==> a == Zero
  {
    DotSelf(a);
    SqrtZero(sqrt, Dot(a, a));
    sqrt(Dot(a, a))
  }

  /** glm::normalize: `a` divided by its length. glm yields NaN components for
      the zero vector, which callers must not pass. */
  function Normalize(sqrt: real -> real, a: Vec3): (r: Vec3)
    requires IsSqrt(sqrt)
    requires a != Zero
    ensures Dot(r, r) == 1.0
    ensures Scale(r, Length(sqrt, a)) == a
  {
    var len := Length(sqrt, a);
    var r := Scale(a, 1.0 / len);
    calc {
      Dot(r, r);
    ==
      (1.0 / len) * (1.0 / len) * Dot(a, a);
    ==
      (1.0 / len) * (1.0 / len) * (len * len);
    ==
      1.0;
    }
    r
  }

  /** A length is characterised by its square: any non-negative `r` whose
      square is `a · a` is the length of `a`. */
  lemma LengthOfSquare(sqrt: real -> real, a: Vec3, r: real)
    requires IsSqrt(sqrt)
    requires 0.0 <= r && r * r == Dot(a, a)
    ensures Length(sqrt, a) == r
  {
    SqrtUnique(Length(sqrt, a), r);
  }

  lemma ScaleScale(a: Vec3, p: Vec3, k: real, m: real)
    requires p == Scale(a, k)
    ensures Scale(p, m) == Scale(a, m * k)
  {
    assert m * (k * a.x) == (m * k) * a.x;
    assert m * (k * a.y) == (m * k) * a.y;
    assert m * (k * a.z) == (m * k) * a.z;
  }

  lemma ScaleNegated(a: Vec3, k: real)
    ensures Scale(a, -k) == Neg(Scale(a, k))
  {
  }

  lemma DotScaleSelf(a: Vec3, k: real)
    ensures Dot(Scale(a, k), Scale(a, k)) == k * k * Dot(a, a)
  {
  }

  /** A non-zero vector scaled by a non-zero factor stays non-zero. */
  lemma ScaleNonzero(a: Vec3, k: real)
    requires a != Zero && k != 0.0
    ensures Scale(a, k) != Zero
  {
  }

  /** Scaling a vector by `k` scales its length by `|k|`. */
  lemma LengthScale(sqrt: real -> real, a: Vec3, k: real)
    requires IsSqrt(sqrt)
    ensures Length(sqrt, Scale(a, k)) == Abs(k) * Length(sqrt, a)
  {
    DotScaleSelf(a, k);
    ScaledRoot(Length(sqrt, Scale(a, k)), Length(sqrt, a), k, Dot(a, a));
  }

  /** Normalization keeps the direction: the result is `a` scaled by the
      positive factor `1 / |a|`, and it has length one. */
  lemma NormalizeUnit(sqrt: real -> real, a: Vec3)
    requires IsSqrt(sqrt)
    requires a != Zero
    ensures Length(sqrt, Normalize(sqrt, a)) == 1.0
    ensures Normalize(sqrt, a) == Scale(a, 1.0 / Length(sqrt, a))
    ensures 1.0 / Length(sqrt, a) > 0.0
  {
    LengthOfSquare(sqrt, Normalize(sqrt, a), 1.0);
  }

  /** A squared length bounded by the product of two squared lengths bounds
      the length by the product of the lengths. */
  lemma LengthBoundOfSquares(sqrt: real -> real, u: Vec3, a: Vec3, b: Vec3)
    requires IsSqrt(sqrt)
    requires Dot(u, u) <= Dot(a, a) * Dot(b, b)
    ensures Length(sqrt, u) <= Length(sqrt, a) * Length(sqrt, b)
  {
    var lu, la, lb := Length(sqrt, u), Length(sqrt, a), Length(sqrt, b);
    var du, da, db := Dot(u, u), Dot(a, a), Dot(b, b);
    assert la * la == da && lb * lb == db && lu * lu == du;
    SquareBoundByProduct(lu, da, db, la, lb);
  }

  // ---------------------------------------------------------------------
  // Algebra of dot and cross products

  lemma DotComm(a: Vec3, b: Vec3)
    ensures Dot(a, b) == Dot(b, a)
  {
  }

  lemma DotAdd(a: Vec3, b: Vec3, c: Vec3)
    ensures Dot(Add(a, b), c) == Dot(a, c) + Dot(b, c)
  {
  }

  lemma DotSub(a: Vec3, b: Vec3, c: Vec3)
    ensures Dot(Sub(a, b), c) == Dot(a, c) - Dot(b, c)
  {
  }

  lemma DotScale(a: Vec3, b: Vec3, k: real)
    ensures Dot(Scale(a, k), b) == k * Dot(a, b)
  {
  }

  /** The cross product is orthogonal to both of its factors. */
  lemma CrossOrthogonal(a: Vec3, b: Vec3)
    ensures Dot(Cross(a, b), a) == 0.0 && Dot(Cross(a, b), b) == 0.0
  {
  }

  /** Swapping the factors negates the cross product. */
  lemma CrossAnti(a: Vec3, b: Vec3)
    ensures Cross(b, a) == Neg(Cross(a, b))
  {
  }

  lemma CrossScaleRight(a: Vec3, b: Vec3, k: real)
    ensures Cross(a, Scale(b, k)) == Scale(Cross(a, b), k)
  {
    var l, r := Cross(a, Scale(b, k)), Scale(Cross(a, b), k);
    MulDiff(k, a.y, b.z, a.z, b.y);
    MulDiff(k, a.z, b.x, a.x, b.z);
    MulDiff(k, a.x, b.y, a.y, b.x);
    assert l.x == r.x;
    assert l.y == r.y;
    assert l.z == r.z;
  }

  lemma CrossAddRight(a: Vec3, b: Vec3, c: Vec3)
    ensures Cross(a, Add(b, c)) == Add(Cross(a, b), Cross(a, c))
  {
  }

  /** Lagrange's identity: `|a × b|² = |a|²|b|² - (a · b)²`. */
  lemma Lagrange(a: Vec3, b: Vec3)
    ensures Dot(Cross(a, b), Cross(a, b)) == Dot(a, a) * Dot(b, b) - Dot(a, b) * Dot(a, b)
  {
  }

  /** A vector and its negation have the same length. */
  lemma LengthNeg(sqrt: real -> real, a: Vec3)
    requires IsSqrt(sqrt)
    ensures Length(sqrt, Neg(a)) == Length(sqrt, a)
  {
    assert Dot(Neg(a), Neg(a)) == Dot(a, a);
  }

  /** The unit vector of `-a` is the negated unit vector of `a`. */
  lemma NormalizeNeg(sqrt: real -> real, a: Vec3)
    requires IsSqrt(sqrt)
    requires a != Zero
    ensures Neg(a) != Zero
    ensures Normalize(sqrt, Neg(a)) == Neg(Normalize(sqrt, a))
  {
    var s := 1.0 / Length(sqrt, a);
    LengthNeg(sqrt, a);
    NormalizeUnit(sqrt, a);
    NormalizeUnit(sqrt, Neg(a));
    calc {
      Normalize(sqrt, Neg(a));
      Scale(Neg(a), s);
    == { NegScale(a, s); }
      Neg(Scale(a, s));
    }
  }

  lemma NegScale(a: Vec3, k: real)
    ensures Scale(Neg(a), k) == Neg(Scale(a, k))
  {
  }
}
