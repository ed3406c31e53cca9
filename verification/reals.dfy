/** Facts about real numbers that the geometric proofs lean on: signs of
    squares and products, cancellation, and quotients. They are kept apart
    so that each is proved in a small context of plain reals. */
module Reals {

  function Abs(r: real): real {
    if r < 0.0 then -r else r
  }

  /** A non-negative real is determined by its square. */
  lemma SqrtUnique(r: real, s: real)
    requires 0.0 <= r && 0.0 <= s
    requires r * r == s * s
    ensures r == s
  {
    if r < s {
      calc { r * r; <= r * s; < s * s; }
    } else if s < r {
      calc { s * s; <= s * r; < r * r; }
    }
  }

  /** Squares of absolute values. */
  lemma AbsSquare(k: real)
    ensures Abs(k) >= 0.0 && Abs(k) * Abs(k) == k * k
  {
  }

  /** The non-negative root of `k² d` is `|k|` times the root of `d`. */
  lemma ScaledRoot(m: real, l: real, k: real, d: real)
    requires 0.0 <= m && 0.0 <= l
    requires m * m == k * k * d && l * l == d
    ensures m == Abs(k) * l
  {
    AbsSquare(k);
    calc {
      m * m;
      (Abs(k) * Abs(k)) * (l * l);
      (Abs(k) * l) * (Abs(k) * l);
    }
    SqrtUnique(m, Abs(k) * l);
  }

  /** A product with a non-zero first factor is zero only when the second is. */
  lemma ProductZero(s: real, t: real)
    requires s != 0.0
    ensures s * t == 0.0 <==> t == 0.0
  {
    if t != 0.0 {
      calc { (s * t) / s; == t; }
    }
  }

  /** `s² · d == 1` makes `m s`, for `m == s e`, the quotient `e / d`. */
  lemma InverseSquare(s: real, d: real, e: real, m: real)
    requires s * s * d == 1.0 && m == s * e
    ensures d != 0.0 && m * s == e / d
  {
    calc {
      m * s;
      (s * s * e) * 1.0;
      (s * s * e) * (d * (1.0 / d));
      (s * s * d) * e * (1.0 / d);
      e / d;
    }
  }

  lemma DivMul(e: real, d: real)
    requires d != 0.0
    ensures (e / d) * d == e
  {
  }

  /** A quotient is the unique solution of its multiplication. */
  lemma DivUnique(x: real, e: real, d: real)
    requires d != 0.0 && x * d == e
    ensures x == e / d
  {
    DivMul(e, d);
    assert (x - e / d) * d == 0.0;
    ProductZero(d, x - e / d);
  }

  lemma QuotientNeg(e: real, d: real)
    requires d != 0.0
    ensures (-e) / d == -(e / d)
  {
  }

  /** A real lies within `[-p, p]` once its square is at most `p²`. */
  lemma SquareBound(e: real, p: real)
    requires 0.0 <= p && e * e <= p * p
    ensures -p <= e <= p
  {
    if e > p {
      calc { p * p; <= p * e; < e * e; }
    } else if e < -p {
      calc { p * p; <= p * (-e); < (-e) * (-e); == e * e; }
    }
  }

  /** Dividing `[-p, p]` by a positive `p == la lb` lands in `[-1, 1]`. */
  lemma QuotientBound(e: real, la: real, lb: real)
    requires 0.0 < la && 0.0 < lb && -(la * lb) <= e <= la * lb
    ensures -1.0 <= e / (la * lb) <= 1.0
    ensures (e / (la * lb)) * (la * lb) == e
  {
    assert la * lb > 0.0;
  }

  /** A non-negative `f` at most `la lb` divided by `la lb` lies in `[0, 1]`. */
  lemma RatioBound(f: real, la: real, lb: real)
    requires 0.0 < la && 0.0 < lb && 0.0 <= f <= la * lb
    ensures 0.0 <= f / (la * lb) <= 1.0
    ensures (f / (la * lb)) * (la * lb) == f
  {
    assert la * lb > 0.0;
  }

  /** The bound of Cauchy-Schwarz: `e² <= |a|² |b|²` puts `e` within
      `[-|a| |b|, |a| |b|]`. */
  lemma SquareBoundByProduct(e: real, da: real, db: real, la: real, lb: real)
    requires 0.0 <= la && 0.0 <= lb && la * la == da && lb * lb == db
    requires e * e <= da * db
    ensures -(la * lb) <= e <= la * lb
  {
    var p := la * lb;
    SquareOfProduct(la, lb);
    MulNonneg(la, lb);
    SquareBound(e, p);
  }

  lemma SquareNonneg(e: real)
    ensures 0.0 <= e * e
  {
    if e < 0.0 {
      MulNonneg(-e, -e);
    }
  }

  /** One component of a cross product with a scaled factor. */
  lemma MulDiff(k: real, p: real, q: real, r: real, s: real)
    ensures p * (k * q) - r * (k * s) == k * (p * q - r * s)
  {
  }

  /** A bound on a square bounds the square of the absolute value. */
  lemma AbsSquareBound(s: real, v: real)
    requires s * s <= v
    ensures Abs(s) * Abs(s) <= v
  {
    AbsSquare(s);
  }

  lemma SquareOfProduct(a: real, b: real)
    ensures (a * b) * (a * b) == (a * a) * (b * b)
  {
  }

  lemma MulNonneg(x: real, y: real)
    requires x >= 0.0 && y >= 0.0
    ensures x * y >= 0.0
  {
  }

  /** `x p² == p²` with `p > 0` forces `x == 1`. */
  lemma CancelSquare(x: real, p: real)
    requires p > 0.0 && x * (p * p) == p * p
    ensures x == 1.0
  {
    assert p * p > 0.0;
    assert (x - 1.0) * (p * p) == 0.0;
  }

  lemma QuotientNonneg(e: real, d: real)
    requires 0.0 <= e && 0.0 < d
    ensures 0.0 <= e / d
  {
  }
}
