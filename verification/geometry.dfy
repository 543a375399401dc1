/**
 Planar vector algebra over the reals. Every shape of the collision scripts lives
 in the z = 0 plane, so a 3D point (x, y, 0) is a Point2 and the 3D cross product
 of two such vectors is (0, 0, Cross(a, b)).
 */
module Geometry {

  datatype Point2 = Point2(x: real, y: real)

  const Origin: Point2 := Point2(0.0, 0.0)

  function Add(a: Point2, b: Point2): Point2 {
    Point2(a.x + b.x, a.y + b.y)
  }

  function Sub(a: Point2, b: Point2): Point2 {
    Point2(a.x - b.x, a.y - b.y)
  }

  function Neg(a: Point2): Point2 {
    Point2(-a.x, -a.y)
  }

  function Scale(k: real, a: Point2): Point2 {
    Point2(k * a.x, k * a.y)
  }

  function Dot(a: Point2, b: Point2): real {
    a.x * b.x + a.y * b.y
  }

  /** z-component of (a.x, a.y, 0) × (b.x, b.y, 0). */
  function Cross(a: Point2, b: Point2): real {
    a.x * b.y - a.y * b.x
  }

  function NormSq(a: Point2): real {
    Dot(a, a)
  }

  /** Planar part of (0, 0, k) × (v.x, v.y, 0). */
  function ZCross(k: real, v: Point2): Point2 {
    Point2(-k * v.y, k * v.x)
  }

  /** (a × b) × c for three vectors of the z = 0 plane. */
  function TripleProduct(a: Point2, b: Point2, c: Point2): Point2 {
    ZCross(Cross(a, b), c)
  }

  /**
   Cross-product side test: the z-component of AB × AC. Zero when C is on the
   line AB, positive when C is to the left of A→B, negative to the right.
   */
  function Orient(a: Point2, b: Point2, c: Point2): (r: real)
    ensures c == a || c == b ==> r == 0.0
  {
    Cross(Sub(b, a), Sub(c, a))
  }

  /**
   Line-equation side test: substitutes p into the general form
   (y2 - y1)x + (x1 - x2)y + (x2*y1 - x1*y2) of the line through a and b.
   */
  function LineSide(a: Point2, b: Point2, p: Point2): real {
    p.x * (b.y - a.y) + p.y * (a.x - b.x) + (b.x * a.y - a.x * b.y)
  }

  /** The linear part of a rotation by the angle whose cosine is c and sine is s. */
  function RotVec(v: Point2, c: real, s: real): Point2 {
    Point2(v.x * c - v.y * s, v.x * s + v.y * c)
  }

  /**
   Rotates p about pivot: x' = (x - px)c - (y - py)s + px and
   y' = (x - px)s + (y - py)c + py, where c and s stand for the cosine and sine
   of the rotation angle.
   */
  function RotateAbout(p: Point2, pivot: Point2, c: real, s: real): (q: Point2)
    ensures p == pivot ==> q == pivot
    ensures c == 1.0 && s == 0.0 ==> q == p
  {
    Add(RotVec(Sub(p, pivot), c, s), pivot)
  }

  /** A proper rotation: c and s are the cosine and sine of one angle. */
  predicate Unit(c: real, s: real) {
    c * c + s * s == 1.0
  }

  // ---------------------------------------------------------------------------
  // Algebraic facts
  // ---------------------------------------------------------------------------

  /** The line-equation test is the cross-product test with its sign flipped. */
  lemma LineSideIsNegatedOrient(a: Point2, b: Point2, p: Point2)
    ensures LineSide(a, b, p) == -Orient(a, b, p)
  {
  }

  /**
   Shifting the three points cyclically keeps the side value: the signed area
   of a triangle does not depend on which corner it is measured from.
   */
  lemma OrientCyclic(p: Point2, a: Point2, b: Point2)
    ensures Orient(p, a, b) == Orient(a, b, p)
  {
  }

  /** Swapping the two last arguments of the side test negates it. */
  lemma OrientSwap(a: Point2, b: Point2, c: Point2)
    ensures Orient(a, c, b) == -Orient(a, b, c)
  {
  }

  /** Lagrange's identity in the plane: (a·b)² + (a×b)² = |a|²|b|². */
  lemma Lagrange(a: Point2, b: Point2)
    ensures Dot(a, b) * Dot(a, b) + Cross(a, b) * Cross(a, b) == NormSq(a) * NormSq(b)
  {
  }

  /** Cauchy-Schwarz, squared form. */
  lemma CauchySchwarz(a: Point2, b: Point2)
    ensures Dot(a, b) * Dot(a, b) <= NormSq(a) * NormSq(b)
  {
    Lagrange(a, b);
  }

  lemma UnitFactor(c: real, s: real, x: real)
    requires Unit(c, s)
    ensures (c * c + s * s) * x == x
  {
  }

  lemma RotVecLinear(u: Point2, v: Point2, c: real, s: real)
    ensures Sub(RotVec(u, c, s), RotVec(v, c, s)) == RotVec(Sub(u, v), c, s)
  {
    assert (u.x - v.x) * c == u.x * c - v.x * c;
    assert (u.y - v.y) * s == u.y * s - v.y * s;
    assert (u.x - v.x) * s == u.x * s - v.x * s;
    assert (u.y - v.y) * c == u.y * c - v.y * c;
  }

  /** The difference of two rotated points is the rotated difference. */
  lemma RotateAboutSub(p: Point2, q: Point2, pivot: Point2, c: real, s: real)
    ensures Sub(RotateAbout(p, pivot, c, s), RotateAbout(q, pivot, c, s)) == RotVec(Sub(p, q), c, s)
  {
    var u, v := Sub(p, pivot), Sub(q, pivot);
    assert Sub(RotateAbout(p, pivot, c, s), RotateAbout(q, pivot, c, s)) == Sub(RotVec(u, c, s), RotVec(v, c, s));
    assert Sub(p, q) == Sub(u, v);
    RotVecLinear(u, v, c, s);
  }

  lemma CrossRotIdentity(ux: real, uy: real, vx: real, vy: real, c: real, s: real)
    ensures (ux * c - uy * s) * (vx * s + vy * c) - (ux * s + uy * c) * (vx * c - vy * s)
            == (c * c + s * s) * (ux * vy - uy * vx)
  {
  }

  lemma DotRotIdentity(ux: real, uy: real, vx: real, vy: real, c: real, s: real)
    ensures (ux * c - uy * s) * (vx * c - vy * s) + (ux * s + uy * c) * (vx * s + vy * c)
            == (c * c + s * s) * (ux * vx + uy * vy)
  {
  }

  /** A proper rotation preserves cross products. */
  lemma RotVecCross(u: Point2, v: Point2, c: real, s: real)
    requires Unit(c, s)
    ensures Cross(RotVec(u, c, s), RotVec(v, c, s)) == Cross(u, v)
  {
    CrossRotIdentity(u.x, u.y, v.x, v.y, c, s);
    UnitFactor(c, s, Cross(u, v));
  }

  /** A proper rotation preserves dot products. */
  lemma RotVecDot(u: Point2, v: Point2, c: real, s: real)
    requires Unit(c, s)
    ensures Dot(RotVec(u, c, s), RotVec(v, c, s)) == Dot(u, v)
  {
    DotRotIdentity(u.x, u.y, v.x, v.y, c, s);
    UnitFactor(c, s, Dot(u, v));
  }

  /** A proper rotation about a pivot preserves the squared distance to it. */
  lemma RotationPreservesDistance(p: Point2, pivot: Point2, c: real, s: real)
    requires Unit(c, s)
    ensures NormSq(Sub(RotateAbout(p, pivot, c, s), pivot)) == NormSq(Sub(p, pivot))
  {
    assert Sub(RotateAbout(p, pivot, c, s), pivot) == RotVec(Sub(p, pivot), c, s);
    RotVecDot(Sub(p, pivot), Sub(p, pivot), c, s);
  }

  /** The side test is unchanged when its three points rotate together. */
  lemma OrientUnderRotation(a: Point2, b: Point2, p: Point2, pivot: Point2, c: real, s: real)
    requires Unit(c, s)
    ensures Orient(RotateAbout(a, pivot, c, s), RotateAbout(b, pivot, c, s), RotateAbout(p, pivot, c, s))
            == Orient(a, b, p)
  {
    RotateAboutSub(b, a, pivot, c, s);
    RotateAboutSub(p, a, pivot, c, s);
    RotVecCross(Sub(b, a), Sub(p, a), c, s);
  }

  /** Dot products of differences are unchanged when the points rotate together. */
  lemma DotUnderRotation(p: Point2, q: Point2, u: Point2, v: Point2, pivot: Point2, c: real, s: real)
    requires Unit(c, s)
    ensures Dot(Sub(RotateAbout(p, pivot, c, s), RotateAbout(q, pivot, c, s)),
                Sub(RotateAbout(u, pivot, c, s), RotateAbout(v, pivot, c, s)))
            == Dot(Sub(p, q), Sub(u, v))
  {
    RotateAboutSub(p, q, pivot, c, s);
    RotateAboutSub(u, v, pivot, c, s);
    RotVecDot(Sub(p, q), Sub(u, v), c, s);
  }

  function Max(a: real, b: real): real {
    if a >= b then a else b
  }

  function Min(a: real, b: real): real {
    if a <= b then a else b
  }

  /**
   The sign of a product kv = k·v with a positive factor k is the sign of v.
   The product is passed by name so that callers can hand in any expression
   equal to it.
   */
  lemma PositiveFactor(k: real, v: real, kv: real)
    requires k > 0.0 && kv == k * v
    ensures kv <= 0.0 <==> v <= 0.0
    ensures kv >= 0.0 <==> v >= 0.0
    ensures kv < 0.0 <==> v < 0.0
    ensures kv > 0.0 <==> v > 0.0
  {
    if v > 0.0 {
      assert k * v > 0.0;
    } else if v < 0.0 {
      assert k * v < 0.0;
    }
  }

  /** 0 ≤ kv ≤ kw reduces to 0 ≤ v ≤ w when kv = k·v, kw = k·w and k is positive. */
  lemma PositiveBetween(k: real, v: real, w: real, kv: real, kw: real)
    requires k > 0.0 && kv == k * v && kw == k * w
    ensures (0.0 <= kv && kv <= kw) <==> (0.0 <= v && v <= w)
  {
    PositiveFactor(k, v, kv);
    PositiveFactor(k, w - v, kw - kv);
  }

  /** x·y ≤ 0 when x ≥ 0 ≥ y. */
  lemma MixedSignProduct(x: real, y: real, xy: real)
    requires x >= 0.0 && y <= 0.0 && xy == x * y
    ensures xy <= 0.0
  {
  }

  /** Multiplying both sides of x ≤ y by a non-negative k keeps the order. */
  lemma MulMonotone(x: real, y: real, k: real, xk: real, yk: real)
    requires x <= y && k >= 0.0 && xk == x * k && yk == y * k
    ensures xk <= yk
  {
    MixedSignProduct(k, x - y, xk - yk);
  }

  /** x·k ≤ y·k with a positive k gives x ≤ y. */
  lemma MulCancel(x: real, y: real, k: real, xk: real, yk: real)
    requires k > 0.0 && xk == x * k && yk == y * k && xk <= yk
    ensures x <= y
  {
    PositiveFactor(k, y - x, yk - xk);
  }

  /** A square xx = x·x is never negative, and positive away from zero. */
  lemma SquareSign(x: real, xx: real)
    requires xx == x * x
    ensures xx >= 0.0
    ensures x != 0.0 ==> xx > 0.0
  {
    if x < 0.0 {
      PositiveFactor(-x, -x, xx);
    } else if x > 0.0 {
      PositiveFactor(x, x, xx);
    }
  }

  /** A squared norm is never negative, and positive away from the origin. */
  lemma NormSqSign(a: Point2)
    ensures NormSq(a) >= 0.0
    ensures a != Origin ==> NormSq(a) > 0.0
  {
    SquareSign(a.x, a.x * a.x);
    SquareSign(a.y, a.y * a.y);
    if a != Origin {
      assert a.x != 0.0 || a.y != 0.0;
    }
  }

  /** x² ≤ y² with y ≥ 0 gives x ≤ y. */
  lemma SquareLe(x: real, y: real, xx: real, yy: real)
    requires y >= 0.0 && xx == x * x && yy == y * y && xx <= yy
    ensures x <= y
  {
    if x > y {
      // x > y ≥ 0, so x·x - y·y = (x - y)(x + y) > 0.
      PositiveFactor(x - y, x + y, xx - yy);
    }
  }

  lemma NormSqScale(k: real, v: Point2)
    ensures NormSq(Scale(k, v)) == k * k * NormSq(v)
  {
  }

  lemma NormSqAdd(u: Point2, v: Point2)
    ensures NormSq(Add(u, v)) == NormSq(u) + 2.0 * Dot(u, v) + NormSq(v)
  {
  }

  /** 0 ≤ x1 ≤ y1 and 0 ≤ x2 ≤ y2 give x1·x2 ≤ y1·y2 (products passed by name). */
  lemma ProductLe(x1: real, y1: real, x2: real, y2: real, xx: real, yy: real)
    requires 0.0 <= x1 <= y1 && 0.0 <= x2 <= y2 && xx == x1 * x2 && yy == y1 * y2
    ensures xx <= yy
  {
    MulMonotone(x1, y1, x2, x1 * x2, y1 * x2);
    MulMonotone(x2, y2, y1, x2 * y1, y2 * y1);
  }

  /** d² ≤ nu·nv, nu ≤ a² and nv ≤ b² give d ≤ ab. */
  lemma ScalarBound(d: real, nu: real, nv: real, a: real, b: real)
    requires a >= 0.0 && b >= 0.0 && 0.0 <= nu <= a * a && 0.0 <= nv <= b * b && d * d <= nu * nv
    ensures d <= a * b
  {
    ProductLe(nu, a * a, nv, b * b, nu * nv, (a * a) * (b * b));
    assert (a * b) * (a * b) == (a * a) * (b * b);
    MixedSignProduct(a, -b, -(a * b));
    SquareLe(d, a * b, d * d, (a * b) * (a * b));
  }

  /** |u| ≤ a and |v| ≤ b give u·v ≤ ab. */
  lemma DotBound(u: Point2, v: Point2, a: real, b: real)
    requires a >= 0.0 && b >= 0.0 && NormSq(u) <= a * a && NormSq(v) <= b * b
    ensures Dot(u, v) <= a * b
  {
    NormSqSign(u);
    NormSqSign(v);
    CauchySchwarz(u, v);
    ScalarBound(Dot(u, v), NormSq(u), NormSq(v), a, b);
  }

  /**
   Triangle inequality in squared form: |u| ≤ a and |v| ≤ b give |u + v| ≤ a + b.
   */
  lemma TriangleSq(u: Point2, v: Point2, a: real, b: real)
    requires a >= 0.0 && b >= 0.0 && NormSq(u) <= a * a && NormSq(v) <= b * b
    ensures NormSq(Add(u, v)) <= (a + b) * (a + b)
  {
    DotBound(u, v, a, b);
    NormSqAdd(u, v);
    assert (a + b) * (a + b) == a * a + 2.0 * (a * b) + b * b;
  }
}
