/**
 The stand-alone helpers of the entry script: point-in-rectangle by dot
 products and by extents, and two line-versus-circle tests. The circle is a
 bounding box whose pivot is the centre and whose half width is the radius.
 */
module Index {
  import opened Geometry
  import opened Shapes
  import opened Regions

  /** The dot-product test with A = LT, B = RT, D = LB. */
  predicate PointInRectByDot(p: Point2, rect: BBox) {
    DotInRect(p, rect.lt, rect.rt, rect.lb)
  }

  /** The extent test: left ≤ x ≤ right and bottom ≤ y ≤ top. */
  predicate PointInRect(p: Point2, rect: BBox) {
    InClosedBox(p, rect)
  }

  /**
   On an unrotated box of positive width and height the two point-in-rectangle
   tests agree, and the corners are inside.
   */
  lemma RectTestsAgree(rect: BBox, p: Point2)
    requires Aligned(rect) && rect.left < rect.right && rect.bottom < rect.top
    ensures PointInRectByDot(p, rect) <==> PointInRect(p, rect)
    ensures PointInRect(rect.lt, rect) && PointInRect(rect.lb, rect)
    ensures PointInRect(rect.rt, rect) && PointInRect(rect.rb, rect)
  {
    DotTestIsClosedBox(rect, p);
  }

  /** The dot-product test follows the box when it is rotated about any pivot. */
  lemma DotTestFollowsRotation(rect: BBox, p: Point2, pivot: Point2, c: real, s: real)
    requires Unit(c, s)
    ensures var rot := rect.(lt := RotateAbout(rect.lt, pivot, c, s),
                             rt := RotateAbout(rect.rt, pivot, c, s),
                             lb := RotateAbout(rect.lb, pivot, c, s));
            PointInRectByDot(RotateAbout(p, pivot, c, s), rot) == PointInRectByDot(p, rect)
  {
    DotRotationInvariant(p, rect.lt, rect.rt, rect.lb, pivot, c, s);
  }

  // ---------------------------------------------------------------------------
  // Line against circle
  // ---------------------------------------------------------------------------

  /** The point a + t(b - a) of the line through a and b. */
  function PointOnLine(a: Point2, b: Point2, t: real): Point2 {
    Add(a, Scale(t, Sub(b, a)))
  }

  /**
   The cross-product test r²|B - A|² - |A × B|² ≥ 0, with r the circle's half
   width. The formula is that of a circle centred on the origin: the circle's
   pivot is not read.
   */
  predicate IntersectLineCircle(a: Point2, b: Point2, circle: BBox) {
    var r := circle.halfSizeX;
    r * r * NormSq(Sub(b, a)) - Cross(a, b) * Cross(a, b) >= 0.0
  }

  lemma CrossAlongLine(a: Point2, b: Point2, t: real)
    ensures Cross(PointOnLine(a, b, t), Sub(b, a)) == Cross(a, b)
  {
    var d := Sub(b, a);
    assert Cross(PointOnLine(a, b, t), d) == Cross(a, d) + t * Cross(d, d);
  }

  lemma DotAlongLine(a: Point2, b: Point2, t: real)
    ensures Dot(PointOnLine(a, b, t), Sub(b, a)) == Dot(a, Sub(b, a)) + t * NormSq(Sub(b, a))
  {
  }

  /** Swapping the two line points does not change the verdict. */
  lemma LineCircleSymmetric(a: Point2, b: Point2, circle: BBox)
    ensures IntersectLineCircle(a, b, circle) == IntersectLineCircle(b, a, circle)
  {
    assert NormSq(Sub(a, b)) == NormSq(Sub(b, a));
    assert Cross(b, a) == -Cross(a, b);
    assert Cross(b, a) * Cross(b, a) == Cross(a, b) * Cross(a, b);
  }

  /** Only the circle's half width is read: moving the circle changes nothing. */
  lemma LineCircleIgnoresPivot(a: Point2, b: Point2, c1: BBox, c2: BBox)
    requires c1.halfSizeX == c2.halfSizeX
    ensures IntersectLineCircle(a, b, c1) == IntersectLineCircle(a, b, c2)
  {
  }

  /** Two equal points always pass: both terms of the formula vanish. */
  lemma DegenerateLineHits(a: Point2, circle: BBox)
    ensures IntersectLineCircle(a, a, circle)
  {
    assert Sub(a, a) == Origin;
  }

  /** A line tangent to the unit circle passes: the formula is exactly 0 there. */
  lemma TangentLineHits(circle: BBox)
    requires circle.halfSizeX == 1.0
    ensures IntersectLineCircle(Point2(-1.0, 1.0), Point2(1.0, 1.0), circle)
    ensures NormSq(PointOnLine(Point2(-1.0, 1.0), Point2(1.0, 1.0), 0.5)) == 1.0
  {
    assert Sub(Point2(1.0, 1.0), Point2(-1.0, 1.0)) == Point2(2.0, 0.0);
    assert Cross(Point2(-1.0, 1.0), Point2(1.0, 1.0)) == -2.0;
    assert PointOnLine(Point2(-1.0, 1.0), Point2(1.0, 1.0), 0.5) == Point2(0.0, 1.0);
  }

  /** If some point of the line is within r of the origin, the test passes. */
  lemma LineCircleComplete(a: Point2, b: Point2, circle: BBox, t: real)
    requires NormSq(PointOnLine(a, b, t)) <= circle.halfSizeX * circle.halfSizeX
    ensures IntersectLineCircle(a, b, circle)
  {
    var r := circle.halfSizeX;
    var d := Sub(b, a);
    var p := PointOnLine(a, b, t);
    Lagrange(p, d);
    CrossAlongLine(a, b, t);
    SquareSign(Dot(p, d), Dot(p, d) * Dot(p, d));
    NormSqSign(d);
    MulMonotone(NormSq(p), r * r, NormSq(d), NormSq(p) * NormSq(d), r * r * NormSq(d));
  }

  /** The line parameter of the foot of the perpendicular from the origin. */
  function FootParam(a: Point2, b: Point2): real
    requires a != b
  {
    var d := Sub(b, a);
    assert d != Origin by {
      assert Add(d, a) == b;
    }
    NormSqSign(d);
    -Dot(a, d) / NormSq(d)
  }

  /** The foot of the perpendicular from the origin to the line through a and b. */
  function Foot(a: Point2, b: Point2): (f: Point2)
    requires a != b
    ensures Dot(f, Sub(b, a)) == 0.0
    ensures Cross(f, Sub(b, a)) == Cross(a, b)
  {
    var d := Sub(b, a);
    var t := FootParam(a, b);
    NormSqSign(d);
    DotAlongLine(a, b, t);
    CrossAlongLine(a, b, t);
    assert t * NormSq(d) == -Dot(a, d);
    PointOnLine(a, b, t)
  }

  /** |F|²|B - A|² = (A × B)² for the foot point F, by Lagrange's identity. */
  lemma FootDistance(a: Point2, b: Point2)
    requires a != b
    ensures NormSq(Foot(a, b)) * NormSq(Sub(b, a)) == Cross(a, b) * Cross(a, b)
  {
    var f, d := Foot(a, b), Sub(b, a);
    Lagrange(f, d);
    assert Dot(f, d) * Dot(f, d) == 0.0;
  }

  /**
   distancePointToLine(A, B, C) is |AC × AB| / |AB|. Its square, times |AB|², is
   (AC × AB)²: the foot of the perpendicular from C lies on the line AB, and its
   distance from C satisfies that identity.
   */
  lemma PointToLineDistance(a: Point2, b: Point2, c: Point2)
    requires a != b
    ensures Sub(a, c) != Sub(b, c)
    ensures var f := Add(c, Foot(Sub(a, c), Sub(b, c)));
            && Cross(Sub(f, a), Sub(b, a)) == 0.0
            && Dot(Sub(f, c), Sub(b, a)) == 0.0
            && NormSq(Sub(f, c)) * NormSq(Sub(b, a)) == Cross(Sub(c, a), Sub(b, a)) * Cross(Sub(c, a), Sub(b, a))
  {
    var ac, bc := Sub(a, c), Sub(b, c);
    assert ac != bc by {
      assert Add(ac, c) == a && Add(bc, c) == b;
    }
    var foot := Foot(ac, bc);
    assert Sub(bc, ac) == Sub(b, a);
    assert Sub(Add(c, foot), c) == foot;
    FootDistance(ac, bc);
    assert Cross(Sub(c, a), Sub(b, a)) == -Cross(ac, bc);
  }

  /** If the test passes on a proper line, its foot point is within r of the origin. */
  lemma LineCircleSound(a: Point2, b: Point2, circle: BBox)
    requires a != b && IntersectLineCircle(a, b, circle)
    ensures NormSq(Foot(a, b)) <= circle.halfSizeX * circle.halfSizeX
  {
    var r := circle.halfSizeX;
    var d := Sub(b, a);
    assert d != Origin by {
      assert Add(d, a) == b;
    }
    NormSqSign(d);
    FootDistance(a, b);
    MulCancel(NormSq(Foot(a, b)), r * r, NormSq(d), NormSq(Foot(a, b)) * NormSq(d), r * r * NormSq(d));
  }

  /**
   For two distinct points the test is exactly: the line through them meets the
   closed disc of radius |r| about the origin.
   */
  lemma LineCircleMeaning(a: Point2, b: Point2, circle: BBox)
    requires a != b
    ensures IntersectLineCircle(a, b, circle)
            <==> exists t :: NormSq(PointOnLine(a, b, t)) <= circle.halfSizeX * circle.halfSizeX
  {
    var r := circle.halfSizeX;
    if IntersectLineCircle(a, b, circle) {
      LineCircleSound(a, b, circle);
      assert PointOnLine(a, b, FootParam(a, b)) == Foot(a, b);
    }
    if exists t :: NormSq(PointOnLine(a, b, t)) <= r * r {
      var t :| NormSq(PointOnLine(a, b, t)) <= r * r;
      LineCircleComplete(a, b, circle, t);
    }
  }

  /**
   The projection test: with C the circle's pivot, the squared distance from C
   to the line is |AC|² - (AC·AB / |AB|)², compared with r². The square of the
   projected length is written (AC·AB)² / |AB|², which needs no square root. For
   A = B the length is 0 / 0, which is not a number, and every comparison with
   it is false.
   */
  predicate IntersectVectorCircle(a: Point2, b: Point2, circle: BBox) {
    var ac := Sub(circle.pivot, a);
    var ab := Sub(b, a);
    var r := circle.halfSizeX;
    NormSq(ab) != 0.0 && NormSq(ac) - Dot(ac, ab) * Dot(ac, ab) / NormSq(ab) <= r * r
  }

  /**
   The cross-product test measured from the circle's pivot: both points are
   first expressed relative to the centre.
   */
  predicate IntersectLineCircleAt(a: Point2, b: Point2, circle: BBox) {
    IntersectLineCircle(Sub(a, circle.pivot), Sub(b, circle.pivot), circle)
  }

  /** Translating the line by -c moves each of its points by -c. */
  lemma PointOnShiftedLine(a: Point2, b: Point2, c: Point2, t: real)
    ensures PointOnLine(Sub(a, c), Sub(b, c), t) == Sub(PointOnLine(a, b, t), c)
  {
    assert Sub(Sub(b, c), Sub(a, c)) == Sub(b, a);
  }

  /**
   The pivot-relative test is exactly: the line through two distinct points
   meets the closed disc of radius |r| about the circle's pivot.
   */
  lemma LineCircleAtMeaning(a: Point2, b: Point2, circle: BBox)
    requires a != b
    ensures IntersectLineCircleAt(a, b, circle)
            <==> exists t :: NormSq(Sub(PointOnLine(a, b, t), circle.pivot)) <= circle.halfSizeX * circle.halfSizeX
  {
    var c, r := circle.pivot, circle.halfSizeX;
    var a', b' := Sub(a, c), Sub(b, c);
    assert a' != b' by {
      assert Add(a', c) == a && Add(b', c) == b;
    }
    LineCircleMeaning(a', b', circle);
    if IntersectLineCircleAt(a, b, circle) {
      var t :| NormSq(PointOnLine(a', b', t)) <= r * r;
      PointOnShiftedLine(a, b, c, t);
    }
    if exists t :: NormSq(Sub(PointOnLine(a, b, t), c)) <= r * r {
      var t :| NormSq(Sub(PointOnLine(a, b, t), c)) <= r * r;
      PointOnShiftedLine(a, b, c, t);
    }
  }

  /** m - dd/n ≤ rr is rr·n - cc ≥ 0 when n > 0 and m·n = dd + cc. */
  lemma ScaledComparison(m: real, dd: real, cc: real, n: real, rr: real)
    requires n > 0.0 && m * n == dd + cc
    ensures (m - dd / n <= rr) <==> (rr * n - cc >= 0.0)
  {
    assert (dd / n) * n == dd;
    PositiveFactor(n, rr - (m - dd / n), rr * n - cc);
  }

  /**
   For two distinct points the projection test and the pivot-relative
   cross-product test agree.
   */
  lemma VectorTestMatchesLineTestAt(a: Point2, b: Point2, circle: BBox)
    requires a != b
    ensures IntersectVectorCircle(a, b, circle) == IntersectLineCircleAt(a, b, circle)
  {
    var c, r := circle.pivot, circle.halfSizeX;
    var ac, ab := Sub(c, a), Sub(b, a);
    var a', b' := Sub(a, c), Sub(b, c);
    assert ab != Origin by {
      assert Add(ab, a) == b;
    }
    NormSqSign(ab);
    Lagrange(ac, ab);
    assert Sub(b', a') == ab;
    assert Cross(a', b') == -Cross(ac, ab);
    assert Cross(a', b') * Cross(a', b') == Cross(ac, ab) * Cross(ac, ab);
    ScaledComparison(NormSq(ac), Dot(ac, ab) * Dot(ac, ab), Cross(ac, ab) * Cross(ac, ab), NormSq(ab), r * r);
  }

  /** Every point with x = -9 is at squared distance at least 81 from the origin. */
  lemma FarFromOrigin(q: Point2)
    requires q.x == -9.0
    ensures NormSq(q) >= 81.0
  {
    SquareSign(q.y, q.y * q.y);
  }

  /** Every point of the line x = 1 is at squared distance at least 81 from (10, 0). */
  lemma LineFarFromPivot(t: real)
    ensures NormSq(Sub(PointOnLine(Point2(1.0, -1.0), Point2(1.0, 1.0), t), Point2(10.0, 0.0))) >= 81.0
  {
    var p := PointOnLine(Point2(1.0, -1.0), Point2(1.0, 1.0), t);
    assert Sub(Point2(1.0, 1.0), Point2(1.0, -1.0)) == Point2(0.0, 2.0);
    assert t * 0.0 == 0.0;
    assert p.x == 1.0;
    FarFromOrigin(Sub(p, Point2(10.0, 0.0)));
  }

  /**
   The cross-product test ignores the pivot: a circle of radius 1 about (10, 0)
   is reported to meet the line x = 1, although every point of that line is at
   least 9 away from the centre.
   */
  lemma PivotIgnoredCounterexample(circle: BBox)
    requires circle.pivot == Point2(10.0, 0.0) && circle.halfSizeX == 1.0
    ensures IntersectLineCircle(Point2(1.0, -1.0), Point2(1.0, 1.0), circle)
    ensures forall t :: NormSq(Sub(PointOnLine(Point2(1.0, -1.0), Point2(1.0, 1.0), t), circle.pivot)) >= 81.0
  {
    assert Sub(Point2(1.0, 1.0), Point2(1.0, -1.0)) == Point2(0.0, 2.0);
    forall t
      ensures NormSq(Sub(PointOnLine(Point2(1.0, -1.0), Point2(1.0, 1.0), t), circle.pivot)) >= 81.0
    {
      LineFarFromPivot(t);
    }
  }

  /** No point of the line x = 1 lies within distance 1 of (10, 0). */
  lemma NoLinePointNearPivot(circle: BBox)
    requires circle.pivot == Point2(10.0, 0.0) && circle.halfSizeX == 1.0
    ensures !exists t :: NormSq(Sub(PointOnLine(Point2(1.0, -1.0), Point2(1.0, 1.0), t), circle.pivot))
                         <= circle.halfSizeX * circle.halfSizeX
  {
    forall t
      ensures NormSq(Sub(PointOnLine(Point2(1.0, -1.0), Point2(1.0, 1.0), t), circle.pivot)) > 1.0
    {
      LineFarFromPivot(t);
    }
  }

  /** The pivot-relative test rejects the line of the counterexample above. */
  lemma PivotRespectedByCorrection(circle: BBox)
    requires circle.pivot == Point2(10.0, 0.0) && circle.halfSizeX == 1.0
    ensures !IntersectLineCircleAt(Point2(1.0, -1.0), Point2(1.0, 1.0), circle)
  {
    LineCircleAtMeaning(Point2(1.0, -1.0), Point2(1.0, 1.0), circle);
    NoLinePointNearPivot(circle);
  }
}
