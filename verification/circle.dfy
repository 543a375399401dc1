/**
 Circle collisions by radius: point in circle, circle in circle, circle meets
 circle, and a rectangle's vertices against a circle. A circle is a shape whose
 pivot is the centre and whose radius is half its width.
 */
module Circle {
  import opened Geometry
  import opened Shapes
  import opened Folds

  function Radius(circle: Shape): real {
    circle.sizeX / 2.0
  }

  /** |P - C|² ≤ r², with C the centre. */
  predicate PointInCircle(circle: Shape, p: Point2) {
    var v := Sub(p, circle.pivot);
    var r := Radius(circle);
    Dot(v, v) <= r * r
  }

  /** The squared distance of the centres is at most (r1 - r2)². */
  predicate CircleInCircle(collider: Shape, circle: Shape) {
    var r1, r2 := Radius(collider), Radius(circle);
    NormSq(Sub(circle.pivot, collider.pivot)) <= (r1 - r2) * (r1 - r2)
  }

  /** The squared distance of the centres is at most (r1 + r2)². */
  predicate IntersectCircle(collider: Shape, circle: Shape) {
    var r1, r2 := Radius(collider), Radius(circle);
    NormSq(Sub(circle.pivot, collider.pivot)) <= (r1 + r2) * (r1 + r2)
  }

  /** The per-vertex verdicts 'vertex in circle', in order. */
  function Inside(circle: Shape, pts: seq<Point2>): (vs: seq<bool>)
    ensures |vs| == |pts|
    ensures forall i :: 0 <= i < |pts| ==> vs[i] == PointInCircle(circle, pts[i])
  {
    if |pts| == 0 then [] else Inside(circle, pts[..|pts| - 1]) + [PointInCircle(circle, pts[|pts| - 1])]
  }

  /** The per-vertex verdicts 'vertex out of circle', in order. */
  function Outside(circle: Shape, pts: seq<Point2>): (vs: seq<bool>)
    ensures |vs| == |pts|
    ensures forall i :: 0 <= i < |pts| ==> vs[i] == !PointInCircle(circle, pts[i])
  {
    if |pts| == 0 then [] else Outside(circle, pts[..|pts| - 1]) + [!PointInCircle(circle, pts[|pts| - 1])]
  }

  /** The rectangle is (partly) out of the circle: some vertex is outside it. */
  function CheckRectOutCircle(circle: Shape, rect: Shape): (out: bool)
    requires |rect.vertices| >= 1
    ensures out <==> exists i :: 0 <= i < |rect.vertices| && !PointInCircle(circle, rect.vertices[i])
  {
    AnyOf(Outside(circle, rect.vertices))
  }

  /** The rectangle has entered the circle: some vertex is inside it. */
  function CheckRectInCircle(circle: Shape, rect: Shape): (isIn: bool)
    requires |rect.vertices| >= 1
    ensures isIn <==> exists i :: 0 <= i < |rect.vertices| && PointInCircle(circle, rect.vertices[i])
  {
    AnyOf(Inside(circle, rect.vertices))
  }

  /** A rectangle that is not out of a circle has entered it. */
  lemma NotOutMeansIn(circle: Shape, rect: Shape)
    requires |rect.vertices| >= 1
    ensures !CheckRectOutCircle(circle, rect) ==> CheckRectInCircle(circle, rect)
    ensures !CheckRectOutCircle(circle, rect) <==> forall i :: 0 <= i < |rect.vertices| ==> PointInCircle(circle, rect.vertices[i])
  {
  }

  // ---------------------------------------------------------------------------
  // Geometry of the radius tests
  // ---------------------------------------------------------------------------

  /** The centre is in its own circle. */
  lemma PivotInside(circle: Shape)
    ensures PointInCircle(circle, circle.pivot)
  {
    var r := Radius(circle);
    assert Sub(circle.pivot, circle.pivot) == Origin;
    SquareSign(r, r * r);
  }

  lemma DistanceSymmetric(p: Point2, q: Point2)
    ensures NormSq(Sub(p, q)) == NormSq(Sub(q, p))
  {
  }

  /** Both pairwise tests ignore which circle is the collider. */
  lemma PairTestsSymmetric(c1: Shape, c2: Shape)
    ensures CircleInCircle(c1, c2) == CircleInCircle(c2, c1)
    ensures IntersectCircle(c1, c2) == IntersectCircle(c2, c1)
  {
    var r1, r2 := Radius(c1), Radius(c2);
    DistanceSymmetric(c1.pivot, c2.pivot);
    assert (r1 - r2) * (r1 - r2) == (r2 - r1) * (r2 - r1);
  }

  /** With the same centre the smaller circle lies in the larger, so circleInCircle holds either way round. */
  lemma ConcentricContained(c1: Shape, c2: Shape)
    requires c1.pivot == c2.pivot
    ensures CircleInCircle(c1, c2)
  {
    SquareSign(Radius(c1) - Radius(c2), (Radius(c1) - Radius(c2)) * (Radius(c1) - Radius(c2)));
    assert Sub(c2.pivot, c1.pivot) == Origin;
  }

  /**
   With r1 ≥ r2 ≥ 0, containment as computed means every point of the inner disc
   lies in the outer one.
   */
  lemma ContainedPointsInside(collider: Shape, circle: Shape, p: Point2)
    requires Radius(collider) >= Radius(circle) >= 0.0
    requires CircleInCircle(collider, circle) && PointInCircle(circle, p)
    ensures PointInCircle(collider, p)
  {
    var r1, r2 := Radius(collider), Radius(circle);
    var u, v := Sub(p, circle.pivot), Sub(circle.pivot, collider.pivot);
    TriangleSq(u, v, r2, r1 - r2);
    assert Add(u, v) == Sub(p, collider.pivot);
  }

  /** With non-negative radii, a contained circle meets its container. */
  lemma ContainedImpliesIntersect(collider: Shape, circle: Shape)
    requires Radius(collider) >= 0.0 && Radius(circle) >= 0.0
    ensures CircleInCircle(collider, circle) ==> IntersectCircle(collider, circle)
  {
    var r1, r2 := Radius(collider), Radius(circle);
    MixedSignProduct(r1, -r2, -(r1 * r2));
    assert (r1 + r2) * (r1 + r2) == (r1 - r2) * (r1 - r2) + 4.0 * (r1 * r2);
  }

  /** n ≤ R² gives k²n ≤ (kR)². */
  lemma ScaledBound(k: real, n: real, bound: real)
    requires n <= bound * bound
    ensures k * k * n <= (k * bound) * (k * bound)
  {
    SquareSign(k, k * k);
    MulMonotone(n, bound * bound, k * k, k * k * n, (k * bound) * (k * bound));
  }

  /** Scaling a vector of length at most R by k gives one of length at most |k|R. */
  lemma ScaleWithin(k: real, v: Point2, bound: real)
    requires NormSq(v) <= bound * bound
    ensures NormSq(Scale(k, v)) <= (k * bound) * (k * bound)
  {
    NormSqScale(k, v);
    ScaledBound(k, NormSq(v), bound);
  }

  /** |v| ≤ R and |k|R = |r| give |kv| ≤ |r|. */
  lemma RatioBound(v: Point2, k: real, bound: real, r: real)
    requires NormSq(v) <= bound * bound && (k * bound == r || k * bound == -r)
    ensures NormSq(Scale(k, v)) <= r * r
  {
    ScaleWithin(k, v, bound);
    assert (k * bound) * (k * bound) == r * r;
  }

  /**
   The point that divides the segment of centres in the ratio r1 : r2 lies in
   both discs when the intersection test holds and r1 + r2 > 0.
   */
  lemma RatioPoint(c1: Shape, c2: Shape) returns (p: Point2)
    requires Radius(c1) + Radius(c2) > 0.0 && IntersectCircle(c1, c2)
    ensures PointInCircle(c1, p) && PointInCircle(c2, p)
  {
    var r1, r2 := Radius(c1), Radius(c2);
    var v := Sub(c2.pivot, c1.pivot);
    var k := r1 / (r1 + r2);
    assert k * (r1 + r2) == r1;
    assert (k - 1.0) * (r1 + r2) == -r2;
    p := Add(c1.pivot, Scale(k, v));
    RatioBound(v, k, r1 + r2, r1);
    RatioBound(v, k - 1.0, r1 + r2, r2);
    assert Sub(p, c1.pivot) == Scale(k, v);
    assert Sub(p, c2.pivot) == Scale(k - 1.0, v);
  }

  /** Two circles of radius 0 that pass the intersection test share their centre. */
  lemma PointCircles(c1: Shape, c2: Shape)
    requires Radius(c1) == 0.0 && Radius(c2) == 0.0 && IntersectCircle(c1, c2)
    ensures PointInCircle(c1, c1.pivot) && PointInCircle(c2, c1.pivot)
  {
    assert (Radius(c1) + Radius(c2)) * (Radius(c1) + Radius(c2)) == 0.0;
    assert Radius(c2) * Radius(c2) == 0.0;
    PivotInside(c1);
    DistanceSymmetric(c1.pivot, c2.pivot);
  }

  /** When the intersection test holds, some point lies in both discs. */
  lemma CommonPoint(c1: Shape, c2: Shape) returns (p: Point2)
    requires Radius(c1) >= 0.0 && Radius(c2) >= 0.0 && IntersectCircle(c1, c2)
    ensures PointInCircle(c1, p) && PointInCircle(c2, p)
  {
    if Radius(c1) + Radius(c2) == 0.0 {
      p := c1.pivot;
      assert Radius(c1) == 0.0 && Radius(c2) == 0.0;
      PointCircles(c1, c2);
    } else {
      p := RatioPoint(c1, c2);
    }
  }

  /** A point shared by two discs puts their centres within r1 + r2. */
  lemma SharedPointIntersects(c1: Shape, c2: Shape, p: Point2)
    requires Radius(c1) >= 0.0 && Radius(c2) >= 0.0
    requires PointInCircle(c1, p) && PointInCircle(c2, p)
    ensures IntersectCircle(c1, c2)
  {
    var u, w := Sub(p, c1.pivot), Sub(c2.pivot, p);
    DistanceSymmetric(p, c2.pivot);
    TriangleSq(u, w, Radius(c1), Radius(c2));
    assert Add(u, w) == Sub(c2.pivot, c1.pivot);
  }

  /**
   With non-negative radii, the intersection test holds iff the two closed
   discs share a point.
   */
  lemma IntersectMeansCommonPoint(c1: Shape, c2: Shape)
    requires Radius(c1) >= 0.0 && Radius(c2) >= 0.0
    ensures IntersectCircle(c1, c2) <==> exists p :: PointInCircle(c1, p) && PointInCircle(c2, p)
  {
    if IntersectCircle(c1, c2) {
      var p := CommonPoint(c1, c2);
    }
    if exists p :: PointInCircle(c1, p) && PointInCircle(c2, p) {
      var p :| PointInCircle(c1, p) && PointInCircle(c2, p);
      SharedPointIntersects(c1, c2, p);
    }
  }

  /** A closed disc is convex: the segment between two of its points stays in it. */
  lemma DiscConvex(circle: Shape, p: Point2, q: Point2, t: real)
    requires Radius(circle) >= 0.0 && 0.0 <= t <= 1.0
    requires PointInCircle(circle, p) && PointInCircle(circle, q)
    ensures PointInCircle(circle, Add(Scale(1.0 - t, p), Scale(t, q)))
  {
    var r, c := Radius(circle), circle.pivot;
    var u, w := Sub(p, c), Sub(q, c);
    ScaleWithin(1.0 - t, u, r);
    ScaleWithin(t, w, r);
    MixedSignProduct(1.0 - t, -r, -((1.0 - t) * r));
    MixedSignProduct(t, -r, -(t * r));
    TriangleSq(Scale(1.0 - t, u), Scale(t, w), (1.0 - t) * r, t * r);
    assert Add(Scale(1.0 - t, u), Scale(t, w)) == Sub(Add(Scale(1.0 - t, p), Scale(t, q)), c);
    assert (1.0 - t) * r + t * r == r;
  }
}
