/**
 The road test: the road is two open polylines, an outer and an inner edge,
 each walked in order with no closing segment. The role box is on the road
 when all four of its corners are right of (or on) every outer segment and
 strictly left of some inner segment.
 */
module MultiLines {
  import opened Geometry
  import opened Shapes
  import opened Folds

  /**
   The marker list is cut in two: the outer edge takes the first ⌊n/2⌋
   points, the inner edge the rest.
   */
  function Split(vertices: seq<Point2>): (halves: (seq<Point2>, seq<Point2>))
    ensures halves.0 + halves.1 == vertices
    ensures |halves.0| == |vertices| / 2 && |halves.1| == |vertices| - |vertices| / 2
  {
    (vertices[..|vertices| / 2], vertices[|vertices| / 2..])
  }

  /** Every corner of the role has cross ≤ 0 against a→b: right of or on it. */
  predicate AllCornersRight(a: Point2, b: Point2, role: BBox) {
    && Orient(a, b, role.lt) <= 0.0
    && Orient(a, b, role.lb) <= 0.0
    && Orient(a, b, role.rt) <= 0.0
    && Orient(a, b, role.rb) <= 0.0
  }

  /** Every corner of the role has cross > 0 against a→b: strictly left of it. */
  predicate AllCornersLeft(a: Point2, b: Point2, role: BBox) {
    && Orient(a, b, role.lt) > 0.0
    && Orient(a, b, role.lb) > 0.0
    && Orient(a, b, role.rt) > 0.0
    && Orient(a, b, role.rb) > 0.0
  }

  /** Segment i of the polyline pts, pts[i]→pts[i+1], has the role on its right. */
  predicate SegmentRight(pts: seq<Point2>, i: nat, role: BBox)
    requires i + 1 < |pts|
  {
    AllCornersRight(pts[i], pts[i + 1], role)
  }

  /** Segment i of the polyline pts, pts[i]→pts[i+1], has the role strictly on its left. */
  predicate SegmentLeft(pts: seq<Point2>, i: nat, role: BBox)
    requires i + 1 < |pts|
  {
    AllCornersLeft(pts[i], pts[i + 1], role)
  }

  /** One verdict per consecutive pair: k points give k - 1 segments, none closing. */
  function RightVerdicts(pts: seq<Point2>, role: BBox): (vs: seq<bool>)
    requires |pts| >= 1
    ensures |vs| == |pts| - 1
    ensures forall i: nat :: i < |vs| ==> vs[i] == SegmentRight(pts, i, role)
  {
    seq(|pts| - 1, (i: int) requires 0 <= i < |pts| - 1 => SegmentRight(pts, i, role))
  }

  /** One verdict per consecutive pair: k points give k - 1 segments, none closing. */
  function LeftVerdicts(pts: seq<Point2>, role: BBox): (vs: seq<bool>)
    requires |pts| >= 1
    ensures |vs| == |pts| - 1
    ensures forall i: nat :: i < |vs| ==> vs[i] == SegmentLeft(pts, i, role)
  {
    seq(|pts| - 1, (i: int) requires 0 <= i < |pts| - 1 => SegmentLeft(pts, i, role))
  }

  /** The outer edge: the role is right of every outer segment. */
  function IsOutsideIn(outside: seq<Point2>, role: BBox): (r: bool)
    requires |outside| >= 2
    ensures r <==> forall i: nat :: i + 1 < |outside| ==> SegmentRight(outside, i, role)
  {
    AllOf(RightVerdicts(outside, role))
  }

  /** The inner edge: the role is strictly left of some inner segment. */
  function IsInsideIn(inside: seq<Point2>, role: BBox): (r: bool)
    requires |inside| >= 2
    ensures r <==> exists i: nat :: i + 1 < |inside| && SegmentLeft(inside, i, role)
  {
    AnyOf(LeftVerdicts(inside, role))
  }

  /** The role is on the road: inside the outer edge and past the inner one. */
  function CheckHitBySide(outside: seq<Point2>, inside: seq<Point2>, role: BBox): (r: bool)
    requires |outside| >= 2 && |inside| >= 2
    ensures r <==> (forall i: nat :: i + 1 < |outside| ==> SegmentRight(outside, i, role))
                   && (exists j: nat :: j + 1 < |inside| && SegmentLeft(inside, j, role))
  {
    IsOutsideIn(outside, role) && IsInsideIn(inside, role)
  }

  /** Extending the outer edge can only turn its verdict from true to false. */
  lemma {:induction false} OutsideAppend(outside: seq<Point2>, p: Point2, role: BBox)
    requires |outside| >= 2
    ensures IsOutsideIn(outside + [p], role) ==> IsOutsideIn(outside, role)
    ensures IsOutsideIn(outside + [p], role)
            <==> IsOutsideIn(outside, role) && AllCornersRight(outside[|outside| - 1], p, role)
  {
    var ext, n := outside + [p], |outside|;
    forall i: nat | i + 1 < n
      ensures SegmentRight(ext, i, role) == SegmentRight(outside, i, role)
    {
      assert ext[i] == outside[i] && ext[i + 1] == outside[i + 1];
    }
    assert SegmentRight(ext, n - 1, role) == AllCornersRight(outside[n - 1], p, role) by {
      assert ext[n - 1] == outside[n - 1] && ext[n] == p;
    }
  }

  /** Extending the inner edge can only turn its verdict from false to true. */
  lemma {:induction false} InsideAppend(inside: seq<Point2>, p: Point2, role: BBox)
    requires |inside| >= 2
    ensures IsInsideIn(inside, role) ==> IsInsideIn(inside + [p], role)
    ensures IsInsideIn(inside + [p], role)
            <==> IsInsideIn(inside, role) || AllCornersLeft(inside[|inside| - 1], p, role)
  {
    var ext, n := inside + [p], |inside|;
    forall i: nat | i + 1 < n
      ensures SegmentLeft(ext, i, role) == SegmentLeft(inside, i, role)
    {
      assert ext[i] == inside[i] && ext[i + 1] == inside[i + 1];
    }
    assert SegmentLeft(ext, n - 1, role) == AllCornersLeft(inside[n - 1], p, role) by {
      assert ext[n - 1] == inside[n - 1] && ext[n] == p;
    }
  }

  /** A role strictly left of a→b is strictly right of b→a, so it passes the outer test there. */
  lemma LeftIsReversedRight(a: Point2, b: Point2, role: BBox)
    ensures AllCornersLeft(a, b, role) ==> AllCornersRight(b, a, role)
  {
    ReverseSegment(a, b, role.lt);
    ReverseSegment(a, b, role.lb);
    ReverseSegment(a, b, role.rt);
    ReverseSegment(a, b, role.rb);
  }

  /** Walking a segment backwards negates the side test. */
  lemma ReverseSegment(a: Point2, b: Point2, p: Point2)
    ensures Orient(b, a, p) == -Orient(a, b, p)
  {
  }

  /** A role cannot pass the inner test and the outer test on the same segment. */
  lemma SidesExclusive(a: Point2, b: Point2, role: BBox)
    ensures !(AllCornersLeft(a, b, role) && AllCornersRight(a, b, role))
  {
  }

  /** Moving the road and the role together changes nothing. */
  lemma TranslationInvariant(a: Point2, b: Point2, p: Point2, v: Point2)
    ensures Orient(Add(a, v), Add(b, v), Add(p, v)) == Orient(a, b, p)
  {
    assert Sub(Add(b, v), Add(a, v)) == Sub(b, a);
    assert Sub(Add(p, v), Add(a, v)) == Sub(p, a);
  }
}
