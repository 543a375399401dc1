/**
 The shared helpers of the collision scripts: the bounding-box builders (one
 level of parent transform, optional rotation of the corners about the pivot),
 the two corner-in-box collision checks built on side-of-line tests, and the
 degree/radian conversions.
 */
module Tool {
  import opened Geometry
  import opened Shapes
  import opened Regions

  /** Where a plane sits once projected through its parent: pivot and half sizes. */
  datatype Frame = Frame(pos: Point2, halfX: real, halfY: real)

  /**
   Pivot and half size of obj. With a parent, the position is
   parent.pos + obj.pos * parent.scale and the half size is
   size * obj.scale * parent.scale / 2; without one, obj.pos and size * obj.scale / 2.
   */
  function Place(obj: Plane, parent: Parent): Frame {
    var t := obj.transform;
    match parent
    case Root =>
      Frame(Point2(t.x, t.y), obj.width * t.scaleX / 2.0, obj.height * t.scaleY / 2.0)
    case ChildOf(p) =>
      Frame(Point2(p.x + t.x * p.scaleX, p.y + t.y * p.scaleY),
            obj.width * t.scaleX * p.scaleX / 2.0, obj.height * t.scaleY * p.scaleY / 2.0)
  }

  /** The unrotated bounding box of obj. */
  function GenBoundingBox3D(obj: Plane, parent: Parent): (b: BBox)
    ensures b.pivot == Place(obj, parent).pos
    ensures b.halfSizeX == Place(obj, parent).halfX && b.halfSizeY == Place(obj, parent).halfY
    ensures Aligned(b)
    ensures b.left + b.right == 2.0 * b.pivot.x && b.bottom + b.top == 2.0 * b.pivot.y
    ensures b.right - b.left == 2.0 * b.halfSizeX && b.top - b.bottom == 2.0 * b.halfSizeY
  {
    var f := Place(obj, parent);
    var left, right := f.pos.x - f.halfX, f.pos.x + f.halfX;
    var top, bottom := f.pos.y + f.halfY, f.pos.y - f.halfY;
    BBox(
      pivot := f.pos,
      lt := Point2(left, top),
      lb := Point2(left, bottom),
      rt := Point2(right, top),
      rb := Point2(right, bottom),
      left := left,
      top := top,
      right := right,
      bottom := bottom,
      halfSizeX := f.halfX,
      halfSizeY := f.halfY)
  }

  /**
   The bounding box with its four corners rotated about the pivot by the
   rotation (c, s); the extents stay those of the unrotated box.
   */
  function GenBoundingBox3DWithRotation(obj: Plane, parent: Parent, c: real, s: real): (b: BBox)
    ensures var u := GenBoundingBox3D(obj, parent);
      && b.pivot == u.pivot
      && b.left == u.left && b.right == u.right && b.top == u.top && b.bottom == u.bottom
      && b.lt == RotateAbout(u.lt, u.pivot, c, s)
      && b.lb == RotateAbout(u.lb, u.pivot, c, s)
      && b.rt == RotateAbout(u.rt, u.pivot, c, s)
      && b.rb == RotateAbout(u.rb, u.pivot, c, s)
    ensures c == 1.0 && s == 0.0 ==> b == GenBoundingBox3D(obj, parent)
  {
    var u := GenBoundingBox3D(obj, parent);
    u.(lt := RotateAbout(u.lt, u.pivot, c, s),
       lb := RotateAbout(u.lb, u.pivot, c, s),
       rt := RotateAbout(u.rt, u.pivot, c, s),
       rb := RotateAbout(u.rb, u.pivot, c, s))
  }

  /** The extents of the rotating builder do not depend on the rotation. */
  lemma ExtentsIgnoreRotation(obj: Plane, parent: Parent, c1: real, s1: real, c2: real, s2: real)
    ensures var b1, b2 := GenBoundingBox3DWithRotation(obj, parent, c1, s1), GenBoundingBox3DWithRotation(obj, parent, c2, s2);
      b1.left == b2.left && b1.right == b2.right && b1.top == b2.top && b1.bottom == b2.bottom
  {
  }

  /** A proper rotation keeps every corner at its distance from the pivot. */
  lemma RotatedCornersKeepDistance(obj: Plane, parent: Parent, c: real, s: real)
    requires Unit(c, s)
    ensures var u, b := GenBoundingBox3D(obj, parent), GenBoundingBox3DWithRotation(obj, parent, c, s);
      && NormSq(Sub(b.lt, b.pivot)) == NormSq(Sub(u.lt, u.pivot))
      && NormSq(Sub(b.lb, b.pivot)) == NormSq(Sub(u.lb, u.pivot))
      && NormSq(Sub(b.rt, b.pivot)) == NormSq(Sub(u.rt, u.pivot))
      && NormSq(Sub(b.rb, b.pivot)) == NormSq(Sub(u.rb, u.pivot))
  {
    var u := GenBoundingBox3D(obj, parent);
    RotationPreservesDistance(u.lt, u.pivot, c, s);
    RotationPreservesDistance(u.lb, u.pivot, c, s);
    RotationPreservesDistance(u.rt, u.pivot, c, s);
    RotationPreservesDistance(u.rb, u.pivot, c, s);
  }

  /** A parent at the origin with unit scale is the same as no parent. */
  lemma UnitParentIsRoot(obj: Plane)
    ensures Place(obj, ChildOf(Transform(0.0, 0.0, 1.0, 1.0))) == Place(obj, Root)
  {
  }

  /** With non-negative half sizes the extents are ordered. */
  lemma ExtentsOrdered(obj: Plane, parent: Parent)
    requires Place(obj, parent).halfX >= 0.0 && Place(obj, parent).halfY >= 0.0
    ensures var b := GenBoundingBox3D(obj, parent);
      b.left <= b.pivot.x <= b.right && b.bottom <= b.pivot.y <= b.top
  {
  }

  // ---------------------------------------------------------------------------
  // Corner-in-box collision checks
  // ---------------------------------------------------------------------------

  /** Line-equation test of p against the edges LT→RT, RT→RB, RB→LB, LB→LT (all ≥ 0). */
  predicate InsideByLine(p: Point2, item: BBox) {
    && LineSide(item.lt, item.rt, p) >= 0.0
    && LineSide(item.rt, item.rb, p) >= 0.0
    && LineSide(item.rb, item.lb, p) >= 0.0
    && LineSide(item.lb, item.lt, p) >= 0.0
  }

  /**
   Cross-product test of p against the edges LT→RT, RT→RB, RB→LB, LB→LT (all
   ≤ 0), with p as the first point of each product, as in the source.
   */
  predicate InsideByCross(p: Point2, item: BBox) {
    && Orient(p, item.lt, item.rt) <= 0.0
    && Orient(p, item.rt, item.rb) <= 0.0
    && Orient(p, item.rb, item.lb) <= 0.0
    && Orient(p, item.lb, item.lt) <= 0.0
  }

  /**
   Measuring each product from p instead of from the edge's start changes
   nothing (Geometry.OrientCyclic), so the test is the half-plane test InQuad.
   */
  lemma InsideByCrossIsQuad(p: Point2, item: BBox)
    ensures InsideByCross(p, item) == InQuad(p, item.lt, item.rt, item.rb, item.lb)
  {
    OrientCyclic(p, item.lt, item.rt);
    OrientCyclic(p, item.rt, item.rb);
    OrientCyclic(p, item.rb, item.lb);
    OrientCyclic(p, item.lb, item.lt);
  }

  /** Collision by line equation: some corner of role (LT, RT, RB, LB) is inside item. */
  predicate CheckHit3DWithRotation(item: BBox, role: BBox) {
    || InsideByLine(role.lt, item)
    || InsideByLine(role.rt, item)
    || InsideByLine(role.rb, item)
    || InsideByLine(role.lb, item)
  }

  /** Collision by cross product: some corner of role (LT, RT, RB, LB) is inside item. */
  predicate CheckHit3DWithRotation2(item: BBox, role: BBox) {
    || InsideByCross(role.lt, item)
    || InsideByCross(role.rt, item)
    || InsideByCross(role.rb, item)
    || InsideByCross(role.lb, item)
  }

  /** The two corner tests accept exactly the same points. */
  lemma InsideTestsAgree(p: Point2, item: BBox)
    ensures InsideByLine(p, item) == InsideByCross(p, item)
  {
    LineSideIsNegatedOrient(item.lt, item.rt, p);
    LineSideIsNegatedOrient(item.rt, item.rb, p);
    LineSideIsNegatedOrient(item.rb, item.lb, p);
    LineSideIsNegatedOrient(item.lb, item.lt, p);
    InsideByCrossIsQuad(p, item);
  }

  /** The line-equation and the cross-product collision checks always agree. */
  lemma RotationChecksAgree(item: BBox, role: BBox)
    ensures CheckHit3DWithRotation(item, role) == CheckHit3DWithRotation2(item, role)
  {
    InsideTestsAgree(role.lt, item);
    InsideTestsAgree(role.rt, item);
    InsideTestsAgree(role.rb, item);
    InsideTestsAgree(role.lb, item);
  }

  /**
   On an unrotated item with positive half sizes, a corner passes the four
   cross-product edge tests iff it lies in the closed box.
   */
  lemma CornerTestIsClosedBox(item: BBox, p: Point2)
    requires Aligned(item) && item.left < item.right && item.bottom < item.top
    ensures InsideByCross(p, item) <==> InClosedBox(p, item)
  {
    QuadTestIsClosedBox(item, p);
    InsideByCrossIsQuad(p, item);
  }

  /**
   Rotating the item's box and the test point together leaves the
   cross-product test unchanged: the test follows the rotated box.
   */
  lemma CornerTestFollowsRotation(obj: Plane, parent: Parent, c: real, s: real, p: Point2)
    requires Unit(c, s)
    ensures var u, b := GenBoundingBox3D(obj, parent), GenBoundingBox3DWithRotation(obj, parent, c, s);
      InsideByCross(RotateAbout(p, u.pivot, c, s), b) == InsideByCross(p, u)
  {
    var u := GenBoundingBox3D(obj, parent);
    var b := GenBoundingBox3DWithRotation(obj, parent, c, s);
    QuadRotationInvariant(p, u.lt, u.rt, u.rb, u.lb, u.pivot, c, s);
    InsideByCrossIsQuad(p, u);
    InsideByCrossIsQuad(RotateAbout(p, u.pivot, c, s), b);
  }

  // ---------------------------------------------------------------------------
  // Angle conversions; pi is the host's positive constant Math.PI
  // ---------------------------------------------------------------------------

  function ToRadians(degrees: real, pi: real): real
    requires pi > 0.0
  {
    degrees * (pi / 180.0)
  }

  function ToDegrees(radians: real, pi: real): real
    requires pi > 0.0
  {
    180.0 * (radians / pi)
  }

  /** The two conversions are inverse to each other. */
  lemma AngleRoundTrip(d: real, r: real, pi: real)
    requires pi > 0.0
    ensures ToDegrees(ToRadians(d, pi), pi) == d
    ensures ToRadians(ToDegrees(r, pi), pi) == r
  {
  }
}
