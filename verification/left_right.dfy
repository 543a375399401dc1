/**
 Collision by the left/right (half-plane) method: a role vertex collides when
 it is on the right of, or on, each edge of the collider's clockwise
 quadrilateral.
 */
module LeftRight {
  import opened Geometry
  import opened Shapes
  import opened Regions
  import opened Folds
  import Tool

  /** The clockwise vertex list LB, LT, RT, RB of a bounding box. */
  function BoxVertices(b: BBox): (vs: seq<Point2>)
    ensures |vs| == 4
    ensures vs[0] == b.lb && vs[1] == b.lt && vs[2] == b.rt && vs[3] == b.rb
  {
    [b.lb, b.lt, b.rt, b.rb]
  }

  /** Every turn of the closed vertex list is a right turn. */
  predicate Clockwise4(vs: seq<Point2>)
    requires |vs| == 4
  {
    && Orient(vs[0], vs[1], vs[2]) < 0.0
    && Orient(vs[1], vs[2], vs[3]) < 0.0
    && Orient(vs[2], vs[3], vs[0]) < 0.0
    && Orient(vs[3], vs[0], vs[1]) < 0.0
  }

  /** The corners LB, LT, RT, RB of an unrotated box with positive sizes turn right. */
  lemma AlignedBoxClockwise(b: BBox)
    requires Aligned(b) && b.left < b.right && b.bottom < b.top
    ensures Clockwise4(BoxVertices(b))
  {
    PositiveFactor(b.top - b.bottom, b.left - b.right, Orient(b.lb, b.lt, b.rt));
    PositiveFactor(b.right - b.left, b.bottom - b.top, Orient(b.lt, b.rt, b.rb));
    PositiveFactor(b.top - b.bottom, b.left - b.right, Orient(b.rt, b.rb, b.lb));
    PositiveFactor(b.right - b.left, b.bottom - b.top, Orient(b.rb, b.lb, b.lt));
  }

  /** Rotating the four vertices together keeps every turn. */
  lemma ClockwiseUnderRotation(vs: seq<Point2>, pivot: Point2, c: real, s: real)
    requires |vs| == 4 && Clockwise4(vs) && Unit(c, s)
    ensures var ws := seq(4, i requires 0 <= i < 4 => RotateAbout(vs[i], pivot, c, s)); Clockwise4(ws)
  {
    OrientUnderRotation(vs[0], vs[1], vs[2], pivot, c, s);
    OrientUnderRotation(vs[1], vs[2], vs[3], pivot, c, s);
    OrientUnderRotation(vs[2], vs[3], vs[0], pivot, c, s);
    OrientUnderRotation(vs[3], vs[0], vs[1], pivot, c, s);
  }

  /**
   The box of a plane with positive half sizes lists its vertices clockwise
   from the bottom-left corner, before and after any proper rotation.
   */
  lemma BoxVerticesClockwise(obj: Plane, parent: Parent, c: real, s: real)
    requires Tool.Place(obj, parent).halfX > 0.0 && Tool.Place(obj, parent).halfY > 0.0
    requires Unit(c, s)
    ensures Clockwise4(BoxVertices(Tool.GenBoundingBox3DWithRotation(obj, parent, c, s)))
  {
    var u := Tool.GenBoundingBox3D(obj, parent);
    AlignedBoxClockwise(u);
    ClockwiseUnderRotation(BoxVertices(u), u.pivot, c, s);
    var ws := seq(4, i requires 0 <= i < 4 => RotateAbout(BoxVertices(u)[i], u.pivot, c, s));
    assert ws == BoxVertices(Tool.GenBoundingBox3DWithRotation(obj, parent, c, s));
  }

  /** p is on the right of, or on, each edge of the first four collider vertices. */
  predicate VertexInside(p: Point2, collider: seq<Point2>)
    requires |collider| >= 4
  {
    InQuad(p, collider[0], collider[1], collider[2], collider[3])
  }

  /** The per-vertex verdicts, in role order. */
  function VertexVerdicts(collider: seq<Point2>, role: seq<Point2>): (vs: seq<bool>)
    requires |collider| >= 4
    ensures |vs| == |role|
    ensures forall i :: 0 <= i < |role| ==> vs[i] == VertexInside(role[i], collider)
  {
    if |role| == 0 then [] else VertexVerdicts(collider, role[..|role| - 1]) + [VertexInside(role[|role| - 1], collider)]
  }

  /**
   Collision by the half-plane test: some role vertex has cross ≤ 0 against
   each of A→B, B→C, C→D, D→A, where A..D are the first four collider vertices.
   */
  function CheckHit3D(collider: seq<Point2>, role: seq<Point2>): (r: bool)
    requires |collider| >= 4 && |role| >= 1
    ensures r <==> exists i :: 0 <= i < |role| && VertexInside(role[i], collider)
  {
    AnyOf(VertexVerdicts(collider, role))
  }

  /** Only the first four collider vertices matter. */
  lemma OnlyFirstFourColliderVertices(collider: seq<Point2>, extra: seq<Point2>, role: seq<Point2>)
    requires |collider| >= 4 && |role| >= 1
    ensures CheckHit3D(collider + extra, role) == CheckHit3D(collider, role)
  {
    var c2 := collider + extra;
    assert c2[0] == collider[0] && c2[1] == collider[1] && c2[2] == collider[2] && c2[3] == collider[3];
  }

  /**
   Against an unrotated box with positive half sizes, a role vertex passes
   the four edge tests iff it lies in the closed box.
   */
  lemma EdgeTestsAreClosedBox(b: BBox, p: Point2)
    requires Aligned(b) && b.left < b.right && b.bottom < b.top
    ensures var vs := BoxVertices(b); InQuad(p, vs[0], vs[1], vs[2], vs[3]) <==> InClosedBox(p, b)
  {
    QuadTestIsClosedBox(b, p);
  }

  /** Every corner of a box with ordered extents passes its own edge tests. */
  lemma CornerInsideOwnBox(b: BBox)
    requires Aligned(b) && b.left <= b.right && b.bottom <= b.top
    ensures VertexInside(b.lb, BoxVertices(b))
    ensures VertexInside(b.lt, BoxVertices(b))
    ensures VertexInside(b.rt, BoxVertices(b))
    ensures VertexInside(b.rb, BoxVertices(b))
  {
    // LB→LT: (top - bottom)(left - x); LT→RT: (right - left)(y - top);
    // RT→RB: (top - bottom)(x - right); RB→LB: (right - left)(bottom - y).
    MixedSignProduct(b.right - b.left, b.bottom - b.top, Orient(b.lt, b.rt, b.lb));
    MixedSignProduct(b.top - b.bottom, b.left - b.right, Orient(b.rt, b.rb, b.lb));
    MixedSignProduct(b.top - b.bottom, b.left - b.right, Orient(b.rt, b.rb, b.lt));
    MixedSignProduct(b.right - b.left, b.bottom - b.top, Orient(b.rb, b.lb, b.lt));
    MixedSignProduct(b.top - b.bottom, b.left - b.right, Orient(b.lb, b.lt, b.rt));
    MixedSignProduct(b.right - b.left, b.bottom - b.top, Orient(b.rb, b.lb, b.rt));
    MixedSignProduct(b.top - b.bottom, b.left - b.right, Orient(b.lb, b.lt, b.rb));
    MixedSignProduct(b.right - b.left, b.bottom - b.top, Orient(b.lt, b.rt, b.rb));
  }

  /**
   A box with non-negative half sizes collides with itself, whatever the
   proper rotation: its bottom-left vertex passes all four edge tests.
   */
  lemma SelfHit(obj: Plane, parent: Parent, c: real, s: real)
    requires Tool.Place(obj, parent).halfX >= 0.0 && Tool.Place(obj, parent).halfY >= 0.0
    requires Unit(c, s)
    ensures var vs := BoxVertices(Tool.GenBoundingBox3DWithRotation(obj, parent, c, s)); CheckHit3D(vs, vs)
  {
    var u := Tool.GenBoundingBox3D(obj, parent);
    var vs := BoxVertices(Tool.GenBoundingBox3DWithRotation(obj, parent, c, s));
    CornerInsideOwnBox(u);
    QuadRotationInvariant(u.lb, u.lb, u.lt, u.rt, u.rb, u.pivot, c, s);
    assert VertexInside(vs[0], vs);
  }
}
