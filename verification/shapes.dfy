/**
 The records the collision scripts pass around: a plane's transform inputs, the
 virtual bounding box built from them, and the pivot-and-vertices shape that the
 circle, SAT, point-in-rectangle and GJK tests consume. Reactive signals become
 plain values, and every z-coordinate is 0.
 */
module Shapes {
  import opened Geometry

  /** A node's position and scale in its parent's plane. */
  datatype Transform = Transform(x: real, y: real, scaleX: real, scaleY: real)

  /** A plane scene object: its transform and its unscaled width and height. */
  datatype Plane = Plane(transform: Transform, width: real, height: real)

  /** The optional one-level parent whose transform a child is projected through. */
  datatype Parent = Root | ChildOf(transform: Transform)

  /**
   The bounding box: pivot, four corners (left/right, top/bottom), the four
   extents and the half sizes.
   */
  datatype BBox = BBox(
    pivot: Point2,
    lt: Point2,
    lb: Point2,
    rt: Point2,
    rb: Point2,
    left: real,
    top: real,
    right: real,
    bottom: real,
    halfSizeX: real,
    halfSizeY: real)

  /**
   A convex polygon (clockwise vertices) or a circle (pivot and full width
   sizeX), as the circle, SAT, point-in-rectangle and GJK tests read it.
   */
  datatype Shape = Shape(pivot: Point2, sizeX: real, vertices: seq<Point2>)

  /** The corners of b sit exactly at its extents: b is an unrotated box. */
  predicate Aligned(b: BBox) {
    && b.lt == Point2(b.left, b.top)
    && b.lb == Point2(b.left, b.bottom)
    && b.rt == Point2(b.right, b.top)
    && b.rb == Point2(b.right, b.bottom)
  }
}
