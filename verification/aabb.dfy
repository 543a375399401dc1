/**
 Axis-aligned bounding-box overlap as the scripts write it: on each axis, some
 edge of one box must lie strictly between the two edges of the other.
 */
module Aabb {
  import opened Geometry
  import opened Shapes

  predicate StrictlyBetween(lo: real, v: real, hi: real) {
    lo < v && v < hi
  }

  /** Some horizontal edge of either box lies strictly inside the other's x-interval. */
  predicate XIn(collider: BBox, role: BBox) {
    || StrictlyBetween(collider.left, role.left, collider.right)
    || StrictlyBetween(collider.left, role.right, collider.right)
    || StrictlyBetween(role.left, collider.left, role.right)
    || StrictlyBetween(role.left, collider.right, role.right)
  }

  /** Some vertical edge of either box lies strictly inside the other's y-interval. */
  predicate YIn(collider: BBox, role: BBox) {
    || StrictlyBetween(collider.bottom, role.top, collider.top)
    || StrictlyBetween(collider.bottom, role.bottom, collider.top)
    || StrictlyBetween(role.bottom, collider.top, role.top)
    || StrictlyBetween(role.bottom, collider.bottom, role.top)
  }

  /** Collision by rectangle overlap, as written: xIn and yIn. */
  predicate CheckHit3D(collider: BBox, role: BBox) {
    XIn(collider, role) && YIn(collider, role)
  }

  /** Both boxes have positive width and height. */
  predicate Proper(b: BBox) {
    b.left < b.right && b.bottom < b.top
  }

  /** The check does not depend on which box is the collider. */
  lemma CheckHit3DSymmetric(collider: BBox, role: BBox)
    ensures CheckHit3D(collider, role) == CheckHit3D(role, collider)
  {
  }

  /**
   The exact meaning of the strict endpoint form on one axis: for intervals of
   positive length, xIn holds iff the open intervals overlap and the two
   intervals are not the same one.
   */
  lemma XInMeaning(collider: BBox, role: BBox)
    requires Proper(collider) && Proper(role)
    ensures XIn(collider, role) <==>
      && Max(collider.left, role.left) < Min(collider.right, role.right)
      && !(collider.left == role.left && collider.right == role.right)
  {
  }

  /** The same characterisation on the y-axis. */
  lemma YInMeaning(collider: BBox, role: BBox)
    requires Proper(collider) && Proper(role)
    ensures YIn(collider, role) <==>
      && Max(collider.bottom, role.bottom) < Min(collider.top, role.top)
      && !(collider.bottom == role.bottom && collider.top == role.top)
  {
  }

  /** Soundness: a reported hit means the open boxes really overlap. */
  lemma HitMeansOverlap(collider: BBox, role: BBox)
    requires Proper(collider) && Proper(role)
    requires CheckHit3D(collider, role)
    ensures Max(collider.left, role.left) < Min(collider.right, role.right)
    ensures Max(collider.bottom, role.bottom) < Min(collider.top, role.top)
  {
    XInMeaning(collider, role);
    YInMeaning(collider, role);
  }

  /** Boxes that only touch along an edge are not a hit. */
  lemma TouchingIsMiss(collider: BBox, role: BBox)
    requires collider.left <= collider.right && role.left <= role.right
    requires collider.right == role.left
    ensures !CheckHit3D(collider, role)
  {
  }

  /**
   Two boxes with the same x-interval never hit, however much they overlap;
   in particular a box does not hit itself.
   */
  lemma SameXIntervalIsMiss(collider: BBox, role: BBox)
    requires collider.left == role.left && collider.right == role.right
    ensures !CheckHit3D(collider, role)
    ensures !CheckHit3D(role, role)
  {
  }

  /**
   The overlap test the strict form evidently intends: the open boxes
   intersect. Edge contact is still a miss.
   */
  predicate OverlapHit(collider: BBox, role: BBox) {
    && Max(collider.left, role.left) < Min(collider.right, role.right)
    && Max(collider.bottom, role.bottom) < Min(collider.top, role.top)
  }

  /**
   The intended test is symmetric, agrees with the written one except on
   boxes sharing an x- or a y-interval, and a proper box hits itself under it.
   */
  lemma OverlapHitCorrects(collider: BBox, role: BBox)
    requires Proper(collider) && Proper(role)
    ensures OverlapHit(collider, role) == OverlapHit(role, collider)
    ensures CheckHit3D(collider, role) ==> OverlapHit(collider, role)
    ensures OverlapHit(collider, role)
            && !(collider.left == role.left && collider.right == role.right)
            && !(collider.bottom == role.bottom && collider.top == role.top)
            ==> CheckHit3D(collider, role)
    ensures OverlapHit(role, role)
    ensures collider.right == role.left ==> !OverlapHit(collider, role)
  {
    XInMeaning(collider, role);
    YInMeaning(collider, role);
  }
}
