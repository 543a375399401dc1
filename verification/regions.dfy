/**
 The two point-containment tests the scripts share: the half-plane test against
 the four edges of a clockwise quadrilateral, and the dot-product test against a
 rectangle given by a corner and its two neighbours.
 */
module Regions {
  import opened Geometry
  import opened Shapes

  /**
   p lies on the right of, or on, each edge a→b, b→c, c→d, d→a: inside the
   quadrilateral when its corners run clockwise.
   */
  predicate InQuad(p: Point2, a: Point2, b: Point2, c: Point2, d: Point2) {
    && Orient(a, b, p) <= 0.0
    && Orient(b, c, p) <= 0.0
    && Orient(c, d, p) <= 0.0
    && Orient(d, a, p) <= 0.0
  }

  /**
   Dot-product test against the rectangle with corner a and neighbours b and d:
   0 ≤ AP·AB ≤ AB·AB and 0 ≤ AP·AD ≤ AD·AD.
   */
  predicate DotInRect(p: Point2, a: Point2, b: Point2, d: Point2) {
    var ab := Sub(b, a);
    var ad := Sub(d, a);
    var ap := Sub(p, a);
    && 0.0 <= Dot(ap, ab) && Dot(ap, ab) <= Dot(ab, ab)
    && 0.0 <= Dot(ap, ad) && Dot(ap, ad) <= Dot(ad, ad)
  }

  predicate InClosedBox(p: Point2, b: BBox) {
    b.left <= p.x <= b.right && b.bottom <= p.y <= b.top
  }

  /**
   On an unrotated box of positive width and height, the half-plane test over
   the clockwise corners LB, LT, RT, RB is exactly closed-box membership.
   */
  lemma QuadTestIsClosedBox(b: BBox, p: Point2)
    requires Aligned(b) && b.left < b.right && b.bottom < b.top
    ensures InQuad(p, b.lb, b.lt, b.rt, b.rb) <==> InClosedBox(p, b)
  {
    // LB→LT: -(top - bottom)(x - left); LT→RT: (right - left)(y - top);
    // RT→RB: (top - bottom)(x - right); RB→LB: -(right - left)(y - bottom).
    PositiveFactor(b.top - b.bottom, b.left - p.x, Orient(b.lb, b.lt, p));
    PositiveFactor(b.right - b.left, p.y - b.top, Orient(b.lt, b.rt, p));
    PositiveFactor(b.top - b.bottom, p.x - b.right, Orient(b.rt, b.rb, p));
    PositiveFactor(b.right - b.left, b.bottom - p.y, Orient(b.rb, b.lb, p));
  }

  /**
   On an unrotated box of positive width and height, the dot-product test with
   A = LT, B = RT, D = LB is exactly closed-box membership.
   */
  lemma DotTestIsClosedBox(b: BBox, p: Point2)
    requires Aligned(b) && b.left < b.right && b.bottom < b.top
    ensures DotInRect(p, b.lt, b.rt, b.lb) <==> InClosedBox(p, b)
  {
    var ab := Sub(b.rt, b.lt);
    var ad := Sub(b.lb, b.lt);
    var ap := Sub(p, b.lt);
    PositiveBetween(b.right - b.left, p.x - b.left, b.right - b.left, Dot(ap, ab), Dot(ab, ab));
    PositiveBetween(b.top - b.bottom, b.top - p.y, b.top - b.bottom, Dot(ap, ad), Dot(ad, ad));
  }

  /** The corner a itself always passes the dot-product test. */
  lemma DotCornerInside(a: Point2, b: Point2, d: Point2)
    ensures DotInRect(a, a, b, d)
  {
    assert Sub(a, a) == Origin;
  }

  /** The neighbours b and d pass the dot-product test when AB ⟂ AD. */
  lemma DotNeighboursInside(a: Point2, b: Point2, d: Point2)
    requires Dot(Sub(b, a), Sub(d, a)) == 0.0
    ensures DotInRect(b, a, b, d)
    ensures DotInRect(d, a, b, d)
  {
  }

  /** Moving the point and the rectangle by the same vector changes nothing. */
  lemma DotTranslationInvariant(p: Point2, a: Point2, b: Point2, d: Point2, v: Point2)
    ensures DotInRect(Add(p, v), Add(a, v), Add(b, v), Add(d, v)) == DotInRect(p, a, b, d)
  {
    assert Sub(Add(b, v), Add(a, v)) == Sub(b, a);
    assert Sub(Add(d, v), Add(a, v)) == Sub(d, a);
    assert Sub(Add(p, v), Add(a, v)) == Sub(p, a);
  }

  /**
   Rotating the point and the rectangle together about any pivot by a proper
   rotation changes nothing.
   */
  lemma DotRotationInvariant(p: Point2, a: Point2, b: Point2, d: Point2, pivot: Point2, c: real, s: real)
    requires Unit(c, s)
    ensures DotInRect(RotateAbout(p, pivot, c, s), RotateAbout(a, pivot, c, s),
                      RotateAbout(b, pivot, c, s), RotateAbout(d, pivot, c, s))
            == DotInRect(p, a, b, d)
  {
    DotUnderRotation(p, a, b, a, pivot, c, s);
    DotUnderRotation(b, a, b, a, pivot, c, s);
    DotUnderRotation(p, a, d, a, pivot, c, s);
    DotUnderRotation(d, a, d, a, pivot, c, s);
  }

  /**
   Rotating the point and the quadrilateral together about any pivot by a
   proper rotation changes nothing.
   */
  lemma QuadRotationInvariant(p: Point2, a: Point2, b: Point2, c: Point2, d: Point2, pivot: Point2, cs: real, sn: real)
    requires Unit(cs, sn)
    ensures InQuad(RotateAbout(p, pivot, cs, sn), RotateAbout(a, pivot, cs, sn), RotateAbout(b, pivot, cs, sn),
                   RotateAbout(c, pivot, cs, sn), RotateAbout(d, pivot, cs, sn))
            == InQuad(p, a, b, c, d)
  {
    OrientUnderRotation(a, b, p, pivot, cs, sn);
    OrientUnderRotation(b, c, p, pivot, cs, sn);
    OrientUnderRotation(c, d, p, pivot, cs, sn);
    OrientUnderRotation(d, a, p, pivot, cs, sn);
  }
}
