/**
 Collision by point containment: two rectangles collide when a vertex of one
 lies in the other, each containment decided by the dot-product test against
 the first, second and fourth vertex of the rectangle.
 */
module PointInRect {
  import opened Geometry
  import opened Shapes
  import opened Regions
  import opened Folds

  /**
   The dot-product test of p against the rectangle whose vertices run
   A, B, C, D: 0 ≤ AP·AB ≤ AB·AB and 0 ≤ AP·AD ≤ AD·AD; C is not read.
   */
  predicate PointInRect(p: Point2, rect: seq<Point2>)
    requires |rect| >= 4
  {
    DotInRect(p, rect[0], rect[1], rect[3])
  }

  /** The per-vertex containment verdicts of pts in rect, in order. */
  function Containment(pts: seq<Point2>, rect: seq<Point2>): (vs: seq<bool>)
    requires |rect| >= 4
    ensures |vs| == |pts|
    ensures forall i :: 0 <= i < |pts| ==> vs[i] == PointInRect(pts[i], rect)
  {
    if |pts| == 0 then [] else Containment(pts[..|pts| - 1], rect) + [PointInRect(pts[|pts| - 1], rect)]
  }

  /** Some vertex of a lies in b, or some vertex of b lies in a. */
  function CheckHit3D(a: seq<Point2>, b: seq<Point2>): (r: bool)
    requires |a| >= 4 && |b| >= 4
    ensures r <==> ((exists i :: 0 <= i < |a| && PointInRect(a[i], b))
                    || (exists j :: 0 <= j < |b| && PointInRect(b[j], a)))
  {
    AnyOf(Containment(a, b)) || AnyOf(Containment(b, a))
  }

  /** The verdict does not depend on which rectangle is named first. */
  lemma CheckHit3DSymmetric(a: seq<Point2>, b: seq<Point2>)
    requires |a| >= 4 && |b| >= 4
    ensures CheckHit3D(a, b) == CheckHit3D(b, a)
  {
  }

  /** Every rectangle collides with itself: its first vertex is inside it. */
  lemma SelfHit(a: seq<Point2>)
    requires |a| >= 4
    ensures CheckHit3D(a, a)
  {
    DotCornerInside(a[0], a[1], a[3]);
  }

  /** Adding the translation v to every vertex. */
  function Translate(vs: seq<Point2>, v: Point2): (ws: seq<Point2>)
    ensures |ws| == |vs| && forall i :: 0 <= i < |vs| ==> ws[i] == Add(vs[i], v)
  {
    seq(|vs|, i requires 0 <= i < |vs| => Add(vs[i], v))
  }

  /** Rotating every vertex about pivot. */
  function Rotate(vs: seq<Point2>, pivot: Point2, c: real, s: real): (ws: seq<Point2>)
    ensures |ws| == |vs| && forall i :: 0 <= i < |vs| ==> ws[i] == RotateAbout(vs[i], pivot, c, s)
  {
    seq(|vs|, i requires 0 <= i < |vs| => RotateAbout(vs[i], pivot, c, s))
  }

  /** Moving both rectangles by the same vector does not change the verdict. */
  lemma {:induction false} TranslationInvariant(a: seq<Point2>, b: seq<Point2>, v: Point2)
    requires |a| >= 4 && |b| >= 4
    ensures CheckHit3D(Translate(a, v), Translate(b, v)) == CheckHit3D(a, b)
  {
    var ta, tb := Translate(a, v), Translate(b, v);
    forall i | 0 <= i < |a|
      ensures PointInRect(ta[i], tb) == PointInRect(a[i], b)
    {
      DotTranslationInvariant(a[i], b[0], b[1], b[3], v);
    }
    forall j | 0 <= j < |b|
      ensures PointInRect(tb[j], ta) == PointInRect(b[j], a)
    {
      DotTranslationInvariant(b[j], a[0], a[1], a[3], v);
    }
  }

  /** Rotating both rectangles together by a proper rotation does not change the verdict. */
  lemma {:induction false} RotationInvariant(a: seq<Point2>, b: seq<Point2>, pivot: Point2, c: real, s: real)
    requires |a| >= 4 && |b| >= 4 && Unit(c, s)
    ensures CheckHit3D(Rotate(a, pivot, c, s), Rotate(b, pivot, c, s)) == CheckHit3D(a, b)
  {
    var ra, rb := Rotate(a, pivot, c, s), Rotate(b, pivot, c, s);
    forall i | 0 <= i < |a|
      ensures PointInRect(ra[i], rb) == PointInRect(a[i], b)
    {
      DotRotationInvariant(a[i], b[0], b[1], b[3], pivot, c, s);
    }
    forall j | 0 <= j < |b|
      ensures PointInRect(rb[j], ra) == PointInRect(b[j], a)
    {
      DotRotationInvariant(b[j], a[0], a[1], a[3], pivot, c, s);
    }
  }

  /**
   For an unrotated box listed from its bottom-left corner (LB, LT, RT, RB),
   the dot-product test is closed-box membership.
   */
  lemma BoxTestIsClosedBox(b: BBox, p: Point2)
    requires Aligned(b) && b.left < b.right && b.bottom < b.top
    ensures PointInRect(p, [b.lb, b.lt, b.rt, b.rb]) <==> InClosedBox(p, b)
  {
    var ab := Sub(b.lt, b.lb);
    var ad := Sub(b.rb, b.lb);
    var ap := Sub(p, b.lb);
    PositiveBetween(b.top - b.bottom, p.y - b.bottom, b.top - b.bottom, Dot(ap, ab), Dot(ab, ab));
    PositiveBetween(b.right - b.left, p.x - b.left, b.right - b.left, Dot(ap, ad), Dot(ad, ad));
  }

  /** Two boxes laid over each other as a cross. */
  const Wide: seq<Point2> := [Point2(-2.0, -1.0), Point2(-2.0, 1.0), Point2(2.0, 1.0), Point2(2.0, -1.0)]
  const Tall: seq<Point2> := [Point2(-1.0, -2.0), Point2(-1.0, 2.0), Point2(1.0, 2.0), Point2(1.0, -2.0)]

  /** A point left or right of the strip |x| ≤ 1 is outside Tall (AD = (2, 0)). */
  lemma OutsideTall(p: Point2)
    requires p.x < -1.0 || 1.0 < p.x
    ensures !PointInRect(p, Tall)
  {
    assert Tall[0] == Point2(-1.0, -2.0) && Tall[1] == Point2(-1.0, 2.0) && Tall[3] == Point2(1.0, -2.0);
    assert Dot(Sub(p, Tall[0]), Sub(Tall[3], Tall[0])) == 2.0 * (p.x + 1.0);
  }

  /** A point above or below the strip |y| ≤ 1 is outside Wide (AB = (0, 2)). */
  lemma OutsideWide(p: Point2)
    requires p.y < -1.0 || 1.0 < p.y
    ensures !PointInRect(p, Wide)
  {
    assert Wide[0] == Point2(-2.0, -1.0) && Wide[1] == Point2(-2.0, 1.0) && Wide[3] == Point2(2.0, -1.0);
    assert Dot(Sub(p, Wide[0]), Sub(Wide[1], Wide[0])) == 2.0 * (p.y + 1.0);
  }

  /** The origin lies in both boxes. */
  lemma OriginInBoth()
    ensures PointInRect(Origin, Wide) && PointInRect(Origin, Tall)
  {
    assert Wide[0] == Point2(-2.0, -1.0) && Wide[1] == Point2(-2.0, 1.0) && Wide[3] == Point2(2.0, -1.0);
    assert Tall[0] == Point2(-1.0, -2.0) && Tall[1] == Point2(-1.0, 2.0) && Tall[3] == Point2(1.0, -2.0);
  }

  /**
   Vertex containment is not complete: the crossed boxes Wide and Tall share
   the origin, yet no vertex of either lies in the other.
   */
  lemma CrossedBoxesMissed()
    ensures PointInRect(Origin, Wide) && PointInRect(Origin, Tall)
    ensures !CheckHit3D(Wide, Tall)
  {
    forall i | 0 <= i < 4
      ensures !PointInRect(Wide[i], Tall) && !PointInRect(Tall[i], Wide)
    {
      OutsideTall(Wide[i]);
      OutsideWide(Tall[i]);
    }
    OriginInBoth();
  }
}
