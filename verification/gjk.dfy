/**
 The GJK loop of gjk.ts. The simplex grows by support points of the Minkowski
 difference A - B, chosen in a direction that depends on its current size; with
 three points it either encloses the origin (a hit) or drops a point and looks
 again. A support point that does not get past the origin proves the shapes
 apart (a miss). The source loops without a bound, so the model runs on fuel.
 */
module Gjk {
  import opened Geometry
  import opened Shapes
  import Sat

  /**
   The index of the vertex furthest along d. Ties go to the first such vertex,
   because the scan only replaces its candidate on a strictly greater dot.
   */
  function SupportIndex(vs: seq<Point2>, d: Point2): (k: nat)
    requires |vs| >= 1
    ensures k < |vs|
    ensures forall i :: 0 <= i < |vs| ==> Dot(vs[i], d) <= Dot(vs[k], d)
    ensures forall i :: 0 <= i < k ==> Dot(vs[i], d) < Dot(vs[k], d)
  {
    if |vs| == 1 then 0
    else
      var init := vs[..|vs| - 1];
      assert forall i :: 0 <= i < |init| ==> init[i] == vs[i];
      var k := SupportIndex(init, d);
      if Dot(vs[|vs| - 1], d) > Dot(vs[k], d) then |vs| - 1 else k
  }

  /** A vertex of the shape furthest along d. */
  function GetSupportPoint(vs: seq<Point2>, d: Point2): (p: Point2)
    requires |vs| >= 1
    ensures p in vs
    ensures forall i :: 0 <= i < |vs| ==> Dot(vs[i], d) <= Dot(p, d)
  {
    vs[SupportIndex(vs, d)]
  }

  /** The difference of two vertices is a point of the Minkowski difference A - B. */
  predicate InDifference(p: Point2, a: seq<Point2>, b: seq<Point2>) {
    exists i, j :: 0 <= i < |a| && 0 <= j < |b| && p == Sub(a[i], b[j])
  }

  lemma DotSub(p: Point2, q: Point2, d: Point2)
    ensures Dot(Sub(p, q), d) == Dot(p, d) - Dot(q, d)
    ensures Dot(q, Neg(d)) == -Dot(q, d)
  {
  }

  /**
   supA(d) - supB(-d) is the point of A - B furthest along d; when it does not
   get past the origin along d, d separates A from B.
   */
  function MinkowskiSupport(a: seq<Point2>, b: seq<Point2>, d: Point2): (sp: Point2)
    requires |a| >= 1 && |b| >= 1
    ensures InDifference(sp, a, b)
    ensures forall i, j :: 0 <= i < |a| && 0 <= j < |b| ==> Dot(Sub(a[i], b[j]), d) <= Dot(sp, d)
    ensures Dot(d, sp) < 0.0 ==> Sat.CheckIsSeparated(a, b, d)
  {
    var pa := GetSupportPoint(a, d);
    var pb := GetSupportPoint(b, Neg(d));
    assert InDifference(Sub(pa, pb), a, b) by {
      var i :| 0 <= i < |a| && a[i] == pa;
      var j :| 0 <= j < |b| && b[j] == pb;
      assert Sub(pa, pb) == Sub(a[i], b[j]);
    }
    assert forall i, j :: 0 <= i < |a| && 0 <= j < |b| ==>
                            (Dot(Sub(a[i], b[j]), d) <= Dot(Sub(pa, pb), d) && Dot(pb, d) <= Dot(b[j], d)) by {
      forall i, j | 0 <= i < |a| && 0 <= j < |b|
        ensures Dot(Sub(a[i], b[j]), d) <= Dot(Sub(pa, pb), d)
        ensures Dot(pb, d) <= Dot(b[j], d)
      {
        DotSub(a[i], b[j], d);
        DotSub(pa, pb, d);
        assert Dot(b[j], Neg(d)) <= Dot(pb, Neg(d));
      }
    }
    assert Dot(d, Sub(pa, pb)) < 0.0 ==> Sat.CheckIsSeparated(a, b, d) by {
      DotSub(pa, pb, d);
      Sat.SeparatedMeaning(a, b, d);
    }
    Sub(pa, pb)
  }

  /**
   Appends exactly one point, the support point of A - B along d, and reports
   whether it reaches the origin along d (d·sp ≥ 0).
   */
  function AddSupportPoint(a: seq<Point2>, b: seq<Point2>, simplex: seq<Point2>, d: Point2): (r: (seq<Point2>, bool))
    requires |a| >= 1 && |b| >= 1
    ensures |r.0| == |simplex| + 1 && r.0[..|simplex|] == simplex
    ensures InDifference(r.0[|simplex|], a, b)
    ensures forall i, j :: 0 <= i < |a| && 0 <= j < |b| ==> Dot(Sub(a[i], b[j]), d) <= Dot(r.0[|simplex|], d)
    ensures r.1 <==> Dot(d, r.0[|simplex|]) >= 0.0
    ensures !r.1 ==> Sat.CheckIsSeparated(a, b, d)
  {
    var sp := MinkowskiSupport(a, b, d);
    (simplex + [sp], Dot(d, sp) >= 0.0)
  }

  datatype State = State(simplex: seq<Point2>, direction: Point2)

  /** One pass of the loop: go on with a new state, or stop with a hit or with the separating direction. */
  datatype Step = Continue(next: State) | Hit | Miss(axis: Point2)

  datatype Verdict = Colliding | Separate | OutOfFuel

  /** The direction of case 2: (CB × C0) × CB for the segment [C, B]. */
  function SegmentDirection(c: Point2, b: Point2): (d: Point2)
    ensures Dot(d, Sub(b, c)) == 0.0
    ensures Dot(d, Sub(Origin, c)) == Cross(Sub(b, c), Sub(Origin, c)) * Cross(Sub(b, c), Sub(Origin, c))
  {
    TripleProduct(Sub(b, c), Sub(Origin, c), Sub(b, c))
  }

  /** abPerp = (AC × AB) × AB for the triangle [C, B, A]. */
  function AbPerp(c: Point2, b: Point2, a: Point2): (n: Point2)
    ensures Dot(n, Sub(b, a)) == 0.0
    ensures Dot(n, Sub(c, a)) == -(Cross(Sub(b, a), Sub(c, a)) * Cross(Sub(b, a), Sub(c, a)))
    ensures Dot(n, Sub(Origin, a)) == -(Orient(a, b, c) * Orient(a, b, Origin))
  {
    TripleProduct(Sub(c, a), Sub(b, a), Sub(b, a))
  }

  /** acPerp = (AB × AC) × AC for the triangle [C, B, A]. */
  function AcPerp(c: Point2, b: Point2, a: Point2): (n: Point2)
    ensures Dot(n, Sub(c, a)) == 0.0
    ensures Dot(n, Sub(b, a)) == -(Cross(Sub(c, a), Sub(b, a)) * Cross(Sub(c, a), Sub(b, a)))
    ensures Dot(n, Sub(Origin, a)) == -(Orient(a, c, b) * Orient(a, c, Origin))
  {
    TripleProduct(Sub(b, a), Sub(c, a), Sub(c, a))
  }

  /** Neither perpendicular points towards the origin: the triangle [C, B, A] is taken to hold it. */
  predicate Encloses(c: Point2, b: Point2, a: Point2) {
    Dot(AbPerp(c, b, a), Sub(Origin, a)) <= 0.0 && Dot(AcPerp(c, b, a), Sub(Origin, a)) <= 0.0
  }

  /** The sign of x·y for a non-zero x: non-negative iff y is zero or has the sign of x. */
  lemma ProductSign(x: real, y: real, xy: real)
    requires x != 0.0 && xy == x * y
    ensures xy >= 0.0 <==> (x > 0.0 ==> y >= 0.0) && (x < 0.0 ==> y <= 0.0)
  {
    if x > 0.0 {
      PositiveFactor(x, y, xy);
    } else {
      PositiveFactor(-x, -y, xy);
    }
  }

  /**
   For a triangle [C, B, A] that is not flat, the enclosure test holds iff the
   origin lies in the closed angle at A: on C's side of line AB (or on it) and
   on B's side of line AC (or on it).
   */
  lemma EnclosesMeaning(c: Point2, b: Point2, a: Point2)
    requires Orient(a, b, c) != 0.0
    ensures Encloses(c, b, a) <==>
            ((Orient(a, b, c) > 0.0 ==> Orient(a, b, Origin) >= 0.0)
             && (Orient(a, b, c) < 0.0 ==> Orient(a, b, Origin) <= 0.0)
             && (Orient(a, c, b) > 0.0 ==> Orient(a, c, Origin) >= 0.0)
             && (Orient(a, c, b) < 0.0 ==> Orient(a, c, Origin) <= 0.0))
  {
    OrientSwap(a, b, c);
    ProductSign(Orient(a, b, c), Orient(a, b, Origin), Orient(a, b, c) * Orient(a, b, Origin));
    ProductSign(Orient(a, c, b), Orient(a, c, Origin), Orient(a, c, b) * Orient(a, c, Origin));
  }

  /** A flat triangle [C, B, A] encloses anything: both perpendiculars vanish. */
  lemma FlatTriangleEncloses(c: Point2, b: Point2, a: Point2)
    requires Orient(a, b, c) == 0.0
    ensures Encloses(c, b, a)
  {
    OrientSwap(a, b, c);
  }

  /** Every point of the simplex is a point of A - B. */
  predicate InMinkowski(simplex: seq<Point2>, a: seq<Point2>, b: seq<Point2>) {
    forall k :: 0 <= k < |simplex| ==> InDifference(simplex[k], a, b)
  }

  /**
   Adds the support point along d to the kept points and turns the outcome
   into a step: a miss exactly when the support point stays short of the
   origin along d.
   */
  function Push(a: Shape, b: Shape, kept: seq<Point2>, d: Point2): (r: Step)
    requires |a.vertices| >= 1 && |b.vertices| >= 1
    ensures r.Continue? || r.Miss?
    ensures r.Miss? <==> Dot(d, MinkowskiSupport(a.vertices, b.vertices, d)) < 0.0
    ensures r.Continue? ==> |r.next.simplex| == |kept| + 1 && r.next.simplex[..|kept|] == kept
    ensures r.Continue? ==> r.next.simplex[|kept|] == MinkowskiSupport(a.vertices, b.vertices, d)
    ensures r.Continue? ==> InDifference(r.next.simplex[|kept|], a.vertices, b.vertices)
    ensures r.Continue? ==> r.next.direction == d && Dot(d, r.next.simplex[|kept|]) >= 0.0
    ensures r.Continue? && InMinkowski(kept, a.vertices, b.vertices) ==> InMinkowski(r.next.simplex, a.vertices, b.vertices)
    ensures r.Miss? ==> r.axis == d && Sat.CheckIsSeparated(a.vertices, b.vertices, d)
  {
    var added := AddSupportPoint(a.vertices, b.vertices, kept, d);
    if added.1 then
      assert InMinkowski(kept, a.vertices, b.vertices) ==> InMinkowski(added.0, a.vertices, b.vertices) by {
        if InMinkowski(kept, a.vertices, b.vertices) {
          forall k | 0 <= k < |added.0|
            ensures InDifference(added.0[k], a.vertices, b.vertices)
          {
            if k < |kept| {
              assert added.0[k] == added.0[..|kept|][k];
            }
          }
        }
      }
      Continue(State(added.0, d))
    else
      Miss(d)
  }

  /** What a triangle [C, B, A] turns into: a hit, or the points kept and the next direction. */
  datatype Reduction = Enclosed | Retry(kept: seq<Point2>, direction: Point2)

  /**
   Case 3 as written. When abPerp, and failing that acPerp, points from A
   towards the origin, the search goes on along it; splice(2, 1) removes the
   entry at index 2, which is A, so [C, B] is kept.
   */
  function ReduceTriangle(c: Point2, b: Point2, a: Point2): (r: Reduction)
    ensures r.Enclosed? <==> Encloses(c, b, a)
    ensures r.Retry? ==> r.kept == [c, b]
    ensures r.Retry? ==> Dot(r.direction, Sub(Origin, a)) > 0.0
    ensures r.Retry? ==> Dot(r.direction, Sub(b, a)) == 0.0 || Dot(r.direction, Sub(c, a)) == 0.0
    ensures Dot(AbPerp(c, b, a), Sub(Origin, a)) > 0.0 ==> r.Retry? && Dot(r.direction, Sub(b, a)) == 0.0
    ensures r.Retry? && Dot(AbPerp(c, b, a), Sub(Origin, a)) <= 0.0 ==> Dot(r.direction, Sub(c, a)) == 0.0
  {
    var vs := [c, b, a];
    if Dot(AbPerp(c, b, a), Sub(Origin, a)) > 0.0 then
      Retry(vs[..2], AbPerp(c, b, a))
    else if Dot(AcPerp(c, b, a), Sub(Origin, a)) > 0.0 then
      Retry(vs[..2], AcPerp(c, b, a))
    else
      Enclosed
  }

  /**
   The direction the loop searches along for a simplex of zero, one or two
   points: from A's pivot to B's, back again, and perpendicular to the
   segment towards the origin.
   */
  function GrowDirection(a: Shape, b: Shape, st: State): Point2
    requires |st.simplex| < 3
  {
    var vs := st.simplex;
    if |vs| == 0 then Sub(b.pivot, a.pivot)
    else if |vs| == 1 then Neg(st.direction)
    else SegmentDirection(vs[0], vs[1])
  }

  /**
   The body of the loop for a simplex of zero to three points: pick the
   direction for the simplex's size and add the support point along it.
   */
  function Evolve(a: Shape, b: Shape, st: State): (r: Step)
    requires |a.vertices| >= 1 && |b.vertices| >= 1 && |st.simplex| <= 3
    ensures r.Hit? <==> |st.simplex| == 3 && Encloses(st.simplex[0], st.simplex[1], st.simplex[2])
    ensures r.Continue? ==> |r.next.simplex| == (if |st.simplex| == 3 then 3 else |st.simplex| + 1)
    ensures r.Continue? && |st.simplex| < 3 ==> r.next.simplex[..|st.simplex|] == st.simplex
    ensures |st.simplex| == 0 && r.Continue? ==> r.next.direction == Sub(b.pivot, a.pivot)
    ensures |st.simplex| == 0 && r.Miss? ==> r.axis == Sub(b.pivot, a.pivot)
    ensures |st.simplex| == 1 && r.Continue? ==> r.next.direction == Neg(st.direction)
    ensures |st.simplex| == 1 && r.Miss? ==> r.axis == Neg(st.direction)
    ensures |st.simplex| == 2 && r.Continue? ==> r.next.direction == SegmentDirection(st.simplex[0], st.simplex[1])
    ensures |st.simplex| == 2 && r.Miss? ==> r.axis == SegmentDirection(st.simplex[0], st.simplex[1])
    ensures |st.simplex| == 2 && r.Continue? ==>
              Dot(r.next.direction, Sub(st.simplex[1], st.simplex[0])) == 0.0
    ensures |st.simplex| < 3 ==>
              (r.Miss? <==> Dot(GrowDirection(a, b, st), MinkowskiSupport(a.vertices, b.vertices, GrowDirection(a, b, st))) < 0.0)
    ensures r.Continue? && |st.simplex| == 3 ==> r.next.simplex[..2] == st.simplex[..2]
    ensures r.Continue? && |st.simplex| == 3 ==> Dot(r.next.direction, Sub(Origin, st.simplex[2])) > 0.0
    ensures r.Continue? && |st.simplex| == 3 ==>
              (|| Dot(r.next.direction, Sub(st.simplex[1], st.simplex[2])) == 0.0
               || Dot(r.next.direction, Sub(st.simplex[0], st.simplex[2])) == 0.0)
    ensures |st.simplex| == 3 && Dot(AbPerp(st.simplex[0], st.simplex[1], st.simplex[2]), Sub(Origin, st.simplex[2])) > 0.0 ==>
              && !r.Hit?
              && (r.Continue? ==> Dot(r.next.direction, Sub(st.simplex[1], st.simplex[2])) == 0.0)
              && (r.Miss? ==> Dot(r.axis, Sub(st.simplex[1], st.simplex[2])) == 0.0)
    ensures |st.simplex| == 3 ==>
              (r.Miss? <==>
                 && ReduceTriangle(st.simplex[0], st.simplex[1], st.simplex[2]).Retry?
                 && var d := ReduceTriangle(st.simplex[0], st.simplex[1], st.simplex[2]).direction;
                    Dot(d, MinkowskiSupport(a.vertices, b.vertices, d)) < 0.0)
    ensures r.Continue? && InMinkowski(st.simplex, a.vertices, b.vertices) ==> InMinkowski(r.next.simplex, a.vertices, b.vertices)
    ensures r.Miss? ==> Sat.CheckIsSeparated(a.vertices, b.vertices, r.axis)
  {
    var vs := st.simplex;
    if |vs| < 3 then
      Push(a, b, vs, GrowDirection(a, b, st))
    else
      match ReduceTriangle(vs[0], vs[1], vs[2])
      case Enclosed => Hit
      case Retry(kept, d) =>
        assert kept == vs[..2];
        assert InMinkowski(vs, a.vertices, b.vertices) ==> InMinkowski(kept, a.vertices, b.vertices);
        Push(a, b, kept, d)
  }

  /**
   Three points of A - B that pass the enclosure test: the evidence behind a hit.
   Either the origin lies in the closed angle at the newest point, or the triangle is flat.
   */
  predicate EnclosingSimplex(s: seq<Point2>, a: seq<Point2>, b: seq<Point2>) {
    |s| == 3 && InMinkowski(s, a, b) && Encloses(s[0], s[1], s[2])
  }

  /** The loop, run for at most `fuel` passes. */
  function Run(a: Shape, b: Shape, st: State, fuel: nat): (v: Verdict)
    requires |a.vertices| >= 1 && |b.vertices| >= 1 && |st.simplex| <= 3
    ensures v == Separate ==> exists d :: Sat.CheckIsSeparated(a.vertices, b.vertices, d)
    ensures v == Colliding && InMinkowski(st.simplex, a.vertices, b.vertices) ==>
              exists s :: EnclosingSimplex(s, a.vertices, b.vertices)
    decreases fuel
  {
    if fuel == 0 then OutOfFuel
    else
      match Evolve(a, b, st)
      case Hit =>
        assert InMinkowski(st.simplex, a.vertices, b.vertices) ==> EnclosingSimplex(st.simplex, a.vertices, b.vertices);
        Colliding
      case Miss(d) =>
        assert Sat.CheckIsSeparated(a.vertices, b.vertices, d);
        Separate
      case Continue(next) => Run(a, b, next, fuel - 1)
  }

  /**
   checkGJK from an empty simplex: Separate only when some direction separates
   the two vertex sets, so never for shapes that share a vertex; Colliding only
   when three points of A - B pass the enclosure test, which every flat triangle
   passes, so Colliding does not by itself mean contact.
   */
  function CheckGJK(a: Shape, b: Shape, fuel: nat): (v: Verdict)
    requires |a.vertices| >= 1 && |b.vertices| >= 1
    ensures v == Separate ==> exists d :: Sat.CheckIsSeparated(a.vertices, b.vertices, d)
    ensures v == Separate ==> forall i, j :: 0 <= i < |a.vertices| && 0 <= j < |b.vertices| ==> a.vertices[i] != b.vertices[j]
    ensures v == Colliding ==> exists s :: EnclosingSimplex(s, a.vertices, b.vertices)
  {
    var v := Run(a, b, State([], Origin), fuel);
    assert InMinkowski([], a.vertices, b.vertices);
    assert v == Separate ==> forall i, j :: 0 <= i < |a.vertices| && 0 <= j < |b.vertices| ==> a.vertices[i] != b.vertices[j] by {
      if v == Separate {
        var d :| Sat.CheckIsSeparated(a.vertices, b.vertices, d);
        forall i, j | 0 <= i < |a.vertices| && 0 <= j < |b.vertices|
          ensures a.vertices[i] != b.vertices[j]
        {
          if a.vertices[i] == b.vertices[j] {
            Sat.SharedVertexNotSeparated(a.vertices, b.vertices, d, i, j);
          }
        }
      }
    }
    v
  }

  /**
   As written, a right-angled triangle [C, B, A] with AC = (1, 0), AB = (0, 1)
   and the origin on the far side of AB from C keeps [C, B]: the newest point
   A is dropped, and the next direction (-1, 0), which is perpendicular to AB,
   is not perpendicular to the kept segment CB.
   */
  lemma DropsNewestPoint(c: Point2, b: Point2, a: Point2)
    requires Sub(c, a) == Point2(1.0, 0.0) && Sub(b, a) == Point2(0.0, 1.0) && a.x > 0.0
    ensures ReduceTriangle(c, b, a) == Retry([c, b], Point2(-1.0, 0.0))
    ensures a != c && a != b
    ensures Dot(Point2(-1.0, 0.0), Sub(b, c)) == 1.0
  {
    assert AbPerp(c, b, a) == Point2(-1.0, 0.0);
    assert Dot(AbPerp(c, b, a), Sub(Origin, a)) == a.x;
  }

  /** The triangle [(3, 0), (2, 1), (2, 0)] is one such input. */
  lemma KeepsOldSegment()
    ensures ReduceTriangle(Point2(3.0, 0.0), Point2(2.0, 1.0), Point2(2.0, 0.0))
            == Retry([Point2(3.0, 0.0), Point2(2.0, 1.0)], Point2(-1.0, 0.0))
  {
    DropsNewestPoint(Point2(3.0, 0.0), Point2(2.0, 1.0), Point2(2.0, 0.0));
  }
}
