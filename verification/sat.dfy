/**
 The separating-axis test of sat.ts. Every edge of either polygon contributes
 its left normal as a candidate axis; the shapes are reported separated when
 the projections of their vertices onto some candidate axis form two disjoint
 intervals. The result means "separated": the script draws the collider faint
 when it is true.
 */
module Sat {
  import opened Geometry
  import opened Folds

  /** The left normal (-y, x) of a vector. */
  function LeftNormal(v: Point2): (n: Point2)
    ensures Dot(n, v) == 0.0
    ensures NormSq(n) == NormSq(v)
    ensures Cross(v, n) == NormSq(v)
  {
    Point2(-v.y, v.x)
  }

  /** The right normal (y, -x) of a vector: the left normal turned around. */
  function RightNormal(v: Point2): (n: Point2)
    ensures n == Neg(LeftNormal(v))
    ensures Dot(n, v) == 0.0
    ensures Cross(v, n) == -NormSq(v)
  {
    Point2(v.y, -v.x)
  }

  /** The vertex after vertex i, wrapping round to the first. */
  function Next(vs: seq<Point2>, i: nat): (q: Point2)
    requires i < |vs|
    ensures i + 1 < |vs| ==> q == vs[i + 1]
    ensures i + 1 == |vs| ==> q == vs[0]
  {
    if i + 1 < |vs| then vs[i + 1] else vs[0]
  }

  /** The edge leaving vertex i. */
  function Edge(vs: seq<Point2>, i: nat): Point2
    requires i < |vs|
  {
    Sub(Next(vs, i), vs[i])
  }

  /** The candidate axis of edge i. */
  function EdgeNormal(vs: seq<Point2>, i: nat): Point2
    requires i < |vs|
  {
    LeftNormal(Edge(vs, i))
  }

  /**
   One candidate axis per vertex: perpendicular to the edge leaving that
   vertex, as long as it, and pointing to the edge's left.
   */
  function GetEdgeNormals(vs: seq<Point2>): (ns: seq<Point2>)
    ensures |ns| == |vs|
    ensures forall i: nat :: i < |ns| ==> ns[i] == EdgeNormal(vs, i)
    ensures forall i: nat :: i < |ns| ==> Dot(ns[i], Edge(vs, i)) == 0.0
    ensures forall i: nat :: i < |ns| ==> NormSq(ns[i]) == NormSq(Edge(vs, i))
    ensures forall i: nat :: i < |ns| ==> Cross(Edge(vs, i), ns[i]) == NormSq(Edge(vs, i))
  {
    seq(|vs|, (i: nat) requires i < |vs| => EdgeNormal(vs, i))
  }

  /** The projections of the vertices onto an axis, before division by its length. */
  function Projections(vs: seq<Point2>, axis: Point2): (ps: seq<real>)
    ensures |ps| == |vs|
    ensures forall i :: 0 <= i < |vs| ==> ps[i] == Dot(vs[i], axis)
  {
    seq(|vs|, i requires 0 <= i < |vs| => Dot(vs[i], axis))
  }

  datatype Interval = Interval(min: real, max: real)

  /**
   The running minimum and maximum over the projections, seeded by the first
   one. Both bound every projection and both are attained.
   */
  function GetMaxMin(ps: seq<real>): (iv: Interval)
    requires |ps| >= 1
    ensures forall i :: 0 <= i < |ps| ==> iv.min <= ps[i] <= iv.max
    ensures exists i :: 0 <= i < |ps| && ps[i] == iv.min
    ensures exists i :: 0 <= i < |ps| && ps[i] == iv.max
  {
    if |ps| == 1 then Interval(ps[0], ps[0])
    else
      var init := ps[..|ps| - 1];
      assert forall i :: 0 <= i < |init| ==> init[i] == ps[i];
      var iv := GetMaxMin(init);
      Interval(Min(iv.min, ps[|ps| - 1]), Max(iv.max, ps[|ps| - 1]))
  }

  /** A.max < B.min or B.max < A.min. */
  predicate Disjoint(ia: Interval, ib: Interval) {
    ia.max < ib.min || ib.max < ia.min
  }

  /** The axis separates A from B. */
  predicate CheckIsSeparated(a: seq<Point2>, b: seq<Point2>, axis: Point2)
    requires |a| >= 1 && |b| >= 1
  {
    Disjoint(GetMaxMin(Projections(a, axis)), GetMaxMin(Projections(b, axis)))
  }

  /** Every value of ps lies strictly below every value of qs. */
  predicate AllBelow(ps: seq<real>, qs: seq<real>) {
    forall i, j :: 0 <= i < |ps| && 0 <= j < |qs| ==> ps[i] < qs[j]
  }

  /**
   The minimum and maximum are the only interval that bounds the values and is
   attained by them.
   */
  lemma DisjointMeaning(ps: seq<real>, qs: seq<real>)
    requires |ps| >= 1 && |qs| >= 1
    ensures Disjoint(GetMaxMin(ps), GetMaxMin(qs)) <==> AllBelow(ps, qs) || AllBelow(qs, ps)
  {
    var ip := GetMaxMin(ps);
    var iq := GetMaxMin(qs);
    var pMin :| 0 <= pMin < |ps| && ps[pMin] == ip.min;
    var pMax :| 0 <= pMax < |ps| && ps[pMax] == ip.max;
    var qMin :| 0 <= qMin < |qs| && qs[qMin] == iq.min;
    var qMax :| 0 <= qMax < |qs| && qs[qMax] == iq.max;
    if AllBelow(ps, qs) {
      assert ps[pMax] < qs[qMin];
    }
    if AllBelow(qs, ps) {
      assert qs[qMax] < ps[pMin];
    }
  }

  /**
   The axis separates A from B iff all of A's projections lie below all of B's,
   or all above.
   */
  lemma SeparatedMeaning(a: seq<Point2>, b: seq<Point2>, axis: Point2)
    requires |a| >= 1 && |b| >= 1
    ensures CheckIsSeparated(a, b, axis) <==>
            ((forall i, j :: 0 <= i < |a| && 0 <= j < |b| ==> Dot(a[i], axis) < Dot(b[j], axis))
             || (forall i, j :: 0 <= i < |a| && 0 <= j < |b| ==> Dot(b[j], axis) < Dot(a[i], axis)))
  {
    var pa := Projections(a, axis);
    var pb := Projections(b, axis);
    DisjointMeaning(pa, pb);
    assert AllBelow(pa, pb) <==> forall i, j :: 0 <= i < |a| && 0 <= j < |b| ==> Dot(a[i], axis) < Dot(b[j], axis);
    assert AllBelow(pb, pa) <==> forall j, i :: 0 <= j < |b| && 0 <= i < |a| ==> Dot(b[j], axis) < Dot(a[i], axis);
  }

  /** Separation along one axis does not depend on the order of the shapes. */
  lemma SeparatedSymmetric(a: seq<Point2>, b: seq<Point2>, axis: Point2)
    requires |a| >= 1 && |b| >= 1
    ensures CheckIsSeparated(a, b, axis) == CheckIsSeparated(b, a, axis)
  {
  }

  /** A vertex the two shapes share projects into both intervals. */
  lemma SharedVertexNotSeparated(a: seq<Point2>, b: seq<Point2>, axis: Point2, i: nat, j: nat)
    requires i < |a| && j < |b| && a[i] == b[j]
    ensures !CheckIsSeparated(a, b, axis)
  {
    SeparatedMeaning(a, b, axis);
  }

  /** The zero axis projects everything to 0 and never separates. */
  lemma ZeroAxisNeverSeparates(a: seq<Point2>, b: seq<Point2>)
    requires |a| >= 1 && |b| >= 1
    ensures !CheckIsSeparated(a, b, Origin)
  {
    SeparatedMeaning(a, b, Origin);
    assert Dot(a[0], Origin) == 0.0 == Dot(b[0], Origin);
  }

  /** Negating every value turns "all below" into "all above". */
  lemma AllBelowNegated(ps: seq<real>, qs: seq<real>, np: seq<real>, nq: seq<real>)
    requires |np| == |ps| && |nq| == |qs|
    requires forall i :: 0 <= i < |ps| ==> np[i] == -ps[i]
    requires forall j :: 0 <= j < |qs| ==> nq[j] == -qs[j]
    ensures AllBelow(np, nq) == AllBelow(qs, ps)
  {
    if AllBelow(qs, ps) {
      forall i, j | 0 <= i < |np| && 0 <= j < |nq|
        ensures np[i] < nq[j]
      {
        assert qs[j] < ps[i];
      }
    }
    if AllBelow(np, nq) {
      forall j, i | 0 <= j < |qs| && 0 <= i < |ps|
        ensures qs[j] < ps[i]
      {
        assert np[i] < nq[j];
      }
    }
  }

  lemma DotNeg(p: Point2, v: Point2)
    ensures Dot(p, Neg(v)) == -Dot(p, v)
  {
  }

  /** Turning the axis around exchanges "below" and "above" but keeps the verdict. */
  lemma OppositeAxisSameVerdict(a: seq<Point2>, b: seq<Point2>, axis: Point2)
    requires |a| >= 1 && |b| >= 1
    ensures CheckIsSeparated(a, b, Neg(axis)) == CheckIsSeparated(a, b, axis)
  {
    var pa := Projections(a, axis);
    var pb := Projections(b, axis);
    var na := Projections(a, Neg(axis));
    var nb := Projections(b, Neg(axis));
    DisjointMeaning(pa, pb);
    DisjointMeaning(na, nb);
    forall i | 0 <= i < |a|
      ensures na[i] == -pa[i]
    {
      DotNeg(a[i], axis);
    }
    forall j | 0 <= j < |b|
      ensures nb[j] == -pb[j]
    {
      DotNeg(b[j], axis);
    }
    AllBelowNegated(pa, pb, na, nb);
    AllBelowNegated(pb, pa, nb, na);
  }

  /** Dividing by a positive length keeps a strict order. */
  lemma DivideKeepsOrder(x: real, y: real, len: real, xd: real, yd: real)
    requires len > 0.0 && xd * len == x && yd * len == y
    ensures xd < yd <==> x < y
  {
    PositiveFactor(len, yd - xd, y - x);
  }

  /** Dividing every value by the same positive length keeps "all below". */
  lemma AllBelowDivided(ps: seq<real>, qs: seq<real>, dp: seq<real>, dq: seq<real>, len: real)
    requires len > 0.0 && dp == DivideAll(ps, len) && dq == DivideAll(qs, len)
    ensures AllBelow(dp, dq) == AllBelow(ps, qs)
  {
    forall i, j | 0 <= i < |ps| && 0 <= j < |qs|
      ensures dp[i] < dq[j] <==> ps[i] < qs[j]
    {
      DivideKeepsOrder(ps[i], qs[j], len, dp[i], dq[j]);
    }
  }

  /** Every value divided by the same positive length. */
  function DivideAll(ps: seq<real>, len: real): (ds: seq<real>)
    requires len > 0.0
    ensures |ds| == |ps|
    ensures forall i :: 0 <= i < |ps| ==> ds[i] * len == ps[i]
  {
    seq(|ps|, i requires 0 <= i < |ps| => ps[i] / len)
  }

  /** The projections as the script computes them: divided by the axis length. */
  function ProjectLengths(vs: seq<Point2>, axis: Point2, len: real): (ps: seq<real>)
    requires len > 0.0
    ensures |ps| == |vs|
    ensures forall i :: 0 <= i < |vs| ==> ps[i] * len == Dot(vs[i], axis)
  {
    DivideAll(Projections(vs, axis), len)
  }

  /**
   Dividing every projection by the (positive) length of the axis leaves the
   verdict unchanged, so the model compares undivided dot products.
   */
  lemma LengthDivisionIrrelevant(a: seq<Point2>, b: seq<Point2>, axis: Point2, len: real)
    requires |a| >= 1 && |b| >= 1 && len > 0.0
    ensures Disjoint(GetMaxMin(ProjectLengths(a, axis, len)), GetMaxMin(ProjectLengths(b, axis, len)))
            == CheckIsSeparated(a, b, axis)
  {
    var qa := Projections(a, axis);
    var qb := Projections(b, axis);
    var pa := DivideAll(qa, len);
    var pb := DivideAll(qb, len);
    assert pa == ProjectLengths(a, axis, len);
    assert pb == ProjectLengths(b, axis, len);
    DisjointMeaning(pa, pb);
    DisjointMeaning(qa, qb);
    AllBelowDivided(qa, qb, pa, pb, len);
    AllBelowDivided(qb, qa, pb, pa, len);
  }

  /** The verdict of each of the given axes. */
  function AxisVerdicts(a: seq<Point2>, b: seq<Point2>, axes: seq<Point2>): (vs: seq<bool>)
    requires |a| >= 1 && |b| >= 1
    ensures |vs| == |axes|
    ensures forall k :: 0 <= k < |axes| ==> vs[k] == CheckIsSeparated(a, b, axes[k])
  {
    seq(|axes|, k requires 0 <= k < |axes| => CheckIsSeparated(a, b, axes[k]))
  }

  /** Some edge normal of `edges` separates A from B. */
  predicate SomeNormalSeparates(a: seq<Point2>, b: seq<Point2>, edges: seq<Point2>)
    requires |a| >= 1 && |b| >= 1
  {
    exists k: nat :: k < |edges| && CheckIsSeparated(a, b, EdgeNormal(edges, k))
  }

  /** Folding the verdicts of the edge normals of `edges` asks whether one of them separates. */
  lemma NormalVerdictsMeaning(a: seq<Point2>, b: seq<Point2>, edges: seq<Point2>)
    requires |a| >= 1 && |b| >= 1 && |edges| >= 1
    ensures AnyOf(AxisVerdicts(a, b, GetEdgeNormals(edges))) <==> SomeNormalSeparates(a, b, edges)
  {
    var vs := AxisVerdicts(a, b, GetEdgeNormals(edges));
    if AnyOf(vs) {
      var k :| 0 <= k < |vs| && vs[k];
      assert CheckIsSeparated(a, b, EdgeNormal(edges, k));
    }
    if SomeNormalSeparates(a, b, edges) {
      var k: nat :| k < |edges| && CheckIsSeparated(a, b, EdgeNormal(edges, k));
      assert vs[k];
    }
  }

  /**
   The separating-axis test: true (separated) iff an edge normal of A or an
   edge normal of B separates the two shapes.
   */
  function CheckSAT(a: seq<Point2>, b: seq<Point2>): (r: bool)
    requires |a| >= 1 && |b| >= 1
    ensures r <==> SomeNormalSeparates(a, b, a) || SomeNormalSeparates(a, b, b)
  {
    NormalVerdictsMeaning(a, b, a);
    NormalVerdictsMeaning(a, b, b);
    AnyOf(AxisVerdicts(a, b, GetEdgeNormals(a))) || AnyOf(AxisVerdicts(a, b, GetEdgeNormals(b)))
  }

  /** The test does not depend on which shape comes first. */
  lemma CheckSATSymmetric(a: seq<Point2>, b: seq<Point2>)
    requires |a| >= 1 && |b| >= 1
    ensures CheckSAT(a, b) == CheckSAT(b, a)
  {
    forall axis | true
      ensures CheckIsSeparated(a, b, axis) == CheckIsSeparated(b, a, axis)
    {
      SeparatedSymmetric(a, b, axis);
    }
  }

  /** Shapes with a common vertex, a shape and itself among them, are never reported separated. */
  lemma SharedVertexNeverSeparated(a: seq<Point2>, b: seq<Point2>, i: nat, j: nat)
    requires i < |a| && j < |b| && a[i] == b[j]
    ensures !CheckSAT(a, b)
  {
    forall axis | true
      ensures !CheckIsSeparated(a, b, axis)
    {
      SharedVertexNotSeparated(a, b, axis, i, j);
    }
  }

  lemma SelfNeverSeparated(a: seq<Point2>)
    requires |a| >= 1
    ensures !CheckSAT(a, a)
  {
    SharedVertexNeverSeparated(a, a, 0, 0);
  }
}
