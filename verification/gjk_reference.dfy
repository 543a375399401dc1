/**
 The C# EvolveSimplex that gjk.ts follows. It picks the same directions, but a
 triangle that does not enclose the origin loses the point opposite the edge
 that faces the origin, so the newest point always stays; and a simplex of
 more than three points only adds a support point.
 */
module GjkReference {
  import opened Geometry
  import opened Shapes
  import Sat
  import opened Gjk

  datatype EvolveResult = NoIntersection | FoundIntersection | StillEvolving

  datatype Outcome = Outcome(result: EvolveResult, state: State)

  /** The position of the first element equal to x. */
  function FirstIndex(vs: seq<Point2>, x: Point2): (k: nat)
    requires x in vs
    ensures k < |vs| && vs[k] == x && x !in vs[..k]
  {
    if vs[0] == x then 0
    else
      assert x in vs[1..];
      var k := FirstIndex(vs[1..], x);
      assert vs[..k + 1] == [vs[0]] + vs[1..][..k];
      k + 1
  }

  /** Slicing past the head of a sequence. */
  lemma ConsSlices(vs: seq<Point2>, k: nat)
    requires k + 1 < |vs|
    ensures vs[..k + 1] == [vs[0]] + vs[1..][..k]
    ensures vs[k + 2..] == vs[1..][k + 1..]
  {
  }

  /** Putting back a head that differs from x commutes with removing x. */
  lemma ConsRemove(vs: seq<Point2>, x: Point2, rest: seq<Point2>)
    requires |vs| >= 1 && vs[0] != x
    requires x !in vs[1..] ==> rest == vs[1..]
    requires x in vs[1..] ==> rest == vs[1..][..FirstIndex(vs[1..], x)] + vs[1..][FirstIndex(vs[1..], x) + 1..]
    ensures x !in vs ==> [vs[0]] + rest == vs
    ensures x in vs ==> [vs[0]] + rest == vs[..FirstIndex(vs, x)] + vs[FirstIndex(vs, x) + 1..]
  {
    var tail := vs[1..];
    if x in vs {
      assert x in tail;
      var k := FirstIndex(tail, x);
      assert FirstIndex(vs, x) == k + 1;
      ConsSlices(vs, k);
    } else {
      assert x !in tail;
      assert [vs[0]] + tail == vs;
    }
  }

  /** List.Remove: drops the first element equal to x, if there is one. */
  function RemoveFirst(vs: seq<Point2>, x: Point2): (r: seq<Point2>)
    ensures x !in vs ==> r == vs
    ensures x in vs ==> r == vs[..FirstIndex(vs, x)] + vs[FirstIndex(vs, x) + 1..]
  {
    if |vs| == 0 then []
    else if vs[0] == x then vs[1..]
    else
      var rest := RemoveFirst(vs[1..], x);
      ConsRemove(vs, x, rest);
      [vs[0]] + rest
  }

  /** Removing c from [c, b, a] leaves [b, a]; removing b leaves [c, a], even when b equals c. */
  lemma RemoveFromTriangle(c: Point2, b: Point2, a: Point2)
    ensures RemoveFirst([c, b, a], c) == [b, a]
    ensures RemoveFirst([c, b, a], b) == [c, a]
  {
    assert [c, b, a][1..] == [b, a];
    if b != c {
      assert [c, b, a][1..][1..] == [a];
    }
  }

  lemma ZeroDotReversed(n: Point2, p: Point2, q: Point2)
    requires Dot(n, Sub(p, q)) == 0.0
    ensures Dot(n, Sub(q, p)) == 0.0
  {
  }

  /**
   Case 3 of the reference. The edge at A whose perpendicular points at the
   origin is kept, so the newest point A stays and the next direction is
   perpendicular to the kept segment.
   */
  function ReduceTriangle(c: Point2, b: Point2, a: Point2): (r: Reduction)
    ensures r.Enclosed? <==> Encloses(c, b, a)
    ensures r.Retry? ==> |r.kept| == 2 && r.kept[1] == a
    ensures r.Retry? ==> Dot(r.direction, Sub(r.kept[1], r.kept[0])) == 0.0
    ensures r.Retry? ==> Dot(r.direction, Sub(Origin, a)) > 0.0
    ensures Dot(AbPerp(c, b, a), Sub(Origin, a)) > 0.0 ==>
              r.Retry? && r.kept == [b, a] && Dot(r.direction, Sub(b, a)) == 0.0
    ensures r.Retry? && Dot(AbPerp(c, b, a), Sub(Origin, a)) <= 0.0 ==>
              r.kept == [c, a] && Dot(r.direction, Sub(c, a)) == 0.0
  {
    RemoveFromTriangle(c, b, a);
    if Dot(AbPerp(c, b, a), Sub(Origin, a)) > 0.0 then
      ZeroDotReversed(AbPerp(c, b, a), b, a);
      Retry(RemoveFirst([c, b, a], c), AbPerp(c, b, a))
    else if Dot(AcPerp(c, b, a), Sub(Origin, a)) > 0.0 then
      ZeroDotReversed(AcPerp(c, b, a), c, a);
      Retry(RemoveFirst([c, b, a], b), AcPerp(c, b, a))
    else
      Enclosed
  }

  /** AddSupport, with the support point appended once, mapped onto the result. */
  function AddSupport(a: Shape, b: Shape, kept: seq<Point2>, d: Point2): (o: Outcome)
    requires |a.vertices| >= 1 && |b.vertices| >= 1
    ensures o.result != FoundIntersection
    ensures |o.state.simplex| == |kept| + 1 && o.state.simplex[..|kept|] == kept && o.state.direction == d
    ensures o.result == StillEvolving <==> Dot(d, o.state.simplex[|kept|]) >= 0.0
    ensures o.result == NoIntersection ==> Sat.CheckIsSeparated(a.vertices, b.vertices, d)
  {
    var added := AddSupportPoint(a.vertices, b.vertices, kept, d);
    Outcome(if added.1 then StillEvolving else NoIntersection, State(added.0, d))
  }

  /**
   One evolution step. FoundIntersection leaves the state alone; every other
   outcome adds one support point, and NoIntersection comes with a
   separating direction.
   */
  function EvolveSimplex(a: Shape, b: Shape, st: State): (o: Outcome)
    requires |a.vertices| >= 1 && |b.vertices| >= 1
    ensures o.result == FoundIntersection <==> |st.simplex| == 3 && Encloses(st.simplex[0], st.simplex[1], st.simplex[2])
    ensures o.result == FoundIntersection ==> o.state == st
    ensures o.result == NoIntersection ==> Sat.CheckIsSeparated(a.vertices, b.vertices, o.state.direction)
    ensures o.result != FoundIntersection && |st.simplex| < 3 ==>
              |o.state.simplex| == |st.simplex| + 1 && o.state.simplex[..|st.simplex|] == st.simplex
    ensures o.result != FoundIntersection && |st.simplex| == 3 ==>
              && |o.state.simplex| == 3
              && o.state.simplex[1] == st.simplex[2]
              && Dot(o.state.direction, Sub(o.state.simplex[1], o.state.simplex[0])) == 0.0
    ensures |st.simplex| > 3 ==>
              && |o.state.simplex| == |st.simplex| + 1
              && o.state.direction == st.direction && o.state.simplex[..|st.simplex|] == st.simplex
  {
    var vs := st.simplex;
    if |vs| == 0 then
      AddSupport(a, b, vs, Sub(b.pivot, a.pivot))
    else if |vs| == 1 then
      AddSupport(a, b, vs, Neg(st.direction))
    else if |vs| == 2 then
      AddSupport(a, b, vs, SegmentDirection(vs[0], vs[1]))
    else if |vs| == 3 then
      match ReduceTriangle(vs[0], vs[1], vs[2])
      case Enclosed => Outcome(FoundIntersection, st)
      case Retry(kept, d) => AddSupport(a, b, kept, d)
    else
      AddSupport(a, b, vs, st.direction)
  }

  /** The reference loop on fuel, with the same verdicts as the script's. */
  function RunReference(a: Shape, b: Shape, st: State, fuel: nat): (v: Verdict)
    requires |a.vertices| >= 1 && |b.vertices| >= 1
    ensures v == Separate ==> exists d :: Sat.CheckIsSeparated(a.vertices, b.vertices, d)
    decreases fuel
  {
    if fuel == 0 then OutOfFuel
    else
      var o := EvolveSimplex(a, b, st);
      match o.result
      case FoundIntersection => Colliding
      case NoIntersection =>
        assert Sat.CheckIsSeparated(a.vertices, b.vertices, o.state.direction);
        Separate
      case StillEvolving => RunReference(a, b, o.state, fuel - 1)
  }

  /**
   Below three points the script's step and the reference step choose the
   same direction and reach the same state.
   */
  lemma AgreesBelowThree(a: Shape, b: Shape, st: State)
    requires |a.vertices| >= 1 && |b.vertices| >= 1 && |st.simplex| <= 2
    ensures var r := Evolve(a, b, st);
            var o := EvolveSimplex(a, b, st);
            && (r.Continue? <==> o.result == StillEvolving)
            && (r.Continue? ==> r.next == o.state)
            && (r.Miss? <==> o.result == NoIntersection)
            && (r.Miss? ==> r.axis == o.state.direction)
  {
    if |st.simplex| == 0 {
    } else if |st.simplex| == 1 {
    } else {
    }
  }

  /** With three points both report a hit under the same condition. */
  lemma SameHitCondition(a: Shape, b: Shape, st: State)
    requires |a.vertices| >= 1 && |b.vertices| >= 1 && |st.simplex| == 3
    ensures Evolve(a, b, st).Hit? <==> EvolveSimplex(a, b, st).result == FoundIntersection
  {
  }

  /**
   Starting from at most three points, a step that goes on leaves at most
   three, so the default arm is never reached from an empty simplex.
   */
  lemma SizeStaysAtMostThree(a: Shape, b: Shape, st: State)
    requires |a.vertices| >= 1 && |b.vertices| >= 1 && |st.simplex| <= 3
    ensures |EvolveSimplex(a, b, st).state.simplex| <= 3
  {
  }
}
