/**
 The scripts combine per-vertex or per-segment booleans with a left fold whose
 accumulator starts out empty and is seeded by the first element
 ('acc = acc ? acc.or(x) : x'). An empty list leaves the accumulator null and
 the caller then dereferences it, so every fold here needs at least one element.
 */
module Folds {

  /** The 'or' fold: true iff some element is true. */
  function AnyOf(bs: seq<bool>): (r: bool)
    requires |bs| >= 1
    ensures r <==> exists i :: 0 <= i < |bs| && bs[i]
  {
    if |bs| == 1 then bs[0]
    else
      var init := bs[..|bs| - 1];
      assert forall i :: 0 <= i < |init| ==> init[i] == bs[i];
      AnyOf(init) || bs[|bs| - 1]
  }

  /** The 'and' fold: true iff every element is true. */
  function AllOf(bs: seq<bool>): (r: bool)
    requires |bs| >= 1
    ensures r <==> forall i :: 0 <= i < |bs| ==> bs[i]
  {
    if |bs| == 1 then bs[0]
    else
      var init := bs[..|bs| - 1];
      assert forall i :: 0 <= i < |init| ==> init[i] == bs[i];
      AllOf(init) && bs[|bs| - 1]
  }

  /** Folding one more element into an 'or' can only turn false into true. */
  lemma AnyOfAppend(bs: seq<bool>, b: bool)
    requires |bs| >= 1
    ensures AnyOf(bs) ==> AnyOf(bs + [b])
    ensures AnyOf(bs + [b]) <==> AnyOf(bs) || b
  {
    var t := bs + [b];
    assert forall i :: 0 <= i < |bs| ==> t[i] == bs[i];
    assert t[|bs|] == b;
  }

  /** Folding one more element into an 'and' can only turn true into false. */
  lemma AllOfAppend(bs: seq<bool>, b: bool)
    requires |bs| >= 1
    ensures AllOf(bs + [b]) ==> AllOf(bs)
    ensures AllOf(bs + [b]) <==> AllOf(bs) && b
  {
    var t := bs + [b];
    assert forall i :: 0 <= i < |bs| ==> t[i] == bs[i];
    assert t[|bs|] == b;
  }
}
