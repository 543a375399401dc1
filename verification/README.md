# 2D collision checks for scene objects

This project models the collision-detection core of a small scene-scripting
library. Flat scene objects (planes) are placed in the XY plane. A planar
bounding box is built from each object's transform, and pairs of boxes,
polygons and circles are checked for contact. The tests are:

- an axis-aligned interval-overlap test;
- corner-in-box tests, using either a line equation or a cross product;
- a point-in-rectangle test that works on vertex lists;
- dot-product and line/circle tests;
- circle tests;
- a "multi-line" side test against two polylines;
- the separating axis theorem (SAT);
- the Gilbert–Johnson–Keerthi (GJK) simplex loop. Its C# counterpart is modelled as a reference.

Coordinates are `real`. Rotation by an angle θ is given as the pair
`c = cos θ`, `s = sin θ`. Where rotation matters, `Unit(c, s)` (c² + s² = 1)
is assumed. The host constant π is a positive parameter.

Modules follow the source files:

| file | module | models |
|---|---|---|
| `geometry.dfy` | `Geometry` | vectors, dot and cross products, the two side-of-line formulas, rotation about a pivot |
| `folds.dfy` | `Folds` | the null-seeded `acc ? acc.or(x) : x` / `acc.and(x)` reductions used throughout |
| `shapes.dfy` | `Shapes` | the records of `index.d.ts`: transform, plane, bounding box, shape |
| `regions.dfy` | `Regions` | the quadrilateral half-plane test and the dot-product rectangle test, shared by several files |
| `tool.dfy` | `Tool` | `tool.ts` |
| `aabb.dfy` | `Aabb` | `aabb.ts` and the identical `checkHit3D` of `tool.ts` |
| `left_right.dfy` | `LeftRight` | `left_right.ts` |
| `point_in_rect.dfy` | `PointInRect` | `point_in_rect.ts` |
| `index.dfy` | `Index` | `index.ts` |
| `circle.dfy` | `Circle` | `circle.ts` |
| `multi_lines.dfy` | `MultiLines` | `multi_lines.ts` |
| `sat.dfy` | `Sat` | `sat.ts` |
| `gjk.dfy` | `Gjk` | `gjk.ts` |
| `gjk_reference.dfy` | `GjkReference` | `gjk_temp.cs` |

Several source files repeat the same helper:

- `aabb.ts` `getBBox3D` is `tool.ts` `genBoundingBox3D` once z is 0.
- `left_right.ts` `getBBox3D` is `genBoundingBox3DWithRotation` plus a vertex list.
- `tool.ts` `calcWhichSide2` and `left_right.ts` `calcWhichSide` are the same cross product (`Geometry.Orient`).
- `tool.ts` `calcWhichSide` and `left_right.ts` `calcWhichSideOld` are the same line equation (`Geometry.LineSide`).

Each of these is defined once and cited at every place it appears.

## Model

| member | source | states |
|---|---|---|
| Tool.GenBoundingBox3D | scence/scripts/tool.ts:8-38 | the box is axis-aligned around the placed pivot. left/right and bottom/top are symmetric about the pivot, and their spans are twice the half sizes. The half sizes are the parent-scaled width and height over 2 |
| Tool.GenBoundingBox3DWithRotation | scence/scripts/tool.ts:44-93 | the pivot and the left/right/top/bottom extents are those of the unrotated box. Each corner is the unrotated corner rotated about the pivot. A zero angle gives the unrotated box |
| Tool.ExtentsIgnoreRotation | scence/scripts/tool.ts:88-91 | the extents of the rotated box do not depend on the angle |
| Tool.RotatedCornersKeepDistance | scence/scripts/tool.ts:77-80 | rotation keeps each corner's squared distance from the pivot |
| Tool.UnitParentIsRoot | scence/scripts/tool.ts:9-23 | a parent at the origin with scale 1 places the object as if it had no parent |
| Tool.ExtentsOrdered | scence/scripts/tool.ts:25-37 | with non-negative half sizes, left ≤ pivot.x ≤ right and bottom ≤ pivot.y ≤ top |
| Tool.Place | scence/scripts/tool.ts:9-23 | no contract of its own: the parent-scaled position and half sizes. Tool.UnitParentIsRoot and Tool.GenBoundingBox3D state what it yields |
| Geometry.RotateAbout | scence/scripts/tool.ts:100-106 | rotation fixes the pivot, and the zero angle is the identity |
| Geometry.RotationPreservesDistance | scence/scripts/tool.ts:100-106 | for a unit (cos, sin) pair, rotation keeps the squared distance to the pivot |
| Geometry.OrientUnderRotation | scence/scripts/left_right.ts:121-134 | the cross-product side value is unchanged when all three points are rotated about one pivot |
| Geometry.Orient | scence/scripts/tool.ts:216-236 | the side value of a point on the line through A and B, at A or at B, is zero |
| Geometry.LineSideIsNegatedOrient | scence/scripts/tool.ts:175-184 | the line-equation side value is the negated cross-product side value for every input |
| Geometry.OrientSwap | scence/scripts/tool.ts:216-235 | swapping B and C negates calcWhichSide2(A, B, C) |
| Geometry.OrientCyclic | scence/scripts/tool.ts:188-210 | calcWhichSide2(P, X, Y) equals the side value of P against the edge X→Y measured from X, so the corner test is a half-plane test |
| Geometry.LineSide | scence/scripts/tool.ts:175-184 | no contract of its own: the general-form line value of calcWhichSide (also calcWhichSideOld, left_right.ts:142-151). Its meaning is given by Geometry.LineSideIsNegatedOrient |
| Tool.InsideTestsAgree | scence/scripts/tool.ts:142-146 | "all four line-equation values ≥ 0" holds exactly when "all four cross-product values ≤ 0" |
| Tool.InsideByLine | scence/scripts/tool.ts:142-146 | no contract of its own: the four calcWhichSide values of a corner against item's edges are all ≥ 0. Tool.InsideTestsAgree and Tool.CornerTestIsClosedBox give its meaning |
| Tool.InsideByCross | scence/scripts/tool.ts:188-192 | no contract of its own: the four calcWhichSide2 values, each measured from the corner, are all ≤ 0. Tool.InsideByCrossIsQuad and Tool.CornerTestIsClosedBox give its meaning |
| Tool.InsideByCrossIsQuad | scence/scripts/tool.ts:188-192 | the corner test measured from the corner is the clockwise half-plane test of the edges LT→RT→RB→LB |
| Tool.CheckHit3DWithRotation | scence/scripts/tool.ts:141-167 | no contract of its own: some corner of role passes the line-equation test. Tool.RotationChecksAgree relates it to the cross-product version |
| Tool.CheckHit3DWithRotation2 | scence/scripts/tool.ts:187-213 | no contract of its own: some corner of role passes the cross-product test, whose meaning is Tool.CornerTestIsClosedBox |
| Tool.RotationChecksAgree | scence/scripts/tool.ts:141-213 | checkHit3DWithRotation and checkHit3DWithRotation2 give the same verdict on every pair of boxes |
| Tool.CornerTestIsClosedBox | scence/scripts/tool.ts:188-192 | for a non-degenerate aligned box, the four-edge corner test holds exactly when the point lies in the closed box |
| Tool.CornerTestFollowsRotation | scence/scripts/tool.ts:188-192 | rotating the probe point together with the box leaves the corner test unchanged |
| Tool.AngleRoundTrip | scence/scripts/tool.ts:239-254 | degrees→radians→degrees and radians→degrees→radians are both the identity |
| Tool.ToRadians | scence/scripts/tool.ts:239-245 | no contract of its own: degrees · π/180. Tool.AngleRoundTrip makes it the inverse of Tool.ToDegrees |
| Tool.ToDegrees | scence/scripts/tool.ts:248-254 | no contract of its own: 180 · radians/π. Tool.AngleRoundTrip makes it the inverse of Tool.ToRadians |
| Aabb.CheckHit3DSymmetric | scence/scripts/aabb.ts:57-86 | swapping collider and role does not change the verdict |
| Aabb.CheckHit3D | scence/scripts/aabb.ts:57-86 | no contract of its own: xIn and yIn. Aabb.HitMeansOverlap, Aabb.CheckHit3DSymmetric and Aabb.SameXIntervalIsMiss give its meaning |
| Aabb.XIn | scence/scripts/aabb.ts:67-74 | no contract of its own: some endpoint of one x-interval lies strictly inside the other. Aabb.XInMeaning gives its meaning |
| Aabb.YIn | scence/scripts/aabb.ts:76-83 | no contract of its own: some endpoint of one y-interval lies strictly inside the other. Aabb.YInMeaning gives its meaning |
| Aabb.XInMeaning | scence/scripts/aabb.ts:57-86 | for ordered intervals, xIn holds exactly when the open x-intervals overlap and the two intervals are not identical |
| Aabb.YInMeaning | scence/scripts/aabb.ts:57-86 | for ordered intervals, yIn holds exactly when the open y-intervals overlap and the two intervals are not identical |
| Aabb.HitMeansOverlap | scence/scripts/tool.ts:109-138 | a hit implies the boxes overlap with positive area on both axes |
| Aabb.TouchingIsMiss | scence/scripts/aabb.ts:57-86 | boxes that only share an edge do not hit |
| Aabb.SameXIntervalIsMiss | scence/scripts/aabb.ts:57-86 | boxes with the same x-interval never hit, so no box hits itself |
| Aabb.OverlapHitCorrects | scence/scripts/aabb.ts:57-86 | the overlap test is symmetric and accepts every hit of the original. It agrees with the original whenever neither interval pair is identical, accepts a box against itself, and rejects touching boxes |
| LeftRight.BoxVertices | scence/scripts/left_right.ts:40-82 | its ensures only lists the body's [LB, LT, RT, RB]. LeftRight.BoxVerticesClockwise and LeftRight.SelfHit give the list its meaning: it runs clockwise, and the box hits itself |
| LeftRight.AlignedBoxClockwise | scence/scripts/left_right.ts:76 | the vertices of a non-degenerate aligned box turn clockwise at every corner |
| LeftRight.ClockwiseUnderRotation | scence/scripts/left_right.ts:85-98 | rotating four clockwise points about any pivot leaves them clockwise |
| LeftRight.BoxVerticesClockwise | scence/scripts/left_right.ts:40-82 | the rotated box of a plane with positive half sizes lists its vertices clockwise |
| LeftRight.CheckHit3D | scence/scripts/left_right.ts:101-118 | a hit holds exactly when some role vertex lies on the inner side of all four collider edges |
| LeftRight.VertexInside | scence/scripts/left_right.ts:107-111 | no contract of its own: the point is right of or on all four edges of the first four collider vertices. LeftRight.EdgeTestsAreClosedBox gives its meaning on a box |
| LeftRight.VertexVerdicts | scence/scripts/left_right.ts:106-115 | one verdict per role vertex, each being that vertex's four-edge test |
| LeftRight.OnlyFirstFourColliderVertices | scence/scripts/left_right.ts:101-118 | collider vertices after the fourth never affect the verdict |
| LeftRight.EdgeTestsAreClosedBox | scence/scripts/left_right.ts:101-134 | for a non-degenerate aligned box, the four-edge test holds exactly when the point lies in the closed box |
| LeftRight.CornerInsideOwnBox | scence/scripts/left_right.ts:101-134 | each of a box's four corners passes the four-edge test of its own vertex list |
| LeftRight.SelfHit | scence/scripts/left_right.ts:40-118 | every rotated box with non-negative half sizes hits itself |
| PointInRect.Containment | scence/scripts/point_in_rect.ts:22-36 | one verdict per point, each being that point's point-in-rectangle test |
| PointInRect.PointInRect | scence/scripts/point_in_rect.ts:42-53 | no contract of its own: the dot-product test against vertices 0, 1 and 3. PointInRect.BoxTestIsClosedBox gives its meaning on a box |
| PointInRect.CheckHit3D | scence/scripts/point_in_rect.ts:22-36 | a hit holds exactly when some vertex of one rectangle lies in the other |
| PointInRect.CheckHit3DSymmetric | scence/scripts/point_in_rect.ts:22-36 | swapping the two rectangles does not change the verdict |
| PointInRect.SelfHit | scence/scripts/point_in_rect.ts:22-53 | every rectangle hits itself |
| PointInRect.TranslationInvariant | scence/scripts/point_in_rect.ts:22-53 | translating both rectangles by one vector does not change the verdict |
| PointInRect.RotationInvariant | scence/scripts/point_in_rect.ts:22-53 | rotating both rectangles about one pivot does not change the verdict |
| PointInRect.BoxTestIsClosedBox | scence/scripts/point_in_rect.ts:42-53 | for a non-degenerate aligned box, the point test holds exactly when the point lies in the closed box |
| PointInRect.CrossedBoxesMissed | scence/scripts/point_in_rect.ts:22-36 | two crossed rectangles share the origin, yet no vertex of either lies in the other, so the test reports a miss |
| Regions.QuadTestIsClosedBox | scence/scripts/left_right.ts:101-134 | for an aligned box, the clockwise half-plane test holds exactly when the point lies in the closed box |
| Regions.InQuad | scence/scripts/left_right.ts:107-111 | no contract of its own: right of or on each of four edges. Regions.QuadTestIsClosedBox gives its meaning |
| Regions.DotInRect | scence/scripts/index.ts:31-46 | no contract of its own: 0 ≤ AP·AB ≤ AB·AB and 0 ≤ AP·AD ≤ AD·AD. Regions.DotTestIsClosedBox gives its meaning |
| Regions.DotTestIsClosedBox | scence/scripts/index.ts:31-46 | for an aligned box, the dot-product test holds exactly when the point lies in the closed box |
| Regions.DotNeighboursInside | scence/scripts/index.ts:31-46 | when AB ⟂ AD, both B and D pass the dot-product test |
| Regions.DotTranslationInvariant | scence/scripts/index.ts:31-46 | translating the point and the rectangle together does not change the dot-product test |
| Regions.DotRotationInvariant | scence/scripts/index.ts:31-46 | rotating the point and the rectangle together does not change the dot-product test |
| Index.RectTestsAgree | scence/scripts/index.ts:31-56 | on a non-degenerate aligned box, the dot-product and bounds tests agree, and both accept all four corners |
| Index.PointInRectByDot | scence/scripts/index.ts:31-46 | no contract of its own: the dot-product test against LT, RT and LB. Index.RectTestsAgree and Index.DotTestFollowsRotation give its meaning |
| Index.PointInRect | scence/scripts/index.ts:49-56 | no contract of its own: closed bounds on x and y. Index.RectTestsAgree relates it to the dot-product test |
| Index.DotTestFollowsRotation | scence/scripts/index.ts:31-46 | rotating the rectangle's corners and the point together leaves the dot-product test unchanged |
| Index.LineCircleSymmetric | scence/scripts/index.ts:62-71 | swapping the two line points does not change the verdict |
| Index.IntersectLineCircle | scence/scripts/index.ts:62-71 | no contract of its own: r²\|AB\|² − (A × B)² ≥ 0. Index.LineCircleMeaning gives its meaning |
| Index.LineCircleIgnoresPivot | scence/scripts/index.ts:62-71 | the verdict depends only on the half width, never on the circle's pivot |
| Index.DegenerateLineHits | scence/scripts/index.ts:62-71 | a "line" through one repeated point always hits |
| Index.TangentLineHits | scence/scripts/index.ts:62-71 | a tangent line counts as a hit |
| Index.LineCircleComplete | scence/scripts/index.ts:62-71 | if some point of the line lies in the radius-r disc about the origin, the test hits |
| Index.Foot | scence/scripts/index.ts:90-100 | the foot point lies on the line AB, and its position vector is perpendicular to AB |
| Index.FootDistance | scence/scripts/index.ts:90-100 | the squared distance from the origin to the foot, times \|AB\|², is (A × B)², the square of the numerator of the distance formula |
| Index.PointToLineDistance | scence/scripts/index.ts:90-95 | for any point C, the foot of the perpendicular from C lies on AB, and its squared distance from C times \|AB\|² is (AC × AB)², the square of distancePointToLine's numerator |
| Index.LineCircleSound | scence/scripts/index.ts:62-71 | when the test hits on two distinct points, the foot of the perpendicular from the origin lies in the disc |
| Index.LineCircleMeaning | scence/scripts/index.ts:62-71 | for distinct points, the test holds exactly when the line meets the closed disc of radius \|r\| about the origin |
| Index.LineCircleAtMeaning | scence/scripts/index.ts:62-71 | the pivot-relative test holds exactly when the line meets the closed disc about the circle's pivot |
| Index.VectorTestMatchesLineTestAt | scence/scripts/index.ts:77-88 | for distinct points, the projection test agrees with the pivot-relative line test |
| Index.IntersectVectorCircle | scence/scripts/index.ts:77-88 | no contract of its own: \|AC\|² minus the squared projection of AC on AB is at most r². Index.VectorTestMatchesLineTestAt gives its meaning |
| Index.IntersectLineCircleAt | scence/scripts/index.ts:62-71 | no contract of its own: the cross-product test with both points taken relative to the pivot (the corrected test). Index.LineCircleAtMeaning gives its meaning |
| Index.PivotIgnoredCounterexample | scence/scripts/index.ts:62-71 | the line x = 1 stays at least distance 9 from a unit circle at (10, 0), yet the test hits |
| Index.PivotRespectedByCorrection | scence/scripts/index.ts:62-71 | the pivot-relative test rejects that same line |
| Circle.Inside | scence/scripts/circle.ts:52-59 | one verdict per vertex, each being that vertex's in-circle test |
| Circle.Outside | scence/scripts/circle.ts:42-49 | one verdict per vertex, each being that vertex's not-in-circle test |
| Circle.CheckRectOutCircle | scence/scripts/circle.ts:42-49 | the result holds exactly when some rectangle vertex lies outside the circle |
| Circle.CheckRectInCircle | scence/scripts/circle.ts:52-59 | the result holds exactly when some rectangle vertex lies inside the circle |
| Circle.NotOutMeansIn | scence/scripts/circle.ts:42-59 | "not out" holds exactly when every vertex is inside, and it implies "in" |
| Circle.PivotInside | scence/scripts/circle.ts:62-71 | a circle's pivot is inside it |
| Circle.PointInCircle | scence/scripts/circle.ts:62-71 | no contract of its own: squared distance to the pivot at most (sizeX / 2)². Circle.DiscConvex and Circle.PivotInside state its properties |
| Circle.CircleInCircle | scence/scripts/circle.ts:74-82 | no contract of its own: the pivots are at most \|r1 − r2\| apart. Circle.ContainedPointsInside gives its meaning |
| Circle.IntersectCircle | scence/scripts/circle.ts:85-93 | no contract of its own: the pivots are at most r1 + r2 apart. Circle.IntersectMeansCommonPoint gives its meaning |
| Circle.PairTestsSymmetric | scence/scripts/circle.ts:74-93 | circleInCircle and intersectCircle are both symmetric in their two circles |
| Circle.ConcentricContained | scence/scripts/circle.ts:74-82 | concentric circles always pass circleInCircle |
| Circle.ContainedPointsInside | scence/scripts/circle.ts:62-82 | if the larger circle passes circleInCircle, every point of the smaller circle lies in the larger one |
| Circle.ContainedImpliesIntersect | scence/scripts/circle.ts:74-93 | containment implies intersection |
| Circle.CommonPoint | scence/scripts/circle.ts:85-93 | intersecting circles share a point, which the lemma constructs |
| Circle.SharedPointIntersects | scence/scripts/circle.ts:85-93 | circles that share a point intersect |
| Circle.IntersectMeansCommonPoint | scence/scripts/circle.ts:85-93 | intersectCircle holds exactly when some point lies in both circles |
| Circle.DiscConvex | scence/scripts/circle.ts:62-71 | the point test accepts every point on the segment between two accepted points |
| MultiLines.Split | scence/scripts/multi_lines.ts:10-11 | the two halves concatenate back to the vertex list, and the first half has floor(n/2) points |
| MultiLines.RightVerdicts | scence/scripts/multi_lines.ts:17-29 | its ensures only spells out the body pointwise. MultiLines.IsOutsideIn gives the folded verdicts their meaning |
| MultiLines.LeftVerdicts | scence/scripts/multi_lines.ts:32-44 | its ensures only spells out the body pointwise. MultiLines.IsInsideIn gives the folded verdicts their meaning |
| MultiLines.IsOutsideIn | scence/scripts/multi_lines.ts:17-29 | the outside check holds exactly when every segment has all four box corners right of it or on it |
| MultiLines.IsInsideIn | scence/scripts/multi_lines.ts:32-44 | the inside check holds exactly when some segment has all four box corners strictly left of it |
| MultiLines.CheckHitBySide | scence/scripts/multi_lines.ts:16-47 | a hit holds exactly when the outside check holds and the inside check holds |
| MultiLines.AllCornersRight | scence/scripts/multi_lines.ts:23-27 | no contract of its own: all four box corners have calcWhichSide2 ≤ 0 against AB. MultiLines.SidesExclusive and MultiLines.LeftIsReversedRight relate it to the left test |
| MultiLines.AllCornersLeft | scence/scripts/multi_lines.ts:38-42 | no contract of its own: all four box corners have calcWhichSide2 > 0 against AB |
| MultiLines.OutsideAppend | scence/scripts/multi_lines.ts:17-29 | extending the outside polyline adds one conjunct: the check can only become false, and it stays true exactly when the new segment passes |
| MultiLines.InsideAppend | scence/scripts/multi_lines.ts:32-44 | extending the inside polyline adds one disjunct: the check can only become true, and it is true exactly when the old check was or the new segment passes |
| MultiLines.LeftIsReversedRight | scence/scripts/multi_lines.ts:16-47 | a box strictly left of AB is right of BA |
| MultiLines.SidesExclusive | scence/scripts/multi_lines.ts:16-47 | no segment has the box both strictly left of it and right of it |
| MultiLines.TranslationInvariant | scence/scripts/multi_lines.ts:16-47 | translating the segment and the corner together does not change the side value |
| Sat.LeftNormal | scence/scripts/sat.ts:99-106 | the left normal is perpendicular to the edge, as long as the edge, and turns counter-clockwise from it |
| Sat.RightNormal | scence/scripts/sat.ts:99-106 | the right normal is the negated left normal, perpendicular to the edge, turning clockwise |
| Sat.Next | scence/scripts/sat.ts:56-63 | its ensures only spells out the body's wrap-around. Sat.GetEdgeNormals gives its meaning: one normal per edge, including the closing edge |
| Sat.GetEdgeNormals | scence/scripts/sat.ts:56-63 | one normal per vertex. Normal i is perpendicular to edge i, as long as it, and on its left |
| Sat.Projections | scence/scripts/sat.ts:66-73 | its ensures only spells out the body pointwise. Sat.GetMaxMin and Sat.SeparatedMeaning give the projections their meaning |
| Sat.GetMaxMin | scence/scripts/sat.ts:76-89 | the interval bounds every projection, and both bounds are attained |
| Sat.DisjointMeaning | scence/scripts/sat.ts:66-89 | two intervals are disjoint exactly when every value of one lies below every value of the other |
| Sat.Disjoint | scence/scripts/sat.ts:71-72 | no contract of its own: A.max < B.min or B.max < A.min. Sat.DisjointMeaning gives its meaning |
| Sat.SeparatedMeaning | scence/scripts/sat.ts:27-28 | an axis separates exactly when all projections of one polygon lie strictly below all projections of the other |
| Sat.CheckIsSeparated | scence/scripts/sat.ts:66-73 | no contract of its own: the two projection intervals are disjoint. Sat.SeparatedMeaning gives its meaning |
| Sat.SeparatedSymmetric | scence/scripts/sat.ts:66-73 | the per-axis verdict is symmetric in the two polygons |
| Sat.SharedVertexNotSeparated | scence/scripts/sat.ts:66-73 | no axis separates polygons that share a vertex |
| Sat.ZeroAxisNeverSeparates | scence/scripts/sat.ts:66-73 | the zero axis never separates |
| Sat.OppositeAxisSameVerdict | scence/scripts/sat.ts:99-106 | an axis and its negation give the same verdict, so left and right normals are interchangeable |
| Sat.DivideAll | scence/scripts/sat.ts:92-96 | each quotient times the divisor gives back the original value |
| Sat.ProjectLengths | scence/scripts/sat.ts:92-96 | each projected length times the axis length is the dot with the axis |
| Sat.LengthDivisionIrrelevant | scence/scripts/sat.ts:66-96 | dividing every projection by a positive axis length does not change the verdict |
| Sat.AxisVerdicts | scence/scripts/sat.ts:34-53 | its ensures only spells out the body pointwise. Sat.NormalVerdictsMeaning and Sat.CheckSAT give the folded verdicts their meaning |
| Sat.NormalVerdictsMeaning | scence/scripts/sat.ts:34-53 | the fold over the edge normals holds exactly when some edge normal separates |
| Sat.CheckSAT | scence/scripts/sat.ts:34-53 | the result holds exactly when some edge normal of either polygon separates them |
| Sat.CheckSATSymmetric | scence/scripts/sat.ts:34-53 | swapping the polygons does not change the verdict |
| Sat.SharedVertexNeverSeparated | scence/scripts/sat.ts:34-53 | polygons with a common vertex are never reported separated |
| Sat.SelfNeverSeparated | scence/scripts/sat.ts:34-53 | a polygon is never separated from itself |
| Gjk.SupportIndex | scence/scripts/gjk.ts:105-120 | the index picks a vertex of maximal dot with the direction, and it is the first such vertex |
| Gjk.GetSupportPoint | scence/scripts/gjk.ts:105-120 | the support point is a vertex, and no vertex has a larger dot with the direction |
| Gjk.MinkowskiSupport | scence/scripts/gjk.ts:94-101 | the point is a difference a_i − b_j and is maximal along d over all such differences. If its dot with d is negative, d separates the shapes |
| Gjk.AddSupportPoint | scence/scripts/gjk.ts:94-101 | the simplex grows by one support point and keeps its prefix. The flag is "dot ≥ 0", and a false flag means d separates |
| Gjk.SegmentDirection | scence/scripts/gjk.ts:54-62 | the direction is perpendicular to CB and points toward the origin (its dot with C→O is a square) |
| Gjk.AbPerp | scence/scripts/gjk.ts:64-75 | the vector is perpendicular to AB and points away from C. Its dot with A→O is negative exactly when C and O lie on the same side of AB |
| Gjk.AcPerp | scence/scripts/gjk.ts:64-75 | the vector is perpendicular to AC and points away from B. Its dot with A→O is negative exactly when B and O lie on the same side of AC |
| Gjk.EnclosesMeaning | scence/scripts/gjk.ts:64-88 | for a non-flat triangle, "enclosed" means the origin is on C's side of line AB and on B's side of line AC (or on them) |
| Gjk.Encloses | scence/scripts/gjk.ts:64-86 | no contract of its own: both abPerp·A0 and acPerp·A0 are ≤ 0. Gjk.EnclosesMeaning gives its meaning |
| Gjk.FlatTriangleEncloses | scence/scripts/gjk.ts:64-88 | a flat triangle is always reported as enclosing |
| Gjk.Push | scence/scripts/gjk.ts:91-101 | the result is a miss exactly when the support point's dot with d is negative. A miss means d separates the shapes. Otherwise the simplex grows by that support point, a point of A − B, keeps its prefix and stays inside A − B |
| Gjk.InMinkowski | scence/scripts/gjk.ts:94-101 | no contract of its own: every simplex point is a difference of a vertex of A and a vertex of B. Gjk.Push and Gjk.Evolve preserve it |
| Gjk.GrowDirection | scence/scripts/gjk.ts:46-62 | no contract of its own: pivotB − pivotA, its negation, or (CB × C0) × CB for 0, 1 or 2 points. Gjk.Evolve states which size uses which |
| Gjk.ReduceTriangle | scence/scripts/gjk.ts:64-88 | the triangle is enclosed exactly when the origin is on the inner side of AB and of AC. abPerp is tried first: whenever abPerp·A0 > 0 the search goes on perpendicular to AB, and only otherwise perpendicular to AC. Either way [C, B] is kept, and the new direction points toward the origin from A |
| Gjk.Evolve | scence/scripts/gjk.ts:43-91 | a hit happens exactly at three points with the origin enclosed. With 0, 1 or 2 points the search direction is pivotB − pivotA, its negation, or the segment normal, which is perpendicular to CB, and a miss happens exactly when the support point is short of the origin. With three points [C, B] is kept and the direction points from A toward the origin. It is perpendicular to AB whenever abPerp·A0 > 0, and a miss happens exactly when the triangle does not enclose and the support point along the new direction is short of the origin. The simplex stays inside A − B, and a miss returns a separating axis |
| Gjk.Run | scence/scripts/gjk.ts:41-102 | a "separate" verdict comes with a separating axis. Starting from points of A − B, a "colliding" verdict comes with three points of A − B that pass the enclosure test of gjk.ts:84-86: the origin lies in the closed angle at the newest point, or the triangle is flat. This is not shown to mean contact (see "## Left out") |
| Gjk.EnclosingSimplex | scence/scripts/gjk.ts:64-86 | no contract of its own: three points of A − B that pass the enclosure test, the condition under which the loop returns true |
| Gjk.CheckGJK | scence/scripts/gjk.ts:41-102 | a "separate" verdict comes with a separating axis, and the shapes then have no vertex in common. A "colliding" verdict comes with three points of A − B that pass the enclosure test of gjk.ts:84-86: the origin lies in the closed angle at the newest point, or the triangle is flat. This is not shown to mean contact (see "## Left out") |
| Gjk.DropsNewestPoint | scence/scripts/gjk.ts:76-83 | for a right-angled triangle with the origin beyond AB, the point A is dropped. The next direction (−1, 0) is not perpendicular to the kept segment CB |
| Gjk.KeepsOldSegment | scence/scripts/gjk.ts:76-83 | the triangle (3,0), (2,1), (2,0) keeps [(3,0), (2,1)] |
| GjkReference.FirstIndex | scence/scripts/gjk_temp.cs:68 | the first position holding the element |
| GjkReference.RemoveFirst | scence/scripts/gjk_temp.cs:68-74 | List.Remove drops exactly the first occurrence, or leaves the list alone when there is none |
| GjkReference.RemoveFromTriangle | scence/scripts/gjk_temp.cs:65-76 | removing C from [C, B, A] leaves [B, A], and removing B leaves [C, A] |
| GjkReference.ReduceTriangle | scence/scripts/gjk_temp.cs:51-84 | enclosed exactly as in the script. When abPerp·A0 > 0, C is removed, [B, A] is kept and the direction is perpendicular to AB. Otherwise B is removed, [C, A] is kept and the direction is perpendicular to AC. The direction points toward the origin from A |
| GjkReference.AddSupport | scence/scripts/gjk_temp.cs:7-13 | the simplex grows by one support point. The result is "still evolving" exactly when that point's dot with d is ≥ 0, and "no intersection" means d separates |
| GjkReference.EvolveSimplex | scence/scripts/gjk_temp.cs:15-94 | "found" happens exactly at three enclosing points and leaves the state alone. "No intersection" comes with a separating direction. At three points the newest stays, and the direction is perpendicular to the kept segment. Above three points it only appends |
| GjkReference.RunReference | scence/scripts/gjk_temp.cs:15-94 | a "separate" verdict comes with a separating axis |
| GjkReference.AgreesBelowThree | scence/scripts/gjk_temp.cs:15-49 | below three points, the script's step and the reference step reach the same state and the same verdict |
| GjkReference.SameHitCondition | scence/scripts/gjk_temp.cs:51-84 | at three points, both report a hit under the same condition |
| GjkReference.SizeStaysAtMostThree | scence/scripts/gjk_temp.cs:15-94 | from at most three points a step leaves at most three |
| Folds.AnyOf | scence/scripts/multi_lines.ts:32-44 | the null-seeded or-fold holds exactly when some element holds |
| Folds.AllOf | scence/scripts/multi_lines.ts:17-29 | the null-seeded and-fold holds exactly when every element holds |
| Folds.AnyOfAppend | scence/scripts/sat.ts:34-53 | appending an element to an or-fold adds one disjunct |
| Folds.AllOfAppend | scence/scripts/multi_lines.ts:17-29 | appending an element to an and-fold adds one conjunct |

## Left out

- Reactive signals, subscriptions, `Time.setInterval`, `Diagnostics` logging and the scene's `run*` entry points: the model computes the values these signals would hold at one instant.
- `find_api.ts` looks objects up in the scene by name; it has no collision logic.
- `index.d.ts` holds type declarations only, and they become the records of `Shapes`.
- `index.ts` `distancePointToLine` needs a square root. The model states the squared distance times |AB|² instead (`Index.PointToLineDistance`, for any point C; `Index.Foot` and `Index.FootDistance` are the case C = origin).
- Floating point: rounding, NaN and ±Infinity are not modelled.
  - The `-Infinity` seed of the support-point search means the first vertex always wins the first comparison (`Gjk.SupportIndex`).
  - The 0/0 of a zero SAT axis compares false, which is modelled as "not separated" (`Sat.ZeroAxisNeverSeparates`).
  - The 0/0 of `intersectVectorCircle` on a repeated point is modelled as a miss.
- Sine and cosine are not computed. A rotation is the pair (c, s), and `Unit(c, s)` is assumed where invariance is stated. π is a positive parameter.
- The z coordinate is 0 throughout, as the source's own comments require. 3D cross products reduce to their z component.
- `genBoundingBox3DWithRotation` does not set `halfSizeX`/`halfSizeY`. The model fills them with the unrotated values.
- Sat.LengthDivisionIrrelevant: `getProjectLength` divides by the axis length, a square root. The model proves that dividing by any positive length leaves the verdict unchanged, and then tests on the plain dot products.
- Index.IntersectVectorCircle: the projected length (x/√n)² is written x²/n, which needs no square root.
- Gjk.Run: the loop runs on a fuel bound and can answer `OutOfFuel`. Termination of the unbounded `while (true)` is not proved, and an out-of-fuel answer claims nothing.
- GjkReference.EvolveSimplex: `gjk_temp.cs` calls `Add` twice on one support point (lines 9-10). The model appends it once, the only reading under which its `Count` cases are reached. Its `Support` and `TripleProduct` are not part of this model; they are taken to be `getSupportPoint` of a Minkowski difference and (a × b) × c as in `gjk.ts`.
- Gjk.CheckGJK: a Colliding verdict is not shown to mean contact. It only carries three points of A − B that pass the enclosure test, and every flat triangle passes that test (`Gjk.FlatTriangleEncloses`). For example, take A with vertices [(1, 0), (2, 0)] and pivot (0, 0), and B with the single vertex (0, 0) and pivot (0, 1). The segment direction at two points is zero, so the simplex fills with (1, 0) three times and the loop reports a collision, although the axis (1, 0) separates the shapes. Gjk.Run has the same limit.
- Short vertex lists: the members below require a minimum number of vertices. On shorter lists the source folds from a `null` seed and either returns `null` or throws a TypeError on `.or`, `.and` or `.sub`, and neither outcome is modelled.
  - `Circle.CheckRectOutCircle` and `Circle.CheckRectInCircle` require at least one rectangle vertex. With none, circle.ts:42-59 returns `null`.
  - `LeftRight.VertexInside`, `LeftRight.VertexVerdicts` and `LeftRight.CheckHit3D` require at least four collider vertices, and `LeftRight.CheckHit3D` also at least one role vertex. left_right.ts:101-117 returns `null` for an empty role, and reads undefined corners from a shorter collider.
  - `PointInRect.PointInRect`, `PointInRect.Containment` and `PointInRect.CheckHit3D` require four vertices per rectangle. With fewer, point_in_rect.ts:22-53 reads undefined vertices, or calls `.or` on `null`.
  - `Sat.GetMaxMin`, `Sat.CheckIsSeparated` and `Sat.CheckSAT` require non-empty vertex lists. With an empty list, sat.ts:52 calls `.or` on `null`.
  - `MultiLines.IsOutsideIn`, `MultiLines.IsInsideIn` and `MultiLines.CheckHitBySide` require at least two points per polyline, so that at least one segment exists. Otherwise multi_lines.ts:46 calls `.and` on `null`.
  - `Gjk.SupportIndex`, `Gjk.GetSupportPoint`, `Gjk.MinkowskiSupport`, `Gjk.AddSupportPoint`, `Gjk.Push`, `Gjk.Evolve`, `Gjk.Run`, `Gjk.CheckGJK` and the `GjkReference` steps require non-empty vertex lists. With an empty shape, getSupportPoint (gjk.ts:107-119) returns `null`, and `.sub` throws on it at gjk.ts:97.
  - `Folds.AnyOf` and `Folds.AllOf` require a non-empty list, because the null-seeded fold has no value on an empty one.
- Where code and design disagree, the code is followed:
  - The AABB test uses strict comparisons, so touching boxes miss.
  - `checkRectInCircle` reports a hit when any vertex is inside, not all.
  - `intersectLineCircle` ignores the pivot (see Findings).

## Findings

| source | as written | input that shows it | evidently intended | confidence | as-written member | corrected member |
|---|---|---|---|---|---|---|
| scence/scripts/aabb.ts:57-86 | each axis asks whether some endpoint of one interval lies strictly inside the other, so two boxes with the same x-interval (or y-interval) never hit | a box against itself, or two equal-width boxes stacked on top of each other and overlapping | open intervals that overlap on both axes count as a hit | high, not executed | Aabb.SameXIntervalIsMiss | Aabb.OverlapHitCorrects |
| scence/scripts/index.ts:62-71 | the line/circle test uses the raw line points and never subtracts the circle's pivot, so it tests against a circle at the origin | unit circle at (10, 0) and the line through (1, −1) and (1, 1): reported as a hit although the line stays 9 away | measure the line relative to the circle's centre | high, not executed | Index.PivotIgnoredCounterexample | Index.PivotRespectedByCorrection |
| scence/scripts/gjk.ts:76-83 | when the origin lies beyond an edge at A, `splice(2, 1)` always removes the newest point A and keeps [C, B], so the next search direction is perpendicular to an edge that is no longer in the simplex | triangle [C, B, A] = [(3, 0), (2, 1), (2, 0)]: keeps [(3,0), (2,1)] with direction (−1, 0), whose dot with B − C is 1 | remove the point opposite the edge that faces the origin, as `gjk_temp.cs` lines 65-76 do, keeping A | medium, not executed | Gjk.DropsNewestPoint | GjkReference.ReduceTriangle |
