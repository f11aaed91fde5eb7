# GJK overlap and distance queries in Dafny

This project models the GJK (Gilbert–Johnson–Keerthi) core of a small C++
collision library and proves properties of the model. The library has two
queries on a pair of convex polygons, each given as a non-empty list of 3D
vertices:

- `gjk` (gjk.cc) runs at most 16 iterations. It reports overlap, or builds
  a `GJK_Result`: the closest points of the two shapes and the vertices of
  each shape that span the closest feature.
- `gjk_collision_test` (gjk_collision_test.cc) answers overlap only.

Both queries grow a simplex of Minkowski points `p1[i] - p2[j]`, found by a
support function along a search direction. The simplex reducers shrink or
reorder it in place, inside a 4-slot array, and return the next direction.

## Modelling choices

- **Numbers.**
  - `f32` is `real`; `F32_EPSILON` is `0.001`.
  - `Vector3` is a datatype of three reals, with the math.hh operators as
    functions.
  - `i32` is `int`; no value in the core comes near the 32-bit bounds.
- **Polygons and points.**
  - A `GJK_Polygon` is a `seq<Vector3>`. The support function requires it
    to be non-empty, which matches the source's `ASSERT`.
  - A `GJK_Point` is the datatype `SupportPoint`.
- **Reducers.** Each reducer appears twice:
  - a function (`Reduce2/3/4`, `CReduce2/3/4`) from the input simplex to a
    `Reduction`, which is either the reduced simplex with the next
    direction, or `ContainsOrigin`;
  - a method (`Simplex2/3/4`, `CSimplex2/3/4`) that rewrites the 4-slot
    array in place, as the source does. Its `ensures` ties the new
    `points[..n]` and direction to that function. The slots from `n` on are
    left unchanged.
- **Sources of the simplex.** Simplices list points oldest first, so the
  newest point `A` is last.
- **Distances.** `gjk_distance1` and `gjk_distance2` return `v3_norm` of
  the closest point, which needs a square root. `gjk_distance3` returns the
  signed value `AO·n / |n|` for the triangle normal `n = AB × AC`. The model
  returns the separation vector instead: the point of the simplex's line or
  plane nearest the origin. It also returns the two closest points, computed
  as in the source.
  - For one and two points, the source's distance is the length of the
    separation.
  - For a triangle, `ScaledDistance3` is the source's value times `|n|`.
    `Distance3Magnitude` proves that its square is `|separation|² |n|²`.
  - `Gjk.FinalDistance` proves that this value is not negative for every
    triangle gjk can end on, so the returned distance is the length of the
    separation there too.
  - `gjk_distance3` normalises the normal with `v3_normalize`. The model
    projects with the unnormalised normal instead, `(a·n / |n|²) n`, which
    is the same point.
- **Degenerate tests.** The area test of `gjk_check_degenerate_simplex3`
  takes a square root. It is restated as `|AB × AC|² < 4·eps²`, and
  `AreaTestAgrees` proves the two tests agree.
- **The gjk loop.** The loop is split into methods:
  - `Iterate`: one iteration;
  - `Extend`: insert a point and reduce the simplex;
  - `ReduceSimplex`: the size switch;
  - `FindMinkowski`: the duplicate search;
  - `Push`: append a point.
- **The collision-test loop.** Its `while(1)` becomes a `fuel` bound. An
  exhausted bound answers `OutOfFuel`. One iteration (`CIterate`) ends in a
  `Round`: `Continue`, or the function's answer.
- **What an overlap answer means.** `Overlap.HullsMeet(p1, p2)` says that
  the same convex weights on four vertices of each polygon give the same
  point. Equivalently, the origin lies in the convex hull of the Minkowski
  difference. Its partner is `SeparatedHullsDoNotMeet`: a separating
  direction rules it out.
  - gjk's overlap answer is proved to come from `HullsMeet`, or from a
    support point within epsilon of the origin (the source's tolerance).
    The proof carries the invariant that the search direction leaves the
    simplex towards the origin. From it, the tetrahedron that
    `gjk_simplex4` accepts is shown to contain the origin.
  - gjk_collision_test's true is proved to mean `HullsMeet`, and its false
    to mean a separating direction, so the hulls do not meet. The loop
    invariant (`Searching`) records the direction of each simplex size. It
    also records that a direction perpendicular to `AO` arises only once
    the hulls meet.

## Model

| member | source | states |
|---|---|---|
| VecMath.I32Min | math.hh:11-14 | the result is at most both arguments and is one of them |
| VecMath.I32Max | math.hh:16-19 | the result is at least both arguments and is one of them |
| VecMath.F32Abs | math.hh:29-32 | the result is non-negative and is `value` or `-value` |
| VecMath.F32CmpZeroInterval | math.hh:26-37 | `f32_cmp_zero(v)` holds exactly when `-eps < v < eps` |
| VecMath.CmpZeroNear | math.hh:158-161 | the zero vector passes `v3_cmp_zero`, and a vector that passes it has every coordinate within eps of zero |
| VecMath.DotCommutes | math.hh:171-175 | the dot product is symmetric |
| VecMath.DotSub | math.hh:171-175 | the dot product distributes over the difference `operator-` |
| VecMath.DotNeg | math.hh:171-175 | negating either argument (`operator-` on one vector) negates the dot product |
| VecMath.DotSelf | math.hh:146-175 | `v3_dot(v, v)` is `v3_norm2(v)` |
| VecMath.Norm2Positive | math.hh:146-150 | `v3_norm2` is non-negative and is zero exactly for the zero vector |
| VecMath.Norm2Scale | math.hh:146-150 | scaling a vector by `k` scales `v3_norm2` by `k²` |
| VecMath.CrossOrthogonal | math.hh:177-184 | `v3_cross(a, b)` is orthogonal to both `a` and `b` |
| VecMath.CrossAntiCommutes | math.hh:177-184 | swapping the arguments of `v3_cross` negates the result |
| VecMath.TripleCross | math.hh:186-198 | the Lagrange-formula computation `(c·a) b - (c·b) a` equals `(a × b) × c`, as the comment in the source claims |
| VecMath.EqualIffDifferenceZero | math.hh:141-144 | `operator==` is componentwise, and `a == b` exactly when `a - b` is the zero vector |
| VecMath.LagrangeIdentity | math.hh:146-184 | Lagrange's identity: `norm2(a × b) = norm2(a) norm2(b) - (a·b)²` |
| VecMath.DetCyclic | math.hh:171-184 | the triple product `(a × b)·c` is invariant under cyclic rotation |
| VecMath.DetSwaps | math.hh:171-184 | swapping two arguments of the triple product negates it |
| VecMath.Cramer | math.hh:171-184 | Cramer's rule: any `w` is a combination of `u`, `v` and `n` with triple-product coefficients |
| VecMath.CramerInPlane | math.hh:171-184 | a vector `w` orthogonal to `n = u × v` is `(((v × n)·w) u + ((n × u)·w) v) / norm2(n)` |
| Support.FirstArgMaxIsFirstMaximum | gjk.cc:466-487 | the index the argmax scan keeps is a maximum of `dot(·, dir)`, and every earlier index is strictly smaller: ties keep the first index |
| Support.Support | gjk.cc:462-496 | `polygon1` is a vertex of `p1`, `polygon2` a vertex of `p2`, and `minkowski == polygon1 - polygon2` |
| Support.SupportIsExtreme | gjk.cc:462-496 | no difference `p1[i] - p2[j]` lies further along `dir` than the support point |
| Support.PolygonSupport | gjk.cc:462-496 | the interleaved argmax loop over both polygons returns the first argmax of `dot(·, dir)` in `p1` and of `dot(·, -dir)` in `p2` |
| SimplexGeometry.EdgeDirection | math.hh:186-198 | `AB × AO × AB` is perpendicular to `AB` and does not point away from the origin |
| SimplexGeometry.TriangleEdgesNonDegenerate | gjk.cc:23-30 | a triangle of non-zero area has three distinct corners |
| SimplexGeometry.TriangleSwapNormal | gjk.cc:121-127 | swapping `B` and `C` reverses the triangle normal, which is why the swap pairs with `dir = -ABC` |
| SimplexGeometry.TetrahedronFacesNonDegenerate | gjk.cc:32-41 | every face at `A` of a tetrahedron of non-zero volume has non-zero area |
| Enclosure.TetrahedronDetOverBase | gjk.cc:32-41 | the volume term of the degenerate test is the height of `A` over the base `[D, C, B]` along the base normal |
| Enclosure.TetrahedronWeights | gjk.cc:131-248 | a tetrahedron whose base faces the origin, whose apex lies beyond the base, and which passes the three face tests of `gjk_simplex4` has the origin as a convex combination of its corners |
| Enclosure.EdgeDirectionValue | math.hh:186-198 | `(AB × AO × AB)·AO` is `norm2(AB × AO)`, so the edge direction is perpendicular to `AO` only when `A`, `B` and the origin are collinear |
| Enclosure.EdgeDirectionZero | math.hh:186-198 | an edge direction perpendicular to `AO` means `AB × AO` is zero |
| Enclosure.FlatEdgeWeights | gjk_collision_test.cc:7-21 | an edge `[B, A]` on a line through the origin, whose new point `A` passed the origin along `-B`, has the origin as a convex combination of `B` and `A` |
| Enclosure.FlatTriangleWeights | gjk_collision_test.cc:23-66 | a triangle reached from the edge `[C, B]` whose plane holds the origin, and whose edges at `A` do not face it, has the origin as a convex combination of its corners |
| Overlap.SeparatedHullsDoNotMeet | gjk_collision_test.cc:160-162 | a direction along which every vertex difference is negative rules out a shared point of the two hulls |
| Overlap.SupportBeyond | gjk.cc:462-496 | every support point of the polygons lies no further along `dir` than the one returned for `dir` |
| Overlap.MeetFromHull | gjk.cc:498-552 | support points of the polygons with the origin in the hull of their Minkowski points show that the hulls meet |
| GjkSimplex.CheckDegenerate2 | gjk.cc:16-21 | two equal points always fail the test |
| GjkSimplex.CheckDegenerate3 | gjk.cc:23-30 | a triangle of zero area always fails the test |
| GjkSimplex.CheckDegenerate4 | gjk.cc:32-41 | a tetrahedron of zero volume always fails the test |
| GjkSimplex.CheckDegenerate | gjk.cc:43-51 | a simplex of 2 to 4 points that passes the test has distinct points, a non-zero area or a non-zero volume |
| GjkSimplex.AreaTestAgrees | gjk.cc:23-30 | the area test `f32_cmp_zero(0.5 |AB × AC|)` holds exactly when `|AB × AC|² < 4 eps²` |
| GjkSimplex.Reduce2 | gjk.cc:53-70 | if `AB·AO > 0`, `[B, A]` is kept with `dir = AB × AO × AB`; otherwise only `[A]` is kept, with `dir = AO` |
| GjkSimplex.Reduce3 | gjk.cc:72-128 | the result is drawn from the input, keeps `A` last and does not grow; a kept triangle is `[C, B, A]` or `[B, C, A]`, with `dir` its normal |
| GjkSimplex.Reduce4 | gjk.cc:130-248 | containment is reported exactly when all three face dots are ≤ 0; otherwise 1 to 3 input points are kept with `A` last; a kept face has `dir` equal to its normal, whose dot with `AO` is positive |
| GjkSimplex.Reduce | gjk.cc:535-547 | the size switch of gjk: containment only for a tetrahedron with the origin behind its three faces; otherwise 1 to 3 of the input points with `A` last |
| GjkSimplex.Simplex2 | gjk.cc:53-70 | in-place `gjk_simplex2`: the new slots, count and direction are those of `Reduce2`; slots from the count on are unchanged |
| GjkSimplex.Simplex3 | gjk.cc:72-128 | in-place `gjk_simplex3`: the new slots, count and direction are those of `Reduce3` |
| GjkSimplex.Simplex4 | gjk.cc:130-248 | in-place `gjk_simplex4`: returns true exactly on containment and then changes nothing; otherwise slots, count and direction are those of `Reduce4` |
| GjkSimplex.Reduce2TowardOrigin | gjk.cc:53-70 | the next direction leaves the kept point or edge towards the origin |
| GjkSimplex.Reduce3TowardOrigin | gjk.cc:72-128 | the next direction is `AO`, or perpendicular to the kept edge on the origin's side, or the kept triangle's normal on the origin's side |
| GjkSimplex.Reduce4TowardOrigin | gjk.cc:163-243 | as for the triangle reducer, for every non-containment outcome |
| GjkSimplex.Reduce2NonDegenerate | gjk.cc:53-70 | reducing a non-degenerate edge gives a non-degenerate simplex |
| GjkSimplex.Reduce3NonDegenerate | gjk.cc:72-128 | reducing a non-degenerate triangle gives a non-degenerate simplex |
| GjkSimplex.Reduce4NonDegenerate | gjk.cc:130-248 | reducing a non-degenerate tetrahedron gives a non-degenerate simplex |
| GjkResult.OverlapResult | gjk.cc:350-355 | overlap is set and both feature lists are empty |
| GjkResult.Distance1 | gjk.cc:250-258 | the separation is `A` itself, the closest points are `A`'s sources, and their difference is the separation |
| GjkResult.Lerp | gjk.cc:267-271 | `A + k (B - A)` lies on the line `AB`, at `A` for `k = 0` and at `B` for `k = 1` |
| GjkResult.Distance2 | gjk.cc:260-273 | the separation lies on line `AB` and is orthogonal to it: it is the foot of the origin on that line; the closest points differ by the separation |
| GjkResult.EdgeFootOrthogonal | gjk.cc:263-267 | the point `A + k AB`, with `k = AO·AB / norm2(AB)`, is orthogonal to `AB` |
| GjkResult.InterpolationDifference | gjk.cc:267-271 | interpolating the sources with the same `k` interpolates the Minkowski points |
| GjkResult.PlaneFootInPlane | gjk.cc:300-308 | the projected point lies in the plane of the triangle |
| GjkResult.PlaneFootOrthogonal | gjk.cc:300-308 | the projected point is orthogonal to every direction within the plane |
| GjkResult.PlaneDenominator | gjk.cc:310-313 | the denominator `dbc² - ab2 ac2` of `kcommon` is `-norm2(AB × AC)`, non-zero exactly for a triangle of non-zero area |
| GjkResult.PlaneCoefficientsRecover | gjk.cc:310-316 | the coefficients `kab`, `kac` rebuild any in-plane vector from `AB` and `AC` |
| GjkResult.Distance3 | gjk.cc:275-348 | the separation is orthogonal to `AB` and `AC` and in the plane of `A, B, C`; the closest points `A + kab AB + kac AC` on each shape differ by the separation |
| GjkResult.Distance3Magnitude | gjk.cc:298-302 | the square of the returned distance times `|n|` is `|separation|² |n|²`: the distance and the separation agree up to sign |
| GjkResult.TriangleFoot | gjk.cc:300-308 | the foot of the origin on the triangle's plane is orthogonal to both edges and lies in the plane |
| GjkResult.AffineDifference | gjk.cc:321-326 | combining the sources with `kab` and `kac` combines the Minkowski points the same way |
| GjkResult.DedupProperties | gjk.cc:365-458 | the reference deduplication keeps the first occurrence of each vertex: the result is distinct, has the same elements, and is no longer than the input |
| GjkResult.Features | gjk.cc:380-456 | the branch tree lists 1 to 3 pairwise distinct vertices, the first source first, and exactly the vertices among the sources |
| GjkResult.FeaturesAreDedup | gjk.cc:380-456 | the branch tree that lists the feature vertices equals the reference deduplication, for 1 to 3 vertices |
| GjkResult.NoOverlapResult | gjk.cc:357-460 | the result is not an overlap; the feature lists are the deduplicated sources; the separation is the foot of the origin on the simplex's affine hull; the closest points differ by the separation, and for one point they are its sources |
| GjkResult.NoOverlapFeatures | gjk.cc:365-458 | each feature list has 1 to as many vertices as the simplex, all distinct, and as a set equals that shape's sources |
| Gjk.GjkEnclosure | gjk.cc:543-545 | a triangle of support points facing the origin, extended by the support point along its normal into a non-degenerate tetrahedron that passes the face tests, shows that the hulls meet |
| Gjk.FinalDistance | gjk.cc:298-302 | for a triangle gjk can end on, the value `gjk_distance3` returns is not negative and is the length of the separation |
| Gjk.FindMinkowski | gjk.cc:517-520 | true exactly when some simplex point's Minkowski point equals the new point exactly |
| Gjk.Push | gjk.cc:522-523 | the new point is appended after the current simplex |
| Gjk.ReduceSimplex | gjk.cc:535-547 | in place: containment is reported exactly when `Reduce` of the old simplex reports it, and then nothing changes; otherwise the slots, count and direction are those of `Reduce`, 1 to 3 non-degenerate points with `A` last whose direction leaves them towards the origin; slots from the count on are unchanged |
| Gjk.Extend | gjk.cc:522-547 | the step and the new state are those of `Extended` for the old simplex plus `next`: a degenerate insertion gives no progress with the slots, count and direction as before; a containment gives `Overlap`, and then the hulls meet; otherwise the slots are the reduction of the extended simplex, which stays a non-degenerate simplex of 1 to 3 support points with a direction towards the origin |
| Gjk.Iterate | gjk.cc:511-547 | a support point within eps of the origin always ends with overlap; a support point whose Minkowski point is already in the simplex gives no progress and changes nothing; any other point is handled as `Extended` states; overlap is reported only for a point within eps of the origin or when the hulls meet; otherwise the simplex and its direction stay valid |
| Gjk.Gjk | gjk.cc:498-552 | a first support point within eps of the origin gives the overlap result; any overlap is backed by a support point within eps of the origin or by hulls that meet; otherwise the result is `gjk_no_overlap_result` of a non-degenerate simplex of 1 to 3 support points whose last direction leaves it towards the origin |
| Gjk.SimplexOfReduced | gjk.cc:53-248 | a reduction keeps a simplex made of support points |
| CollisionTest.CReduce2 | gjk_collision_test.cc:7-21 | the edge `[B, A]` is always kept |
| CollisionTest.CReduce3 | gjk_collision_test.cc:23-66 | 2 or 3 input points are kept with `A` last; a kept triangle is `[C, B, A]` when `ABC·AO > 0` and `[B, C, A]` otherwise, with `dir` its normal |
| CollisionTest.CReduce4 | gjk_collision_test.cc:68-118 | containment is reported exactly when all three face dots are ≤ 0; otherwise 3 input points are kept, with `A` last and `dir` the face normal, whose dot with `AO` is positive |
| CollisionTest.CReduce | gjk_collision_test.cc:164-179 | containment exactly for a tetrahedron with the origin behind its three faces; otherwise 2 or 3 input points with `A` last |
| CollisionTest.CSimplex2 | gjk_collision_test.cc:7-21 | the count stays 2 and the direction is that of `CReduce2` |
| CollisionTest.CSimplex3 | gjk_collision_test.cc:23-66 | in-place reducer: the slots, count and direction are those of `CReduce3` |
| CollisionTest.CSimplex4 | gjk_collision_test.cc:68-118 | in-place reducer: returns true exactly on containment and then changes nothing; otherwise the slots, count and direction are those of `CReduce4` |
| CollisionTest.CReduce2TowardOrigin | gjk_collision_test.cc:7-21 | the next direction is perpendicular to the edge, on the origin's side |
| CollisionTest.CReduce3TowardOrigin | gjk_collision_test.cc:23-66 | the next direction leaves the kept edge or triangle towards the origin |
| CollisionTest.Reduce4Agrees | gjk_collision_test.cc:68-118 | both tetrahedron reducers report containment for the same tetrahedra, and agree whenever `gjk_simplex4` keeps a face |
| CollisionTest.Reduce3Agrees | gjk_collision_test.cc:23-66 | both triangle reducers agree whenever `gjk_simplex3` keeps at least an edge |
| CollisionTest.CollisionSupport | gjk_collision_test.cc:120-151 | the result is the Minkowski point of the support point of gjk.cc for `dir` |
| CollisionTest.SeparatingAxis | gjk_collision_test.cc:160-162 | when the support point along `d` is behind the origin, every vertex difference `p1[i] - p2[j]` is strictly behind it: `d` separates the shapes |
| CollisionTest.SeparatedHasAxis | gjk_collision_test.cc:160-162 | shapes the query declares separated have a separating direction |
| CollisionTest.SeparatedApart | gjk_collision_test.cc:160-162 | shapes the query declares separated have hulls that do not meet |
| CollisionTest.Start | gjk_collision_test.cc:153-158 | the driver's first state: a fresh four-slot array whose only point is the Minkowski point of the support along `(0, 0, -1)`, with the direction `-initial_point`, which is a valid search state |
| CollisionTest.OriginMeets | gjk_collision_test.cc:154-158 | a first support point that is exactly the origin shows that the hulls meet |
| CollisionTest.SupportPointsOf | gjk_collision_test.cc:120-151 | every point of the driver's simplex is the Minkowski point of a vertex pair of the polygons |
| CollisionTest.InHullMeets | gjk_collision_test.cc:164-179 | a simplex of support points whose hull holds the origin shows that the hulls meet |
| CollisionTest.ReducedSupport | gjk_collision_test.cc:164-179 | a reducer keeps a simplex made of support points |
| CollisionTest.InitialSearch | gjk_collision_test.cc:153-158 | the first support point with the direction `-initial_point` is a valid search state |
| CollisionTest.CStep | gjk_collision_test.cc:159-179 | a support point that passed the origin, inserted and reduced, either reports containment of a tetrahedron whose hull meets, or gives a new valid search state |
| CollisionTest.PointStep | gjk_collision_test.cc:7-21 | from a point, the edge direction is perpendicular to `AO` only when the origin lies on the edge |
| CollisionTest.EdgeStep | gjk_collision_test.cc:23-66 | from an edge, every outcome of the triangle reducer is a valid search state |
| CollisionTest.FlatTriangleStep | gjk_collision_test.cc:59-64 | a triangle with the origin in its plane and behind neither edge at `A` holds the origin, or the hulls already met |
| CollisionTest.FirstEdgeNotFlat | gjk_collision_test.cc:30-37 | when the `AC` branch is taken, the new edge direction is not perpendicular to `AO` |
| CollisionTest.SecondEdgeNotFlat | gjk_collision_test.cc:39-47 | when the `AB` branch is taken, the new edge direction is not perpendicular to `AO` |
| CollisionTest.TriangleStep | gjk_collision_test.cc:68-118 | from a triangle facing the origin, containment means the hulls meet, and a kept face faces the origin strictly |
| CollisionTest.CReduceSimplex | gjk_collision_test.cc:164-179 | in place: containment exactly when `CReduce` reports it; otherwise the slots, count and direction are those of `CReduce`; slots from the count on are unchanged |
| CollisionTest.CIterate | gjk_collision_test.cc:160-179 | false exactly when `dir·new_point < 0`, before any insertion, and then the shapes are separated; true exactly when `CReduce` of the old simplex plus the support point along `dir` reports containment, and then the hulls meet; otherwise the slots, count and direction are `CReduce` of the old simplex plus the support point along `dir`, and the search state stays valid |
| CollisionTest.Collision | gjk_collision_test.cc:153-181 | false only for separated shapes, whose hulls do not meet; true only when the hulls meet |

## Left out

- Square roots: `v3_norm` and `v3_normalize` are not modelled, and the `f32` distance is not a field of the result. The separation vector stands for it; the links to the source's value are stated under "Distances" above.
- Floating-point rounding: `f32` arithmetic is exact real arithmetic here. The source's own comments say some of its checks fire near edges because of rounding.
- The componentwise `operator*`, the comparison operators `<` and `>`, and the compound assignments of math.hh are not modelled; the core uses none of them beyond plain rebinding.
- math.hh beyond the Vector3 section (quaternions, matrices, rotation, perspective) is not part of this model. Neither are main.cc, opengl.hh, opengl.inl or common.hh; the debug drawing calls and the `#if 0` blocks of gjk.cc are dead code.
- The geometric `ASSERT`s inside the reducers and distance functions are not modelled; the distance functions take the non-degeneracy they need as `requires`, which the gjk loop is proved to provide.
- GjkResult.Distance2, GjkResult.Distance3: the closest point is proved to be the foot of the origin on the line or plane of the simplex; that it lies inside the edge or triangle (the source's range `ASSERT`s, one of them commented out) is not proved.
- GjkSimplex.CheckDegenerate3: the area test is stated on the squared norm of the cross product instead of `0.5 sqrtf(...)`; `AreaTestAgrees` is the link.
- Gjk.Gjk: the 16-iteration bound is kept, but the result is not tied to the exact sequence of support points visited; the contract states what each kind of exit guarantees.
- Gjk.Gjk, Gjk.Iterate: an overlap answer may also come from a support point within eps of the origin (`SupportTouchesOrigin`). That is the source's tolerance, and such polygons need not share a point exactly.
- Gjk.Gjk: an answer of no overlap is not proved to mean that the hulls do not meet. The source also stops after 16 iterations, on a repeated point and on a degenerate simplex.
- CollisionTest.Collision: termination of the unbounded loop is not modelled; a `fuel` bound ends the loop with `OutOfFuel`.
- CollisionTest.CollisionSupport: the argmax loop of gjk_collision_test.cc is the same loop as that of gjk.cc, so it delegates to `Support.PolygonSupport`.
- Polygon vertex counts are not bounded by `i32`.
