/** gjk_collision_test.cc: the boolean overlap query. It runs the same
    region tests as gjk on bare Minkowski points, never collapses a
    triangle to a single point, stops with false as soon as a support point
    fails to pass the origin, and has no iteration cap. */
module CollisionTest {
  import opened VecMath
  import opened Support
  import opened SimplexGeometry
  import GjkSimplex
  import opened Enclosure
  import opened Overlap

  // ----------------------------------------------------------------
  // Reducers as functions
  // ----------------------------------------------------------------

  /** gjk_collistion_test_simplex2 on [B, A]: the edge is kept. */
  function CReduce2(s: seq<Vector3>): (r: Reduction<Vector3>)
    requires |s| == 2
    ensures r.Reduced? && r.points == s
  {
    var ao := Neg(s[1]);
    var ab := Sub(s[0], s[1]);
    Reduced(s, TripleCross(ab, ao, ab))
  }

  /** gjk_collistion_test_simplex3 on [C, B, A]: keep the edge AC or AB in
      front of which the origin lies, otherwise the triangle, wound so that
      its normal faces the origin. */
  function CReduce3(s: seq<Vector3>): (r: Reduction<Vector3>)
    requires |s| == 3
    ensures r.Reduced? && ReducedFrom(s, r.points) && 2 <= |r.points|
    ensures |r.points| == 3 ==> r.dir == TriangleNormal(r.points)
    ensures |r.points| == 3 ==>
              if Dot(TriangleNormal(s), Neg(s[2])) > 0.0 then r.points == s
              else r.points == [s[1], s[0], s[2]]
  {
    var ao := Neg(s[2]);
    var ab := Sub(s[1], s[2]);
    var ac := Sub(s[0], s[2]);
    var abc := Cross(ab, ac);
    TriangleSwapNormal(s);
    if Dot(Cross(abc, ac), ao) > 0.0 then Reduced([s[0], s[2]], TripleCross(ac, ao, ac))
    else if Dot(Cross(ab, abc), ao) > 0.0 then Reduced([s[1], s[2]], TripleCross(ab, ao, ab))
    else if Dot(abc, ao) > 0.0 then Reduced(s, abc)
    else Reduced([s[1], s[0], s[2]], Neg(abc))
  }

  /** gjk_collistion_test_simplex4 on [D, C, B, A]: report the origin
      enclosed when it lies behind the three faces at A, otherwise keep the
      first face in front of which it lies. */
  function CReduce4(s: seq<Vector3>): (r: Reduction<Vector3>)
    requires |s| == 4
    ensures r.ContainsOrigin? <==> OriginBehindFaces(s)
    ensures r.Reduced? ==>
              ReducedFrom(s, r.points) && |r.points| == 3
              && r.dir == TriangleNormal(r.points) && Dot(r.dir, Neg(s[3])) > 0.0
  {
    var ao := Neg(s[3]);
    var ab := Sub(s[2], s[3]);
    var ac := Sub(s[1], s[3]);
    var ad := Sub(s[0], s[3]);
    var acb := Cross(ab, ac);
    var abd := Cross(ad, ab);
    var adc := Cross(ac, ad);
    if Dot(acb, ao) > 0.0 then Reduced([s[1], s[2], s[3]], acb)
    else if Dot(abd, ao) > 0.0 then Reduced([s[2], s[0], s[3]], abd)
    else if Dot(adc, ao) > 0.0 then Reduced([s[0], s[1], s[3]], adc)
    else ContainsOrigin
  }

  // ----------------------------------------------------------------
  // Reducers in place on the 4-slot point array
  // ----------------------------------------------------------------

  /** gjk_collistion_test_simplex2: points[..2] is [B, A]; the points and
      the count are left as they are. */
  method CSimplex2(points: array<Vector3>, numPoints: int) returns (newNumPoints: int, nextDir: Vector3)
    requires points.Length == 4 && numPoints == 2
    ensures newNumPoints == 2 && nextDir == CReduce2(points[..2]).dir
  {
    var ao := Neg(points[1]);
    var ab := Sub(points[0], points[1]);
    newNumPoints := numPoints;
    nextDir := TripleCross(ab, ao, ab);
  }

  /** gjk_collistion_test_simplex3: points[..3] is [C, B, A]. */
  method CSimplex3(points: array<Vector3>, numPoints: int) returns (newNumPoints: int, nextDir: Vector3)
    requires points.Length == 4 && numPoints == 3
    modifies points
    ensures var r := CReduce3(old(points[..3]));
            newNumPoints == |r.points| && points[..newNumPoints] == r.points && nextDir == r.dir
    ensures points[newNumPoints..] == old(points[newNumPoints..])
  {
    var ao := Neg(points[2]);
    var ab := Sub(points[1], points[2]);
    var ac := Sub(points[0], points[2]);
    var abc := Cross(ab, ac);
    var aux := Cross(abc, ac);
    if Dot(aux, ao) > 0.0 {
      points[1] := points[2];
      newNumPoints := 2;
      nextDir := TripleCross(ac, ao, ac);
      return;
    }
    aux := Cross(ab, abc);
    if Dot(aux, ao) > 0.0 {
      points[0] := points[1];
      points[1] := points[2];
      newNumPoints := 2;
      nextDir := TripleCross(ab, ao, ab);
      return;
    }
    newNumPoints := 3;
    if Dot(abc, ao) > 0.0 {
      nextDir := abc;
    } else {
      var aux2 := points[1];
      points[1] := points[0];
      points[0] := aux2;
      nextDir := Neg(abc);
    }
  }

  /** gjk_collistion_test_simplex4: points[..4] is [D, C, B, A]; returns
      true, leaving everything as it was, when the origin is enclosed. */
  method CSimplex4(points: array<Vector3>, numPoints: int, nextDir: Vector3)
    returns (contained: bool, newNumPoints: int, newNextDir: Vector3)
    requires points.Length == 4 && numPoints == 4
    modifies points
    ensures contained <==> CReduce4(old(points[..4])).ContainsOrigin?
    ensures contained ==> newNumPoints == 4 && newNextDir == nextDir && points[..] == old(points[..])
    ensures !contained ==>
              var r := CReduce4(old(points[..4]));
              newNumPoints == 3 && points[..3] == r.points && newNextDir == r.dir
    ensures points[newNumPoints..] == old(points[newNumPoints..])
  {
    var ao := Neg(points[3]);
    var ab := Sub(points[2], points[3]);
    var ac := Sub(points[1], points[3]);
    var ad := Sub(points[0], points[3]);
    var acb := Cross(ab, ac);
    var abd := Cross(ad, ab);
    var adc := Cross(ac, ad);
    contained := false;
    newNumPoints := 3;
    if Dot(acb, ao) > 0.0 {
      points[0] := points[1];
      points[1] := points[2];
      points[2] := points[3];
      newNextDir := acb;
      return;
    }
    if Dot(abd, ao) > 0.0 {
      var tmp := points[0];
      points[0] := points[2];
      points[1] := tmp;
      points[2] := points[3];
      newNextDir := abd;
      return;
    }
    if Dot(adc, ao) > 0.0 {
      points[2] := points[3];
      newNextDir := adc;
      return;
    }
    contained := true;
    newNumPoints := numPoints;
    newNextDir := nextDir;
  }

  // ----------------------------------------------------------------
  // What the reductions preserve
  // ----------------------------------------------------------------

  /** The next direction of each reducer leaves the reduced simplex towards
      the origin. */
  lemma CReduce2TowardOrigin(s: seq<Vector3>)
    requires |s| == 2
    ensures TowardOrigin(CReduce2(s).points, CReduce2(s).dir)
  {
    var ao := Neg(s[1]);
    var ab := Sub(s[0], s[1]);
    EdgeDirection(ab, ao);
    DotCommutes(TripleCross(ab, ao, ab), ab);
  }

  lemma CReduce3TowardOrigin(s: seq<Vector3>)
    requires |s| == 3
    ensures TowardOrigin(CReduce3(s).points, CReduce3(s).dir)
  {
    var ao := Neg(s[2]);
    var ab := Sub(s[1], s[2]);
    var ac := Sub(s[0], s[2]);
    EdgeDirection(ac, ao);
    EdgeDirection(ab, ao);
    var abc := Cross(ab, ac);
    DotNeg(abc, ao);
  }

  // ----------------------------------------------------------------
  // Agreement with the reducers of gjk
  // ----------------------------------------------------------------

  /** Both variants report containment of the origin for the same
      tetrahedra, and otherwise agree whenever gjk keeps a face. */
  lemma Reduce4Agrees(s: seq<SupportPoint>)
    requires |s| == 4
    ensures CReduce4(Minkowski(s)).ContainsOrigin? <==> GjkSimplex.Reduce4(s).ContainsOrigin?
    ensures var r := GjkSimplex.Reduce4(s);
            r.Reduced? && |r.points| == 3 ==>
              CReduce4(Minkowski(s)) == Reduced(Minkowski(r.points), r.dir)
  {
    var t := Minkowski(s);
    assert Minkowski([s[1], s[2], s[3]]) == [t[1], t[2], t[3]];
    assert Minkowski([s[2], s[0], s[3]]) == [t[2], t[0], t[3]];
    assert Minkowski([s[0], s[1], s[3]]) == [t[0], t[1], t[3]];
  }

  /** The triangle reducers agree whenever gjk keeps at least an edge. */
  lemma Reduce3Agrees(s: seq<SupportPoint>)
    requires |s| == 3
    ensures var r := GjkSimplex.Reduce3(s);
            |r.points| >= 2 ==> CReduce3(Minkowski(s)) == Reduced(Minkowski(r.points), r.dir)
  {
    var t := Minkowski(s);
    assert Minkowski([s[0], s[2]]) == [t[0], t[2]];
    assert Minkowski([s[1], s[2]]) == [t[1], t[2]];
    assert Minkowski([s[1], s[0], s[2]]) == [t[1], t[0], t[2]];
  }

  // ----------------------------------------------------------------
  // Support and the driver
  // ----------------------------------------------------------------

  /** gjk_polygon_support of gjk_collision_test.cc: the same interleaved
      argmax as in gjk, returning only the Minkowski point. */
  method CollisionSupport(p1: seq<Vector3>, p2: seq<Vector3>, dir: Vector3) returns (r: Vector3)
    requires |p1| > 0 && |p2| > 0
    ensures r == Support.Support(p1, p2, dir).minkowski
  {
    var p := PolygonSupport(p1, p2, dir);
    r := p.minkowski;
  }

  /** The test that makes gjk_collision_test return false is sound: a
      support point that stays behind the origin along its direction makes
      that direction a separating axis. */
  lemma SeparatingAxis(p1: seq<Vector3>, p2: seq<Vector3>, d: Vector3)
    requires |p1| > 0 && |p2| > 0
    requires Dot(d, Support.Support(p1, p2, d).minkowski) < 0.0
    ensures SeparatingAxisOf(p1, p2, d)
  {
    forall i, j | 0 <= i < |p1| && 0 <= j < |p2|
      ensures Dot(d, Sub(p1[i], p2[j])) < 0.0
    {
      SupportIsExtreme(p1, p2, d, i, j);
      DotCommutes(d, Sub(p1[i], p2[j]));
      DotCommutes(d, Support.Support(p1, p2, d).minkowski);
    }
  }

  /** A point of the Minkowski difference that the support function
      returns for some direction. */
  ghost predicate IsSupport(p1: seq<Vector3>, p2: seq<Vector3>, v: Vector3)
    requires |p1| > 0 && |p2| > 0
  {
    exists d :: Support.Support(p1, p2, d).minkowski == v
  }

  /** Some direction has its support point strictly behind the origin. */
  ghost predicate Separated(p1: seq<Vector3>, p2: seq<Vector3>)
    requires |p1| > 0 && |p2| > 0
  {
    exists d :: Dot(d, Support.Support(p1, p2, d).minkowski) < 0.0
  }

  lemma SupportWitness(p1: seq<Vector3>, p2: seq<Vector3>, d: Vector3)
    requires |p1| > 0 && |p2| > 0
    ensures IsSupport(p1, p2, Support.Support(p1, p2, d).minkowski)
  {
  }

  lemma SeparatedWitness(p1: seq<Vector3>, p2: seq<Vector3>, d: Vector3)
    requires |p1| > 0 && |p2| > 0 && Dot(d, Support.Support(p1, p2, d).minkowski) < 0.0
    ensures Separated(p1, p2)
  {
  }

  /** Separated polygons have a separating axis. */
  lemma SeparatedHasAxis(p1: seq<Vector3>, p2: seq<Vector3>)
    requires |p1| > 0 && |p2| > 0 && Separated(p1, p2)
    ensures exists d :: SeparatingAxisOf(p1, p2, d)
  {
    var d :| Dot(d, Support.Support(p1, p2, d).minkowski) < 0.0;
    SeparatingAxis(p1, p2, d);
  }

  /** The two answers exclude each other: when some support point stays
      behind the origin along its direction, the hulls do not meet. */
  lemma SeparatedApart(p1: seq<Vector3>, p2: seq<Vector3>)
    requires |p1| > 0 && |p2| > 0 && Separated(p1, p2)
    ensures !HullsMeet(p1, p2)
  {
    SeparatedHasAxis(p1, p2);
    var d :| SeparatingAxisOf(p1, p2, d);
    SeparatedHullsDoNotMeet(p1, p2, d);
  }

  /** The points of a simplex of gjk_collision_test are support points. */
  ghost predicate SupportSimplex(p1: seq<Vector3>, p2: seq<Vector3>, s: seq<Vector3>)
    requires |p1| > 0 && |p2| > 0
  {
    forall k :: 0 <= k < |s| ==> IsSupport(p1, p2, s[k])
  }

  /** Support points with their polygon vertices, for a simplex of
      Minkowski support points. */
  lemma SupportPointsOf(p1: seq<Vector3>, p2: seq<Vector3>, t: seq<Vector3>) returns (u: seq<SupportPoint>)
    requires |p1| > 0 && |p2| > 0 && SupportSimplex(p1, p2, t)
    ensures Minkowski(u) == t && forall k :: 0 <= k < |u| ==> FromPolygons(p1, p2, u[k])
    decreases |t|
  {
    if |t| == 0 {
      u := [];
    } else {
      var front := t[..|t| - 1];
      var v := SupportPointsOf(p1, p2, front);
      assert IsSupport(p1, p2, t[|t| - 1]);
      var d :| Support.Support(p1, p2, d).minkowski == t[|t| - 1];
      u := v + [Support.Support(p1, p2, d)];
      assert t == front + [t[|t| - 1]];
      assert Minkowski(u) == Minkowski(v) + [t[|t| - 1]];
    }
  }

  /** A simplex of support points with the origin in its hull shows that
      the hulls of the polygons meet. */
  lemma InHullMeets(p1: seq<Vector3>, p2: seq<Vector3>, t: seq<Vector3>)
    requires |p1| > 0 && |p2| > 0 && 1 <= |t| <= 4 && SupportSimplex(p1, p2, t) && OriginInHull(t)
    ensures HullsMeet(p1, p2)
  {
    var u := SupportPointsOf(p1, p2, t);
    MeetFromHull(p1, p2, u);
  }

  /** A reduced simplex keeps support points only. */
  lemma ReducedSupport(p1: seq<Vector3>, p2: seq<Vector3>, t: seq<Vector3>, u: seq<Vector3>)
    requires |p1| > 0 && |p2| > 0 && SupportSimplex(p1, p2, t) && ReducedFrom(t, u)
    ensures SupportSimplex(p1, p2, u)
  {
    forall k | 0 <= k < |u|
      ensures IsSupport(p1, p2, u[k])
    {
      assert u[k] in u;
      var i :| 0 <= i < |t| && t[i] == u[k];
    }
  }

  // ----------------------------------------------------------------
  // The loop invariant of gjk_collision_test
  // ----------------------------------------------------------------

  /** The direction gjk_collision_test searches next from the simplex s:
      AO from a point [A], AB x AO x AB from an edge [B, A], and the normal
      of a triangle, facing the origin. */
  predicate Heading(s: seq<Vector3>, d: Vector3) {
    if |s| == 1 then d == Neg(s[0])
    else if |s| == 2 then d == TripleCross(Sub(s[0], s[1]), Neg(s[1]), Sub(s[0], s[1]))
    else if |s| == 3 then d == TriangleNormal(s) && Dot(d, Neg(s[2])) >= 0.0
    else false
  }

  /** A search direction perpendicular to AO comes only from a simplex that
      already holds the origin, so the hulls meet. */
  ghost predicate FlatMeets(p1: seq<Vector3>, p2: seq<Vector3>, s: seq<Vector3>, d: Vector3)
    requires 1 <= |s|
  {
    Dot(d, Neg(s[|s| - 1])) == 0.0 ==> HullsMeet(p1, p2)
  }

  /** The state gjk_collision_test keeps between iterations. */
  ghost predicate Searching(p1: seq<Vector3>, p2: seq<Vector3>, s: seq<Vector3>, d: Vector3)
    requires |p1| > 0 && |p2| > 0
  {
    1 <= |s| <= 3 && SupportSimplex(p1, p2, s) && Heading(s, d) && FlatMeets(p1, p2, s, d)
  }

  /** The switch of gjk_collision_test on the simplex size, as a function. */
  function CReduce(s: seq<Vector3>): (r: Reduction<Vector3>)
    requires 2 <= |s| <= 4
    ensures r.ContainsOrigin? <==> |s| == 4 && OriginBehindFaces(s)
    ensures r.Reduced? ==> ReducedFrom(s, r.points) && 2 <= |r.points| <= 3
  {
    if |s| == 2 then CReduce2(s) else if |s| == 3 then CReduce3(s) else CReduce4(s)
  }

  /** The first search state: the initial support point and the direction
      towards the origin from it. */
  lemma InitialSearch(p1: seq<Vector3>, p2: seq<Vector3>, v: Vector3)
    requires |p1| > 0 && |p2| > 0 && IsSupport(p1, p2, v)
    ensures Searching(p1, p2, [v], Neg(v))
  {
    assert SupportSimplex(p1, p2, [v]);
    DotSelf(Neg(v));
    Norm2Positive(Neg(v));
    if Neg(v) == Zero {
      OriginMeets(p1, p2, v);
    }
  }

  /** A support point at the origin shows that the hulls meet. */
  lemma OriginMeets(p1: seq<Vector3>, p2: seq<Vector3>, v: Vector3)
    requires |p1| > 0 && |p2| > 0 && SupportSimplex(p1, p2, [v]) && Neg(v) == Zero
    ensures HullsMeet(p1, p2)
  {
    var w := Weights(1.0, 0.0, 0.0, 0.0);
    var t := [v];
    PadPoint(v);
    assert Combine(w, [v, v, v, v]) == v;
    HullWitness(t, w);
    InHullMeets(p1, p2, t);
  }

  /** A point padded to four slots. */
  lemma PadPoint(v: Vector3)
    ensures Pad([v]) == [v, v, v, v]
  {
    var r := Pad([v]);
    assert r[0] == r[..1][0];
  }

  /** An iteration keeps the search state: the support point a, which did
      not stay behind the origin along d, extends the simplex, and the
      reduction either reports the origin enclosed, in which case the hulls
      meet, or yields a new search state. */
  lemma CStep(p1: seq<Vector3>, p2: seq<Vector3>, s: seq<Vector3>, d: Vector3, a: Vector3)
    requires |p1| > 0 && |p2| > 0 && Searching(p1, p2, s, d)
    requires IsSupport(p1, p2, a) && Dot(d, a) >= 0.0
    ensures var r := CReduce(s + [a]);
            (r.ContainsOrigin? ==> HullsMeet(p1, p2)) && (r.Reduced? ==> Searching(p1, p2, r.points, r.dir))
  {
    if |s| == 1 {
      assert s + [a] == [s[0], a];
      PointStep(p1, p2, s[0], a);
    } else if |s| == 2 {
      assert s + [a] == [s[0], s[1], a];
      EdgeStep(p1, p2, s[0], s[1], d, a);
    } else {
      TriangleStep(p1, p2, s, d, a);
    }
  }

  /** From a point [B]: the edge [B, A] is kept, and its direction is
      perpendicular to AO only when the origin lies on the edge. */
  lemma PointStep(p1: seq<Vector3>, p2: seq<Vector3>, b: Vector3, a: Vector3)
    requires |p1| > 0 && |p2| > 0 && IsSupport(p1, p2, b) && IsSupport(p1, p2, a)
    requires Dot(Neg(b), a) >= 0.0
    ensures var r := CReduce([b, a]); r.Reduced? && Searching(p1, p2, r.points, r.dir)
  {
    var r := CReduce([b, a]);
    var ab, ao := Sub(b, a), Neg(a);
    assert r.dir == TripleCross(ab, ao, ab);
    if Dot(r.dir, ao) == 0.0 {
      EdgeDirectionZero(ab, ao);
      var w := FlatEdgeWeights(b, a);
      assert Pad([b, a]) == [b, a, a, a];
      HullWitness([b, a], w);
      InHullMeets(p1, p2, [b, a]);
    }
  }

  /** From an edge [C, B]: an edge branch leaves a direction that is not
      perpendicular to AO; a kept triangle either faces the origin strictly
      or holds it in its plane, and then holds it inside. */
  lemma EdgeStep(p1: seq<Vector3>, p2: seq<Vector3>, c: Vector3, b: Vector3, d: Vector3, a: Vector3)
    requires |p1| > 0 && |p2| > 0 && Searching(p1, p2, [c, b], d)
    requires IsSupport(p1, p2, a) && Dot(d, a) >= 0.0
    ensures var r := CReduce([c, b, a]); r.Reduced? && Searching(p1, p2, r.points, r.dir)
  {
    var s := [c, b, a];
    var r := CReduce3(s);
    assert SupportSimplex(p1, p2, s);
    ReducedSupport(p1, p2, s, r.points);
    var ao, ab, ac := Neg(a), Sub(b, a), Sub(c, a);
    var abc := Cross(ab, ac);
    TriangleSwapNormal(s);
    DotNeg(abc, ao);
    if Dot(Cross(abc, ac), ao) > 0.0 {
      FirstEdgeNotFlat(abc, ac, ao);
    } else if Dot(Cross(ab, abc), ao) > 0.0 {
      SecondEdgeNotFlat(ab, abc, ao);
    } else if Dot(abc, ao) == 0.0 {
      FlatTriangleStep(p1, p2, c, b, d, a);
    }
  }

  /** The triangle [C, B, A] with the origin in its plane, reached from the
      edge [C, B]: the origin lies inside it, or already on [C, B]. */
  lemma FlatTriangleStep(p1: seq<Vector3>, p2: seq<Vector3>, c: Vector3, b: Vector3, d: Vector3, a: Vector3)
    requires |p1| > 0 && |p2| > 0 && Searching(p1, p2, [c, b], d)
    requires IsSupport(p1, p2, a) && Dot(d, a) >= 0.0
    requires var ao, ab, ac := Neg(a), Sub(b, a), Sub(c, a);
             var abc := Cross(ab, ac);
             Dot(Cross(abc, ac), ao) <= 0.0 && Dot(Cross(ab, abc), ao) <= 0.0 && Dot(abc, ao) == 0.0
    ensures HullsMeet(p1, p2)
  {
    EdgeDirection(Sub(c, b), Neg(b));
    if Dot(d, Neg(b)) > 0.0 {
      var w := FlatTriangleWeights([c, b, a]);
      assert Pad([b, c, a]) == [b, c, a, a];
      HullWitness([b, c, a], w);
      InHullMeets(p1, p2, [b, c, a]);
    }
  }

  /** The test of the edge branch AC is non-zero only when AO is off the
      line of AC, and then AC x AO x AC is not perpendicular to AO. */
  lemma FirstEdgeNotFlat(abc: Vector3, ac: Vector3, ao: Vector3)
    requires Dot(Cross(abc, ac), ao) != 0.0
    ensures Dot(TripleCross(ac, ao, ac), ao) != 0.0
  {
    DetCyclic(abc, ac, ao);
    DotNonZero(Cross(ac, ao), abc);
    EdgeDirectionValue(ac, ao);
  }

  /** The same for the edge branch AB. */
  lemma SecondEdgeNotFlat(ab: Vector3, abc: Vector3, ao: Vector3)
    requires Dot(Cross(ab, abc), ao) != 0.0
    ensures Dot(TripleCross(ab, ao, ab), ao) != 0.0
  {
    var x := Cross(ab, ao);
    DetCyclic(ab, abc, ao);
    DetCyclic(abc, ao, ab);
    CrossAntiCommutes(ab, ao);
    DotNeg(x, abc);
    DotNonZero(x, abc);
    EdgeDirectionValue(ab, ao);
  }

  /** A vector with a non-zero dot product is not zero. */
  lemma DotNonZero(x: Vector3, y: Vector3)
    requires Dot(x, y) != 0.0
    ensures Norm2(x) > 0.0
  {
    Norm2Positive(x);
    assert Dot(Zero, y) == 0.0;
  }

  /** From a triangle [D, C, B] facing the origin: the tetrahedron test
      reports the origin enclosed only when it is, or when it already lay in
      the plane of the triangle; otherwise the kept face faces the origin
      strictly. */
  lemma TriangleStep(p1: seq<Vector3>, p2: seq<Vector3>, s: seq<Vector3>, d: Vector3, a: Vector3)
    requires |p1| > 0 && |p2| > 0 && |s| == 3 && Searching(p1, p2, s, d)
    requires IsSupport(p1, p2, a) && Dot(d, a) >= 0.0
    ensures var r := CReduce(s + [a]);
            (r.ContainsOrigin? ==> HullsMeet(p1, p2)) && (r.Reduced? ==> Searching(p1, p2, r.points, r.dir))
  {
    var t := s + [a];
    var r := CReduce4(t);
    assert SupportSimplex(p1, p2, t);
    if r.ContainsOrigin? {
      assert t[..3] == s;
      var n := TriangleNormal(s);
      DotSub(a, s[2], n);
      DotCommutes(n, Sub(a, s[2]));
      DotCommutes(d, a);
      DotNeg(n, s[2]);
      DotCommutes(n, s[2]);
      if Dot(n, Sub(t[3], t[2])) > 0.0 {
        var w := TetrahedronWeights(t);
        HullWitness(t, w);
        InHullMeets(p1, p2, t);
      }
    } else {
      ReducedSupport(p1, p2, t, r.points);
    }
  }

  /** The answer of gjk_collision_test, or OutOfFuel when the model's
      iteration budget ends before the unbounded loop of the source would. */
  datatype Outcome = Decided(overlap: bool) | OutOfFuel

  /** How one iteration of gjk_collision_test ends: on to the next one, or
      with the function's answer. */
  datatype Round = Continue | Answer(overlap: bool)

  /** The switch of gjk_collision_test on the simplex size after an
      insertion. */
  method CReduceSimplex(points: array<Vector3>, numPoints: int, dir: Vector3)
    returns (contained: bool, newNumPoints: int, newDir: Vector3)
    requires points.Length == 4 && 2 <= numPoints <= 4
    modifies points
    ensures var r := CReduce(old(points[..numPoints]));
            (contained <==> r.ContainsOrigin?)
            && (!contained ==> newNumPoints == |r.points| && points[..newNumPoints] == r.points && newDir == r.dir)
    ensures 2 <= newNumPoints <= 4 && points[newNumPoints..] == old(points[newNumPoints..])
  {
    contained := false;
    if numPoints == 2 {
      newNumPoints, newDir := CSimplex2(points, numPoints);
      assert points[..2] == old(points[..2]);
    } else if numPoints == 3 {
      newNumPoints, newDir := CSimplex3(points, numPoints);
    } else {
      contained, newNumPoints, newDir := CSimplex4(points, numPoints, dir);
    }
  }

  /** One iteration of the loop of gjk_collision_test: fetch the support
      point along dir, stop with false when it does not pass the origin,
      otherwise insert it and reduce the simplex. */
  method CIterate(p1: seq<Vector3>, p2: seq<Vector3>, points: array<Vector3>, numPoints: int, dir: Vector3)
    returns (r: Round, newNumPoints: int, newDir: Vector3)
    requires |p1| > 0 && |p2| > 0
    requires points.Length == 4 && 1 <= numPoints <= 3 && Searching(p1, p2, points[..numPoints], dir)
    modifies points
    ensures r == Answer(false) <==> Dot(dir, Support.Support(p1, p2, dir).minkowski) < 0.0
    ensures r == Answer(false) ==> Separated(p1, p2) && points[..] == old(points[..])
    ensures r == Answer(true) ==> numPoints == 3 && HullsMeet(p1, p2)
    ensures r == Answer(true) <==>
              Dot(dir, Support.Support(p1, p2, dir).minkowski) >= 0.0
              && CReduce(old(points[..numPoints]) + [Support.Support(p1, p2, dir).minkowski]).ContainsOrigin?
    ensures r.Continue? ==> 1 <= newNumPoints <= 3 && Searching(p1, p2, points[..newNumPoints], newDir)
    ensures r.Continue? ==>
              var c := CReduce(old(points[..numPoints]) + [Support.Support(p1, p2, dir).minkowski]);
              c.Reduced? && newNumPoints == |c.points| && points[..newNumPoints] == c.points && newDir == c.dir
  {
    var newPoint := CollisionSupport(p1, p2, dir);
    if Dot(dir, newPoint) < 0.0 {
      SeparatedWitness(p1, p2, dir);
      return Answer(false), numPoints, dir;
    }
    SupportWitness(p1, p2, dir);
    ghost var previous := points[..numPoints];
    points[numPoints] := newPoint;
    newNumPoints := numPoints + 1;
    assert points[..newNumPoints] == previous + [newPoint];
    CStep(p1, p2, previous, dir, newPoint);
    var contained;
    contained, newNumPoints, newDir := CReduceSimplex(points, newNumPoints, dir);
    if contained {
      return Answer(true), newNumPoints, newDir;
    }
    r := Continue;
  }

  /** make_v3(0, 0, -1): the first search direction. */
  const InitialDirection: Vector3 := Vector3(0.0, 0.0, -1.0)

  /** The set-up of gjk_collision_test: the support point along -z as the
      one-point simplex, and the direction from it towards the origin. */
  method Start(p1: seq<Vector3>, p2: seq<Vector3>) returns (points: array<Vector3>, numPoints: int, dir: Vector3)
    requires |p1| > 0 && |p2| > 0
    ensures fresh(points) && points.Length == 4 && numPoints == 1
    ensures points[0] == Support.Support(p1, p2, InitialDirection).minkowski && dir == Neg(points[0])
    ensures Searching(p1, p2, points[..numPoints], dir)
  {
    var initial := CollisionSupport(p1, p2, InitialDirection);
    SupportWitness(p1, p2, InitialDirection);
    numPoints := 1;
    points := new Vector3[4](i => if i == 0 then initial else Zero);
    dir := Neg(initial);
    assert points[..numPoints] == [initial];
    InitialSearch(p1, p2, initial);
  }

  /** gjk_collision_test with an iteration budget: false only when a
      support point fails to pass the origin, which separates the polygons
      so that their hulls do not meet; true only when the hulls meet. */
  method Collision(p1: seq<Vector3>, p2: seq<Vector3>, fuel: nat) returns (r: Outcome)
    requires |p1| > 0 && |p2| > 0
    ensures r == Decided(false) ==> Separated(p1, p2) && !HullsMeet(p1, p2)
    ensures r == Decided(true) ==> HullsMeet(p1, p2)
  {
    var points, numPoints, dir := Start(p1, p2);
    for iter := 0 to fuel
      invariant 1 <= numPoints <= 3 && Searching(p1, p2, points[..numPoints], dir)
    {
      var round;
      round, numPoints, dir := CIterate(p1, p2, points, numPoints, dir);
      if round == Answer(true) {
        return Decided(true);
      } else if round == Answer(false) {
        SeparatedApart(p1, p2);
        return Decided(false);
      }
    }
    r := OutOfFuel;
  }
}
