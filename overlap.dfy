/** What the answers of gjk and gjk_collision_test mean for the two
    polygons: their convex hulls share a point, or a direction separates
    them. */
module Overlap {
  import opened VecMath
  import opened Support
  import opened Enclosure

  /** Four vertices of each polygon, listed slot by slot. */
  predicate Corners(p1: seq<Vector3>, p2: seq<Vector3>, q1: seq<Vector3>, q2: seq<Vector3>) {
    |q1| == 4 && |q2| == 4 && forall k :: 0 <= k < 4 ==> q1[k] in p1 && q2[k] in p2
  }

  /** The convex hulls of the two vertex lists share a point: the same
      convex weights on four vertices of each give the same point. This is
      the origin lying in the convex hull of the vertex differences, that
      is of the Minkowski difference. */
  ghost predicate HullsMeet(p1: seq<Vector3>, p2: seq<Vector3>) {
    exists q1, q2, w :: Corners(p1, p2, q1, q2) && Convex(w) && Combine(w, q1) == Combine(w, q2)
  }

  /** d separates the polygons: every vertex difference p1[i] - p2[j],
      and so every point of the Minkowski difference, lies strictly behind
      the origin along d. */
  predicate SeparatingAxisOf(p1: seq<Vector3>, p2: seq<Vector3>, d: Vector3) {
    forall i, j :: 0 <= i < |p1| && 0 <= j < |p2| ==> Dot(d, Sub(p1[i], p2[j])) < 0.0
  }

  /** The slot-by-slot differences of two four-point lists. */
  function Differences(q1: seq<Vector3>, q2: seq<Vector3>): (e: seq<Vector3>)
    requires |q1| == 4 && |q2| == 4
    ensures |e| == 4 && forall k :: 0 <= k < 4 ==> e[k] == Sub(q1[k], q2[k])
  {
    [Sub(q1[0], q2[0]), Sub(q1[1], q2[1]), Sub(q1[2], q2[2]), Sub(q1[3], q2[3])]
  }

  /** Combining differences is the difference of the combinations. */
  lemma CombineDifferences(w: Weights, q1: seq<Vector3>, q2: seq<Vector3>)
    requires |q1| == 4 && |q2| == 4
    ensures Combine(w, Differences(q1, q2)) == Sub(Combine(w, q1), Combine(w, q2))
  {
    assert q1 == [q1[0], q1[1], q1[2], q1[3]] && q2 == [q2[0], q2[1], q2[2], q2[3]];
    CombineDifferencesOf(w, q1[0], q1[1], q1[2], q1[3], q2[0], q2[1], q2[2], q2[3]);
  }

  lemma CombineDifferencesOf(w: Weights, a0: Vector3, a1: Vector3, a2: Vector3, a3: Vector3,
                             b0: Vector3, b1: Vector3, b2: Vector3, b3: Vector3)
    ensures Combine(w, [Sub(a0, b0), Sub(a1, b1), Sub(a2, b2), Sub(a3, b3)])
      == Sub(Combine(w, [a0, a1, a2, a3]), Combine(w, [b0, b1, b2, b3]))
  {
    ScaleSub(w.w0, a0, b0);
    ScaleSub(w.w1, a1, b1);
    ScaleSub(w.w2, a2, b2);
    ScaleSub(w.w3, a3, b3);
  }

  /** The dot product with a combination is the combination of the dot
      products. */
  lemma DotCombine(d: Vector3, w: Weights, e: seq<Vector3>)
    requires |e| == 4
    ensures Dot(d, Combine(w, e))
      == w.w0 * Dot(d, e[0]) + w.w1 * Dot(d, e[1]) + w.w2 * Dot(d, e[2]) + w.w3 * Dot(d, e[3])
  {
  }

  /** A convex combination of negative numbers is negative. */
  lemma ConvexNegative(w: Weights, x0: real, x1: real, x2: real, x3: real)
    requires Convex(w) && x0 < 0.0 && x1 < 0.0 && x2 < 0.0 && x3 < 0.0
    ensures w.w0 * x0 + w.w1 * x1 + w.w2 * x2 + w.w3 * x3 < 0.0
  {
    assert w.w0 * x0 <= 0.0 && w.w1 * x1 <= 0.0 && w.w2 * x2 <= 0.0 && w.w3 * x3 <= 0.0;
    if w.w0 > 0.0 {
      assert w.w0 * x0 < 0.0;
    } else if w.w1 > 0.0 {
      assert w.w1 * x1 < 0.0;
    } else if w.w2 > 0.0 {
      assert w.w2 * x2 < 0.0;
    } else {
      assert w.w3 * x3 < 0.0;
    }
  }

  /** A separating axis rules out a shared point: along d every vertex
      difference is negative, so every convex combination of them is too,
      and none is the origin. */
  lemma SeparatedHullsDoNotMeet(p1: seq<Vector3>, p2: seq<Vector3>, d: Vector3)
    requires SeparatingAxisOf(p1, p2, d)
    ensures !HullsMeet(p1, p2)
  {
    forall q1, q2, w | Corners(p1, p2, q1, q2) && Convex(w)
      ensures Combine(w, q1) != Combine(w, q2)
    {
      SeparatedCombination(p1, p2, d, q1, q2, w);
    }
  }

  /** One pair of convex combinations under a separating axis: their
      difference has a negative dot product with d. */
  lemma SeparatedCombination(p1: seq<Vector3>, p2: seq<Vector3>, d: Vector3,
                             q1: seq<Vector3>, q2: seq<Vector3>, w: Weights)
    requires SeparatingAxisOf(p1, p2, d) && Corners(p1, p2, q1, q2) && Convex(w)
    ensures Dot(d, Sub(Combine(w, q1), Combine(w, q2))) < 0.0
    ensures Combine(w, q1) != Combine(w, q2)
  {
    var e := Differences(q1, q2);
    forall k | 0 <= k < 4
      ensures Dot(d, e[k]) < 0.0
    {
      var i :| 0 <= i < |p1| && p1[i] == q1[k];
      var j :| 0 <= j < |p2| && p2[j] == q2[k];
    }
    DotCombine(d, w, e);
    ConvexNegative(w, Dot(d, e[0]), Dot(d, e[1]), Dot(d, e[2]), Dot(d, e[3]));
    CombineDifferences(w, q1, q2);
    EqualIffDifferenceZero(Combine(w, q1), Combine(w, q2));
    assert Dot(d, Zero) == 0.0;
  }

  /** Support points that come from the polygons. */
  predicate FromPolygons(p1: seq<Vector3>, p2: seq<Vector3>, p: SupportPoint) {
    p.polygon1 in p1 && p.polygon2 in p2 && Consistent(p)
  }

  /** A support point lies no further along dir than the support point the
      support function returns for dir. */
  lemma SupportBeyond(p1: seq<Vector3>, p2: seq<Vector3>, dir: Vector3, q: SupportPoint)
    requires |p1| > 0 && |p2| > 0 && FromPolygons(p1, p2, q)
    ensures Dot(q.minkowski, dir) <= Dot(Support.Support(p1, p2, dir).minkowski, dir)
  {
    var i :| 0 <= i < |p1| && p1[i] == q.polygon1;
    var j :| 0 <= j < |p2| && p2[j] == q.polygon2;
    SupportIsExtreme(p1, p2, dir, i, j);
  }

  /** A simplex of support points from the polygons whose Minkowski points
      hold the origin in their convex hull shows that the hulls meet. */
  lemma MeetFromHull(p1: seq<Vector3>, p2: seq<Vector3>, s: seq<SupportPoint>)
    requires 1 <= |s| <= 4 && forall k :: 0 <= k < |s| ==> FromPolygons(p1, p2, s[k])
    requires OriginInHull(Minkowski(s))
    ensures HullsMeet(p1, p2)
  {
    var w :| Convex(w) && Combine(w, Pad(Minkowski(s))) == Zero;
    var u := Pad(s);
    PaddedSources(p1, p2, s);
    var q1 := [u[0].polygon1, u[1].polygon1, u[2].polygon1, u[3].polygon1];
    var q2 := [u[0].polygon2, u[1].polygon2, u[2].polygon2, u[3].polygon2];
    assert Corners(p1, p2, q1, q2);
    assert Differences(q1, q2) == Pad(Minkowski(s));
    CombineDifferences(w, q1, q2);
    EqualIffDifferenceZero(Combine(w, q1), Combine(w, q2));
  }

  /** Padding keeps the points from the polygons, and padding commutes with
      taking the Minkowski points. */
  lemma PaddedSources(p1: seq<Vector3>, p2: seq<Vector3>, s: seq<SupportPoint>)
    requires 1 <= |s| <= 4 && forall k :: 0 <= k < |s| ==> FromPolygons(p1, p2, s[k])
    ensures forall k :: 0 <= k < 4 ==> FromPolygons(p1, p2, Pad(s)[k])
    ensures forall k :: 0 <= k < 4 ==> Pad(Minkowski(s))[k] == Pad(s)[k].minkowski
  {
    var u, m := Pad(s), Pad(Minkowski(s));
    forall k | 0 <= k < 4
      ensures FromPolygons(p1, p2, u[k]) && m[k] == u[k].minkowski
    {
      if k < |s| {
        assert u[k] == u[..|s|][k] == s[k];
        assert m[k] == m[..|s|][k] == Minkowski(s)[k];
      }
    }
  }
}
