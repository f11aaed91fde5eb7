/** The driver gjk of gjk.cc: the bounded iteration that grows the simplex
    with support points, stops when no progress is made, and builds the
    result. */
module Gjk {
  import opened VecMath
  import opened Support
  import opened SimplexGeometry
  import opened GjkSimplex
  import opened GjkResult
  import opened Enclosure
  import opened Overlap

  /** make_v3(0, 0, -1): the first search direction. */
  const InitialDirection: Vector3 := Vector3(0.0, 0.0, -1.0)

  /** gjk's iteration cap. */
  const MaxIterations: int := 16

  /** A simplex made of support points of the two polygons. */
  predicate SimplexOf(p1: seq<Vector3>, p2: seq<Vector3>, s: seq<SupportPoint>) {
    forall i :: 0 <= i < |s| ==> FromPolygons(p1, p2, s[i])
  }

  /** Some support point lies within epsilon of the origin. */
  ghost predicate SupportTouchesOrigin(p1: seq<Vector3>, p2: seq<Vector3>)
    requires |p1| > 0 && |p2| > 0
  {
    exists d :: CmpZero(Support.Support(p1, p2, d).minkowski)
  }

  /** The result is that of gjk_no_overlap_result on a non-degenerate
      simplex of 1 to 3 support points, reached with a search direction
      that leaves it towards the origin. */
  ghost predicate FinalSimplexResult(p1: seq<Vector3>, p2: seq<Vector3>, r: GjkResult) {
    exists s, d :: ValidSimplex(p1, p2, s) && TowardOrigin(Minkowski(s), d) && r == NoOverlapResult(s)
  }

  lemma TouchWitness(p1: seq<Vector3>, p2: seq<Vector3>, d: Vector3)
    requires |p1| > 0 && |p2| > 0 && CmpZero(Support.Support(p1, p2, d).minkowski)
    ensures SupportTouchesOrigin(p1, p2)
  {
  }

  lemma FinalWitness(p1: seq<Vector3>, p2: seq<Vector3>, s: seq<SupportPoint>, d: Vector3)
    requires ValidSimplex(p1, p2, s) && TowardOrigin(Minkowski(s), d)
    ensures FinalSimplexResult(p1, p2, NoOverlapResult(s))
  {
  }

  /** The tetrahedron test of gjk is sound: a triangle of support points
      whose normal dir faces the origin, extended by the support point for
      dir into a tetrahedron of non-zero volume with the origin behind its
      three faces at the new point, shows that the hulls of the polygons
      meet. The new point lies at least as far along dir as the triangle
      (it is the support point), so the apex is beyond the base and the
      origin lies between the base and the three other faces. */
  lemma GjkEnclosure(p1: seq<Vector3>, p2: seq<Vector3>, s: seq<SupportPoint>, dir: Vector3)
    requires |p1| > 0 && |p2| > 0 && |s| == 3 && SimplexOf(p1, p2, s)
    requires TowardOrigin(Minkowski(s), dir)
    requires NonDegenerate(Minkowski(s + [Support.Support(p1, p2, dir)]))
    requires OriginBehindFaces(Minkowski(s + [Support.Support(p1, p2, dir)]))
    ensures HullsMeet(p1, p2)
  {
    var u := s + [Support.Support(p1, p2, dir)];
    var t := Minkowski(u);
    assert t[..3] == Minkowski(s);
    SupportBeyond(p1, p2, dir, s[2]);
    TetrahedronDetOverBase(t);
    DotSub(t[3], t[2], dir);
    DotCommutes(dir, Sub(t[3], t[2]));
    var w := TetrahedronWeights(t);
    HullWitness(t, w);
    assert forall k :: 0 <= k < 4 ==> FromPolygons(p1, p2, u[k]);
    MeetFromHull(p1, p2, u);
  }

  /** The distance gjk_distance3 returns for the final triangle, scaled by
      the length of the triangle normal, is not negative, and its square is
      |separation|^2 |n|^2: the returned distance is |separation|. */
  lemma FinalDistance(s: seq<SupportPoint>, d: Vector3)
    requires |s| == 3 && NonDegenerate(Minkowski(s)) && TowardOrigin(Minkowski(s), d)
    ensures ScaledDistance3(s) >= 0.0
    ensures ScaledDistance3(s) * ScaledDistance3(s)
            == Norm2(NoOverlapResult(s).separation) * Norm2(TriangleNormal(Minkowski(s)))
  {
    DotCommutes(d, Neg(s[2].minkowski));
    Distance3Magnitude(s);
  }

  /** Reductions keep a simplex made of support points. */
  lemma SimplexOfReduced(p1: seq<Vector3>, p2: seq<Vector3>, s: seq<SupportPoint>, t: seq<SupportPoint>)
    requires SimplexOf(p1, p2, s) && ReducedFrom(s, t)
    ensures SimplexOf(p1, p2, t)
  {
    forall i | 0 <= i < |t|
      ensures FromPolygons(p1, p2, t[i])
    {
      assert t[i] in s;
    }
  }

  /** The search of gjk for a simplex point whose Minkowski point equals
      the new support point exactly. */
  method FindMinkowski(points: array<SupportPoint>, numPoints: int, v: Vector3) returns (found: bool)
    requires 0 <= numPoints <= points.Length
    ensures found <==> exists i :: 0 <= i < numPoints && points[i].minkowski == v
  {
    found := false;
    var i := 0;
    while i < numPoints
      invariant 0 <= i <= numPoints
      invariant forall j :: 0 <= j < i ==> points[j].minkowski != v
    {
      if v == points[i].minkowski {
        found := true;
        return;
      }
      i := i + 1;
    }
  }

  /** Appends p after the current simplex. */
  method Push(points: array<SupportPoint>, numPoints: int, p: SupportPoint) returns (newNumPoints: int)
    requires 0 <= numPoints < points.Length
    modifies points
    ensures newNumPoints == numPoints + 1
    ensures points[..newNumPoints] == old(points[..numPoints]) + [p]
    ensures points[newNumPoints..] == old(points[newNumPoints..])
  {
    points[numPoints] := p;
    newNumPoints := numPoints + 1;
    assert points[..newNumPoints] == old(points[..numPoints]) + [p];
  }

  /** The switch of gjk on the simplex size after an insertion: the
      reducer for that size, on a simplex that passed the degenerate test. */
  method ReduceSimplex(points: array<SupportPoint>, numPoints: int, dir: Vector3)
    returns (contained: bool, newNumPoints: int, newDir: Vector3)
    requires points.Length == 4 && 2 <= numPoints <= 4
    requires NonDegenerate(Minkowski(points[..numPoints]))
    modifies points
    ensures contained <==> numPoints == 4 && OriginBehindFaces(Minkowski(old(points[..4])))
    ensures var r := Reduce(old(points[..numPoints]));
            (contained <==> r.ContainsOrigin?)
            && (contained ==> newNumPoints == 4 && newDir == dir && points[..] == old(points[..]))
            && (!contained ==> newNumPoints == |r.points| && points[..newNumPoints] == r.points && newDir == r.dir)
    ensures 1 <= newNumPoints <= 4 && points[newNumPoints..] == old(points[newNumPoints..])
    ensures !contained ==>
              1 <= newNumPoints <= 3 && ReducedFrom(old(points[..numPoints]), points[..newNumPoints])
              && NonDegenerate(Minkowski(points[..newNumPoints]))
              && TowardOrigin(Minkowski(points[..newNumPoints]), newDir)
  {
    ghost var s := points[..numPoints];
    contained := false;
    if numPoints == 2 {
      newNumPoints, newDir := Simplex2(points, numPoints);
      Reduce2NonDegenerate(s);
      Reduce2TowardOrigin(s);
    } else if numPoints == 3 {
      newNumPoints, newDir := Simplex3(points, numPoints);
      Reduce3NonDegenerate(s);
      Reduce3TowardOrigin(s);
    } else {
      contained, newNumPoints, newDir := Simplex4(points, numPoints, dir);
      if !contained {
        Reduce4NonDegenerate(s);
        Reduce4TowardOrigin(s);
      }
    }
  }

  /** A simplex gjk may hold between iterations. */
  predicate ValidSimplex(p1: seq<Vector3>, p2: seq<Vector3>, s: seq<SupportPoint>) {
    1 <= |s| <= 3 && SimplexOf(p1, p2, s) && NonDegenerate(Minkowski(s))
  }

  /** How an iteration of gjk ends: on to the next iteration, to
      no_overlap_result (no progress), or with an overlap. */
  datatype Step = Continue | NoProgress | Overlap

  /** What an iteration of gjk does with a support point next that is
      neither near the origin nor already a point of the simplex s: an
      insertion that makes the simplex degenerate is undone with no
      progress, a containment is an overlap, and otherwise the simplex
      becomes the reduction of s + [next] with its direction. a is the
      slot array afterwards, n the count and d the direction. */
  predicate Extended(s: seq<SupportPoint>, next: SupportPoint, step: Step,
                     a: seq<SupportPoint>, n: int, d: Vector3)
    requires 1 <= |s| <= 3
  {
    var u := s + [next];
    if CheckDegenerate(u) then
      step.NoProgress? && n == |s| && n <= |a| && a[..n] == s
    else if Reduce(u).ContainsOrigin? then
      step.Overlap?
    else
      step.Continue? && n == |Reduce(u).points| && n <= |a| && a[..n] == Reduce(u).points && d == Reduce(u).dir
  }

  /** The part of an iteration of gjk after the duplicate search: insert
      the new point, drop it again if the simplex became degenerate, and
      otherwise reduce the simplex. */
  method Extend(ghost p1: seq<Vector3>, ghost p2: seq<Vector3>, points: array<SupportPoint>,
                numPoints: int, next: SupportPoint, dir: Vector3)
    returns (step: Step, newNumPoints: int, newDir: Vector3)
    requires |p1| > 0 && |p2| > 0 && next == Support.Support(p1, p2, dir)
    requires points.Length == 4 && 1 <= numPoints <= 3
    requires ValidSimplex(p1, p2, points[..numPoints]) && TowardOrigin(Minkowski(points[..numPoints]), dir)
    modifies points
    ensures step.Overlap? ==> HullsMeet(p1, p2)
    ensures !step.Overlap? ==>
              1 <= newNumPoints <= 3 && ValidSimplex(p1, p2, points[..newNumPoints])
              && TowardOrigin(Minkowski(points[..newNumPoints]), newDir)
    ensures Extended(old(points[..numPoints]), next, step, points[..], newNumPoints, newDir)
    ensures step.NoProgress? ==> newNumPoints == numPoints && newDir == dir
  {
    ghost var previous := points[..numPoints];
    newNumPoints := Push(points, numPoints, next);
    newDir := dir;

    if CheckDegenerate(points[..newNumPoints]) {
      newNumPoints := newNumPoints - 1;
      assert points[..newNumPoints] == previous;
      return NoProgress, newNumPoints, newDir;
    }

    ghost var s := points[..newNumPoints];
    assert SimplexOf(p1, p2, s);
    var contained;
    contained, newNumPoints, newDir := ReduceSimplex(points, newNumPoints, dir);
    if contained {
      GjkEnclosure(p1, p2, previous, dir);
      return Overlap, newNumPoints, newDir;
    }
    SimplexOfReduced(p1, p2, s, points[..newNumPoints]);
    step := Continue;
  }

  /** One iteration of the loop of gjk. */
  method Iterate(p1: seq<Vector3>, p2: seq<Vector3>, points: array<SupportPoint>,
                 numPoints: int, dir: Vector3)
    returns (step: Step, newNumPoints: int, newDir: Vector3)
    requires |p1| > 0 && |p2| > 0
    requires points.Length == 4 && 1 <= numPoints <= 3 && ValidSimplex(p1, p2, points[..numPoints])
    requires TowardOrigin(Minkowski(points[..numPoints]), dir)
    modifies points
    ensures CmpZero(Support.Support(p1, p2, dir).minkowski) ==> step.Overlap?
    ensures step.Overlap? ==> SupportTouchesOrigin(p1, p2) || HullsMeet(p1, p2)
    ensures !step.Overlap? ==>
              1 <= newNumPoints <= 3 && ValidSimplex(p1, p2, points[..newNumPoints])
              && TowardOrigin(Minkowski(points[..newNumPoints]), newDir)
    ensures var next := Support.Support(p1, p2, dir);
            !CmpZero(next.minkowski) && next.minkowski in Minkowski(old(points[..numPoints])) ==>
              step.NoProgress? && newNumPoints == numPoints && newDir == dir && points[..] == old(points[..])
    ensures var next := Support.Support(p1, p2, dir);
            !CmpZero(next.minkowski) && next.minkowski !in Minkowski(old(points[..numPoints])) ==>
              Extended(old(points[..numPoints]), next, step, points[..], newNumPoints, newDir)
  {
    var next := PolygonSupport(p1, p2, dir);
    if CmpZero(next.minkowski) {
      TouchWitness(p1, p2, dir);
      return Overlap, numPoints, dir;
    }

    var seen := FindMinkowski(points, numPoints, next.minkowski);
    if seen {
      return NoProgress, numPoints, dir;
    }

    step, newNumPoints, newDir := Extend(p1, p2, points, numPoints, next, dir);
  }

  /** gjk: overlap is reported only when a support point lies within
      epsilon of the origin or the convex hulls of the polygons share a
      point; otherwise the result is built from the final simplex. */
  method Gjk(p1: seq<Vector3>, p2: seq<Vector3>) returns (r: GjkResult)
    requires |p1| > 0 && |p2| > 0
    ensures CmpZero(Support.Support(p1, p2, InitialDirection).minkowski) ==> r == OverlapResult()
    ensures r.overlap ==>
              r == OverlapResult()
              && (SupportTouchesOrigin(p1, p2) || HullsMeet(p1, p2))
    ensures !r.overlap ==> FinalSimplexResult(p1, p2, r)
  {
    var initial := PolygonSupport(p1, p2, InitialDirection);
    var direction := Neg(initial.minkowski);
    var numPoints := 1;
    var points := new SupportPoint[4](i => if i == 0 then initial else ZeroPoint);

    if CmpZero(initial.minkowski) {
      TouchWitness(p1, p2, InitialDirection);
      return OverlapResult();
    }

    assert points[..numPoints] == [initial];
    for iter := 0 to MaxIterations
      invariant 1 <= numPoints <= 3 && ValidSimplex(p1, p2, points[..numPoints])
      invariant TowardOrigin(Minkowski(points[..numPoints]), direction)
    {
      var step;
      step, numPoints, direction := Iterate(p1, p2, points, numPoints, direction);
      if step.Overlap? {
        return OverlapResult();
      } else if step.NoProgress? {
        break;
      }
    }

    FinalWitness(p1, p2, points[..numPoints], direction);
    r := NoOverlapResult(points[..numPoints]);
  }
}
