/** The simplex stage of gjk.cc: the degenerate-simplex test and the three
    reducers gjk_simplex2, gjk_simplex3 and gjk_simplex4. Each reducer is
    specified by a function on the simplex (oldest point first, newest
    point A last) and implemented in place on the 4-slot point array. */
module GjkSimplex {
  import opened VecMath
  import opened Support
  import opened SimplexGeometry

  // ----------------------------------------------------------------
  // Degenerate simplex test
  // ----------------------------------------------------------------

  /** gjk_check_degenerate_simplex2: B - A is within epsilon of zero. Two
      equal points are always caught, so a passing edge has distinct ends. */
  function CheckDegenerate2(s: seq<SupportPoint>): (r: bool)
    requires |s| == 2
    ensures s[0].minkowski == s[1].minkowski ==> r
  {
    CmpZero(Sub(s[0].minkowski, s[1].minkowski))
  }

  /** gjk_check_degenerate_simplex3: the triangle area 0.5 |AB x AC| is
      within epsilon of zero, written with the squared norm of the cross
      product (0.5 |n| < eps exactly when |n|^2 < 4 eps^2). A triangle of
      zero area is always caught. */
  function CheckDegenerate3(s: seq<SupportPoint>): (r: bool)
    requires |s| == 3
    ensures TriangleNormal(Minkowski(s)) == Zero ==> r
  {
    Norm2(TriangleNormal(Minkowski(s))) < 4.0 * Epsilon2
  }

  /** gjk_check_degenerate_simplex4: the volume (1/6) (AC x AB) . AD is
      within epsilon of zero. A tetrahedron of zero volume is always
      caught. */
  function CheckDegenerate4(s: seq<SupportPoint>): (r: bool)
    requires |s| == 4
    ensures TetrahedronDet(Minkowski(s)) == 0.0 ==> r
  {
    F32CmpZero((1.0 / 6.0) * TetrahedronDet(Minkowski(s)))
  }

  /** gjk_check_degenerate_simplex: dispatch on the simplex size. A simplex
      that passes the test is non-degenerate. */
  function CheckDegenerate(s: seq<SupportPoint>): (r: bool)
    requires 2 <= |s| <= 4
    ensures !r ==> NonDegenerate(Minkowski(s))
  {
    if |s| == 2 then CheckDegenerate2(s)
    else if |s| == 3 then CheckDegenerate3(s)
    else CheckDegenerate4(s)
  }

  /** For a non-negative square root r of |n|^2, the source's area test
      f32_cmp_zero(0.5 r) gives the same answer as the squared test. */
  lemma AreaTestAgrees(n2: real, r: real)
    requires r >= 0.0 && r * r == n2
    ensures F32CmpZero(0.5 * r) <==> n2 < 4.0 * Epsilon2
  {
    if r < 2.0 * Epsilon {
      SquareBelow(r);
    } else {
      SquareAbove(r);
    }
  }

  lemma SquareBelow(r: real)
    requires 0.0 <= r < 2.0 * Epsilon
    ensures r * r < 4.0 * Epsilon2
  {
    assert r * r <= r * 0.002;
  }

  lemma SquareAbove(r: real)
    requires r >= 2.0 * Epsilon
    ensures r * r >= 4.0 * Epsilon2
  {
    assert r * r >= r * 0.002;
  }

  // ----------------------------------------------------------------
  // Reducers as functions
  // ----------------------------------------------------------------

  /** gjk_simplex2 on [B, A]. */
  function Reduce2(s: seq<SupportPoint>): (r: Reduction<SupportPoint>)
    requires |s| == 2
    ensures r.Reduced? && ReducedFrom(s, r.points)
    ensures var ao := Neg(s[1].minkowski);
            var ab := Sub(s[0].minkowski, s[1].minkowski);
            if Dot(ab, ao) > 0.0 then r.points == s && r.dir == TripleCross(ab, ao, ab)
            else r.points == [s[1]] && r.dir == ao
  {
    var ao := Neg(s[1].minkowski);
    var ab := Sub(s[0].minkowski, s[1].minkowski);
    if Dot(ab, ao) > 0.0 then Reduced(s, TripleCross(ab, ao, ab))
    else Reduced([s[1]], ao)
  }

  /** gjk_simplex3 on [C, B, A]: keep the edge or the vertex region of A
      that contains the origin, otherwise the whole triangle, wound so that
      its normal faces the origin. */
  function Reduce3(s: seq<SupportPoint>): (r: Reduction<SupportPoint>)
    requires |s| == 3
    ensures r.Reduced? && ReducedFrom(s, r.points)
    ensures |r.points| == 3 ==> r.dir == TriangleNormal(Minkowski(r.points))
    ensures |r.points| == 3 ==> r.points == s || r.points == [s[1], s[0], s[2]]
  {
    var ao := Neg(s[2].minkowski);
    var ab := Sub(s[1].minkowski, s[2].minkowski);
    var ac := Sub(s[0].minkowski, s[2].minkowski);
    var abc := Cross(ab, ac);
    TriangleSwapNormal(Minkowski(s));
    assert Minkowski([s[1], s[0], s[2]]) == [s[1].minkowski, s[0].minkowski, s[2].minkowski];
    if Dot(Cross(abc, ac), ao) > 0.0 then
      if Dot(ac, ao) > 0.0 then Reduced([s[0], s[2]], TripleCross(ac, ao, ac))
      else Reduced([s[2]], ao)
    else if Dot(Cross(ab, abc), ao) > 0.0 then
      if Dot(ab, ao) > 0.0 then Reduced([s[1], s[2]], TripleCross(ab, ao, ab))
      else Reduced([s[2]], ao)
    else if Dot(abc, ao) > 0.0 then Reduced(s, abc)
    else Reduced([s[1], s[0], s[2]], Neg(abc))
  }

  /** gjk_simplex4 on [D, C, B, A]: report that the origin is enclosed when
      it lies behind the three faces at A, otherwise keep the face, edge or
      vertex region of A in front of which it lies. */
  function Reduce4(s: seq<SupportPoint>): (r: Reduction<SupportPoint>)
    requires |s| == 4
    ensures r.ContainsOrigin? <==> OriginBehindFaces(Minkowski(s))
    ensures r.Reduced? ==> ReducedFrom(s, r.points) && |r.points| <= 3
    ensures r.Reduced? && |r.points| == 3 ==>
              r.dir == TriangleNormal(Minkowski(r.points)) && Dot(r.dir, Neg(s[3].minkowski)) > 0.0
  {
    var ao := Neg(s[3].minkowski);
    var ab := Sub(s[2].minkowski, s[3].minkowski);
    var ac := Sub(s[1].minkowski, s[3].minkowski);
    var ad := Sub(s[0].minkowski, s[3].minkowski);
    var acb := Cross(ab, ac);
    var abd := Cross(ad, ab);
    var adc := Cross(ac, ad);
    assert Minkowski([s[1], s[2], s[3]]) == [s[1].minkowski, s[2].minkowski, s[3].minkowski];
    assert Minkowski([s[2], s[0], s[3]]) == [s[2].minkowski, s[0].minkowski, s[3].minkowski];
    assert Minkowski([s[0], s[1], s[3]]) == [s[0].minkowski, s[1].minkowski, s[3].minkowski];
    if Dot(acb, ao) > 0.0 then
      if Dot(abd, ao) > 0.0 then
        if Dot(ab, ao) > 0.0 then Reduced([s[2], s[3]], TripleCross(ab, ao, ab))
        else Reduced([s[3]], ao)
      else if Dot(adc, ao) > 0.0 then
        if Dot(ac, ao) > 0.0 then Reduced([s[1], s[3]], TripleCross(ac, ao, ac))
        else Reduced([s[3]], ao)
      else Reduced([s[1], s[2], s[3]], acb)
    else if Dot(abd, ao) > 0.0 then
      if Dot(adc, ao) > 0.0 then
        if Dot(ad, ao) > 0.0 then Reduced([s[0], s[3]], TripleCross(ad, ao, ad))
        else Reduced([s[3]], ao)
      else Reduced([s[2], s[0], s[3]], abd)
    else if Dot(adc, ao) > 0.0 then Reduced([s[0], s[1], s[3]], adc)
    else ContainsOrigin
  }

  /** The switch of gjk on the simplex size, as a function. */
  function Reduce(s: seq<SupportPoint>): (r: Reduction<SupportPoint>)
    requires 2 <= |s| <= 4
    ensures r.ContainsOrigin? <==> |s| == 4 && OriginBehindFaces(Minkowski(s))
    ensures r.Reduced? ==> ReducedFrom(s, r.points) && |r.points| <= 3
  {
    if |s| == 2 then Reduce2(s) else if |s| == 3 then Reduce3(s) else Reduce4(s)
  }

  // ----------------------------------------------------------------
  // Reducers in place on the 4-slot point array
  // ----------------------------------------------------------------

  /** gjk_simplex2: points[..2] is [B, A]. */
  method Simplex2(points: array<SupportPoint>, numPoints: int) returns (newNumPoints: int, dir: Vector3)
    requires points.Length == 4 && numPoints == 2
    modifies points
    ensures var r := Reduce2(old(points[..2]));
            newNumPoints == |r.points| && points[..newNumPoints] == r.points && dir == r.dir
    ensures points[newNumPoints..] == old(points[newNumPoints..])
  {
    var ao := Neg(points[1].minkowski);
    var ab := Sub(points[0].minkowski, points[1].minkowski);
    if Dot(ab, ao) > 0.0 {
      newNumPoints := 2;
      dir := TripleCross(ab, ao, ab);
    } else {
      points[0] := points[1];
      newNumPoints := 1;
      dir := ao;
    }
  }

  /** gjk_simplex3: points[..3] is [C, B, A]. */
  method Simplex3(points: array<SupportPoint>, numPoints: int) returns (newNumPoints: int, dir: Vector3)
    requires points.Length == 4 && numPoints == 3
    modifies points
    ensures var r := Reduce3(old(points[..3]));
            newNumPoints == |r.points| && points[..newNumPoints] == r.points && dir == r.dir
    ensures points[newNumPoints..] == old(points[newNumPoints..])
  {
    var ao := Neg(points[2].minkowski);
    var ab := Sub(points[1].minkowski, points[2].minkowski);
    var ac := Sub(points[0].minkowski, points[2].minkowski);
    var abc := Cross(ab, ac);
    var aux := Cross(abc, ac);
    if Dot(aux, ao) > 0.0 {
      if Dot(ac, ao) > 0.0 {
        points[1] := points[2];
        newNumPoints := 2;
        dir := TripleCross(ac, ao, ac);
      } else {
        points[0] := points[2];
        newNumPoints := 1;
        dir := ao;
      }
      return;
    }
    aux := Cross(ab, abc);
    if Dot(aux, ao) > 0.0 {
      if Dot(ab, ao) > 0.0 {
        points[0] := points[1];
        points[1] := points[2];
        newNumPoints := 2;
        dir := TripleCross(ab, ao, ab);
      } else {
        points[0] := points[2];
        newNumPoints := 1;
        dir := ao;
      }
      return;
    }
    newNumPoints := 3;
    if Dot(abc, ao) > 0.0 {
      dir := abc;
    } else {
      var tmp := points[0];
      points[0] := points[1];
      points[1] := tmp;
      dir := Neg(abc);
    }
  }

  /** gjk_simplex4: points[..4] is [D, C, B, A]; returns true, leaving the
      array, the count and the direction as they were, when the origin is
      enclosed. */
  method Simplex4(points: array<SupportPoint>, numPoints: int, dir: Vector3)
    returns (contained: bool, newNumPoints: int, newDir: Vector3)
    requires points.Length == 4 && numPoints == 4
    modifies points
    ensures var r := Reduce4(old(points[..4]));
            contained <==> r.ContainsOrigin?
    ensures contained ==> newNumPoints == 4 && newDir == dir && points[..] == old(points[..])
    ensures !contained ==>
              var r := Reduce4(old(points[..4]));
              newNumPoints == |r.points| && points[..newNumPoints] == r.points && newDir == r.dir
    ensures points[newNumPoints..] == old(points[newNumPoints..])
  {
    var ao := Neg(points[3].minkowski);
    var ab := Sub(points[2].minkowski, points[3].minkowski);
    var ac := Sub(points[1].minkowski, points[3].minkowski);
    var ad := Sub(points[0].minkowski, points[3].minkowski);
    var acb := Cross(ab, ac);
    var abd := Cross(ad, ab);
    var adc := Cross(ac, ad);
    contained := false;
    if Dot(acb, ao) > 0.0 {
      if Dot(abd, ao) > 0.0 {
        if Dot(ab, ao) > 0.0 {
          points[0] := points[2];
          points[1] := points[3];
          newNumPoints := 2;
          newDir := TripleCross(ab, ao, ab);
        } else {
          points[0] := points[3];
          newNumPoints := 1;
          newDir := ao;
        }
      } else if Dot(adc, ao) > 0.0 {
        if Dot(ac, ao) > 0.0 {
          points[0] := points[1];
          points[1] := points[3];
          newNumPoints := 2;
          newDir := TripleCross(ac, ao, ac);
        } else {
          points[0] := points[3];
          newNumPoints := 1;
          newDir := ao;
        }
      } else {
        points[0] := points[1];
        points[1] := points[2];
        points[2] := points[3];
        newNumPoints := 3;
        newDir := acb;
      }
      return;
    }
    if Dot(abd, ao) > 0.0 {
      if Dot(adc, ao) > 0.0 {
        if Dot(ad, ao) > 0.0 {
          points[1] := points[3];
          newNumPoints := 2;
          newDir := TripleCross(ad, ao, ad);
        } else {
          points[0] := points[3];
          newNumPoints := 1;
          newDir := ao;
        }
      } else {
        var tmp := points[0];
        points[0] := points[2];
        points[1] := tmp;
        points[2] := points[3];
        newNumPoints := 3;
        newDir := abd;
      }
      return;
    }
    if Dot(adc, ao) > 0.0 {
      points[2] := points[3];
      newNumPoints := 3;
      newDir := adc;
      return;
    }
    contained := true;
    newNumPoints := numPoints;
    newDir := dir;
  }

  // ----------------------------------------------------------------
  // What the reductions preserve
  // ----------------------------------------------------------------

  /** The next direction of gjk_simplex2 leaves the reduced simplex towards
      the origin. */
  lemma Reduce2TowardOrigin(s: seq<SupportPoint>)
    requires |s| == 2
    ensures TowardOrigin(Minkowski(Reduce2(s).points), Reduce2(s).dir)
  {
    EdgeDirection(Sub(s[0].minkowski, s[1].minkowski), Neg(s[1].minkowski));
  }

  lemma Reduce3TowardOrigin(s: seq<SupportPoint>)
    requires |s| == 3
    ensures TowardOrigin(Minkowski(Reduce3(s).points), Reduce3(s).dir)
  {
    var ao := Neg(s[2].minkowski);
    var ab := Sub(s[1].minkowski, s[2].minkowski);
    var ac := Sub(s[0].minkowski, s[2].minkowski);
    EdgeDirection(ab, ao);
    EdgeDirection(ac, ao);
    DotNeg(Cross(ab, ac), ao);
  }

  lemma Reduce4TowardOrigin(s: seq<SupportPoint>)
    requires |s| == 4 && Reduce4(s).Reduced?
    ensures TowardOrigin(Minkowski(Reduce4(s).points), Reduce4(s).dir)
  {
    var ao := Neg(s[3].minkowski);
    EdgeDirection(Sub(s[2].minkowski, s[3].minkowski), ao);
    EdgeDirection(Sub(s[1].minkowski, s[3].minkowski), ao);
    EdgeDirection(Sub(s[0].minkowski, s[3].minkowski), ao);
  }

  /** Reducing a non-degenerate simplex leaves a non-degenerate simplex. */
  lemma Reduce2NonDegenerate(s: seq<SupportPoint>)
    requires |s| == 2 && NonDegenerate(Minkowski(s))
    ensures NonDegenerate(Minkowski(Reduce2(s).points))
  {
  }

  lemma Reduce3NonDegenerate(s: seq<SupportPoint>)
    requires |s| == 3 && NonDegenerate(Minkowski(s))
    ensures NonDegenerate(Minkowski(Reduce3(s).points))
  {
    TriangleEdgesNonDegenerate(Minkowski(s));
    TriangleSwapNormal(Minkowski(s));
  }

  lemma Reduce4NonDegenerate(s: seq<SupportPoint>)
    requires |s| == 4 && NonDegenerate(Minkowski(s)) && Reduce4(s).Reduced?
    ensures NonDegenerate(Minkowski(Reduce4(s).points))
  {
    TetrahedronFacesNonDegenerate(Minkowski(s));
  }
}
