/** Geometry of the simplices GJK builds on the Minkowski difference: the
    simplex points are listed oldest first, so the newest point A is last. */
module SimplexGeometry {
  import opened VecMath

  /** The outcome of one simplex reduction step: the reduced simplex and
      the next search direction, or the report that the origin is enclosed. */
  datatype Reduction<P> = Reduced(points: seq<P>, dir: Vector3) | ContainsOrigin

  /** Every point of the reduced simplex is one of the input points, the
      newest input point stays last, and the size does not grow. */
  predicate ReducedFrom<P(==)>(s: seq<P>, t: seq<P>) {
    1 <= |t| <= |s| && t[|t| - 1] == s[|s| - 1] && forall p :: p in t ==> p in s
  }

  /** The normal Cross(AB, AC) of a triangle [C, B, A]. */
  function TriangleNormal(t: seq<Vector3>): Vector3
    requires |t| == 3
  {
    Cross(Sub(t[1], t[2]), Sub(t[0], t[2]))
  }

  /** Six times the signed volume of a tetrahedron [D, C, B, A], in the form
      the degenerate test computes it: (AC x AB) . AD. */
  function TetrahedronDet(t: seq<Vector3>): real
    requires |t| == 4
  {
    Det(Sub(t[1], t[3]), Sub(t[2], t[3]), Sub(t[0], t[3]))
  }

  /** A simplex of one to four affinely independent points: two distinct
      points, a triangle of non-zero area, a tetrahedron of non-zero volume. */
  predicate NonDegenerate(t: seq<Vector3>) {
    if |t| == 1 then true
    else if |t| == 2 then t[0] != t[1]
    else if |t| == 3 then TriangleNormal(t) != Zero
    else if |t| == 4 then TetrahedronDet(t) != 0.0
    else false
  }

  /** The three face tests of the tetrahedron [D, C, B, A]: the origin is
      not in front of any of the faces ACB, ABD and ADC that meet at A. */
  predicate OriginBehindFaces(t: seq<Vector3>)
    requires |t| == 4
  {
    var ao := Neg(t[3]);
    var ab := Sub(t[2], t[3]);
    var ac := Sub(t[1], t[3]);
    var ad := Sub(t[0], t[3]);
    Dot(Cross(ab, ac), ao) <= 0.0 && Dot(Cross(ad, ab), ao) <= 0.0 && Dot(Cross(ac, ad), ao) <= 0.0
  }

  /** The search direction leaves the simplex towards the origin: from a
      point it is AO, from an edge it is perpendicular to the edge and on the
      side of the origin, from a triangle it is the triangle normal on the
      side of the origin. */
  predicate TowardOrigin(t: seq<Vector3>, dir: Vector3) {
    if |t| == 1 then dir == Neg(t[0])
    else if |t| == 2 then Dot(dir, Sub(t[0], t[1])) == 0.0 && Dot(dir, Neg(t[1])) >= 0.0
    else if |t| == 3 then dir == TriangleNormal(t) && Dot(dir, Neg(t[2])) >= 0.0
    else false
  }

  /** The edge direction AB x AO x AB of the reducers is perpendicular to AB
      and does not point away from the origin. */
  lemma EdgeDirection(ab: Vector3, ao: Vector3)
    ensures Dot(TripleCross(ab, ao, ab), ab) == 0.0
    ensures Dot(TripleCross(ab, ao, ab), ao) >= 0.0
  {
    var n := Cross(ab, ao);
    CrossOrthogonal(n, ab);
    DetCyclic(n, ab, ao);
    Norm2Positive(n);
  }

  /** The edge [C, A] or [B, A] of a triangle of non-zero area has distinct
      ends, and so does the edge [C, B]. */
  lemma TriangleEdgesNonDegenerate(t: seq<Vector3>)
    requires |t| == 3 && TriangleNormal(t) != Zero
    ensures t[0] != t[2] && t[1] != t[2] && t[0] != t[1]
  {
  }

  /** Swapping B and C reverses the triangle normal. */
  lemma TriangleSwapNormal(t: seq<Vector3>)
    requires |t| == 3
    ensures TriangleNormal([t[1], t[0], t[2]]) == Neg(TriangleNormal(t))
  {
    CrossAntiCommutes(Sub(t[1], t[2]), Sub(t[0], t[2]));
  }

  /** Every face of a tetrahedron of non-zero volume has non-zero area, and
      every edge at A has distinct ends. */
  lemma TetrahedronFacesNonDegenerate(t: seq<Vector3>)
    requires |t| == 4 && TetrahedronDet(t) != 0.0
    ensures TriangleNormal([t[1], t[2], t[3]]) != Zero
    ensures TriangleNormal([t[2], t[0], t[3]]) != Zero
    ensures TriangleNormal([t[0], t[1], t[3]]) != Zero
    ensures t[0] != t[3] && t[1] != t[3] && t[2] != t[3]
  {
    var ab := Sub(t[2], t[3]);
    var ac := Sub(t[1], t[3]);
    var ad := Sub(t[0], t[3]);
    assert TriangleNormal([t[1], t[2], t[3]]) == Cross(ab, ac);
    assert TriangleNormal([t[2], t[0], t[3]]) == Cross(ad, ab);
    assert TriangleNormal([t[0], t[1], t[3]]) == Cross(ac, ad);
    CrossAntiCommutes(ab, ac);
    CrossAntiCommutes(ad, ab);
    DetCyclic(ac, ab, ad);
    DetSwaps(ac, ab, ad);
  }
}
