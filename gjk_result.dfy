/** The result of gjk in gjk.cc: gjk_overlap_result, the closest-point
    interpolation of gjk_distance1/2/3 and gjk_no_overlap_result. */
module GjkResult {
  import opened VecMath
  import opened Support
  import opened SimplexGeometry

  /** GJK_Result. The f32 distance is replaced by the separation vector:
      the point of the final simplex closest to the origin, whose length is
      the distance. The feature arrays points1[3]/points2[3] with their
      counts become sequences. */
  datatype GjkResult = GjkResult(
    overlap: bool,
    separation: Vector3,
    closest1: Vector3,
    closest2: Vector3,
    points1: seq<Vector3>,
    points2: seq<Vector3>)

  /** The closest points produced by gjk_distance1/2/3. */
  datatype Closest = Closest(separation: Vector3, closest1: Vector3, closest2: Vector3)

  /** gjk_overlap_result: a zero-initialised result with overlap set. */
  function OverlapResult(): (r: GjkResult)
    ensures r.overlap && r.points1 == [] && r.points2 == []
  {
    GjkResult(true, Zero, Zero, Zero, [], [])
  }

  // ----------------------------------------------------------------
  // Closest points
  // ----------------------------------------------------------------

  /** gjk_distance1: the closest points are the sources of A. */
  function Distance1(a: SupportPoint): (r: Closest)
    ensures r.separation == a.minkowski
    ensures r.closest1 == a.polygon1 && r.closest2 == a.polygon2
    ensures Consistent(a) ==> Sub(r.closest1, r.closest2) == r.separation
  {
    Closest(a.minkowski, a.polygon1, a.polygon2)
  }

  /** (x / n) n == x for non-zero n. */
  lemma DivideThenMultiply(x: real, n: real)
    requires n != 0.0
    ensures (x / n) * n == x
  {
  }

  /** The point u + k (v - u) of the line through u and v: it is on that
      line, at u for k == 0 and at v for k == 1. */
  function Lerp(u: Vector3, v: Vector3, k: real): (r: Vector3)
    ensures Cross(Sub(r, u), Sub(v, u)) == Zero
    ensures k == 0.0 ==> r == u
    ensures k == 1.0 ==> r == v
  {
    assert Sub(Add(u, Scale(k, Sub(v, u))), u) == Scale(k, Sub(v, u));
    CrossScaled(k, Sub(v, u));
    Add(u, Scale(k, Sub(v, u)))
  }

  /** The parameter (AO . AB) / |AB|^2 of the foot of the perpendicular from
      the origin on the line through A with direction AB. */
  function EdgeParameter(a: Vector3, ab: Vector3): real
    requires Norm2(ab) != 0.0
  {
    Dot(Neg(a), ab) / Norm2(ab)
  }

  /** gjk_distance2 on the edge [B, A]: the foot of the perpendicular from
      the origin on the line AB, and the same interpolation of the sources. */
  function Distance2(a: SupportPoint, b: SupportPoint): (r: Closest)
    requires a.minkowski != b.minkowski
    ensures Dot(r.separation, Sub(b.minkowski, a.minkowski)) == 0.0
    ensures Cross(Sub(r.separation, a.minkowski), Sub(b.minkowski, a.minkowski)) == Zero
    ensures Consistent(a) && Consistent(b) ==> Sub(r.closest1, r.closest2) == r.separation
  {
    var ab := Sub(b.minkowski, a.minkowski);
    EqualIffDifferenceZero(b.minkowski, a.minkowski);
    Norm2Positive(ab);
    var k := EdgeParameter(a.minkowski, ab);
    EdgeFootOrthogonal(a.minkowski, b.minkowski);
    InterpolationDifference(a, b, k);
    LerpOnLine(a.minkowski, b.minkowski, k);
    Closest(Lerp(a.minkowski, b.minkowski, k), Lerp(a.polygon1, b.polygon1, k), Lerp(a.polygon2, b.polygon2, k))
  }

  /** The foot of the perpendicular is orthogonal to the edge. */
  lemma EdgeFootOrthogonal(a: Vector3, b: Vector3)
    requires Norm2(Sub(b, a)) != 0.0
    ensures Dot(Lerp(a, b, EdgeParameter(a, Sub(b, a))), Sub(b, a)) == 0.0
  {
    var ab := Sub(b, a);
    var k := EdgeParameter(a, ab);
    DotAdd(a, Scale(k, ab), ab);
    DotScale(k, ab, ab);
    DotNeg(a, ab);
    DotCommutes(a, ab);
    assert Dot(ab, ab) == Norm2(ab);
    DivideThenMultiply(Dot(Neg(a), ab), Norm2(ab));
  }

  /** Every point of the line through u and v is collinear with its edge. */
  lemma LerpOnLine(u: Vector3, v: Vector3, k: real)
    ensures Cross(Sub(Lerp(u, v, k), u), Sub(v, u)) == Zero
  {
    var e := Sub(v, u);
    assert Sub(Lerp(u, v, k), u) == Scale(k, e);
    CrossScaled(k, e);
  }

  /** Interpolating both sources by the same k interpolates their
      Minkowski difference by k. */
  lemma InterpolationDifference(a: SupportPoint, b: SupportPoint, k: real)
    ensures Consistent(a) && Consistent(b) ==>
              (Sub(Lerp(a.polygon1, b.polygon1, k), Lerp(a.polygon2, b.polygon2, k))
               == Lerp(a.minkowski, b.minkowski, k))
  {
  }

  /** The foot of the perpendicular from the origin on the plane through a
      with normal n. The source computes it as -(AO . m) m with the unit
      normal m = n / |n|; over the reals that is the expression below. */
  function PlaneFoot(a: Vector3, n: Vector3): Vector3
    requires Norm2(n) != 0.0
  {
    Scale(-(Dot(Neg(a), n) / Norm2(n)), n)
  }

  /** The foot lies in the plane through a with normal n. */
  lemma PlaneFootInPlane(a: Vector3, n: Vector3)
    requires Norm2(n) != 0.0
    ensures Dot(PlaneFoot(a, n), n) == Dot(a, n)
  {
    var t := -(Dot(Neg(a), n) / Norm2(n));
    DotScale(t, n, n);
    DotNeg(a, n);
    assert Dot(n, n) == Norm2(n);
    DivideThenMultiply(Dot(a, n), Norm2(n));
  }

  /** The foot is orthogonal to every direction lying in the plane. */
  lemma PlaneFootOrthogonal(a: Vector3, n: Vector3, u: Vector3)
    requires Norm2(n) != 0.0 && Dot(n, u) == 0.0
    ensures Dot(PlaneFoot(a, n), u) == 0.0
  {
    DotScale(-(Dot(Neg(a), n) / Norm2(n)), n, u);
  }

  /** The coefficient of u in the source's solution of ap == -(ku u + kv v)
      by Cramer's rule, with kcommon == 1 / ((u . v)^2 - |u|^2 |v|^2).
      The coefficient of v is PlaneCoefficient(ap, v, u). */
  function PlaneCoefficient(ap: Vector3, u: Vector3, v: Vector3): real
    requires Dot(u, v) * Dot(u, v) - Dot(u, u) * Dot(v, v) != 0.0
  {
    (1.0 / (Dot(u, v) * Dot(u, v) - Dot(u, u) * Dot(v, v)))
      * Dot(ap, Sub(Scale(Dot(v, v), u), Scale(Dot(u, v), v)))
  }

  /** The denominator of kcommon is minus the squared area term, so it is
      non-zero exactly for a non-degenerate triangle. */
  lemma PlaneDenominator(u: Vector3, v: Vector3)
    ensures Dot(u, v) * Dot(u, v) - Dot(u, u) * Dot(v, v) == -Norm2(Cross(u, v))
  {
    LagrangeIdentity(u, v);
    assert Norm2(u) == Dot(u, u) && Norm2(v) == Dot(v, v);
  }

  /** The cross products of the normal n == u x v with u and v, by
      Lagrange's formula. */
  lemma CrossWithNormal(u: Vector3, v: Vector3)
    ensures Cross(v, Cross(u, v)) == Sub(Scale(Dot(v, v), u), Scale(Dot(u, v), v))
    ensures Cross(Cross(u, v), u) == Sub(Scale(Dot(u, u), v), Scale(Dot(v, u), u))
  {
    var n := Cross(u, v);
    assert TripleCross(u, v, v) == Cross(n, v);
    CrossAntiCommutes(n, v);
    DotCommutes(v, u);
    assert TripleCross(u, v, u) == Cross(n, u);
  }

  lemma Reciprocal(nn: real)
    requires nn != 0.0
    ensures (1.0 / nn) * nn == 1.0
  {
  }

  /** The source's coefficient for u, with ap == A - P == -w, is the Cramer
      coefficient of u divided by |n|^2. */
  lemma CoefficientValue(u: Vector3, v: Vector3, n: Vector3, w: Vector3)
    requires n == Cross(u, v) && Norm2(n) != 0.0
    ensures Dot(u, v) * Dot(u, v) - Dot(u, u) * Dot(v, v) != 0.0
    ensures PlaneCoefficient(Neg(w), u, v) == (1.0 / Norm2(n)) * Dot(Cross(v, n), w)
  {
    PlaneDenominator(u, v);
    CrossWithNormal(u, v);
    var x := Sub(Scale(Dot(v, v), u), Scale(Dot(u, v), v));
    DotNeg(x, w);
    DotCommutes(Neg(w), x);
    NegatedReciprocal(Dot(x, w), Norm2(n));
  }

  lemma NegatedReciprocal(a: real, nn: real)
    requires nn != 0.0
    ensures (1.0 / -nn) * -a == (1.0 / nn) * a
  {
  }

  /** The same for the coefficient of v. */
  lemma SecondCoefficientValue(u: Vector3, v: Vector3, n: Vector3, w: Vector3)
    requires n == Cross(u, v) && Norm2(n) != 0.0
    ensures Dot(v, u) * Dot(v, u) - Dot(v, v) * Dot(u, u) != 0.0
    ensures PlaneCoefficient(Neg(w), v, u) == (1.0 / Norm2(n)) * Dot(Cross(n, u), w)
  {
    var m := Cross(v, u);
    CrossAntiCommutes(u, v);
    Norm2Neg(n);
    CoefficientValue(v, u, m, w);
    CrossWithNormal(u, v);
    CrossWithNormal(v, u);
  }

  /** A vector w of the plane spanned by u and v, expanded in u and v by
      Cramer's rule, given k == 1 / |n|^2. */
  lemma PlaneExpansion(u: Vector3, v: Vector3, n: Vector3, w: Vector3, k: real)
    requires n == Cross(u, v) && Dot(n, w) == 0.0 && k * Norm2(n) == 1.0
    ensures w == Add(Scale(k * Dot(Cross(v, n), w), u), Scale(k * Dot(Cross(n, u), w), v))
  {
    CramerInPlane(u, v, n, w);
    Unscale(Norm2(n), w, Dot(Cross(v, n), w), u, Dot(Cross(n, u), w), v, k);
  }

  /** The source's two coefficients recover any vector w of the plane
      spanned by u and v: w == ku u + kv v. */
  lemma PlaneCoefficientsRecover(u: Vector3, v: Vector3, w: Vector3)
    requires Cross(u, v) != Zero && Dot(Cross(u, v), w) == 0.0
    ensures Dot(u, v) * Dot(u, v) - Dot(u, u) * Dot(v, v) != 0.0
    ensures Dot(v, u) * Dot(v, u) - Dot(v, v) * Dot(u, u) != 0.0
    ensures w == Add(Scale(PlaneCoefficient(Neg(w), u, v), u), Scale(PlaneCoefficient(Neg(w), v, u), v))
  {
    var n := Cross(u, v);
    Norm2Positive(n);
    Reciprocal(Norm2(n));
    PlaneExpansion(u, v, n, w, 1.0 / Norm2(n));
    CoefficientValue(u, v, n, w);
    SecondCoefficientValue(u, v, n, w);
  }

  /** The point u + k1 (v - u) + k2 (w - u) of the plane through u, v, w. */
  function Affine(u: Vector3, v: Vector3, w: Vector3, k1: real, k2: real): Vector3 {
    Add(Add(u, Scale(k1, Sub(v, u))), Scale(k2, Sub(w, u)))
  }

  /** gjk_distance3 on the triangle [C, B, A]: the foot P of the
      perpendicular from the origin on the triangle's plane, and the
      sources interpolated with the coefficients kab and kac that express
      P - A in AB and AC. */
  function Distance3(a: SupportPoint, b: SupportPoint, c: SupportPoint): (r: Closest)
    requires Cross(Sub(b.minkowski, a.minkowski), Sub(c.minkowski, a.minkowski)) != Zero
    ensures Dot(r.separation, Sub(b.minkowski, a.minkowski)) == 0.0
    ensures Dot(r.separation, Sub(c.minkowski, a.minkowski)) == 0.0
    ensures var n := Cross(Sub(b.minkowski, a.minkowski), Sub(c.minkowski, a.minkowski));
            Dot(r.separation, n) == Dot(a.minkowski, n)
    ensures Consistent(a) && Consistent(b) && Consistent(c) ==>
              Sub(r.closest1, r.closest2) == r.separation
  {
    var ab := Sub(b.minkowski, a.minkowski);
    var ac := Sub(c.minkowski, a.minkowski);
    var n := Cross(ab, ac);
    Norm2Positive(n);
    var p := PlaneFoot(a.minkowski, n);
    TriangleFoot(a.minkowski, ab, ac);
    var w := Sub(p, a.minkowski);
    PlaneCoefficientsRecover(ab, ac, w);
    assert Sub(a.minkowski, p) == Neg(w);
    var kab := PlaneCoefficient(Sub(a.minkowski, p), ab, ac);
    var kac := PlaneCoefficient(Sub(a.minkowski, p), ac, ab);
    AffineOfFoot(a.minkowski, b.minkowski, c.minkowski, w, p, kab, kac);
    AffineDifference(a, b, c, kab, kac);
    Closest(p,
            Affine(a.polygon1, b.polygon1, c.polygon1, kab, kac),
            Affine(a.polygon2, b.polygon2, c.polygon2, kab, kac))
  }

  /** The foot of the perpendicular on the plane of a triangle with edges
      ab and ac is orthogonal to both edges, lies in the plane, and its
      offset from A lies in the plane spanned by the edges. */
  lemma TriangleFoot(a: Vector3, ab: Vector3, ac: Vector3)
    requires Norm2(Cross(ab, ac)) != 0.0
    ensures Dot(PlaneFoot(a, Cross(ab, ac)), ab) == 0.0
    ensures Dot(PlaneFoot(a, Cross(ab, ac)), ac) == 0.0
    ensures Dot(PlaneFoot(a, Cross(ab, ac)), Cross(ab, ac)) == Dot(a, Cross(ab, ac))
    ensures Dot(Cross(ab, ac), Sub(PlaneFoot(a, Cross(ab, ac)), a)) == 0.0
  {
    var n := Cross(ab, ac);
    CrossOrthogonal(ab, ac);
    PlaneFootOrthogonal(a, n, ab);
    PlaneFootOrthogonal(a, n, ac);
    PlaneFootInPlane(a, n);
    var p := PlaneFoot(a, n);
    DotSub(p, a, n);
    DotCommutes(Sub(p, a), n);
  }

  /** The value gjk_distance3 returns for the final triangle [C, B, A],
      multiplied by |n| for the triangle normal n == AB x AC: the source
      divides AO . n by |n| to normalise n. */
  function ScaledDistance3(s: seq<SupportPoint>): real
    requires |s| == 3
  {
    Dot(Neg(s[2].minkowski), TriangleNormal(Minkowski(s)))
  }

  /** The source's distance and the separation agree up to sign: the
      square of the scaled distance is |separation|^2 |n|^2. */
  lemma Distance3Magnitude(s: seq<SupportPoint>)
    requires |s| == 3 && NonDegenerate(Minkowski(s))
    ensures ScaledDistance3(s) * ScaledDistance3(s)
            == Norm2(NoOverlapResult(s).separation) * Norm2(TriangleNormal(Minkowski(s)))
  {
    var a := s[2].minkowski;
    var n := TriangleNormal(Minkowski(s));
    assert n == Cross(Sub(s[1].minkowski, a), Sub(s[0].minkowski, a));
    Norm2Positive(n);
    assert NoOverlapResult(s).separation == PlaneFoot(a, n);
    Norm2Scale(-(Dot(Neg(a), n) / Norm2(n)), n);
    QuotientSquare(Dot(Neg(a), n), Norm2(n));
  }

  lemma QuotientSquare(d: real, nn: real)
    requires nn != 0.0
    ensures -(d / nn) * -(d / nn) * nn * nn == d * d
  {
    var q := d / nn;
    assert q * nn == d;
    assert -q * -q * nn * nn == (q * nn) * (q * nn);
  }

  /** If p - a == kab ab + kac ac then the affine point with these
      coefficients is p. */
  lemma AffineOfFoot(a: Vector3, b: Vector3, c: Vector3, w: Vector3, p: Vector3, kab: real, kac: real)
    requires w == Sub(p, a)
    requires w == Add(Scale(kab, Sub(b, a)), Scale(kac, Sub(c, a)))
    ensures Affine(a, b, c, kab, kac) == p
  {
  }

  /** Interpolating both sources with the same coefficients interpolates
      their Minkowski difference with them. */
  lemma AffineDifference(a: SupportPoint, b: SupportPoint, c: SupportPoint, k1: real, k2: real)
    ensures Consistent(a) && Consistent(b) && Consistent(c) ==>
              (Sub(Affine(a.polygon1, b.polygon1, c.polygon1, k1, k2),
                   Affine(a.polygon2, b.polygon2, c.polygon2, k1, k2))
               == Affine(a.minkowski, b.minkowski, c.minkowski, k1, k2))
  {
  }

  // ----------------------------------------------------------------
  // Feature vertices
  // ----------------------------------------------------------------

  /** The first occurrences of the vertices of vs, in order: the reference
      definition of the deduplicated feature lists. */
  function Dedup(vs: seq<Vector3>): seq<Vector3>
    decreases |vs|
  {
    if |vs| == 0 then []
    else
      var d := Dedup(vs[..|vs| - 1]);
      if vs[|vs| - 1] in d then d else d + [vs[|vs| - 1]]
  }

  predicate Distinct(vs: seq<Vector3>) {
    forall i, j :: 0 <= i < j < |vs| ==> vs[i] != vs[j]
  }

  /** Dedup keeps exactly the vertices of its input, each once. */
  lemma {:induction false} DedupProperties(vs: seq<Vector3>)
    ensures Distinct(Dedup(vs))
    ensures forall v :: v in Dedup(vs) <==> v in vs
    ensures |Dedup(vs)| <= |vs|
    ensures |vs| > 0 ==> |Dedup(vs)| > 0 && Dedup(vs)[0] == vs[0]
    decreases |vs|
  {
    if |vs| > 0 {
      var front := vs[..|vs| - 1];
      DedupProperties(front);
      assert vs == front + [vs[|vs| - 1]];
      if |front| == 0 {
        assert Dedup(vs) == [vs[0]];
      }
    }
  }

  /** The branch tree of gjk_no_overlap_result that lists the distinct
      vertices of one shape among the simplex's 1 to 3 sources: each vertex
      once, the first source first, and nothing that is not a source. */
  function Features(vs: seq<Vector3>): (r: seq<Vector3>)
    requires 1 <= |vs| <= 3
    ensures 1 <= |r| <= |vs| && r[0] == vs[0] && Distinct(r)
    ensures forall v :: v in r <==> v in vs
  {
    if |vs| == 1 then [vs[0]]
    else if |vs| == 2 then
      if vs[0] == vs[1] then [vs[0]] else [vs[0], vs[1]]
    else if vs[0] == vs[1] then
      if vs[0] == vs[2] then [vs[0]] else [vs[0], vs[2]]
    else if vs[0] == vs[2] || vs[1] == vs[2] then [vs[0], vs[1]]
    else [vs[0], vs[1], vs[2]]
  }

  /** The branch tree agrees with the reference deduplication. */
  lemma FeaturesAreDedup(vs: seq<Vector3>)
    requires 1 <= |vs| <= 3
    ensures Features(vs) == Dedup(vs)
  {
    if |vs| == 1 {
      DedupSingle(vs);
    } else if |vs| == 2 {
      DedupPair(vs);
    } else {
      DedupTriple(vs);
    }
  }

  lemma DedupSingle(vs: seq<Vector3>)
    requires |vs| == 1
    ensures Dedup(vs) == [vs[0]]
  {
    assert vs[..0] == [];
  }

  lemma DedupPair(vs: seq<Vector3>)
    requires |vs| == 2
    ensures Dedup(vs) == if vs[0] == vs[1] then [vs[0]] else [vs[0], vs[1]]
  {
    DedupSingle(vs[..1]);
  }

  lemma DedupTriple(vs: seq<Vector3>)
    requires |vs| == 3
    ensures Dedup(vs) == Features(vs)
  {
    var front := vs[..2];
    DedupPair(front);
    var d := Dedup(front);
    assert Dedup(vs) == if vs[2] in d then d else d + [vs[2]];
    if vs[0] == vs[1] {
      assert d == [vs[0]];
    } else {
      assert d == [vs[0], vs[1]];
      assert vs[2] in d <==> vs[0] == vs[2] || vs[1] == vs[2];
    }
  }

  /** The polygon1 sources of a simplex. */
  function Sources1(s: seq<SupportPoint>): (r: seq<Vector3>)
    ensures |r| == |s| && forall i :: 0 <= i < |s| ==> r[i] == s[i].polygon1
  {
    seq(|s|, i requires 0 <= i < |s| => s[i].polygon1)
  }

  /** The polygon2 sources of a simplex. */
  function Sources2(s: seq<SupportPoint>): (r: seq<Vector3>)
    ensures |r| == |s| && forall i :: 0 <= i < |s| ==> r[i] == s[i].polygon2
  {
    seq(|s|, i requires 0 <= i < |s| => s[i].polygon2)
  }

  // ----------------------------------------------------------------
  // The no-overlap result
  // ----------------------------------------------------------------

  /** The separation is the projection of the origin on the affine hull of
      the final simplex t (newest point last): on the hull and orthogonal
      to its edges. */
  predicate ProjectsOrigin(t: seq<Vector3>, p: Vector3) {
    if |t| == 1 then p == t[0]
    else if |t| == 2 then
      Dot(p, Sub(t[0], t[1])) == 0.0 && Cross(Sub(p, t[1]), Sub(t[0], t[1])) == Zero
    else if |t| == 3 then
      Dot(p, Sub(t[1], t[2])) == 0.0 && Dot(p, Sub(t[0], t[2])) == 0.0
      && Dot(p, TriangleNormal(t)) == Dot(t[2], TriangleNormal(t))
    else false
  }

  /** All points of the simplex are consistent support points. */
  predicate AllConsistent(s: seq<SupportPoint>) {
    forall i :: 0 <= i < |s| ==> Consistent(s[i])
  }

  /** gjk_no_overlap_result for a non-degenerate final simplex of 1 to 3
      points. */
  function NoOverlapResult(s: seq<SupportPoint>): (r: GjkResult)
    requires 1 <= |s| <= 3 && NonDegenerate(Minkowski(s))
    ensures !r.overlap
    ensures r.points1 == Dedup(Sources1(s)) && r.points2 == Dedup(Sources2(s))
    ensures ProjectsOrigin(Minkowski(s), r.separation)
    ensures AllConsistent(s) ==> Sub(r.closest1, r.closest2) == r.separation
    ensures |s| == 1 ==> r.closest1 == s[0].polygon1 && r.closest2 == s[0].polygon2
  {
    var t := Minkowski(s);
    var closest :=
      if |s| == 1 then Distance1(s[0])
      else if |s| == 2 then Distance2(s[1], s[0])
      else Distance3(s[2], s[1], s[0]);
    FeaturesAreDedup(Sources1(s));
    FeaturesAreDedup(Sources2(s));
    GjkResult(false, closest.separation, closest.closest1, closest.closest2,
              Features(Sources1(s)), Features(Sources2(s)))
  }

  /** The feature lists of a no-overlap result hold 1 to 3 pairwise
      distinct vertices, and exactly the sources of the simplex. */
  lemma NoOverlapFeatures(s: seq<SupportPoint>)
    requires 1 <= |s| <= 3 && NonDegenerate(Minkowski(s))
    ensures var r := NoOverlapResult(s);
            1 <= |r.points1| <= |s| && 1 <= |r.points2| <= |s|
            && Distinct(r.points1) && Distinct(r.points2)
            && (forall v :: v in r.points1 <==> exists i :: 0 <= i < |s| && s[i].polygon1 == v)
            && (forall v :: v in r.points2 <==> exists i :: 0 <= i < |s| && s[i].polygon2 == v)
  {
    DedupProperties(Sources1(s));
    DedupProperties(Sources2(s));
    forall v | v in Sources1(s)
      ensures exists i :: 0 <= i < |s| && s[i].polygon1 == v
    {
      var i :| 0 <= i < |s| && Sources1(s)[i] == v;
    }
    forall v | v in Sources2(s)
      ensures exists i :: 0 <= i < |s| && s[i].polygon2 == v
    {
      var i :| 0 <= i < |s| && Sources2(s)[i] == v;
    }
  }
}
