/** Convex combinations of simplex points, and the proofs that the simplices
    the reducers report as containing the origin really do contain it. */
module Enclosure {
  import opened VecMath
  import opened SimplexGeometry

  /** Barycentric weights for the four slots of a padded simplex. */
  datatype Weights = Weights(w0: real, w1: real, w2: real, w3: real)

  /** Non-negative weights that sum to one. */
  predicate Convex(w: Weights) {
    w.w0 >= 0.0 && w.w1 >= 0.0 && w.w2 >= 0.0 && w.w3 >= 0.0 && w.w0 + w.w1 + w.w2 + w.w3 == 1.0
  }

  /** The weighted sum of four points. */
  function Combine(w: Weights, t: seq<Vector3>): Vector3
    requires |t| == 4
  {
    Add(Add(Add(Scale(w.w0, t[0]), Scale(w.w1, t[1])), Scale(w.w2, t[2])), Scale(w.w3, t[3]))
  }

  /** A simplex of one to four points padded to four slots by repeating its
      newest point; the padded list holds exactly the simplex points. */
  function Pad<P>(t: seq<P>): (r: seq<P>)
    requires 1 <= |t| <= 4
    ensures |r| == 4 && r[..|t|] == t
    ensures forall k :: |t| <= k < 4 ==> r[k] == t[|t| - 1]
    decreases 4 - |t|
  {
    if |t| == 4 then t else Pad(t + [t[|t| - 1]])
  }

  /** The origin is a convex combination of the points of the simplex. */
  ghost predicate OriginInHull(t: seq<Vector3>)
    requires 1 <= |t| <= 4
  {
    exists w :: Convex(w) && Combine(w, Pad(t)) == Zero
  }

  /** Weights that put the origin in the hull give the predicate. */
  lemma HullWitness(t: seq<Vector3>, w: Weights)
    requires 1 <= |t| <= 4 && Convex(w) && Combine(w, Pad(t)) == Zero
    ensures OriginInHull(t)
  {
  }

  /** The signed volume of a tetrahedron [D, C, B, A] is the height of the
      apex A over the base [D, C, B], measured along the base normal. */
  lemma TetrahedronDetOverBase(t: seq<Vector3>)
    requires |t| == 4
    ensures TetrahedronDet(t) == Dot(TriangleNormal(t[..3]), Sub(t[3], t[2]))
  {
    var u := Sub(t[2], t[3]);
    var v := Sub(t[1], t[3]);
    var m := Sub(t[0], t[3]);
    assert Sub(t[1], t[2]) == Sub(v, u);
    assert Sub(t[0], t[2]) == Sub(m, u);
    assert Sub(t[3], t[2]) == Neg(u);
    DetExpanded(v, u, m);
  }

  /** Expanding the volume of [D, C, B, A] at its apex: the volume minus the
      three volumes that replace one edge by AO is the volume of the base
      seen from the origin. */
  lemma TetrahedronBaseSum(t: seq<Vector3>)
    requires |t| == 4
    ensures var ao, ab, ac, ad := Neg(t[3]), Sub(t[2], t[3]), Sub(t[1], t[3]), Sub(t[0], t[3]);
      Det(ab, ac, ad) - Det(ao, ac, ad) - Det(ab, ao, ad) - Det(ab, ac, ao)
        == -Dot(TriangleNormal(t[..3]), Neg(t[2]))
  {
    var ao, ab, ac, ad := Neg(t[3]), Sub(t[2], t[3]), Sub(t[1], t[3]), Sub(t[0], t[3]);
    assert TriangleNormal(t[..3]) == Cross(Sub(ac, ab), Sub(ad, ab));
    assert Neg(t[2]) == Sub(ao, ab);
    DetExpanded(ab, ac, ad);
    DetExpanded(ao, ac, ad);
    DetExpanded(ab, ao, ad);
    DetExpanded(ab, ac, ao);
  }

  /** Weights that sum to one combine four points as the last point plus
      the weighted edges from it. */
  lemma AffineCombine(w: Weights, t: seq<Vector3>)
    requires |t| == 4 && w.w0 + w.w1 + w.w2 + w.w3 == 1.0
    ensures Combine(w, t)
      == Add(t[3], Add(Add(Scale(w.w2, Sub(t[2], t[3])), Scale(w.w1, Sub(t[1], t[3]))), Scale(w.w0, Sub(t[0], t[3]))))
  {
  }

  /** Scaling distributes over a combination of three vectors. */
  lemma ScaleCombination(k: real, a1: real, a2: real, a3: real, u: Vector3, v: Vector3, m: Vector3)
    ensures Scale(k, Add(Add(Scale(a1, u), Scale(a2, v)), Scale(a3, m)))
      == Add(Add(Scale(k * a1, u), Scale(k * a2, v)), Scale(k * a3, m))
  {
  }

  /** Dividing three non-positive Cramer coefficients, and their shortfall
      from the volume, by a negative volume gives non-negative weights. */
  lemma NegativeReciprocalWeights(vol: real, k: real, d1: real, d2: real, d3: real)
    requires vol < 0.0 && k == 1.0 / vol
    requires d1 <= 0.0 && d2 <= 0.0 && d3 <= 0.0 && vol - d1 - d2 - d3 <= 0.0
    ensures k * vol == 1.0
    ensures k * d1 >= 0.0 && k * d2 >= 0.0 && k * d3 >= 0.0
    ensures 1.0 - k * d3 - k * d2 - k * d1 >= 0.0
  {
    assert 1.0 - k * d3 - k * d2 - k * d1 == k * (vol - d1 - d2 - d3);
  }

  /** A tetrahedron [D, C, B, A] whose base [D, C, B] faces the origin, whose
      apex A lies beyond the base, and whose three faces at A do not face the
      origin, contains the origin: the weights are the Cramer coefficients of
      AO in the edges AB, AC, AD divided by the volume. */
  lemma TetrahedronWeights(t: seq<Vector3>) returns (w: Weights)
    requires |t| == 4
    requires Dot(TriangleNormal(t[..3]), Neg(t[2])) >= 0.0
    requires Dot(TriangleNormal(t[..3]), Sub(t[3], t[2])) > 0.0
    requires OriginBehindFaces(t)
    ensures Convex(w) && Combine(w, t) == Zero
  {
    var ao, ab, ac, ad := Neg(t[3]), Sub(t[2], t[3]), Sub(t[1], t[3]), Sub(t[0], t[3]);
    var vol := Det(ab, ac, ad);
    TetrahedronDetOverBase(t);
    DetSwaps(ab, ac, ad);
    assert vol < 0.0;
    var d1, d2, d3 := Det(ao, ac, ad), Det(ab, ao, ad), Det(ab, ac, ao);
    DetCyclic(ad, ab, ao);
    DetCyclic(ao, ac, ad);
    assert d1 <= 0.0 && d2 <= 0.0 && d3 <= 0.0;
    TetrahedronBaseSum(t);
    var k := 1.0 / vol;
    NegativeReciprocalWeights(vol, k, d1, d2, d3);
    w := Weights(k * d3, k * d2, k * d1, 1.0 - k * d3 - k * d2 - k * d1);
    Cramer(ab, ac, ao, ad);
    TetrahedronCombination(t, vol, k, d1, d2, d3);
  }

  /** The weights built from a Cramer expansion of AO combine [D, C, B, A]
      to the origin. */
  lemma TetrahedronCombination(t: seq<Vector3>, vol: real, k: real, d1: real, d2: real, d3: real)
    requires |t| == 4 && k * vol == 1.0
    requires Scale(vol, Neg(t[3]))
      == Add(Add(Scale(d1, Sub(t[2], t[3])), Scale(d2, Sub(t[1], t[3]))), Scale(d3, Sub(t[0], t[3])))
    ensures Combine(Weights(k * d3, k * d2, k * d1, 1.0 - k * d3 - k * d2 - k * d1), t) == Zero
  {
    var w := Weights(k * d3, k * d2, k * d1, 1.0 - k * d3 - k * d2 - k * d1);
    AffineCombine(w, t);
    ScaleCombination(k, d1, d2, d3, Sub(t[2], t[3]), Sub(t[1], t[3]), Sub(t[0], t[3]));
    ScaleScale(k, vol, Neg(t[3]));
    ScaleOne(k * vol, Neg(t[3]));
  }

  /** Dividing two non-negative Cramer coefficients, and their shortfall
      from the positive denominator, by that denominator gives non-negative
      weights. */
  lemma PositiveReciprocalWeights(nn: real, k: real, b1: real, b2: real)
    requires nn > 0.0 && k == 1.0 / nn
    requires b1 >= 0.0 && b2 >= 0.0 && nn - b1 - b2 >= 0.0
    ensures k * nn == 1.0
    ensures k * b1 >= 0.0 && k * b2 >= 0.0 && 1.0 - k * b1 - k * b2 >= 0.0
  {
    assert 1.0 - k * b1 - k * b2 == k * (nn - b1 - b2);
  }

  /** The normal of a triangle [C, B, A] taken at B equals its normal taken
      at A. */
  lemma TriangleNormalAtB(c: Vector3, b: Vector3, a: Vector3)
    ensures Cross(Sub(c, b), Sub(a, b)) == Cross(Sub(b, a), Sub(c, a))
  {
  }

  /** Expanding the cross product of the edge BC with BO, with B and C
      written from A, against an arbitrary vector n. */
  lemma FlatTriangleSum(ab: Vector3, ac: Vector3, ao: Vector3, n: Vector3)
    ensures Dot(Cross(ab, ac), n) - Det(ac, n, ao) - Det(n, ab, ao)
      == Dot(Cross(Sub(ac, ab), Sub(ao, ab)), n)
  {
    assert Cross(Sub(ac, ab), Sub(ao, ab)) == Add(Sub(Cross(ac, ao), Cross(ab, ao)), Cross(ab, ac));
    DetSwaps(ac, ao, n);
    DetCyclic(n, ab, ao);
  }

  /** A support point A that did not stay behind the edge direction of
      [C, B], while B did, lies on the far side of the line BC, within the
      plane of the triangle. */
  lemma EdgeHeight(c: Vector3, b: Vector3, a: Vector3)
    requires var e := TripleCross(Sub(c, b), Neg(b), Sub(c, b));
             Dot(e, Neg(b)) > 0.0 && Dot(e, a) >= 0.0
    ensures Dot(Cross(Sub(c, b), Neg(b)), Cross(Sub(b, a), Sub(c, a))) > 0.0
    ensures Norm2(Cross(Sub(b, a), Sub(c, a))) > 0.0
  {
    var x := Cross(Sub(c, b), Neg(b));
    var e := TripleCross(Sub(c, b), Neg(b), Sub(c, b));
    assert Dot(e, Sub(a, b)) > 0.0 by {
      assert Dot(e, Sub(a, b)) == Dot(e, a) + Dot(e, Neg(b));
    }
    TriangleNormalAtB(c, b, a);
    DetCyclic(x, Sub(c, b), Sub(a, b));
    assert Dot(x, Zero) == 0.0;
    Norm2Positive(Cross(Sub(b, a), Sub(c, a)));
  }

  /** Weights from an in-plane expansion N AO == b1 AB + b2 AC, divided by
      N, combine [B, C, A, A] to the origin. */
  lemma FlatTriangleCombination(b: Vector3, c: Vector3, a: Vector3, nn: real, k: real, b1: real, b2: real)
    requires k * nn == 1.0
    requires Scale(nn, Neg(a)) == Add(Scale(b1, Sub(b, a)), Scale(b2, Sub(c, a)))
    ensures Combine(Weights(k * b1, k * b2, 1.0 - k * b1 - k * b2, 0.0), [b, c, a, a]) == Zero
  {
    Unscale(nn, Neg(a), b1, Sub(b, a), b2, Sub(c, a), k);
    AffineCombine(Weights(k * b1, k * b2, 1.0 - k * b1 - k * b2, 0.0), [b, c, a, a]);
  }

  /** A triangle [C, B, A] that the edge [C, B] reached, whose plane holds
      the origin, and whose two edges at A do not face the origin, contains
      the origin. Its weights are the in-plane Cramer coefficients of AO
      divided by the squared normal; the third weight is non-negative
      because the support point A did not stay behind the edge direction
      of [C, B] while B did. */
  lemma FlatTriangleWeights(s: seq<Vector3>) returns (w: Weights)
    requires |s| == 3
    requires var e := TripleCross(Sub(s[0], s[1]), Neg(s[1]), Sub(s[0], s[1]));
             Dot(e, Neg(s[1])) > 0.0 && Dot(e, s[2]) >= 0.0
    requires var ao, ab, ac := Neg(s[2]), Sub(s[1], s[2]), Sub(s[0], s[2]);
             var abc := Cross(ab, ac);
             Dot(Cross(abc, ac), ao) <= 0.0 && Dot(Cross(ab, abc), ao) <= 0.0 && Dot(abc, ao) == 0.0
    ensures Convex(w) && Combine(w, [s[1], s[0], s[2], s[2]]) == Zero
  {
    var c, b, a := s[0], s[1], s[2];
    var ao, ab, ac := Neg(a), Sub(b, a), Sub(c, a);
    var abc := Cross(ab, ac);
    EdgeHeight(c, b, a);
    var nn := Norm2(abc);
    var b1, b2 := Dot(Cross(ac, abc), ao), Dot(Cross(abc, ab), ao);
    CrossAntiCommutes(abc, ac);
    CrossAntiCommutes(ab, abc);
    DotNeg(Cross(abc, ac), ao);
    DotNeg(Cross(ab, abc), ao);
    FlatTriangleSum(ab, ac, ao, abc);
    assert Sub(ac, ab) == Sub(c, b) && Sub(ao, ab) == Neg(b);
    var k := 1.0 / nn;
    PositiveReciprocalWeights(nn, k, b1, b2);
    CramerInPlane(ab, ac, abc, ao);
    FlatTriangleCombination(b, c, a, nn, k, b1, b2);
    w := Weights(k * b1, k * b2, 1.0 - k * b1 - k * b2, 0.0);
  }

  /** The edge direction AB x AO x AB measured along AO is the squared
      length of AB x AO. */
  lemma EdgeDirectionValue(ab: Vector3, ao: Vector3)
    ensures Dot(TripleCross(ab, ao, ab), ao) == Norm2(Cross(ab, ao))
  {
    var x := Cross(ab, ao);
    DetCyclic(x, ab, ao);
    DotSelf(x);
  }

  /** Weights from N AO == m AB, divided by N, combine [B, A, A, A] to the
      origin. */
  lemma EdgeCombination(b: Vector3, a: Vector3, nn: real, k: real, m: real)
    requires k * nn == 1.0 && Scale(nn, Neg(a)) == Scale(m, Sub(b, a))
    ensures Combine(Weights(k * m, 1.0 - k * m, 0.0, 0.0), [b, a, a, a]) == Zero
  {
    ScaleScale(k, nn, Neg(a));
    ScaleScale(k, m, Sub(b, a));
    ScaleOne(k * nn, Neg(a));
    AffineCombine(Weights(k * m, 1.0 - k * m, 0.0, 0.0), [b, a, a, a]);
  }

  /** AO parallel to AB: |AB|^2 AO == (AB . AO) AB. */
  lemma EdgeCollinear(ab: Vector3, ao: Vector3)
    requires Cross(ab, ao) == Zero
    ensures Scale(Norm2(ab), ao) == Scale(Dot(ab, ao), ab)
  {
    var x := Cross(ab, ao);
    assert Cross(x, ab) == Zero;
    LagrangeFormulaX(ab, ao, ab);
    LagrangeFormulaY(ab, ao, ab);
    LagrangeFormulaZ(ab, ao, ab);
    DotSelf(ab);
  }

  /** An edge direction perpendicular to AO means AB x AO vanishes. */
  lemma EdgeDirectionZero(ab: Vector3, ao: Vector3)
    requires Dot(TripleCross(ab, ao, ab), ao) == 0.0
    ensures Cross(ab, ao) == Zero
  {
    EdgeDirectionValue(ab, ao);
    Norm2Positive(Cross(ab, ao));
  }

  /** When A did not stay behind -B, the projection of AO on AB lies
      between 0 and |AB|^2, and A is the origin if the edge has no length. */
  lemma EdgeBounds(b: Vector3, a: Vector3)
    requires Dot(Neg(b), a) >= 0.0
    ensures Dot(Sub(b, a), Neg(a)) >= 0.0 && Norm2(Sub(b, a)) - Dot(Sub(b, a), Neg(a)) >= 0.0
    ensures Norm2(Sub(b, a)) == 0.0 ==> a == Zero
  {
    Norm2Positive(a);
    Norm2Positive(b);
    Norm2Positive(Sub(b, a));
    assert Dot(Sub(b, a), Neg(a)) == Norm2(a) + Dot(Neg(b), a);
    assert Norm2(Sub(b, a)) - Dot(Sub(b, a), Neg(a)) == Norm2(b) + Dot(Neg(b), a);
    if Norm2(Sub(b, a)) == 0.0 {
      assert b == a;
      assert Dot(Neg(b), a) == -Norm2(a);
    }
  }

  /** An edge [B, A] whose support point A did not stay behind the
      direction -B, and along which AO points (AB x AO vanishes), contains
      the origin: AO is then a multiple of AB between 0 and 1. */
  lemma FlatEdgeWeights(b: Vector3, a: Vector3) returns (w: Weights)
    requires Dot(Neg(b), a) >= 0.0
    requires Cross(Sub(b, a), Neg(a)) == Zero
    ensures Convex(w) && Combine(w, [b, a, a, a]) == Zero
  {
    EdgeBounds(b, a);
    if Norm2(Sub(b, a)) == 0.0 {
      w := Weights(0.0, 1.0, 0.0, 0.0);
      PointCombination(b, a);
    } else {
      w := ProperEdgeWeights(b, a);
    }
  }

  /** All weight on A combines [B, A, A, A] to A. */
  lemma PointCombination(b: Vector3, a: Vector3)
    ensures Combine(Weights(0.0, 1.0, 0.0, 0.0), [b, a, a, a]) == a
  {
  }

  /** The edge case of non-zero length: the weight of B is the projection
      of AO on AB divided by |AB|^2. */
  lemma ProperEdgeWeights(b: Vector3, a: Vector3) returns (w: Weights)
    requires Dot(Sub(b, a), Neg(a)) >= 0.0 && Norm2(Sub(b, a)) - Dot(Sub(b, a), Neg(a)) >= 0.0
    requires Norm2(Sub(b, a)) != 0.0
    requires Cross(Sub(b, a), Neg(a)) == Zero
    ensures Convex(w) && Combine(w, [b, a, a, a]) == Zero
  {
    var ab, ao := Sub(b, a), Neg(a);
    var nn, m := Norm2(ab), Dot(ab, ao);
    Norm2Positive(ab);
    EdgeCollinear(ab, ao);
    var k := 1.0 / nn;
    PositiveReciprocalWeights(nn, k, m, 0.0);
    EdgeCombination(b, a, nn, k, m);
    w := Weights(k * m, 1.0 - k * m, 0.0, 0.0);
  }

}
