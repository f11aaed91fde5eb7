/** The support function of gjk.cc: the vertex of the Minkowski difference
    p1 - p2 that lies furthest along a direction. */
module Support {
  import opened VecMath

  /** GJK_Point: a Minkowski point together with the two polygon vertices
      it was built from. */
  datatype SupportPoint = SupportPoint(minkowski: Vector3, polygon1: Vector3, polygon2: Vector3)

  /** The Minkowski point of p is the difference of its two sources, as
      for every point the support function returns. */
  predicate Consistent(p: SupportPoint) {
    p.minkowski == Sub(p.polygon1, p.polygon2)
  }

  /** A GJK_Point in the zero-initialised state of a fresh array slot. */
  const ZeroPoint: SupportPoint := SupportPoint(Zero, Zero, Zero)

  /** The Minkowski points of a simplex, slot by slot. */
  function Minkowski(s: seq<SupportPoint>): (m: seq<Vector3>)
    ensures |m| == |s|
    ensures forall k :: 0 <= k < |s| ==> m[k] == s[k].minkowski
  {
    seq(|s|, k requires 0 <= k < |s| => s[k].minkowski)
  }

  /** The index chosen by the argmax loop of gjk_polygon_support, scanning
      the points in order and moving only on a strictly larger dot product. */
  function FirstArgMax(pts: seq<Vector3>, dir: Vector3): (i: nat)
    requires |pts| > 0
    ensures i < |pts|
    decreases |pts|
  {
    if |pts| == 1 then 0
    else
      var k := FirstArgMax(pts[..|pts| - 1], dir);
      if Dot(pts[|pts| - 1], dir) > Dot(pts[k], dir) then |pts| - 1 else k
  }

  /** The chosen index is the first index whose point has the largest dot
      product with dir: nothing lies further along dir, and every earlier
      point lies strictly less far. */
  lemma {:induction false} FirstArgMaxIsFirstMaximum(pts: seq<Vector3>, dir: Vector3)
    requires |pts| > 0
    ensures forall j :: 0 <= j < |pts| ==> Dot(pts[j], dir) <= Dot(pts[FirstArgMax(pts, dir)], dir)
    ensures forall j :: 0 <= j < FirstArgMax(pts, dir) ==> Dot(pts[j], dir) < Dot(pts[FirstArgMax(pts, dir)], dir)
    decreases |pts|
  {
    if |pts| > 1 {
      var front := pts[..|pts| - 1];
      FirstArgMaxIsFirstMaximum(front, dir);
      assert forall j :: 0 <= j < |front| ==> pts[j] == front[j];
    }
  }

  /** One step of the argmax loop: extending the scanned prefix by the
      point at index i moves the choice to i exactly when that point is
      strictly further along dir than the current choice. */
  lemma FirstArgMaxStep(pts: seq<Vector3>, dir: Vector3, i: nat)
    requires 0 < i < |pts|
    ensures FirstArgMax(pts[..i + 1], dir)
         == if Dot(pts[i], dir) > Dot(pts[FirstArgMax(pts[..i], dir)], dir) then i
            else FirstArgMax(pts[..i], dir)
  {
    assert pts[..i + 1][..i] == pts[..i];
  }

  /** The result of gjk_polygon_support for the polygons p1, p2 (each a
      non-empty GJK_Polygon) and the search direction dir. */
  function Support(p1: seq<Vector3>, p2: seq<Vector3>, dir: Vector3): (r: SupportPoint)
    requires |p1| > 0 && |p2| > 0
    ensures r.polygon1 in p1 && r.polygon2 in p2
    ensures r.minkowski == Sub(r.polygon1, r.polygon2)
  {
    var i := FirstArgMax(p1, dir);
    var j := FirstArgMax(p2, Neg(dir));
    SupportPoint(Sub(p1[i], p2[j]), p1[i], p2[j])
  }

  /** The support point lies furthest along dir among all the differences
      p1[i] - p2[j], that is among all points of the Minkowski difference. */
  lemma SupportIsExtreme(p1: seq<Vector3>, p2: seq<Vector3>, dir: Vector3, i: nat, j: nat)
    requires |p1| > 0 && |p2| > 0
    requires i < |p1| && j < |p2|
    ensures Dot(Sub(p1[i], p2[j]), dir) <= Dot(Support(p1, p2, dir).minkowski, dir)
  {
    var s := Support(p1, p2, dir);
    FirstArgMaxIsFirstMaximum(p1, dir);
    FirstArgMaxIsFirstMaximum(p2, Neg(dir));
    DotSub(p1[i], p2[j], dir);
    DotSub(s.polygon1, s.polygon2, dir);
    DotNeg(p2[j], dir);
    DotNeg(s.polygon2, dir);
    assert Dot(p2[j], Neg(dir)) <= Dot(s.polygon2, Neg(dir));
  }

  /** gjk_polygon_support: the interleaved argmax loop over both polygons. */
  method PolygonSupport(p1: seq<Vector3>, p2: seq<Vector3>, dir: Vector3) returns (r: SupportPoint)
    requires |p1| > 0 && |p2| > 0
    ensures r == Support(p1, p2, dir)
  {
    var index1 := 0;
    var max1 := Dot(p1[0], dir);
    var ndir := Neg(dir);
    var index2 := 0;
    var max2 := Dot(p2[0], ndir);
    var imax := I32Max(|p1|, |p2|);
    for i := 1 to imax
      invariant index1 == FirstArgMax(p1[..I32Min(i, |p1|)], dir)
      invariant max1 == Dot(p1[index1], dir)
      invariant index2 == FirstArgMax(p2[..I32Min(i, |p2|)], ndir)
      invariant max2 == Dot(p2[index2], ndir)
    {
      if i < |p1| {
        FirstArgMaxStep(p1, dir, i);
        var dot := Dot(p1[i], dir);
        if dot > max1 {
          max1 := dot;
          index1 := i;
        }
      }
      if i < |p2| {
        FirstArgMaxStep(p2, ndir, i);
        var dot := Dot(p2[i], ndir);
        if dot > max2 {
          max2 := dot;
          index2 := i;
        }
      }
    }
    assert p1[..|p1|] == p1 && p2[..|p2|] == p2;
    r := SupportPoint(Sub(p1[index1], p2[index2]), p1[index1], p2[index2]);
  }
}
