/** Scalar and Vector3 arithmetic of math.hh.
    `f32` is modelled as `real` (no rounding) and F32_EPSILON as 1/1000. */
module VecMath {

  // ----------------------------------------------------------------
  // i32 and f32 helpers
  // ----------------------------------------------------------------

  /** F32_EPSILON: the tolerance of every comparison with zero. */
  const Epsilon: real := 0.001
  /** F32_EPSILON2: the tolerance of squared-norm comparisons. */
  const Epsilon2: real := Epsilon * Epsilon

  function I32Min(a: int, b: int): (r: int)
    ensures r <= a && r <= b
    ensures r == a || r == b
  {
    if a < b then a else b
  }

  function I32Max(a: int, b: int): (r: int)
    ensures r >= a && r >= b
    ensures r == a || r == b
  {
    if a > b then a else b
  }

  function F32Abs(value: real): (r: real)
    ensures r >= 0.0
    ensures r == value || r == -value
  {
    if value > 0.0 then value else -value
  }

  /** f32_cmp_zero: the value lies within epsilon of zero. */
  predicate F32CmpZero(value: real) {
    F32Abs(value) < Epsilon
  }

  /** f32_cmp_zero holds exactly on the open interval (-epsilon, epsilon). */
  lemma F32CmpZeroInterval(value: real)
    ensures F32CmpZero(value) <==> -Epsilon < value < Epsilon
  {
  }

  // ----------------------------------------------------------------
  // Squares of reals
  // ----------------------------------------------------------------

  /** A product kept as a function application, so that facts about it
      reach the solver in the form they are stated. */
  function Product(a: real, b: real): real {
    a * b
  }

  lemma ProductPositive(a: real, b: real)
    requires a > 0.0 && b > 0.0
    ensures Product(a, b) > 0.0
  {
  }

  function Square(c: real): real {
    c * c
  }

  /** A square is positive exactly when its root is non-zero. */
  lemma SquarePositive(c: real)
    ensures Square(c) >= 0.0
    ensures Square(c) > 0.0 <==> c != 0.0
  {
    if c > 0.0 {
      ProductPositive(c, c);
      assert Square(c) == Product(c, c);
    } else if c < 0.0 {
      ProductPositive(-c, -c);
      assert Square(c) == Product(-c, -c);
    } else {
      assert Square(c) == 0.0;
    }
  }

  // ----------------------------------------------------------------
  // Vector3
  // ----------------------------------------------------------------

  datatype Vector3 = Vector3(x: real, y: real, z: real)

  /** v3_zero */
  const Zero: Vector3 := Vector3(0.0, 0.0, 0.0)

  /** Unary operator- */
  function Neg(v: Vector3): Vector3 {
    Vector3(-v.x, -v.y, -v.z)
  }

  /** Binary operator+ */
  function Add(a: Vector3, b: Vector3): Vector3 {
    Vector3(a.x + b.x, a.y + b.y, a.z + b.z)
  }

  /** Binary operator- */
  function Sub(a: Vector3, b: Vector3): Vector3 {
    Vector3(a.x - b.x, a.y - b.y, a.z - b.z)
  }

  /** operator*(f32, Vector3) and operator*(Vector3, f32): scaling. */
  function Scale(k: real, v: Vector3): Vector3 {
    Vector3(k * v.x, k * v.y, k * v.z)
  }

  function Dot(a: Vector3, b: Vector3): real {
    a.x * b.x + a.y * b.y + a.z * b.z
  }

  lemma DotCommutes(a: Vector3, b: Vector3)
    ensures Dot(a, b) == Dot(b, a)
  {
  }

  /** The dot product distributes over a difference in its first argument. */
  lemma DotSub(a: Vector3, b: Vector3, d: Vector3)
    ensures Dot(Sub(a, b), d) == Dot(a, d) - Dot(b, d)
  {
  }

  /** The dot product distributes over a sum in its first argument. */
  lemma DotAdd(a: Vector3, b: Vector3, d: Vector3)
    ensures Dot(Add(a, b), d) == Dot(a, d) + Dot(b, d)
  {
  }

  /** Scaling the first argument scales the dot product. */
  lemma DotScale(k: real, a: Vector3, d: Vector3)
    ensures Dot(Scale(k, a), d) == k * Dot(a, d)
  {
  }

  lemma ScaleScale(k1: real, k2: real, v: Vector3)
    ensures Scale(k1, Scale(k2, v)) == Scale(k1 * k2, v)
  {
  }

  lemma ScaleAdd(k: real, a: Vector3, b: Vector3)
    ensures Scale(k, Add(a, b)) == Add(Scale(k, a), Scale(k, b))
  {
  }

  lemma ScaleSub(k: real, a: Vector3, b: Vector3)
    ensures Scale(k, Sub(a, b)) == Sub(Scale(k, a), Scale(k, b))
  {
  }

  lemma ScaleOne(k: real, v: Vector3)
    requires k == 1.0
    ensures Scale(k, v) == v
  {
  }

  /** Negating one argument negates the dot product. */
  lemma DotNeg(a: Vector3, d: Vector3)
    ensures Dot(a, Neg(d)) == -Dot(a, d)
    ensures Dot(Neg(a), d) == -Dot(a, d)
  {
  }

  /** v3_norm2: the squared length. */
  function Norm2(v: Vector3): real {
    v.x * v.x + v.y * v.y + v.z * v.z
  }

  /** The squared length is never negative and is zero only for the zero
      vector. */
  lemma Norm2Positive(v: Vector3)
    ensures Norm2(v) >= 0.0
    ensures Norm2(v) == 0.0 <==> v == Zero
  {
    SquarePositive(v.x);
    SquarePositive(v.y);
    SquarePositive(v.z);
    assert Norm2(v) == Square(v.x) + Square(v.y) + Square(v.z);
  }

  /** The squared length is the dot product of a vector with itself. */
  lemma DotSelf(v: Vector3)
    ensures Dot(v, v) == Norm2(v)
  {
  }

  lemma Norm2Neg(v: Vector3)
    ensures Norm2(Neg(v)) == Norm2(v)
  {
  }

  /** Scaling a vector by k scales its squared norm by k^2. */
  lemma Norm2Scale(k: real, v: Vector3)
    ensures Norm2(Scale(k, v)) == k * k * Norm2(v)
  {
  }

  /** v3_cmp_zero: the vector lies within epsilon of the origin. */
  predicate CmpZero(v: Vector3) {
    Norm2(v) < Epsilon2
  }

  /** The zero vector passes v3_cmp_zero, and a vector that passes it has
      every coordinate within epsilon of zero. */
  lemma CmpZeroNear(v: Vector3)
    ensures v == Zero ==> CmpZero(v)
    ensures CmpZero(v) ==> F32CmpZero(v.x) && F32CmpZero(v.y) && F32CmpZero(v.z)
  {
    SquareBeyond(v.x);
    SquareBeyond(v.y);
    SquareBeyond(v.z);
  }

  /** A coordinate at least epsilon away from zero has a square of at least
      epsilon squared. */
  lemma SquareBeyond(c: real)
    ensures F32Abs(c) >= Epsilon ==> c * c >= Epsilon2
  {
    var a := F32Abs(c);
    if a >= Epsilon {
      assert c * c == a * a;
      assert a * a >= a * Epsilon;
    }
  }

  /** v3_cross: the cross product, orthogonal to both of its arguments. */
  function Cross(a: Vector3, b: Vector3): Vector3 {
    Vector3(a.y * b.z - a.z * b.y,
            a.z * b.x - a.x * b.z,
            a.x * b.y - a.y * b.x)
  }

  /** The cross product is orthogonal to both of its arguments. */
  lemma CrossOrthogonal(a: Vector3, b: Vector3)
    ensures Dot(Cross(a, b), a) == 0.0 && Dot(Cross(a, b), b) == 0.0
  {
  }

  /** A vector is parallel to every multiple of itself. */
  lemma CrossScaled(k: real, v: Vector3)
    ensures Cross(Scale(k, v), v) == Zero
  {
  }

  /** v3_triple_cross, computed by Lagrange's formula as the source does;
      the result is the iterated cross product (a x b) x c. */
  function TripleCross(a: Vector3, b: Vector3, c: Vector3): (r: Vector3)
    ensures r == Cross(Cross(a, b), c)
  {
    LagrangeFormulaX(a, b, c);
    LagrangeFormulaY(a, b, c);
    LagrangeFormulaZ(a, b, c);
    Sub(Scale(Dot(c, a), b), Scale(Dot(c, b), a))
  }

  /** Lagrange's formula in coordinates: with k1 == c . a, k2 == c . b and
      n == a x b, the vector k1 b - k2 a equals n x c. */
  lemma LagrangeCoordinates(ax: real, ay: real, az: real, bx: real, b_y: real, bz: real,
                            cx: real, cy: real, cz: real,
                            k1: real, k2: real, n1: real, n2: real, n3: real)
    requires k1 == cx * ax + cy * ay + cz * az
    requires k2 == cx * bx + cy * b_y + cz * bz
    requires n1 == ay * bz - az * b_y && n2 == az * bx - ax * bz && n3 == ax * b_y - ay * bx
    ensures k1 * bx - k2 * ax == n2 * cz - n3 * cy
    ensures k1 * b_y - k2 * ay == n3 * cx - n1 * cz
    ensures k1 * bz - k2 * az == n1 * cy - n2 * cx
  {
  }

  lemma LagrangeFormulaX(a: Vector3, b: Vector3, c: Vector3)
    ensures Sub(Scale(Dot(c, a), b), Scale(Dot(c, b), a)).x == Cross(Cross(a, b), c).x
  {
    var n := Cross(a, b);
    LagrangeCoordinates(a.x, a.y, a.z, b.x, b.y, b.z, c.x, c.y, c.z, Dot(c, a), Dot(c, b), n.x, n.y, n.z);
  }

  lemma LagrangeFormulaY(a: Vector3, b: Vector3, c: Vector3)
    ensures Sub(Scale(Dot(c, a), b), Scale(Dot(c, b), a)).y == Cross(Cross(a, b), c).y
  {
    var n := Cross(a, b);
    LagrangeCoordinates(a.x, a.y, a.z, b.x, b.y, b.z, c.x, c.y, c.z, Dot(c, a), Dot(c, b), n.x, n.y, n.z);
  }

  lemma LagrangeFormulaZ(a: Vector3, b: Vector3, c: Vector3)
    ensures Sub(Scale(Dot(c, a), b), Scale(Dot(c, b), a)).z == Cross(Cross(a, b), c).z
  {
    var n := Cross(a, b);
    LagrangeCoordinates(a.x, a.y, a.z, b.x, b.y, b.z, c.x, c.y, c.z, Dot(c, a), Dot(c, b), n.x, n.y, n.z);
  }

  /** operator==, which compares componentwise, holds exactly when the
      difference of the two vectors is the zero vector. */
  lemma EqualIffDifferenceZero(a: Vector3, b: Vector3)
    ensures a == b <==> (a.x == b.x && a.y == b.y && a.z == b.z)
    ensures a == b <==> Sub(a, b) == Zero
  {
  }

  // ----------------------------------------------------------------
  // Identities used by the simplex proofs
  // ----------------------------------------------------------------

  /** The scalar triple product (a x b) . c, the determinant of a, b, c. */
  function Det(a: Vector3, b: Vector3, c: Vector3): real {
    Dot(Cross(a, b), c)
  }

  /** Lagrange's identity: |a x b|^2 == |a|^2 |b|^2 - (a . b)^2. */
  lemma LagrangeIdentity(a: Vector3, b: Vector3)
    ensures Norm2(Cross(a, b)) == Norm2(a) * Norm2(b) - Dot(a, b) * Dot(a, b)
  {
    var n := Cross(a, b);
    LagrangeIdentityCoordinates(a.x, a.y, a.z, b.x, b.y, b.z, n.x, n.y, n.z,
                                Norm2(a), Norm2(b), Dot(a, b));
  }

  lemma LagrangeIdentityCoordinates(ax: real, ay: real, az: real, bx: real, b_y: real, bz: real,
                                    n1: real, n2: real, n3: real, na: real, nb: real, d: real)
    requires n1 == ay * bz - az * b_y && n2 == az * bx - ax * bz && n3 == ax * b_y - ay * bx
    requires na == ax * ax + ay * ay + az * az && nb == bx * bx + b_y * b_y + bz * bz
    requires d == ax * bx + ay * b_y + az * bz
    ensures n1 * n1 + n2 * n2 + n3 * n3 == na * nb - d * d
  {
  }

  /** Swapping the arguments of the cross product negates it. */
  lemma CrossAntiCommutes(a: Vector3, b: Vector3)
    ensures Cross(b, a) == Neg(Cross(a, b))
  {
  }

  /** The determinant expanded into the coordinates of its arguments. */
  lemma DetExpanded(a: Vector3, b: Vector3, c: Vector3)
    ensures Det(a, b, c) == (a.y * b.z - a.z * b.y) * c.x + (a.z * b.x - a.x * b.z) * c.y
                            + (a.x * b.y - a.y * b.x) * c.z
  {
  }

  /** The determinant is unchanged by a cyclic shift of its arguments. */
  lemma DetCyclic(a: Vector3, b: Vector3, c: Vector3)
    ensures Det(a, b, c) == Det(b, c, a)
  {
    DetExpanded(a, b, c);
    DetExpanded(b, c, a);
  }

  /** The determinant changes sign when two of its arguments are swapped. */
  lemma DetSwaps(a: Vector3, b: Vector3, c: Vector3)
    ensures Det(b, a, c) == -Det(a, b, c)
    ensures Det(c, b, a) == -Det(a, b, c)
    ensures Det(a, c, b) == -Det(a, b, c)
  {
    DetExpanded(a, b, c);
    DetExpanded(b, a, c);
    DetExpanded(c, b, a);
    DetExpanded(a, c, b);
  }

  /** Cramer's rule: det(u, v, n) w == det(w, v, n) u + det(u, w, n) v + det(u, v, w) n. */
  lemma Cramer(u: Vector3, v: Vector3, w: Vector3, n: Vector3)
    ensures Scale(Det(u, v, n), w)
         == Add(Add(Scale(Det(w, v, n), u), Scale(Det(u, w, n), v)), Scale(Det(u, v, w), n))
  {
    DetExpanded(u, v, n);
    DetExpanded(w, v, n);
    DetExpanded(u, w, n);
    DetExpanded(u, v, w);
    CramerCoordinates(u.x, u.y, u.z, v.x, v.y, v.z, w.x, w.y, w.z, n.x, n.y, n.z,
                      Det(u, v, n), Det(w, v, n), Det(u, w, n), Det(u, v, w));
  }

  lemma CramerCoordinates(ux: real, uy: real, uz: real, vx: real, vy: real, vz: real,
                          wx: real, wy: real, wz: real, nx: real, ny: real, nz: real,
                          d0: real, d1: real, d2: real, d3: real)
    requires d0 == (uy * vz - uz * vy) * nx + (uz * vx - ux * vz) * ny + (ux * vy - uy * vx) * nz
    requires d1 == (wy * vz - wz * vy) * nx + (wz * vx - wx * vz) * ny + (wx * vy - wy * vx) * nz
    requires d2 == (uy * wz - uz * wy) * nx + (uz * wx - ux * wz) * ny + (ux * wy - uy * wx) * nz
    requires d3 == (uy * vz - uz * vy) * wx + (uz * vx - ux * vz) * wy + (ux * vy - uy * vx) * wz
    ensures d0 * wx == d1 * ux + d2 * vx + d3 * nx
    ensures d0 * wy == d1 * uy + d2 * vy + d3 * ny
    ensures d0 * wz == d1 * uz + d2 * vz + d3 * nz
  {
  }

  /** Cramer's rule for a vector w lying in the plane spanned by u and v,
      whose normal is n == u x v. */
  lemma CramerInPlane(u: Vector3, v: Vector3, n: Vector3, w: Vector3)
    requires n == Cross(u, v) && Dot(n, w) == 0.0
    ensures Scale(Norm2(n), w) == Add(Scale(Dot(Cross(v, n), w), u), Scale(Dot(Cross(n, u), w), v))
  {
    Cramer(u, v, w, n);
    assert Det(u, v, n) == Norm2(n);
    DetCyclic(w, v, n);
    DetCyclic(u, w, n);
    DetCyclic(w, n, u);
  }

  /** Dividing a vector identity N w == a u + b v by N, given k == 1 / N. */
  lemma Unscale(nn: real, w: Vector3, a: real, u: Vector3, b: real, v: Vector3, k: real)
    requires k * nn == 1.0 && Scale(nn, w) == Add(Scale(a, u), Scale(b, v))
    ensures w == Add(Scale(k * a, u), Scale(k * b, v))
  {
    ScaleScale(k, nn, w);
    ScaleAdd(k, Scale(a, u), Scale(b, v));
    ScaleScale(k, a, u);
    ScaleScale(k, b, v);
    ScaleOne(k * nn, w);
  }
}
