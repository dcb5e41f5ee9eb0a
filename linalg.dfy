/**
 * GLSL vector and matrix types over the reals. Matrices are stored by
 * columns, as GLSL stores them: `Mat3(c0, c1, c2)` is what `mat3(c0, c1, c2)`
 * builds, and the nine-scalar constructor `mat3(a0, ..., a8)` fills c0 with
 * a0..a2, c1 with a3..a5 and c2 with a6..a8.
 */
module LinAlg {
  import RealMath
  datatype Vec2 = Vec2(x: real, y: real)
  datatype Vec3 = Vec3(x: real, y: real, z: real)
  datatype Vec4 = Vec4(x: real, y: real, z: real, w: real) {
    function Xyz(): Vec3 { Vec3(x, y, z) }
    function Xy(): Vec2 { Vec2(x, y) }
  }

  datatype Mat2 = Mat2(c0: Vec2, c1: Vec2)
  datatype Mat3 = Mat3(c0: Vec3, c1: Vec3, c2: Vec3)
  datatype Mat4 = Mat4(c0: Vec4, c1: Vec4, c2: Vec4, c3: Vec4)

  function Add2(a: Vec2, b: Vec2): Vec2 { Vec2(a.x + b.x, a.y + b.y) }
  function Sub2(a: Vec2, b: Vec2): Vec2 { Vec2(a.x - b.x, a.y - b.y) }
  function Scale2(a: Vec2, s: real): Vec2 { Vec2(a.x * s, a.y * s) }
  function Div2(a: Vec2, s: real): Vec2 requires s != 0.0 { Vec2(a.x / s, a.y / s) }
  function Dot2(a: Vec2, b: Vec2): real { a.x * b.x + a.y * b.y }

  function Add3(a: Vec3, b: Vec3): Vec3 { Vec3(a.x + b.x, a.y + b.y, a.z + b.z) }
  function Scale3(a: Vec3, s: real): Vec3 { Vec3(a.x * s, a.y * s, a.z * s) }
  function Div3(a: Vec3, s: real): Vec3 requires s != 0.0 { Vec3(a.x / s, a.y / s, a.z / s) }
  function Dot3(a: Vec3, b: Vec3): real { a.x * b.x + a.y * b.y + a.z * b.z }
  function Cross(a: Vec3, b: Vec3): Vec3 {
    Vec3(a.y * b.z - a.z * b.y, a.z * b.x - a.x * b.z, a.x * b.y - a.y * b.x)
  }
  function Extend(a: Vec3, w: real): Vec4 { Vec4(a.x, a.y, a.z, w) }

  function Scale4(a: Vec4, s: real): Vec4 { Vec4(a.x * s, a.y * s, a.z * s, a.w * s) }
  function Dot4(a: Vec4, b: Vec4): real { a.x * b.x + a.y * b.y + a.z * b.z + a.w * b.w }

  const Identity2: Mat2 := Mat2(Vec2(1.0, 0.0), Vec2(0.0, 1.0))
  const Identity4: Mat4 :=
    Mat4(Vec4(1.0, 0.0, 0.0, 0.0), Vec4(0.0, 1.0, 0.0, 0.0), Vec4(0.0, 0.0, 1.0, 0.0), Vec4(0.0, 0.0, 0.0, 1.0))

  /** Matrix times column vector: entry i is row i of the matrix dotted with the vector. */
  function MulV2(m: Mat2, v: Vec2): Vec2 {
    Add2(Scale2(m.c0, v.x), Scale2(m.c1, v.y))
  }
  function MulV3(m: Mat3, v: Vec3): Vec3 {
    Vec3(m.c0.x * v.x + m.c1.x * v.y + m.c2.x * v.z,
         m.c0.y * v.x + m.c1.y * v.y + m.c2.y * v.z,
         m.c0.z * v.x + m.c1.z * v.y + m.c2.z * v.z)
  }
  function MulV4(m: Mat4, v: Vec4): Vec4 {
    Vec4(m.c0.x * v.x + m.c1.x * v.y + m.c2.x * v.z + m.c3.x * v.w,
         m.c0.y * v.x + m.c1.y * v.y + m.c2.y * v.z + m.c3.y * v.w,
         m.c0.z * v.x + m.c1.z * v.y + m.c2.z * v.z + m.c3.z * v.w,
         m.c0.w * v.x + m.c1.w * v.y + m.c2.w * v.z + m.c3.w * v.w)
  }

  function Mul2(a: Mat2, b: Mat2): Mat2 { Mat2(MulV2(a, b.c0), MulV2(a, b.c1)) }
  function Mul3(a: Mat3, b: Mat3): Mat3 { Mat3(MulV3(a, b.c0), MulV3(a, b.c1), MulV3(a, b.c2)) }
  function Mul4(a: Mat4, b: Mat4): Mat4 { Mat4(MulV4(a, b.c0), MulV4(a, b.c1), MulV4(a, b.c2), MulV4(a, b.c3)) }

  function Transpose3(m: Mat3): Mat3 {
    Mat3(Vec3(m.c0.x, m.c1.x, m.c2.x), Vec3(m.c0.y, m.c1.y, m.c2.y), Vec3(m.c0.z, m.c1.z, m.c2.z))
  }
  function Transpose4(m: Mat4): Mat4 {
    Mat4(Vec4(m.c0.x, m.c1.x, m.c2.x, m.c3.x), Vec4(m.c0.y, m.c1.y, m.c2.y, m.c3.y),
         Vec4(m.c0.z, m.c1.z, m.c2.z, m.c3.z), Vec4(m.c0.w, m.c1.w, m.c2.w, m.c3.w))
  }

  /** GLSL `mat3(m4)`: the upper-left 3x3 block. */
  function Upper3(m: Mat4): Mat3 { Mat3(m.c0.Xyz(), m.c1.Xyz(), m.c2.Xyz()) }
  /** GLSL `mat2(m3)`: the upper-left 2x2 block. */
  function Upper2(m: Mat3): Mat2 { Mat2(Vec2(m.c0.x, m.c0.y), Vec2(m.c1.x, m.c1.y)) }

  predicate Symmetric2(m: Mat2) { m.c0.y == m.c1.x }
  predicate Symmetric3(m: Mat3) { m.c0.y == m.c1.x && m.c0.z == m.c2.x && m.c1.z == m.c2.y }
  predicate Symmetric4(m: Mat4) {
    && m.c0.y == m.c1.x && m.c0.z == m.c2.x && m.c0.w == m.c3.x
    && m.c1.z == m.c2.y && m.c1.w == m.c3.y && m.c2.w == m.c3.z
  }

  /** GLSL `length` of a 3-vector. */
  function Length3(m: RealMath.Math, v: Vec3): real { m.sqrt(Dot3(v, v)) }
  function Length2(m: RealMath.Math, v: Vec2): real { m.sqrt(Dot2(v, v)) }

  /** `mat4(1.0)` with the diagonal overwritten: diag(a, b, c, d). */
  function Diag4(a: real, b: real, c: real, d: real): Mat4 {
    Mat4(Vec4(a, 0.0, 0.0, 0.0), Vec4(0.0, b, 0.0, 0.0), Vec4(0.0, 0.0, c, 0.0), Vec4(0.0, 0.0, 0.0, d))
  }

  /** A^T D A is symmetric for every A when D is diagonal. */
  lemma DiagonalCongruence4(a: Mat4, d0: real, d1: real, d2: real, d3: real)
    ensures Symmetric4(Mul4(Mul4(Transpose4(a), Diag4(d0, d1, d2, d3)), a))
  {
  }

  /** The upper-left 2x2 corner of R^T C R is symmetric whenever C is. */
  lemma CongruenceCornerSymmetric(r: Mat3, c: Mat3)
    requires Symmetric3(c)
    ensures Symmetric2(Upper2(Mul3(Mul3(Transpose3(r), c), r)))
  {
    var t := Transpose3(r);
    var m := Mul3(t, c);
    MulV3Entries(t, c.c0); MulV3Entries(t, c.c1); MulV3Entries(t, c.c2);
    MulV3Entries(m, r.c0); MulV3Entries(m, r.c1);
    CornerEntries(t, c, m, r.c0, r.c1);
  }

  /** The entries of M v, each a dot product of a row of M with v. */
  lemma MulV3Entries(m: Mat3, v: Vec3)
    ensures MulV3(m, v).x == m.c0.x * v.x + m.c1.x * v.y + m.c2.x * v.z
    ensures MulV3(m, v).y == m.c0.y * v.x + m.c1.y * v.y + m.c2.y * v.z
    ensures MulV3(m, v).z == m.c0.z * v.x + m.c1.z * v.y + m.c2.z * v.z
  {
  }

  /**
   * With T = R^T and M = T C, entry (0, 1) of M R equals entry (1, 0): the
   * entries of T and M are passed as they occur, so that only the scalar
   * identity of Bilinear is left.
   */
  lemma CornerEntries(t: Mat3, c: Mat3, m: Mat3, r0: Vec3, r1: Vec3)
    requires t.c0.x == r0.x && t.c1.x == r0.y && t.c2.x == r0.z
    requires t.c0.y == r1.x && t.c1.y == r1.y && t.c2.y == r1.z
    requires Symmetric3(c)
    requires m.c0.x == t.c0.x * c.c0.x + t.c1.x * c.c0.y + t.c2.x * c.c0.z
    requires m.c1.x == t.c0.x * c.c1.x + t.c1.x * c.c1.y + t.c2.x * c.c1.z
    requires m.c2.x == t.c0.x * c.c2.x + t.c1.x * c.c2.y + t.c2.x * c.c2.z
    requires m.c0.y == t.c0.y * c.c0.x + t.c1.y * c.c0.y + t.c2.y * c.c0.z
    requires m.c1.y == t.c0.y * c.c1.x + t.c1.y * c.c1.y + t.c2.y * c.c1.z
    requires m.c2.y == t.c0.y * c.c2.x + t.c1.y * c.c2.y + t.c2.y * c.c2.z
    ensures m.c0.x * r1.x + m.c1.x * r1.y + m.c2.x * r1.z == m.c0.y * r0.x + m.c1.y * r0.y + m.c2.y * r0.z
  {
    Bilinear(r0.x, r0.y, r0.z, r1.x, r1.y, r1.z, c.c0.x, c.c0.y, c.c0.z, c.c1.y, c.c1.z, c.c2.z,
             m.c0.x, m.c1.x, m.c2.x, m.c0.y, m.c1.y, m.c2.y);
  }

  /** For a symmetric C with p = C u and q = C w: p . w == q . u. */
  lemma Bilinear(u0: real, u1: real, u2: real, w0: real, w1: real, w2: real,
                 c00: real, c01: real, c02: real, c11: real, c12: real, c22: real,
                 p0: real, p1: real, p2: real, q0: real, q1: real, q2: real)
    requires p0 == u0 * c00 + u1 * c01 + u2 * c02
    requires p1 == u0 * c01 + u1 * c11 + u2 * c12
    requires p2 == u0 * c02 + u1 * c12 + u2 * c22
    requires q0 == w0 * c00 + w1 * c01 + w2 * c02
    requires q1 == w0 * c01 + w1 * c11 + w2 * c12
    requires q2 == w0 * c02 + w1 * c12 + w2 * c22
    ensures p0 * w0 + p1 * w1 + p2 * w2 == q0 * u0 + q1 * u1 + q2 * u2
  {
  }

  /** dot(v / l, v / l) l l = dot(v, v). */
  lemma DotOfQuotient(v: Vec3, l: real)
    requires l != 0.0
    ensures (Dot3(Div3(v, l), Div3(v, l)) * l) * l == Dot3(v, v)
  {
    var w := Div3(v, l);
    RealMath.QuotientTimes(v.x, l);
    RealMath.QuotientTimes(v.y, l);
    RealMath.QuotientTimes(v.z, l);
    calc {
      (Dot3(w, w) * l) * l;
      (w.x * l) * (w.x * l) + (w.y * l) * (w.y * l) + (w.z * l) * (w.z * l);
      v.x * v.x + v.y * v.y + v.z * v.z;
    }
  }

  /** Dividing a vector by a positive l scales its length by 1 / l. */
  lemma LengthOfQuotient(m: RealMath.Math, v: Vec3, l: real)
    requires RealMath.SqrtLaw(m.sqrt) && 0.0 < l
    ensures Length3(m, Div3(v, l)) == Length3(m, v) / l
  {
    var d := Dot3(Div3(v, l), Div3(v, l));
    var len := Length3(m, v);
    var q := len / l;
    DotOfQuotient(v, l);
    RealMath.QuotientTimes(len, l);
    assert (q * q * l) * l == len * len by {
      calc {
        (q * q * l) * l;
        (q * l) * (q * l);
        len * len;
      }
    }
    RealMath.CancelNonzero(d * l, q * q * l, l);
    RealMath.CancelNonzero(d, q * q, l);
    RealMath.SqrtOfSquare(m, d, q);
  }

  /** GLSL lengths are non-negative, and the length squared is the dot product. */
  lemma LengthSquared3(m: RealMath.Math, v: Vec3)
    requires RealMath.SqrtLaw(m.sqrt)
    ensures 0.0 <= Length3(m, v) && Length3(m, v) * Length3(m, v) == Dot3(v, v)
  {
    assert 0.0 <= v.x * v.x && 0.0 <= v.y * v.y && 0.0 <= v.z * v.z;
  }

  lemma LengthSquared2(m: RealMath.Math, v: Vec2)
    requires RealMath.SqrtLaw(m.sqrt)
    ensures 0.0 <= Length2(m, v) && Length2(m, v) * Length2(m, v) == Dot2(v, v)
  {
    assert 0.0 <= v.x * v.x && 0.0 <= v.y * v.y;
  }

  /** GLSL `normalize`: dividing a vector of non-zero length by its length gives a unit vector. */
  lemma NormalizedIsUnit(m: RealMath.Math, v: Vec3)
    requires RealMath.SqrtLaw(m.sqrt) && Length3(m, v) != 0.0
    ensures Length3(m, Div3(v, Length3(m, v))) == 1.0
  {
    var l := Length3(m, v);
    LengthSquared3(m, v);
    LengthOfQuotient(m, v, l);
    RealMath.SelfQuotient(l);
  }
}
