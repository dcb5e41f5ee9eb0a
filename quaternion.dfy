/**
 * The GLSL helper functions of the anisotropic billboard shader
 * (billboards_filter.py): quaternion product, rotation of a vector,
 * quaternion to rotation matrix, and the closed-form 2x2 inverse.
 * Quaternions are `Vec4` read as (x, y, z, w): vector part first, scalar last.
 */
module QuaternionShader {
  import opened LinAlg
  import opened Wrappers

  /** `quaternion_rot3(q, r)`: r + w t + q.xyz x t with t = 2 q.xyz x r. */
  function Rot3(q: Vec4, r: Vec3): (s: Vec3)
    ensures q.x == 0.0 && q.y == 0.0 && q.z == 0.0 ==> s == r
  {
    var t := Scale3(Cross(q.Xyz(), r), 2.0);
    Add3(Add3(r, Scale3(t, q.w)), Cross(q.Xyz(), t))
  }

  /** `quaternion_rot4(q, r)`: rotates r.xyz and sets the last entry to 0. */
  function Rot4(q: Vec4, r: Vec4): Vec4 {
    var t := Scale3(Cross(q.Xyz(), r.Xyz()), 2.0);
    Extend(Add3(Add3(r.Xyz(), Scale3(t, q.w)), Cross(q.Xyz(), t)), 0.0)
  }

  /** `quaternion_mat3(q)`: nine scalars, which GLSL places column by column. */
  function QuatMat3(q: Vec4): Mat3 {
    var x2, y2, z2 := q.x * q.x, q.y * q.y, q.z * q.z;
    var xy, xz, yz := q.x * q.y, q.x * q.z, q.y * q.z;
    var wx, wy, wz := q.w * q.x, q.w * q.y, q.w * q.z;
    Mat3(Vec3(1.0 - 2.0 * (y2 + z2), 2.0 * (xy - wz), 2.0 * (xz + wy)),
         Vec3(2.0 * (xy + wz), 1.0 - 2.0 * (x2 + z2), 2.0 * (yz - wx)),
         Vec3(2.0 * (xz - wy), 2.0 * (yz + wx), 1.0 - 2.0 * (x2 + y2)))
  }

  /** `quaternion_mat4(q)`: the same nine entries padded with a last row and column (0, 0, 0, 1). */
  function QuatMat4(q: Vec4): Mat4 {
    var x2, y2, z2 := q.x * q.x, q.y * q.y, q.z * q.z;
    var xy, xz, yz := q.x * q.y, q.x * q.z, q.y * q.z;
    var wx, wy, wz := q.w * q.x, q.w * q.y, q.w * q.z;
    Mat4(Vec4(1.0 - 2.0 * (y2 + z2), 2.0 * (xy - wz), 2.0 * (xz + wy), 0.0),
         Vec4(2.0 * (xy + wz), 1.0 - 2.0 * (x2 + z2), 2.0 * (yz - wx), 0.0),
         Vec4(2.0 * (xz - wy), 2.0 * (yz + wx), 1.0 - 2.0 * (x2 + y2), 0.0),
         Vec4(0.0, 0.0, 0.0, 1.0))
  }

  /** `rot4` rotates the vector part exactly as `rot3` and ignores r.w. */
  lemma Rot4IsRot3(q: Vec4, r: Vec4, w: real)
    ensures Rot4(q, r) == Extend(Rot3(q, r.Xyz()), 0.0)
    ensures Rot4(q, r) == Rot4(q, r.(w := w))
  {
  }

  /**
   * Because GLSL fills matrices by columns, `quaternion_mat3(q)` is the
   * TRANSPOSE of the matrix of v |-> rot3(q, v), for every q (unit or not).
   */
  lemma QuatMat3IsTransposedRot3(q: Vec4, v: Vec3)
    ensures MulV3(Transpose3(QuatMat3(q)), v) == Rot3(q, v)
  {
    var a, t := q.Xyz(), Scale3(Cross(q.Xyz(), v), 2.0);
    MatrixSide(q, v);
    RotationSide(q, v);
    RotationRows(q, v, a, t);
  }

  /** `quaternion_mat3(q)` transposed and applied to v, entry by entry. */
  lemma MatrixSide(q: Vec4, v: Vec3)
    ensures
      var x, y, z, w, rx, ry, rz := q.x, q.y, q.z, q.w, v.x, v.y, v.z;
      MulV3(Transpose3(QuatMat3(q)), v) ==
      Vec3((1.0 - 2.0 * (y * y + z * z)) * rx + 2.0 * (x * y - w * z) * ry + 2.0 * (x * z + w * y) * rz,
           2.0 * (x * y + w * z) * rx + (1.0 - 2.0 * (x * x + z * z)) * ry + 2.0 * (y * z - w * x) * rz,
           2.0 * (x * z - w * y) * rx + 2.0 * (y * z + w * x) * ry + (1.0 - 2.0 * (x * x + y * y)) * rz)
  {
  }

  /** `rot3` through its intermediate t = 2 (q.xyz x r), written out entry by entry. */
  lemma RotationSide(q: Vec4, v: Vec3)
    ensures
      var a, t := q.Xyz(), Scale3(Cross(q.Xyz(), v), 2.0);
      && a == Vec3(q.x, q.y, q.z)
      && t == Vec3((a.y * v.z - a.z * v.y) * 2.0, (a.z * v.x - a.x * v.z) * 2.0, (a.x * v.y - a.y * v.x) * 2.0)
      && Rot3(q, v) == Vec3(v.x + t.x * q.w + (a.y * t.z - a.z * t.y),
                            v.y + t.y * q.w + (a.z * t.x - a.x * t.z),
                            v.z + t.z * q.w + (a.x * t.y - a.y * t.x))
  {
  }

  /**
   * The rotation identity written out in scalars, row by row: a is the
   * vector part of q and t is 2 (a x v).
   */
  lemma RotationRows(q: Vec4, v: Vec3, a: Vec3, t: Vec3)
    requires a == Vec3(q.x, q.y, q.z)
    requires t == Vec3((a.y * v.z - a.z * v.y) * 2.0, (a.z * v.x - a.x * v.z) * 2.0, (a.x * v.y - a.y * v.x) * 2.0)
    ensures
      var x, y, z, w, rx, ry, rz := q.x, q.y, q.z, q.w, v.x, v.y, v.z;
      && v.x + t.x * q.w + (a.y * t.z - a.z * t.y)
         == (1.0 - 2.0 * (y * y + z * z)) * rx + 2.0 * (x * y - w * z) * ry + 2.0 * (x * z + w * y) * rz
      && v.y + t.y * q.w + (a.z * t.x - a.x * t.z)
         == 2.0 * (x * y + w * z) * rx + (1.0 - 2.0 * (x * x + z * z)) * ry + 2.0 * (y * z - w * x) * rz
      && v.z + t.z * q.w + (a.x * t.y - a.y * t.x)
         == 2.0 * (x * z - w * y) * rx + 2.0 * (y * z + w * x) * ry + (1.0 - 2.0 * (x * x + y * y)) * rz
  {
  }

  /** `quaternion_mat4(q)` is `quaternion_mat3(q)` with last row and column (0, 0, 0, 1). */
  lemma QuatMat4Block(q: Vec4)
    ensures Upper3(QuatMat4(q)) == QuatMat3(q)
    ensures QuatMat4(q).c3 == Vec4(0.0, 0.0, 0.0, 1.0)
    ensures QuatMat4(q).c0.w == 0.0 && QuatMat4(q).c1.w == 0.0 && QuatMat4(q).c2.w == 0.0
  {
  }

  function Det2(m: Mat2): real { m.c0.x * m.c1.y - m.c0.y * m.c1.x }

  /**
   * `inverse(m)`: the adjugate divided by the determinant. GLSL divides
   * without a guard; a zero determinant gives non-finite entries, which the
   * model represents as `None`.
   */
  function Inverse(m: Mat2): (r: Option<Mat2>)
    ensures r.Some? <==> Det2(m) != 0.0
  {
    var det := m.c0.x * m.c1.y - m.c0.y * m.c1.x;
    if det == 0.0 then None
    else Some(Mat2(Vec2(m.c1.y / det, -m.c0.y / det), Vec2(-m.c1.x / det, m.c0.x / det)))
  }

  /** When it exists, `inverse(m)` is a two-sided inverse of m. */
  lemma InverseIsInverse(m: Mat2)
    requires Det2(m) != 0.0
    ensures Inverse(m).Some?
    ensures Mul2(Inverse(m).value, m) == Identity2
    ensures Mul2(m, Inverse(m).value) == Identity2
  {
    InverseProducts(m);
    AdjugateTimes(m, Inverse(m).value, Det2(m));
  }

  /** adj(m)/det(m) is an inverse of m on both sides. */
  lemma AdjugateTimes(m: Mat2, n: Mat2, det: real)
    requires det == Det2(m) && det != 0.0
    requires n == Mat2(Vec2(m.c1.y / det, -m.c0.y / det), Vec2(-m.c1.x / det, m.c0.x / det))
    ensures Mul2(n, m) == Identity2 && Mul2(m, n) == Identity2
  {
    Mul2Entries(n, m);
    Mul2Entries(m, n);
    AdjugateOverDet(m.c0.x, m.c0.y, m.c1.x, m.c1.y, det, n.c0.x, n.c0.y, n.c1.x, n.c1.y);
  }

  lemma InverseProducts(m: Mat2)
    requires Det2(m) != 0.0
    ensures Inverse(m).Some?
    ensures Inverse(m).value.c0 == Vec2(m.c1.y / Det2(m), -m.c0.y / Det2(m))
    ensures Inverse(m).value.c1 == Vec2(-m.c1.x / Det2(m), m.c0.x / Det2(m))
  {
  }

  lemma Mul2Entries(n: Mat2, m: Mat2)
    ensures Mul2(n, m) ==
      Mat2(Vec2(n.c0.x * m.c0.x + n.c1.x * m.c0.y, n.c0.y * m.c0.x + n.c1.y * m.c0.y),
           Vec2(n.c0.x * m.c1.x + n.c1.x * m.c1.y, n.c0.y * m.c1.x + n.c1.y * m.c1.y))
  {
  }

  /**
   * The entries of adj(m)/det(m) times m, and of m times adj(m)/det(m), in
   * scalars: m has columns (a, b) and (c, d), its inverse (p, q) and (r, s).
   */
  lemma AdjugateOverDet(a: real, b: real, c: real, d: real, det: real,
                         p: real, q: real, r: real, s: real)
    requires det == a * d - b * c && det != 0.0
    requires p == d / det && q == -b / det && r == -c / det && s == a / det
    ensures p * a + r * b == 1.0 && q * a + s * b == 0.0
    ensures p * c + r * d == 0.0 && q * c + s * d == 1.0
    ensures a * p + c * q == 1.0 && b * p + d * q == 0.0
    ensures a * r + c * s == 0.0 && b * r + d * s == 1.0
  {
    assert p * a + r * b == det / det;
    assert q * c + s * d == det / det;
    assert a * p + c * q == det / det;
    assert b * r + d * s == det / det;
  }

  /** The unit quaternion in the shader's (x, y, z, w) layout. */
  const QuatIdentity: Vec4 := Vec4(0.0, 0.0, 0.0, 1.0)

  function QuatNorm2(q: Vec4): real { Dot4(q, q) }

  /**
   * `quaternion_mult(p, q)` as written: it reads both arguments scalar-last
   * (p.w, q.w) but returns the scalar FIRST, followed by the vector part.
   */
  function QuatMultAsWritten(p: Vec4, q: Vec4): (r: Vec4)
    ensures r.x == p.w * q.w - Dot3(p.Xyz(), q.Xyz())
    ensures Vec3(r.y, r.z, r.w) == QuatMult(p, q).Xyz()
  {
    var s := p.w * q.w - Dot3(p.Xyz(), q.Xyz());
    var v := Add3(Add3(Scale3(q.Xyz(), p.w), Scale3(p.Xyz(), q.w)), Cross(p.Xyz(), q.Xyz()));
    Vec4(s, v.x, v.y, v.z)
  }

  /**
   * The Hamilton product in the scalar-last layout the shader uses for
   * `vec4(quatvec, quat_w)`: the same scalar and vector parts, with the
   * scalar stored last.
   */
  function QuatMult(p: Vec4, q: Vec4): (r: Vec4)
    ensures r.w == p.w * q.w - Dot3(p.Xyz(), q.Xyz())
  {
    var s := p.w * q.w - Dot3(p.Xyz(), q.Xyz());
    var v := Add3(Add3(Scale3(q.Xyz(), p.w), Scale3(p.Xyz(), q.w)), Cross(p.Xyz(), q.Xyz()));
    Extend(v, s)
  }

  /**
   * The layout mix-up: multiplying by the identity does not give back q;
   * the scalar moves to the front. With q = (1, 0, 0, 0) the result is
   * (0, 1, 0, 0).
   */
  lemma QuatMultAsWrittenRotatesLayout(q: Vec4)
    ensures QuatMultAsWritten(QuatIdentity, q) == Vec4(q.w, q.x, q.y, q.z)
    ensures QuatMultAsWritten(QuatIdentity, Vec4(1.0, 0.0, 0.0, 0.0)) != Vec4(1.0, 0.0, 0.0, 0.0)
  {
  }

  /** With the scalar kept last, the identity quaternion is neutral on both sides. */
  lemma QuatMultIdentity(q: Vec4)
    ensures QuatMult(QuatIdentity, q) == q
    ensures QuatMult(q, QuatIdentity) == q
  {
  }

  /** The product of two unit quaternions is a unit quaternion: |pq|^2 = |p|^2 |q|^2. */
  lemma QuatMultNorm(p: Vec4, q: Vec4)
    ensures QuatNorm2(QuatMult(p, q)) == QuatNorm2(p) * QuatNorm2(q)
  {
    var r := QuatMult(p, q);
    QuatMultEntries(p, q);
    FourSquares(p.x, p.y, p.z, p.w, q.x, q.y, q.z, q.w, r.x, r.y, r.z, r.w, QuatNorm2(p), QuatNorm2(q));
  }

  lemma QuatMultEntries(p: Vec4, q: Vec4)
    ensures QuatMult(p, q) ==
      Vec4(p.w * q.x + q.w * p.x + (p.y * q.z - p.z * q.y),
           p.w * q.y + q.w * p.y + (p.z * q.x - p.x * q.z),
           p.w * q.z + q.w * p.z + (p.x * q.y - p.y * q.x),
           p.w * q.w - (p.x * q.x + p.y * q.y + p.z * q.z))
  {
  }

  /** Euler's four-square identity, in the order of the Hamilton product. */
  lemma FourSquares(a: real, b: real, c: real, d: real, e: real, f: real, g: real, h: real,
                    x: real, y: real, z: real, w: real, np: real, nq: real)
    requires x == d * e + h * a + (b * g - c * f)
    requires y == d * f + h * b + (c * e - a * g)
    requires z == d * g + h * c + (a * f - b * e)
    requires w == d * h - (a * e + b * f + c * g)
    requires np == a * a + b * b + c * c + d * d
    requires nq == e * e + f * f + g * g + h * h
    ensures x * x + y * y + z * z + w * w == np * nq
  {
  }
}
