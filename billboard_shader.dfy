/**
 * The vertex stage of the billboard filters: every corner vertex of a quad is
 * moved so that the quad faces the camera. Three versions exist:
 *
 *  - `AnisotropicVertex` (billboards_filter.py): divides both camera vectors
 *    by the length of camera_right, enlarges too-small quads and rescales
 *    their texture, swaps the texture coordinates, and computes the inverse
 *    of the projected covariance of a rotated Gaussian;
 *  - `OwnLengthVertex` (the older filter in particles.py): normalises each
 *    camera vector by its own length and leaves the texture alone;
 *  - `PlainVertex` (billboards.py): no level-of-detail rule at all.
 *
 * The vispy transforms are parameters. GLSL gives no error on a division
 * by zero; such an output is non-finite and is represented by `None`. A
 * non-finite distance fails every `<` comparison, so the level-of-detail
 * rule does not fire on it.
 */
module BillboardShader {
  import opened RealMath
  import opened LinAlg
  import opened Wrappers
  import opened QuaternionShader
  import Utils

  /** A vispy transform, as the shader applies it to a homogeneous point. */
  type Transform = Vec4 -> Vec4

  /** The four transforms `_attach` binds: visual->render and back, scene<->document. */
  datatype Transforms = Transforms(transform: Transform, transformInv: Transform, camera: Transform, cameraInv: Transform)

  /** The attributes of one vertex: its position, texture coordinate and particle data. */
  datatype Vertex = Vertex(glPosition: Vec4, texcoord: Vec2, center: Vec3, sigmas: Vec3, quatvec: Vec3)

  /** What the current vertex stage writes: position and the varyings. */
  datatype VertexOut = VertexOut(
    position: Vec4, texcoord: Vec2, zCenter: Option<real>, scaleIntensity: Option<real>, covarianceInv: Option<Mat2>)

  /** What the older vertex stage of particles.py writes. */
  datatype OwnLengthOut = OwnLengthOut(position: Vec4, texcoord: Vec2, zCenter: Option<real>, scaleIntensity: Option<real>)

  /** What the vertex stage of billboards.py writes. */
  datatype PlainOut = PlainOut(position: Vec4, texcoord: Vec2)

  const Ex: Vec4 := Vec4(1.0, 0.0, 0.0, 0.0)
  const Ey: Vec4 := Vec4(0.0, 1.0, 0.0, 0.0)
  const Ez: Vec4 := Vec4(0.0, 0.0, 1.0, 0.0)

  function Point(v: Vec3): Vec4 { Extend(v, 1.0) }

  /** The first two columns of the view: camera_inv applied to the x and y directions. */
  function CameraRight(t: Transforms): Vec3 { t.cameraInv(Ex).Xyz() }
  function CameraUp(t: Transforms): Vec3 { t.cameraInv(Ey).Xyz() }

  /** center + right * pos.x + up * pos.y */
  function Corner(center: Vec3, right: Vec3, up: Vec3, pos: Vec4): Vec3 {
    Add3(Add3(center, Scale3(right, pos.x)), Scale3(up, pos.y))
  }

  function Swap(t: Vec2): Vec2 { Vec2(t.y, t.x) }

  /** `length(p1.xy / p1.w - p2.xy / p2.w)`: the on-screen distance of two points. */
  function ScreenDistance(m: Math, p1: Vec4, p2: Vec4): (d: Option<real>)
    ensures d.Some? <==> p1.w != 0.0 && p2.w != 0.0
    ensures d.Some? && SqrtLaw(m.sqrt) ==> 0.0 <= d.value
  {
    if p1.w == 0.0 || p2.w == 0.0 then None
    else Some(Length2(m, Sub2(Div2(p1.Xy(), p1.w), Div2(p2.Xy(), p2.w))))
  }

  /** `center.z / center.w` for the projected particle centre: the depth of the whole quad. */
  function CenterDepth(t: Transforms, center: Vec3): (z: Option<real>)
    ensures z.Some? <==> t.transform(Point(center)).w != 0.0
  {
    var c := t.transform(Point(center));
    if c.w == 0.0 then None else Some(c.z / c.w)
  }

  /** Both camera vectors divided by the length of camera_right. */
  function SharedFrame(m: Math, right: Vec3, up: Vec3): (f: Option<(Vec3, Vec3)>)
    ensures f.Some? <==> Length3(m, right) != 0.0
  {
    var len := Length3(m, right);
    if len == 0.0 then None else Some((Div3(right, len), Div3(up, len)))
  }

  /** `normalize(camera_right)`, `normalize(camera_up)`: each by its own length. */
  function OwnFrame(m: Math, right: Vec3, up: Vec3): (f: Option<(Vec3, Vec3)>)
    ensures f.Some? <==> Length3(m, right) != 0.0 && Length3(m, up) != 0.0
  {
    var lr, lu := Length3(m, right), Length3(m, up);
    if lr == 0.0 || lu == 0.0 then None else Some((Div3(right, lr), Div3(up, lu)))
  }

  /** Dividing by |camera_right| makes right a unit vector and up of length |up| / |right|. */
  lemma SharedFrameLengths(m: Math, right: Vec3, up: Vec3)
    requires SqrtLaw(m.sqrt) && Length3(m, right) != 0.0
    ensures var f := SharedFrame(m, right, up).value;
      Length3(m, f.0) == 1.0 && Length3(m, f.1) == Length3(m, up) / Length3(m, right)
  {
    var lr := Length3(m, right);
    assert SharedFrame(m, right, up).value == (Div3(right, lr), Div3(up, lr));
    LengthSquared3(m, right);
    NormalizedIsUnit(m, right);
    LengthOfQuotient(m, up, lr);
  }

  /** Normalising each vector by its own length makes both unit vectors. */
  lemma OwnFrameLengths(m: Math, right: Vec3, up: Vec3)
    requires SqrtLaw(m.sqrt) && Length3(m, right) != 0.0 && Length3(m, up) != 0.0
    ensures var f := OwnFrame(m, right, up).value;
      Length3(m, f.0) == 1.0 && Length3(m, f.1) == 1.0
  {
    var lr, lu := Length3(m, right), Length3(m, up);
    assert OwnFrame(m, right, up).value == (Div3(right, lr), Div3(up, lu));
    NormalizedIsUnit(m, right);
    NormalizedIsUnit(m, up);
  }

  /** The two normalisations agree exactly when camera_up is as long as camera_right. */
  lemma FramesAgreeIffEqualLengths(m: Math, right: Vec3, up: Vec3)
    requires SqrtLaw(m.sqrt) && Length3(m, right) != 0.0 && Length3(m, up) != 0.0
    ensures SharedFrame(m, right, up) == OwnFrame(m, right, up) <==> Length3(m, up) == Length3(m, right)
  {
    var lr, lu := Length3(m, right), Length3(m, up);
    if SharedFrame(m, right, up) == OwnFrame(m, right, up) {
      SharedFrameLengths(m, right, up);
      OwnFrameLengths(m, right, up);
      QuotientTimes(lu, lr);
    }
  }

  /** GLSL `clamp(x, lo, hi)`, that is `min(max(x, lo), hi)`. */
  function Clamp(x: real, lo: real, hi: real): (r: real)
    requires lo <= hi
    ensures lo <= r <= hi
    ensures lo <= x <= hi ==> r == x
  {
    if x < lo then lo else if x > hi then hi else x
  }

  /** The level-of-detail rule fires when antialiasing is on and the quad is smaller than the cutoff. */
  predicate LodFires(antialias: real, dist: real) {
    antialias > 0.0 && dist < antialias
  }

  /** `.5 + (tex - .5) * clamp(scale, 1, 10)`: spreads the coordinates about the centre. */
  function RescaleTex(tex: Vec2, scale: real): Vec2 {
    var c := Clamp(scale, 1.0, 10.0);
    Vec2(0.5 + (tex.x - 0.5) * c, 0.5 + (tex.y - 0.5) * c)
  }

  /** The older rule `.5 + (tex - .5)`: the texture is not rescaled. */
  function FreezeTex(tex: Vec2): Vec2 {
    Vec2(0.5 + (tex.x - 0.5), 0.5 + (tex.y - 0.5))
  }

  /**
   * The texture rescale keeps the centre (.5, .5) fixed, moves every other
   * coordinate away from it by a factor between 1 and 10, and saturates at
   * 10. At factor 1 it is the older rule, which leaves tex unchanged.
   */
  lemma RescaleTexProperties(tex: Vec2, scale: real)
    ensures RescaleTex(Vec2(0.5, 0.5), scale) == Vec2(0.5, 0.5)
    ensures RescaleTex(tex, 1.0) == FreezeTex(tex) == tex
    ensures scale >= 10.0 ==> RescaleTex(tex, scale) == RescaleTex(tex, 10.0)
    ensures 1.0 <= scale ==>
      var r := RescaleTex(tex, scale);
      Abs(r.x - 0.5) >= Abs(tex.x - 0.5) && Abs(r.y - 0.5) >= Abs(tex.y - 0.5)
      && Abs(r.x - 0.5) <= 10.0 * Abs(tex.x - 0.5) && Abs(r.y - 0.5) <= 10.0 * Abs(tex.y - 0.5)
  {
    RescaleFixedPoints(tex, scale);
    if 1.0 <= scale {
      RescaleSpread(tex, scale);
    }
  }

  lemma RescaleFixedPoints(tex: Vec2, scale: real)
    ensures RescaleTex(Vec2(0.5, 0.5), scale) == Vec2(0.5, 0.5)
    ensures RescaleTex(tex, 1.0) == FreezeTex(tex) == tex
    ensures scale >= 10.0 ==> RescaleTex(tex, scale) == RescaleTex(tex, 10.0)
  {
  }

  lemma RescaleSpread(tex: Vec2, scale: real)
    requires 1.0 <= scale
    ensures var r := RescaleTex(tex, scale);
      Abs(r.x - 0.5) >= Abs(tex.x - 0.5) && Abs(r.y - 0.5) >= Abs(tex.y - 0.5)
      && Abs(r.x - 0.5) <= 10.0 * Abs(tex.x - 0.5) && Abs(r.y - 0.5) <= 10.0 * Abs(tex.y - 0.5)
  {
    var c := Clamp(scale, 1.0, 10.0);
    SpreadBounds(tex.x - 0.5, c);
    SpreadBounds(tex.y - 0.5, c);
  }

  function Abs(x: real): real { if x < 0.0 then -x else x }

  lemma SpreadBounds(x: real, c: real)
    requires 1.0 <= c <= 10.0
    ensures Abs(x) <= Abs(x * c) <= 10.0 * Abs(x)
  {
    if x < 0.0 {
      assert x * c <= x;
      assert x * c >= 10.0 * x;
    } else {
      assert x * c >= x;
      assert x * c <= 10.0 * x;
    }
  }

  /** When the rule fires with a positive distance, the scale factor antialias / dist exceeds 1. */
  lemma LodScaleAboveOne(antialias: real, dist: real)
    requires LodFires(antialias, dist) && 0.0 < dist
    ensures antialias / dist > 1.0
  {
    QuotientTimes(antialias, dist);
  }

  /**
   * The quaternion the shader rebuilds from `quatvec`: scalar LAST, with
   * w = sqrt(1 - length(quatvec)^2).
   */
  function ShaderQuat(m: Math, quatvec: Vec3): Vec4 {
    Extend(quatvec, QuatScalar(m, Length3(m, quatvec)))
  }

  /** `sqrt(1 - len * len)`: the scalar part completing a vector part of length len. */
  function QuatScalar(m: Math, len: real): real {
    m.sqrt(1.0 - len * len)
  }

  /** For |quatvec| <= 1 the rebuilt quaternion is a unit quaternion with w >= 0. */
  lemma ShaderQuatIsUnit(m: Math, quatvec: Vec3)
    requires SqrtLaw(m.sqrt) && Dot3(quatvec, quatvec) <= 1.0
    ensures QuatNorm2(ShaderQuat(m, quatvec)) == 1.0 && 0.0 <= ShaderQuat(m, quatvec).w
  {
  }

  /**
   * The shader's quaternion and `_unit_quat_3to4` hold the same four numbers
   * in opposite layouts: utils.py puts w first, the shader puts it last.
   */
  lemma ShaderQuatMatchesUnitQuat3To4(m: Math, quatvec: Vec3)
    requires SqrtLaw(m.sqrt) && Dot3(quatvec, quatvec) <= 1.0
    ensures var u := Utils.UnitQuat3To4(m, [quatvec.x, quatvec.y, quatvec.z]);
      u.Some? && ShaderQuat(m, quatvec) == Vec4(u.value[1], u.value[2], u.value[3], u.value[0])
  {
    var p := [quatvec.x, quatvec.y, quatvec.z];
    assert Utils.SumSquares(p) == Dot3(quatvec, quatvec) by {
      assert p[1..][1..][1..] == [];
      assert Utils.SumSquares([quatvec.z]) == quatvec.z * quatvec.z;
      assert p[1..][1..] == [quatvec.z];
      assert Utils.SumSquares(p[1..]) == quatvec.y * quatvec.y + quatvec.z * quatvec.z;
    }
    LengthSquared3(m, quatvec);
  }

  /** `transpose(quatmat) * cov * quatmat` with cov = diag(sqrt(sigmas), 1). */
  function Covariance(m: Math, quat: Vec4, sigmas: Vec3): (cov: Mat4)
    ensures Symmetric4(cov)
  {
    var d0, d1, d2 := m.sqrt(sigmas.x), m.sqrt(sigmas.y), m.sqrt(sigmas.z);
    DiagonalCongruence4(QuatMat4(quat), d0, d1, d2, 1.0);
    Mul4(Mul4(Transpose4(QuatMat4(quat)), Diag4(d0, d1, d2, 1.0)), QuatMat4(quat))
  }

  /**
   * `mat2(transpose(R) * mat3(cov) * R)`, where R's columns are the images
   * under camera of cov applied to the camera_inv images of the axes.
   */
  function ScreenMatrix(t: Transforms, cov: Mat4): (s: Mat2)
    ensures Symmetric4(cov) ==> Symmetric2(s)
  {
    var ex2 := t.camera(MulV4(cov, t.cameraInv(Ex))).Xyz();
    var ey2 := t.camera(MulV4(cov, t.cameraInv(Ey))).Xyz();
    var ez2 := t.camera(MulV4(cov, t.cameraInv(Ez))).Xyz();
    var r := Mat3(ex2, ey2, ez2);
    var s := Upper2(Mul3(Mul3(Transpose3(r), Upper3(cov)), r));
    assert Symmetric4(cov) ==> Symmetric2(s) by {
      if Symmetric4(cov) {
        CongruenceCornerSymmetric(r, Upper3(cov));
      }
    }
    s
  }

  /** The inverse of a symmetric 2x2 matrix is symmetric. */
  lemma InverseOfSymmetric(s: Mat2)
    requires Symmetric2(s) && Inverse(s).Some?
    ensures Symmetric2(Inverse(s).value)
  {
  }

  /** The inverse covariance handed to the fragment stage is symmetric whenever it exists. */
  lemma CovarianceInvSymmetric(m: Math, t: Transforms, quatvec: Vec3, sigmas: Vec3)
    requires Inverse(ScreenMatrix(t, Covariance(m, ShaderQuat(m, quatvec), sigmas))).Some?
    ensures Symmetric2(Inverse(ScreenMatrix(t, Covariance(m, ShaderQuat(m, quatvec), sigmas))).value)
  {
    InverseOfSymmetric(ScreenMatrix(t, Covariance(m, ShaderQuat(m, quatvec), sigmas)));
  }

  /**
   * The vertex stage of billboards_filter.py. It fails (non-finite output)
   * when camera_right has length 0 or when the level-of-detail rule fires
   * at distance 0; a projected point with w = 0 leaves the quad unscaled,
   * and the centre depth is non-finite only when the centre's own w is 0.
   */
  method AnisotropicVertex(m: Math, t: Transforms, antialias: real, v: Vertex) returns (out: Option<VertexOut>)
    requires SqrtLaw(m.sqrt)
    ensures
      var frame := SharedFrame(m, CameraRight(t), CameraUp(t));
      var pos := t.transformInv(v.glPosition);
      var dist := if frame.None? then None else
        ScreenDistance(m, t.transform(Point(Corner(v.center, frame.value.0, frame.value.1, pos))),
                       t.transform(Point(v.center)));
      var fires := dist.Some? && LodFires(antialias, dist.value);
      && (out.Some? <==> frame.Some? && !(fires && dist.value == 0.0))
      && (out.Some? ==>
            var scale := if fires then antialias / dist.value else 1.0;
            && (fires ==> scale > 1.0)
            && out.value.scaleIntensity == (if fires then Some(scale) else None)
            && out.value.texcoord == Swap(if fires then RescaleTex(v.texcoord, scale) else v.texcoord)
            && out.value.position ==
                 t.transform(Point(Corner(v.center, Scale3(frame.value.0, scale), Scale3(frame.value.1, scale), pos)))
            && out.value.zCenter == CenterDepth(t, v.center)
            && out.value.covarianceInv ==
                 Inverse(ScreenMatrix(t, Covariance(m, ShaderQuat(m, v.quatvec), v.sigmas))))
  {
    var pos := t.transformInv(v.glPosition);
    pos := pos.(z := pos.z * pos.w);

    var quatW := Length3(m, v.quatvec);
    quatW := QuatScalar(m, quatW);
    var quat := Extend(v.quatvec, quatW);
    var quatmat := QuatMat4(quat);

    var tex := v.texcoord;

    var cov := Diag4(m.sqrt(v.sigmas.x), m.sqrt(v.sigmas.y), m.sqrt(v.sigmas.z), 1.0);
    cov := Mul4(Mul4(Transpose4(quatmat), cov), quatmat);
    assert cov == Covariance(m, quat, v.sigmas);

    var covarianceInv := Inverse(ScreenMatrix(t, cov));

    var cameraRight := CameraRight(t);
    var cameraUp := CameraUp(t);
    var distCutoff := antialias;
    var len := Length3(m, cameraRight);
    if len == 0.0 {
      return None;
    }
    cameraRight := Div3(cameraRight, len);
    cameraUp := Div3(cameraUp, len);

    var p1 := t.transform(Point(Add3(Add3(v.center, Scale3(cameraRight, pos.x)), Scale3(cameraUp, pos.y))));
    var p2 := t.transform(Point(v.center));
    assert Scale3(cameraRight, 1.0) == cameraRight && Scale3(cameraUp, 1.0) == cameraUp;
    var scaleIntensity := None;
    // with p1.w or p2.w zero the distance is non-finite and the rule below does not fire
    if p1.w != 0.0 && p2.w != 0.0 {
      var dist := Length2(m, Sub2(Div2(p1.Xy(), p1.w), Div2(p2.Xy(), p2.w)));
      LengthSquared2(m, Sub2(Div2(p1.Xy(), p1.w), Div2(p2.Xy(), p2.w)));
      if antialias > 0.0 && dist < distCutoff {
        if dist == 0.0 {
          return None;
        }
        var scale := distCutoff / dist;
        LodScaleAboveOne(antialias, dist);
        tex := RescaleTex(tex, scale);
        cameraRight := Scale3(cameraRight, scale);
        cameraUp := Scale3(cameraUp, scale);
        scaleIntensity := Some(scale);
      }
    }
    var posReal := Add3(Add3(v.center, Scale3(cameraRight, pos.x)), Scale3(cameraUp, pos.y));
    var position := t.transform(Point(posReal));
    var center := t.transform(Point(v.center));
    var zCenter := if center.w == 0.0 then None else Some(center.z / center.w);
    out := Some(VertexOut(position, Swap(tex), zCenter, scaleIntensity, covarianceInv));
  }

  /**
   * The older vertex stage of particles.py: each camera vector normalised by
   * its own length; when the rule fires the quad is enlarged but the
   * texture coordinates pass through unchanged and unswapped.
   */
  method OwnLengthVertex(m: Math, t: Transforms, antialias: real, v: Vertex) returns (out: Option<OwnLengthOut>)
    requires SqrtLaw(m.sqrt)
    ensures
      var frame := OwnFrame(m, CameraRight(t), CameraUp(t));
      var pos := t.transformInv(v.glPosition);
      var dist := if frame.None? then None else
        ScreenDistance(m, t.transform(Point(Corner(v.center, frame.value.0, frame.value.1, pos))),
                       t.transform(Point(v.center)));
      var fires := dist.Some? && LodFires(antialias, dist.value);
      && (out.Some? <==> frame.Some? && !(fires && dist.value == 0.0))
      && (out.Some? ==>
            var scale := if fires then antialias / dist.value else 1.0;
            && (fires ==> scale > 1.0)
            && out.value.scaleIntensity == (if fires then Some(scale) else None)
            && out.value.texcoord == v.texcoord
            && out.value.position ==
                 t.transform(Point(Corner(v.center, Scale3(frame.value.0, scale), Scale3(frame.value.1, scale), pos)))
            && out.value.zCenter == CenterDepth(t, v.center))
  {
    var pos := t.transformInv(v.glPosition);
    var tex := v.texcoord;
    var cameraRight := CameraRight(t);
    var cameraUp := CameraUp(t);
    var distCutoff := antialias;
    var lenRight, lenUp := Length3(m, cameraRight), Length3(m, cameraUp);
    if lenRight == 0.0 || lenUp == 0.0 {
      return None;
    }
    cameraRight := Div3(cameraRight, lenRight);
    cameraUp := Div3(cameraUp, lenUp);

    var p1 := t.transform(Point(Add3(Add3(v.center, Scale3(cameraRight, pos.x)), Scale3(cameraUp, pos.y))));
    var p2 := t.transform(Point(v.center));
    assert Scale3(cameraRight, 1.0) == cameraRight && Scale3(cameraUp, 1.0) == cameraUp;
    var scaleIntensity := None;
    // with p1.w or p2.w zero the distance is non-finite and the rule below does not fire
    if p1.w != 0.0 && p2.w != 0.0 {
      var dist := Length2(m, Sub2(Div2(p1.Xy(), p1.w), Div2(p2.Xy(), p2.w)));
      LengthSquared2(m, Sub2(Div2(p1.Xy(), p1.w), Div2(p2.Xy(), p2.w)));
      if antialias > 0.0 && dist < distCutoff {
        if dist == 0.0 {
          return None;
        }
        var scale := distCutoff / dist;
        LodScaleAboveOne(antialias, dist);
        tex := FreezeTex(tex);
        cameraRight := Scale3(cameraRight, scale);
        cameraUp := Scale3(cameraUp, scale);
        scaleIntensity := Some(scale);
      }
    }
    var posReal := Add3(Add3(v.center, Scale3(cameraRight, pos.x)), Scale3(cameraUp, pos.y));
    var position := t.transform(Point(posReal));
    var center := t.transform(Point(v.center));
    var zCenter := if center.w == 0.0 then None else Some(center.z / center.w);
    out := Some(OwnLengthOut(position, tex, zCenter, scaleIntensity));
  }

  /**
   * The vertex stage of billboards.py: the corner is placed along the
   * normalised camera vectors and the texture coordinate passes through.
   */
  method PlainVertex(m: Math, t: Transforms, v: Vertex) returns (out: Option<PlainOut>)
    ensures var frame := OwnFrame(m, CameraRight(t), CameraUp(t));
      && (out.Some? <==> frame.Some?)
      && (out.Some? ==>
            && out.value.texcoord == v.texcoord
            && out.value.position ==
                 t.transform(Point(Corner(v.center, frame.value.0, frame.value.1, t.transformInv(v.glPosition)))))
  {
    var pos := t.transformInv(v.glPosition);
    var tex := v.texcoord;
    var cameraRight := CameraRight(t);
    var cameraUp := CameraUp(t);
    var lenRight, lenUp := Length3(m, cameraRight), Length3(m, cameraUp);
    if lenRight == 0.0 || lenUp == 0.0 {
      return None;
    }
    cameraRight := Div3(cameraRight, lenRight);
    cameraUp := Div3(cameraUp, lenUp);
    var posReal := Add3(Add3(v.center, Scale3(cameraRight, pos.x)), Scale3(cameraUp, pos.y));
    out := Some(PlainOut(t.transform(Point(posReal)), tex));
  }
}
