/**
 * The fragment filters of filters.py: radial shading profiles evaluated at
 * the texture coordinate, the `ShaderFilter` that selects a profile by name
 * (or takes fragment code verbatim), and the `TextureFilter` that multiplies
 * the colour by a sampled image.
 */
module Filters {
  import opened RealMath
  import opened LinAlg
  import opened Wrappers
  import LayerCommon

  /** The entries of `_shader_functions`. */
  datatype Profile = Gaussian | Bubbles | Bubbles2

  function ProfileName(p: Profile): string {
    match p
    case Gaussian => "gaussian"
    case Bubbles => "bubbles"
    case Bubbles2 => "bubbles2"
  }

  /** `mode in _shader_functions`, and which entry it names. */
  function ProfileNamed(name: string): (r: Option<Profile>)
    ensures r.Some? <==> name in {"gaussian", "bubbles", "bubbles2"}
    ensures r.Some? ==> ProfileName(r.value) == name
  {
    if name == "gaussian" then Some(Gaussian)
    else if name == "bubbles" then Some(Bubbles)
    else if name == "bubbles2" then Some(Bubbles2)
    else None
  }

  /** Every profile is found under its own name. */
  lemma ProfileNameRoundTrip(p: Profile)
    ensures ProfileNamed(ProfileName(p)) == Some(p)
  {
  }

  /** `exp(-r*r)` with r = 2 |x|. */
  function GaussianAt(m: Math, x: Vec2): real {
    var r := 2.0 * Length2(m, x);
    m.exp(-r * r)
  }

  /** The gaussian profile depends on |x| only, is 1 at the centre and lies in (0, 1]. */
  lemma GaussianProperties(m: Math, x: Vec2, y: Vec2)
    requires Lawful(m)
    ensures Length2(m, x) == Length2(m, y) ==> GaussianAt(m, x) == GaussianAt(m, y)
    ensures GaussianAt(m, Vec2(0.0, 0.0)) == 1.0
    ensures 0.0 < GaussianAt(m, x) <= 1.0
  {
    var r := 2.0 * Length2(m, x);
    ExpAtMostOne(m, -r * r);
    SqrtOfSquare(m, 0.0, 0.0);
    assert Length2(m, Vec2(0.0, 0.0)) == 0.0;
  }

  const R1: real := 0.8
  const R2: real := 0.9

  /** The bubbles profile inside the inner radius: a spherical shell seen edge-on. */
  function BubblesInner(m: Math, r: real): real
    requires SqrtLaw(m.sqrt)
  {
    SqrtPositive(m, R2 * R2 - R1 * R1);
    (m.sqrt(R2 * R2 - r * r) - m.sqrt(R1 * R1 - r * r)) / m.sqrt(R2 * R2 - R1 * R1)
  }

  /** The bubbles profile between the two radii. */
  function BubblesRim(m: Math, r: real): real
    requires SqrtLaw(m.sqrt)
  {
    SqrtPositive(m, R2 * R2 - R1 * R1);
    m.sqrt(R2 * R2 - r * r) / m.sqrt(R2 * R2 - R1 * R1)
  }

  /** `bubbles` as a function of r = |x|: the branches r < 0.8, r < 0.9, otherwise 0. */
  function BubblesRadial(m: Math, r: real): real
    requires SqrtLaw(m.sqrt)
  {
    if r < R1 then BubblesInner(m, r)
    else if r < R2 then BubblesRim(m, r)
    else 0.0
  }

  function BubblesAt(m: Math, x: Vec2): real
    requires SqrtLaw(m.sqrt)
  {
    BubblesRadial(m, Length2(m, x))
  }

  /**
   * `bubbles` is 0 from radius 0.9 outwards and lies in [0, 1] inside; the
   * two branches meet at radius 0.8, where both are 1.
   */
  lemma BubblesProperties(m: Math, r: real)
    requires SqrtLaw(m.sqrt) && 0.0 <= r
    ensures r >= R2 ==> BubblesRadial(m, r) == 0.0
    ensures r < R2 ==> 0.0 <= BubblesRadial(m, r) <= 1.0
    ensures BubblesInner(m, R1) == 1.0 && BubblesRim(m, R1) == 1.0
  {
    var c := R2 * R2 - R1 * R1;
    SqrtPositive(m, c);
    SqrtOfSquare(m, 0.0, 0.0);
    assert R1 * R1 - R1 * R1 == 0.0;
    SelfQuotient(m.sqrt(c));
    if r < R1 {
      var a, b := R2 * R2 - r * r, R1 * R1 - r * r;
      assert r * r < R1 * R1 by { SquareStrict(r, R1); }
      SqrtMonotone(m, b, a);
      assert a == b + c;
      SqrtSubadditive(m, b, c);
      QuotientBounds(m.sqrt(a) - m.sqrt(b), m.sqrt(c));
    } else if r < R2 {
      var a := R2 * R2 - r * r;
      assert R1 * R1 <= r * r by { SquareOrderConverse(R1, r); }
      assert r * r < R2 * R2 by { SquareStrict(r, R2); }
      SqrtMonotone(m, a, c);
      QuotientBounds(m.sqrt(a), m.sqrt(c));
    }
  }

  lemma SquareOrderConverse(a: real, b: real)
    requires 0.0 <= a <= b
    ensures a * a <= b * b
  {
    assert a * a <= a * b <= b * b;
  }

  lemma QuotientBounds(x: real, y: real)
    requires 0.0 <= x <= y && 0.0 < y
    ensures 0.0 <= x / y <= 1.0
  {
    assert x / y * y == x;
  }

  const R0: real := 0.9

  /** `bubbles2` as a function of r = |x|: a thin gaussian ring, filled inside by r^2 / r0^2. */
  function Bubbles2Radial(m: Math, r: real): real {
    var ring := m.exp(-400.0 * (r - R0) * (r - R0));
    if r < R0 then (if ring >= r * r / R0 / R0 then ring else r * r / R0 / R0)
    else ring
  }

  function Bubbles2At(m: Math, x: Vec2): real {
    Bubbles2Radial(m, Length2(m, x))
  }

  /**
   * Inside radius 0.9 `bubbles2` is at least r^2 / 0.81; from 0.9 outwards
   * it is the gaussian ring exp(-400 (r - 0.9)^2); for r >= 0 it lies in (0, 1].
   */
  lemma Bubbles2Properties(m: Math, r: real)
    requires ExpLaw(m.exp) && 0.0 <= r
    ensures r < R0 ==> Bubbles2Radial(m, r) >= r * r / 0.81
    ensures r >= R0 ==> Bubbles2Radial(m, r) == m.exp(-400.0 * (r - R0) * (r - R0))
    ensures 0.0 < Bubbles2Radial(m, r) <= 1.0
  {
    ExpAtMostOne(m, -400.0 * (r - R0) * (r - R0));
    if r < R0 {
      SquareStrict(r, R0);
      assert r * r / R0 / R0 == r * r / 0.81;
    }
  }

  function Evaluate(m: Math, p: Profile, x: Vec2): real
    requires SqrtLaw(m.sqrt)
  {
    match p
    case Gaussian => GaussianAt(m, x)
    case Bubbles => BubblesAt(m, x)
    case Bubbles2 => Bubbles2At(m, x)
  }

  /** `2*(v_texcoord-.5)`: the point at which the profile is evaluated. */
  function ProfilePoint(texcoord: Vec2): (x: Vec2)
    ensures 0.0 <= texcoord.x <= 1.0 && 0.0 <= texcoord.y <= 1.0 ==>
              -1.0 <= x.x <= 1.0 && -1.0 <= x.y <= 1.0
    ensures texcoord == Vec2(0.5, 0.5) ==> x == Vec2(0.0, 0.0)
  {
    Vec2(2.0 * (texcoord.x - 0.5), 2.0 * (texcoord.y - 0.5))
  }

  /** `gl_FragColor *= val`: the fragment colour scaled by the profile at its texture coordinate. */
  function Shade(m: Math, p: Profile, texcoord: Vec2, color: Vec4): Vec4
    requires SqrtLaw(m.sqrt)
  {
    Scale4(color, Evaluate(m, p, ProfilePoint(texcoord)))
  }

  /**
   * Every profile scales the colour by a factor in [0, 1]: shading never
   * brightens a channel of a fragment, nor makes it negative.
   */
  lemma ShadeAttenuates(m: Math, p: Profile, texcoord: Vec2, color: Vec4)
    requires Lawful(m)
    ensures 0.0 <= Evaluate(m, p, ProfilePoint(texcoord)) <= 1.0
    ensures var c := Shade(m, p, texcoord, color);
      && (0.0 <= color.x ==> 0.0 <= c.x <= color.x) && (0.0 <= color.y ==> 0.0 <= c.y <= color.y)
      && (0.0 <= color.z ==> 0.0 <= c.z <= color.z) && (0.0 <= color.w ==> 0.0 <= c.w <= color.w)
  {
    var x := ProfilePoint(texcoord);
    ProfileInUnitInterval(m, p, x);
    ScaleChannels(color, Evaluate(m, p, x));
  }

  /** Scaling by a factor in [0, 1] keeps every non-negative channel between 0 and its old value. */
  lemma ScaleChannels(color: Vec4, v: real)
    requires 0.0 <= v <= 1.0
    ensures var c := Scale4(color, v);
      && (0.0 <= color.x ==> 0.0 <= c.x <= color.x) && (0.0 <= color.y ==> 0.0 <= c.y <= color.y)
      && (0.0 <= color.z ==> 0.0 <= c.z <= color.z) && (0.0 <= color.w ==> 0.0 <= c.w <= color.w)
  {
    ScaleChannel(color.x, v, color.x * v);
    ScaleChannel(color.y, v, color.y * v);
    ScaleChannel(color.z, v, color.z * v);
    ScaleChannel(color.w, v, color.w * v);
  }

  /** Every profile takes values in [0, 1] at every point. */
  lemma ProfileInUnitInterval(m: Math, p: Profile, x: Vec2)
    requires Lawful(m)
    ensures 0.0 <= Evaluate(m, p, x) <= 1.0
  {
    LengthSquared2(m, x);
    match p
    case Gaussian => GaussianProperties(m, x, x);
    case Bubbles => BubblesProperties(m, Length2(m, x));
    case Bubbles2 => Bubbles2Properties(m, Length2(m, x));
  }

  lemma ScaleChannel(a: real, v: real, c: real)
    requires 0.0 <= v <= 1.0 && c == a * v
    ensures 0.0 <= a ==> 0.0 <= c <= a
  {
    if 0.0 <= a {
      assert a * v <= a * 1.0;
    }
  }

  /** The fragment code of a ShaderFilter: a profile from the table, or the mode string itself. */
  datatype FragmentCode = Profiled(profile: Profile) | Verbatim(source: string)

  datatype ShaderFilter = ShaderFilter(fcode: FragmentCode, fhook: string)

  /** `kwargs.setdefault('fhook', 'post')`: the caller's hook if given, 'post' otherwise. */
  function Hook(fhook: Option<string>): (h: string)
    ensures fhook.Some? ==> h == fhook.value
    ensures fhook.None? ==> h == "post"
  {
    match fhook
    case Some(h) => h
    case None => "post"
  }

  /**
   * `ShaderFilter(mode, **kwargs)`: a known name selects its profile, any
   * other string becomes the fragment code verbatim.
   */
  function NewShaderFilter(mode: string, fhook: Option<string>): (f: ShaderFilter)
    ensures f.fcode.Profiled? <==> mode in {"gaussian", "bubbles", "bubbles2"}
    ensures f.fcode.Profiled? ==> ProfileName(f.fcode.profile) == mode
    ensures f.fcode.Verbatim? ==> f.fcode.source == mode
    ensures f.fhook == (if fhook.Some? then fhook.value else "post")
  {
    match ProfileNamed(mode)
    case Some(p) => ShaderFilter(Profiled(p), Hook(fhook))
    case None => ShaderFilter(Verbatim(mode), Hook(fhook))
  }

  datatype FilterError = ValueError

  /** `TextureFilter`: the fragment colour is multiplied by the texture sampled at `v_texcoord`. */
  class TextureFilter {
    /** `self._texture`. */
    var texture: LayerCommon.NdArray
    /** The `Texture2D` bound to the `u_texture` sampler of the fragment code. */
    var sampler: LayerCommon.NdArray
    const fhook: string

    /** The sampler shows the stored texture. */
    predicate Bound()
      reads this
    {
      sampler == texture
    }

    constructor(texture: LayerCommon.NdArray, fhook: string)
      ensures this.texture == texture && sampler == texture && this.fhook == fhook
    {
      this.texture := texture;
      this.sampler := texture;
      this.fhook := fhook;
    }

    /** `TextureFilter(texture, **kwargs)`: ValueError unless the texture array is three-dimensional. */
    static method Create(texture: LayerCommon.NdArray, fhook: Option<string>) returns (r: Result<TextureFilter, FilterError>)
      ensures r.Err? <==> |texture.shape| != 3
      ensures r.Ok? ==> fresh(r.value) && r.value.Bound() && r.value.texture == texture
                        && r.value.fhook == Hook(fhook)
    {
      var hook := Hook(fhook);
      if |texture.shape| != 3 {
        return Err(ValueError);
      }
      var f := new TextureFilter(texture, hook);
      return Ok(f);
    }

    /** The `texture` setter: stores the array and rebinds the sampler; no shape check here. */
    method SetTexture(texture: LayerCommon.NdArray)
      modifies this
      ensures this.texture == texture && sampler == texture
      ensures Bound()
    {
      this.texture := texture;
      this.sampler := texture;
    }
  }

  /** A filter a layer can hold in its filter tuple. */
  datatype Filter = Shader(shader: ShaderFilter) | Texture(texture: TextureFilter)
}
