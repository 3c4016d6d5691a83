/**
 * The default shadow-frustum settings of the platform rig
 * (PlatformRig/PlatformRigUtil.cpp): the settings object with its defaults
 * and its two clamping setters, and the flag-driven part of
 * CalculateDefaultShadowCascades.
 *
 * Floating-point settings are modelled as exact `real` values; the
 * projection matrices the cascade builders compute are left out and only the
 * count and mode of the projections they return are kept. The console
 * tweakables read by the defaults are constructor parameters, and
 * SceneEngine::MaxShadowTexturesPerLight, declared outside this model, is a
 * parameter of the frustum-count setter.
 */
module ShadowSettings {
  import opened Bits

  /** The settings flags; a flag set is modelled as the set of flags it holds. */
  datatype ShadowFlag = HighPrecisionDepths | ArbitraryCascades | RayTraced

  // ---------------------------------------------------------------------------
  // The two setters' arithmetic

  /** `Clamp(value, 1u, maxPerLight)`. */
  function ClampFrustumCount(value: nat, maxPerLight: nat): (r: nat)
    requires 1 <= maxPerLight
    ensures 1 <= r <= maxPerLight
    ensures 1 <= value <= maxPerLight ==> r == value
    ensures value < 1 ==> r == 1
    ensures value > maxPerLight ==> r == maxPerLight
  {
    if value < 1 then 1 else if value > maxPerLight then maxPerLight else value
  }

  ghost predicate IsPowerOfTwo(n: nat)
  {
    exists k: nat :: Pow2(k) == n
  }

  /** IntegerLog2: the index of the highest set bit. */
  function IntegerLog2(x: nat): nat
    requires x >= 1
  {
    if x == 1 then 0 else 1 + IntegerLog2(x / 2)
  }

  lemma {:induction false} IntegerLog2Bounds(x: nat)
    requires x >= 1
    ensures Pow2(IntegerLog2(x)) <= x < Pow2(IntegerLog2(x) + 1)
  {
    if x > 1 {
      IntegerLog2Bounds(x / 2);
    }
  }

  /** `1 << (IntegerLog2(value - 1) + 1)`, for the values where neither the subtraction
    * nor the shift leaves 32 bits. */
  function CeilToPowerOfTwo(value: nat): (r: nat)
    requires 2 <= value <= 0x8000_0000
    ensures value <= r < 2 * value
  {
    IntegerLog2Bounds(value - 1);
    Pow2(IntegerLog2(value - 1) + 1)
  }

  /** The stored texture size is the least power of two not below the requested size. */
  lemma CeilToPowerOfTwoIsLeast(value: nat)
    requires 2 <= value <= 0x8000_0000
    ensures IsPowerOfTwo(CeilToPowerOfTwo(value))
    ensures value <= CeilToPowerOfTwo(value)
    ensures forall k: nat :: value <= Pow2(k) ==> CeilToPowerOfTwo(value) <= Pow2(k)
  {
    var l := IntegerLog2(value - 1);
    IntegerLog2Bounds(value - 1);
    forall k: nat | value <= Pow2(k)
      ensures Pow2(l + 1) <= Pow2(k)
    {
      if k <= l {
        Pow2Monotone(k, l);
      } else {
        Pow2Monotone(l + 1, k);
      }
    }
  }

  /** A request that already is a power of two is kept. */
  lemma CeilToPowerOfTwoKeepsPowers(k: nat)
    requires 1 <= k && Pow2(k) <= 0x8000_0000
    ensures CeilToPowerOfTwo(Pow2(k)) == Pow2(k)
  {
    var l := IntegerLog2(Pow2(k) - 1);
    IntegerLog2Bounds(Pow2(k) - 1);
    if l + 1 < k {
      Pow2Monotone(l + 1, k - 1);
    } else if l + 1 > k {
      Pow2Monotone(k, l);
    }
  }

  // ---------------------------------------------------------------------------
  // The settings object

  class DefaultShadowFrustumSettings {
    var frustumCount: nat
    var maxDistanceFromCamera: real
    var frustumSizeFactor: real
    var focusDistance: real
    var flags: set<ShadowFlag>
    var textureSize: nat
    var shadowSlopeScaledBias: real
    var shadowDepthBiasClamp: real
    var shadowRasterDepthBias: int
    var worldSpaceResolveBias: real
    var tanBlurAngle: real
    var minBlurSearch: real
    var maxBlurSearch: real

    /** The defaults: five frustums, 2048-texel textures, high-precision depths only; the
      * three bias values come from console tweakables. */
    constructor (slopeScaledBias: real, depthBiasClamp: real, rasterDepthBias: int)
      ensures frustumCount == 5 && textureSize == 2048 && flags == {HighPrecisionDepths}
      ensures maxDistanceFromCamera == 500.0 && frustumSizeFactor == 3.8 && focusDistance == 3.0
      ensures shadowSlopeScaledBias == slopeScaledBias && shadowDepthBiasClamp == depthBiasClamp
      ensures shadowRasterDepthBias == rasterDepthBias
      ensures worldSpaceResolveBias == 0.0 && tanBlurAngle == 0.00436
      ensures minBlurSearch == 0.5 && maxBlurSearch == 25.0
    {
      frustumCount := 5;
      maxDistanceFromCamera := 500.0;
      frustumSizeFactor := 3.8;
      focusDistance := 3.0;
      flags := {HighPrecisionDepths};
      textureSize := 2048;
      shadowSlopeScaledBias := slopeScaledBias;
      shadowDepthBiasClamp := depthBiasClamp;
      shadowRasterDepthBias := rasterDepthBias;
      worldSpaceResolveBias := 0.0;
      tanBlurAngle := 0.00436;
      minBlurSearch := 0.5;
      maxBlurSearch := 25.0;
    }

    /** The FrustumCount accessor's setter. */
    method SetFrustumCount(value: nat, maxShadowTexturesPerLight: nat)
      requires 1 <= maxShadowTexturesPerLight
      modifies this
      ensures frustumCount == ClampFrustumCount(value, maxShadowTexturesPerLight)
      ensures 1 <= frustumCount <= maxShadowTexturesPerLight
      ensures textureSize == old(textureSize) && flags == old(flags)
    {
      frustumCount := ClampFrustumCount(value, maxShadowTexturesPerLight);
    }

    /** The TextureSize accessor's setter: rounds the request up to a power of two. */
    method SetTextureSize(value: nat)
      requires 2 <= value <= 0x8000_0000
      modifies this
      ensures textureSize == CeilToPowerOfTwo(value)
      ensures IsPowerOfTwo(textureSize) && value <= textureSize
      ensures frustumCount == old(frustumCount) && flags == old(flags)
    {
      CeilToPowerOfTwoIsLeast(value);
      textureSize := CeilToPowerOfTwo(value);
    }
  }

  // ---------------------------------------------------------------------------
  // CalculateDefaultShadowCascades

  datatype NativeFormat =
    | R24G8Typeless | D24UnormS8Uint | R24UnormX8Typeless
    | R16Typeless | D16Unorm | R16Unorm

  datatype ProjectionMode = Arbitrary | Ortho
  datatype ResolveType = DepthTexture | RayTracedResolve

  /** The projections' count and mode; the matrices are left out. */
  datatype Projections = Projections(count: nat, mode: ProjectionMode)

  datatype ShadowProjectionDesc = ShadowProjectionDesc(
    width: nat, height: nat,
    typelessFormat: NativeFormat, writeFormat: NativeFormat, readFormat: NativeFormat,
    projections: Projections,
    resolveType: ResolveType,
    shadowSlopeScaledBias: real, shadowDepthBiasClamp: real, shadowRasterDepthBias: int,
    worldSpaceResolveBias: real, tanBlurAngle: real, minBlurSearch: real, maxBlurSearch: real,
    lightId: nat)

  /** BuildBasicShadowProjections always builds five arbitrary projections. */
  function BasicShadowProjections(): Projections
  {
    Projections(5, Arbitrary)
  }

  /** BuildSimpleOrthogonalShadowProjections builds one orthogonal cascade per frustum. */
  function SimpleOrthogonalShadowProjections(frustumCount: nat): Projections
  {
    Projections(frustumCount, Ortho)
  }

  /** The shadow descriptor for a light under the given settings. */
  function CalculateDefaultShadowCascades(settings: DefaultShadowFrustumSettings, lightId: nat): (r: ShadowProjectionDesc)
    reads settings
    ensures r.width == r.height
    ensures (r.writeFormat == D24UnormS8Uint) == (r.typelessFormat == R24G8Typeless) == (r.readFormat == R24UnormX8Typeless)
  {
    var highPrecision := HighPrecisionDepths in settings.flags;
    ShadowProjectionDesc(
      settings.textureSize, settings.textureSize,
      if highPrecision then R24G8Typeless else R16Typeless,
      if highPrecision then D24UnormS8Uint else D16Unorm,
      if highPrecision then R24UnormX8Typeless else R16Unorm,
      if ArbitraryCascades in settings.flags then BasicShadowProjections()
      else SimpleOrthogonalShadowProjections(settings.frustumCount),
      if RayTraced in settings.flags then RayTracedResolve else DepthTexture,
      settings.shadowSlopeScaledBias, settings.shadowDepthBiasClamp, settings.shadowRasterDepthBias,
      settings.worldSpaceResolveBias, settings.tanBlurAngle, settings.minBlurSearch, settings.maxBlurSearch,
      lightId)
  }

  /** The 24-bit depth formats are chosen exactly under HighPrecisionDepths, and the three
    * formats always come from the same family; the texture is square. */
  lemma CascadeFormatsFollowPrecisionFlag(settings: DefaultShadowFrustumSettings, lightId: nat)
    ensures var r := CalculateDefaultShadowCascades(settings, lightId);
      && r.width == settings.textureSize && r.height == settings.textureSize
      && (r.writeFormat == D24UnormS8Uint <==> HighPrecisionDepths in settings.flags)
      && (r.writeFormat == D16Unorm <==> HighPrecisionDepths !in settings.flags)
      && (r.typelessFormat == R24G8Typeless <==> r.writeFormat == D24UnormS8Uint)
      && (r.readFormat == R24UnormX8Typeless <==> r.writeFormat == D24UnormS8Uint)
  {
  }

  /** ArbitraryCascades selects five arbitrary projections; otherwise there is one
    * orthogonal cascade per configured frustum. RayTraced selects the ray-traced resolve. */
  lemma CascadeModeFollowsFlags(settings: DefaultShadowFrustumSettings, lightId: nat)
    ensures var r := CalculateDefaultShadowCascades(settings, lightId);
      && (r.projections.mode == Arbitrary <==> ArbitraryCascades in settings.flags)
      && (ArbitraryCascades in settings.flags ==> r.projections.count == 5)
      && (ArbitraryCascades !in settings.flags ==> r.projections.count == settings.frustumCount)
      && (r.resolveType == RayTracedResolve <==> RayTraced in settings.flags)
  {
  }

  /** The bias and blur settings and the light id pass through unchanged. */
  lemma CascadeCopiesBiasAndBlur(settings: DefaultShadowFrustumSettings, lightId: nat)
    ensures var r := CalculateDefaultShadowCascades(settings, lightId);
      && r.shadowSlopeScaledBias == settings.shadowSlopeScaledBias
      && r.shadowDepthBiasClamp == settings.shadowDepthBiasClamp
      && r.shadowRasterDepthBias == settings.shadowRasterDepthBias
      && r.worldSpaceResolveBias == settings.worldSpaceResolveBias
      && r.tanBlurAngle == settings.tanBlurAngle
      && r.minBlurSearch == settings.minBlurSearch
      && r.maxBlurSearch == settings.maxBlurSearch
      && r.lightId == lightId
  {
  }
}
