/**
 * The deferred light-resolve shader table (SceneEngine/LightingTargets.cpp):
 * LightShaderType packs a light configuration into a slot index, the
 * constructor builds one shader per supported configuration into its own
 * slot, and GetShader looks slots up.
 *
 * The enumerators are declared in LightingTargets.h, which is not part of
 * this model; they are taken in declaration order (Directional = 0,
 * Point = 1; NoShadows = 0, PerspectiveShadows = 1, OrthShadows = 2,
 * OrthHybridShadows = 3). Fields are unsigned values, modelled as `nat`:
 * on non-negative values `x & (2^k - 1)` is `x % 2^k`, a left shift by k
 * is a product with 2^k, and `|` of fields in disjoint bits is their sum.
 */
module LightingTargets {
  import opened Wrappers

  const Directional: nat := 0
  const Point: nat := 1

  const NoShadows: nat := 0
  const PerspectiveShadows: nat := 1
  const OrthShadows: nat := 2
  const OrthHybridShadows: nat := 3

  datatype LightShaderType = LightShaderType(projection: nat, shadows: nat, diffuseModel: nat, shadowResolveModel: nat)

  /** LightShaderType::ReservedIndexCount. */
  function ReservedIndexCount(): (r: nat)
    ensures r == 32
  {
    0x1F + 1
  }

  /** LightShaderType::AsIndex: a point light's orthogonal shadows count as perspective
    * shadows and an unshadowed light ignores its resolve model; then one bit of projection,
    * two of shadows, one of diffuse model and one of resolve model are packed together. */
  function AsIndex(t: LightShaderType): (r: nat)
    ensures r < ReservedIndexCount()
  {
    var shadows := if t.projection == Point && t.shadows == OrthShadows then PerspectiveShadows else t.shadows;
    var shadowResolveModel := if shadows == NoShadows then 0 else t.shadowResolveModel;
    (t.projection % 2) * 1
      + (shadows % 4) * 2
      + (t.diffuseModel % 2) * 8
      + (shadowResolveModel % 2) * 16
  }

  /** The fields AsIndex keeps, after its two adjustments. */
  function Normalised(t: LightShaderType): (nat, nat, nat, nat)
  {
    var shadows := if t.projection == Point && t.shadows == OrthShadows then PerspectiveShadows else t.shadows;
    var shadowResolveModel := if shadows == NoShadows then 0 else t.shadowResolveModel;
    (t.projection % 2, shadows % 4, t.diffuseModel % 2, shadowResolveModel % 2)
  }

  /** Two configurations share a slot exactly when their normalised fields agree. */
  lemma AsIndexUnique(a: LightShaderType, b: LightShaderType)
    ensures AsIndex(a) == AsIndex(b) <==> Normalised(a) == Normalised(b)
  {
  }

  lemma PointOrthSharesPerspectiveSlot(diffuse: nat, resolve: nat)
    ensures AsIndex(LightShaderType(Point, OrthShadows, diffuse, resolve))
         == AsIndex(LightShaderType(Point, PerspectiveShadows, diffuse, resolve))
  {
  }

  lemma UnshadowedIgnoresResolveModel(projection: nat, diffuse: nat, resolve: nat)
    ensures AsIndex(LightShaderType(projection, NoShadows, diffuse, resolve))
         == AsIndex(LightShaderType(projection, NoShadows, diffuse, 0))
  {
  }

  // ---------------------------------------------------------------------------
  // Shader defines

  datatype Desc = Desc(gbufferType: nat, msaaSampleCount: nat, msaaSamplers: bool, flipDirection: bool)

  function DigitChar(d: nat): char
    requires d < 10
  {
    ['0', '1', '2', '3', '4', '5', '6', '7', '8', '9'][d]
  }

  /** Decimal text of an unsigned value, as the string builder prints it. */
  function NatToString(n: nat): (r: string)
    ensures |r| > 0
    decreases n
  {
    if n < 10 then [DigitChar(n)] else NatToString(n / 10) + [DigitChar(n % 10)]
  }

  lemma {:induction false} NatToStringInjective(a: nat, b: nat)
    requires NatToString(a) == NatToString(b)
    ensures a == b
    decreases a
  {
    if a >= 10 && b >= 10 {
      var ra, rb := NatToString(a), NatToString(b);
      assert ra[..|ra| - 1] == NatToString(a / 10) && rb[..|rb| - 1] == NatToString(b / 10);
      NatToStringInjective(a / 10, b / 10);
    }
  }

  /** The values BuildShader puts in its defines table. */
  datatype DefinesTable = DefinesTable(gbufferType: nat, msaaSamples: nat, msaaSamplers: bool,
                                       shadowCascadeMode: nat, diffuseMethod: nat,
                                       shadowResolveModel: nat, shadowRtHybrid: nat)

  /** The table as the string the shader compiler receives. */
  function DefinesText(d: DefinesTable): string
  {
    "GBUFFER_TYPE=" + NatToString(d.gbufferType)
    + ";MSAA_SAMPLES=" + NatToString(d.msaaSamples)
    + (if d.msaaSamplers then ";MSAA_SAMPLERS=1" else "")
    + ";SHADOW_CASCADE_MODE=" + NatToString(d.shadowCascadeMode)
    + ";DIFFUSE_METHOD=" + NatToString(d.diffuseMethod)
    + ";SHADOW_RESOLVE_MODEL=" + NatToString(d.shadowResolveModel)
    + ";SHADOW_RT_HYBRID=" + NatToString(d.shadowRtHybrid)
  }

  /** The defines as the code writes them. In `<< (count <= 1) ? 0 : count`, `<<` binds
    * before `?:`, so the stream receives the boolean (count <= 1), printed as a number, and
    * the conditional only selects between two expressions on the stream. */
  function ShaderDefinesAsWritten(desc: Desc, t: LightShaderType): (d: DefinesTable)
    ensures d.msaaSamples == (if desc.msaaSampleCount <= 1 then 1 else 0)
    ensures d == ShaderDefines(desc, t).(msaaSamples := d.msaaSamples)
  {
    DefinesTable(desc.gbufferType, if desc.msaaSampleCount <= 1 then 1 else 0, desc.msaaSamplers,
                 if t.shadows == OrthShadows || t.shadows == OrthHybridShadows then 2 else 1,
                 t.diffuseModel, t.shadowResolveModel,
                 if t.shadows == OrthHybridShadows then 1 else 0)
  }

  /** The defines as intended: MSAA_SAMPLES is 0 without multisampling and the sample
    * count otherwise; the cascade mode is 2 for the orthogonal shadow kinds, and the
    * hybrid flag is set for hybrid orthogonal shadows only. */
  function ShaderDefines(desc: Desc, t: LightShaderType): (d: DefinesTable)
    ensures d.msaaSamples == 0 <==> desc.msaaSampleCount <= 1
    ensures desc.msaaSampleCount > 1 ==> d.msaaSamples == desc.msaaSampleCount
    ensures d.shadowCascadeMode == 2 <==> t.shadows == OrthShadows || t.shadows == OrthHybridShadows
    ensures d.shadowCascadeMode == 1 <==> !(t.shadows == OrthShadows || t.shadows == OrthHybridShadows)
    ensures d.shadowRtHybrid == 1 <==> t.shadows == OrthHybridShadows
    ensures d.shadowRtHybrid == 0 <==> t.shadows != OrthHybridShadows
  {
    DefinesTable(desc.gbufferType, if desc.msaaSampleCount <= 1 then 0 else desc.msaaSampleCount, desc.msaaSamplers,
                 if t.shadows == OrthShadows || t.shadows == OrthHybridShadows then 2 else 1,
                 t.diffuseModel, t.shadowResolveModel,
                 if t.shadows == OrthHybridShadows then 1 else 0)
  }

  /** As written, a 4-sample target is compiled with MSAA_SAMPLES=0, the value meant for
    * no multisampling, and a single-sampled one with MSAA_SAMPLES=1. */
  lemma MsaaSamplesAsWrittenLosesCount(t: LightShaderType)
    ensures ShaderDefinesAsWritten(Desc(0, 4, false, false), t).msaaSamples == 0
    ensures ShaderDefinesAsWritten(Desc(0, 1, false, false), t).msaaSamples == 1
    ensures ShaderDefines(Desc(0, 4, false, false), t).msaaSamples == 4
    ensures ShaderDefines(Desc(0, 1, false, false), t).msaaSamples == 0
  {
  }

  /** With the corrected defines, the defines text tells multisampled sample counts apart. */
  lemma MsaaSamplesIdentifiesCount(a: Desc, b: Desc, t: LightShaderType)
    requires a.msaaSampleCount >= 2 && b.msaaSampleCount >= 2
    requires NatToString(ShaderDefines(a, t).msaaSamples) == NatToString(ShaderDefines(b, t).msaaSamples)
    ensures a.msaaSampleCount == b.msaaSampleCount
  {
    NatToStringInjective(a.msaaSampleCount, b.msaaSampleCount);
  }

  // ---------------------------------------------------------------------------
  // The shader table

  /** The two vertex shaders and four pixel shaders the table uses. */
  datatype VertexShader = FullscreenViewFrustumVector | FullscreenFlipViewFrustumVector
  datatype PixelShader = ResolvePointLightUnshadowed | ResolvePointLight | ResolveLightUnshadowed | ResolveLight

  function VertexShaderPath(v: VertexShader): string
  {
    match v
    case FullscreenViewFrustumVector => "game/xleres/basic2D.vsh:fullscreen_viewfrustumvector:vs_*"
    case FullscreenFlipViewFrustumVector => "game/xleres/basic2D.vsh:fullscreen_flip_viewfrustumvector:vs_*"
  }

  function PixelShaderPath(p: PixelShader): string
  {
    match p
    case ResolvePointLightUnshadowed => "game/xleres/deferred/resolveunshadowed.psh:ResolvePointLightUnshadowed:ps_*"
    case ResolvePointLight => "game/xleres/deferred/resolve.psh:ResolvePointLight:ps_*"
    case ResolveLightUnshadowed => "game/xleres/deferred/resolveunshadowed.psh:ResolveLightUnshadowed:ps_*"
    case ResolveLight => "game/xleres/deferred/resolve.psh:ResolveLight:ps_*"
  }

  /** A compiled program: its shaders and its defines table. */
  datatype ShaderProgram = ShaderProgram(vertexShader: VertexShader, pixelShader: PixelShader, defines: DefinesTable)

  /** A slot of the table; a slot no configuration was built into holds no program. */
  datatype LightShader = LightShader(program: Option<ShaderProgram>)

  /** The vertex shader follows the target's flip setting. */
  function VertexShaderFor(desc: Desc): (r: VertexShader)
    ensures r == FullscreenFlipViewFrustumVector <==> desc.flipDirection
  {
    if desc.flipDirection then FullscreenFlipViewFrustumVector else FullscreenViewFrustumVector
  }

  /** The pixel shader follows the projection, and the unshadowed variant is used exactly
    * when the light casts no shadows. */
  function PixelShaderFor(t: LightShaderType): (r: PixelShader)
    requires t.projection == Point || t.projection == Directional
    ensures (r == ResolvePointLightUnshadowed || r == ResolvePointLight) <==> t.projection == Point
    ensures (r == ResolvePointLightUnshadowed || r == ResolveLightUnshadowed) <==> t.shadows == NoShadows
  {
    if t.projection == Point then
      if t.shadows == NoShadows then ResolvePointLightUnshadowed else ResolvePointLight
    else
      if t.shadows == NoShadows then ResolveLightUnshadowed else ResolveLight
  }

  /** The program built for a configuration: the vertex shader follows the flip setting, the
    * pixel shader the projection and shadow kind. */
  function ProgramFor(desc: Desc, t: LightShaderType): (r: ShaderProgram)
    requires t.projection == Point || t.projection == Directional
    ensures (r.pixelShader == ResolvePointLightUnshadowed || r.pixelShader == ResolveLightUnshadowed) <==> t.shadows == NoShadows
  {
    ShaderProgram(VertexShaderFor(desc), PixelShaderFor(t), ShaderDefines(desc, t))
  }

  /** The configurations the constructor builds, in its order. */
  type BuildableType = t: LightShaderType | t.projection == Point || t.projection == Directional
    witness LightShaderType(Directional, NoShadows, 0, 0)

  const BuiltConfigurations: seq<BuildableType> := [
    LightShaderType(Directional, NoShadows, 0, 0),
    LightShaderType(Directional, NoShadows, 1, 0),
    LightShaderType(Directional, PerspectiveShadows, 0, 0),
    LightShaderType(Directional, PerspectiveShadows, 1, 0),
    LightShaderType(Directional, PerspectiveShadows, 0, 1),
    LightShaderType(Directional, PerspectiveShadows, 1, 1),
    LightShaderType(Directional, OrthShadows, 0, 0),
    LightShaderType(Directional, OrthShadows, 1, 0),
    LightShaderType(Directional, OrthShadows, 0, 1),
    LightShaderType(Directional, OrthShadows, 1, 1),
    LightShaderType(Directional, OrthHybridShadows, 0, 0),
    LightShaderType(Directional, OrthHybridShadows, 1, 0),
    LightShaderType(Directional, OrthHybridShadows, 0, 1),
    LightShaderType(Directional, OrthHybridShadows, 1, 1),
    LightShaderType(Point, NoShadows, 0, 0),
    LightShaderType(Point, NoShadows, 1, 0),
    LightShaderType(Point, PerspectiveShadows, 0, 0),
    LightShaderType(Point, PerspectiveShadows, 1, 0),
    LightShaderType(Point, PerspectiveShadows, 0, 1),
    LightShaderType(Point, PerspectiveShadows, 1, 1)]

  /** The slot of each built configuration, in the same order. */
  const BuiltSlots: seq<nat> := [0, 8, 2, 10, 18, 26, 4, 12, 20, 28, 6, 14, 22, 30, 1, 9, 3, 11, 19, 27]

  /** Each built configuration lands in its slot. */
  lemma BuiltConfigurationSlot(i: nat)
    requires i < |BuiltConfigurations|
    ensures AsIndex(BuiltConfigurations[i]) == BuiltSlots[i]
  {
  }

  /** No two built configurations share a slot. */
  lemma BuiltSlotsDistinct()
    ensures |BuiltSlots| == |BuiltConfigurations|
    ensures forall i :: 0 <= i < |BuiltSlots| ==> BuiltSlots[i] < ReservedIndexCount()
    ensures forall i, j :: 0 <= i < j < |BuiltSlots| ==> BuiltSlots[i] != BuiltSlots[j]
  {
  }

  /** The table before any shader is built: every slot empty. */
  function EmptyTable(): (r: seq<LightShader>)
    ensures |r| == ReservedIndexCount()
    ensures forall k :: 0 <= k < |r| ==> r[k].program.None?
  {
    seq(ReservedIndexCount(), _ => LightShader(None))
  }

  /** The table after the first n BuildShader calls of the constructor. */
  ghost function TableAfter(desc: Desc, n: nat): (r: seq<LightShader>)
    requires n <= |BuiltConfigurations|
    ensures |r| == ReservedIndexCount()
  {
    if n == 0 then EmptyTable()
    else
      BuiltSlotsDistinct();
      TableAfter(desc, n - 1)[BuiltSlots[n - 1] := LightShader(Some(ProgramFor(desc, BuiltConfigurations[n - 1])))]
  }

  /** After n builds, the slot of every configuration built so far holds its program. */
  lemma {:induction false} TableAfterBuilt(desc: Desc, n: nat, j: nat)
    requires j < n <= |BuiltConfigurations|
    ensures TableAfter(desc, n)[BuiltSlots[j]] == LightShader(Some(ProgramFor(desc, BuiltConfigurations[j])))
  {
    BuiltSlotsDistinct();
    if j < n - 1 {
      TableAfterBuilt(desc, n - 1, j);
    }
  }

  /** After n builds, a slot no configuration built so far maps to is still empty. */
  lemma {:induction false} TableAfterUnbuilt(desc: Desc, n: nat, k: nat)
    requires n <= |BuiltConfigurations| && k < ReservedIndexCount()
    requires k !in BuiltSlots[..n]
    ensures TableAfter(desc, n)[k].program.None?
  {
    BuiltSlotsDistinct();
    if n > 0 {
      assert BuiltSlots[..n] == BuiltSlots[..n - 1] + [BuiltSlots[n - 1]];
      TableAfterUnbuilt(desc, n - 1, k);
    }
  }

  /** The constructor's entry that a configuration with in-range fields is served by. */
  function BuiltEntryFor(t: LightShaderType): (i: nat)
    requires t.projection == Point || t.projection == Directional
    requires t.shadows <= OrthHybridShadows && t.diffuseModel <= 1 && t.shadowResolveModel <= 1
    requires !(t.projection == Point && t.shadows == OrthHybridShadows)
    ensures i < |BuiltConfigurations| && BuiltSlots[i] == AsIndex(t)
  {
    var firstOfShadowKind :=
      if t.projection == Directional then [0, 2, 6, 10][t.shadows] else [14, 16, 16][t.shadows];
    if t.shadows == NoShadows then firstOfShadowKind + t.diffuseModel
    else firstOfShadowKind + t.diffuseModel + (if t.shadowResolveModel == 1 then 2 else 0)
  }

  /** Every point or directional configuration with in-range fields finds a built shader in
    * the constructed table, except a point light with hybrid orthogonal shadows, whose slot
    * no call fills. */
  lemma ConstructedTableCoverage(desc: Desc, t: LightShaderType)
    requires t.projection == Point || t.projection == Directional
    requires t.shadows <= OrthHybridShadows && t.diffuseModel <= 1 && t.shadowResolveModel <= 1
    ensures TableAfter(desc, |BuiltConfigurations|)[AsIndex(t)].program.Some?
        <==> !(t.projection == Point && t.shadows == OrthHybridShadows)
  {
    if t.projection == Point && t.shadows == OrthHybridShadows {
      BuiltSlotsDistinct();
      assert AsIndex(t) !in BuiltSlots[..|BuiltConfigurations|];
      TableAfterUnbuilt(desc, |BuiltConfigurations|, AsIndex(t));
    } else {
      TableAfterBuilt(desc, |BuiltConfigurations|, BuiltEntryFor(t));
    }
  }

  class LightingResolveShaders {
    var shaders: seq<LightShader>

    /** LightingResolveShaders::GetShader: the slot, or null past the end of the table. */
    function GetShader(t: LightShaderType): (r: Option<LightShader>)
      reads this
      ensures r.Some? <==> (AsIndex(t)) < |shaders|
      ensures r.Some? ==> r.value == shaders[AsIndex(t)]
    {
      var index := AsIndex(t);
      if index < |shaders| then Some(shaders[index]) else None
    }

    /** BuildShader: fills the configuration's slot, which must still be empty. */
    method BuildShader(desc: Desc, t: LightShaderType)
      requires t.projection == Point || t.projection == Directional
      requires (AsIndex(t)) < |shaders| && shaders[AsIndex(t)].program.None?
      modifies this
      ensures shaders == old(shaders)[AsIndex(t) := LightShader(Some(ProgramFor(desc, t)))]
    {
      var definesTable := ShaderDefines(desc, t);
      var vertexShader := if desc.flipDirection then FullscreenFlipViewFrustumVector else FullscreenViewFrustumVector;
      var index := AsIndex(t);
      var pixelShader: PixelShader;
      if t.projection == Point {
        if t.shadows == NoShadows {
          pixelShader := ResolvePointLightUnshadowed;
        } else {
          pixelShader := ResolvePointLight;
        }
      } else {
        if t.shadows == NoShadows {
          pixelShader := ResolveLightUnshadowed;
        } else {
          pixelShader := ResolveLight;
        }
      }
      shaders := shaders[index := LightShader(Some(ShaderProgram(vertexShader, pixelShader, definesTable)))];
    }

    /** The constructor: 32 empty slots, then one BuildShader per entry of
      * BuiltConfigurations, in that order. Every call finds its slot empty. */
    constructor (desc: Desc)
      ensures shaders == TableAfter(desc, |BuiltConfigurations|)
      ensures forall t :: GetShader(t).Some?
    {
      shaders := EmptyTable();
      new;
      var i := 0;
      while i < |BuiltConfigurations|
        invariant 0 <= i <= |BuiltConfigurations|
        invariant shaders == TableAfter(desc, i)
      {
        BuiltConfigurationSlot(i);
        BuiltSlotsDistinct();
        assert BuiltSlots[i] !in BuiltSlots[..i];
        TableAfterUnbuilt(desc, i, BuiltSlots[i]);
        BuildShader(desc, BuiltConfigurations[i]);
        i := i + 1;
      }
    }
  }
}
