/**
 * The model and material scaffold data the renderer is built from
 * (RenderCore/Assets/ModelRunTime.cpp), as values: geometry, draw calls, geo calls and
 * the material scaffold, which is a map from material guid to material.
 *
 * Material guids are 64-bit; the model keeps them as unbounded naturals. Hash64 of a
 * binding's name is an input (the binding's `nameHash`), and so is the answer of
 * IsDXTNormalMap, which needs to open the texture file.
 */
module ModelData {
  import opened Wrappers
  import UITypesBinding
  import ScaffoldChunks

  type MaterialGuid = nat

  /** `~unsigned(0)`, the material guid of a draw call whose sub-material index is out of
    * range: a 32-bit all-ones value widened to 64 bits. */
  const NoMaterial: MaterialGuid := 0xFFFF_FFFF

  // ---------------------------------------------------------------------------
  // Geometry

  datatype VertexElement = VertexElement(semanticName: string, semanticIndex: nat, nativeFormat: nat, alignedByteOffset: nat)

  datatype GeoInputAssembly = GeoInputAssembly(elements: seq<VertexElement>, vertexStride: nat)

  /** A vertex stream: its layout and where its bytes are in the large-blocks area. */
  datatype VertexData = VertexData(ia: GeoInputAssembly, offset: nat, size: nat)

  /** Index formats: only R32_UINT is told apart from the others. */
  datatype NativeFormat = R32Uint | OtherFormat(code: nat)

  datatype IndexData = IndexData(format: NativeFormat, offset: nat, size: nat)

  datatype DrawCall = DrawCall(firstIndex: nat, indexCount: nat, firstVertex: nat, subMaterialIndex: nat, topology: nat)

  datatype RawGeometry = RawGeometry(vb: VertexData, ib: IndexData, drawCalls: seq<DrawCall>)

  /** A skinned geometry: the raw geometry it starts with, plus its animated and
    * skeleton-binding streams. */
  datatype BoundSkinnedGeometry = BoundSkinnedGeometry(geo: RawGeometry, animatedVertexElements: VertexData, skeletonBinding: VertexData)

  datatype GeoCall = GeoCall(geoId: nat, materialGuids: seq<MaterialGuid>, levelOfDetail: nat, transformMarker: nat)

  /** The parts of the model scaffold the renderer reads. */
  datatype ModelScaffoldData = ModelScaffoldData(
    geoCalls: seq<GeoCall>,
    skinCalls: seq<GeoCall>,
    geos: seq<RawGeometry>,
    boundSkinnedControllers: seq<BoundSkinnedGeometry>)

  /** Every geo call names an existing geometry, as the scaffold's producer guarantees and
    * the renderer's construction asserts. */
  predicate WellFormed(s: ModelScaffoldData)
  {
    && (forall c :: c in s.geoCalls ==> c.geoId < |s.geos|)
    && (forall c :: c in s.skinCalls ==> c.geoId < |s.boundSkinnedControllers|)
  }

  /** The number of geo calls, unskinned first and skinned after. */
  function CallCount(s: ModelScaffoldData): nat
  {
    |s.geoCalls| + |s.skinCalls|
  }

  /** GetGeoCall: index `gi` runs over the unskinned calls, then over the skinned ones. */
  function GetGeoCall(s: ModelScaffoldData, gi: nat): (r: GeoCall)
    requires gi < CallCount(s)
    ensures gi < |s.geoCalls| ==> r == s.geoCalls[gi]
    ensures gi >= |s.geoCalls| ==> r == s.skinCalls[gi - |s.geoCalls|]
  {
    if gi < |s.geoCalls| then s.geoCalls[gi] else s.skinCalls[gi - |s.geoCalls|]
  }

  /** GetGeo: the raw geometry of geo call `gi`. */
  function GetGeo(s: ModelScaffoldData, gi: nat): RawGeometry
    requires WellFormed(s) && gi < CallCount(s)
  {
    if gi < |s.geoCalls| then s.geos[s.geoCalls[gi].geoId]
    else
      assert s.skinCalls[gi - |s.geoCalls|] in s.skinCalls;
      s.boundSkinnedControllers[s.skinCalls[gi - |s.geoCalls|].geoId].geo
  }

  // ---------------------------------------------------------------------------
  // Materials

  /** The names a parameter box may hold, as far as the renderer sets them. */
  datatype ParamName =
    | Named(name: string)
    | ResHas(bindingName: string)
    | ResHasNormalsTextureDxt
    | GeoHasTexcoord | GeoHasColour | GeoHasNormal | GeoHasTangentFrame
    | GeoHasBitangent | GeoHasSkinWeights | GeoHasPerVertexAo

  type ParameterBox = map<ParamName, int>

  /** A texture binding of a material: the bound resource name under a parameter name. */
  datatype Binding = Binding(name: string, nameHash: nat, typeSize: nat, resourceName: string)

  /** A material: its parameters, its render states, its texture bindings, its constants as
    * the constant-buffer layout lays them out, and, when it binds a normal map, whether that
    * map is DXT-compressed. */
  datatype Material = Material(
    matParams: ParameterBox,
    stateSet: UITypesBinding.StateSet,
    bindings: seq<Binding>,
    constants: seq<ScaffoldChunks.byte>,
    normalsTextureIsDxt: Option<bool>)

  type MaterialScaffold = map<MaterialGuid, Material>

  /** The render pass a draw call is deferred to. */
  datatype DelayStep = OpaqueRender | PostDeferred

  // ---------------------------------------------------------------------------
  // Low-level input layouts

  /** One element of a low-level input layout: a vertex element placed in an input slot. */
  datatype InputElementDesc = InputElementDesc(
    semanticName: string, semanticIndex: nat, nativeFormat: nat, inputSlot: nat, alignedByteOffset: nat)

  /** What a technique interface is built from: the input layout and the texture bind points. */
  datatype TechniqueInterfaceDesc = TechniqueInterfaceDesc(layout: seq<InputElementDesc>, textureBindPoints: seq<nat>)
}
