/**
 * The model renderer object (RenderCore/Assets/ModelRunTime.cpp, ModelRenderer and its
 * pimpl): construction from a model scaffold and a material scaffold at one level of detail,
 * and the queries on the result: the material binding of each draw call and the combined
 * state of the bound textures.
 *
 * A texture's state, as GetState or TryResolve reports it, is a function parameter; so is the
 * texture loader. The vertex and index buffers are represented by their sizes: their bytes
 * come from the files and the GPU objects are created from them.
 */
module Renderer {
  import opened Wrappers
  import opened ModelData
  import opened SharedStates
  import opened ModelConstruction
  import opened GeoBuffers
  import opened ModelRenderers
  import opened ModelScaffolds
  import opened MeshToModels
  import opened DrawCallScheduling
  import opened ModelPreparation
  import opened ImmediateRendering
  import UITypesBinding

  /** `~0ull`, the material binding of a draw call index that is out of range. */
  const NoBinding: MaterialGuid := 0xFFFF_FFFF_FFFF_FFFF

  /** The material guid of each stored draw call, in draw-call order. */
  function MaterialBindings(res: seq<DrawCallResources>): (r: seq<MaterialGuid>)
    ensures |r| == |res| && forall i :: 0 <= i < |res| ==> r[i] == res[i].materialBindingGuid
  {
    seq(|res|, i requires 0 <= i < |res| => res[i].materialBindingGuid)
  }

  /** Parameter boxes may be appended while the entries stay valid. */
  lemma EntryMeaningGrows(
    mats: MaterialResources, matScaffold: MaterialScaffold, cbSize: nat, defaults: UITypesBinding.StateSet,
    cbs: seq<seq<ScaffoldChunks.byte>>, names: seq<string>, boxes: seq<ParameterBox>, newBoxes: seq<ParameterBox>,
    rss: seq<UITypesBinding.StateSet>)
    requires boxes <= newBoxes
    requires forall i :: 0 <= i < |mats| ==> EntryMeaning(mats, i, matScaffold, cbSize, defaults, cbs, names, boxes, rss)
    ensures forall i :: 0 <= i < |mats| ==> EntryMeaning(mats, i, matScaffold, cbSize, defaults, cbs, names, newBoxes, rss)
  {
    forall i | 0 <= i < |mats|
      ensures EntryMeaning(mats, i, matScaffold, cbSize, defaults, cbs, names, newBoxes, rss)
    {
      assert EntryMeaning(mats, i, matScaffold, cbSize, defaults, cbs, names, boxes, rss);
      assert newBoxes[mats[i].1.matParams] == boxes[mats[i].1.matParams];
    }
  }

  /** Every hash a material binds is a texture bind point. */
  lemma BindPointsCovered(mats: MaterialResources, matScaffold: MaterialScaffold, tbp: seq<nat>)
    requires forall h :: h in tbp <==> h in BindPointsUpTo(Guids(mats), matScaffold, |mats|)
    ensures forall i, h :: 0 <= i < |mats| && BindsHash(matScaffold, mats[i].0, h) ==> h in tbp
  {
    forall i, h | 0 <= i < |mats| && BindsHash(matScaffold, mats[i].0, h)
      ensures h in tbp
    {
      assert Guids(mats)[i] == mats[i].0;
      BindPointsUpToMeaning(Guids(mats), matScaffold, |mats|, h);
    }
  }

  /** Each material's texture set is its own position, so it is below the number of sets. */
  lemma TextureSetsInRange(
    mats: MaterialResources, matScaffold: MaterialScaffold, cbSize: nat, defaults: UITypesBinding.StateSet,
    cbs: seq<seq<ScaffoldChunks.byte>>, names: seq<string>, boxes: seq<ParameterBox>, rss: seq<UITypesBinding.StateSet>)
    requires forall i :: 0 <= i < |mats| ==> EntryMeaning(mats, i, matScaffold, cbSize, defaults, cbs, names, boxes, rss)
    ensures forall i :: 0 <= i < |mats| ==> mats[i].1.texturesIndex < |mats|
  {
    forall i | 0 <= i < |mats|
      ensures mats[i].1.texturesIndex < |mats|
    {
      assert EntryMeaning(mats, i, matScaffold, cbSize, defaults, cbs, names, boxes, rss);
    }
  }

  /** The constructor's two loops over a fresh set of buffers under construction: the unskinned
    * draw calls, then the skinned ones, with one resources entry per draw call in that order. */
  method BuildDrawCalls(
    s: ModelScaffoldData, mats: MaterialResources, lod: nat, supplements: seq<SupplementScaffold>,
    sss: SharedStateSet, tbp: seq<nat>)
    returns (meshes: seq<Mesh>, skinnedMeshes: seq<SkinnedMesh>, drawCalls: seq<MeshAndDrawCall>,
             skinnedDrawCalls: seq<MeshAndDrawCall>, drawCallRes: seq<DrawCallResources>, vbSize: nat, ibSize: nat)
    requires WellFormed(s) && StrictlySorted(Guids(mats)) && SupplementsFit(supplements) && SkinStridesPositive(s)
    modifies sss
    ensures sss.Extends()
    ensures sss.shaderNames == old(sss.shaderNames) && sss.renderStateSets == old(sss.renderStateSets)
    ensures drawCalls == StoredDrawCalls(s, mats, lod, false, |s.geoCalls|)
    ensures skinnedDrawCalls == StoredDrawCalls(s, mats, lod, true, |s.skinCalls|)
    ensures |drawCallRes| == |drawCalls| + |skinnedDrawCalls|
    ensures Emitted(s, mats, false, meshes, drawCalls, drawCallRes[..|drawCalls|])
    ensures Emitted(s, mats, true, Bases(skinnedMeshes), skinnedDrawCalls, drawCallRes[|drawCalls|..])
    ensures MeshSet(s, mats, lod, false, |s.geoCalls|, meshes)
    ensures MeshSet(s, mats, lod, true, |s.skinCalls|, Bases(skinnedMeshes))
    ensures MeshesBuilt(s, supplements, sss.parameterBoxes, sss.techniqueInterfaces, tbp, meshes)
    ensures SkinnedMeshesBuilt(s, supplements, sss.parameterBoxes, sss.techniqueInterfaces, tbp, skinnedMeshes)
  {
    var wb := new BuffersUnderConstruction();
    var dres, sres;
    meshes, drawCalls, dres := BuildUnskinned(s, mats, lod, supplements, wb, sss, tbp);
    ghost var boxes, tis := sss.parameterBoxes, sss.techniqueInterfaces;
    skinnedMeshes, skinnedDrawCalls, sres := BuildSkinned(s, mats, lod, supplements, wb, sss, tbp);
    MeshBuiltGrows(s, supplements, boxes, sss.parameterBoxes, tis, sss.techniqueInterfaces, tbp, meshes);
    drawCallRes := dres + sres;
    assert drawCallRes[..|drawCalls|] == dres && drawCallRes[|drawCalls|..] == sres;
    vbSize, ibSize := wb.vbSize, wb.ibSize;
  }

  class ModelRenderer {
    /** The renderer's address, which delayed entries name it by. */
    const address: nat
    var scaffold: ModelScaffoldData
    var levelOfDetail: nat
    var meshes: seq<Mesh>
    var skinnedMeshes: seq<SkinnedMesh>
    /** The unskinned draw calls, then the skinned ones; `drawCallRes` covers both lists. */
    var drawCalls: seq<MeshAndDrawCall>
    var skinnedDrawCalls: seq<MeshAndDrawCall>
    var drawCallRes: seq<DrawCallResources>
    /** One texture set of `texturesPerMaterial` slots per material. */
    var boundTextures: seq<Option<TextureId>>
    var constantBuffers: seq<seq<ScaffoldChunks.byte>>
    var texturesPerMaterial: nat
    var vbSize: nat
    var ibSize: nat
    /** The material-resource table and the texture bind points the renderer was built with. */
    ghost var materials: MaterialResources
    ghost var textureBindPoints: seq<nat>

    /** The ModelRenderer constructor: the material resources, the unskinned then the skinned
      * meshes and draw calls, and the bound textures. */
    constructor(
      address: nat, s: ModelScaffoldData, matScaffold: MaterialScaffold, supplements: seq<SupplementScaffold>,
      sss: SharedStateSet, lod: nat, cbSize: nat, defaults: UITypesBinding.StateSet,
      resolve: string -> Option<TextureId>)
      requires WellFormed(s) && NonEmptyConstants(matScaffold, cbSize)
      requires SupplementsFit(supplements) && SkinStridesPositive(s)
      modifies sss
      ensures sss.Extends()
      ensures this.address == address && scaffold == s && levelOfDetail == lod
      ensures StrictlySorted(Guids(materials))
      ensures forall g :: g in Guids(materials) <==> g in LodMaterials(s, lod, CallCount(s))
      ensures forall i :: 0 <= i < |materials| ==>
        EntryMeaning(materials, i, matScaffold, cbSize, defaults, constantBuffers,
                     sss.shaderNames, sss.parameterBoxes, sss.renderStateSets)
      ensures NoDuplicates(constantBuffers)
      ensures StrictlySorted(textureBindPoints) && texturesPerMaterial == |textureBindPoints|
      ensures forall h :: h in textureBindPoints <==> h in BindPointsUpTo(Guids(materials), matScaffold, |materials|)
      ensures drawCalls == StoredDrawCalls(s, materials, lod, false, |s.geoCalls|)
      ensures skinnedDrawCalls == StoredDrawCalls(s, materials, lod, true, |s.skinCalls|)
      ensures |drawCallRes| == |drawCalls| + |skinnedDrawCalls|
      ensures Emitted(s, materials, false, meshes, drawCalls, drawCallRes[..|drawCalls|])
      ensures Emitted(s, materials, true, Bases(skinnedMeshes), skinnedDrawCalls, drawCallRes[|drawCalls|..])
      ensures MeshSet(s, materials, lod, false, |s.geoCalls|, meshes)
      ensures MeshSet(s, materials, lod, true, |s.skinCalls|, Bases(skinnedMeshes))
      ensures MeshesBuilt(s, supplements, sss.parameterBoxes, sss.techniqueInterfaces, textureBindPoints, meshes)
      ensures SkinnedMeshesBuilt(s, supplements, sss.parameterBoxes, sss.techniqueInterfaces, textureBindPoints, skinnedMeshes)
      ensures |boundTextures| == |materials| * texturesPerMaterial
      ensures forall slot :: 0 <= slot < |boundTextures| ==>
        boundTextures[slot] == BoundAfter(materials, matScaffold, textureBindPoints, resolve, |materials|, slot)
      ensures Preparable(Parts())
    {
      var mats, tbp, cbs := BuildMaterialResources(s, matScaffold, sss, lod, [], [], cbSize, defaults);
      ghost var names, boxes, rss := sss.shaderNames, sss.parameterBoxes, sss.renderStateSets;
      var ms, sms, dcs, sdcs, res, vbs, ibs := BuildDrawCalls(s, mats, lod, supplements, sss, tbp);
      EntryMeaningGrows(mats, matScaffold, cbSize, defaults, cbs, names, boxes, sss.parameterBoxes, rss);
      TextureSetsInRange(mats, matScaffold, cbSize, defaults, cbs, sss.shaderNames, sss.parameterBoxes, sss.renderStateSets);
      BindPointsCovered(mats, matScaffold, tbp);
      var bound := BuildBoundTextures(mats, matScaffold, tbp, |mats|, resolve);
      EmittedPreparable(RendererParts(s, ms, sms, dcs, sdcs, res), mats);
      this.address := address;
      scaffold, levelOfDetail := s, lod;
      meshes, skinnedMeshes := ms, sms;
      drawCalls, skinnedDrawCalls, drawCallRes := dcs, sdcs, res;
      boundTextures, constantBuffers, texturesPerMaterial := bound, cbs, |tbp|;
      vbSize, ibSize := vbs, ibs;
      materials, textureBindPoints := mats, tbp;
    }

    /** The parts of the renderer that Prepare and the renderers read. */
    function Parts(): RendererParts
      reads this
    {
      RendererParts(scaffold, meshes, skinnedMeshes, drawCalls, skinnedDrawCalls, drawCallRes)
    }

    /** Prepare: one delayed entry per stored draw call, unskinned then skinned, filed under
      * its delay step; one transform per draw call when the mesh-to-model lookup is good,
      * otherwise the model-to-world transform once, shared by every entry. */
    method Prepare(dest: DelayedDrawCallSet, modelToWorld: Matrix, transforms: MeshToModel)
      requires Preparable(Parts())
      requires IsGood(transforms) ==> MarkersKnown(Parts(), transforms)
      modifies dest
      ensures dest.transforms == old(dest.transforms) + PreparedTransforms(Parts(), transforms, modelToWorld)
      ensures forall step ::
        dest.Entries(step) == old(dest.Entries(step)) + OfStep(step, drawCallRes, PreparedEntries(Parts(), address, transforms, |old(dest.transforms)|))
    {
      ghost var p := Parts();
      ghost var base := |dest.transforms|;
      ghost var (opaqueBefore, postDeferredBefore) := (dest.Entries(OpaqueRender), dest.Entries(PostDeferred));
      var mainTransformIndex := NoIndex;
      if !IsGood(transforms) {
        mainTransformIndex := dest.PushTransform(modelToWorld);
      }
      ghost var transformsBefore := dest.transforms;
      FileEntries(dest, base, mainTransformIndex, modelToWorld, transforms);
      FiledAll(p, address, transforms, modelToWorld, base, DrawCount(p), transformsBefore, opaqueBefore, postDeferredBefore,
               dest.transforms, dest.Entries(OpaqueRender), dest.Entries(PostDeferred));
      forall step
        ensures dest.Entries(step) == old(dest.Entries(step)) + OfStep(step, drawCallRes, PreparedEntries(p, address, transforms, base))
      {
        if step == OpaqueRender {
        } else {
        }
      }
    }

    /** Prepare's loops: the unskinned draw calls, then the skinned ones, numbered on from
      * them. */
    method FileEntries(dest: DelayedDrawCallSet, ghost base: nat, mainTransformIndex: nat,
                       modelToWorld: Matrix, transforms: MeshToModel)
      requires Preparable(Parts())
      requires IsGood(transforms) ==> MarkersKnown(Parts(), transforms) && |dest.transforms| == base
      requires !IsGood(transforms) ==> mainTransformIndex == base
      modifies dest
      ensures FiledUpTo(Parts(), address, transforms, modelToWorld, base, DrawCount(Parts()),
                        old(dest.transforms), old(dest.Entries(OpaqueRender)), old(dest.Entries(PostDeferred)),
                        dest.transforms, dest.Entries(OpaqueRender), dest.Entries(PostDeferred))
    {
      ghost var p := Parts();
      ghost var (transformsBefore, opaqueBefore, postDeferredBefore) :=
        (dest.transforms, dest.Entries(OpaqueRender), dest.Entries(PostDeferred));
      FiledStart(p, address, transforms, modelToWorld, base, transformsBefore, opaqueBefore, postDeferredBefore);
      var drawCallIndex := 0;
      while drawCallIndex < |drawCalls| + |skinnedDrawCalls|
        invariant p == Parts() && drawCallIndex <= DrawCount(p)
        invariant FiledUpTo(p, address, transforms, modelToWorld, base, drawCallIndex, transformsBefore, opaqueBefore, postDeferredBefore,
                            dest.transforms, dest.Entries(OpaqueRender), dest.Entries(PostDeferred))
      {
        FileNext(dest, p, drawCallIndex, base, mainTransformIndex, modelToWorld, transforms,
                 transformsBefore, opaqueBefore, postDeferredBefore);
        drawCallIndex := drawCallIndex + 1;
      }
      assert drawCallIndex == DrawCount(p);
    }

    /** One iteration of Prepare's loops: draw call `k` filed after the first `k`. */
    method FileNext(dest: DelayedDrawCallSet, ghost p: RendererParts, k: nat, ghost base: nat, mainTransformIndex: nat,
                    modelToWorld: Matrix, transforms: MeshToModel, ghost transformsBefore: seq<Matrix>,
                    ghost opaqueBefore: seq<DelayedDrawCall>, ghost postDeferredBefore: seq<DelayedDrawCall>)
      requires p == Parts() && k < DrawCount(p)
      requires FiledUpTo(p, address, transforms, modelToWorld, base, k, transformsBefore, opaqueBefore, postDeferredBefore,
                         dest.transforms, dest.Entries(OpaqueRender), dest.Entries(PostDeferred))
      requires !IsGood(transforms) ==> mainTransformIndex == base
      modifies dest
      ensures FiledUpTo(p, address, transforms, modelToWorld, base, k + 1, transformsBefore, opaqueBefore, postDeferredBefore,
                        dest.transforms, dest.Entries(OpaqueRender), dest.Entries(PostDeferred))
    {
      ghost var (transformsNow, opaqueNow, postDeferredNow) :=
        (dest.transforms, dest.Entries(OpaqueRender), dest.Entries(PostDeferred));
      FileEntry(dest, p, k, base, mainTransformIndex, modelToWorld, transforms);
      FiledNext(p, address, transforms, modelToWorld, base, k, transformsBefore, opaqueBefore, postDeferredBefore,
                transformsNow, opaqueNow, postDeferredNow, dest.transforms, dest.Entries(OpaqueRender), dest.Entries(PostDeferred));
    }

    /** The body of Prepare's loops for draw call `k`: its entry, and its transform when the
      * lookup is good. */
    method FileEntry(dest: DelayedDrawCallSet, ghost p: RendererParts, k: nat, ghost base: nat, mainTransformIndex: nat,
                     modelToWorld: Matrix, transforms: MeshToModel)
      requires p == Parts() && Preparable(p) && k < DrawCount(p)
      requires IsGood(transforms) ==> MarkersKnown(p, transforms) && |dest.transforms| == base + k
      requires !IsGood(transforms) ==> mainTransformIndex == base
      modifies dest
      ensures dest.transforms ==
        old(dest.transforms) + (if IsGood(transforms) then [MeshTransform(p, transforms, modelToWorld, k)] else [])
      ensures forall step ::
        dest.Entries(step) == old(dest.Entries(step)) + Filed(step, p.drawCallRes, EntryAt(p, k, address, EntryTransformIndex(transforms, base, k)))
    {
      var meshToWorld := mainTransformIndex;
      if IsGood(transforms) {
        var skinned := k >= |drawCalls|;
        var md := if skinned then skinnedDrawCalls[k - |drawCalls|] else drawCalls[k];
        assert md == DrawCallAt(p, k) && CallKnownAt(p, k);
        var geoCall := CallOf(scaffold, skinned, md.geoCallIndex);
        assert MarkerKnown(transforms, GeoCallAt(p, k).transformMarker);
        meshToWorld := dest.PushTransform(Combine(GetMeshToModel(transforms, geoCall.transformMarker), modelToWorld));
      }
      assert meshToWorld == EntryTransformIndex(transforms, base, k);
      var step, entry := EntryFor(p, k, meshToWorld);
      ghost var (opaqueNow, postDeferredNow) := (dest.Entries(OpaqueRender), dest.Entries(PostDeferred));
      dest.Push(step, entry);
      assert dest.Entries(OpaqueRender) == opaqueNow + Filed(OpaqueRender, p.drawCallRes, entry);
      assert dest.Entries(PostDeferred) == postDeferredNow + Filed(PostDeferred, p.drawCallRes, entry);
    }

    /** The entry Prepare builds for draw call `k`, and the step it is filed under. */
    method EntryFor(ghost p: RendererParts, k: nat, meshToWorld: nat) returns (step: DelayStep, entry: DelayedDrawCall)
      requires p == Parts() && Preparable(p) && k < DrawCount(p)
      ensures entry == EntryAt(p, k, address, meshToWorld)
      ensures entry.drawCallIndex == k && step == p.drawCallRes[k].delayStep
    {
      var skinned := k >= |drawCalls|;
      var md := if skinned then skinnedDrawCalls[k - |drawCalls|] else drawCalls[k];
      assert md == DrawCallAt(p, k) && CallKnownAt(p, k);
      var res := drawCallRes[k];
      var geoCall := CallOf(scaffold, skinned, md.geoCallIndex);
      var m := IndexOf(if skinned then MeshIds(Bases(skinnedMeshes)) else MeshIds(meshes), geoCall.geoId);
      var techniqueInterface := if skinned then skinnedMeshes[m].skinnedTechniqueInterface else meshes[m].techniqueInterface;
      entry := DelayedDrawCall(
        k, address, meshToWorld,
        VariationHash(techniqueInterface, res.geoParamBox, res.matParams, res.shaderName),
        md.drawCall.indexCount, md.drawCall.firstIndex, md.drawCall.firstVertex,
        if skinned then TagSkinned(md.drawCall.topology) else md.drawCall.topology,
        if skinned then Skinned(m) else Unskinned(m));
      step := res.delayStep;
    }

    /** Render: the model's transform first when the lookup is not good; then every unskinned
      * draw call and, from no current geo call again, every skinned one. */
    method Render(modelToWorld: Matrix, transforms: MeshToModel, animation: Option<seq<nat>>,
                  variation: VariationKey -> Option<nat>) returns (events: seq<RenderEvent>)
      requires Renderable(Parts(), RenderArgs(address, modelToWorld, transforms, animation, variation))
      ensures events == RenderTrace(Parts(), RenderArgs(address, modelToWorld, transforms, animation, variation))
    {
      var a := RenderArgs(address, modelToWorld, transforms, animation, variation);
      var st;
      st, events := RenderUnskinned(Parts(), a);
      events := RenderSkinned(Parts(), a, st.(geoCall := NoIndex), events);
    }

    /** Render's unskinned loop, after the model's transform when the lookup is not good. */
    method RenderUnskinned(ghost p: RendererParts, a: RenderArgs) returns (st: RenderState, events: seq<RenderEvent>)
      requires p == Parts() && Renderable(p, a) && a.address == address
      ensures st.(geoCall := NoIndex) == StateUpTo(p, a, |drawCalls|)
      ensures events == RenderUpTo(p, a, |drawCalls|)
    {
      events := [];
      if !IsGood(a.transforms) {
        events := [UpdateLocalTransform(a.modelToWorld)];
      }
      st := InitialRenderState;
      var drawCallIndex := 0;
      while drawCallIndex < |drawCalls|
        invariant drawCallIndex <= |drawCalls|
        invariant ResetAt(st, p, drawCallIndex) == StateUpTo(p, a, drawCallIndex)
        invariant events == RenderUpTo(p, a, drawCallIndex)
      {
        st, events := RenderUnskinnedNext(p, a, drawCallIndex, st, events);
        drawCallIndex := drawCallIndex + 1;
      }
    }

    /** Render's skinned loop, numbered on from the unskinned draw calls. */
    method RenderSkinned(ghost p: RendererParts, a: RenderArgs, st: RenderState, events: seq<RenderEvent>)
      returns (result: seq<RenderEvent>)
      requires p == Parts() && Renderable(p, a) && a.address == address
      requires st == StateUpTo(p, a, |drawCalls|) && events == RenderUpTo(p, a, |drawCalls|)
      ensures result == RenderUpTo(p, a, DrawCount(p))
    {
      var current := st;
      result := events;
      var drawCallIndex := |drawCalls|;
      var count := |drawCalls| + |skinnedDrawCalls|;
      assert count == DrawCount(p);
      while drawCallIndex < count
        invariant |drawCalls| <= drawCallIndex <= count
        invariant current == StateUpTo(p, a, drawCallIndex)
        invariant result == RenderUpTo(p, a, drawCallIndex)
      {
        current, result := RenderSkinnedNext(p, a, drawCallIndex, current, result);
        drawCallIndex := drawCallIndex + 1;
      }
      assert drawCallIndex == DrawCount(p);
    }

    /** One iteration of Render's unskinned loop: draw call `k` after the first `k`. */
    method RenderUnskinnedNext(ghost p: RendererParts, a: RenderArgs, k: nat, st: RenderState, events: seq<RenderEvent>)
      returns (next: RenderState, result: seq<RenderEvent>)
      requires p == Parts() && Renderable(p, a) && a.address == address && k < |drawCalls|
      requires ResetAt(st, p, k) == StateUpTo(p, a, k) && events == RenderUpTo(p, a, k)
      ensures ResetAt(next, p, k + 1) == StateUpTo(p, a, k + 1) && result == RenderUpTo(p, a, k + 1)
    {
      var e;
      next, e := RenderUnskinnedCall(p, st, a, k);
      result := events + e;
    }

    /** One iteration of Render's skinned loop: draw call `k` after the first `k`. */
    method RenderSkinnedNext(ghost p: RendererParts, a: RenderArgs, k: nat, st: RenderState, events: seq<RenderEvent>)
      returns (next: RenderState, result: seq<RenderEvent>)
      requires p == Parts() && Renderable(p, a) && a.address == address && |drawCalls| <= k < DrawCount(p)
      requires st == StateUpTo(p, a, k) && events == RenderUpTo(p, a, k)
      ensures next == StateUpTo(p, a, k + 1) && result == RenderUpTo(p, a, k + 1)
    {
      var e;
      next, e := RenderSkinnedCall(p, st, a, k);
      result := events + e;
    }

    /** The body of Render's unskinned loop for draw call `k`. */
    method RenderUnskinnedCall(ghost p: RendererParts, st: RenderState, a: RenderArgs, k: nat)
      returns (next: RenderState, events: seq<RenderEvent>)
      requires p == Parts() && Renderable(p, a) && a.address == address && k < |drawCalls|
      ensures (next, events) == Step(st, p, a, k)
    {
      next, events := st, [];
      if drawCalls[k].geoCallIndex != st.geoCall {
        var techniqueInterface;
        techniqueInterface, events := BeginGeoCall(p, a, k);
        next := st.(geoCall := drawCalls[k].geoCallIndex, techniqueInterface := techniqueInterface);
      }
      var e;
      next, e := DrawStoredCall(p, next, a, k);
      events := events + e;
    }

    /** The body of Render's skinned loop for draw call `k`. */
    method RenderSkinnedCall(ghost p: RendererParts, st: RenderState, a: RenderArgs, k: nat)
      returns (next: RenderState, events: seq<RenderEvent>)
      requires p == Parts() && Renderable(p, a) && a.address == address && |drawCalls| <= k < DrawCount(p)
      ensures (next, events) == Step(st, p, a, k)
    {
      next, events := st, [];
      if skinnedDrawCalls[k - |drawCalls|].geoCallIndex != st.geoCall {
        var techniqueInterface;
        techniqueInterface, events := BeginSkinCall(p, a, k);
        next := st.(geoCall := skinnedDrawCalls[k - |drawCalls|].geoCallIndex, techniqueInterface := techniqueInterface);
      }
      var e;
      next, e := DrawStoredCall(p, next, a, k);
      events := events + e;
    }

    /** BeginGeoCall for unskinned draw call `k`: the mesh's placement when the lookup is good,
      * then the streams of the first mesh with the geo call's geometry, whose technique
      * interface it returns. */
    method BeginGeoCall(ghost p: RendererParts, a: RenderArgs, k: nat) returns (techniqueInterface: nat, events: seq<RenderEvent>)
      requires p == Parts() && Renderable(p, a) && a.address == address && k < |drawCalls|
      ensures techniqueInterface == BoundInterface(p, a, k)
      ensures events == GeoCallTransform(p, a, k) + [BindMeshStreams(address, SubMeshAt(p, k))]
    {
      assert drawCalls[k] == DrawCallAt(p, k) && CallKnownAt(p, k);
      var geoCall := CallOf(scaffold, false, drawCalls[k].geoCallIndex);
      events := [];
      if IsGood(a.transforms) {
        assert MarkerKnown(a.transforms, GeoCallAt(p, k).transformMarker);
        events := [UpdateLocalTransform(Combine(GetMeshToModel(a.transforms, geoCall.transformMarker), a.modelToWorld))];
      }
      var m := IndexOf(MeshIds(meshes), geoCall.geoId);
      events := events + [BindMeshStreams(address, Unskinned(m))];
      techniqueInterface := meshes[m].techniqueInterface;
    }

    /** BeginSkinCall for skinned draw call `k`, writing the mesh's placement (see
      * SkinCallTransformAsWritten) when there is no prepared animation and the lookup is good;
      * it returns the skinned technique interface, or the prepared animation's binding. */
    method BeginSkinCall(ghost p: RendererParts, a: RenderArgs, k: nat) returns (techniqueInterface: nat, events: seq<RenderEvent>)
      requires p == Parts() && Renderable(p, a) && a.address == address && |drawCalls| <= k < DrawCount(p)
      ensures techniqueInterface == BoundInterface(p, a, k)
      ensures events == GeoCallTransform(p, a, k) + [BindMeshStreams(address, SubMeshAt(p, k))]
    {
      assert skinnedDrawCalls[k - |drawCalls|] == DrawCallAt(p, k) && CallKnownAt(p, k);
      var geoCall := CallOf(scaffold, true, skinnedDrawCalls[k - |drawCalls|].geoCallIndex);
      events := [];
      if a.animation.None? && IsGood(a.transforms) {
        assert MarkerKnown(a.transforms, GeoCallAt(p, k).transformMarker);
        events := [UpdateLocalTransform(Combine(GetMeshToModel(a.transforms, geoCall.transformMarker), a.modelToWorld))];
      }
      var m := IndexOf(MeshIds(Bases(skinnedMeshes)), geoCall.geoId);
      techniqueInterface := skinnedMeshes[m].skinnedTechniqueInterface;
      if a.animation.Some? {
        techniqueInterface := a.animation.value[m];
      }
      events := events + [BindMeshStreams(address, Skinned(m))];
    }

    /** The rest of draw call `k` in either loop: BeginVariation with the current interface,
      * the uniforms when they or the material's texture set or constant buffer changed, the
      * topology, the stencil reference and draw-call index in the unskinned loop, and the draw. */
    method DrawStoredCall(ghost p: RendererParts, st: RenderState, a: RenderArgs, k: nat)
      returns (next: RenderState, events: seq<RenderEvent>)
      requires p == Parts() && Renderable(p, a) && a.address == address && k < DrawCount(p)
      ensures (next, events) == CallStep(st, p, a, k)
    {
      var res := drawCallRes[k];
      var d := if k < |drawCalls| then drawCalls[k].drawCall else skinnedDrawCalls[k - |drawCalls|].drawCall;
      var key := VariationKey(res.shaderName, st.techniqueInterface, res.geoParamBox, res.matParams);
      var uniforms := a.variation(key);
      var applied := [];
      next := st;
      if uniforms != st.uniforms || res.textureSet != st.textureSet || res.constantBuffer != st.constantBuffer {
        if uniforms.Some? {
          applied := [ApplyBoundUniforms(address, res.textureSet, res.constantBuffer)];
        }
        next := st.(uniforms := uniforms, textureSet := res.textureSet, constantBuffer := res.constantBuffer);
      }
      var stencil := [];
      if k < |drawCalls| {
        stencil := [BindStencilRef(1 + k), SetDrawCallIndex(k)];
      }
      events := [BeginRenderState(res.renderStateSet), BeginVariation(key)] + applied + [BindTopology(d.topology)] + stencil
        + [DrawIndexed(d.indexCount, d.firstIndex, d.firstVertex)];
    }

    /** DrawCallToMaterialBinding: the material guid of every stored draw call, unskinned ones
      * first. */
    method DrawCallToMaterialBinding() returns (result: seq<MaterialGuid>)
      ensures result == MaterialBindings(drawCallRes)
    {
      result := [];
      var i := 0;
      while i < |drawCallRes|
        invariant i <= |drawCallRes| && result == MaterialBindings(drawCallRes[..i])
      {
        result := result + [drawCallRes[i].materialBindingGuid];
        i := i + 1;
      }
      assert drawCallRes[..i] == drawCallRes;
    }

    /** GetMaterialBindingForDrawCall: the guid DrawCallToMaterialBinding lists at that index, or
      * `~0ull` past its end. */
    method GetMaterialBindingForDrawCall(drawCallIndex: nat) returns (g: MaterialGuid)
      ensures drawCallIndex < |MaterialBindings(drawCallRes)| ==> g == MaterialBindings(drawCallRes)[drawCallIndex]
      ensures drawCallIndex >= |MaterialBindings(drawCallRes)| ==> g == NoBinding
    {
      if drawCallIndex < |drawCallRes| {
        return drawCallRes[drawCallIndex].materialBindingGuid;
      }
      return NoBinding;
    }

    /** GetState: the bound textures' states as each texture reports it. */
    method GetState(state: TextureId -> AssetState) returns (r: AssetState)
      ensures r == CombinedState(boundTextures, state)
    {
      r := FoldTextureStates(boundTextures, state);
    }

    /** TryResolve: the same fold over the textures' own TryResolve answers. */
    method TryResolve(tryResolve: TextureId -> AssetState) returns (r: AssetState)
      ensures r == CombinedState(boundTextures, tryResolve)
    {
      r := FoldTextureStates(boundTextures, tryResolve);
    }
  }

  // ---------------------------------------------------------------------------
  // Texture states

  predicate SomeTextureIs(textures: seq<Option<TextureId>>, state: TextureId -> AssetState, st: AssetState)
  {
    exists i :: 0 <= i < |textures| && textures[i].Some? && state(textures[i].value) == st
  }

  /** The state of a set of textures: Invalid when one is invalid, otherwise Pending when one is
    * pending, otherwise Ready. Empty slots count for nothing. */
  function CombinedState(textures: seq<Option<TextureId>>, state: TextureId -> AssetState): AssetState
  {
    if SomeTextureIs(textures, state, Invalid) then Invalid
    else if SomeTextureIs(textures, state, Pending) then Pending
    else Ready
  }

  /** The worse of two states: Invalid over Pending over Ready. */
  function Worse(a: AssetState, b: AssetState): AssetState
  {
    if a == Invalid || b == Invalid then Invalid
    else if a == Pending || b == Pending then Pending
    else Ready
  }

  /** The combined state of two runs of slots is the worse of their states, so the fold is
    * the same whichever way the table is split. */
  lemma CombinedStateAppend(a: seq<Option<TextureId>>, b: seq<Option<TextureId>>, state: TextureId -> AssetState)
    ensures CombinedState(a + b, state) == Worse(CombinedState(a, state), CombinedState(b, state))
  {
    forall st | st == Invalid || st == Pending
      ensures SomeTextureIs(a + b, state, st) <==> SomeTextureIs(a, state, st) || SomeTextureIs(b, state, st)
    {
      if SomeTextureIs(a + b, state, st) {
        var i :| 0 <= i < |a + b| && (a + b)[i].Some? && state((a + b)[i].value) == st;
        if i >= |a| {
          assert b[i - |a|] == (a + b)[i];
        }
      }
      if SomeTextureIs(b, state, st) {
        var i :| 0 <= i < |b| && b[i].Some? && state(b[i].value) == st;
        assert (a + b)[|a| + i] == b[i];
      }
      if SomeTextureIs(a, state, st) {
        var i :| 0 <= i < |a| && a[i].Some? && state(a[i].value) == st;
        assert (a + b)[i] == a[i];
      }
    }
  }

  /** The loop of GetState and TryResolve: an invalid texture ends it; a pending one is
    * remembered; empty slots are skipped. */
  method FoldTextureStates(textures: seq<Option<TextureId>>, state: TextureId -> AssetState) returns (r: AssetState)
    ensures r == CombinedState(textures, state)
  {
    var gotPending := false;
    var i := 0;
    while i < |textures|
      invariant i <= |textures|
      invariant !SomeTextureIs(textures[..i], state, Invalid)
      invariant gotPending <==> SomeTextureIs(textures[..i], state, Pending)
    {
      SlotStates(textures, state, i);
      if textures[i].Some? {
        var tState := state(textures[i].value);
        if tState == Invalid {
          assert textures[i].Some? && state(textures[i].value) == Invalid;
          return Invalid;
        }
        gotPending := gotPending || tState == Pending;
      }
      i := i + 1;
    }
    assert textures[..i] == textures;
    r := if gotPending then Pending else Ready;
  }

  /** A state is seen in the first `i + 1` slots when it is seen in the first `i` or in slot `i`. */
  lemma SlotStates(textures: seq<Option<TextureId>>, state: TextureId -> AssetState, i: nat)
    requires i < |textures|
    ensures forall st :: SomeTextureIs(textures[..i + 1], state, st) <==>
      SomeTextureIs(textures[..i], state, st) || (textures[i].Some? && state(textures[i].value) == st)
  {
    forall st
      ensures SomeTextureIs(textures[..i + 1], state, st) <==>
        SomeTextureIs(textures[..i], state, st) || (textures[i].Some? && state(textures[i].value) == st)
    {
      if SomeTextureIs(textures[..i + 1], state, st) {
        var k :| 0 <= k < i + 1 && textures[..i + 1][k].Some? && state(textures[..i + 1][k].value) == st;
        if k < i {
          assert textures[..i][k] == textures[k];
        }
      }
      if SomeTextureIs(textures[..i], state, st) {
        var k :| 0 <= k < i && textures[..i][k].Some? && state(textures[..i][k].value) == st;
        assert textures[..i + 1][k] == textures[k];
      }
      if textures[i].Some? && state(textures[i].value) == st {
        assert textures[..i + 1][i] == textures[i];
      }
    }
  }
}
