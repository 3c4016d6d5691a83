/**
 * ModelRenderer::Prepare (RenderCore/Assets/ModelRunTime.cpp): after culling, each stored draw
 * call of a renderer becomes one delayed entry, filed under its delay step, with the hash of
 * its shader variation and a transform pushed for it.
 *
 * The functions below say which entries and transforms Prepare files for a renderer; the
 * lemmas say what those entries mean to the renderer that draws them later.
 */
module ModelPreparation {
  import opened Wrappers
  import opened ModelData
  import opened SharedStates
  import opened ModelConstruction
  import opened GeoBuffers
  import opened ModelRenderers
  import opened MeshToModels
  import opened DrawCallScheduling
  import opened Sequences

  /** The parts of a model renderer that Prepare and the renderers read. */
  datatype RendererParts = RendererParts(
    scaffold: ModelScaffoldData,
    meshes: seq<Mesh>,
    skinnedMeshes: seq<SkinnedMesh>,
    drawCalls: seq<MeshAndDrawCall>,
    skinnedDrawCalls: seq<MeshAndDrawCall>,
    drawCallRes: seq<DrawCallResources>)

  /** The number of stored draw calls, unskinned and skinned. */
  function DrawCount(p: RendererParts): nat
  {
    |p.drawCalls| + |p.skinnedDrawCalls|
  }

  /** Draw call `k` in the renderer's numbering: the unskinned ones first. */
  function DrawCallAt(p: RendererParts, k: nat): MeshAndDrawCall
    requires k < DrawCount(p)
  {
    if k < |p.drawCalls| then p.drawCalls[k] else p.skinnedDrawCalls[k - |p.drawCalls|]
  }

  /** The geometry ids of the unskinned or of the skinned meshes, in list order. */
  function ListIds(p: RendererParts, skinned: bool): seq<nat>
  {
    if skinned then MeshIds(Bases(p.skinnedMeshes)) else MeshIds(p.meshes)
  }

  /** Draw call `k` has resources, its geo call exists, and some mesh of its list draws the
    * call's geometry. */
  predicate CallKnownAt(p: RendererParts, k: nat)
  {
    && k < DrawCount(p) && k < |p.drawCallRes|
    && var skinned := k >= |p.drawCalls|;
    && DrawCallAt(p, k).geoCallIndex < CallsOf(p.scaffold, skinned)
    && CallOf(p.scaffold, skinned, DrawCallAt(p, k).geoCallIndex).geoId in ListIds(p, skinned)
  }

  /** What Prepare relies on: one resource record per draw call, and a mesh for the geometry of
    * each draw call's geo call, as the source asserts after its search. */
  predicate Preparable(p: RendererParts)
  {
    && |p.drawCallRes| == DrawCount(p)
    && forall k :: 0 <= k < DrawCount(p) ==> CallKnownAt(p, k)
  }

  /** The geo call of draw call `k`. */
  function GeoCallAt(p: RendererParts, k: nat): GeoCall
    requires CallKnownAt(p, k)
  {
    CallOf(p.scaffold, k >= |p.drawCalls|, DrawCallAt(p, k).geoCallIndex)
  }

  /** The mesh draw call `k` draws: the first mesh of its list with the geo call's geometry. */
  function SubMeshAt(p: RendererParts, k: nat): (m: SubMesh)
    requires CallKnownAt(p, k)
    ensures m.Skinned? <==> k >= |p.drawCalls|
    ensures m.index < |ListIds(p, m.Skinned?)|
  {
    var skinned := k >= |p.drawCalls|;
    var i := IndexOf(ListIds(p, skinned), GeoCallAt(p, k).geoId);
    if skinned then Skinned(i) else Unskinned(i)
  }

  /** The transform marker of every draw call's geo call is one the mesh-to-model lookup knows. */
  predicate MarkersKnown(p: RendererParts, transforms: MeshToModel)
  {
    Preparable(p) && forall k :: 0 <= k < DrawCount(p) ==> MarkerKnown(transforms, GeoCallAt(p, k).transformMarker)
  }

  /** The transform pushed for draw call `k` when the mesh-to-model lookup is good. */
  function MeshTransform(p: RendererParts, transforms: MeshToModel, modelToWorld: Matrix, k: nat): Matrix
    requires MarkersKnown(p, transforms) && k < DrawCount(p)
  {
    Combine(GetMeshToModel(transforms, GeoCallAt(p, k).transformMarker), modelToWorld)
  }

  /** The entry Prepare files for draw call `k`, whose transform is at `meshToWorld`: the hash
    * uses the mesh's technique interface for an unskinned call and the skinned technique
    * interface for a skinned one, and the topology of a skinned call carries the 0x100 tag. */
  function EntryAt(p: RendererParts, k: nat, address: nat, meshToWorld: nat): (r: DelayedDrawCall)
    requires CallKnownAt(p, k)
    ensures r.drawCallIndex == k && (r.subMesh.Skinned? <==> k >= |p.drawCalls|)
  {
    var sub := SubMeshAt(p, k);
    var d := DrawCallAt(p, k).drawCall;
    var res := p.drawCallRes[k];
    var ti := if sub.Skinned? then p.skinnedMeshes[sub.index].skinnedTechniqueInterface
              else p.meshes[sub.index].techniqueInterface;
    DelayedDrawCall(
      k, address, meshToWorld,
      VariationHash(ti, res.geoParamBox, res.matParams, res.shaderName),
      d.indexCount, d.firstIndex, d.firstVertex,
      if sub.Skinned? then TagSkinned(d.topology) else d.topology,
      sub)
  }

  /** Where entry `k` finds its transform, when the set held `base` transforms before: its own
    * transform when the lookup is good, otherwise the one model-to-world transform. */
  function EntryTransformIndex(transforms: MeshToModel, base: nat, k: nat): nat
  {
    if IsGood(transforms) then base + k else base
  }

  /** The entries Prepare files for the first `n` draw calls, in draw-call order. */
  function EntriesUpTo(p: RendererParts, address: nat, transforms: MeshToModel, base: nat, n: nat): (r: seq<DelayedDrawCall>)
    requires Preparable(p) && n <= DrawCount(p)
    ensures |r| == n
  {
    if n == 0 then []
    else EntriesUpTo(p, address, transforms, base, n - 1) + [EntryAt(p, n - 1, address, EntryTransformIndex(transforms, base, n - 1))]
  }

  /** All the entries Prepare files. */
  function PreparedEntries(p: RendererParts, address: nat, transforms: MeshToModel, base: nat): (r: seq<DelayedDrawCall>)
    requires Preparable(p)
    ensures |r| == DrawCount(p)
    ensures forall k :: 0 <= k < DrawCount(p) ==> r[k] == EntryAt(p, k, address, EntryTransformIndex(transforms, base, k))
  {
    EntriesUpToAt(p, address, transforms, base, DrawCount(p));
    EntriesUpTo(p, address, transforms, base, DrawCount(p))
  }

  /** Entry `k` of the first `n` is the one Prepare files for draw call `k`. */
  lemma {:induction false} EntriesUpToAt(p: RendererParts, address: nat, transforms: MeshToModel, base: nat, n: nat)
    requires Preparable(p) && n <= DrawCount(p)
    ensures forall k :: 0 <= k < n ==>
      EntriesUpTo(p, address, transforms, base, n)[k] == EntryAt(p, k, address, EntryTransformIndex(transforms, base, k))
  {
    if n > 0 {
      EntriesUpToAt(p, address, transforms, base, n - 1);
      var init := EntriesUpTo(p, address, transforms, base, n - 1);
      var last := EntryAt(p, n - 1, address, EntryTransformIndex(transforms, base, n - 1));
      assert EntriesUpTo(p, address, transforms, base, n) == init + [last];
      forall k | 0 <= k < n
        ensures (init + [last])[k] == EntryAt(p, k, address, EntryTransformIndex(transforms, base, k))
      {
        if k < n - 1 {
          assert (init + [last])[k] == init[k];
        }
      }
    }
  }

  /** The transforms pushed for the first `n` draw calls when the lookup is good. */
  function MeshTransformsUpTo(p: RendererParts, transforms: MeshToModel, modelToWorld: Matrix, n: nat): (r: seq<Matrix>)
    requires MarkersKnown(p, transforms) && n <= DrawCount(p)
    ensures |r| == n
  {
    if n == 0 then []
    else MeshTransformsUpTo(p, transforms, modelToWorld, n - 1) + [MeshTransform(p, transforms, modelToWorld, n - 1)]
  }

  /** Transform `k` of the first `n` is the one pushed for draw call `k`. */
  lemma {:induction false} MeshTransformsUpToAt(p: RendererParts, transforms: MeshToModel, modelToWorld: Matrix, n: nat)
    requires MarkersKnown(p, transforms) && n <= DrawCount(p)
    ensures forall k :: 0 <= k < n ==>
      MeshTransformsUpTo(p, transforms, modelToWorld, n)[k] == MeshTransform(p, transforms, modelToWorld, k)
  {
    if n > 0 {
      MeshTransformsUpToAt(p, transforms, modelToWorld, n - 1);
      var init := MeshTransformsUpTo(p, transforms, modelToWorld, n - 1);
      var last := MeshTransform(p, transforms, modelToWorld, n - 1);
      assert MeshTransformsUpTo(p, transforms, modelToWorld, n) == init + [last];
      forall k | 0 <= k < n
        ensures (init + [last])[k] == MeshTransform(p, transforms, modelToWorld, k)
      {
        if k < n - 1 {
          assert (init + [last])[k] == init[k];
        }
      }
    }
  }

  /** The transforms Prepare appends: one per draw call when the lookup is good, otherwise the
    * model-to-world transform alone. */
  function PreparedTransforms(p: RendererParts, transforms: MeshToModel, modelToWorld: Matrix): (r: seq<Matrix>)
    requires IsGood(transforms) ==> MarkersKnown(p, transforms)
    ensures IsGood(transforms) ==> r == MeshTransformsUpTo(p, transforms, modelToWorld, DrawCount(p))
    ensures !IsGood(transforms) ==> r == [modelToWorld]
  {
    if IsGood(transforms) then MeshTransformsUpTo(p, transforms, modelToWorld, DrawCount(p)) else [modelToWorld]
  }

  /** `[e]` when the draw call of entry `e` is rendered in delay step `step`, otherwise nothing. */
  function Filed(step: DelayStep, res: seq<DrawCallResources>, e: DelayedDrawCall): seq<DelayedDrawCall>
  {
    if e.drawCallIndex < |res| && res[e.drawCallIndex].delayStep == step then [e] else []
  }

  /** The entries among `entries` whose draw call is rendered in delay step `step`, in order. */
  function OfStep(step: DelayStep, res: seq<DrawCallResources>, entries: seq<DelayedDrawCall>): seq<DelayedDrawCall>
  {
    if |entries| == 0 then []
    else OfStep(step, res, entries[..|entries| - 1]) + Filed(step, res, entries[|entries| - 1])
  }

  /** What the renderer named by an entry gives RenderPreparedInternal. */
  function AsPrepared(p: RendererParts): (r: PreparedRenderer)
    ensures r.drawCallRes == p.drawCallRes
    ensures |r.meshInterfaces| == |p.meshes| && |r.skinnedInterfaces| == |p.skinnedMeshes|
    ensures forall i :: 0 <= i < |p.meshes| ==> r.meshInterfaces[i] == p.meshes[i].techniqueInterface
    ensures forall i :: 0 <= i < |p.skinnedMeshes| ==>
      r.skinnedInterfaces[i] == (p.skinnedMeshes[i].base.techniqueInterface, p.skinnedMeshes[i].skinnedTechniqueInterface)
  {
    PreparedRenderer(
      p.drawCallRes,
      seq(|p.meshes|, i requires 0 <= i < |p.meshes| => p.meshes[i].techniqueInterface),
      seq(|p.skinnedMeshes|, i requires 0 <= i < |p.skinnedMeshes|
        => (p.skinnedMeshes[i].base.techniqueInterface, p.skinnedMeshes[i].skinnedTechniqueInterface)))
  }

  /** The transforms and the two steps' entries once the first `n` draw calls are filed, given
    * those before the first. */
  ghost predicate FiledUpTo(p: RendererParts, address: nat, transforms: MeshToModel, modelToWorld: Matrix, base: nat, n: nat,
                            transformsBefore: seq<Matrix>, opaqueBefore: seq<DelayedDrawCall>, postDeferredBefore: seq<DelayedDrawCall>,
                            transformsNow: seq<Matrix>, opaqueNow: seq<DelayedDrawCall>, postDeferredNow: seq<DelayedDrawCall>)
  {
    && Preparable(p) && n <= DrawCount(p)
    && (IsGood(transforms) ==>
          MarkersKnown(p, transforms) && |transformsBefore| == base &&
          transformsNow == transformsBefore + MeshTransformsUpTo(p, transforms, modelToWorld, n))
    && (!IsGood(transforms) ==> transformsNow == transformsBefore)
    && opaqueNow == opaqueBefore + OfStep(OpaqueRender, p.drawCallRes, EntriesUpTo(p, address, transforms, base, n))
    && postDeferredNow == postDeferredBefore + OfStep(PostDeferred, p.drawCallRes, EntriesUpTo(p, address, transforms, base, n))
  }

  // ---------------------------------------------------------------------------
  // Properties

  /** An entry is filed under a step exactly when it is one of the entries and its draw call is
    * rendered in that step. */
  lemma {:induction false} OfStepMeaning(step: DelayStep, res: seq<DrawCallResources>, entries: seq<DelayedDrawCall>, e: DelayedDrawCall)
    ensures e in OfStep(step, res, entries) <==>
      e in entries && e.drawCallIndex < |res| && res[e.drawCallIndex].delayStep == step
  {
    if |entries| > 0 {
      var init := entries[..|entries| - 1];
      OfStepMeaning(step, res, init, e);
      assert entries == init + [entries[|entries| - 1]];
    }
  }

  /** Every entry whose draw call exists lands in exactly one of the two steps. */
  lemma {:induction false} OfStepPartition(res: seq<DrawCallResources>, entries: seq<DelayedDrawCall>)
    requires forall e :: e in entries ==> e.drawCallIndex < |res|
    ensures |OfStep(OpaqueRender, res, entries)| + |OfStep(PostDeferred, res, entries)| == |entries|
  {
    if |entries| > 0 {
      var init := entries[..|entries| - 1];
      assert forall e :: e in init ==> e in entries;
      assert entries[|entries| - 1] in entries;
      OfStepPartition(res, init);
    }
  }

  /** Filing one more entry adds it to its own step's list only. */
  lemma OfStepAppend(step: DelayStep, res: seq<DrawCallResources>, entries: seq<DelayedDrawCall>, e: DelayedDrawCall)
    ensures OfStep(step, res, entries + [e]) == OfStep(step, res, entries) + Filed(step, res, e)
  {
    assert (entries + [e])[..|entries|] == entries;
  }

  /** What the entry for draw call `k` says about it, wherever its transform is: it names the
    * draw call and this renderer; its sub-mesh is the first mesh of the right list with the geo
    * call's geometry; its hash is that of the interface the drawing renderer binds for the
    * sub-mesh; its topology gives the draw call's back and tells a skinned entry apart. */
  lemma EntryAtMeaning(p: RendererParts, k: nat, address: nat, meshToWorld: nat)
    requires CallKnownAt(p, k)
    ensures var e := EntryAt(p, k, address, meshToWorld);
      var ids := ListIds(p, e.subMesh.Skinned?);
      var res := p.drawCallRes[k];
      var d := DrawCallAt(p, k).drawCall;
      && e.drawCallIndex == k && e.renderer == address && e.meshToWorld == meshToWorld
      && (e.subMesh.Skinned? <==> k >= |p.drawCalls|)
      && e.subMesh.index < |ids| && ids[e.subMesh.index] == GeoCallAt(p, k).geoId
      && (forall j :: 0 <= j < e.subMesh.index ==> ids[j] != GeoCallAt(p, k).geoId)
      && e.shaderVariationHash == VariationHash(SubMeshInterface(AsPrepared(p), e.subMesh), res.geoParamBox, res.matParams, res.shaderName)
      && (d.topology < 0x100 ==> Low8(e.topology) == d.topology && (e.topology > 0xff <==> e.subMesh.Skinned?))
      && (e.indexCount, e.firstIndex, e.firstVertex) == (d.indexCount, d.firstIndex, d.firstVertex)
  {
    IndexOfIsFirst(ListIds(p, k >= |p.drawCalls|), GeoCallAt(p, k).geoId);
    var d := DrawCallAt(p, k).drawCall;
    if d.topology < 0x100 {
      TopologyTagRoundTrip(d.topology);
    }
  }

  /** The transform entry `k` points at, among the transforms the set holds after Prepare: the
    * mesh's placement in the world, or the model's when the lookup is not good. */
  lemma EntryTransformMeaning(p: RendererParts, transforms: MeshToModel, modelToWorld: Matrix, before: seq<Matrix>, k: nat)
    requires Preparable(p) && k < DrawCount(p)
    requires IsGood(transforms) ==> MarkersKnown(p, transforms)
    ensures var all := before + PreparedTransforms(p, transforms, modelToWorld);
      var i := EntryTransformIndex(transforms, |before|, k);
      && i < |all|
      && all[i] == (if IsGood(transforms) then MeshTransform(p, transforms, modelToWorld, k) else modelToWorld)
  {
    if IsGood(transforms) {
      MeshTransformsUpToAt(p, transforms, modelToWorld, DrawCount(p));
    }
  }

  /** What entry `k` of those Prepare files means: the two lemmas above, for the transform
    * index Prepare gives it. */
  lemma PreparedEntryMeaning(p: RendererParts, address: nat, transforms: MeshToModel, modelToWorld: Matrix,
                             before: seq<Matrix>, k: nat)
    requires Preparable(p) && k < DrawCount(p)
    requires IsGood(transforms) ==> MarkersKnown(p, transforms)
    ensures var e := PreparedEntries(p, address, transforms, |before|)[k];
      var all := before + PreparedTransforms(p, transforms, modelToWorld);
      && e == EntryAt(p, k, address, EntryTransformIndex(transforms, |before|, k))
      && e.meshToWorld < |all|
      && all[e.meshToWorld] == (if IsGood(transforms) then MeshTransform(p, transforms, modelToWorld, k) else modelToWorld)
  {
    EntryTransformMeaning(p, transforms, modelToWorld, before, k);
  }

  /** Every entry Prepare files can be drawn by RenderPreparedInternal, given this renderer
    * under its address and the transforms the set then holds. */
  lemma PreparedEntriesResolvable(p: RendererParts, address: nat, transforms: MeshToModel, modelToWorld: Matrix,
                                  before: seq<Matrix>, renderers: map<nat, PreparedRenderer>)
    requires Preparable(p)
    requires IsGood(transforms) ==> MarkersKnown(p, transforms)
    requires address in renderers && renderers[address] == AsPrepared(p)
    ensures forall e :: e in PreparedEntries(p, address, transforms, |before|) ==>
      Resolvable(e, renderers, |before + PreparedTransforms(p, transforms, modelToWorld)|)
  {
    var entries := PreparedEntries(p, address, transforms, |before|);
    forall e | e in entries
      ensures Resolvable(e, renderers, |before + PreparedTransforms(p, transforms, modelToWorld)|)
    {
      var k :| 0 <= k < |entries| && entries[k] == e;
      PreparedEntryMeaning(p, address, transforms, modelToWorld, before, k);
      EntryAtMeaning(p, k, address, e.meshToWorld);
    }
  }

  /** A renderer whose stored draw calls agree with their resources, as construction leaves
    * it, can be prepared. */
  lemma EmittedPreparable(p: RendererParts, mats: MaterialResources)
    requires |p.drawCallRes| == DrawCount(p)
    requires Emitted(p.scaffold, mats, false, p.meshes, p.drawCalls, p.drawCallRes[..|p.drawCalls|])
    requires Emitted(p.scaffold, mats, true, Bases(p.skinnedMeshes), p.skinnedDrawCalls, p.drawCallRes[|p.drawCalls|..])
    ensures Preparable(p)
  {
    forall k | 0 <= k < DrawCount(p)
      ensures CallKnownAt(p, k)
    {
      if k < |p.drawCalls| {
        assert ResourcesMatch(p.scaffold, mats, false, p.meshes, p.drawCalls[k], p.drawCallRes[..|p.drawCalls|][k]);
      } else {
        var j := k - |p.drawCalls|;
        assert ResourcesMatch(p.scaffold, mats, true, Bases(p.skinnedMeshes), p.skinnedDrawCalls[j], p.drawCallRes[|p.drawCalls|..][j]);
      }
    }
  }

  /** Before any draw call is filed, the transforms and the lists are as they were. */
  lemma FiledStart(p: RendererParts, address: nat, transforms: MeshToModel, modelToWorld: Matrix, base: nat,
                   transformsBefore: seq<Matrix>, opaqueBefore: seq<DelayedDrawCall>, postDeferredBefore: seq<DelayedDrawCall>)
    requires Preparable(p)
    requires IsGood(transforms) ==> MarkersKnown(p, transforms) && |transformsBefore| == base
    ensures FiledUpTo(p, address, transforms, modelToWorld, base, 0, transformsBefore, opaqueBefore, postDeferredBefore,
                      transformsBefore, opaqueBefore, postDeferredBefore)
  {
    assert EntriesUpTo(p, address, transforms, base, 0) == [];
    assert opaqueBefore + [] == opaqueBefore && postDeferredBefore + [] == postDeferredBefore;
    if IsGood(transforms) {
      assert transformsBefore + MeshTransformsUpTo(p, transforms, modelToWorld, 0) == transformsBefore;
    }
  }

  /** Filing draw call `n` after the first `n`: its transform when the lookup is good, and its
    * entry under its own step, gives the state after the first `n + 1`. */
  lemma FiledNext(p: RendererParts, address: nat, transforms: MeshToModel, modelToWorld: Matrix, base: nat, n: nat,
                  transformsBefore: seq<Matrix>, opaqueBefore: seq<DelayedDrawCall>, postDeferredBefore: seq<DelayedDrawCall>,
                  transformsNow: seq<Matrix>, opaqueNow: seq<DelayedDrawCall>, postDeferredNow: seq<DelayedDrawCall>,
                  transformsNext: seq<Matrix>, opaqueNext: seq<DelayedDrawCall>, postDeferredNext: seq<DelayedDrawCall>)
    requires FiledUpTo(p, address, transforms, modelToWorld, base, n, transformsBefore, opaqueBefore, postDeferredBefore,
                       transformsNow, opaqueNow, postDeferredNow)
    requires n < DrawCount(p)
    requires transformsNext == transformsNow + (if IsGood(transforms) then [MeshTransform(p, transforms, modelToWorld, n)] else [])
    requires opaqueNext == opaqueNow + Filed(OpaqueRender, p.drawCallRes, EntryAt(p, n, address, EntryTransformIndex(transforms, base, n)))
    requires postDeferredNext == postDeferredNow + Filed(PostDeferred, p.drawCallRes, EntryAt(p, n, address, EntryTransformIndex(transforms, base, n)))
    ensures FiledUpTo(p, address, transforms, modelToWorld, base, n + 1, transformsBefore, opaqueBefore, postDeferredBefore,
                      transformsNext, opaqueNext, postDeferredNext)
  {
    var entries := EntriesUpTo(p, address, transforms, base, n);
    var e := EntryAt(p, n, address, EntryTransformIndex(transforms, base, n));
    assert EntriesUpTo(p, address, transforms, base, n + 1) == entries + [e];
    FiledStepNext(OpaqueRender, p.drawCallRes, entries, e, opaqueBefore, opaqueNow, opaqueNext);
    FiledStepNext(PostDeferred, p.drawCallRes, entries, e, postDeferredBefore, postDeferredNow, postDeferredNext);
    if IsGood(transforms) {
      var ts := MeshTransformsUpTo(p, transforms, modelToWorld, n);
      var t := MeshTransform(p, transforms, modelToWorld, n);
      assert MeshTransformsUpTo(p, transforms, modelToWorld, n + 1) == ts + [t];
      AppendAssociative(transformsBefore, ts, [t]);
    }
  }

  /** Once every draw call is filed, the transforms and the lists are those of Prepare. */
  lemma FiledAll(p: RendererParts, address: nat, transforms: MeshToModel, modelToWorld: Matrix, base: nat, n: nat,
                 transformsBefore: seq<Matrix>, opaqueBefore: seq<DelayedDrawCall>, postDeferredBefore: seq<DelayedDrawCall>,
                 transformsNow: seq<Matrix>, opaqueNow: seq<DelayedDrawCall>, postDeferredNow: seq<DelayedDrawCall>)
    requires n >= DrawCount(p)
    requires FiledUpTo(p, address, transforms, modelToWorld, base, n, transformsBefore, opaqueBefore, postDeferredBefore,
                       transformsNow, opaqueNow, postDeferredNow)
    ensures transformsNow == transformsBefore + (if IsGood(transforms) then PreparedTransforms(p, transforms, modelToWorld) else [])
    ensures opaqueNow == opaqueBefore + OfStep(OpaqueRender, p.drawCallRes, PreparedEntries(p, address, transforms, base))
    ensures postDeferredNow == postDeferredBefore + OfStep(PostDeferred, p.drawCallRes, PreparedEntries(p, address, transforms, base))
  {
  }

  /** One step's list after one more entry is filed. */
  lemma FiledStepNext(step: DelayStep, res: seq<DrawCallResources>, entries: seq<DelayedDrawCall>, e: DelayedDrawCall,
                      before: seq<DelayedDrawCall>, now: seq<DelayedDrawCall>, next: seq<DelayedDrawCall>)
    requires now == before + OfStep(step, res, entries)
    requires next == now + Filed(step, res, e)
    ensures next == before + OfStep(step, res, entries + [e])
  {
    OfStepAppend(step, res, entries, e);
    AppendAssociative(before, OfStep(step, res, entries), Filed(step, res, e));
  }
}
