/**
 * ModelRenderer::Render (RenderCore/Assets/ModelRunTime.cpp): the immediate path, which draws
 * every stored draw call in the renderer's own order, unskinned then skinned. Streams are bound
 * when the geo call changes from one draw call to the next, a shader variation is looked up
 * for every draw call, and the bound uniforms are applied when they, the texture set or the
 * constant buffer change.
 *
 * The functions below give the events of one call and of the whole pass; the renderer's Render
 * method is proved to produce them, and the lemmas say what that pass draws and binds.
 */
module ImmediateRendering {
  import opened Wrappers
  import opened GeoBuffers
  import opened ModelRenderers
  import opened MeshToModels
  import opened DrawCallScheduling
  import opened ModelPreparation
  import opened Sequences

  /** What Render tracks between draw calls: the current geo call, the technique interface its
    * mesh binds, the current uniforms, and the texture set and constant buffer last seen. */
  datatype RenderState = RenderState(
    geoCall: nat,
    techniqueInterface: nat,
    uniforms: Option<nat>,
    textureSet: nat,
    constantBuffer: nat)

  const InitialRenderState: RenderState := RenderState(NoIndex, NoIndex, None, NoIndex, NoIndex)

  /** What a call to Render is given: the renderer's address, the model's placement, the
    * mesh-to-model lookup, the technique interfaces of a prepared animation's skinned bindings
    * (one per skinned mesh) when there is one, and the shared state set's variation lookup. */
  datatype RenderArgs = RenderArgs(
    address: nat,
    modelToWorld: Matrix,
    transforms: MeshToModel,
    animation: Option<seq<nat>>,
    variation: VariationKey -> Option<nat>)

  /** What Render relies on: a preparable renderer, markers the lookup knows when it is good,
    * and a binding per skinned mesh in a prepared animation. */
  predicate Renderable(p: RendererParts, a: RenderArgs)
  {
    && Preparable(p)
    && (IsGood(a.transforms) ==> MarkersKnown(p, a.transforms))
    && (a.animation.Some? ==> |a.animation.value| == |p.skinnedMeshes|)
  }

  /** The technique interface the streams of draw call `k` are bound for: the mesh's own for an
    * unskinned call; for a skinned one the skinned interface, or the prepared animation's
    * binding when there is one. */
  function BoundInterface(p: RendererParts, a: RenderArgs, k: nat): nat
    requires Renderable(p, a) && k < DrawCount(p)
  {
    var sub := SubMeshAt(p, k);
    if sub.Unskinned? then p.meshes[sub.index].techniqueInterface
    else if a.animation.Some? then a.animation.value[sub.index]
    else p.skinnedMeshes[sub.index].skinnedTechniqueInterface
  }

  /** The local transform written when draw call `k` begins its geo call: the mesh's placement
    * when the lookup is good, except for a skinned call with a prepared animation, whose
    * vertices already hold it. */
  function GeoCallTransform(p: RendererParts, a: RenderArgs, k: nat): (r: seq<RenderEvent>)
    requires Renderable(p, a) && k < DrawCount(p)
    ensures |r| <= 1
    ensures k >= |p.drawCalls| && a.animation.Some? ==> r == []
  {
    if IsGood(a.transforms) && (k < |p.drawCalls| || a.animation.None?)
    then [UpdateLocalTransform(MeshTransform(p, a.transforms, a.modelToWorld, k))]
    else []
  }

  /** As written, BeginSkinCall computes the mesh's placement but writes the model's. */
  function SkinCallTransformAsWritten(p: RendererParts, a: RenderArgs, k: nat): seq<RenderEvent>
    requires Renderable(p, a) && |p.drawCalls| <= k < DrawCount(p)
  {
    if IsGood(a.transforms) && a.animation.None? then [UpdateLocalTransform(a.modelToWorld)] else []
  }

  /** BeginGeoCall or BeginSkinCall for draw call `k`, when its geo call is not the current one:
    * the transform, then the mesh's streams. */
  function GeoStep(st: RenderState, p: RendererParts, a: RenderArgs, k: nat): (RenderState, seq<RenderEvent>)
    requires Renderable(p, a) && k < DrawCount(p)
  {
    var geoCall := DrawCallAt(p, k).geoCallIndex;
    if geoCall == st.geoCall then (st, [])
    else (st.(geoCall := geoCall, techniqueInterface := BoundInterface(p, a, k)),
          GeoCallTransform(p, a, k) + [BindMeshStreams(a.address, SubMeshAt(p, k))])
  }

  /** The rest of one draw call: render state and variation; the uniforms, applied when there
    * are some, whenever they, the texture set or the constant buffer changed; the topology; the
    * stencil reference and draw-call index for an unskinned call; and the draw. */
  function CallStep(st: RenderState, p: RendererParts, a: RenderArgs, k: nat): (RenderState, seq<RenderEvent>)
    requires Renderable(p, a) && k < DrawCount(p)
  {
    var res := p.drawCallRes[k];
    var d := DrawCallAt(p, k).drawCall;
    var key := VariationKey(res.shaderName, st.techniqueInterface, res.geoParamBox, res.matParams);
    var uniforms := a.variation(key);
    var change := uniforms != st.uniforms || res.textureSet != st.textureSet || res.constantBuffer != st.constantBuffer;
    (if change then st.(uniforms := uniforms, textureSet := res.textureSet, constantBuffer := res.constantBuffer) else st,
     [BeginRenderState(res.renderStateSet), BeginVariation(key)]
     + (if change && uniforms.Some? then [ApplyBoundUniforms(a.address, res.textureSet, res.constantBuffer)] else [])
     + [BindTopology(d.topology)]
     + (if k < |p.drawCalls| then [BindStencilRef(1 + k), SetDrawCallIndex(k)] else [])
     + [DrawIndexed(d.indexCount, d.firstIndex, d.firstVertex)])
  }

  /** The skinned loop starts with no current geo call. */
  function ResetAt(st: RenderState, p: RendererParts, n: nat): RenderState
  {
    if n == |p.drawCalls| then st.(geoCall := NoIndex) else st
  }

  /** One draw call: its geo call when that changed, then the rest. */
  function Step(st: RenderState, p: RendererParts, a: RenderArgs, k: nat): (RenderState, seq<RenderEvent>)
    requires Renderable(p, a) && k < DrawCount(p)
  {
    var (st1, e1) := GeoStep(st, p, a, k);
    var (st2, e2) := CallStep(st1, p, a, k);
    (st2, e1 + e2)
  }

  /** The state after the first `n` draw calls. */
  function StateUpTo(p: RendererParts, a: RenderArgs, n: nat): RenderState
    requires Renderable(p, a) && n <= DrawCount(p)
  {
    if n == 0 then ResetAt(InitialRenderState, p, 0)
    else ResetAt(Step(StateUpTo(p, a, n - 1), p, a, n - 1).0, p, n)
  }

  /** The events of the first `n` draw calls, after the model's transform when the lookup is
    * not good. */
  function RenderUpTo(p: RendererParts, a: RenderArgs, n: nat): seq<RenderEvent>
    requires Renderable(p, a) && n <= DrawCount(p)
  {
    if n == 0 then (if IsGood(a.transforms) then [] else [UpdateLocalTransform(a.modelToWorld)])
    else RenderUpTo(p, a, n - 1) + Step(StateUpTo(p, a, n - 1), p, a, n - 1).1
  }

  /** The events of a whole Render pass. */
  function RenderTrace(p: RendererParts, a: RenderArgs): (r: seq<RenderEvent>)
    requires Renderable(p, a)
    ensures Draws(r) == StoredDraws(p, DrawCount(p))
  {
    RenderDrawsEveryCall(p, a, DrawCount(p));
    RenderUpTo(p, a, DrawCount(p))
  }

  // ---------------------------------------------------------------------------
  // Reference definitions

  /** The draw of stored draw call `k`, with its own index range. */
  function StoredDraw(p: RendererParts, k: nat): RenderEvent
    requires k < DrawCount(p)
  {
    var d := DrawCallAt(p, k).drawCall;
    DrawIndexed(d.indexCount, d.firstIndex, d.firstVertex)
  }

  /** The draws of the first `n` stored draw calls, in order. */
  function StoredDraws(p: RendererParts, n: nat): (r: seq<RenderEvent>)
    requires n <= DrawCount(p)
    ensures |r| == n
  {
    if n == 0 then [] else StoredDraws(p, n - 1) + [StoredDraw(p, n - 1)]
  }

  /** The geo call before draw call `k` in its own list, or none at the start of a list. */
  function PreviousGeoCall(p: RendererParts, k: nat): nat
    requires k <= DrawCount(p)
  {
    if k == 0 || k == |p.drawCalls| then NoIndex else DrawCallAt(p, k - 1).geoCallIndex
  }

  /** The stream binds of the first `n` draw calls: one for each draw call whose geo call
    * differs from the one before it in its list. */
  function GeoCallChanges(p: RendererParts, address: nat, n: nat): seq<RenderEvent>
    requires Preparable(p) && n <= DrawCount(p)
  {
    if n == 0 then [] else GeoCallChanges(p, address, n - 1) + GeoCallChange(p, address, n - 1)
  }

  /** The stream bind of draw call `k`: one when its geo call differs from the one before it in
    * its list. */
  function GeoCallChange(p: RendererParts, address: nat, k: nat): seq<RenderEvent>
    requires Preparable(p) && k < DrawCount(p)
  {
    if DrawCallAt(p, k).geoCallIndex != PreviousGeoCall(p, k) then [BindMeshStreams(address, SubMeshAt(p, k))] else []
  }

  /** The variation lookups of a trace, in order. */
  function Variations(events: seq<RenderEvent>): seq<VariationKey>
  {
    if |events| == 0 then []
    else (if events[0].BeginVariation? then [events[0].key] else []) + Variations(events[1..])
  }

  /** The variation draw call `k` looks up, with the interface bound for its own mesh. */
  function MeshVariation(p: RendererParts, a: RenderArgs, k: nat): VariationKey
    requires Renderable(p, a) && k < DrawCount(p)
  {
    var res := p.drawCallRes[k];
    VariationKey(res.shaderName, BoundInterface(p, a, k), res.geoParamBox, res.matParams)
  }

  /** The lookups of the first `n` draw calls, each with its own mesh's technique interface. */
  function MeshVariations(p: RendererParts, a: RenderArgs, n: nat): (r: seq<VariationKey>)
    requires Renderable(p, a) && n <= DrawCount(p)
    ensures |r| == n
  {
    if n == 0 then [] else MeshVariations(p, a, n - 1) + [MeshVariation(p, a, n - 1)]
  }

  // ---------------------------------------------------------------------------
  // Properties

  lemma {:induction false} VariationsAppend(a: seq<RenderEvent>, b: seq<RenderEvent>)
    ensures Variations(a + b) == Variations(a) + Variations(b)
  {
    if |a| == 0 {
      assert a + b == b;
    } else {
      assert (a + b)[0] == a[0];
      assert (a + b)[1..] == a[1..] + b;
      VariationsAppend(a[1..], b);
      AppendAssociative(if a[0].BeginVariation? then [a[0].key] else [], Variations(a[1..]), Variations(b));
    }
  }

  lemma {:induction false} NoDraws(e: seq<RenderEvent>)
    requires forall k :: 0 <= k < |e| ==> !e[k].DrawIndexed?
    ensures Draws(e) == []
  {
    if |e| > 0 {
      NoDraws(e[1..]);
    }
  }

  lemma {:induction false} NoVariations(e: seq<RenderEvent>)
    requires forall k :: 0 <= k < |e| ==> !e[k].BeginVariation?
    ensures Variations(e) == []
  {
    if |e| > 0 {
      NoVariations(e[1..]);
    }
  }

  /** Beginning a geo call draws nothing and looks up no variation; it binds the mesh's streams
    * exactly when the geo call changes. */
  lemma GeoStepEvents(st: RenderState, p: RendererParts, a: RenderArgs, k: nat)
    requires Renderable(p, a) && k < DrawCount(p)
    ensures var e := GeoStep(st, p, a, k).1;
      && Draws(e) == [] && Variations(e) == []
      && MeshBinds(e) == (if DrawCallAt(p, k).geoCallIndex != st.geoCall then [BindMeshStreams(a.address, SubMeshAt(p, k))] else [])
  {
    var e := GeoStep(st, p, a, k).1;
    assert forall i :: 0 <= i < |e| ==> e[i].UpdateLocalTransform? || e[i].BindMeshStreams?;
    NoDraws(e);
    NoVariations(e);
    if DrawCallAt(p, k).geoCallIndex != st.geoCall {
      var t := GeoCallTransform(p, a, k);
      MeshBindsAppend(t, [BindMeshStreams(a.address, SubMeshAt(p, k))]);
      NoMeshBinds(t);
      assert MeshBinds([BindMeshStreams(a.address, SubMeshAt(p, k))]) == [BindMeshStreams(a.address, SubMeshAt(p, k))] by {
        assert MeshBinds([BindMeshStreams(a.address, SubMeshAt(p, k))][1..]) == [];
      }
    }
  }

  /** The rest of a draw call draws it once, looks up one variation with the current interface,
    * and binds no streams. */
  lemma CallStepEvents(st: RenderState, p: RendererParts, a: RenderArgs, k: nat)
    requires Renderable(p, a) && k < DrawCount(p)
    ensures var e := CallStep(st, p, a, k).1;
      var d := DrawCallAt(p, k).drawCall;
      var res := p.drawCallRes[k];
      && Draws(e) == [DrawIndexed(d.indexCount, d.firstIndex, d.firstVertex)]
      && Variations(e) == [VariationKey(res.shaderName, st.techniqueInterface, res.geoParamBox, res.matParams)]
      && MeshBinds(e) == []
  {
    var e := CallStep(st, p, a, k).1;
    var d := DrawCallAt(p, k).drawCall;
    var n := |e|;
    assert e[n - 1] == DrawIndexed(d.indexCount, d.firstIndex, d.firstVertex);
    assert e[1].BeginVariation? && e[..1] == [e[0]];
    assert forall i :: 0 <= i < n - 1 ==> !e[i].DrawIndexed?;
    assert forall i :: 2 <= i < n ==> !e[i].BeginVariation?;
    assert forall i :: 0 <= i < n ==> !e[i].BindMeshStreams?;
    NoMeshBinds(e);
    assert e == e[..n - 1] + [e[n - 1]];
    NoDraws(e[..n - 1]);
    DrawsAppend(e[..n - 1], [e[n - 1]]);
    assert Draws([e[n - 1]]) == [e[n - 1]] by {
      assert Draws([e[n - 1]][1..]) == [];
    }
    assert e == [e[0], e[1]] + e[2..];
    NoVariations(e[2..]);
    VariationsAppend([e[0], e[1]], e[2..]);
    assert Variations([e[0], e[1]]) == [e[1].key] by {
      assert Variations([e[0], e[1]][1..]) == [e[1].key] by {
        assert Variations([e[0], e[1]][1..][1..]) == [];
      }
    }
  }

  /** One draw call draws it once, looks up one variation with the interface current after
    * its geo call, and binds its mesh's streams exactly when its geo call changed. */
  lemma StepEvents(st: RenderState, p: RendererParts, a: RenderArgs, k: nat)
    requires Renderable(p, a) && k < DrawCount(p)
    ensures var e := Step(st, p, a, k).1;
      var d := DrawCallAt(p, k).drawCall;
      var res := p.drawCallRes[k];
      var st1 := GeoStep(st, p, a, k).0;
      && Draws(e) == [DrawIndexed(d.indexCount, d.firstIndex, d.firstVertex)]
      && Variations(e) == [VariationKey(res.shaderName, st1.techniqueInterface, res.geoParamBox, res.matParams)]
      && MeshBinds(e) == (if DrawCallAt(p, k).geoCallIndex != st.geoCall then [BindMeshStreams(a.address, SubMeshAt(p, k))] else [])
  {
    var (st1, e1) := GeoStep(st, p, a, k);
    var e2 := CallStep(st1, p, a, k).1;
    GeoStepEvents(st, p, a, k);
    CallStepEvents(st1, p, a, k);
    DrawsAppend(e1, e2);
    VariationsAppend(e1, e2);
    MeshBindsAppend(e1, e2);
  }

  /** One draw call leaves its own geo call current, with the interface its geo step left. */
  lemma StepState(st: RenderState, p: RendererParts, a: RenderArgs, k: nat)
    requires Renderable(p, a) && k < DrawCount(p)
    ensures Step(st, p, a, k).0.geoCall == DrawCallAt(p, k).geoCallIndex
    ensures Step(st, p, a, k).0.techniqueInterface == GeoStep(st, p, a, k).0.techniqueInterface
    ensures GeoStep(st, p, a, k).0.techniqueInterface
      == if DrawCallAt(p, k).geoCallIndex == st.geoCall then st.techniqueInterface else BoundInterface(p, a, k)
  {
  }

  /** Two neighbouring draw calls of one list on the same geo call bind the same interface. */
  lemma SameGeoCallSameInterface(p: RendererParts, a: RenderArgs, k: nat)
    requires Renderable(p, a) && 0 < k < DrawCount(p) && k != |p.drawCalls|
    requires DrawCallAt(p, k).geoCallIndex == DrawCallAt(p, k - 1).geoCallIndex
    ensures BoundInterface(p, a, k) == BoundInterface(p, a, k - 1)
  {
    assert CallKnownAt(p, k) && CallKnownAt(p, k - 1);
    assert GeoCallAt(p, k) == GeoCallAt(p, k - 1);
  }

  /** After the first `n` draw calls, the current geo call is the one before draw call `n` in
    * its list; within a list, the current interface is that of the last draw call's mesh. */
  lemma {:induction false} StateUpToMeaning(p: RendererParts, a: RenderArgs, n: nat)
    requires Renderable(p, a) && n <= DrawCount(p)
    requires forall k :: 0 <= k < DrawCount(p) ==> DrawCallAt(p, k).geoCallIndex != NoIndex
    ensures StateUpTo(p, a, n).geoCall == PreviousGeoCall(p, n)
    ensures n > 0 && n != |p.drawCalls| ==> StateUpTo(p, a, n).techniqueInterface == BoundInterface(p, a, n - 1)
  {
    if n > 0 {
      StateUpToMeaning(p, a, n - 1);
      var st := StateUpTo(p, a, n - 1);
      StepState(st, p, a, n - 1);
      if DrawCallAt(p, n - 1).geoCallIndex == st.geoCall {
        assert DrawCallAt(p, n - 1).geoCallIndex != NoIndex;
        SameGeoCallSameInterface(p, a, n - 1);
      }
    }
  }

  /** Whether or not its geo call is begun again, draw call `n` is looked up with the interface
    * of its own mesh. */
  lemma GeoStepInterface(p: RendererParts, a: RenderArgs, n: nat)
    requires Renderable(p, a) && n < DrawCount(p)
    requires forall k :: 0 <= k < DrawCount(p) ==> DrawCallAt(p, k).geoCallIndex != NoIndex
    ensures GeoStep(StateUpTo(p, a, n), p, a, n).0.techniqueInterface == BoundInterface(p, a, n)
  {
    StateUpToMeaning(p, a, n);
    var st := StateUpTo(p, a, n);
    StepState(st, p, a, n);
    if DrawCallAt(p, n).geoCallIndex == st.geoCall {
      assert DrawCallAt(p, n).geoCallIndex != NoIndex;
      SameGeoCallSameInterface(p, a, n);
    }
  }

  /** Before the first draw call, Render draws, binds and looks up nothing. */
  lemma RenderStart(p: RendererParts, a: RenderArgs)
    requires Renderable(p, a)
    ensures Draws(RenderUpTo(p, a, 0)) == [] && MeshBinds(RenderUpTo(p, a, 0)) == [] && Variations(RenderUpTo(p, a, 0)) == []
  {
    var e := RenderUpTo(p, a, 0);
    NoDraws(e);
    NoMeshBinds(e);
    NoVariations(e);
  }

  /** Draw call `k`, after the ones before it, draws itself only. */
  lemma StepDraw(p: RendererParts, a: RenderArgs, k: nat)
    requires Renderable(p, a) && k < DrawCount(p)
    ensures Draws(Step(StateUpTo(p, a, k), p, a, k).1) == [StoredDraw(p, k)]
  {
    StepEvents(StateUpTo(p, a, k), p, a, k);
  }

  /** The first `n` draw calls draw those before the last, then the last one. */
  lemma DrawsStep(p: RendererParts, a: RenderArgs, n: nat)
    requires Renderable(p, a) && 0 < n <= DrawCount(p)
    ensures Draws(RenderUpTo(p, a, n)) == Draws(RenderUpTo(p, a, n - 1)) + [StoredDraw(p, n - 1)]
  {
    var k := n - 1;
    var prev, e := RenderUpTo(p, a, k), Step(StateUpTo(p, a, k), p, a, k).1;
    StepDraw(p, a, k);
    RenderUpToUnfold(p, a, n);
    DrawsAppend(prev, e);
  }

  /** Render draws every stored draw call once, in the renderer's order (unskinned, then
    * skinned), with its own index range, whatever the variations return. */
  lemma {:induction false} RenderDrawsEveryCall(p: RendererParts, a: RenderArgs, n: nat)
    requires Renderable(p, a) && n <= DrawCount(p)
    ensures Draws(RenderUpTo(p, a, n)) == StoredDraws(p, n)
  {
    if n == 0 {
      RenderStart(p, a);
    } else {
      RenderDrawsEveryCall(p, a, n - 1);
      DrawsStep(p, a, n);
      AppendSameTail(Draws(RenderUpTo(p, a, n)), StoredDraws(p, n),
        Draws(RenderUpTo(p, a, n - 1)), StoredDraws(p, n - 1), [StoredDraw(p, n - 1)]);
    }
  }

  /** Draw call `k`, after the ones before it, binds its mesh's streams only when its geo call
    * changed. */
  lemma StepBinds(p: RendererParts, a: RenderArgs, k: nat)
    requires Renderable(p, a) && k < DrawCount(p)
    requires forall j :: 0 <= j < DrawCount(p) ==> DrawCallAt(p, j).geoCallIndex != NoIndex
    ensures MeshBinds(Step(StateUpTo(p, a, k), p, a, k).1) == GeoCallChange(p, a.address, k)
  {
    StateUpToMeaning(p, a, k);
    StepEvents(StateUpTo(p, a, k), p, a, k);
  }

  /** The first `n` draw calls bind as those before the last, then as the last one. */
  lemma BindsStep(p: RendererParts, a: RenderArgs, n: nat)
    requires Renderable(p, a) && 0 < n <= DrawCount(p)
    requires forall j :: 0 <= j < DrawCount(p) ==> DrawCallAt(p, j).geoCallIndex != NoIndex
    ensures MeshBinds(RenderUpTo(p, a, n)) == MeshBinds(RenderUpTo(p, a, n - 1)) + GeoCallChange(p, a.address, n - 1)
  {
    var k := n - 1;
    var prev, e := RenderUpTo(p, a, k), Step(StateUpTo(p, a, k), p, a, k).1;
    StepBinds(p, a, k);
    RenderUpToUnfold(p, a, n);
    MeshBindsAppend(prev, e);
  }

  /** Render binds a mesh's streams exactly where a draw call's geo call differs from the one
    * before it in its list, so a run of draw calls on one geo call binds once. */
  lemma {:induction false} RenderBindsOnGeoCallChange(p: RendererParts, a: RenderArgs, n: nat)
    requires Renderable(p, a) && n <= DrawCount(p)
    requires forall k :: 0 <= k < DrawCount(p) ==> DrawCallAt(p, k).geoCallIndex != NoIndex
    ensures MeshBinds(RenderUpTo(p, a, n)) == GeoCallChanges(p, a.address, n)
    decreases n, 1
  {
    if n == 0 {
      BindsStart(p, a);
    } else {
      BindsInduct(p, a, n);
    }
  }

  /** The base case of RenderBindsOnGeoCallChange. */
  lemma BindsStart(p: RendererParts, a: RenderArgs)
    requires Renderable(p, a)
    ensures MeshBinds(RenderUpTo(p, a, 0)) == GeoCallChanges(p, a.address, 0)
  {
    RenderStart(p, a);
  }

  /** The induction step of RenderBindsOnGeoCallChange: the first `n - 1` draw calls bind as
    * stated, and the last one binds exactly on a change of geo call. */
  lemma {:induction false} BindsInduct(p: RendererParts, a: RenderArgs, n: nat)
    requires Renderable(p, a) && 0 < n <= DrawCount(p)
    requires forall j :: 0 <= j < DrawCount(p) ==> DrawCallAt(p, j).geoCallIndex != NoIndex
    ensures MeshBinds(RenderUpTo(p, a, n)) == GeoCallChanges(p, a.address, n)
    decreases n, 0
  {
    var k := n - 1;
    RenderBindsOnGeoCallChange(p, a, k);
    BindsStep(p, a, n);
    AppendSameTail(MeshBinds(RenderUpTo(p, a, n)), GeoCallChanges(p, a.address, n),
      MeshBinds(RenderUpTo(p, a, k)), GeoCallChanges(p, a.address, k), GeoCallChange(p, a.address, k));
  }

  /** Draw call `k`, after the ones before it, looks up its own mesh's variation only. */
  lemma StepVariation(p: RendererParts, a: RenderArgs, k: nat)
    requires Renderable(p, a) && k < DrawCount(p)
    requires forall j :: 0 <= j < DrawCount(p) ==> DrawCallAt(p, j).geoCallIndex != NoIndex
    ensures Variations(Step(StateUpTo(p, a, k), p, a, k).1) == [MeshVariation(p, a, k)]
  {
    GeoStepInterface(p, a, k);
    StepEvents(StateUpTo(p, a, k), p, a, k);
  }

  /** The events of the first `n` draw calls: those of the first `n - 1`, then draw call `n - 1`'s. */
  lemma RenderUpToUnfold(p: RendererParts, a: RenderArgs, n: nat)
    requires Renderable(p, a) && 0 < n <= DrawCount(p)
    ensures RenderUpTo(p, a, n) == RenderUpTo(p, a, n - 1) + Step(StateUpTo(p, a, n - 1), p, a, n - 1).1
  {
  }

  /** The first `n` draw calls look up those before the last, then the last one's. */
  lemma VariationsStep(p: RendererParts, a: RenderArgs, n: nat)
    requires Renderable(p, a) && 0 < n <= DrawCount(p)
    requires forall j :: 0 <= j < DrawCount(p) ==> DrawCallAt(p, j).geoCallIndex != NoIndex
    ensures Variations(RenderUpTo(p, a, n)) == Variations(RenderUpTo(p, a, n - 1)) + [MeshVariation(p, a, n - 1)]
  {
    var k := n - 1;
    var prev, e := RenderUpTo(p, a, k), Step(StateUpTo(p, a, k), p, a, k).1;
    StepVariation(p, a, k);
    RenderUpToUnfold(p, a, n);
    VariationsAppend(prev, e);
  }

  /** Every variation Render looks up uses the technique interface bound for the draw call's own
    * mesh, also when the geo call carries over from the draw call before and nothing is
    * rebound. */
  lemma {:induction false} RenderVariationsUseMeshInterface(p: RendererParts, a: RenderArgs, n: nat)
    requires Renderable(p, a) && n <= DrawCount(p)
    requires forall k :: 0 <= k < DrawCount(p) ==> DrawCallAt(p, k).geoCallIndex != NoIndex
    ensures Variations(RenderUpTo(p, a, n)) == MeshVariations(p, a, n)
  {
    if n == 0 {
      RenderStart(p, a);
    } else {
      RenderVariationsUseMeshInterface(p, a, n - 1);
      VariationsStep(p, a, n);
      assert MeshVariations(p, a, n) == MeshVariations(p, a, n - 1) + [MeshVariation(p, a, n - 1)];
      AppendSameTail(Variations(RenderUpTo(p, a, n)), MeshVariations(p, a, n),
        Variations(RenderUpTo(p, a, n - 1)), MeshVariations(p, a, n - 1), [MeshVariation(p, a, n - 1)]);
    }
  }

  /** With a good lookup and no prepared animation, the transform BeginSkinCall writes as
    * written is the model's, where the mesh's placement was computed and meant; they differ
    * whenever the mesh has a transform of its own. */
  lemma SkinCallTransformMismatch(p: RendererParts, a: RenderArgs, k: nat)
    requires Renderable(p, a) && |p.drawCalls| <= k < DrawCount(p)
    requires IsGood(a.transforms) && a.animation.None?
    ensures SkinCallTransformAsWritten(p, a, k) != GeoCallTransform(p, a, k)
  {
    var placement := Combine(GetMeshToModel(a.transforms, GeoCallAt(p, k).transformMarker), a.modelToWorld);
    assert GeoCallTransform(p, a, k) == [UpdateLocalTransform(placement)];
    assert Depth(placement) > Depth(a.modelToWorld);
  }

  /** The nesting depth of a symbolic transform. */
  function Depth(m: Matrix): nat
  {
    if m.Combine? then 1 + (if Depth(m.first) < Depth(m.second) then Depth(m.second) else Depth(m.first)) else 0
  }
}
