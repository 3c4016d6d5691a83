/**
 * Delayed draw calls (RenderCore/Assets/ModelRunTime.cpp, CompareDrawCall and
 * RenderPreparedInternal): the entries ModelRenderer::Prepare files per delay step, their
 * order, and the rendering of one delay step's entries, which rebinds a mesh, a shader
 * variation or a texture set only when it changes from one entry to the next.
 *
 * Device calls are events of a trace. The shared state set's BeginVariation is a function
 * parameter that gives the bound uniforms (None for a null pointer) for a variation key.
 * Meshes are identified by their renderer's address and their position in that renderer's
 * unskinned or skinned mesh list; the address order of two meshes of one renderer is taken
 * to be unskinned before skinned, then by position.
 */
module DrawCallScheduling {
  import opened Wrappers
  import opened ModelData
  import opened ModelRenderers
  import opened MeshToModels
  import opened Bits
  import opened Sequences

  /** `~unsigned(0)`, the "nothing bound yet" value of the texture-set and constant-buffer
    * trackers. */
  const NoIndex: nat := 0xFFFF_FFFF

  /** The sub-mesh an entry draws: a mesh of the renderer's unskinned or skinned list. */
  datatype SubMesh = Unskinned(index: nat) | Skinned(index: nat)

  /** DelayedDrawCall: which renderer and draw call, where its transform is, its sort hash, its
    * index range and topology, and its sub-mesh. */
  datatype DelayedDrawCall = DelayedDrawCall(
    drawCallIndex: nat,
    renderer: nat,
    meshToWorld: nat,
    shaderVariationHash: nat,
    indexCount: nat,
    firstIndex: nat,
    firstVertex: nat,
    topology: nat,
    subMesh: SubMesh)

  // ---------------------------------------------------------------------------
  // Order

  /** The address order of two sub-meshes of one renderer. */
  predicate SubMeshLess(a: SubMesh, b: SubMesh)
  {
    if a.Unskinned? != b.Unskinned? then a.Unskinned? else a.index < b.index
  }

  /** CompareDrawCall: by shader variation hash, then renderer, then sub-mesh, then draw call
    * index. */
  predicate CompareDrawCall(lhs: DelayedDrawCall, rhs: DelayedDrawCall)
    ensures CompareDrawCall(lhs, rhs) ==> lhs.shaderVariationHash <= rhs.shaderVariationHash
  {
    if lhs.shaderVariationHash == rhs.shaderVariationHash then
      if lhs.renderer == rhs.renderer then
        if lhs.subMesh == rhs.subMesh then lhs.drawCallIndex < rhs.drawCallIndex
        else SubMeshLess(lhs.subMesh, rhs.subMesh)
      else lhs.renderer < rhs.renderer
    else lhs.shaderVariationHash < rhs.shaderVariationHash
  }

  /** The fields CompareDrawCall looks at. */
  function SortKey(d: DelayedDrawCall): (nat, nat, SubMesh, nat)
  {
    (d.shaderVariationHash, d.renderer, d.subMesh, d.drawCallIndex)
  }

  /** CompareDrawCall is a strict order: irreflexive and transitive. */
  lemma CompareDrawCallStrict(a: DelayedDrawCall, b: DelayedDrawCall, c: DelayedDrawCall)
    ensures !CompareDrawCall(a, a)
    ensures CompareDrawCall(a, b) && CompareDrawCall(b, c) ==> CompareDrawCall(a, c)
  {
  }

  /** It orders every two entries whose keys differ, one way only; entries with equal keys are
    * equivalent. */
  lemma CompareDrawCallTotal(a: DelayedDrawCall, b: DelayedDrawCall)
    ensures SortKey(a) != SortKey(b) <==> (CompareDrawCall(a, b) || CompareDrawCall(b, a))
    ensures !(CompareDrawCall(a, b) && CompareDrawCall(b, a))
  {
  }

  /** Ordered by CompareDrawCall: no entry is less than one before it. */
  predicate SortedByCompare(s: seq<DelayedDrawCall>)
  {
    forall i, j :: 0 <= i < j < |s| ==> !CompareDrawCall(s[j], s[i])
  }

  /** `x` placed before the first entry it is less than. */
  function InsertEntry(x: DelayedDrawCall, s: seq<DelayedDrawCall>): (r: seq<DelayedDrawCall>)
    ensures |r| == |s| + 1 && x in r
  {
    if |s| == 0 then [x]
    else if CompareDrawCall(x, s[0]) then [x] + s
    else [s[0]] + InsertEntry(x, s[1..])
  }

  /** The sort of one delay step's entries: an insertion sort by CompareDrawCall. */
  function SortEntries(s: seq<DelayedDrawCall>): (r: seq<DelayedDrawCall>)
    ensures |r| == |s|
  {
    if |s| == 0 then [] else InsertEntry(s[0], SortEntries(s[1..]))
  }

  lemma {:induction false} InsertEntryPermutes(x: DelayedDrawCall, s: seq<DelayedDrawCall>)
    ensures multiset(InsertEntry(x, s)) == multiset(s) + multiset{x}
  {
    if |s| > 0 && !CompareDrawCall(x, s[0]) {
      InsertEntryPermutes(x, s[1..]);
      assert s == [s[0]] + s[1..];
    }
  }

  lemma {:induction false} InsertEntrySorted(x: DelayedDrawCall, s: seq<DelayedDrawCall>)
    requires SortedByCompare(s)
    ensures SortedByCompare(InsertEntry(x, s))
  {
    if |s| == 0 {
      assert InsertEntry(x, s) == [x];
    } else if CompareDrawCall(x, s[0]) {
      forall k | 0 <= k < |s|
        ensures !CompareDrawCall(s[k], x)
      {
        if k > 0 {
          assert !CompareDrawCall(s[k], s[0]);
        }
        CompareDrawCallStrict(s[k], x, s[0]);
      }
      SortedCons(x, s);
    } else {
      InsertEntrySorted(x, s[1..]);
      InsertEntryPermutes(x, s[1..]);
      var r := InsertEntry(x, s[1..]);
      forall k | 0 <= k < |r|
        ensures !CompareDrawCall(r[k], s[0])
      {
        assert r[k] in multiset(r);
        NotBeforeHead(x, s, r[k]);
      }
      SortedCons(s[0], r);
    }
  }

  /** A sorted sequence stays sorted behind a head that none of its entries is less than. */
  lemma SortedCons(h: DelayedDrawCall, t: seq<DelayedDrawCall>)
    requires SortedByCompare(t)
    requires forall k :: 0 <= k < |t| ==> !CompareDrawCall(t[k], h)
    ensures SortedByCompare([h] + t)
  {
    forall i, j | 0 <= i < j < |[h] + t|
      ensures !CompareDrawCall(([h] + t)[j], ([h] + t)[i])
    {
      assert ([h] + t)[j] == t[j - 1];
      if i > 0 {
        assert ([h] + t)[i] == t[i - 1];
      }
    }
  }

  /** What is inserted after the head of a sorted sequence is not less than that head. */
  lemma NotBeforeHead(x: DelayedDrawCall, s: seq<DelayedDrawCall>, y: DelayedDrawCall)
    requires SortedByCompare(s) && |s| > 0 && !CompareDrawCall(x, s[0])
    requires multiset(InsertEntry(x, s[1..])) == multiset(s[1..]) + multiset{x}
    requires y in multiset(InsertEntry(x, s[1..]))
    ensures !CompareDrawCall(y, s[0])
  {
    if y in multiset(s[1..]) {
      var k :| 0 <= k < |s[1..]| && s[1..][k] == y;
      assert s[k + 1] == y;
    }
  }

  /** The sort yields the same entries, ordered by CompareDrawCall. */
  lemma {:induction false} SortEntriesCorrect(s: seq<DelayedDrawCall>)
    ensures SortedByCompare(SortEntries(s))
    ensures multiset(SortEntries(s)) == multiset(s)
  {
    if |s| > 0 {
      SortEntriesCorrect(s[1..]);
      InsertEntrySorted(s[0], SortEntries(s[1..]));
      InsertEntryPermutes(s[0], SortEntries(s[1..]));
      assert s == [s[0]] + s[1..];
    }
  }

  // ---------------------------------------------------------------------------
  // The entry's hash and topology

  /** `x << s` on an unsigned 32-bit integer: the bits shifted past bit 31 are lost. */
  function Shl32(x: nat, s: nat): nat
  {
    Shift(x, s) % 0x1_0000_0000
  }

  /** `a ^ b` on unsigned 32-bit integers. */
  function Xor32(a: nat, b: nat): (r: nat)
    ensures r < 0x1_0000_0000
  {
    Pow2At32();
    XorBits(a, b, 32)
  }

  /** The shader variation hash Prepare gives an entry: the technique interface, the geometry
    * parameter box shifted by 12, the material parameter box shifted by 15 and the shader name
    * shifted by 24, combined by exclusive or in 32-bit unsigned arithmetic. */
  function VariationHash(techniqueInterface: nat, geoParamBox: nat, matParams: nat, shaderName: nat): (h: nat)
    ensures h < 0x1_0000_0000
  {
    Xor32(Xor32(Xor32(techniqueInterface % 0x1_0000_0000, Shl32(geoParamBox, 12)), Shl32(matParams, 15)), Shl32(shaderName, 24))
  }

  /** While the handles fit their fields (12, 3, 9 and 8 bits) their bits do not meet, and the
    * hash is their sum, each in its place. */
  lemma VariationHashFields(ti: nat, geo: nat, mat: nat, shader: nat)
    requires ti < 0x1000 && geo < 0x8 && mat < 0x200 && shader < 0x100
    ensures VariationHash(ti, geo, mat, shader) == ti + geo * 0x1000 + mat * 0x8000 + shader * 0x100_0000
  {
    assert ti % 0x1_0000_0000 == ti;
    Pow2At12();
    Xor32Disjoint(ti, geo, 12);
    var a := ti + geo * 0x1000;
    assert Xor32(ti % 0x1_0000_0000, Shl32(geo, 12)) == a;
    Pow2At15();
    Xor32Disjoint(a, mat, 15);
    var b := a + mat * 0x8000;
    assert Xor32(a, Shl32(mat, 15)) == b;
    Pow2At24();
    Xor32Disjoint(b, shader, 24);
    assert Xor32(b, Shl32(shader, 24)) == b + shader * 0x100_0000;
  }

  /** In those widths the hash tells variations apart: two that share a hash are the same. */
  lemma VariationHashInjective(ti: nat, geo: nat, mat: nat, shader: nat, ti': nat, geo': nat, mat': nat, shader': nat)
    requires ti < 0x1000 && geo < 0x8 && mat < 0x200 && shader < 0x100
    requires ti' < 0x1000 && geo' < 0x8 && mat' < 0x200 && shader' < 0x100
    requires VariationHash(ti, geo, mat, shader) == VariationHash(ti', geo', mat', shader')
    ensures ti == ti' && geo == geo' && mat == mat' && shader == shader'
  {
    VariationHashFields(ti, geo, mat, shader);
    VariationHashFields(ti', geo', mat', shader');
    FieldsDecode(ti, geo, mat, shader);
    FieldsDecode(ti', geo', mat', shader');
  }

  /** The four fields of a sum of placed fields can be read back. */
  lemma FieldsDecode(ti: nat, geo: nat, mat: nat, shader: nat)
    requires ti < 0x1000 && geo < 0x8 && mat < 0x200 && shader < 0x100
    ensures var h := ti + geo * 0x1000 + mat * 0x8000 + shader * 0x100_0000;
      h % 0x1000 == ti && (h / 0x1000) % 0x8 == geo && (h / 0x8000) % 0x200 == mat && h / 0x100_0000 == shader
  {
    var h := ti + geo * 0x1000 + mat * 0x8000 + shader * 0x100_0000;
    var above12 := geo + mat * 0x8 + shader * 0x1000;
    assert h == ti + above12 * 0x1000;
    assert h % 0x1000 == ti && h / 0x1000 == above12;
    assert above12 % 0x8 == geo;
    var above15 := mat + shader * 0x200;
    assert h == (ti + geo * 0x1000) + above15 * 0x8000 && ti + geo * 0x1000 < 0x8000;
    assert h / 0x8000 == above15;
    assert above15 % 0x200 == mat;
    assert h == (ti + geo * 0x1000 + mat * 0x8000) + shader * 0x100_0000 && ti + geo * 0x1000 + mat * 0x8000 < 0x100_0000;
  }

  /** Beyond those widths the fields overlap: different variations may share a hash. */
  lemma VariationHashCollide()
    ensures VariationHash(0x1000, 0, 0, 0) == VariationHash(0, 1, 0, 0)
    ensures VariationHash(0, 8, 0, 0) == VariationHash(0, 0, 1, 0)
  {
    Pow2At12();
    Pow2At15();
    Pow2At32();
    ShiftIsProduct(0, 12);
    ShiftIsProduct(0, 15);
    ShiftIsProduct(0, 24);
    ShiftIsProduct(1, 12);
    ShiftIsProduct(8, 12);
    ShiftIsProduct(1, 15);
    assert Shl32(0, 12) == 0 && Shl32(0, 15) == 0 && Shl32(0, 24) == 0;
    assert Shl32(1, 12) == 0x1000 && Shl32(8, 12) == 0x8000 && Shl32(1, 15) == 0x8000;
    XorZeroRight(0x1000, 32);
    XorZeroRight(0x8000, 32);
    XorZeroRight(0, 32);
    XorZero(0x1000, 32);
    XorZero(0x8000, 32);
    XorZero(0, 32);
  }

  /** In range, a hash can still equal `~0u`, the value RenderPreparedInternal starts from. */
  lemma VariationHashReachesStart()
    ensures VariationHash(0xFFF, 0x7, 0x1FF, 0xFF) == 0xFFFF_FFFF
  {
    VariationHashFields(0xFFF, 0x7, 0x1FF, 0xFF);
  }

  /** `topology | 0x100`: the tag Prepare puts on the topology of a skinned entry. */
  function TagSkinned(topology: nat): nat
  {
    if (topology / 0x100) % 2 == 1 then topology else topology + 0x100
  }

  /** `topology & 0xff`: the topology RenderPreparedInternal binds. */
  function Low8(topology: nat): nat
  {
    topology % 0x100
  }

  /** For topologies below 0x100 the tag tells skinned entries apart (`> 0xff`) and the low
    * byte gives the topology back. */
  lemma TopologyTagRoundTrip(topology: nat)
    requires topology < 0x100
    ensures TagSkinned(topology) > 0xff && Low8(TagSkinned(topology)) == topology
    ensures !(topology > 0xff) && Low8(topology) == topology
  {
  }

  // ---------------------------------------------------------------------------
  // The set of delayed draw calls

  /** DelayedDrawCallSet: the entries of each delay step, the transforms they refer to, and the
    * type of renderer that filled it. */
  class DelayedDrawCallSet {
    const rendererType: nat
    var opaqueEntries: seq<DelayedDrawCall>
    var postDeferredEntries: seq<DelayedDrawCall>
    var transforms: seq<Matrix>

    constructor(rendererType: nat)
      ensures this.rendererType == rendererType
      ensures opaqueEntries == [] && postDeferredEntries == [] && transforms == []
    {
      this.rendererType := rendererType;
      opaqueEntries, postDeferredEntries, transforms := [], [], [];
    }

    function Entries(step: DelayStep): seq<DelayedDrawCall>
      reads this
    {
      if step == OpaqueRender then opaqueEntries else postDeferredEntries
    }

    /** Appends `entry` to the entries of `step`. */
    method Push(step: DelayStep, entry: DelayedDrawCall)
      modifies this
      ensures Entries(step) == old(Entries(step)) + [entry]
      ensures forall other :: other != step ==> Entries(other) == old(Entries(other))
      ensures transforms == old(transforms)
    {
      if step == OpaqueRender {
        opaqueEntries := opaqueEntries + [entry];
      } else {
        postDeferredEntries := postDeferredEntries + [entry];
      }
    }

    /** Appends a transform and gives its index. */
    method PushTransform(t: Matrix) returns (index: nat)
      modifies this
      ensures index == |old(transforms)| && transforms == old(transforms) + [t]
      ensures forall step :: Entries(step) == old(Entries(step))
    {
      index := |transforms|;
      transforms := transforms + [t];
    }

    /** Sorts the entries of `step` in place. */
    method Sort(step: DelayStep)
      modifies this
      ensures Entries(step) == SortEntries(old(Entries(step)))
      ensures forall other :: other != step ==> Entries(other) == old(Entries(other))
      ensures transforms == old(transforms)
    {
      if step == OpaqueRender {
        opaqueEntries := SortEntries(opaqueEntries);
      } else {
        postDeferredEntries := SortEntries(postDeferredEntries);
      }
    }
  }

  // ---------------------------------------------------------------------------
  // Rendering prepared entries

  /** What RenderPreparedInternal reads of the renderer an entry names: its draw-call
    * resources, the technique interface of each unskinned mesh, and both technique interfaces
    * (unskinned part, skinned) of each skinned mesh. */
  datatype PreparedRenderer = PreparedRenderer(
    drawCallRes: seq<DrawCallResources>,
    meshInterfaces: seq<nat>,
    skinnedInterfaces: seq<(nat, nat)>)

  /** The arguments of a shader variation lookup. */
  datatype VariationKey = VariationKey(shaderName: nat, techniqueInterface: nat, geoParamBox: nat, matParams: nat)

  /** The device and shared-state calls the renderer makes, in order. */
  datatype RenderEvent =
    | BindMeshStreams(renderer: nat, subMesh: SubMesh)
    | BeginVariation(key: VariationKey)
    | BeginRenderState(renderStateSet: nat)
    | WriteLocalTransform(transform: Matrix, materialGuid: MaterialGuid)
    | ApplyBoundUniforms(renderer: nat, textureSet: nat, constantBuffer: nat)
    | BindTopology(topology: nat)
    | DrawIndexed(indexCount: nat, firstIndex: nat, firstVertex: nat)
    | BindStencilRef(stencilRef: nat)
    | SetDrawCallIndex(drawCallIndex: nat)
    | UpdateLocalTransform(transform: Matrix)

  /** The entry can be drawn: its renderer is known, and its draw call, sub-mesh and transform
    * exist. */
  predicate Resolvable(d: DelayedDrawCall, renderers: map<nat, PreparedRenderer>, transformCount: nat)
  {
    && d.renderer in renderers
    && d.drawCallIndex < |renderers[d.renderer].drawCallRes|
    && (if d.subMesh.Unskinned? then d.subMesh.index < |renderers[d.renderer].meshInterfaces|
        else d.subMesh.index < |renderers[d.renderer].skinnedInterfaces|)
    && d.meshToWorld < transformCount
  }

  /** The technique interface of the entry's sub-mesh: for a skinned mesh, the skinned one,
    * which is the one Prepare hashed and the one that describes the streams bound for it. */
  function SubMeshInterface(r: PreparedRenderer, m: SubMesh): nat
    requires if m.Unskinned? then m.index < |r.meshInterfaces| else m.index < |r.skinnedInterfaces|
  {
    if m.Unskinned? then r.meshInterfaces[m.index] else r.skinnedInterfaces[m.index].1
  }

  /** As written, RenderPreparedInternal reads `mesh->_techniqueInterface` of every sub-mesh,
    * which for a skinned mesh is the interface of its unskinned part. */
  function SubMeshInterfaceAsWritten(r: PreparedRenderer, m: SubMesh): nat
    requires if m.Unskinned? then m.index < |r.meshInterfaces| else m.index < |r.skinnedInterfaces|
  {
    if m.Unskinned? then r.meshInterfaces[m.index] else r.skinnedInterfaces[m.index].0
  }

  /** For a skinned mesh whose two interfaces differ, the interface read as written is not the
    * one its entries were hashed with, so the variation looked up for the bound streams uses
    * the wrong input layout. */
  lemma AsWrittenInterfaceMismatch(r: PreparedRenderer, i: nat)
    requires i < |r.skinnedInterfaces| && r.skinnedInterfaces[i].0 != r.skinnedInterfaces[i].1
    ensures SubMeshInterfaceAsWritten(r, Skinned(i)) != SubMeshInterface(r, Skinned(i))
    ensures SubMeshInterface(r, Skinned(i)) == r.skinnedInterfaces[i].1
  {
  }

  /** What the loop tracks between entries. */
  datatype PreparedState = PreparedState(
    currentMesh: Option<(nat, SubMesh)>,
    uniforms: Option<nat>,
    variationHash: nat,
    textureSet: nat,
    constantBuffer: nat,
    techniqueInterface: nat)

  const InitialPreparedState: PreparedState := PreparedState(None, None, 0xFFFF_FFFF, NoIndex, NoIndex, NoIndex)

  /** The mesh part of one entry: its streams are bound when it differs from the current mesh,
    * which resets the texture-set tracker. */
  function MeshStep(st: PreparedState, d: DelayedDrawCall, r: PreparedRenderer): (PreparedState, seq<RenderEvent>)
    requires if d.subMesh.Unskinned? then d.subMesh.index < |r.meshInterfaces| else d.subMesh.index < |r.skinnedInterfaces|
  {
    if st.currentMesh == Some((d.renderer, d.subMesh)) then (st, [])
    else (st.(currentMesh := Some((d.renderer, d.subMesh)), techniqueInterface := SubMeshInterface(r, d.subMesh),
              textureSet := NoIndex),
          [BindMeshStreams(d.renderer, d.subMesh)])
  }

  /** The variation part: a new variation is looked up when the hash differs from the current
    * one, which also resets the texture-set tracker. */
  function VariationStep(st: PreparedState, d: DelayedDrawCall, res: DrawCallResources,
                         variation: VariationKey -> Option<nat>): (PreparedState, seq<RenderEvent>)
  {
    if st.variationHash == d.shaderVariationHash then (st, [])
    else
      var key := VariationKey(res.shaderName, st.techniqueInterface, res.geoParamBox, res.matParams);
      (st.(uniforms := variation(key), variationHash := d.shaderVariationHash, textureSet := NoIndex),
       [BeginVariation(key)])
  }

  /** The draw part, when there are uniforms: render state, transform, the uniforms when the
    * texture set or constant buffer changed, then the draw. */
  function DrawStep(st: PreparedState, d: DelayedDrawCall, res: DrawCallResources, transforms: seq<Matrix>)
    : (PreparedState, seq<RenderEvent>)
    requires d.meshToWorld < |transforms|
  {
    var apply := res.textureSet != st.textureSet || res.constantBuffer != st.constantBuffer;
    (if apply then st.(textureSet := res.textureSet, constantBuffer := res.constantBuffer) else st,
     [BeginRenderState(res.renderStateSet), WriteLocalTransform(transforms[d.meshToWorld], res.materialBindingGuid)]
     + (if apply then [ApplyBoundUniforms(d.renderer, res.textureSet, res.constantBuffer)] else [])
     + [BindTopology(Low8(d.topology)), DrawIndexed(d.indexCount, d.firstIndex, d.firstVertex)])
  }

  /** One iteration of RenderPreparedInternal's loop; an entry without uniforms is not drawn. */
  function EntryStep(st: PreparedState, d: DelayedDrawCall, renderers: map<nat, PreparedRenderer>,
                     transforms: seq<Matrix>, variation: VariationKey -> Option<nat>): (PreparedState, seq<RenderEvent>)
    requires Resolvable(d, renderers, |transforms|)
  {
    var r := renderers[d.renderer];
    var res := r.drawCallRes[d.drawCallIndex];
    var (st1, e1) := MeshStep(st, d, r);
    var (st2, e2) := VariationStep(st1, d, res, variation);
    if st2.uniforms.None? then (st2, e1 + e2)
    else
      var (st3, e3) := DrawStep(st2, d, res, transforms);
      (st3, e1 + e2 + e3)
  }

  /** The events of drawing `entries` in order from state `st`. */
  function PreparedTrace(st: PreparedState, entries: seq<DelayedDrawCall>, renderers: map<nat, PreparedRenderer>,
                         transforms: seq<Matrix>, variation: VariationKey -> Option<nat>): (r: seq<RenderEvent>)
    requires forall d :: d in entries ==> Resolvable(d, renderers, |transforms|)
    decreases |entries|
  {
    if |entries| == 0 then []
    else
      var (st1, e) := EntryStep(st, entries[0], renderers, transforms, variation);
      e + PreparedTrace(st1, entries[1..], renderers, transforms, variation)
  }

  /** The pass opens by binding the first entry's mesh streams unless that mesh is already bound. */
  lemma PreparedTraceBindsFirstMesh(st: PreparedState, entries: seq<DelayedDrawCall>, renderers: map<nat, PreparedRenderer>,
                                    transforms: seq<Matrix>, variation: VariationKey -> Option<nat>)
    requires forall d :: d in entries ==> Resolvable(d, renderers, |transforms|)
    requires |entries| > 0 && st.currentMesh != Some((entries[0].renderer, entries[0].subMesh))
    ensures var r := PreparedTrace(st, entries, renderers, transforms, variation);
      |r| > 0 && r[0] == BindMeshStreams(entries[0].renderer, entries[0].subMesh)
  {
  }

  /** The draws of a trace, in order. */
  function Draws(events: seq<RenderEvent>): seq<RenderEvent>
  {
    if |events| == 0 then []
    else (if events[0].DrawIndexed? then [events[0]] else []) + Draws(events[1..])
  }

  lemma {:induction false} DrawsAppend(a: seq<RenderEvent>, b: seq<RenderEvent>)
    ensures Draws(a + b) == Draws(a) + Draws(b)
  {
    if |a| == 0 {
      assert a + b == b;
    } else {
      assert (a + b)[0] == a[0];
      assert (a + b)[1..] == a[1..] + b;
      DrawsAppend(a[1..], b);
      AppendAssociative(if a[0].DrawIndexed? then [a[0]] else [], Draws(a[1..]), Draws(b));
    }
  }

  /** The mesh binds of a trace, in order. */
  function MeshBinds(events: seq<RenderEvent>): seq<RenderEvent>
  {
    if |events| == 0 then []
    else (if events[0].BindMeshStreams? then [events[0]] else []) + MeshBinds(events[1..])
  }

  lemma {:induction false} MeshBindsAppend(a: seq<RenderEvent>, b: seq<RenderEvent>)
    ensures MeshBinds(a + b) == MeshBinds(a) + MeshBinds(b)
  {
    if |a| == 0 {
      assert a + b == b;
    } else {
      assert (a + b)[0] == a[0];
      assert (a + b)[1..] == a[1..] + b;
      MeshBindsAppend(a[1..], b);
      AppendAssociative(if a[0].BindMeshStreams? then [a[0]] else [], MeshBinds(a[1..]), MeshBinds(b));
    }
  }

  /** Every variation has uniforms. */
  ghost predicate AlwaysBound(variation: VariationKey -> Option<nat>)
  {
    forall k :: variation(k).Some?
  }

  /** Once a variation has been begun, the state holds uniforms whenever the variation never
    * fails. */
  predicate Started(st: PreparedState)
  {
    st.variationHash != 0xFFFF_FFFF ==> st.uniforms.Some?
  }

  /** When every variation has uniforms and no entry carries the tracker's start value as its
    * hash, every entry is drawn once, in order, with its own index range. */
  lemma {:induction false} PreparedTraceDrawsEveryEntry(
    st: PreparedState, entries: seq<DelayedDrawCall>, renderers: map<nat, PreparedRenderer>,
    transforms: seq<Matrix>, variation: VariationKey -> Option<nat>)
    requires forall d :: d in entries ==> Resolvable(d, renderers, |transforms|)
    requires AlwaysBound(variation) && Started(st)
    requires forall d :: d in entries ==> d.shaderVariationHash != 0xFFFF_FFFF
    ensures Draws(PreparedTrace(st, entries, renderers, transforms, variation))
      == seq(|entries|, k requires 0 <= k < |entries| => DrawIndexed(entries[k].indexCount, entries[k].firstIndex, entries[k].firstVertex))
    decreases |entries|
  {
    if |entries| > 0 {
      var d := entries[0];
      assert d in entries;
      var r := renderers[d.renderer];
      var res := r.drawCallRes[d.drawCallIndex];
      var (st1, e1) := MeshStep(st, d, r);
      var (st2, e2) := VariationStep(st1, d, res, variation);
      assert st2.uniforms.Some?;
      var (st3, e3) := DrawStep(st2, d, res, transforms);
      assert EntryStep(st, d, renderers, transforms, variation) == (st3, e1 + e2 + e3);
      assert Started(st3);
      assert forall x :: x in entries[1..] ==> x in entries;
      PreparedTraceDrawsEveryEntry(st3, entries[1..], renderers, transforms, variation);
      var rest := PreparedTrace(st3, entries[1..], renderers, transforms, variation);
      DrawsAppend(e1 + e2 + e3, rest);
      DrawsAppend(e1 + e2, e3);
      DrawsAppend(e1, e2);
      assert Draws(e1) == [] by {
        if |e1| > 0 {
          assert Draws(e1[1..]) == [];
        }
      }
      assert Draws(e2) == [] by {
        if |e2| > 0 {
          assert Draws(e2[1..]) == [];
        }
      }
      DrawStepDraws(st2, d, res, transforms);
    }
  }

  lemma DrawStepDraws(st: PreparedState, d: DelayedDrawCall, res: DrawCallResources, transforms: seq<Matrix>)
    requires d.meshToWorld < |transforms|
    ensures Draws(DrawStep(st, d, res, transforms).1) == [DrawIndexed(d.indexCount, d.firstIndex, d.firstVertex)]
  {
    var apply := res.textureSet != st.textureSet || res.constantBuffer != st.constantBuffer;
    var head := [BeginRenderState(res.renderStateSet), WriteLocalTransform(transforms[d.meshToWorld], res.materialBindingGuid)];
    var mid := if apply then [ApplyBoundUniforms(d.renderer, res.textureSet, res.constantBuffer)] else [];
    var tail := [BindTopology(Low8(d.topology)), DrawIndexed(d.indexCount, d.firstIndex, d.firstVertex)];
    DrawsAppend(head + mid, tail);
    DrawsAppend(head, mid);
    assert Draws(head) == [] by {
      assert Draws(head[1..]) == [] by { assert Draws(head[1..][1..]) == []; }
    }
    assert Draws(mid) == [] by {
      if apply {
        assert Draws(mid[1..]) == [];
      }
    }
    assert Draws(tail) == [DrawIndexed(d.indexCount, d.firstIndex, d.firstVertex)] by {
      assert Draws(tail[1..]) == [DrawIndexed(d.indexCount, d.firstIndex, d.firstVertex)] by {
        assert Draws(tail[1..][1..]) == [];
      }
    }
  }

  /** The meshes whose streams are bound for `entries` after `current`: each entry whose mesh
    * differs from the one before it. */
  function MeshChanges(current: Option<(nat, SubMesh)>, entries: seq<DelayedDrawCall>): seq<RenderEvent>
    decreases |entries|
  {
    if |entries| == 0 then []
    else
      var m := (entries[0].renderer, entries[0].subMesh);
      (if current == Some(m) then [] else [BindMeshStreams(m.0, m.1)]) + MeshChanges(Some(m), entries[1..])
  }

  /** A mesh's streams are bound exactly where an entry's mesh differs from the previous
    * entry's, whatever the variations do. */
  lemma {:induction false} PreparedTraceBindsOnMeshChange(
    st: PreparedState, entries: seq<DelayedDrawCall>, renderers: map<nat, PreparedRenderer>,
    transforms: seq<Matrix>, variation: VariationKey -> Option<nat>)
    requires forall d :: d in entries ==> Resolvable(d, renderers, |transforms|)
    ensures MeshBinds(PreparedTrace(st, entries, renderers, transforms, variation)) == MeshChanges(st.currentMesh, entries)
    decreases |entries|
  {
    if |entries| > 0 {
      var d := entries[0];
      assert d in entries;
      var r := renderers[d.renderer];
      var res := r.drawCallRes[d.drawCallIndex];
      var (st1, e1) := MeshStep(st, d, r);
      var (st2, e2) := VariationStep(st1, d, res, variation);
      var (st4, e) := EntryStep(st, d, renderers, transforms, variation);
      assert st4.currentMesh == Some((d.renderer, d.subMesh));
      assert forall x :: x in entries[1..] ==> x in entries;
      PreparedTraceBindsOnMeshChange(st4, entries[1..], renderers, transforms, variation);
      MeshBindsAppend(e, PreparedTrace(st4, entries[1..], renderers, transforms, variation));
      assert MeshBinds(e1) == (if st.currentMesh == Some((d.renderer, d.subMesh)) then [] else [BindMeshStreams(d.renderer, d.subMesh)]) by {
        if |e1| > 0 {
          assert MeshBinds(e1[1..]) == [];
        }
      }
      assert MeshBinds(e2) == [] by {
        if |e2| > 0 {
          assert MeshBinds(e2[1..]) == [];
        }
      }
      MeshBindsAppend(e1, e2);
      if st2.uniforms.Some? {
        var (st3, e3) := DrawStep(st2, d, res, transforms);
        MeshBindsAppend(e1 + e2, e3);
        DrawStepBindsNoMesh(st2, d, res, transforms);
      }
    }
  }

  lemma DrawStepBindsNoMesh(st: PreparedState, d: DelayedDrawCall, res: DrawCallResources, transforms: seq<Matrix>)
    requires d.meshToWorld < |transforms|
    ensures MeshBinds(DrawStep(st, d, res, transforms).1) == []
  {
    var e := DrawStep(st, d, res, transforms).1;
    assert forall k :: 0 <= k < |e| ==> !e[k].BindMeshStreams?;
    NoMeshBinds(e);
  }

  lemma {:induction false} NoMeshBinds(e: seq<RenderEvent>)
    requires forall k :: 0 <= k < |e| ==> !e[k].BindMeshStreams?
    ensures MeshBinds(e) == []
  {
    if |e| > 0 {
      NoMeshBinds(e[1..]);
    }
  }

  /** A run of entries on one mesh binds its streams once. */
  lemma {:induction false} OneMeshBindsOnce(current: Option<(nat, SubMesh)>, entries: seq<DelayedDrawCall>, m: (nat, SubMesh))
    requires |entries| > 0 && current != Some(m)
    requires forall k :: 0 <= k < |entries| ==> (entries[k].renderer, entries[k].subMesh) == m
    ensures MeshChanges(current, entries) == [BindMeshStreams(m.0, m.1)]
  {
    SameMeshNoChange(entries[1..], m);
  }

  lemma {:induction false} SameMeshNoChange(entries: seq<DelayedDrawCall>, m: (nat, SubMesh))
    requires forall k :: 0 <= k < |entries| ==> (entries[k].renderer, entries[k].subMesh) == m
    ensures MeshChanges(Some(m), entries) == []
    decreases |entries|
  {
    if |entries| > 0 {
      SameMeshNoChange(entries[1..], m);
    }
  }

  // ---------------------------------------------------------------------------
  // Variation lookups and uniform applications of a prepared trace

  /** The variation lookups of a trace, in order. */
  function VariationsBegun(events: seq<RenderEvent>): seq<RenderEvent>
  {
    if |events| == 0 then []
    else (if events[0].BeginVariation? then [events[0]] else []) + VariationsBegun(events[1..])
  }

  lemma {:induction false} VariationsBegunAppend(a: seq<RenderEvent>, b: seq<RenderEvent>)
    ensures VariationsBegun(a + b) == VariationsBegun(a) + VariationsBegun(b)
  {
    if |a| == 0 {
      assert a + b == b;
    } else {
      assert (a + b)[0] == a[0];
      assert (a + b)[1..] == a[1..] + b;
      VariationsBegunAppend(a[1..], b);
      AppendAssociative(if a[0].BeginVariation? then [a[0]] else [], VariationsBegun(a[1..]), VariationsBegun(b));
    }
  }

  /** The uniform applications of a trace, in order. */
  function UniformsApplied(events: seq<RenderEvent>): seq<RenderEvent>
  {
    if |events| == 0 then []
    else (if events[0].ApplyBoundUniforms? then [events[0]] else []) + UniformsApplied(events[1..])
  }

  lemma {:induction false} UniformsAppliedAppend(a: seq<RenderEvent>, b: seq<RenderEvent>)
    ensures UniformsApplied(a + b) == UniformsApplied(a) + UniformsApplied(b)
  {
    if |a| == 0 {
      assert a + b == b;
    } else {
      assert (a + b)[0] == a[0];
      assert (a + b)[1..] == a[1..] + b;
      UniformsAppliedAppend(a[1..], b);
      AppendAssociative(if a[0].ApplyBoundUniforms? then [a[0]] else [], UniformsApplied(a[1..]), UniformsApplied(b));
    }
  }

  /** The entry's renderer, draw call and sub-mesh exist, so its variation key is defined. */
  predicate KeyDefined(d: DelayedDrawCall, renderers: map<nat, PreparedRenderer>)
  {
    && d.renderer in renderers
    && d.drawCallIndex < |renderers[d.renderer].drawCallRes|
    && (if d.subMesh.Unskinned? then d.subMesh.index < |renderers[d.renderer].meshInterfaces|
        else d.subMesh.index < |renderers[d.renderer].skinnedInterfaces|)
  }

  /** The resources of the entry's draw call. */
  function EntryResources(d: DelayedDrawCall, renderers: map<nat, PreparedRenderer>): DrawCallResources
    requires KeyDefined(d, renderers)
  {
    renderers[d.renderer].drawCallRes[d.drawCallIndex]
  }

  /** The variation an entry is drawn with: its draw call's shader and parameter boxes, and
    * the technique interface of its own sub-mesh. */
  function EntryKey(d: DelayedDrawCall, renderers: map<nat, PreparedRenderer>): VariationKey
    requires KeyDefined(d, renderers)
  {
    var res := EntryResources(d, renderers);
    VariationKey(res.shaderName, SubMeshInterface(renderers[d.renderer], d.subMesh), res.geoParamBox, res.matParams)
  }

  /** A lookup for each entry whose variation hash differs from the one before it, `hash`
    * standing for the hash before the first entry. */
  function HashChanges(hash: nat, entries: seq<DelayedDrawCall>, renderers: map<nat, PreparedRenderer>): seq<RenderEvent>
    requires forall d :: d in entries ==> KeyDefined(d, renderers)
    decreases |entries|
  {
    if |entries| == 0 then []
    else
      assert entries[0] in entries;
      assert forall d :: d in entries[1..] ==> d in entries;
      (if entries[0].shaderVariationHash == hash then [] else [BeginVariation(EntryKey(entries[0], renderers))])
      + HashChanges(entries[0].shaderVariationHash, entries[1..], renderers)
  }

  /** The tracked technique interface is that of the tracked mesh. */
  predicate InterfaceTracked(st: PreparedState, renderers: map<nat, PreparedRenderer>)
  {
    st.currentMesh.Some? ==>
      var (rn, m) := st.currentMesh.value;
      && rn in renderers
      && (if m.Unskinned? then m.index < |renderers[rn].meshInterfaces| else m.index < |renderers[rn].skinnedInterfaces|)
      && st.techniqueInterface == SubMeshInterface(renderers[rn], m)
  }

  /** Binding a mesh's streams begins no variation. */
  lemma MeshStepBeginsNoVariation(st: PreparedState, d: DelayedDrawCall, r: PreparedRenderer)
    requires if d.subMesh.Unskinned? then d.subMesh.index < |r.meshInterfaces| else d.subMesh.index < |r.skinnedInterfaces|
    ensures VariationsBegun(MeshStep(st, d, r).1) == []
  {
    var e1 := MeshStep(st, d, r).1;
    if |e1| > 0 {
      assert VariationsBegun(e1[1..]) == [];
    }
  }

  /** Every event of the variation step begins a variation. */
  lemma VariationStepBegun(st: PreparedState, d: DelayedDrawCall, res: DrawCallResources, variation: VariationKey -> Option<nat>)
    ensures VariationsBegun(VariationStep(st, d, res, variation).1) == VariationStep(st, d, res, variation).1
  {
    var e2 := VariationStep(st, d, res, variation).1;
    if |e2| > 0 {
      assert VariationsBegun(e2[1..]) == [];
    }
  }

  /** One entry's step looks up the entry's own variation exactly when its hash differs from
    * the tracked one, and leaves the tracker on the entry's mesh and hash. */
  lemma EntryStepVariation(st: PreparedState, d: DelayedDrawCall, renderers: map<nat, PreparedRenderer>,
                           transforms: seq<Matrix>, variation: VariationKey -> Option<nat>)
    requires Resolvable(d, renderers, |transforms|) && InterfaceTracked(st, renderers)
    ensures var (next, e) := EntryStep(st, d, renderers, transforms, variation);
      && VariationsBegun(e) == (if d.shaderVariationHash == st.variationHash then [] else [BeginVariation(EntryKey(d, renderers))])
      && next.variationHash == d.shaderVariationHash
      && InterfaceTracked(next, renderers)
  {
    var r := renderers[d.renderer];
    var res := r.drawCallRes[d.drawCallIndex];
    var (st1, e1) := MeshStep(st, d, r);
    assert st1.techniqueInterface == SubMeshInterface(r, d.subMesh);
    assert InterfaceTracked(st1, renderers);
    var (st2, e2) := VariationStep(st1, d, res, variation);
    MeshStepBeginsNoVariation(st, d, r);
    VariationStepBegun(st1, d, res, variation);
    VariationsBegunAppend(e1, e2);
    assert VariationsBegun(e1 + e2) == e2;
    assert st2.currentMesh == st1.currentMesh && st2.techniqueInterface == st1.techniqueInterface;
    if st2.uniforms.Some? {
      var (st3, e3) := DrawStep(st2, d, res, transforms);
      DrawStepBeginsNoVariation(st2, d, res, transforms);
      VariationsBegunAppend(e1 + e2, e3);
      assert EntryStep(st, d, renderers, transforms, variation) == (st3, e1 + e2 + e3);
    } else {
      assert EntryStep(st, d, renderers, transforms, variation) == (st2, e1 + e2);
    }
  }

  /** Drawing begins no variation and leaves the bound mesh, interface and hash alone. */
  lemma DrawStepBeginsNoVariation(st: PreparedState, d: DelayedDrawCall, res: DrawCallResources, transforms: seq<Matrix>)
    requires d.meshToWorld < |transforms|
    ensures var (next, e) := DrawStep(st, d, res, transforms);
      && VariationsBegun(e) == []
      && next.currentMesh == st.currentMesh && next.techniqueInterface == st.techniqueInterface
      && next.variationHash == st.variationHash
  {
    var e := DrawStep(st, d, res, transforms).1;
    assert forall k :: 0 <= k < |e| ==> !e[k].BeginVariation?;
    NoVariationsBegun(e);
  }

  lemma {:induction false} NoVariationsBegun(e: seq<RenderEvent>)
    requires forall k :: 0 <= k < |e| ==> !e[k].BeginVariation?
    ensures VariationsBegun(e) == []
  {
    if |e| > 0 {
      NoVariationsBegun(e[1..]);
    }
  }

  /** A variation is looked up exactly at each entry whose hash differs from the previous
    * entry's (the tracker's start value before the first), with the entry's own shader,
    * parameter boxes and sub-mesh interface, whether or not the variation has uniforms. */
  lemma {:induction false} PreparedTraceVariationsOnHashChange(
    st: PreparedState, entries: seq<DelayedDrawCall>, renderers: map<nat, PreparedRenderer>,
    transforms: seq<Matrix>, variation: VariationKey -> Option<nat>)
    requires forall d :: d in entries ==> Resolvable(d, renderers, |transforms|)
    requires InterfaceTracked(st, renderers)
    ensures VariationsBegun(PreparedTrace(st, entries, renderers, transforms, variation))
      == HashChanges(st.variationHash, entries, renderers)
    decreases |entries|
  {
    if |entries| > 0 {
      var d := entries[0];
      assert d in entries;
      var (next, e) := EntryStep(st, d, renderers, transforms, variation);
      EntryStepVariation(st, d, renderers, transforms, variation);
      assert forall x :: x in entries[1..] ==> x in entries;
      PreparedTraceVariationsOnHashChange(next, entries[1..], renderers, transforms, variation);
      var rest := PreparedTrace(next, entries[1..], renderers, transforms, variation);
      assert PreparedTrace(st, entries, renderers, transforms, variation) == e + rest;
      VariationsBegunAppend(e, rest);
    }
  }

  /** The uniforms an entry needs are applied exactly when it is the first entry, or when its
    * mesh, variation hash, texture set or constant buffer differs from the previous entry's. */
  function UniformChanges(prev: Option<DelayedDrawCall>, entries: seq<DelayedDrawCall>,
                          renderers: map<nat, PreparedRenderer>): seq<RenderEvent>
    requires prev.Some? ==> KeyDefined(prev.value, renderers)
    requires forall d :: d in entries ==> KeyDefined(d, renderers)
    decreases |entries|
  {
    if |entries| == 0 then []
    else
      var d := entries[0];
      assert d in entries;
      assert forall x :: x in entries[1..] ==> x in entries;
      var res := EntryResources(d, renderers);
      (if UniformsChange(prev, d, renderers) then [ApplyBoundUniforms(d.renderer, res.textureSet, res.constantBuffer)] else [])
      + UniformChanges(Some(d), entries[1..], renderers)
  }

  /** Entry `d` needs its uniforms applied: it is the first entry, or its mesh, variation hash,
    * texture set or constant buffer differs from the previous entry's. */
  predicate UniformsChange(prev: Option<DelayedDrawCall>, d: DelayedDrawCall, renderers: map<nat, PreparedRenderer>)
    requires prev.Some? ==> KeyDefined(prev.value, renderers)
    requires KeyDefined(d, renderers)
  {
    var res := EntryResources(d, renderers);
    || prev.None?
    || (prev.value.renderer, prev.value.subMesh) != (d.renderer, d.subMesh)
    || prev.value.shaderVariationHash != d.shaderVariationHash
    || EntryResources(prev.value, renderers).textureSet != res.textureSet
    || EntryResources(prev.value, renderers).constantBuffer != res.constantBuffer
  }

  /** The tracker after drawing `d`: its mesh, hash, texture set and constant buffer, with
    * uniforms bound. Before the first entry: no mesh, and uniforms once a variation began. */
  predicate TracksPrevious(st: PreparedState, prev: Option<DelayedDrawCall>, renderers: map<nat, PreparedRenderer>)
    requires prev.Some? ==> KeyDefined(prev.value, renderers)
  {
    if prev.None? then st.currentMesh.None? && Started(st)
    else
      && st.currentMesh == Some((prev.value.renderer, prev.value.subMesh))
      && st.variationHash == prev.value.shaderVariationHash
      && st.uniforms.Some?
      && st.textureSet == EntryResources(prev.value, renderers).textureSet
      && st.constantBuffer == EntryResources(prev.value, renderers).constantBuffer
  }

  /** One entry's step applies uniforms exactly as UniformChanges says for it, and leaves the
    * tracker on that entry. */
  lemma EntryStepUniforms(st: PreparedState, prev: Option<DelayedDrawCall>, d: DelayedDrawCall,
                          renderers: map<nat, PreparedRenderer>, transforms: seq<Matrix>,
                          variation: VariationKey -> Option<nat>)
    requires Resolvable(d, renderers, |transforms|)
    requires prev.Some? ==> KeyDefined(prev.value, renderers)
    requires TracksPrevious(st, prev, renderers)
    requires AlwaysBound(variation) && d.shaderVariationHash != 0xFFFF_FFFF
    requires EntryResources(d, renderers).textureSet != NoIndex
    ensures var (next, e) := EntryStep(st, d, renderers, transforms, variation);
      && UniformsApplied(e) == UniformChanges(prev, [d], renderers)
      && TracksPrevious(next, Some(d), renderers)
  {
    var r := renderers[d.renderer];
    var res := r.drawCallRes[d.drawCallIndex];
    var (st1, e1) := MeshStep(st, d, r);
    var (st2, e2) := VariationStep(st1, d, res, variation);
    PreDrawApplyIsChange(st, prev, d, renderers, variation);
    var (st3, e3) := DrawStep(st2, d, res, transforms);
    assert EntryStep(st, d, renderers, transforms, variation) == (st3, e1 + e2 + e3);
    assert forall k :: 0 <= k < |e1| ==> !e1[k].ApplyBoundUniforms?;
    assert forall k :: 0 <= k < |e2| ==> !e2[k].ApplyBoundUniforms?;
    NoUniformsApplied(e1);
    NoUniformsApplied(e2);
    UniformsAppliedAppend(e1, e2);
    UniformsAppliedAppend(e1 + e2, e3);
    DrawStepApplies(st2, d, res, transforms);
    SingleUniformChange(prev, d, renderers);
  }

  /** UniformChanges for a single entry. */
  lemma SingleUniformChange(prev: Option<DelayedDrawCall>, d: DelayedDrawCall, renderers: map<nat, PreparedRenderer>)
    requires prev.Some? ==> KeyDefined(prev.value, renderers)
    requires KeyDefined(d, renderers)
    ensures UniformChanges(prev, [d], renderers)
      == if UniformsChange(prev, d, renderers)
         then [ApplyBoundUniforms(d.renderer, EntryResources(d, renderers).textureSet, EntryResources(d, renderers).constantBuffer)]
         else []
  {
    assert [d][0] == d && [d][1..] == [];
  }

  /** Before its draw part, an entry's step holds uniforms, and the tracked texture set or
    * constant buffer differs from the entry's exactly when the entry's uniforms change. */
  lemma PreDrawApplyIsChange(st: PreparedState, prev: Option<DelayedDrawCall>, d: DelayedDrawCall,
                             renderers: map<nat, PreparedRenderer>, variation: VariationKey -> Option<nat>)
    requires KeyDefined(d, renderers)
    requires prev.Some? ==> KeyDefined(prev.value, renderers)
    requires TracksPrevious(st, prev, renderers)
    requires AlwaysBound(variation) && d.shaderVariationHash != 0xFFFF_FFFF
    requires EntryResources(d, renderers).textureSet != NoIndex
    ensures var r := renderers[d.renderer];
      var res := r.drawCallRes[d.drawCallIndex];
      var st2 := VariationStep(MeshStep(st, d, r).0, d, res, variation).0;
      && st2.uniforms.Some?
      && ((res.textureSet != st2.textureSet || res.constantBuffer != st2.constantBuffer) <==> UniformsChange(prev, d, renderers))
  {
  }

  lemma {:induction false} NoUniformsApplied(e: seq<RenderEvent>)
    requires forall k :: 0 <= k < |e| ==> !e[k].ApplyBoundUniforms?
    ensures UniformsApplied(e) == []
  {
    if |e| > 0 {
      NoUniformsApplied(e[1..]);
    }
  }

  /** The draw part applies the uniforms once when the texture set or constant buffer differs
    * from the tracked one, and not otherwise. */
  lemma DrawStepApplies(st: PreparedState, d: DelayedDrawCall, res: DrawCallResources, transforms: seq<Matrix>)
    requires d.meshToWorld < |transforms|
    ensures UniformsApplied(DrawStep(st, d, res, transforms).1)
      == if res.textureSet != st.textureSet || res.constantBuffer != st.constantBuffer
         then [ApplyBoundUniforms(d.renderer, res.textureSet, res.constantBuffer)] else []
  {
    var apply := res.textureSet != st.textureSet || res.constantBuffer != st.constantBuffer;
    var head := [BeginRenderState(res.renderStateSet), WriteLocalTransform(transforms[d.meshToWorld], res.materialBindingGuid)];
    var mid := if apply then [ApplyBoundUniforms(d.renderer, res.textureSet, res.constantBuffer)] else [];
    var tail := [BindTopology(Low8(d.topology)), DrawIndexed(d.indexCount, d.firstIndex, d.firstVertex)];
    UniformsAppliedAppend(head + mid, tail);
    UniformsAppliedAppend(head, mid);
    NoUniformsApplied(head);
    NoUniformsApplied(tail);
    assert UniformsApplied(mid) == mid by {
      if apply {
        assert UniformsApplied(mid[1..]) == [];
      }
    }
  }

  /** When every variation has uniforms, no entry carries the tracker's start value as its
    * hash and every texture set is a real index, uniforms are applied exactly at the first
    * entry and at each entry whose mesh, variation, texture set or constant buffer differs
    * from the previous entry's. */
  lemma {:induction false} PreparedTraceAppliesUniformsOnChange(
    st: PreparedState, prev: Option<DelayedDrawCall>, entries: seq<DelayedDrawCall>,
    renderers: map<nat, PreparedRenderer>, transforms: seq<Matrix>, variation: VariationKey -> Option<nat>)
    requires forall d :: d in entries ==> Resolvable(d, renderers, |transforms|)
    requires prev.Some? ==> KeyDefined(prev.value, renderers)
    requires TracksPrevious(st, prev, renderers)
    requires AlwaysBound(variation)
    requires forall d :: d in entries ==> d.shaderVariationHash != 0xFFFF_FFFF
    requires forall d :: d in entries ==> KeyDefined(d, renderers) && EntryResources(d, renderers).textureSet != NoIndex
    ensures UniformsApplied(PreparedTrace(st, entries, renderers, transforms, variation))
      == UniformChanges(prev, entries, renderers)
    decreases |entries|
  {
    if |entries| > 0 {
      var d := entries[0];
      assert d in entries;
      var (next, e) := EntryStep(st, d, renderers, transforms, variation);
      EntryStepUniforms(st, prev, d, renderers, transforms, variation);
      UniformTailRequires(entries, renderers, transforms);
      PreparedTraceAppliesUniformsOnChange(next, Some(d), entries[1..], renderers, transforms, variation);
      var rest := PreparedTrace(next, entries[1..], renderers, transforms, variation);
      assert PreparedTrace(st, entries, renderers, transforms, variation) == e + rest;
      UniformsAppliedAppend(e, rest);
      UniformChangesUnfold(prev, entries, renderers);
    }
  }

  /** The uniform lemma's requirements on the entries carry over to their tail. */
  lemma UniformTailRequires(entries: seq<DelayedDrawCall>, renderers: map<nat, PreparedRenderer>, transforms: seq<Matrix>)
    requires |entries| > 0
    requires forall d :: d in entries ==> Resolvable(d, renderers, |transforms|)
    requires forall d :: d in entries ==> d.shaderVariationHash != 0xFFFF_FFFF
    requires forall d :: d in entries ==> KeyDefined(d, renderers) && EntryResources(d, renderers).textureSet != NoIndex
    ensures forall d :: d in entries[1..] ==> Resolvable(d, renderers, |transforms|)
    ensures forall d :: d in entries[1..] ==> d.shaderVariationHash != 0xFFFF_FFFF
    ensures forall d :: d in entries[1..] ==> KeyDefined(d, renderers) && EntryResources(d, renderers).textureSet != NoIndex
  {
    assert forall x :: x in entries[1..] ==> x in entries;
  }

  /** The uniform changes of a run of entries: those of its first entry, then those of the rest. */
  lemma UniformChangesUnfold(prev: Option<DelayedDrawCall>, entries: seq<DelayedDrawCall>, renderers: map<nat, PreparedRenderer>)
    requires |entries| > 0
    requires prev.Some? ==> KeyDefined(prev.value, renderers)
    requires forall d :: d in entries ==> KeyDefined(d, renderers)
    ensures entries[0] in entries && forall x :: x in entries[1..] ==> x in entries
    ensures UniformChanges(prev, entries, renderers)
      == UniformChanges(prev, [entries[0]], renderers) + UniformChanges(Some(entries[0]), entries[1..], renderers)
  {
    assert entries[0] in entries;
    assert forall x :: x in entries[1..] ==> x in entries;
    SingleUniformChange(prev, entries[0], renderers);
  }

  datatype RenderError = WrongRendererType

  /** RenderPreparedInternal: refuses a set filled by another type of renderer; otherwise
    * sorts the entries of the delay step in place and draws them. */
  method RenderPreparedInternal(
    drawCalls: DelayedDrawCallSet, delayStep: DelayStep, modelRendererType: nat,
    renderers: map<nat, PreparedRenderer>, variation: VariationKey -> Option<nat>)
    returns (r: Result<seq<RenderEvent>, RenderError>)
    requires forall d :: d in drawCalls.Entries(delayStep) ==> Resolvable(d, renderers, |drawCalls.transforms|)
    modifies drawCalls
    ensures drawCalls.rendererType != modelRendererType ==>
      r == Err(WrongRendererType) && drawCalls.Entries(delayStep) == old(drawCalls.Entries(delayStep))
    ensures drawCalls.rendererType == modelRendererType ==>
      && drawCalls.Entries(delayStep) == SortEntries(old(drawCalls.Entries(delayStep)))
      && (forall d :: d in drawCalls.Entries(delayStep) ==> Resolvable(d, renderers, |drawCalls.transforms|))
      && r == Ok(PreparedTrace(InitialPreparedState, drawCalls.Entries(delayStep), renderers, drawCalls.transforms, variation))
    ensures forall other :: other != delayStep ==> drawCalls.Entries(other) == old(drawCalls.Entries(other))
    ensures drawCalls.transforms == old(drawCalls.transforms)
  {
    if drawCalls.rendererType != modelRendererType {
      return Err(WrongRendererType);
    }
    if |drawCalls.Entries(delayStep)| == 0 {
      return Ok([]);
    }
    ghost var before := drawCalls.Entries(delayStep);
    drawCalls.Sort(delayStep);
    SortKeepsResolvable(before, renderers, |drawCalls.transforms|);
    var events := DrawEntries(drawCalls.Entries(delayStep), renderers, drawCalls.transforms, variation);
    return Ok(events);
  }

  lemma SortKeepsResolvable(entries: seq<DelayedDrawCall>, renderers: map<nat, PreparedRenderer>, transformCount: nat)
    requires forall d :: d in entries ==> Resolvable(d, renderers, transformCount)
    ensures forall d :: d in SortEntries(entries) ==> Resolvable(d, renderers, transformCount)
  {
    SortEntriesCorrect(entries);
    forall d | d in SortEntries(entries)
      ensures Resolvable(d, renderers, transformCount)
    {
      assert d in multiset(SortEntries(entries));
      assert d in multiset(entries);
    }
  }

  /** RenderPreparedInternal's loop over the sorted entries. */
  method DrawEntries(entries: seq<DelayedDrawCall>, renderers: map<nat, PreparedRenderer>,
                     transforms: seq<Matrix>, variation: VariationKey -> Option<nat>)
    returns (events: seq<RenderEvent>)
    requires forall d :: d in entries ==> Resolvable(d, renderers, |transforms|)
    ensures events == PreparedTrace(InitialPreparedState, entries, renderers, transforms, variation)
  {
    var st := InitialPreparedState;
    events := [];
    var i := 0;
    while i < |entries|
      invariant i <= |entries|
      invariant forall d :: d in entries[i..] ==> d in entries
      invariant events + PreparedTrace(st, entries[i..], renderers, transforms, variation)
        == PreparedTrace(InitialPreparedState, entries, renderers, transforms, variation)
    {
      assert entries[i] in entries;
      assert entries[i..][1..] == entries[i + 1..];
      assert forall d :: d in entries[i + 1..] ==> d in entries[i..];
      var next, e := DrawEntry(st, entries[i], renderers, transforms, variation);
      ghost var rest := PreparedTrace(next, entries[i + 1..], renderers, transforms, variation);
      assert PreparedTrace(st, entries[i..], renderers, transforms, variation) == e + rest;
      AppendAssociative(events, e, rest);
      st, events := next, events + e;
      i := i + 1;
    }
  }

  /** The body of RenderPreparedInternal's loop for one entry. */
  method DrawEntry(st: PreparedState, d: DelayedDrawCall, renderers: map<nat, PreparedRenderer>,
                   transforms: seq<Matrix>, variation: VariationKey -> Option<nat>)
    returns (next: PreparedState, events: seq<RenderEvent>)
    requires Resolvable(d, renderers, |transforms|)
    ensures (next, events) == EntryStep(st, d, renderers, transforms, variation)
  {
    var r := renderers[d.renderer];
    var res := r.drawCallRes[d.drawCallIndex];
    next, events := st, [];
    if st.currentMesh != Some((d.renderer, d.subMesh)) {
      events := [BindMeshStreams(d.renderer, d.subMesh)];
      next := st.(currentMesh := Some((d.renderer, d.subMesh)), techniqueInterface := SubMeshInterface(r, d.subMesh),
                  textureSet := NoIndex);
      assert next == MeshStep(st, d, r).0;
      assert events == MeshStep(st, d, r).1;
    }
    assert (next, events) == MeshStep(st, d, r);
    ghost var (st1, e1) := (next, events);
    ghost var (st2, e2) := VariationStep(st1, d, res, variation);
    if next.variationHash != d.shaderVariationHash {
      var key := VariationKey(res.shaderName, next.techniqueInterface, res.geoParamBox, res.matParams);
      events := events + [BeginVariation(key)];
      next := next.(uniforms := variation(key), variationHash := d.shaderVariationHash, textureSet := NoIndex);
    } else {
      assert e2 == [] && events == e1 + e2;
    }
    assert next == st2 && events == e1 + e2;
    if next.uniforms.None? {
      return;
    }
    ghost var (st3, e3) := DrawStep(st2, d, res, transforms);
    events := events + [BeginRenderState(res.renderStateSet), WriteLocalTransform(transforms[d.meshToWorld], res.materialBindingGuid)];
    if res.textureSet != next.textureSet || res.constantBuffer != next.constantBuffer {
      events := events + [ApplyBoundUniforms(d.renderer, res.textureSet, res.constantBuffer)];
      next := next.(textureSet := res.textureSet, constantBuffer := res.constantBuffer);
    }
    events := events + [BindTopology(Low8(d.topology)), DrawIndexed(d.indexCount, d.firstIndex, d.firstVertex)];
    assert next == st3 && events == e1 + e2 + e3;
  }
}
