/**
 * The model renderer's construction (RenderCore/Assets/ModelRunTime.cpp, the ModelRenderer
 * constructor): each geometry used at the level of detail becomes one mesh, and each draw
 * call with indices and a known material becomes a stored draw call with its resources.
 *
 * The skinned meshes' animation bindings (BuildAnimBinding) are not part of this model, nor
 * are the reads of the buffers' bytes from the files, the creation of the GPU buffers and the
 * registration of dependencies.
 */
module ModelRenderers {
  import opened Wrappers
  import opened ModelData
  import opened SharedStates
  import opened ModelConstruction
  import opened GeoBuffers
  import UITypesBinding

  /** A stored draw call: the index of its geo call (among the unskinned or among the
    * skinned calls) and the draw call itself. */
  datatype MeshAndDrawCall = MeshAndDrawCall(geoCallIndex: nat, drawCall: DrawCall)

  /** What the renderer needs to draw one stored draw call. */
  datatype DrawCallResources = DrawCallResources(
    shaderName: nat,
    geoParamBox: nat,
    matParams: nat,
    textureSet: nat,
    constantBuffer: nat,
    renderStateSet: nat,
    delayStep: DelayStep,
    materialBindingGuid: MaterialGuid)

  // ---------------------------------------------------------------------------
  // Which draw calls are stored

  /** The geo call `gi` among the unskinned or the skinned calls. */
  function CallOf(s: ModelScaffoldData, skinned: bool, gi: nat): GeoCall
    requires gi < CallsOf(s, skinned)
  {
    if skinned then s.skinCalls[gi] else s.geoCalls[gi]
  }

  function CallsOf(s: ModelScaffoldData, skinned: bool): nat
  {
    if skinned then |s.skinCalls| else |s.geoCalls|
  }

  /** The index GetGeoCall uses for that call: skinned calls come after the unskinned ones. */
  function GlobalIndex(s: ModelScaffoldData, skinned: bool, gi: nat): (r: nat)
    requires gi < CallsOf(s, skinned)
    ensures r < CallCount(s) && GetGeoCall(s, r) == CallOf(s, skinned, gi)
  {
    if skinned then |s.geoCalls| + gi else gi
  }

  /** The draw calls of the geometry of call `gi`. */
  function DrawCallsOf(s: ModelScaffoldData, skinned: bool, gi: nat): seq<DrawCall>
    requires WellFormed(s) && gi < CallsOf(s, skinned)
  {
    GetGeo(s, GlobalIndex(s, skinned, gi)).drawCalls
  }

  /** The material guid of a draw call of a geo call: the guid at its sub-material index, or
    * the sentinel. */
  function DrawCallGuid(call: GeoCall, d: DrawCall): MaterialGuid
  {
    if d.subMaterialIndex < |call.materialGuids| then call.materialGuids[d.subMaterialIndex] else NoMaterial
  }

  lemma DrawCallGuidIsScaffoldMaterialIndex(s: ModelScaffoldData, skinned: bool, gi: nat, di: nat)
    requires WellFormed(s) && gi < CallsOf(s, skinned) && di < |DrawCallsOf(s, skinned, gi)|
    ensures DrawCallGuid(CallOf(s, skinned, gi), DrawCallsOf(s, skinned, gi)[di]) ==
      ScaffoldMaterialIndex(s, GlobalIndex(s, skinned, gi), di)
  {
  }

  /** A draw call is stored when it has indices and its material is in the table. */
  predicate Stored(mats: MaterialResources, call: GeoCall, d: DrawCall)
  {
    d.indexCount != 0 && DrawCallGuid(call, d) in Guids(mats)
  }

  /** The stored draw calls among `ds`, in order, under call index `gi`. */
  function StoredOf(mats: MaterialResources, call: GeoCall, ds: seq<DrawCall>, gi: nat): seq<MeshAndDrawCall>
  {
    if |ds| == 0 then []
    else
      StoredOf(mats, call, ds[..|ds| - 1], gi)
      + (if Stored(mats, call, ds[|ds| - 1]) then [MeshAndDrawCall(gi, ds[|ds| - 1])] else [])
  }

  /** The draw calls the renderer stores for the first `n` unskinned or skinned calls. */
  function StoredDrawCalls(s: ModelScaffoldData, mats: MaterialResources, lod: nat, skinned: bool, n: nat): seq<MeshAndDrawCall>
    requires WellFormed(s) && n <= CallsOf(s, skinned)
  {
    if n == 0 then []
    else
      StoredDrawCalls(s, mats, lod, skinned, n - 1)
      + (if CallOf(s, skinned, n - 1).levelOfDetail == lod
         then StoredOf(mats, CallOf(s, skinned, n - 1), DrawCallsOf(s, skinned, n - 1), n - 1)
         else [])
  }

  /** The stored draw calls are exactly the ones with indices and a known material, each
    * under its own call's index. */
  lemma {:induction false} StoredOfMeaning(mats: MaterialResources, call: GeoCall, ds: seq<DrawCall>, gi: nat, x: MeshAndDrawCall)
    ensures x in StoredOf(mats, call, ds, gi) <==> x.geoCallIndex == gi && x.drawCall in ds && Stored(mats, call, x.drawCall)
  {
    if |ds| > 0 {
      StoredOfMeaning(mats, call, ds[..|ds| - 1], gi, x);
      if x.drawCall in ds && x.drawCall != ds[|ds| - 1] {
        var i :| 0 <= i < |ds| && ds[i] == x.drawCall;
        assert ds[..|ds| - 1][i] == x.drawCall;
      }
    }
  }

  /** AtLeastOneValidDrawCall: whether any draw call of the geometry would be stored. */
  method AtLeastOneValidDrawCall(mats: MaterialResources, call: GeoCall, ds: seq<DrawCall>) returns (r: bool)
    requires StrictlySorted(Guids(mats))
    ensures r <==> exists d :: d in ds && Stored(mats, call, d)
  {
    var di := 0;
    while di < |ds|
      invariant di <= |ds|
      invariant forall k :: 0 <= k < di ==> !Stored(mats, call, ds[k])
    {
      if ds[di].indexCount != 0 {
        var found := FindMaterial(mats, DrawCallGuid(call, ds[di]));
        if found.Some? {
          assert ds[di] in ds && Stored(mats, call, ds[di]);
          return true;
        }
      }
      di := di + 1;
    }
    return false;
  }

  /** A geometry without a valid draw call contributes no stored draw call, so skipping it
    * changes nothing but the mesh it would have built. */
  lemma NoValidDrawCallStoresNothing(mats: MaterialResources, call: GeoCall, ds: seq<DrawCall>, gi: nat)
    requires !exists d :: d in ds && Stored(mats, call, d)
    ensures StoredOf(mats, call, ds, gi) == []
  {
    if StoredOf(mats, call, ds, gi) != [] {
      var x := StoredOf(mats, call, ds, gi)[0];
      StoredOfMeaning(mats, call, ds, gi, x);
    }
  }

  /** The lookup of a guid in the sorted material table. */
  method FindMaterial(mats: MaterialResources, g: MaterialGuid) returns (r: Option<nat>)
    requires StrictlySorted(Guids(mats))
    ensures r.Some? <==> g in Guids(mats)
    ensures r.Some? ==> r.value == IndexOf(Guids(mats), g) && r.value < |mats| && mats[r.value].0 == g
  {
    var guids := Guids(mats);
    var i := LowerBound(guids, g);
    if i < |guids| && guids[i] == g {
      IndexOfFirst(guids, g, i);
      return Some(i);
    }
    assert g !in guids by {
      forall k | 0 <= k < |guids|
        ensures guids[k] != g
      {
        if k > i {
          assert guids[i] < guids[k];
        }
      }
    }
    return None;
  }

  /** When the material table holds every guid of the level of detail, as BuildMaterialResources
    * makes it, the missing-material skip never fires for a draw call of that level: a draw call
    * is stored exactly when it has indices. */
  lemma EveryLodDrawCallHasMaterial(s: ModelScaffoldData, mats: MaterialResources, lod: nat, skinned: bool, gi: nat, di: nat)
    requires WellFormed(s) && gi < CallsOf(s, skinned) && di < |DrawCallsOf(s, skinned, gi)|
    requires forall g :: g in Guids(mats) <==> g in LodMaterials(s, lod, CallCount(s))
    requires CallOf(s, skinned, gi).levelOfDetail == lod
    ensures DrawCallGuid(CallOf(s, skinned, gi), DrawCallsOf(s, skinned, gi)[di]) in Guids(mats)
    ensures Stored(mats, CallOf(s, skinned, gi), DrawCallsOf(s, skinned, gi)[di]) <==> DrawCallsOf(s, skinned, gi)[di].indexCount != 0
  {
    LodMaterialsContainDrawCall(s, lod, CallCount(s), GlobalIndex(s, skinned, gi), di);
  }

  /** For the same reason AtLeastOneValidDrawCall reduces to: some draw call has indices. */
  lemma ValidDrawCallMeansIndices(s: ModelScaffoldData, mats: MaterialResources, lod: nat, skinned: bool, gi: nat)
    requires WellFormed(s) && gi < CallsOf(s, skinned)
    requires forall g :: g in Guids(mats) <==> g in LodMaterials(s, lod, CallCount(s))
    requires CallOf(s, skinned, gi).levelOfDetail == lod
    ensures (exists d :: d in DrawCallsOf(s, skinned, gi) && Stored(mats, CallOf(s, skinned, gi), d)) <==>
      (exists d :: d in DrawCallsOf(s, skinned, gi) && d.indexCount != 0)
  {
    var ds := DrawCallsOf(s, skinned, gi);
    if exists d :: d in ds && d.indexCount != 0 {
      var d :| d in ds && d.indexCount != 0;
      var di :| 0 <= di < |ds| && ds[di] == d;
      EveryLodDrawCallHasMaterial(s, mats, lod, skinned, gi, di);
    }
  }

  // ---------------------------------------------------------------------------
  // Draw call resources

  /** The resources of a draw call with material `g`, which the table holds, drawn with the
    * mesh's geometry parameter box. */
  function ResourcesOf(mats: MaterialResources, geoParamBox: nat, g: MaterialGuid): DrawCallResources
    requires g in Guids(mats)
  {
    var r := mats[IndexOf(Guids(mats), g)].1;
    DrawCallResources(r.shaderName, geoParamBox, r.matParams, r.texturesIndex, r.constantBuffer,
                      r.renderStateSet, r.delayStep, g)
  }

  /** The draw calls of geo call `gi` that are stored, with their resources, in draw-call order. */
  method EmitDrawCalls(s: ModelScaffoldData, mats: MaterialResources, skinned: bool, gi: nat, geoParamBox: nat)
    returns (emitted: seq<MeshAndDrawCall>, emittedRes: seq<DrawCallResources>)
    requires WellFormed(s) && gi < CallsOf(s, skinned) && StrictlySorted(Guids(mats))
    ensures emitted == StoredOf(mats, CallOf(s, skinned, gi), DrawCallsOf(s, skinned, gi), gi)
    ensures |emittedRes| == |emitted|
    ensures forall k :: 0 <= k < |emitted| ==>
      DrawCallGuid(CallOf(s, skinned, gi), emitted[k].drawCall) in Guids(mats)
      && emittedRes[k] == ResourcesOf(mats, geoParamBox, DrawCallGuid(CallOf(s, skinned, gi), emitted[k].drawCall))
  {
    var call := CallOf(s, skinned, gi);
    var geoCallIndex := GlobalIndex(s, skinned, gi);
    var ds := GetGeo(s, geoCallIndex).drawCalls;
    emitted, emittedRes := [], [];
    var di := 0;
    while di < |ds|
      invariant di <= |ds|
      invariant emitted == StoredOf(mats, call, ds[..di], gi)
      invariant |emittedRes| == |emitted|
      invariant forall k :: 0 <= k < |emitted| ==>
        DrawCallGuid(call, emitted[k].drawCall) in Guids(mats)
        && emittedRes[k] == ResourcesOf(mats, geoParamBox, DrawCallGuid(call, emitted[k].drawCall))
    {
      var d := ds[di];
      assert ds[..di + 1][..di] == ds[..di];
      if d.indexCount != 0 {
        var g := ScaffoldMaterialIndex(s, geoCallIndex, di);
        DrawCallGuidIsScaffoldMaterialIndex(s, skinned, gi, di);
        var found := FindMaterial(mats, g);
        if found.Some? {
          var r := mats[found.value].1;
          emittedRes := emittedRes + [DrawCallResources(r.shaderName, geoParamBox, r.matParams, r.texturesIndex,
                                                        r.constantBuffer, r.renderStateSet, r.delayStep, g)];
          emitted := emitted + [MeshAndDrawCall(gi, d)];
        }
      }
      di := di + 1;
    }
    assert ds[..di] == ds;
  }

  /** The resources of a stored draw call name its material's shader, parameters, texture set,
    * constant buffer, render states and pass, and the geometry parameter box of its mesh. */
  lemma ResourcesMeaning(
    mats: MaterialResources, ms: MaterialScaffold, cbSize: nat, defaults: UITypesBinding.StateSet,
    cbs: seq<seq<ScaffoldChunks.byte>>, shaderNames: seq<string>, parameterBoxes: seq<ParameterBox>,
    renderStateSets: seq<UITypesBinding.StateSet>, geoParamBox: nat, g: MaterialGuid)
    requires g in Guids(mats)
    requires forall i :: 0 <= i < |mats| ==>
      EntryMeaning(mats, i, ms, cbSize, defaults, cbs, shaderNames, parameterBoxes, renderStateSets)
    ensures var r := ResourcesOf(mats, geoParamBox, g);
      && r.materialBindingGuid == g && r.geoParamBox == geoParamBox
      && r.textureSet == IndexOf(Guids(mats), g) && mats[r.textureSet].0 == g
      && r.shaderName < |shaderNames| && shaderNames[r.shaderName] == DefaultShader
      && r.matParams < |parameterBoxes| && parameterBoxes[r.matParams] == MaterialParamBox(GetMaterial(ms, g))
      && r.constantBuffer < |cbs| && cbs[r.constantBuffer] == ConstantData(ms, g, cbSize)
      && r.renderStateSet < |renderStateSets|
      && renderStateSets[r.renderStateSet] == MaterialStateSet(GetMaterial(ms, g), defaults)
      && r.delayStep == DelayStepOf(MaterialStateSet(GetMaterial(ms, g), defaults))
  {
    var i := IndexOf(Guids(mats), g);
    assert EntryMeaning(mats, i, ms, cbSize, defaults, cbs, shaderNames, parameterBoxes, renderStateSets);
  }

  // ---------------------------------------------------------------------------
  // Meshes

  function MeshIds(meshes: seq<Mesh>): (r: seq<nat>)
    ensures |r| == |meshes| && forall i :: 0 <= i < |meshes| ==> r[i] == meshes[i].id
  {
    seq(|meshes|, i requires 0 <= i < |meshes| => meshes[i].id)
  }

  /** Some draw call among `ds` is stored. */
  predicate AnyStored(mats: MaterialResources, call: GeoCall, ds: seq<DrawCall>)
  {
    exists d :: d in ds && Stored(mats, call, d)
  }

  /** Geo call `gi` is at the level of detail, draws geometry `id` and has a stored draw call. */
  predicate CallWants(s: ModelScaffoldData, mats: MaterialResources, lod: nat, skinned: bool, gi: nat, id: nat)
    requires WellFormed(s) && gi < CallsOf(s, skinned)
  {
    && CallOf(s, skinned, gi).geoId == id
    && CallOf(s, skinned, gi).levelOfDetail == lod
    && AnyStored(mats, CallOf(s, skinned, gi), DrawCallsOf(s, skinned, gi))
  }

  /** Some of the first `n` geo calls wants geometry `id`. */
  predicate MeshWanted(s: ModelScaffoldData, mats: MaterialResources, lod: nat, skinned: bool, n: nat, id: nat)
    requires WellFormed(s) && n <= CallsOf(s, skinned)
  {
    exists gi: nat :: gi < n && CallWants(s, mats, lod, skinned, gi, id)
  }

  /** A stored draw call's resources: those of its material, with the geometry parameter box
    * of the mesh of its geometry. */
  predicate ResourcesMatch(s: ModelScaffoldData, mats: MaterialResources, skinned: bool, meshes: seq<Mesh>,
                           dc: MeshAndDrawCall, r: DrawCallResources)
  {
    && dc.geoCallIndex < CallsOf(s, skinned)
    && var call := CallOf(s, skinned, dc.geoCallIndex);
    && call.geoId in MeshIds(meshes)
    && DrawCallGuid(call, dc.drawCall) in Guids(mats)
    && r == ResourcesOf(mats, meshes[IndexOf(MeshIds(meshes), call.geoId)].geoParamBox, DrawCallGuid(call, dc.drawCall))
  }

  /** Every geometry has at most MaxVertexStreams - 1 supplement streams, as the mesh's fixed
    * stream arrays require. */
  ghost predicate SupplementsFit(supplements: seq<SupplementScaffold>)
  {
    forall id :: |SupplementStreams(supplements, id)| <= MaxVertexStreams - 1
  }

  /** An unskinned mesh: its geometry parameter box and technique interface are those of its
    * geometry's layout with its supplements. */
  predicate MeshBuilt(s: ModelScaffoldData, supplements: seq<SupplementScaffold>, parameterBoxes: seq<ParameterBox>,
                      techniqueInterfaces: seq<TechniqueInterfaceDesc>, tbp: seq<nat>, mesh: Mesh)
  {
    && mesh.id < |s.geos|
    && var layout := MeshLayout(s.geos[mesh.id], SupplementStreams(supplements, mesh.id));
    && mesh.geoParamBox < |parameterBoxes| && parameterBoxes[mesh.geoParamBox] == GeoParamBox(layout, false)
    && mesh.techniqueInterface < |techniqueInterfaces|
    && techniqueInterfaces[mesh.techniqueInterface] == TechniqueInterfaceDesc(layout, tbp)
  }

  /** The FindIf over the meshes by geometry id. */
  method FindMesh(ids: seq<nat>, id: nat) returns (r: Option<nat>)
    ensures r.Some? <==> id in ids
    ensures r.Some? ==> r.value == IndexOf(ids, id)
  {
    var i := 0;
    while i < |ids|
      invariant i <= |ids| && forall k :: 0 <= k < i ==> ids[k] != id
    {
      if ids[i] == id {
        IndexOfFirst(ids, id, i);
        return Some(i);
      }
      i := i + 1;
    }
    return None;
  }

  /** The stored draw calls and their resources agree, position by position. */
  predicate Emitted(s: ModelScaffoldData, mats: MaterialResources, skinned: bool, meshes: seq<Mesh>,
                    drawCalls: seq<MeshAndDrawCall>, drawCallRes: seq<DrawCallResources>)
  {
    && |drawCallRes| == |drawCalls|
    && forall k :: 0 <= k < |drawCalls| ==> ResourcesMatch(s, mats, skinned, meshes, drawCalls[k], drawCallRes[k])
  }

  /** One mesh per geometry some of the first `n` geo calls wants, and no other. */
  ghost predicate MeshSet(s: ModelScaffoldData, mats: MaterialResources, lod: nat, skinned: bool, n: nat, meshes: seq<Mesh>)
    requires WellFormed(s) && n <= CallsOf(s, skinned)
  {
    && NoDuplicates(MeshIds(meshes))
    && forall id :: id in MeshIds(meshes) <==> MeshWanted(s, mats, lod, skinned, n, id)
  }

  lemma MeshWantedStep(s: ModelScaffoldData, mats: MaterialResources, lod: nat, skinned: bool, gi: nat, id: nat)
    requires WellFormed(s) && gi < CallsOf(s, skinned)
    ensures MeshWanted(s, mats, lod, skinned, gi + 1, id) <==>
      MeshWanted(s, mats, lod, skinned, gi, id) || CallWants(s, mats, lod, skinned, gi, id)
  {
    if MeshWanted(s, mats, lod, skinned, gi + 1, id) && !CallWants(s, mats, lod, skinned, gi, id) {
      var g: nat :| g < gi + 1 && CallWants(s, mats, lod, skinned, g, id);
      assert g < gi;
    }
  }

  /** A geo call that wants nothing leaves the mesh set as it is. */
  lemma MeshSetSkip(s: ModelScaffoldData, mats: MaterialResources, lod: nat, skinned: bool, gi: nat, meshes: seq<Mesh>)
    requires WellFormed(s) && gi < CallsOf(s, skinned) && MeshSet(s, mats, lod, skinned, gi, meshes)
    requires CallOf(s, skinned, gi).levelOfDetail != lod || !AnyStored(mats, CallOf(s, skinned, gi), DrawCallsOf(s, skinned, gi))
    ensures MeshSet(s, mats, lod, skinned, gi + 1, meshes)
  {
    forall id
      ensures id in MeshIds(meshes) <==> MeshWanted(s, mats, lod, skinned, gi + 1, id)
    {
      MeshWantedStep(s, mats, lod, skinned, gi, id);
    }
  }

  /** A geo call that wants its geometry: the mesh set gains that geometry's mesh when it did not
    * have one. */
  lemma MeshSetUse(s: ModelScaffoldData, mats: MaterialResources, lod: nat, skinned: bool, gi: nat,
                   meshes: seq<Mesh>, newMeshes: seq<Mesh>)
    requires WellFormed(s) && gi < CallsOf(s, skinned) && MeshSet(s, mats, lod, skinned, gi, meshes)
    requires CallOf(s, skinned, gi).levelOfDetail == lod && AnyStored(mats, CallOf(s, skinned, gi), DrawCallsOf(s, skinned, gi))
    requires CallOf(s, skinned, gi).geoId in MeshIds(meshes) ==> newMeshes == meshes
    requires CallOf(s, skinned, gi).geoId !in MeshIds(meshes) ==>
      |newMeshes| == |meshes| + 1 && newMeshes[..|meshes|] == meshes && newMeshes[|meshes|].id == CallOf(s, skinned, gi).geoId
    ensures MeshSet(s, mats, lod, skinned, gi + 1, newMeshes)
    ensures MeshIds(meshes) <= MeshIds(newMeshes)
  {
    var id0 := CallOf(s, skinned, gi).geoId;
    assert CallWants(s, mats, lod, skinned, gi, id0);
    if id0 !in MeshIds(meshes) {
      assert MeshIds(newMeshes) == MeshIds(meshes) + [id0];
    }
    forall id
      ensures id in MeshIds(newMeshes) <==> MeshWanted(s, mats, lod, skinned, gi + 1, id)
    {
      MeshWantedStep(s, mats, lod, skinned, gi, id);
      if id == id0 {
        assert CallWants(s, mats, lod, skinned, gi, id);
      } else {
        assert !CallWants(s, mats, lod, skinned, gi, id);
      }
    }
  }

  /** Adding a mesh keeps the resources of the stored draw calls. */
  lemma EmittedMoreMeshes(s: ModelScaffoldData, mats: MaterialResources, skinned: bool, meshes: seq<Mesh>,
                          newMeshes: seq<Mesh>, drawCalls: seq<MeshAndDrawCall>, drawCallRes: seq<DrawCallResources>)
    requires Emitted(s, mats, skinned, meshes, drawCalls, drawCallRes) && meshes <= newMeshes
    ensures Emitted(s, mats, skinned, newMeshes, drawCalls, drawCallRes)
  {
    var extra := newMeshes[|meshes|..];
    assert newMeshes == meshes + extra;
    assert MeshIds(newMeshes) == MeshIds(meshes) + MeshIds(extra);
    forall k | 0 <= k < |drawCalls|
      ensures ResourcesMatch(s, mats, skinned, newMeshes, drawCalls[k], drawCallRes[k])
    {
      var call := CallOf(s, skinned, drawCalls[k].geoCallIndex);
      assert ResourcesMatch(s, mats, skinned, meshes, drawCalls[k], drawCallRes[k]);
      IndexOfAppend(MeshIds(meshes), MeshIds(extra), call.geoId);
    }
  }

  /** The draw calls of geo call `gi`, stored with the mesh of its geometry, keep the resources
    * in step. */
  lemma EmittedAppend(s: ModelScaffoldData, mats: MaterialResources, skinned: bool, meshes: seq<Mesh>, gi: nat,
                      drawCalls: seq<MeshAndDrawCall>, drawCallRes: seq<DrawCallResources>,
                      emitted: seq<MeshAndDrawCall>, emittedRes: seq<DrawCallResources>)
    requires WellFormed(s) && gi < CallsOf(s, skinned) && Emitted(s, mats, skinned, meshes, drawCalls, drawCallRes)
    requires CallOf(s, skinned, gi).geoId in MeshIds(meshes)
    requires emitted == StoredOf(mats, CallOf(s, skinned, gi), DrawCallsOf(s, skinned, gi), gi)
    requires |emittedRes| == |emitted|
    requires forall k :: 0 <= k < |emitted| ==>
      DrawCallGuid(CallOf(s, skinned, gi), emitted[k].drawCall) in Guids(mats)
      && emittedRes[k] == ResourcesOf(mats, meshes[IndexOf(MeshIds(meshes), CallOf(s, skinned, gi).geoId)].geoParamBox,
                                      DrawCallGuid(CallOf(s, skinned, gi), emitted[k].drawCall))
    ensures Emitted(s, mats, skinned, meshes, drawCalls + emitted, drawCallRes + emittedRes)
  {
    forall k | 0 <= k < |emitted|
      ensures ResourcesMatch(s, mats, skinned, meshes, emitted[k], emittedRes[k])
    {
      StoredOfMeaning(mats, CallOf(s, skinned, gi), DrawCallsOf(s, skinned, gi), gi, emitted[k]);
    }
    var all, allRes := drawCalls + emitted, drawCallRes + emittedRes;
    forall k | 0 <= k < |all|
      ensures ResourcesMatch(s, mats, skinned, meshes, all[k], allRes[k])
    {
      if k >= |drawCalls| {
        assert all[k] == emitted[k - |drawCalls|] && allRes[k] == emittedRes[k - |drawCalls|];
      }
    }
  }

  /** Tables that only grow keep every mesh's description. */
  lemma MeshBuiltGrows(s: ModelScaffoldData, supplements: seq<SupplementScaffold>, boxes: seq<ParameterBox>,
                       newBoxes: seq<ParameterBox>, tis: seq<TechniqueInterfaceDesc>, newTis: seq<TechniqueInterfaceDesc>,
                       tbp: seq<nat>, meshes: seq<Mesh>)
    requires boxes <= newBoxes && tis <= newTis
    requires forall i :: 0 <= i < |meshes| ==> MeshBuilt(s, supplements, boxes, tis, tbp, meshes[i])
    ensures forall i :: 0 <= i < |meshes| ==> MeshBuilt(s, supplements, newBoxes, newTis, tbp, meshes[i])
  {
    forall i | 0 <= i < |meshes|
      ensures MeshBuilt(s, supplements, newBoxes, newTis, tbp, meshes[i])
    {
      assert MeshBuilt(s, supplements, boxes, tis, tbp, meshes[i]);
      assert newBoxes[meshes[i].geoParamBox] == boxes[meshes[i].geoParamBox];
      assert newTis[meshes[i].techniqueInterface] == tis[meshes[i].techniqueInterface];
    }
  }

  /** A built mesh appended to built meshes keeps them all built. */
  lemma MeshesBuiltAppend(s: ModelScaffoldData, supplements: seq<SupplementScaffold>, boxes: seq<ParameterBox>,
                          tis: seq<TechniqueInterfaceDesc>, tbp: seq<nat>, meshes: seq<Mesh>, mesh: Mesh)
    requires MeshesBuilt(s, supplements, boxes, tis, tbp, meshes)
    requires MeshBuilt(s, supplements, boxes, tis, tbp, mesh)
    ensures MeshesBuilt(s, supplements, boxes, tis, tbp, meshes + [mesh])
  {
    var all := meshes + [mesh];
    forall i | 0 <= i < |all|
      ensures MeshBuilt(s, supplements, boxes, tis, tbp, all[i])
    {
      if i < |meshes| {
        assert all[i] == meshes[i];
      }
    }
  }

  lemma StoredDrawCallsStep(s: ModelScaffoldData, mats: MaterialResources, lod: nat, skinned: bool, gi: nat)
    requires WellFormed(s) && gi < CallsOf(s, skinned)
    ensures StoredDrawCalls(s, mats, lod, skinned, gi + 1) == StoredDrawCalls(s, mats, lod, skinned, gi)
      + (if CallOf(s, skinned, gi).levelOfDetail == lod
         then StoredOf(mats, CallOf(s, skinned, gi), DrawCallsOf(s, skinned, gi), gi) else [])
  {
  }

  predicate MeshesBuilt(s: ModelScaffoldData, supplements: seq<SupplementScaffold>, parameterBoxes: seq<ParameterBox>,
                        techniqueInterfaces: seq<TechniqueInterfaceDesc>, tbp: seq<nat>, meshes: seq<Mesh>)
  {
    forall i :: 0 <= i < |meshes| ==> MeshBuilt(s, supplements, parameterBoxes, techniqueInterfaces, tbp, meshes[i])
  }

  /** The constructor's loop over the unskinned geo calls. */
  method BuildUnskinned(
    s: ModelScaffoldData, mats: MaterialResources, lod: nat, supplements: seq<SupplementScaffold>,
    wb: BuffersUnderConstruction, sss: SharedStateSet, tbp: seq<nat>)
    returns (meshes: seq<Mesh>, drawCalls: seq<MeshAndDrawCall>, drawCallRes: seq<DrawCallResources>)
    requires WellFormed(s) && StrictlySorted(Guids(mats)) && wb.Valid() && SupplementsFit(supplements)
    modifies wb, sss
    ensures wb.Valid() && sss.Extends()
    ensures sss.shaderNames == old(sss.shaderNames) && sss.renderStateSets == old(sss.renderStateSets)
    ensures drawCalls == StoredDrawCalls(s, mats, lod, false, |s.geoCalls|)
    ensures Emitted(s, mats, false, meshes, drawCalls, drawCallRes)
    ensures MeshSet(s, mats, lod, false, |s.geoCalls|, meshes)
    ensures MeshesBuilt(s, supplements, sss.parameterBoxes, sss.techniqueInterfaces, tbp, meshes)
  {
    meshes, drawCalls, drawCallRes := [], [], [];
    var gi := 0;
    while gi < |s.geoCalls|
      invariant gi <= |s.geoCalls| && wb.Valid() && sss.Extends()
      invariant sss.shaderNames == old(sss.shaderNames) && sss.renderStateSets == old(sss.renderStateSets)
      invariant drawCalls == StoredDrawCalls(s, mats, lod, false, gi)
      invariant Emitted(s, mats, false, meshes, drawCalls, drawCallRes)
      invariant MeshSet(s, mats, lod, false, gi, meshes)
      invariant MeshesBuilt(s, supplements, sss.parameterBoxes, sss.techniqueInterfaces, tbp, meshes)
    {
      StoredDrawCallsStep(s, mats, lod, false, gi);
      meshes, drawCalls, drawCallRes := AddUnskinnedCall(s, mats, lod, supplements, wb, sss, tbp, gi, meshes, drawCalls, drawCallRes);
      gi := gi + 1;
    }
  }

  /** One iteration of the unskinned loop: geo call `gi`. */
  method AddUnskinnedCall(
    s: ModelScaffoldData, mats: MaterialResources, lod: nat, supplements: seq<SupplementScaffold>,
    wb: BuffersUnderConstruction, sss: SharedStateSet, tbp: seq<nat>, gi: nat,
    meshes: seq<Mesh>, drawCalls: seq<MeshAndDrawCall>, drawCallRes: seq<DrawCallResources>)
    returns (newMeshes: seq<Mesh>, newDrawCalls: seq<MeshAndDrawCall>, newDrawCallRes: seq<DrawCallResources>)
    requires WellFormed(s) && StrictlySorted(Guids(mats)) && wb.Valid() && SupplementsFit(supplements)
    requires gi < |s.geoCalls|
    requires Emitted(s, mats, false, meshes, drawCalls, drawCallRes) && MeshSet(s, mats, lod, false, gi, meshes)
    requires MeshesBuilt(s, supplements, sss.parameterBoxes, sss.techniqueInterfaces, tbp, meshes)
    modifies wb, sss
    ensures wb.Valid() && sss.Extends()
    ensures sss.shaderNames == old(sss.shaderNames) && sss.renderStateSets == old(sss.renderStateSets)
    ensures newDrawCalls == drawCalls + (if s.geoCalls[gi].levelOfDetail == lod
      then StoredOf(mats, s.geoCalls[gi], DrawCallsOf(s, false, gi), gi) else [])
    ensures Emitted(s, mats, false, newMeshes, newDrawCalls, newDrawCallRes)
    ensures MeshSet(s, mats, lod, false, gi + 1, newMeshes)
    ensures MeshesBuilt(s, supplements, sss.parameterBoxes, sss.techniqueInterfaces, tbp, newMeshes)
  {
    newMeshes, newDrawCalls, newDrawCallRes := meshes, drawCalls, drawCallRes;
    var geoInst := s.geoCalls[gi];
    assert geoInst == CallOf(s, false, gi);
    if geoInst.levelOfDetail != lod {
      MeshSetSkip(s, mats, lod, false, gi, meshes);
      return;
    }
    var geo := s.geos[geoInst.geoId];
    assert geo.drawCalls == DrawCallsOf(s, false, gi);
    var valid := AtLeastOneValidDrawCall(mats, geoInst, geo.drawCalls);
    if !valid {
      NoValidDrawCallStoresNothing(mats, geoInst, geo.drawCalls, gi);
      MeshSetSkip(s, mats, lod, false, gi, meshes);
      return;
    }
    var m;
    newMeshes, m := UnskinnedMeshFor(s, supplements, wb, sss, tbp, geoInst, meshes);
    MeshSetUse(s, mats, lod, false, gi, meshes, newMeshes);
    EmittedMoreMeshes(s, mats, false, meshes, newMeshes, drawCalls, drawCallRes);
    var emitted, emittedRes := EmitDrawCalls(s, mats, false, gi, newMeshes[m].geoParamBox);
    EmittedAppend(s, mats, false, newMeshes, gi, drawCalls, drawCallRes, emitted, emittedRes);
    newDrawCalls := drawCalls + emitted;
    newDrawCallRes := drawCallRes + emittedRes;
  }

  /** The mesh of the geometry of `geoInst`: the one already built, or a new one built with its
    * supplements and appended. */
  method UnskinnedMeshFor(
    s: ModelScaffoldData, supplements: seq<SupplementScaffold>, wb: BuffersUnderConstruction, sss: SharedStateSet,
    tbp: seq<nat>, geoInst: GeoCall, meshes: seq<Mesh>)
    returns (newMeshes: seq<Mesh>, m: nat)
    requires wb.Valid() && SupplementsFit(supplements) && geoInst.geoId < |s.geos|
    requires MeshesBuilt(s, supplements, sss.parameterBoxes, sss.techniqueInterfaces, tbp, meshes)
    modifies wb, sss
    ensures wb.Valid() && sss.Extends()
    ensures sss.shaderNames == old(sss.shaderNames) && sss.renderStateSets == old(sss.renderStateSets)
    ensures geoInst.geoId in MeshIds(meshes) ==> newMeshes == meshes
    ensures geoInst.geoId !in MeshIds(meshes) ==>
      |newMeshes| == |meshes| + 1 && newMeshes[..|meshes|] == meshes && newMeshes[|meshes|].id == geoInst.geoId
    ensures geoInst.geoId in MeshIds(newMeshes) && m == IndexOf(MeshIds(newMeshes), geoInst.geoId)
    ensures MeshesBuilt(s, supplements, sss.parameterBoxes, sss.techniqueInterfaces, tbp, newMeshes)
  {
    var found := FindMesh(MeshIds(meshes), geoInst.geoId);
    if found.Some? {
      return meshes, found.value;
    }
    var sup := FindSupplementGeo(supplements, geoInst.geoId);
    ghost var boxes, tis := sss.parameterBoxes, sss.techniqueInterfaces;
    var mesh := BuildMesh(geoInst, s.geos[geoInst.geoId], sup, wb, sss, tbp, false);
    MeshBuiltGrows(s, supplements, boxes, sss.parameterBoxes, tis, sss.techniqueInterfaces, tbp, meshes);
    assert MeshBuilt(s, supplements, sss.parameterBoxes, sss.techniqueInterfaces, tbp, mesh);
    m := |meshes|;
    newMeshes := meshes + [mesh];
    MeshesBuiltAppend(s, supplements, sss.parameterBoxes, sss.techniqueInterfaces, tbp, meshes, mesh);
    assert MeshIds(newMeshes) == MeshIds(meshes) + [mesh.id];
    IndexOfFirst(MeshIds(newMeshes), mesh.id, m);
  }

  // ---------------------------------------------------------------------------
  // Skinned meshes

  /** The unskinned part of each skinned mesh. */
  function Bases(meshes: seq<SkinnedMesh>): (r: seq<Mesh>)
    ensures |r| == |meshes| && forall i :: 0 <= i < |meshes| ==> r[i] == meshes[i].base
  {
    seq(|meshes|, i requires 0 <= i < |meshes| => meshes[i].base)
  }

  lemma BasesAppend(meshes: seq<SkinnedMesh>, mesh: SkinnedMesh)
    ensures Bases(meshes + [mesh]) == Bases(meshes) + [mesh.base]
  {
  }

  /** The skinned controllers' animated and skeleton-binding strides are not zero: the vertex
    * counts divide by them. */
  predicate SkinStridesPositive(s: ModelScaffoldData)
  {
    forall c :: c in s.boundSkinnedControllers ==>
      c.animatedVertexElements.ia.vertexStride > 0 && c.skeletonBinding.ia.vertexStride > 0
  }

  /** A skinned mesh: its geometry parameter box and technique interface are those of its
    * geometry's layout with its supplements (found under the geometry count plus its id), and
    * its skinned technique interface is that of the skinned layout. */
  predicate SkinnedMeshBuilt(s: ModelScaffoldData, supplements: seq<SupplementScaffold>, parameterBoxes: seq<ParameterBox>,
                             techniqueInterfaces: seq<TechniqueInterfaceDesc>, tbp: seq<nat>, mesh: SkinnedMesh)
  {
    && mesh.base.id < |s.boundSkinnedControllers|
    && var geo := s.boundSkinnedControllers[mesh.base.id];
    && var layout := MeshLayout(geo.geo, SupplementStreams(supplements, |s.geos| + mesh.base.id));
    && mesh.base.geoParamBox < |parameterBoxes|
    && parameterBoxes[mesh.base.geoParamBox] == GeoParamBox(layout, HasVertexElement(geo.animatedVertexElements.ia.elements, "NORMAL"))
    && mesh.base.techniqueInterface < |techniqueInterfaces|
    && techniqueInterfaces[mesh.base.techniqueInterface] == TechniqueInterfaceDesc(layout, tbp)
    && mesh.skinnedTechniqueInterface < |techniqueInterfaces|
    && techniqueInterfaces[mesh.skinnedTechniqueInterface] == TechniqueInterfaceDesc(SkinnedLayout(geo), tbp)
  }

  predicate SkinnedMeshesBuilt(s: ModelScaffoldData, supplements: seq<SupplementScaffold>, parameterBoxes: seq<ParameterBox>,
                               techniqueInterfaces: seq<TechniqueInterfaceDesc>, tbp: seq<nat>, meshes: seq<SkinnedMesh>)
  {
    forall i :: 0 <= i < |meshes| ==> SkinnedMeshBuilt(s, supplements, parameterBoxes, techniqueInterfaces, tbp, meshes[i])
  }

  lemma SkinnedMeshBuiltGrows(s: ModelScaffoldData, supplements: seq<SupplementScaffold>, boxes: seq<ParameterBox>,
                              newBoxes: seq<ParameterBox>, tis: seq<TechniqueInterfaceDesc>, newTis: seq<TechniqueInterfaceDesc>,
                              tbp: seq<nat>, meshes: seq<SkinnedMesh>)
    requires boxes <= newBoxes && tis <= newTis
    requires SkinnedMeshesBuilt(s, supplements, boxes, tis, tbp, meshes)
    ensures SkinnedMeshesBuilt(s, supplements, newBoxes, newTis, tbp, meshes)
  {
    forall i | 0 <= i < |meshes|
      ensures SkinnedMeshBuilt(s, supplements, newBoxes, newTis, tbp, meshes[i])
    {
      var b := meshes[i];
      assert SkinnedMeshBuilt(s, supplements, boxes, tis, tbp, b);
      assert newBoxes[b.base.geoParamBox] == boxes[b.base.geoParamBox];
      assert newTis[b.base.techniqueInterface] == tis[b.base.techniqueInterface];
      assert newTis[b.skinnedTechniqueInterface] == tis[b.skinnedTechniqueInterface];
    }
  }

  /** A built mesh appended to built meshes keeps them all built. */
  lemma SkinnedMeshesBuiltAppend(s: ModelScaffoldData, supplements: seq<SupplementScaffold>, boxes: seq<ParameterBox>,
                                 tis: seq<TechniqueInterfaceDesc>, tbp: seq<nat>, meshes: seq<SkinnedMesh>, mesh: SkinnedMesh)
    requires SkinnedMeshesBuilt(s, supplements, boxes, tis, tbp, meshes)
    requires SkinnedMeshBuilt(s, supplements, boxes, tis, tbp, mesh)
    ensures SkinnedMeshesBuilt(s, supplements, boxes, tis, tbp, meshes + [mesh])
  {
    var all := meshes + [mesh];
    forall i | 0 <= i < |all|
      ensures SkinnedMeshBuilt(s, supplements, boxes, tis, tbp, all[i])
    {
      if i < |meshes| {
        assert all[i] == meshes[i];
      }
    }
  }

  /** The constructor's loop over the skinned geo calls. */
  method BuildSkinned(
    s: ModelScaffoldData, mats: MaterialResources, lod: nat, supplements: seq<SupplementScaffold>,
    wb: BuffersUnderConstruction, sss: SharedStateSet, tbp: seq<nat>)
    returns (meshes: seq<SkinnedMesh>, drawCalls: seq<MeshAndDrawCall>, drawCallRes: seq<DrawCallResources>)
    requires WellFormed(s) && StrictlySorted(Guids(mats)) && wb.Valid() && SupplementsFit(supplements)
    requires SkinStridesPositive(s)
    modifies wb, sss
    ensures wb.Valid() && sss.Extends()
    ensures sss.shaderNames == old(sss.shaderNames) && sss.renderStateSets == old(sss.renderStateSets)
    ensures drawCalls == StoredDrawCalls(s, mats, lod, true, |s.skinCalls|)
    ensures Emitted(s, mats, true, Bases(meshes), drawCalls, drawCallRes)
    ensures MeshSet(s, mats, lod, true, |s.skinCalls|, Bases(meshes))
    ensures SkinnedMeshesBuilt(s, supplements, sss.parameterBoxes, sss.techniqueInterfaces, tbp, meshes)
  {
    meshes, drawCalls, drawCallRes := [], [], [];
    var gi := 0;
    while gi < |s.skinCalls|
      invariant gi <= |s.skinCalls| && wb.Valid() && sss.Extends()
      invariant sss.shaderNames == old(sss.shaderNames) && sss.renderStateSets == old(sss.renderStateSets)
      invariant drawCalls == StoredDrawCalls(s, mats, lod, true, gi)
      invariant Emitted(s, mats, true, Bases(meshes), drawCalls, drawCallRes)
      invariant MeshSet(s, mats, lod, true, gi, Bases(meshes))
      invariant SkinnedMeshesBuilt(s, supplements, sss.parameterBoxes, sss.techniqueInterfaces, tbp, meshes)
    {
      StoredDrawCallsStep(s, mats, lod, true, gi);
      meshes, drawCalls, drawCallRes := AddSkinnedCall(s, mats, lod, supplements, wb, sss, tbp, gi, meshes, drawCalls, drawCallRes);
      gi := gi + 1;
    }
  }

  /** One iteration of the skinned loop: skin call `gi`. Its material guids are looked up under
    * the index that follows the unskinned calls. */
  method AddSkinnedCall(
    s: ModelScaffoldData, mats: MaterialResources, lod: nat, supplements: seq<SupplementScaffold>,
    wb: BuffersUnderConstruction, sss: SharedStateSet, tbp: seq<nat>, gi: nat,
    meshes: seq<SkinnedMesh>, drawCalls: seq<MeshAndDrawCall>, drawCallRes: seq<DrawCallResources>)
    returns (newMeshes: seq<SkinnedMesh>, newDrawCalls: seq<MeshAndDrawCall>, newDrawCallRes: seq<DrawCallResources>)
    requires WellFormed(s) && StrictlySorted(Guids(mats)) && wb.Valid() && SupplementsFit(supplements)
    requires SkinStridesPositive(s) && gi < |s.skinCalls|
    requires Emitted(s, mats, true, Bases(meshes), drawCalls, drawCallRes) && MeshSet(s, mats, lod, true, gi, Bases(meshes))
    requires SkinnedMeshesBuilt(s, supplements, sss.parameterBoxes, sss.techniqueInterfaces, tbp, meshes)
    modifies wb, sss
    ensures wb.Valid() && sss.Extends()
    ensures sss.shaderNames == old(sss.shaderNames) && sss.renderStateSets == old(sss.renderStateSets)
    ensures newDrawCalls == drawCalls + (if s.skinCalls[gi].levelOfDetail == lod
      then StoredOf(mats, s.skinCalls[gi], DrawCallsOf(s, true, gi), gi) else [])
    ensures Emitted(s, mats, true, Bases(newMeshes), newDrawCalls, newDrawCallRes)
    ensures MeshSet(s, mats, lod, true, gi + 1, Bases(newMeshes))
    ensures SkinnedMeshesBuilt(s, supplements, sss.parameterBoxes, sss.techniqueInterfaces, tbp, newMeshes)
  {
    newMeshes, newDrawCalls, newDrawCallRes := meshes, drawCalls, drawCallRes;
    var geoInst := s.skinCalls[gi];
    assert geoInst == CallOf(s, true, gi);
    if geoInst.levelOfDetail != lod {
      MeshSetSkip(s, mats, lod, true, gi, Bases(meshes));
      return;
    }
    assert geoInst in s.skinCalls;
    var geo := s.boundSkinnedControllers[geoInst.geoId];
    assert geo.geo.drawCalls == DrawCallsOf(s, true, gi);
    var valid := AtLeastOneValidDrawCall(mats, geoInst, geo.geo.drawCalls);
    if !valid {
      NoValidDrawCallStoresNothing(mats, geoInst, geo.geo.drawCalls, gi);
      MeshSetSkip(s, mats, lod, true, gi, Bases(meshes));
      return;
    }
    var m;
    newMeshes, m := SkinnedMeshFor(s, supplements, wb, sss, tbp, geoInst, meshes);
    ghost var bases, newBases := Bases(meshes), Bases(newMeshes);
    if geoInst.geoId !in MeshIds(bases) {
      assert newBases[..|bases|] == bases;
    }
    MeshSetUse(s, mats, lod, true, gi, bases, newBases);
    EmittedMoreMeshes(s, mats, true, bases, newBases, drawCalls, drawCallRes);
    var emitted, emittedRes := EmitDrawCalls(s, mats, true, gi, newMeshes[m].base.geoParamBox);
    assert newBases[m].geoParamBox == newMeshes[m].base.geoParamBox;
    EmittedAppend(s, mats, true, newBases, gi, drawCalls, drawCallRes, emitted, emittedRes);
    newDrawCalls := drawCalls + emitted;
    newDrawCallRes := drawCallRes + emittedRes;
  }

  /** The skinned mesh of the geometry of `geoInst`: the one already built, or a new one. */
  method SkinnedMeshFor(
    s: ModelScaffoldData, supplements: seq<SupplementScaffold>, wb: BuffersUnderConstruction, sss: SharedStateSet,
    tbp: seq<nat>, geoInst: GeoCall, meshes: seq<SkinnedMesh>)
    returns (newMeshes: seq<SkinnedMesh>, m: nat)
    requires wb.Valid() && SupplementsFit(supplements) && SkinStridesPositive(s)
    requires geoInst.geoId < |s.boundSkinnedControllers|
    requires SkinnedMeshesBuilt(s, supplements, sss.parameterBoxes, sss.techniqueInterfaces, tbp, meshes)
    modifies wb, sss
    ensures wb.Valid() && sss.Extends()
    ensures sss.shaderNames == old(sss.shaderNames) && sss.renderStateSets == old(sss.renderStateSets)
    ensures geoInst.geoId in MeshIds(Bases(meshes)) ==> newMeshes == meshes
    ensures geoInst.geoId !in MeshIds(Bases(meshes)) ==>
      |newMeshes| == |meshes| + 1 && newMeshes[|meshes|].base.id == geoInst.geoId
      && Bases(newMeshes) == Bases(meshes) + [newMeshes[|meshes|].base]
    ensures |newMeshes| == |Bases(newMeshes)| && m < |newMeshes|
    ensures geoInst.geoId in MeshIds(Bases(newMeshes)) && m == IndexOf(MeshIds(Bases(newMeshes)), geoInst.geoId)
    ensures SkinnedMeshesBuilt(s, supplements, sss.parameterBoxes, sss.techniqueInterfaces, tbp, newMeshes)
  {
    var found := FindMesh(MeshIds(Bases(meshes)), geoInst.geoId);
    if found.Some? {
      return meshes, found.value;
    }
    ghost var boxes, tis := sss.parameterBoxes, sss.techniqueInterfaces;
    var mesh := NewSkinnedMesh(s, supplements, wb, sss, tbp, geoInst);
    SkinnedMeshBuiltGrows(s, supplements, boxes, sss.parameterBoxes, tis, sss.techniqueInterfaces, tbp, meshes);
    m := |meshes|;
    newMeshes := meshes + [mesh];
    SkinnedMeshesBuiltAppend(s, supplements, sss.parameterBoxes, sss.techniqueInterfaces, tbp, meshes, mesh);
    BasesAppend(meshes, mesh);
    assert MeshIds(Bases(newMeshes)) == MeshIds(Bases(meshes)) + [mesh.base.id];
    IndexOfFirst(MeshIds(Bases(newMeshes)), mesh.base.id, m);
  }

  /** A new skinned mesh for the geometry of `geoInst`, with the supplements held under the
    * geometry count plus its id. */
  method NewSkinnedMesh(
    s: ModelScaffoldData, supplements: seq<SupplementScaffold>, wb: BuffersUnderConstruction, sss: SharedStateSet,
    tbp: seq<nat>, geoInst: GeoCall)
    returns (mesh: SkinnedMesh)
    requires wb.Valid() && SupplementsFit(supplements) && SkinStridesPositive(s)
    requires geoInst.geoId < |s.boundSkinnedControllers|
    modifies wb, sss
    ensures wb.Valid() && sss.Extends()
    ensures sss.shaderNames == old(sss.shaderNames) && sss.renderStateSets == old(sss.renderStateSets)
    ensures mesh.base.id == geoInst.geoId
    ensures SkinnedMeshBuilt(s, supplements, sss.parameterBoxes, sss.techniqueInterfaces, tbp, mesh)
  {
    var geo := s.boundSkinnedControllers[geoInst.geoId];
    assert geo in s.boundSkinnedControllers;
    var sup := FindSupplementGeo(supplements, |s.geos| + geoInst.geoId);
    assert |sup| <= MaxVertexStreams - 1;
    mesh := BuildSkinnedMesh(geoInst, geo, sup, wb, sss, tbp);
    assert MeshLayout(geo.geo, sup) == MeshLayout(geo.geo, SupplementStreams(supplements, |s.geos| + mesh.base.id));
  }
}
