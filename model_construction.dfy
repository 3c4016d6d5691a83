/**
 * The planning half of the model renderer's construction (the ModelConstruction namespace of
 * RenderCore/Assets/ModelRunTime.cpp): material guids of draw calls, the sorted
 * material-resource table, constant-buffer deduplication, the texture bind points and the
 * bound-texture table.
 *
 * The constant-buffer layout's BuildCBDataAsVector is represented by the material's
 * `constants`; the layout's size is `cbSize`. Texture loading (GetAssetDep after resolving
 * the file name) is the `resolve` parameter, None standing for the InvalidAsset exception
 * that the source catches. The debug-only parameter-box descriptions are not part of this
 * model.
 */
module ModelConstruction {
  import opened Wrappers
  import opened ModelData
  import opened SharedStates
  import UITypesBinding
  import ScaffoldChunks

  type byte = ScaffoldChunks.byte

  const DefaultShader: string := "illum"

  // ---------------------------------------------------------------------------
  // Sorted sequences

  predicate Sorted(s: seq<nat>)
  {
    forall i, j :: 0 <= i <= j < |s| ==> s[i] <= s[j]
  }

  predicate StrictlySorted(s: seq<nat>)
  {
    forall i, j :: 0 <= i < j < |s| ==> s[i] < s[j]
  }

  /** LowerBound / std::lower_bound: the first position whose value is not below `x`. */
  method LowerBound(s: seq<nat>, x: nat) returns (i: nat)
    requires Sorted(s)
    ensures i <= |s|
    ensures forall k :: 0 <= k < i ==> s[k] < x
    ensures forall k :: i <= k < |s| ==> x <= s[k]
  {
    var lo, hi := 0, |s|;
    while lo < hi
      invariant 0 <= lo <= hi <= |s|
      invariant forall k :: 0 <= k < lo ==> s[k] < x
      invariant forall k :: hi <= k < |s| ==> x <= s[k]
    {
      var mid := (lo + hi) / 2;
      if s[mid] < x {
        lo := mid + 1;
      } else {
        hi := mid;
      }
    }
    return lo;
  }

  /** The lookup-then-insert idiom: `x` is inserted at its lower bound unless it is there. */
  method InsertSorted(s: seq<nat>, x: nat) returns (r: seq<nat>)
    requires StrictlySorted(s)
    ensures StrictlySorted(r)
    ensures forall y :: y in r <==> y in s || y == x
    ensures x in s ==> r == s
    ensures x !in s ==> |r| == |s| + 1
  {
    var i := LowerBound(s, x);
    if i < |s| && s[i] == x {
      return s;
    }
    assert x !in s by {
      forall k | 0 <= k < |s|
        ensures s[k] != x
      {
        if k > i {
          assert s[i] < s[k];
        }
      }
    }
    r := s[..i] + [x] + s[i..];
    assert forall k :: 0 <= k < |r| ==> r[k] == (if k < i then s[k] else if k == i then x else s[k - 1]);
  }

  // ---------------------------------------------------------------------------
  // Constant buffers

  /** InsertOrCombine: the index of the first byte-identical buffer, appending the buffer when
    * there is none. */
  method InsertOrCombine(dest: seq<seq<byte>>, compare: seq<byte>) returns (newDest: seq<seq<byte>>, index: nat)
    requires |compare| > 0
    ensures (newDest, index) == Interned(dest, compare)
  {
    var i := 0;
    while i < |dest|
      invariant 0 <= i <= |dest|
      invariant forall k :: 0 <= k < i ==> dest[k] != compare
    {
      if |dest[i]| == |compare| && dest[i] == compare {
        IndexOfFirst(dest, compare, i);
        return dest, i;
      }
      i := i + 1;
    }
    return dest + [compare], |dest|;
  }

  /** After InsertOrCombine the list holds the buffer at the returned index, keeps every
    * earlier buffer where it was, grows by at most one, and stays free of duplicates. */
  lemma InsertOrCombineDeduplicates(dest: seq<seq<byte>>, compare: seq<byte>)
    ensures var (t, index) := Interned(dest, compare);
      && index < |t| && t[index] == compare
      && (forall k :: 0 <= k < index ==> t[k] != compare)
      && dest <= t && |t| <= |dest| + 1
      && (compare in dest <==> t == dest)
      && (NoDuplicates(dest) ==> NoDuplicates(t))
  {
    InternedFacts(dest, compare);
  }

  // ---------------------------------------------------------------------------
  // Material guids of draw calls

  /** ScaffoldMaterialIndex: the guid the geo call lists at the draw call's sub-material
    * index, or the all-ones sentinel when the index is out of range. */
  function ScaffoldMaterialIndex(s: ModelScaffoldData, gi: nat, di: nat): (r: MaterialGuid)
    requires WellFormed(s) && gi < CallCount(s) && di < |GetGeo(s, gi).drawCalls|
    ensures GetGeo(s, gi).drawCalls[di].subMaterialIndex < |GetGeoCall(s, gi).materialGuids| ==>
      r == GetGeoCall(s, gi).materialGuids[GetGeo(s, gi).drawCalls[di].subMaterialIndex]
    ensures GetGeo(s, gi).drawCalls[di].subMaterialIndex >= |GetGeoCall(s, gi).materialGuids| ==> r == NoMaterial
  {
    var geoCall := GetGeoCall(s, gi);
    var subMatI := GetGeo(s, gi).drawCalls[di].subMaterialIndex;
    if subMatI < |geoCall.materialGuids| then geoCall.materialGuids[subMatI] else NoMaterial
  }

  /** A draw call's guid is always the sentinel or one of its geo call's own guids, and it is
    * the sentinel only when the sub-material index is out of range or the listed guid is
    * itself all ones. */
  lemma ScaffoldMaterialIndexIsListed(s: ModelScaffoldData, gi: nat, di: nat)
    requires WellFormed(s) && gi < CallCount(s) && di < |GetGeo(s, gi).drawCalls|
    ensures var r := ScaffoldMaterialIndex(s, gi, di);
      var sub := GetGeo(s, gi).drawCalls[di].subMaterialIndex;
      && (r == NoMaterial || r in GetGeoCall(s, gi).materialGuids)
      && (r == NoMaterial <==> sub >= |GetGeoCall(s, gi).materialGuids| || GetGeoCall(s, gi).materialGuids[sub] == NoMaterial)
  {
  }

  /** The guids of geo call `gi`'s draw calls, when the call is at level of detail `lod`. */
  function CallMaterials(s: ModelScaffoldData, lod: nat, gi: nat): (r: seq<MaterialGuid>)
    requires WellFormed(s) && gi < CallCount(s)
    ensures GetGeoCall(s, gi).levelOfDetail == lod ==> r == DrawCallMaterials(s, gi, |GetGeo(s, gi).drawCalls|)
    ensures GetGeoCall(s, gi).levelOfDetail != lod ==> r == []
  {
    if GetGeoCall(s, gi).levelOfDetail != lod then [] else DrawCallMaterials(s, gi, |GetGeo(s, gi).drawCalls|)
  }

  /** The guids of the first `m` draw calls of geo call `gi`, in order. */
  function DrawCallMaterials(s: ModelScaffoldData, gi: nat, m: nat): (r: seq<MaterialGuid>)
    requires WellFormed(s) && gi < CallCount(s) && m <= |GetGeo(s, gi).drawCalls|
    ensures |r| == m && forall di :: 0 <= di < m ==> r[di] == ScaffoldMaterialIndex(s, gi, di)
  {
    if m == 0 then [] else DrawCallMaterials(s, gi, m - 1) + [ScaffoldMaterialIndex(s, gi, m - 1)]
  }

  /** The guids of every draw call of the first `n` geo calls at level of detail `lod`. */
  function LodMaterials(s: ModelScaffoldData, lod: nat, n: nat): seq<MaterialGuid>
    requires WellFormed(s) && n <= CallCount(s)
  {
    if n == 0 then [] else LodMaterials(s, lod, n - 1) + CallMaterials(s, lod, n - 1)
  }

  /** Every draw call of a geo call at the level of detail contributes its guid, the sentinel
    * included. */
  lemma {:induction false} LodMaterialsContainDrawCall(s: ModelScaffoldData, lod: nat, n: nat, gi: nat, di: nat)
    requires WellFormed(s) && n <= CallCount(s) && gi < n
    requires GetGeoCall(s, gi).levelOfDetail == lod && di < |GetGeo(s, gi).drawCalls|
    ensures ScaffoldMaterialIndex(s, gi, di) in LodMaterials(s, lod, n)
  {
    if gi < n - 1 {
      LodMaterialsContainDrawCall(s, lod, n - 1, gi, di);
      LodMaterialsGrow(s, lod, n, ScaffoldMaterialIndex(s, gi, di));
    } else {
      var prev := LodMaterials(s, lod, n - 1);
      assert LodMaterials(s, lod, n) == prev + CallMaterials(s, lod, n - 1);
      LastCallContains(s, lod, gi, di, prev);
    }
  }

  /** A guid listed for the first `n - 1` geo calls stays listed for the first `n`. */
  lemma LodMaterialsGrow(s: ModelScaffoldData, lod: nat, n: nat, g: MaterialGuid)
    requires WellFormed(s) && 0 < n <= CallCount(s)
    requires g in LodMaterials(s, lod, n - 1)
    ensures g in LodMaterials(s, lod, n)
  {
    InAppendLeft(LodMaterials(s, lod, n - 1), CallMaterials(s, lod, n - 1), g);
  }

  /** The draw call's guid is in the materials of the first `gi + 1` geo calls when `gi` is the last. */
  lemma LastCallContains(s: ModelScaffoldData, lod: nat, gi: nat, di: nat, prev: seq<MaterialGuid>)
    requires WellFormed(s) && gi < CallCount(s)
    requires GetGeoCall(s, gi).levelOfDetail == lod && di < |GetGeo(s, gi).drawCalls|
    ensures ScaffoldMaterialIndex(s, gi, di) in prev + CallMaterials(s, lod, gi)
  {
    CallMaterialsAt(s, lod, gi, di);
    InAppendAt(prev + CallMaterials(s, lod, gi), prev, CallMaterials(s, lod, gi), di, ScaffoldMaterialIndex(s, gi, di));
  }

  lemma InAppendLeft<T>(a: seq<T>, b: seq<T>, x: T)
    requires x in a
    ensures x in a + b
  {
    var k :| 0 <= k < |a| && a[k] == x;
    assert (a + b)[k] == x;
  }

  /** The guid of draw call `di` sits at position `di` of its geo call's materials. */
  lemma CallMaterialsAt(s: ModelScaffoldData, lod: nat, gi: nat, di: nat)
    requires WellFormed(s) && gi < CallCount(s)
    requires GetGeoCall(s, gi).levelOfDetail == lod && di < |GetGeo(s, gi).drawCalls|
    ensures di < |CallMaterials(s, lod, gi)| && CallMaterials(s, lod, gi)[di] == ScaffoldMaterialIndex(s, gi, di)
  {
  }

  lemma InAppendAt<T>(l: seq<T>, a: seq<T>, b: seq<T>, k: nat, x: T)
    requires l == a + b && k < |b| && b[k] == x
    ensures x in l
  {
    assert l[|a| + k] == x;
  }

  /** Draw call `di` of geo call `gi`, at level of detail `lod`, uses guid `g`. */
  predicate UsesMaterial(s: ModelScaffoldData, lod: nat, gi: int, di: int, g: MaterialGuid)
    requires WellFormed(s)
  {
    && 0 <= gi < CallCount(s) && GetGeoCall(s, gi).levelOfDetail == lod
    && 0 <= di < |GetGeo(s, gi).drawCalls| && ScaffoldMaterialIndex(s, gi, di) == g
  }

  /** Conversely, every listed guid is the guid of some draw call at the level of detail. */
  lemma {:induction false} LodMaterialsComeFromDrawCalls(s: ModelScaffoldData, lod: nat, n: nat, g: MaterialGuid)
    requires WellFormed(s) && n <= CallCount(s)
    requires g in LodMaterials(s, lod, n)
    ensures exists gi, di :: gi < n && UsesMaterial(s, lod, gi, di, g)
  {
    var gi, di := LodMaterialSource(s, lod, n, g);
  }

  /** The geo call and draw call a listed guid comes from. */
  lemma {:induction false} LodMaterialSource(s: ModelScaffoldData, lod: nat, n: nat, g: MaterialGuid) returns (gi: nat, di: nat)
    requires WellFormed(s) && n <= CallCount(s)
    requires g in LodMaterials(s, lod, n)
    ensures gi < n && UsesMaterial(s, lod, gi, di, g)
  {
    LodMaterialsNonEmpty(s, lod, n, g);
    if g in LodMaterials(s, lod, n - 1) {
      gi, di := LodMaterialSource(s, lod, n - 1, g);
    } else {
      LodMaterialsNewFromLastCall(s, lod, n, g);
      gi := n - 1;
      di := CallMaterialsSupply(s, lod, n - 1, g);
    }
  }

  /** Nothing is listed for no geo calls. */
  lemma LodMaterialsNonEmpty(s: ModelScaffoldData, lod: nat, n: nat, g: MaterialGuid)
    requires WellFormed(s) && n <= CallCount(s)
    requires g in LodMaterials(s, lod, n)
    ensures n > 0
  {
  }

  /** A guid listed for the first `n` geo calls but not for the first `n - 1` comes from the last. */
  lemma LodMaterialsNewFromLastCall(s: ModelScaffoldData, lod: nat, n: nat, g: MaterialGuid)
    requires WellFormed(s) && 0 < n <= CallCount(s)
    requires g in LodMaterials(s, lod, n) && g !in LodMaterials(s, lod, n - 1)
    ensures g in CallMaterials(s, lod, n - 1)
  {
    InAppendSplit(LodMaterials(s, lod, n - 1), CallMaterials(s, lod, n - 1), g);
  }

  lemma InAppendSplit<T>(a: seq<T>, b: seq<T>, x: T)
    requires x in a + b && x !in a
    ensures x in b
  {
    var k :| 0 <= k < |a + b| && (a + b)[k] == x;
    if k < |a| {
      assert a[k] == x;
    } else {
      assert b[k - |a|] == x;
    }
  }

  /** A guid of geo call `gi`'s materials is the guid of one of its draw calls. */
  lemma CallMaterialsSupply(s: ModelScaffoldData, lod: nat, gi: nat, g: MaterialGuid) returns (di: nat)
    requires WellFormed(s) && gi < CallCount(s)
    requires g in CallMaterials(s, lod, gi)
    ensures UsesMaterial(s, lod, gi, di, g)
  {
    var cm := CallMaterials(s, lod, gi);
    var k :| 0 <= k < |cm| && cm[k] == g;
    assert cm[k] == ScaffoldMaterialIndex(s, gi, k);
    di := k;
  }

  /** The first loop of BuildMaterialResources: the sorted, duplicate-free set of guids used
    * by draw calls at the level of detail. */
  method CollectMaterialGuids(s: ModelScaffoldData, lod: nat) returns (guids: seq<MaterialGuid>)
    requires WellFormed(s)
    ensures StrictlySorted(guids)
    ensures forall g :: g in guids <==> g in LodMaterials(s, lod, CallCount(s))
  {
    guids := [];
    var gi := 0;
    while gi < CallCount(s)
      invariant gi <= CallCount(s)
      invariant StrictlySorted(guids)
      invariant forall g :: g in guids <==> g in LodMaterials(s, lod, gi)
    {
      if GetGeoCall(s, gi).levelOfDetail == lod {
        guids := InsertCallMaterials(guids, s, lod, gi);
      }
      gi := gi + 1;
    }
  }

  /** The inner loop of the guid collection: the guid of every draw call of geo call `gi`. */
  method InsertCallMaterials(guids: seq<MaterialGuid>, s: ModelScaffoldData, lod: nat, gi: nat) returns (r: seq<MaterialGuid>)
    requires WellFormed(s) && gi < CallCount(s) && GetGeoCall(s, gi).levelOfDetail == lod
    requires StrictlySorted(guids)
    ensures StrictlySorted(r)
    ensures forall g :: g in r <==> g in guids || g in CallMaterials(s, lod, gi)
  {
    r := guids;
    var geo := GetGeo(s, gi);
    var di := 0;
    while di < |geo.drawCalls|
      invariant di <= |geo.drawCalls|
      invariant StrictlySorted(r)
      invariant forall g :: g in r <==> g in guids || g in DrawCallMaterials(s, gi, di)
    {
      r := InsertSorted(r, ScaffoldMaterialIndex(s, gi, di));
      di := di + 1;
    }
  }

  // ---------------------------------------------------------------------------
  // Per-material settings

  /** What the renderer keeps for each material it uses. */
  datatype SubMatResources = SubMatResources(
    shaderName: nat,
    matParams: nat,
    constantBuffer: nat,
    texturesIndex: nat,
    renderStateSet: nat,
    delayStep: DelayStep)

  type MaterialResources = seq<(MaterialGuid, SubMatResources)>

  function Guids(mats: MaterialResources): (r: seq<MaterialGuid>)
    ensures |r| == |mats| && forall i :: 0 <= i < |mats| ==> r[i] == mats[i].0
  {
    seq(|mats|, i requires 0 <= i < |mats| => mats[i].0)
  }

  /** MaterialScaffold::GetMaterial: null for a guid it does not have. */
  function GetMaterial(matScaffold: MaterialScaffold, g: MaterialGuid): Option<Material>
  {
    if g in matScaffold then Some(matScaffold[g]) else None
  }

  /** The material's constants, or a zeroed buffer of the layout's size when the material is
    * missing. */
  function ConstantData(matScaffold: MaterialScaffold, g: MaterialGuid, cbSize: nat): seq<byte>
  {
    if g in matScaffold then matScaffold[g].constants else seq(cbSize, _ => 0 as byte)
  }

  /** Every buffer handed to InsertOrCombine is non-empty, as it asserts. */
  predicate NonEmptyConstants(matScaffold: MaterialScaffold, cbSize: nat)
  {
    cbSize > 0 && forall g :: g in matScaffold ==> |matScaffold[g].constants| > 0
  }

  /** A `RES_HAS_<name>` parameter, set to 1, for every binding with a non-empty type. */
  function ResHasParams(bs: seq<Binding>): ParameterBox
  {
    if |bs| == 0 then map[]
    else
      var b := bs[|bs| - 1];
      if b.typeSize == 0 then ResHasParams(bs[..|bs| - 1])
      else ResHasParams(bs[..|bs| - 1])[ResHas(b.name) := 1]
  }

  /** The material parameter box: the material's parameters, the RES_HAS_ flags of its
    * bindings, and the DXT flag of its normal map when it binds one; empty for a missing
    * material. */
  function MaterialParamBox(m: Option<Material>): ParameterBox
  {
    match m
    case None => map[]
    case Some(mat) =>
      var box := mat.matParams + ResHasParams(mat.bindings);
      match mat.normalsTextureIsDxt
      case None => box
      case Some(isDxt) => box[ResHasNormalsTextureDxt := if isDxt then 1 else 0]
  }

  /** The material's render states, or the default ones for a missing material. */
  function MaterialStateSet(m: Option<Material>, defaults: UITypesBinding.StateSet): UITypesBinding.StateSet
  {
    if m.Some? then m.value.stateSet else defaults
  }

  /** Opaque materials render in the opaque pass; anything that blends is deferred. */
  function DelayStepOf(states: UITypesBinding.StateSet): (r: DelayStep)
    ensures r == OpaqueRender <==> states.forwardBlendOp == UITypesBinding.OpNoBlending
    ensures r == PostDeferred <==> states.forwardBlendOp != UITypesBinding.OpNoBlending
  {
    if states.forwardBlendOp == UITypesBinding.OpNoBlending then OpaqueRender else PostDeferred
  }

  /** The bind-point hashes of the bindings with a non-empty type. */
  function BindPointsOf(bs: seq<Binding>): set<nat>
  {
    set b | b in bs && b.typeSize != 0 :: b.nameHash
  }

  /** The bind points of the first `n` materials. */
  function BindPointsUpTo(guids: seq<MaterialGuid>, matScaffold: MaterialScaffold, n: nat): set<nat>
    requires n <= |guids|
  {
    if n == 0 then {}
    else
      var m := GetMaterial(matScaffold, guids[n - 1]);
      BindPointsUpTo(guids, matScaffold, n - 1) + (if m.Some? then BindPointsOf(m.value.bindings) else {})
  }

  /** The material parameter box sets RES_HAS_<name> to 1 for every binding with a non-empty
    * type, sets the DXT flag exactly when a normal map is bound, and otherwise holds the
    * material's own parameters. */
  lemma MaterialParamBoxMeaning(mat: Material)
    ensures forall b :: b in mat.bindings && b.typeSize != 0 ==>
      ResHas(b.name) in MaterialParamBox(Some(mat)) && MaterialParamBox(Some(mat))[ResHas(b.name)] == 1
    ensures ResHasNormalsTextureDxt in MaterialParamBox(Some(mat)) <==>
      mat.normalsTextureIsDxt.Some? || ResHasNormalsTextureDxt in mat.matParams
    ensures forall k: ParamName :: !k.ResHas? && k != ResHasNormalsTextureDxt ==>
      (k in MaterialParamBox(Some(mat)) <==> k in mat.matParams)
      && (k in mat.matParams ==> MaterialParamBox(Some(mat))[k] == mat.matParams[k])
    ensures mat.normalsTextureIsDxt.Some? ==>
      MaterialParamBox(Some(mat))[ResHasNormalsTextureDxt] == if mat.normalsTextureIsDxt.value then 1 else 0
  {
    ResHasParamsMeaning(mat.bindings);
  }

  lemma {:induction false} ResHasParamsMeaning(bs: seq<Binding>)
    ensures forall b :: b in bs && b.typeSize != 0 ==> ResHas(b.name) in ResHasParams(bs) && ResHasParams(bs)[ResHas(b.name)] == 1
    ensures forall k :: k in ResHasParams(bs) ==> k.ResHas?
    ensures forall k :: k in ResHasParams(bs) ==> exists b :: b in bs && b.typeSize != 0 && k == ResHas(b.name)
  {
    if |bs| > 0 {
      var init := bs[..|bs| - 1];
      ResHasParamsMeaning(init);
      forall b | b in bs && b.typeSize != 0
        ensures ResHas(b.name) in ResHasParams(bs) && ResHasParams(bs)[ResHas(b.name)] == 1
      {
        if b != bs[|bs| - 1] {
          assert b in init;
        }
      }
      forall k | k in ResHasParams(bs)
        ensures exists b :: b in bs && b.typeSize != 0 && k == ResHas(b.name)
      {
        var last := bs[|bs| - 1];
        if k in ResHasParams(init) {
          var b :| b in init && b.typeSize != 0 && k == ResHas(b.name);
          assert b in bs;
        } else {
          assert last in bs && last.typeSize != 0 && k == ResHas(last.name);
        }
      }
    }
  }

  /** A hash is a bind point of the first `n` materials exactly when one of those materials
    * exists and has a binding with a non-empty type and that name hash. */
  lemma {:induction false} BindPointsUpToMeaning(guids: seq<MaterialGuid>, matScaffold: MaterialScaffold, n: nat, h: nat)
    requires n <= |guids|
    ensures h in BindPointsUpTo(guids, matScaffold, n) <==>
      exists i :: 0 <= i < n && BindsHash(matScaffold, guids[i], h)
  {
    if n > 0 {
      BindPointsUpToMeaning(guids, matScaffold, n - 1, h);
      if BindsHash(matScaffold, guids[n - 1], h) {
        var b :| b in matScaffold[guids[n - 1]].bindings && b.typeSize != 0 && b.nameHash == h;
        assert h in BindPointsOf(matScaffold[guids[n - 1]].bindings);
      }
      if exists i :: 0 <= i < n && BindsHash(matScaffold, guids[i], h) {
        var i :| 0 <= i < n && BindsHash(matScaffold, guids[i], h);
        if i < n - 1 {
          assert h in BindPointsUpTo(guids, matScaffold, n - 1);
        }
      }
    }
  }

  /** The material `g` exists and has a binding with a non-empty type whose name hashes to `h`. */
  predicate BindsHash(matScaffold: MaterialScaffold, g: MaterialGuid, h: nat)
  {
    g in matScaffold && exists b :: b in matScaffold[g].bindings && b.typeSize != 0 && b.nameHash == h
  }

  /** The texture bind points loop over one material's bindings: the sorted set gains the
    * hash of every binding with a non-empty type. */
  method AddBindPoints(tbp: seq<nat>, bs: seq<Binding>) returns (r: seq<nat>)
    requires StrictlySorted(tbp)
    ensures StrictlySorted(r)
    ensures forall h :: h in r <==> h in tbp || h in BindPointsOf(bs)
  {
    r := tbp;
    var k := 0;
    while k < |bs|
      invariant k <= |bs|
      invariant StrictlySorted(r)
      invariant forall h :: h in r <==> h in tbp || h in BindPointsOf(bs[..k])
    {
      if bs[k].typeSize != 0 {
        r := InsertSorted(r, bs[k].nameHash);
      }
      assert bs[..k + 1] == bs[..k] + [bs[k]];
      k := k + 1;
    }
    assert bs[..k] == bs;
  }

  // ---------------------------------------------------------------------------
  // BuildMaterialResources

  /** What entry `i` of the material-resource table means: the default shader, the texture set
    * at its own position, a constant buffer holding the material's constants, the material's
    * parameter box and render states, and the pass its blending calls for. */
  predicate EntryMeaning(
    mats: MaterialResources, i: nat, matScaffold: MaterialScaffold, cbSize: nat,
    defaults: UITypesBinding.StateSet, cbs: seq<seq<byte>>, shaderNames: seq<string>,
    parameterBoxes: seq<ParameterBox>, renderStateSets: seq<UITypesBinding.StateSet>)
    requires i < |mats|
  {
    var g := mats[i].0;
    var r := mats[i].1;
    var m := GetMaterial(matScaffold, g);
    && r.shaderName < |shaderNames| && shaderNames[r.shaderName] == DefaultShader
    && r.texturesIndex == i
    && r.constantBuffer < |cbs| && cbs[r.constantBuffer] == ConstantData(matScaffold, g, cbSize)
    && r.matParams < |parameterBoxes| && parameterBoxes[r.matParams] == MaterialParamBox(m)
    && r.renderStateSet < |renderStateSets| && renderStateSets[r.renderStateSet] == MaterialStateSet(m, defaults)
    && r.delayStep == DelayStepOf(MaterialStateSet(m, defaults))
  }

  /** The second loop: every material gets the default shader name and, as its texture set,
    * its own position. */
  method AssignShaderNames(guids: seq<MaterialGuid>, sss: SharedStateSet) returns (mats: MaterialResources)
    modifies sss
    ensures Guids(mats) == guids
    ensures sss.Extends()
    ensures sss.parameterBoxes == old(sss.parameterBoxes) && sss.renderStateSets == old(sss.renderStateSets)
    ensures sss.techniqueInterfaces == old(sss.techniqueInterfaces)
    ensures forall i :: 0 <= i < |mats| ==>
      && mats[i].1.shaderName < |sss.shaderNames| && sss.shaderNames[mats[i].1.shaderName] == DefaultShader
      && mats[i].1.texturesIndex == i
  {
    mats := [];
    var i := 0;
    while i < |guids|
      invariant i <= |guids| && |mats| == i
      invariant forall k :: 0 <= k < i ==> mats[k].0 == guids[k]
      invariant sss.Extends()
      invariant sss.parameterBoxes == old(sss.parameterBoxes) && sss.renderStateSets == old(sss.renderStateSets)
      invariant sss.techniqueInterfaces == old(sss.techniqueInterfaces)
      invariant forall k :: 0 <= k < i ==>
        && mats[k].1.shaderName < |sss.shaderNames| && sss.shaderNames[mats[k].1.shaderName] == DefaultShader
        && mats[k].1.texturesIndex == k
    {
      var h := sss.InsertShaderName(DefaultShader);
      mats := mats + [(guids[i], SubMatResources(h, 0, 0, i, 0, OpaqueRender))];
      i := i + 1;
    }
  }

  /** The third loop: each material's constant buffer is deduplicated into `cbs`. */
  method BuildMaterialConstants(mats: MaterialResources, matScaffold: MaterialScaffold, cbs: seq<seq<byte>>, cbSize: nat)
    returns (newMats: MaterialResources, newCbs: seq<seq<byte>>)
    requires NonEmptyConstants(matScaffold, cbSize)
    ensures |newMats| == |mats| && cbs <= newCbs
    ensures NoDuplicates(cbs) ==> NoDuplicates(newCbs)
    ensures forall i :: 0 <= i < |mats| ==>
      && newMats[i].0 == mats[i].0
      && newMats[i].1 == mats[i].1.(constantBuffer := newMats[i].1.constantBuffer)
      && newMats[i].1.constantBuffer < |newCbs|
      && newCbs[newMats[i].1.constantBuffer] == ConstantData(matScaffold, mats[i].0, cbSize)
  {
    newMats, newCbs := [], cbs;
    var i := 0;
    while i < |mats|
      invariant i <= |mats| && |newMats| == i && cbs <= newCbs
      invariant NoDuplicates(cbs) ==> NoDuplicates(newCbs)
      invariant forall k :: 0 <= k < i ==>
        && newMats[k].0 == mats[k].0
        && newMats[k].1 == mats[k].1.(constantBuffer := newMats[k].1.constantBuffer)
        && newMats[k].1.constantBuffer < |newCbs|
        && newCbs[newMats[k].1.constantBuffer] == ConstantData(matScaffold, mats[k].0, cbSize)
    {
      var data := ConstantData(matScaffold, mats[i].0, cbSize);
      InternedFacts(newCbs, data);
      var index;
      newCbs, index := InsertOrCombine(newCbs, data);
      newMats := newMats + [(mats[i].0, mats[i].1.(constantBuffer := index))];
      i := i + 1;
    }
  }

  /** The fourth loop: the parameter box, render states and pass of every material, and the
    * sorted texture bind points of all of them. */
  method ConfigureMaterials(
    mats: MaterialResources, matScaffold: MaterialScaffold, sss: SharedStateSet,
    tbp: seq<nat>, defaults: UITypesBinding.StateSet)
    returns (newMats: MaterialResources, newTbp: seq<nat>)
    requires StrictlySorted(tbp)
    modifies sss
    ensures sss.Extends()
    ensures sss.shaderNames == old(sss.shaderNames) && sss.techniqueInterfaces == old(sss.techniqueInterfaces)
    ensures StrictlySorted(newTbp)
    ensures forall h :: h in newTbp <==> h in tbp || h in BindPointsUpTo(Guids(mats), matScaffold, |mats|)
    ensures |newMats| == |mats|
    ensures forall i :: 0 <= i < |mats| ==> ConfiguredAs(mats[i], newMats[i], matScaffold, defaults, sss.parameterBoxes, sss.renderStateSets)
  {
    newMats, newTbp := [], tbp;
    var i := 0;
    while i < |mats|
      invariant i <= |mats| && |newMats| == i
      invariant sss.Extends()
      invariant sss.shaderNames == old(sss.shaderNames) && sss.techniqueInterfaces == old(sss.techniqueInterfaces)
      invariant StrictlySorted(newTbp)
      invariant forall h :: h in newTbp <==> h in tbp || h in BindPointsUpTo(Guids(mats), matScaffold, i)
      invariant AllConfigured(mats, newMats, matScaffold, defaults, sss.parameterBoxes, sss.renderStateSets)
    {
      var m := GetMaterial(matScaffold, mats[i].0);
      ghost var tbpBefore := newTbp;
      if m.Some? {
        newTbp := AddBindPoints(newTbp, m.value.bindings);
      }
      BindPointsStep(Guids(mats), matScaffold, i, tbp, tbpBefore, newTbp);
      ghost var boxes, states := sss.parameterBoxes, sss.renderStateSets;
      var r := ConfigureMaterial(mats[i], m, matScaffold, sss, defaults);
      ConfiguredAsStep(mats, newMats, r, matScaffold, defaults, boxes, states, sss.parameterBoxes, sss.renderStateSets);
      newMats := newMats + [r];
      i := i + 1;
    }
  }

  /** One material's entry: its parameter box and render states interned in the shared state
    * set, and its pass. */
  method ConfigureMaterial(
    entry: (MaterialGuid, SubMatResources), m: Option<Material>, matScaffold: MaterialScaffold,
    sss: SharedStateSet, defaults: UITypesBinding.StateSet)
    returns (r: (MaterialGuid, SubMatResources))
    requires m == GetMaterial(matScaffold, entry.0)
    modifies sss
    ensures sss.Extends()
    ensures sss.shaderNames == old(sss.shaderNames) && sss.techniqueInterfaces == old(sss.techniqueInterfaces)
    ensures ConfiguredAs(entry, r, matScaffold, defaults, sss.parameterBoxes, sss.renderStateSets)
  {
    var matParams := sss.InsertParameterBox(MaterialParamBox(m));
    var stateSet := sss.InsertRenderStateSet(MaterialStateSet(m, defaults));
    r := (entry.0, entry.1.(matParams := matParams, renderStateSet := stateSet,
                            delayStep := DelayStepOf(MaterialStateSet(m, defaults))));
  }

  /** Entry `after` is entry `before` with the parameter box, render states and pass of its
    * material. */
  predicate ConfiguredAs(
    before: (MaterialGuid, SubMatResources), after: (MaterialGuid, SubMatResources),
    matScaffold: MaterialScaffold, defaults: UITypesBinding.StateSet,
    parameterBoxes: seq<ParameterBox>, renderStateSets: seq<UITypesBinding.StateSet>)
  {
    var m := GetMaterial(matScaffold, before.0);
    && after.0 == before.0
    && after.1 == before.1.(matParams := after.1.matParams, renderStateSet := after.1.renderStateSet, delayStep := after.1.delayStep)
    && after.1.matParams < |parameterBoxes| && parameterBoxes[after.1.matParams] == MaterialParamBox(m)
    && after.1.renderStateSet < |renderStateSets| && renderStateSets[after.1.renderStateSet] == MaterialStateSet(m, defaults)
    && after.1.delayStep == DelayStepOf(MaterialStateSet(m, defaults))
  }

  /** Adding material `i`'s bind points to those of the materials before it gives those of
    * the first `i + 1`. */
  lemma BindPointsStep(guids: seq<MaterialGuid>, matScaffold: MaterialScaffold, i: nat, tbp: seq<nat>, before: seq<nat>, after: seq<nat>)
    requires i < |guids|
    requires forall h :: h in before <==> h in tbp || h in BindPointsUpTo(guids, matScaffold, i)
    requires var m := GetMaterial(matScaffold, guids[i]);
      if m.Some? then forall h :: h in after <==> h in before || h in BindPointsOf(m.value.bindings) else after == before
    ensures forall h :: h in after <==> h in tbp || h in BindPointsUpTo(guids, matScaffold, i + 1)
  {
  }

  /** Each of the entries `after` holds so far is configured from the entry of `mats` at its
    * position. */
  predicate AllConfigured(
    mats: MaterialResources, after: MaterialResources, matScaffold: MaterialScaffold,
    defaults: UITypesBinding.StateSet, boxes: seq<ParameterBox>, states: seq<UITypesBinding.StateSet>)
  {
    && |after| <= |mats|
    && forall k :: 0 <= k < |after| ==> ConfiguredAs(mats[k], after[k], matScaffold, defaults, boxes, states)
  }

  /** The entries configured so far stay configured as the state set grows, and the next one
    * joins them. */
  lemma ConfiguredAsStep(
    mats: MaterialResources, after: MaterialResources, r: (MaterialGuid, SubMatResources),
    matScaffold: MaterialScaffold, defaults: UITypesBinding.StateSet,
    boxes: seq<ParameterBox>, states: seq<UITypesBinding.StateSet>,
    boxes': seq<ParameterBox>, states': seq<UITypesBinding.StateSet>)
    requires |after| < |mats| && boxes <= boxes' && states <= states'
    requires AllConfigured(mats, after, matScaffold, defaults, boxes, states)
    requires ConfiguredAs(mats[|after|], r, matScaffold, defaults, boxes', states')
    ensures AllConfigured(mats, after + [r], matScaffold, defaults, boxes', states')
  {
    forall k | 0 <= k < |after| + 1
      ensures ConfiguredAs(mats[k], (after + [r])[k], matScaffold, defaults, boxes', states')
    {
      if k < |after| {
        assert (after + [r])[k] == after[k];
      }
    }
  }

  /** BuildMaterialResources: the sorted table of the materials the level of detail uses, each
    * entry meaning what EntryMeaning says, with the texture bind points of all of them added
    * to the sorted `tbp` and their constant buffers deduplicated into `cbs`. */
  method BuildMaterialResources(
    s: ModelScaffoldData, matScaffold: MaterialScaffold, sss: SharedStateSet, lod: nat,
    tbp: seq<nat>, cbs: seq<seq<byte>>, cbSize: nat, defaults: UITypesBinding.StateSet)
    returns (mats: MaterialResources, newTbp: seq<nat>, newCbs: seq<seq<byte>>)
    requires WellFormed(s) && StrictlySorted(tbp) && NonEmptyConstants(matScaffold, cbSize)
    modifies sss
    ensures sss.Extends() && sss.techniqueInterfaces == old(sss.techniqueInterfaces)
    ensures StrictlySorted(Guids(mats))
    ensures forall g :: g in Guids(mats) <==> g in LodMaterials(s, lod, CallCount(s))
    ensures forall i :: 0 <= i < |mats| ==>
      EntryMeaning(mats, i, matScaffold, cbSize, defaults, newCbs, sss.shaderNames, sss.parameterBoxes, sss.renderStateSets)
    ensures StrictlySorted(newTbp)
    ensures forall h :: h in newTbp <==> h in tbp || h in BindPointsUpTo(Guids(mats), matScaffold, |mats|)
    ensures cbs <= newCbs && (NoDuplicates(cbs) ==> NoDuplicates(newCbs))
  {
    var guids := CollectMaterialGuids(s, lod);
    var named := AssignShaderNames(guids, sss);
    var withConstants;
    withConstants, newCbs := BuildMaterialConstants(named, matScaffold, cbs, cbSize);
    assert Guids(withConstants) == guids;
    mats, newTbp := ConfigureMaterials(withConstants, matScaffold, sss, tbp, defaults);
    assert Guids(mats) == guids;
  }

  // ---------------------------------------------------------------------------
  // Bound textures

  /** A loaded texture, as the handle of the shared resource. */
  type TextureId = nat

  /** The slot of bind point `index` in texture set `texSet`. */
  function Slot(texSet: nat, index: nat, tpm: nat): nat
  {
    texSet * tpm + index
  }

  lemma SlotInRange(texSet: nat, index: nat, count: nat, tpm: nat)
    requires texSet < count && index < tpm
    ensures Slot(texSet, index, tpm) < count * tpm
  {
    calc {
      texSet * tpm + index;
    <
      texSet * tpm + tpm;
    ==
      (texSet + 1) * tpm;
    <=
      { MulMonotonic(texSet + 1, count, tpm); }
      count * tpm;
    }
  }

  lemma MulMonotonic(a: nat, b: nat, c: nat)
    requires a <= b
    ensures a * c <= b * c
  {
  }

  /** Distinct (texSet, bind point) pairs have distinct slots. */
  lemma SlotUnique(texSet: nat, index: nat, texSet': nat, index': nat, tpm: nat)
    requires index < tpm && index' < tpm
    requires Slot(texSet, index, tpm) == Slot(texSet', index', tpm)
    ensures texSet == texSet' && index == index'
  {
    if texSet < texSet' {
      MulMonotonic(texSet + 1, texSet', tpm);
    } else if texSet' < texSet {
      MulMonotonic(texSet' + 1, texSet, tpm);
    }
  }

  /** Whether binding `b` of a material in texture set `texSet` writes slot `slot`: its type is not
    * empty, it names a resource, and its bind point is the slot's. */
  predicate WritesSlot(b: Binding, texSet: nat, tbp: seq<nat>, slot: nat)
  {
    b.typeSize != 0 && b.nameHash in tbp && b.resourceName != "" && Slot(texSet, IndexOf(tbp, b.nameHash), |tbp|) == slot
  }

  /** Slot `slot` after the bindings `bs` of a material in texture set `texSet`: the last binding
    * writing the slot whose resource loads sets it; a resource that fails to load leaves the
    * slot as it was. */
  function SlotAfterBindings(
    texSet: nat, tbp: seq<nat>, bs: seq<Binding>, resolve: string -> Option<TextureId>,
    slot: nat, init: Option<TextureId>): Option<TextureId>
  {
    if |bs| == 0 then init
    else
      var prev := SlotAfterBindings(texSet, tbp, bs[..|bs| - 1], resolve, slot, init);
      var b := bs[|bs| - 1];
      if WritesSlot(b, texSet, tbp, slot) && resolve(b.resourceName).Some? then resolve(b.resourceName) else prev
  }

  /** Slot `slot` after the first `n` materials. */
  function BoundAfter(
    mats: MaterialResources, matScaffold: MaterialScaffold, tbp: seq<nat>,
    resolve: string -> Option<TextureId>, n: nat, slot: nat): Option<TextureId>
    requires n <= |mats|
  {
    if n == 0 then None
    else
      var prev := BoundAfter(mats, matScaffold, tbp, resolve, n - 1, slot);
      var m := GetMaterial(matScaffold, mats[n - 1].0);
      if m.None? then prev
      else SlotAfterBindings(mats[n - 1].1.texturesIndex, tbp, m.value.bindings, resolve, slot, prev)
  }

  /** BuildBoundTextures: `count` texture sets of one slot per bind point, each slot set as
    * BoundAfter says once every material has been processed. */
  method BuildBoundTextures(
    mats: MaterialResources, matScaffold: MaterialScaffold, tbp: seq<nat>, count: nat,
    resolve: string -> Option<TextureId>)
    returns (boundTextures: seq<Option<TextureId>>)
    requires forall i :: 0 <= i < |mats| ==> mats[i].1.texturesIndex < count
    requires forall i, h :: 0 <= i < |mats| && BindsHash(matScaffold, mats[i].0, h) ==> h in tbp
    ensures |boundTextures| == count * |tbp|
    ensures forall slot :: 0 <= slot < |boundTextures| ==>
      boundTextures[slot] == BoundAfter(mats, matScaffold, tbp, resolve, |mats|, slot)
  {
    var tpm := |tbp|;
    var bound := new Option<TextureId>[count * tpm](_ => None);
    var i := 0;
    while i < |mats|
      invariant i <= |mats|
      invariant forall slot :: 0 <= slot < bound.Length ==> bound[slot] == BoundAfter(mats, matScaffold, tbp, resolve, i, slot)
    {
      var texSet := mats[i].1.texturesIndex;
      var m := GetMaterial(matScaffold, mats[i].0);
      if m.Some? {
        ProcessBindings(bound, texSet, count, tbp, m.value.bindings, resolve, mats, matScaffold, i);
      }
      i := i + 1;
    }
    boundTextures := bound[..];
  }

  /** The inner loop of BuildBoundTextures, over one material's bindings. */
  method ProcessBindings(
    bound: array<Option<TextureId>>, texSet: nat, count: nat, tbp: seq<nat>, bs: seq<Binding>,
    resolve: string -> Option<TextureId>,
    ghost mats: MaterialResources, ghost matScaffold: MaterialScaffold, ghost i: nat)
    requires bound.Length == count * |tbp| && texSet < count
    requires forall b :: b in bs && b.typeSize != 0 ==> b.nameHash in tbp
    modifies bound
    ensures forall slot :: 0 <= slot < bound.Length ==>
      bound[slot] == SlotAfterBindings(texSet, tbp, bs, resolve, slot, old(bound[slot]))
  {
    var k := 0;
    while k < |bs|
      invariant k <= |bs|
      invariant forall slot :: 0 <= slot < bound.Length ==>
        bound[slot] == SlotAfterBindings(texSet, tbp, bs[..k], resolve, slot, old(bound[slot]))
    {
      var b := bs[k];
      assert bs[..k + 1][..k] == bs[..k];
      if b.typeSize != 0 && b.resourceName != "" {
        var index := IndexOf(tbp, b.nameHash);
        SlotInRange(texSet, index, count, |tbp|);
        var dsti := Slot(texSet, index, |tbp|);
        var t := resolve(b.resourceName);
        if t.Some? {
          bound[dsti] := t;
        }
      }
      k := k + 1;
    }
    assert bs[..k] == bs;
  }

  /** The texture the last binding of bind point `h` with a resource that loads gives. */
  function LastResolved(bs: seq<Binding>, h: nat, resolve: string -> Option<TextureId>): Option<TextureId>
  {
    if |bs| == 0 then None
    else
      var b := bs[|bs| - 1];
      if b.typeSize != 0 && b.nameHash == h && b.resourceName != "" && resolve(b.resourceName).Some?
      then resolve(b.resourceName)
      else LastResolved(bs[..|bs| - 1], h, resolve)
  }

  /** Bindings whose non-empty types all have bind points. */
  predicate BindPointsKnown(bs: seq<Binding>, tbp: seq<nat>)
  {
    forall b :: b in bs && b.typeSize != 0 ==> b.nameHash in tbp
  }

  /** A material in another texture set never writes the slot. */
  lemma {:induction false} OtherSetKeepsSlot(
    texSet: nat, tbp: seq<nat>, bs: seq<Binding>, resolve: string -> Option<TextureId>,
    i: nat, j: nat, init: Option<TextureId>)
    requires texSet != i && j < |tbp| && BindPointsKnown(bs, tbp)
    ensures SlotAfterBindings(texSet, tbp, bs, resolve, Slot(i, j, |tbp|), init) == init
  {
    if |bs| > 0 {
      var b := bs[|bs| - 1];
      assert BindPointsKnown(bs[..|bs| - 1], tbp) by {
        forall b' | b' in bs[..|bs| - 1] && b'.typeSize != 0 ensures b'.nameHash in tbp {
          assert b' in bs;
        }
      }
      OtherSetKeepsSlot(texSet, tbp, bs[..|bs| - 1], resolve, i, j, init);
      if WritesSlot(b, texSet, tbp, Slot(i, j, |tbp|)) {
        SlotUnique(texSet, IndexOf(tbp, b.nameHash), i, j, |tbp|);
      }
    }
  }

  /** Within its own texture set, a material's bindings leave in the slot of bind point `j` the
    * texture of its last loadable binding of that bind point, or what was there before. */
  lemma {:induction false} OwnSetSlot(
    i: nat, tbp: seq<nat>, bs: seq<Binding>, resolve: string -> Option<TextureId>,
    j: nat, init: Option<TextureId>)
    requires j < |tbp| && NoDuplicates(tbp) && BindPointsKnown(bs, tbp)
    ensures SlotAfterBindings(i, tbp, bs, resolve, Slot(i, j, |tbp|), init) ==
      (if LastResolved(bs, tbp[j], resolve).Some? then LastResolved(bs, tbp[j], resolve) else init)
  {
    if |bs| > 0 {
      var b := bs[|bs| - 1];
      assert BindPointsKnown(bs[..|bs| - 1], tbp) by {
        forall b' | b' in bs[..|bs| - 1] && b'.typeSize != 0 ensures b'.nameHash in tbp {
          assert b' in bs;
        }
      }
      OwnSetSlot(i, tbp, bs[..|bs| - 1], resolve, j, init);
      if b.typeSize != 0 {
        assert b in bs;
        var index := IndexOf(tbp, b.nameHash);
        if Slot(i, index, |tbp|) == Slot(i, j, |tbp|) {
          SlotUnique(i, index, i, j, |tbp|);
        }
        if b.nameHash == tbp[j] {
          IndexOfFirst(tbp, tbp[j], j);
        }
      }
    }
  }

  /** Before material `i` is reached, its slots are empty. */
  lemma {:induction false} SlotEmptyBefore(
    mats: MaterialResources, matScaffold: MaterialScaffold, tbp: seq<nat>,
    resolve: string -> Option<TextureId>, n: nat, i: nat, j: nat)
    requires n <= i < |mats| && j < |tbp|
    requires forall k :: 0 <= k < |mats| ==> mats[k].1.texturesIndex == k
    requires forall k, h :: 0 <= k < |mats| && BindsHash(matScaffold, mats[k].0, h) ==> h in tbp
    ensures BoundAfter(mats, matScaffold, tbp, resolve, n, Slot(i, j, |tbp|)) == None
  {
    if n > 0 {
      SlotEmptyBefore(mats, matScaffold, tbp, resolve, n - 1, i, j);
      if mats[n - 1].0 in matScaffold {
        KnownBindPoints(mats, matScaffold, tbp, n - 1);
        OtherSetKeepsSlot(n - 1, tbp, matScaffold[mats[n - 1].0].bindings, resolve, i, j, None);
      }
    }
  }

  lemma KnownBindPoints(mats: MaterialResources, matScaffold: MaterialScaffold, tbp: seq<nat>, k: nat)
    requires k < |mats| && mats[k].0 in matScaffold
    requires forall k, h :: 0 <= k < |mats| && BindsHash(matScaffold, mats[k].0, h) ==> h in tbp
    ensures BindPointsKnown(matScaffold[mats[k].0].bindings, tbp)
  {
    forall b | b in matScaffold[mats[k].0].bindings && b.typeSize != 0
      ensures b.nameHash in tbp
    {
      assert BindsHash(matScaffold, mats[k].0, b.nameHash);
    }
  }

  /** After material `i`, no later material touches its slots. */
  lemma {:induction false} SlotKeptAfter(
    mats: MaterialResources, matScaffold: MaterialScaffold, tbp: seq<nat>,
    resolve: string -> Option<TextureId>, n: nat, i: nat, j: nat)
    requires i < n <= |mats| && j < |tbp|
    requires forall k :: 0 <= k < |mats| ==> mats[k].1.texturesIndex == k
    requires forall k, h :: 0 <= k < |mats| && BindsHash(matScaffold, mats[k].0, h) ==> h in tbp
    ensures BoundAfter(mats, matScaffold, tbp, resolve, n, Slot(i, j, |tbp|)) ==
      BoundAfter(mats, matScaffold, tbp, resolve, i + 1, Slot(i, j, |tbp|))
  {
    if n > i + 1 {
      SlotKeptAfter(mats, matScaffold, tbp, resolve, n - 1, i, j);
      if mats[n - 1].0 in matScaffold {
        KnownBindPoints(mats, matScaffold, tbp, n - 1);
        OtherSetKeepsSlot(n - 1, tbp, matScaffold[mats[n - 1].0].bindings, resolve, i, j,
          BoundAfter(mats, matScaffold, tbp, resolve, n - 1, Slot(i, j, |tbp|)));
      }
    }
  }

  /** With the texture sets at their materials' positions, as BuildMaterialResources numbers
    * them, the slot of bind point `j` in texture set `i` holds the texture of material `i`'s
    * last binding of that bind point whose resource loads, and nothing for a missing material
    * or a bind point it does not bind. */
  lemma BoundTextureMeaning(
    mats: MaterialResources, matScaffold: MaterialScaffold, tbp: seq<nat>,
    resolve: string -> Option<TextureId>, i: nat, j: nat)
    requires i < |mats| && j < |tbp| && NoDuplicates(tbp)
    requires forall k :: 0 <= k < |mats| ==> mats[k].1.texturesIndex == k
    requires forall k, h :: 0 <= k < |mats| && BindsHash(matScaffold, mats[k].0, h) ==> h in tbp
    ensures BoundAfter(mats, matScaffold, tbp, resolve, |mats|, Slot(i, j, |tbp|)) ==
      (if mats[i].0 in matScaffold then LastResolved(matScaffold[mats[i].0].bindings, tbp[j], resolve) else None)
  {
    SlotKeptAfter(mats, matScaffold, tbp, resolve, |mats|, i, j);
    SlotEmptyBefore(mats, matScaffold, tbp, resolve, i, i, j);
    if mats[i].0 in matScaffold {
      KnownBindPoints(mats, matScaffold, tbp, i);
      OwnSetSlot(i, tbp, matScaffold[mats[i].0].bindings, resolve, j, None);
    }
  }
}
