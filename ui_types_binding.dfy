/**
 * The editor's managed bindings of render-state and mouse-over data
 * (Tools/GUILayer/UITypesBinding.cpp): the tri-state DoubleSided and
 * Wireframe properties, the classification of a render state set into a
 * standard blend mode and its inverse setter, the mouse-over getters with
 * their sentinels, and the conversion of editor name/value lists into a
 * parameter box.
 *
 * The native RenderCore::Assets::RenderStateSet is declared outside this
 * model; its flag word is modelled as the set of flags it holds, and only the
 * enumerators this file names are modelled. A transaction on the underlying
 * asset is modelled as an in-place update of the state set.
 */
module UITypesBinding {
  import opened Wrappers
  import opened Text

  // ---------------------------------------------------------------------------
  // Render state sets

  datatype CheckState = Unchecked | Checked | Indeterminate

  datatype StateFlag = DoubleSidedFlag | WireframeFlag | ForwardBlendFlag | DeferredBlendFlag

  datatype DeferredBlendMode = Opaque | DecalBlend

  datatype BlendOp = OpNoBlending | OpAdd | OpSubtract | OpRevSubtract | OpMin | OpMax

  datatype Blend = Zero | One | SrcColor | InvSrcColor | SrcAlpha | InvSrcAlpha
                 | DestAlpha | InvDestAlpha | DestColor | InvDestColor

  /** The native render state set: a flag word saying which settings it defines, and
    * the settings. */
  datatype StateSet = StateSet(
    flag: set<StateFlag>,
    doubleSided: bool,
    wireframe: bool,
    deferredBlend: DeferredBlendMode,
    forwardBlendOp: BlendOp,
    forwardBlendSrc: Blend,
    forwardBlendDst: Blend)

  /** The tri-state reading of one boolean setting: indeterminate when its flag is clear. */
  function CheckStateOf(flagSet: bool, value: bool): (r: CheckState)
    ensures r == Indeterminate <==> !flagSet
    ensures r == Checked <==> flagSet && value
  {
    if flagSet then (if value then Checked else Unchecked) else Indeterminate
  }

  /** RenderStateSet::DoubleSided getter. */
  function DoubleSidedOf(s: StateSet): CheckState
  {
    CheckStateOf(DoubleSidedFlag in s.flag, s.doubleSided)
  }

  /** RenderStateSet::Wireframe getter. */
  function WireframeOf(s: StateSet): CheckState
  {
    CheckStateOf(WireframeFlag in s.flag, s.wireframe)
  }

  /** The state set after RenderStateSet::DoubleSided is set to c. */
  function WithDoubleSided(s: StateSet, c: CheckState): StateSet
  {
    if c == Indeterminate then s.(flag := s.flag - {DoubleSidedFlag})
    else s.(flag := s.flag + {DoubleSidedFlag}, doubleSided := c == Checked)
  }

  /** The state set after RenderStateSet::Wireframe is set to c. */
  function WithWireframe(s: StateSet, c: CheckState): StateSet
  {
    if c == Indeterminate then s.(flag := s.flag - {WireframeFlag})
    else s.(flag := s.flag + {WireframeFlag}, wireframe := c == Checked)
  }

  /** Setting DoubleSided and reading it back gives the state set; nothing but the
    * DoubleSided flag and value changes. */
  lemma DoubleSidedRoundTrip(s: StateSet, c: CheckState)
    ensures DoubleSidedOf(WithDoubleSided(s, c)) == c
    ensures WithDoubleSided(s, c).flag - {DoubleSidedFlag} == s.flag - {DoubleSidedFlag}
    ensures WithDoubleSided(s, c).(flag := s.flag, doubleSided := s.doubleSided) == s
    ensures WireframeOf(WithDoubleSided(s, c)) == WireframeOf(s)
  {
  }

  /** The same for Wireframe. */
  lemma WireframeRoundTrip(s: StateSet, c: CheckState)
    ensures WireframeOf(WithWireframe(s, c)) == c
    ensures WithWireframe(s, c).flag - {WireframeFlag} == s.flag - {WireframeFlag}
    ensures WithWireframe(s, c).(flag := s.flag, wireframe := s.wireframe) == s
    ensures DoubleSidedOf(WithWireframe(s, c)) == DoubleSidedOf(s)
  {
  }

  // ---------------------------------------------------------------------------
  // Standard blend modes

  datatype StandardBlendModes =
    | Inherit | NoBlending | Decal | Transparent | TransparentPremultiplied
    | Add | AddAlpha | Subtract | SubtractAlpha | Min | Max | Complex

  datatype StandardBlendDef = StandardBlendDef(standardMode: StandardBlendModes, op: BlendOp, src: Blend, dst: Blend)

  /** s_standardBlendDefs, in its order. */
  const StandardBlendDefs: seq<StandardBlendDef> := [
    StandardBlendDef(NoBlending, OpNoBlending, One, Zero),
    StandardBlendDef(Decal, OpNoBlending, One, Zero),
    StandardBlendDef(Transparent, OpAdd, SrcAlpha, InvSrcAlpha),
    StandardBlendDef(TransparentPremultiplied, OpAdd, One, InvSrcAlpha),
    StandardBlendDef(Add, OpAdd, One, One),
    StandardBlendDef(AddAlpha, OpAdd, SrcAlpha, One),
    StandardBlendDef(Subtract, OpSubtract, One, One),
    StandardBlendDef(SubtractAlpha, OpSubtract, SrcAlpha, One),
    StandardBlendDef(Min, OpMin, One, One),
    StandardBlendDef(Max, OpMax, One, One)]

  predicate RowMatches(def: StandardBlendDef, op: BlendOp, src: Blend, dst: Blend)
  {
    def.op == op && def.src == src && def.dst == dst
  }

  /** The index of the first row of defs whose operation and factors are (op, src, dst),
    * or -1 when no row has them. */
  function FirstRowMatching(defs: seq<StandardBlendDef>, op: BlendOp, src: Blend, dst: Blend): (r: int)
    ensures -1 <= r < |defs|
    ensures r >= 0 ==> RowMatches(defs[r], op, src, dst)
    ensures forall j :: 0 <= j < |defs| && (r < 0 || j < r) ==> !RowMatches(defs[j], op, src, dst)
  {
    if |defs| == 0 then -1
    else if RowMatches(defs[0], op, src, dst) then 0
    else
      var r := FirstRowMatching(defs[1..], op, src, dst);
      assert forall j :: 1 <= j < |defs| ==> defs[j] == defs[1..][j - 1];
      if r < 0 then -1 else r + 1
  }

  /** Only the first two rows use no blending; the other rows have distinct operations and
    * factors, and no two rows share a mode. Inherit and Complex have no row. */
  lemma StandardBlendDefsShape()
    ensures |StandardBlendDefs| == 10
    ensures forall i :: 0 <= i < |StandardBlendDefs| ==> (StandardBlendDefs[i].op == OpNoBlending <==> i < 2)
    ensures forall i :: 0 <= i < |StandardBlendDefs| ==> StandardBlendDefs[i].standardMode != Inherit && StandardBlendDefs[i].standardMode != Complex
    ensures StandardBlendDefs[0].standardMode == NoBlending && StandardBlendDefs[1].standardMode == Decal
    ensures forall i, j :: 2 <= i < j < |StandardBlendDefs| ==>
      !RowMatches(StandardBlendDefs[j], StandardBlendDefs[i].op, StandardBlendDefs[i].src, StandardBlendDefs[i].dst)
    ensures forall i, j :: 0 <= i < j < |StandardBlendDefs| ==> StandardBlendDefs[i].standardMode != StandardBlendDefs[j].standardMode
  {
  }

  /** A deferred decal, or no blending, as the deferred settings say. */
  function DeferredMode(s: StateSet): StandardBlendModes
  {
    if DeferredBlendFlag in s.flag && s.deferredBlend == DecalBlend then Decal else NoBlending
  }

  /** The blend mode the editor shows for a state set. */
  function BlendModeOf(s: StateSet): (r: StandardBlendModes)
    ensures ForwardBlendFlag !in s.flag ==> r != Complex
  {
    if ForwardBlendFlag !in s.flag then
      if DeferredBlendFlag in s.flag then DeferredMode(s) else Inherit
    else if s.forwardBlendOp == OpNoBlending then DeferredMode(s)
    else
      var row := FirstRowMatching(StandardBlendDefs, s.forwardBlendOp, s.forwardBlendSrc, s.forwardBlendDst);
      if row >= 0 then StandardBlendDefs[row].standardMode else Complex
  }

  /** Without the forward-blend flag, the mode is Decal or NoBlending from the deferred
    * settings when the deferred flag is set, and Inherit otherwise. With it, a
    * no-blending operation again defers to the deferred settings, and any other
    * operation is a table mode exactly when some table row matches it. */
  lemma BlendModeClassification(s: StateSet)
    ensures ForwardBlendFlag !in s.flag && DeferredBlendFlag !in s.flag ==> BlendModeOf(s) == Inherit
    ensures BlendModeOf(s) == Inherit ==> ForwardBlendFlag !in s.flag && DeferredBlendFlag !in s.flag
    ensures BlendModeOf(s) == Decal <==>
      DeferredBlendFlag in s.flag && s.deferredBlend == DecalBlend
      && (ForwardBlendFlag !in s.flag || s.forwardBlendOp == OpNoBlending)
    ensures BlendModeOf(s) == Complex <==>
      ForwardBlendFlag in s.flag && s.forwardBlendOp != OpNoBlending
      && forall i :: 0 <= i < |StandardBlendDefs| ==>
        !RowMatches(StandardBlendDefs[i], s.forwardBlendOp, s.forwardBlendSrc, s.forwardBlendDst)
  {
    StandardBlendDefsShape();
    var i := FirstRowMatching(StandardBlendDefs, s.forwardBlendOp, s.forwardBlendSrc, s.forwardBlendDst);
    if ForwardBlendFlag in s.flag && s.forwardBlendOp != OpNoBlending && i >= 0 {
      assert i >= 2;
    }
  }

  /** AsStandardBlendMode: the classification, scanning the table in order. */
  method AsStandardBlendMode(s: StateSet) returns (r: StandardBlendModes)
    ensures r == BlendModeOf(s)
  {
    var op, src, dst := s.forwardBlendOp, s.forwardBlendSrc, s.forwardBlendDst;
    if ForwardBlendFlag !in s.flag {
      if DeferredBlendFlag in s.flag {
        if s.deferredBlend == DecalBlend {
          return Decal;
        }
        return NoBlending;
      }
      return Inherit;
    }
    if op == OpNoBlending {
      if DeferredBlendFlag in s.flag {
        if s.deferredBlend == DecalBlend {
          return Decal;
        }
      }
      return NoBlending;
    }
    var c := 0;
    while c < |StandardBlendDefs|
      invariant 0 <= c <= |StandardBlendDefs|
      invariant forall j :: 0 <= j < c ==> !RowMatches(StandardBlendDefs[j], op, src, dst)
    {
      if op == StandardBlendDefs[c].op && src == StandardBlendDefs[c].src && dst == StandardBlendDefs[c].dst {
        assert FirstRowMatching(StandardBlendDefs, op, src, dst) == c;
        return StandardBlendDefs[c].standardMode;
      }
      c := c + 1;
    }
    assert FirstRowMatching(StandardBlendDefs, op, src, dst) == -1;
    return Complex;
  }

  /** The index of the first table row defining the mode, or -1. */
  function RowFor(defs: seq<StandardBlendDef>, mode: StandardBlendModes): (r: int)
    ensures -1 <= r < |defs|
    ensures r >= 0 ==> defs[r].standardMode == mode
    ensures forall j :: 0 <= j < |defs| && (r < 0 || j < r) ==> defs[j].standardMode != mode
  {
    if |defs| == 0 then -1
    else if defs[0].standardMode == mode then 0
    else
      var r := RowFor(defs[1..], mode);
      assert forall j :: 1 <= j < |defs| ==> defs[j] == defs[1..][j - 1];
      if r < 0 then -1 else r + 1
  }

  /** The state set after the StandardBlendMode setter. Complex and the mode already
    * shown are ignored; Inherit clears both blend flags; a table mode writes its row as
    * the forward blend, and Decal also turns the deferred decal on. */
  function WithStandardBlendMode(s: StateSet, mode: StandardBlendModes): (r: StateSet)
    ensures r.doubleSided == s.doubleSided && r.wireframe == s.wireframe
    ensures forall f :: f != ForwardBlendFlag && f != DeferredBlendFlag ==> (f in r.flag <==> f in s.flag)
  {
    if mode == Complex || mode == BlendModeOf(s) then s
    else if mode == Inherit then
      s.(forwardBlendOp := OpNoBlending, forwardBlendSrc := One, forwardBlendDst := Zero,
         deferredBlend := Opaque, flag := s.flag - {ForwardBlendFlag} - {DeferredBlendFlag})
    else
      var row := RowFor(StandardBlendDefs, mode);
      if row < 0 then s
      else
        var def := StandardBlendDefs[row];
        var forward := s.(forwardBlendOp := def.op, forwardBlendSrc := def.src, forwardBlendDst := def.dst,
                          deferredBlend := Opaque, flag := s.flag + {ForwardBlendFlag} - {DeferredBlendFlag});
        if mode == Decal then forward.(deferredBlend := DecalBlend, flag := forward.flag + {DeferredBlendFlag})
        else forward
  }

  /** A table mode other than the current one writes its first row. */
  lemma TableModeUpdate(s: StateSet, mode: StandardBlendModes, c: nat)
    requires mode != Complex && mode != Inherit && mode != BlendModeOf(s)
    requires c < |StandardBlendDefs| && StandardBlendDefs[c].standardMode == mode
    requires forall j :: 0 <= j < c ==> StandardBlendDefs[j].standardMode != mode
    ensures var def := StandardBlendDefs[c];
      var forward := s.(forwardBlendOp := def.op, forwardBlendSrc := def.src, forwardBlendDst := def.dst,
                        deferredBlend := Opaque, flag := s.flag + {ForwardBlendFlag} - {DeferredBlendFlag});
      WithStandardBlendMode(s, mode) ==
        if mode == Decal then forward.(deferredBlend := DecalBlend, flag := forward.flag + {DeferredBlendFlag}) else forward
  {
    assert RowFor(StandardBlendDefs, mode) == c;
  }

  /** Every mode with a table row is found, at its own row. */
  lemma {:induction false} RowForTableMode(mode: StandardBlendModes)
    requires mode != Inherit && mode != Complex
    ensures RowFor(StandardBlendDefs, mode) >= 0
  {
    match mode
    case NoBlending =>
    case Decal =>
    case Transparent =>
    case TransparentPremultiplied =>
    case Add =>
    case AddAlpha =>
    case Subtract =>
    case SubtractAlpha =>
    case Min =>
    case Max =>
  }

  /** A forward-blend state written from a table row other than the two no-blending rows
    * classifies as that row's mode. */
  lemma ForwardRowClassifies(s: StateSet, k: nat)
    requires 2 <= k < |StandardBlendDefs|
    requires ForwardBlendFlag in s.flag
    requires RowMatches(StandardBlendDefs[k], s.forwardBlendOp, s.forwardBlendSrc, s.forwardBlendDst)
    ensures BlendModeOf(s) == StandardBlendDefs[k].standardMode
  {
    StandardBlendDefsShape();
    var i := FirstRowMatching(StandardBlendDefs, s.forwardBlendOp, s.forwardBlendSrc, s.forwardBlendDst);
    assert i >= 2;
    assert i == k;
  }

  /** A table mode other than the current one reads back as set. */
  lemma TableModeRoundTrip(s: StateSet, mode: StandardBlendModes)
    requires mode != Complex && mode != Inherit && mode != BlendModeOf(s)
    ensures BlendModeOf(WithStandardBlendMode(s, mode)) == mode
  {
    RowForTableMode(mode);
    var k := RowFor(StandardBlendDefs, mode);
    if k >= 2 {
      ForwardModeRoundTrip(s, mode, k);
    } else {
      NoBlendingModeRoundTrip(s, mode, k);
    }
  }

  /** A mode written as a forward blend reads back from its row. */
  lemma ForwardModeRoundTrip(s: StateSet, mode: StandardBlendModes, k: int)
    requires mode != Complex && mode != Inherit && mode != BlendModeOf(s)
    requires k == RowFor(StandardBlendDefs, mode) && k >= 2
    ensures BlendModeOf(WithStandardBlendMode(s, mode)) == mode
  {
    TableModeFields(s, mode, k);
    ForwardRowClassifies(WithStandardBlendMode(s, mode), k);
  }

  /** A table mode writes its row's forward blend and sets the forward-blend flag. */
  lemma TableModeFields(s: StateSet, mode: StandardBlendModes, c: nat)
    requires mode != Complex && mode != Inherit && mode != BlendModeOf(s)
    requires c < |StandardBlendDefs| && StandardBlendDefs[c].standardMode == mode
    requires forall j :: 0 <= j < c ==> StandardBlendDefs[j].standardMode != mode
    ensures var t := WithStandardBlendMode(s, mode);
      && ForwardBlendFlag in t.flag
      && RowMatches(StandardBlendDefs[c], t.forwardBlendOp, t.forwardBlendSrc, t.forwardBlendDst)
  {
    TableModeUpdate(s, mode, c);
  }

  /** NoBlending and Decal, written without forward blending, read back from the deferred
    * settings. */
  lemma NoBlendingModeRoundTrip(s: StateSet, mode: StandardBlendModes, k: int)
    requires mode != Complex && mode != Inherit && mode != BlendModeOf(s)
    requires k == RowFor(StandardBlendDefs, mode) && 0 <= k < 2
    ensures BlendModeOf(WithStandardBlendMode(s, mode)) == mode
  {
    TableModeUpdate(s, mode, k);
    var t := WithStandardBlendMode(s, mode);
    assert StandardBlendDefs[k].op == OpNoBlending;
    assert ForwardBlendFlag in t.flag && t.forwardBlendOp == OpNoBlending;
    assert BlendModeOf(t) == DeferredMode(t);
    if k == 0 {
      assert mode == NoBlending && DeferredBlendFlag !in t.flag;
    } else {
      assert mode == Decal && DeferredBlendFlag in t.flag && t.deferredBlend == DecalBlend;
    }
  }

  /** Every mode but Complex reads back as set; setting Complex changes nothing. */
  lemma StandardBlendModeRoundTrip(s: StateSet, mode: StandardBlendModes)
    ensures mode != Complex ==> BlendModeOf(WithStandardBlendMode(s, mode)) == mode
    ensures mode == Complex ==> WithStandardBlendMode(s, mode) == s
  {
    if mode != Complex && mode != BlendModeOf(s) && mode != Inherit {
      TableModeRoundTrip(s, mode);
    }
  }

  /** The blend-mode setter leaves the DoubleSided and Wireframe settings alone. */
  lemma StandardBlendModeKeepsOtherStates(s: StateSet, mode: StandardBlendModes)
    ensures DoubleSidedOf(WithStandardBlendMode(s, mode)) == DoubleSidedOf(s)
    ensures WireframeOf(WithStandardBlendMode(s, mode)) == WireframeOf(s)
  {
  }

  /** The managed RenderStateSet: its setters update the underlying state set. */
  class RenderStateSet {
    var stateSet: StateSet

    constructor (underlying: StateSet)
      ensures stateSet == underlying
    {
      stateSet := underlying;
    }

    method SetDoubleSided(checkState: CheckState)
      modifies this
      ensures stateSet == WithDoubleSided(old(stateSet), checkState)
      ensures DoubleSidedOf(stateSet) == checkState
    {
      if checkState == Indeterminate {
        stateSet := stateSet.(flag := stateSet.flag - {DoubleSidedFlag});
      } else {
        stateSet := stateSet.(flag := stateSet.flag + {DoubleSidedFlag});
        stateSet := stateSet.(doubleSided := checkState == Checked);
      }
    }

    method SetWireframe(checkState: CheckState)
      modifies this
      ensures stateSet == WithWireframe(old(stateSet), checkState)
      ensures WireframeOf(stateSet) == checkState
    {
      if checkState == Indeterminate {
        stateSet := stateSet.(flag := stateSet.flag - {WireframeFlag});
      } else {
        stateSet := stateSet.(flag := stateSet.flag + {WireframeFlag});
        stateSet := stateSet.(wireframe := checkState == Checked);
      }
    }

    method SetStandardBlendMode(newMode: StandardBlendModes)
      modifies this
      ensures stateSet == WithStandardBlendMode(old(stateSet), newMode)
      ensures newMode != Complex ==> BlendModeOf(stateSet) == newMode
    {
      ghost var target := WithStandardBlendMode(stateSet, newMode);
      StandardBlendModeRoundTrip(stateSet, newMode);
      if newMode == Complex {
        return;
      }
      var current := AsStandardBlendMode(stateSet);
      if newMode == current {
        return;
      }
      if newMode == Inherit {
        stateSet := stateSet.(forwardBlendOp := OpNoBlending, forwardBlendSrc := One, forwardBlendDst := Zero,
                              deferredBlend := Opaque);
        stateSet := stateSet.(flag := stateSet.flag - {ForwardBlendFlag});
        stateSet := stateSet.(flag := stateSet.flag - {DeferredBlendFlag});
        assert stateSet == target;
        return;
      }
      var c := 0;
      while c < |StandardBlendDefs| && StandardBlendDefs[c].standardMode != newMode
        invariant 0 <= c <= |StandardBlendDefs|
        invariant forall j :: 0 <= j < c ==> StandardBlendDefs[j].standardMode != newMode
      {
        c := c + 1;
      }
      if c < |StandardBlendDefs| {
        var def := StandardBlendDefs[c];
        TableModeUpdate(stateSet, newMode, c);
        stateSet := stateSet.(forwardBlendOp := def.op, forwardBlendSrc := def.src, forwardBlendDst := def.dst,
                              deferredBlend := Opaque);
        stateSet := stateSet.(flag := stateSet.flag + {ForwardBlendFlag});
        stateSet := stateSet.(flag := stateSet.flag - {DeferredBlendFlag});
        if newMode == Decal {
          stateSet := stateSet.(deferredBlend := DecalBlend);
          stateSet := stateSet.(flag := stateSet.flag + {DeferredBlendFlag});
        }
        assert stateSet == target;
      }
    }
  }

  // ---------------------------------------------------------------------------
  // Mouse-over getters

  datatype MouseOver = MouseOver(hasMouseOver: bool, drawCallIndex: nat, materialGuid: nat)

  const NoDrawCallIndex: nat := 0xFFFF_FFFF
  const NoMaterialGuid: nat := 0xFFFF_FFFF_FFFF_FFFF

  /** VisMouseOver::DrawCallIndex: the all-ones 32-bit value without a mouse-over. That
    * value signals "nothing under the mouse" exactly when no real index is all ones. */
  function DrawCallIndex(m: MouseOver): (r: nat)
    ensures m.drawCallIndex < NoDrawCallIndex ==> (r == NoDrawCallIndex <==> !m.hasMouseOver)
    ensures m.hasMouseOver ==> r == m.drawCallIndex
  {
    if m.hasMouseOver then m.drawCallIndex else NoDrawCallIndex
  }

  /** VisMouseOver::MaterialBindingGuid: the all-ones 64-bit value without a mouse-over.
    * That value signals "nothing under the mouse" exactly when no real guid is all ones. */
  function MaterialBindingGuid(m: MouseOver): (r: nat)
    ensures m.materialGuid < NoMaterialGuid ==> (r == NoMaterialGuid <==> !m.hasMouseOver)
    ensures m.hasMouseOver ==> r == m.materialGuid
  {
    if m.hasMouseOver then m.materialGuid else NoMaterialGuid
  }

  /** VisMouseOver::MaterialName: the last ';'-separated segment of the full material name,
    * after its first ':'. String.Split always yields at least one segment, so only a
    * missing full name gives the placeholder. */
  function MaterialName(fullName: Option<string>): (r: string)
    ensures fullName.None? ==> r == "<<no material>>"
    ensures fullName.Some? ==> |r| <= |fullName.value| && r == fullName.value[|fullName.value| - |r|..]
    ensures fullName.Some? ==> ';' !in r
  {
    if fullName.None? then "<<no material>>"
    else
      var s := fullName.value;
      var start := LastIndexOf(s, ';') + 1;
      var colon := IndexOf(s[start..], ':');
      var from := if colon >= 0 then start + colon + 1 else start;
      assert forall k :: from <= k < |s| ==> s[k] != ';';
      s[from..]
  }

  lemma {:induction false} LastIndexOfAfterSeparator(prefix: string, c: char, tail: string)
    requires c !in tail
    ensures LastIndexOf(prefix + [c] + tail, c) == |prefix|
    decreases |tail|
  {
    var s := prefix + [c] + tail;
    if |tail| > 0 {
      assert s[..|s| - 1] == prefix + [c] + tail[..|tail| - 1];
      LastIndexOfAfterSeparator(prefix, c, tail[..|tail| - 1]);
    }
  }

  lemma {:induction false} IndexOfBeforeSeparator(head: string, c: char, rest: string)
    requires c !in head
    ensures IndexOf(head + [c] + rest, c) == |head|
    decreases |head|
  {
    var s := head + [c] + rest;
    if |head| > 0 {
      assert s[1..] == head[1..] + [c] + rest;
      IndexOfBeforeSeparator(head[1..], c, rest);
    }
  }

  /** For a name of the form "...;archive:material", the material part is shown. */
  lemma MaterialNameOfQualifiedName(prefix: string, archive: string, material: string)
    requires ';' !in archive && ';' !in material && ':' !in archive
    ensures MaterialName(Some(prefix + ";" + archive + ":" + material)) == material
  {
    var s := prefix + ";" + archive + ":" + material;
    LastIndexOfAfterSeparator(prefix, ';', archive + ":" + material);
    assert s == prefix + [';'] + (archive + ":" + material);
    assert s[|prefix| + 1..] == archive + [':'] + material;
    IndexOfBeforeSeparator(archive, ':', material);
  }

  /** A name without ';' or ':' is shown whole. */
  lemma MaterialNameOfPlainName(name: string)
    requires ';' !in name && ':' !in name
    ensures MaterialName(Some(name)) == name
  {
  }

  // ---------------------------------------------------------------------------
  // BindingConv::AsParameterBox

  datatype StringStringPair = StringStringPair(name: Option<string>, value: Option<string>)
  datatype StringIntPair = StringIntPair(name: Option<string>, value: int)

  /** A parameter box is modelled as its name-to-value map; setting a parameter that is
    * already present replaces its value. */
  function SetParameter<V>(box: map<string, V>, name: string, value: V): map<string, V>
  {
    box[name := value]
  }

  /** The box built from entries set in order, so the last entry of a name wins. */
  function BoxOf<V>(entries: seq<(string, V)>): map<string, V>
  {
    if |entries| == 0 then map[]
    else SetParameter(BoxOf(entries[..|entries| - 1]), entries[|entries| - 1].0, entries[|entries| - 1].1)
  }

  lemma {:induction false} BoxOfKeys<V>(entries: seq<(string, V)>, name: string)
    ensures name in BoxOf(entries) <==> exists i :: 0 <= i < |entries| && entries[i].0 == name
  {
    if |entries| > 0 {
      var init := entries[..|entries| - 1];
      BoxOfKeys(init, name);
      if name != entries[|entries| - 1].0 && name in BoxOf(entries) {
        assert name in BoxOf(init);
        var i :| 0 <= i < |init| && init[i].0 == name;
        assert entries[i].0 == name;
      }
      if exists i :: 0 <= i < |entries| - 1 && entries[i].0 == name {
        var i :| 0 <= i < |entries| - 1 && entries[i].0 == name;
        assert init[i].0 == name;
      }
    }
  }

  lemma {:induction false} BoxOfLastWins<V>(entries: seq<(string, V)>, i: nat)
    requires i < |entries|
    requires forall j :: i < j < |entries| ==> entries[j].0 != entries[i].0
    ensures entries[i].0 in BoxOf(entries) && BoxOf(entries)[entries[i].0] == entries[i].1
  {
    if i < |entries| - 1 {
      BoxOfLastWins(entries[..|entries| - 1], i);
    }
  }

  /** The string pairs the conversion keeps: a non-empty name and a value. */
  predicate KeepsStringPair(p: StringStringPair)
  {
    p.name.Some? && |p.name.value| > 0 && p.value.Some?
  }

  /** The int pairs the conversion keeps: a non-empty name. */
  predicate KeepsIntPair(p: StringIntPair)
  {
    p.name.Some? && |p.name.value| > 0
  }

  function StringEntries(input: seq<StringStringPair>): seq<(string, string)>
  {
    if |input| == 0 then []
    else
      var p := input[|input| - 1];
      StringEntries(input[..|input| - 1]) + (if KeepsStringPair(p) then [(p.name.value, p.value.value)] else [])
  }

  function IntEntries(input: seq<StringIntPair>): seq<(string, int)>
  {
    if |input| == 0 then []
    else
      var p := input[|input| - 1];
      IntEntries(input[..|input| - 1]) + (if KeepsIntPair(p) then [(p.name.value, p.value)] else [])
  }

  /** The string-pair conversion keeps a name exactly when some pair with that name is kept. */
  lemma {:induction false} StringEntriesNames(input: seq<StringStringPair>, name: string)
    ensures (exists i :: 0 <= i < |StringEntries(input)| && StringEntries(input)[i].0 == name)
        <==> (exists i :: 0 <= i < |input| && KeepsStringPair(input[i]) && input[i].name.value == name)
  {
    if |input| > 0 {
      var init := input[..|input| - 1];
      var p := input[|input| - 1];
      var e := StringEntries(init);
      var tail: seq<(string, string)> := if KeepsStringPair(p) then [(p.name.value, p.value.value)] else [];
      assert StringEntries(input) == e + tail;
      StringEntriesNames(init, name);
      if exists i :: 0 <= i < |StringEntries(input)| && StringEntries(input)[i].0 == name {
        var i :| 0 <= i < |StringEntries(input)| && StringEntries(input)[i].0 == name;
        if i < |e| {
          assert e[i].0 == name;
          var j :| 0 <= j < |init| && KeepsStringPair(init[j]) && init[j].name.value == name;
          assert input[j] == init[j];
        } else {
          assert KeepsStringPair(input[|input| - 1]);
        }
      }
      if exists i :: 0 <= i < |input| && KeepsStringPair(input[i]) && input[i].name.value == name {
        var i :| 0 <= i < |input| && KeepsStringPair(input[i]) && input[i].name.value == name;
        if i < |init| {
          assert init[i] == input[i];
          var j :| 0 <= j < |e| && e[j].0 == name;
          assert StringEntries(input)[j] == e[j];
        } else {
          assert StringEntries(input)[|e|].0 == name;
        }
      }
    }
  }

  /** The parameter box of a list of string pairs: the dropped pairs are exactly those
    * with a null or empty name or a null value. */
  method AsParameterBoxFromStrings(input: seq<StringStringPair>) returns (result: map<string, string>)
    ensures result == BoxOf(StringEntries(input))
  {
    result := map[];
    var i := 0;
    while i < |input|
      invariant 0 <= i <= |input|
      invariant result == BoxOf(StringEntries(input[..i]))
    {
      var p := input[i];
      assert input[..i + 1][..i] == input[..i];
      if p.name.Some? && |p.name.value| > 0 && p.value.Some? {
        result := SetParameter(result, p.name.value, p.value.value);
        assert StringEntries(input[..i + 1]) == StringEntries(input[..i]) + [(p.name.value, p.value.value)];
      } else {
        assert StringEntries(input[..i + 1]) == StringEntries(input[..i]);
      }
      i := i + 1;
    }
    assert input[..i] == input;
  }

  /** The parameter box of a list of int pairs: only pairs with a null or empty name are
    * dropped. */
  method AsParameterBoxFromInts(input: seq<StringIntPair>) returns (result: map<string, int>)
    ensures result == BoxOf(IntEntries(input))
  {
    result := map[];
    var i := 0;
    while i < |input|
      invariant 0 <= i <= |input|
      invariant result == BoxOf(IntEntries(input[..i]))
    {
      var p := input[i];
      assert input[..i + 1][..i] == input[..i];
      if p.name.Some? && |p.name.value| > 0 {
        result := SetParameter(result, p.name.value, p.value);
        assert IntEntries(input[..i + 1]) == IntEntries(input[..i]) + [(p.name.value, p.value)];
      } else {
        assert IntEntries(input[..i + 1]) == IntEntries(input[..i]);
      }
      i := i + 1;
    }
    assert input[..i] == input;
  }

  /** A name is in the string-pair box exactly when some kept pair carries it. */
  lemma StringBoxNames(input: seq<StringStringPair>, name: string)
    ensures name in BoxOf(StringEntries(input))
        <==> exists i :: 0 <= i < |input| && KeepsStringPair(input[i]) && input[i].name.value == name
  {
    BoxOfKeys(StringEntries(input), name);
    StringEntriesNames(input, name);
  }
}
