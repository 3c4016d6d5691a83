/**
 * The shader-graph editor's node bookkeeping (Tools/NodeEditor/ShaderFragmentNodes.cs):
 * connector type abbreviations, connection compatibility, node-tag ids, the
 * parameter source-type names, the fix-up of item directions when a parameter
 * node changes type, archive renames, and the synchronisation of the preview
 * material state with the material parameters in the graph.
 */
module ShaderFragmentNodes {
  import opened Wrappers
  import Text

  // ---------------------------------------------------------------------------
  // ShaderFragmentNodeItem and its Type setter

  /** The last three characters are digit, 'x', digit (a matrix type such as float3x4). */
  predicate EndsWithDimensions(t: string)
  {
    |t| > 2 && Text.IsAsciiDigit(t[|t| - 3]) && t[|t| - 2] == 'x' && Text.IsAsciiDigit(t[|t| - 1])
  }

  /** The abbreviation the Type setter stores in _shortType. */
  function ShortType(t: string): (r: string)
    ensures |t| == 0 ==> r == ""
    ensures |t| > 0 ==> 1 <= |r| <= |t| + 1 && r[0] == t[0] && r[1..] == t[|t| - (|r| - 1)..]
    ensures |t| > 0 && !Text.IsAsciiDigit(t[|t| - 1]) ==> |r| == 1
    ensures |t| > 0 && EndsWithDimensions(t) ==> |r| == 4
    ensures |t| > 0 && Text.IsAsciiDigit(t[|t| - 1]) && !EndsWithDimensions(t) ==> |r| == 2
  {
    if |t| == 0 then ""
    else if Text.IsAsciiDigit(t[|t| - 1]) then
      if |t| > 2 && t[|t| - 2] == 'x' && Text.IsAsciiDigit(t[|t| - 3]) then [t[0]] + t[|t| - 3..]
      else [t[0]] + t[|t| - 1..]
    else [t[0]]
  }

  lemma ShortTypeExamples()
    ensures ShortType("float3x4") == "f3x4"
    ensures ShortType("float4") == "f4"
    ensures ShortType("float") == "f"
    ensures ShortType("") == ""
  {
  }

  /** An item's Tag: the connector type string, null, or some other object. */
  datatype ItemTag = NullTag | TypeTag(typeName: string) | ObjectTag

  datatype NodeItem =
    | FragmentItem(name: string, typeText: string, tag: ItemTag, archiveName: Option<string>,
                   inputEnabled: bool, outputEnabled: bool)
    | DropDownItem(choices: seq<string>, selectedIndex: nat)
    | PreviewItem
    | OtherItem

  /** The ShaderFragmentNodeItem constructor: the Tag is set to the type once, here. */
  function NewFragmentItem(name: string, typeText: string, archiveName: Option<string>,
                           inputEnabled: bool, outputEnabled: bool): (item: NodeItem)
    ensures item.FragmentItem? && item.tag == TypeTag(typeText)
    ensures item.name == name && item.typeText == typeText && item.archiveName == archiveName
    ensures item.inputEnabled == inputEnabled && item.outputEnabled == outputEnabled
  {
    FragmentItem(name, typeText, TypeTag(typeText), archiveName, inputEnabled, outputEnabled)
  }

  // ---------------------------------------------------------------------------
  // ShaderFragmentNodeCompatibility.CanConnect

  datatype ConnectionType = Compatible | Conversion | Incompatible

  /** hasAutomaticConversion stands for TypeRules.HasAutomaticConversion, which is
    * not part of this model. */
  function CanConnect(from: ItemTag, to: ItemTag, hasAutomaticConversion: (string, string) -> bool): (r: ConnectionType)
    ensures from.NullTag? && to.NullTag? ==> r == Compatible
    ensures from.NullTag? != to.NullTag? ==> r == Incompatible
    ensures r == Compatible <==>
      (from.NullTag? && to.NullTag?) ||
      (from.TypeTag? && to.TypeTag? && Text.EqualsIgnoreCase(from.typeName, to.typeName))
    ensures r == Conversion <==>
      from.TypeTag? && to.TypeTag? && !Text.EqualsIgnoreCase(from.typeName, to.typeName)
      && hasAutomaticConversion(from.typeName, to.typeName)
  {
    if from.NullTag? && to.NullTag? then Compatible
    else if from.NullTag? || to.NullTag? then Incompatible
    else if from.TypeTag? && to.TypeTag? then
      if Text.EqualsIgnoreCase(from.typeName, to.typeName) then Compatible
      else if hasAutomaticConversion(from.typeName, to.typeName) then Conversion
      else Incompatible
    else Incompatible
  }

  /** Compatibility (as opposed to conversion) does not depend on the direction. */
  lemma CompatibleIsSymmetric(a: ItemTag, b: ItemTag, conv: (string, string) -> bool)
    ensures CanConnect(a, b, conv) == Compatible <==> CanConnect(b, a, conv) == Compatible
  {
  }

  // ---------------------------------------------------------------------------
  // ShaderFragmentNodeTag ids

  const UInt32Modulus: nat := 0x1_0000_0000

  /** The static nodeAccumulatingId counter shared by all node tags. */
  class NodeTagCounter {
    var nodeAccumulatingId: nat

    ghost predicate Valid() reads this { nodeAccumulatingId < UInt32Modulus }

    /** The static initialiser sets the counter to 1. */
    constructor ()
      ensures Valid() && nodeAccumulatingId == 1
    {
      nodeAccumulatingId := 1;
    }

    /** `Id = ++nodeAccumulatingId`, an unchecked UInt32 pre-increment. */
    method NextId() returns (id: nat)
      requires Valid()
      modifies this
      ensures Valid() && id == nodeAccumulatingId
      ensures id == (old(nodeAccumulatingId) + 1) % UInt32Modulus
      ensures old(nodeAccumulatingId) < UInt32Modulus - 1 ==> id == old(nodeAccumulatingId) + 1
    {
      nodeAccumulatingId := (nodeAccumulatingId + 1) % UInt32Modulus;
      id := nodeAccumulatingId;
    }
  }

  /** Two tags made one after the other get distinct, increasing ids, the first being 2. */
  method TwoTagsFromStart() returns (first: nat, second: nat)
    ensures first == 2 && second == 3
  {
    var counter := new NodeTagCounter();
    first := counter.NextId();
    second := counter.NextId();
  }

  // ---------------------------------------------------------------------------
  // Parameter source types and their display strings

  datatype SourceType = Material | InterpolatorIntoVertex | InterpolatorIntoPixel | System | Output | Constant

  /** Enum.GetValues order. */
  const AllSourceTypes: seq<SourceType> :=
    [Material, InterpolatorIntoVertex, InterpolatorIntoPixel, System, Output, Constant]

  function AsString(e: SourceType): (r: string)
    ensures |r| > 0
  {
    match e
    case Material => "Material Parameter"
    case InterpolatorIntoVertex => "Interpolator Into Vertex Shader"
    case InterpolatorIntoPixel => "Interpolator Into Pixel Shader"
    case System => "System Parameter"
    case Output => "Output"
    case Constant => "Constant"
  }

  /** The first source type in es whose display string is input. */
  function FirstWithName(es: seq<SourceType>, input: string): (r: Option<SourceType>)
    ensures r.Some? ==> r.value in es && AsString(r.value) == input
    ensures r.None? ==> forall e :: e in es ==> AsString(e) != input
  {
    if |es| == 0 then None
    else if AsString(es[0]) == input then Some(es[0])
    else FirstWithName(es[1..], input)
  }

  /** The source type whose display string is `input`; Material for any other string. */
  function AsSourceType(input: string): (r: SourceType)
    ensures AsString(r) == input || (r == Material && forall e :: AsString(e) != input)
  {
    match FirstWithName(AllSourceTypes, input)
    case Some(e) => e
    case None => Material
  }

  lemma AsStringInjective(a: SourceType, b: SourceType)
    requires AsString(a) == AsString(b)
    ensures a == b
  {
  }

  /** AsSourceType undoes AsString for every source type. */
  lemma AsSourceTypeInvertsAsString(e: SourceType)
    ensures AsSourceType(AsString(e)) == e
  {
    var r := FirstWithName(AllSourceTypes, AsString(e));
    assert e in AllSourceTypes;
    AsStringInjective(r.value, e);
  }

  /** Any string that is no source type's display string selects Material. */
  lemma AsSourceTypeDefaultsToMaterial(input: string)
    requires forall e: SourceType :: AsString(e) != input
    ensures AsSourceType(input) == Material
  {
  }

  // ---------------------------------------------------------------------------
  // Graph nodes

  datatype NodeTag = NoNodeTag | ProcedureNodeTag(archiveName: string, id: nat) | ParameterNodeTag(archiveName: string, id: nat)

  datatype Node = Node(tag: NodeTag, items: seq<NodeItem>)

  /** A parameter in the shader fragment archive, looked up by archive name. */
  datatype Parameter = Parameter(name: string, typeName: string, defaultText: string)

  /** A fragment item with exactly one of input and output enabled, pointing the wrong way
    * for the node's new type. */
  predicate NeedsDirectionFix(item: NodeItem, isOutput: bool)
  {
    item.FragmentItem? && item.outputEnabled != item.inputEnabled && item.outputEnabled != !isOutput
  }

  /** The item recreated with input enabled iff the node is an output node. */
  function Redirected(item: NodeItem, isOutput: bool): (r: NodeItem)
    requires item.FragmentItem?
    ensures r.FragmentItem? && r.inputEnabled == isOutput && r.outputEnabled == !isOutput
    ensures r.name == item.name && r.typeText == item.typeText && r.archiveName == item.archiveName
  {
    NewFragmentItem(item.name, item.typeText, item.archiveName, isOutput, !isOutput)
  }

  /** Items the type change leaves in place, in order. */
  function KeptItems(s: seq<NodeItem>, isOutput: bool): (r: seq<NodeItem>)
    decreases |s|
  {
    if |s| == 0 then []
    else KeptItems(s[..|s| - 1], isOutput)
         + (if NeedsDirectionFix(s[|s| - 1], isOutput) then [] else [s[|s| - 1]])
  }

  /** Replacements for the items that pointed the wrong way, in order. */
  function RedirectedItems(s: seq<NodeItem>, isOutput: bool): (r: seq<NodeItem>)
    decreases |s|
  {
    if |s| == 0 then []
    else RedirectedItems(s[..|s| - 1], isOutput)
         + (if NeedsDirectionFix(s[|s| - 1], isOutput) then [Redirected(s[|s| - 1], isOutput)] else [])
  }

  lemma {:induction false} KeptAndRedirectedCount(s: seq<NodeItem>, isOutput: bool)
    ensures |KeptItems(s, isOutput)| + |RedirectedItems(s, isOutput)| == |s|
    decreases |s|
  {
    if |s| > 0 {
      KeptAndRedirectedCount(s[..|s| - 1], isOutput);
    }
  }

  lemma {:induction false} RedirectedItemsPointTheRightWay(s: seq<NodeItem>, isOutput: bool)
    ensures forall x :: x in RedirectedItems(s, isOutput) ==>
      x.FragmentItem? && x.inputEnabled == isOutput && x.outputEnabled == !isOutput
    decreases |s|
  {
    if |s| > 0 {
      RedirectedItemsPointTheRightWay(s[..|s| - 1], isOutput);
    }
  }

  lemma {:induction false} KeptItemsNeedNoFix(s: seq<NodeItem>, isOutput: bool)
    ensures forall x :: x in KeptItems(s, isOutput) ==> x in s && !NeedsDirectionFix(x, isOutput)
    decreases |s|
  {
    if |s| > 0 {
      KeptItemsNeedNoFix(s[..|s| - 1], isOutput);
    }
  }

  /** After a type change every fragment item with a single direction has its output
    * enabled iff the node is not an Output node. */
  lemma TypeChangeFixesDirections(s: seq<NodeItem>, isOutput: bool)
    ensures forall x :: x in KeptItems(s, isOutput) + RedirectedItems(s, isOutput)
              && x.FragmentItem? && x.inputEnabled != x.outputEnabled
              ==> x.outputEnabled == !isOutput
  {
    RedirectedItemsPointTheRightWay(s, isOutput);
    KeptItemsNeedNoFix(s, isOutput);
  }

  /** Each replacement keeps the name, type and archive name of an item it replaced. */
  lemma {:induction false} RedirectedItemsKeepIdentity(s: seq<NodeItem>, isOutput: bool, j: nat)
    requires j < |RedirectedItems(s, isOutput)|
    ensures RedirectedItems(s, isOutput)[j].FragmentItem?
    ensures exists k :: (0 <= k < |s| && s[k].FragmentItem?
      && RedirectedItems(s, isOutput)[j].name == s[k].name
      && RedirectedItems(s, isOutput)[j].typeText == s[k].typeText
      && RedirectedItems(s, isOutput)[j].archiveName == s[k].archiveName)
    decreases |s|
  {
    RedirectedItemsPointTheRightWay(s, isOutput);
    assert RedirectedItems(s, isOutput)[j] in RedirectedItems(s, isOutput);
    var prefix := s[..|s| - 1];
    RedirectedItemsPointTheRightWay(prefix, isOutput);
    if j < |RedirectedItems(prefix, isOutput)| {
      RedirectedItemsKeepIdentity(prefix, isOutput, j);
      var k :| 0 <= k < |prefix| && prefix[k].FragmentItem?
        && RedirectedItems(prefix, isOutput)[j].name == prefix[k].name
        && RedirectedItems(prefix, isOutput)[j].typeText == prefix[k].typeText
        && RedirectedItems(prefix, isOutput)[j].archiveName == prefix[k].archiveName;
      assert s[k] == prefix[k];
    } else {
      assert s[|s| - 1].FragmentItem?;
    }
  }

  lemma SplitStep(s: seq<NodeItem>, i: nat, isOutput: bool)
    requires i < |s|
    ensures KeptItems(s[..i + 1], isOutput)
      == KeptItems(s[..i], isOutput) + (if NeedsDirectionFix(s[i], isOutput) then [] else [s[i]])
    ensures RedirectedItems(s[..i + 1], isOutput)
      == RedirectedItems(s[..i], isOutput) + (if NeedsDirectionFix(s[i], isOutput) then [Redirected(s[i], isOutput)] else [])
  {
    assert s[..i + 1][..i] == s[..i];
  }

  /** Removing the first element of the middle part of a three-part sequence and appending a
    * replacement at the end. */
  lemma RemoveAt<T>(a: seq<T>, b: seq<T>, c: seq<T>, x: T)
    requires |b| > 0
    ensures (a + b + c)[..|a|] + (a + b + c)[|a| + 1..] + [x] == a + b[1..] + (c + [x])
  {
    assert (a + b + c)[..|a|] == a;
    assert (a + b + c)[|a| + 1..] == b[1..] + c;
  }

  /** Moving the first element of the middle part to the end of the first part. */
  lemma KeepFirst<T>(a: seq<T>, b: seq<T>, c: seq<T>)
    requires |b| > 0
    ensures a + b + c == (a + [b[0]]) + b[1..] + c
  {
    assert b == [b[0]] + b[1..];
  }

  /** One step of the loop below: the item at `i` either stays where it is or moves, redirected,
    * to the end. */
  lemma FixDirectionStep(oldItems: seq<NodeItem>, isOutput: bool, i: nat, items: seq<NodeItem>, kept: nat)
    requires i < |oldItems| && kept == |KeptItems(oldItems[..i], isOutput)|
    requires items == KeptItems(oldItems[..i], isOutput) + oldItems[i..] + RedirectedItems(oldItems[..i], isOutput)
    ensures kept < |items| && items[kept] == oldItems[i]
    ensures NeedsDirectionFix(oldItems[i], isOutput) ==>
      && kept == |KeptItems(oldItems[..i + 1], isOutput)|
      && items[..kept] + items[kept + 1..] + [Redirected(oldItems[i], isOutput)]
         == KeptItems(oldItems[..i + 1], isOutput) + oldItems[i + 1..] + RedirectedItems(oldItems[..i + 1], isOutput)
    ensures !NeedsDirectionFix(oldItems[i], isOutput) ==>
      && kept + 1 == |KeptItems(oldItems[..i + 1], isOutput)|
      && items == KeptItems(oldItems[..i + 1], isOutput) + oldItems[i + 1..] + RedirectedItems(oldItems[..i + 1], isOutput)
  {
    var done, rest, added := KeptItems(oldItems[..i], isOutput), oldItems[i..], RedirectedItems(oldItems[..i], isOutput);
    SplitStep(oldItems, i, isOutput);
    assert rest[0] == oldItems[i] && rest[1..] == oldItems[i + 1..];
    if NeedsDirectionFix(oldItems[i], isOutput) {
      RemoveAt(done, rest, added, Redirected(oldItems[i], isOutput));
    } else {
      KeepFirst(done, rest, added);
    }
  }

  /** The loop of ParameterNodeTypeChanged over a snapshot of the node's items: a wrongly
    * directed item is removed from where it stands and its replacement appended. */
  method FixItemDirections(oldItems: seq<NodeItem>, isOutput: bool) returns (items: seq<NodeItem>)
    ensures items == KeptItems(oldItems, isOutput) + RedirectedItems(oldItems, isOutput)
  {
    items := oldItems;
    var kept := 0;
    var i := 0;
    while i < |oldItems|
      invariant 0 <= i <= |oldItems|
      invariant kept == |KeptItems(oldItems[..i], isOutput)|
      invariant items == KeptItems(oldItems[..i], isOutput) + oldItems[i..] + RedirectedItems(oldItems[..i], isOutput)
    {
      var item := oldItems[i];
      FixDirectionStep(oldItems, isOutput, i, items, kept);
      if item.FragmentItem? && (item.outputEnabled != item.inputEnabled) && item.outputEnabled != !isOutput {
        var newItem := NewFragmentItem(item.name, item.typeText, item.archiveName, isOutput, !isOutput);
        assert newItem == Redirected(item, isOutput);
        items := items[..kept] + items[kept + 1..] + [newItem];
      } else {
        kept := kept + 1;
      }
      i := i + 1;
    }
    assert oldItems[..i] == oldItems;
  }

  /** The fragment item archiveName refers to oldName, after the rename. */
  function Renamed(item: NodeItem, oldName: string, newName: string, archive: map<string, Parameter>): (r: NodeItem)
  {
    if item.FragmentItem? && item.archiveName == Some(oldName) then
      if newName in archive then
        item.(archiveName := Some(newName), name := archive[newName].name, typeText := archive[newName].typeName)
      else
        item.(archiveName := Some(newName), name := "<<unknown>>", typeText := "<<unknown>>")
    else item
  }

  function RenamedItems(s: seq<NodeItem>, oldName: string, newName: string, archive: map<string, Parameter>): (r: seq<NodeItem>)
    ensures |r| == |s|
    ensures forall k :: 0 <= k < |s| ==> r[k] == Renamed(s[k], oldName, newName, archive)
  {
    seq(|s|, k requires 0 <= k < |s| => Renamed(s[k], oldName, newName, archive))
  }

  /** Only items that referred to the old name change, they then refer to the new name, and
    * their connector Tag keeps the type they had before: CanConnect still sees that type. */
  lemma RenameChangesOnlyMatchingItems(item: NodeItem, oldName: string, newName: string, archive: map<string, Parameter>)
    ensures !(item.FragmentItem? && item.archiveName == Some(oldName)) ==> Renamed(item, oldName, newName, archive) == item
    ensures item.FragmentItem? && item.archiveName == Some(oldName) ==>
      var r := Renamed(item, oldName, newName, archive);
      r.archiveName == Some(newName) && r.tag == item.tag
      && r.inputEnabled == item.inputEnabled && r.outputEnabled == item.outputEnabled
      && (newName in archive ==> r.name == archive[newName].name && r.typeText == archive[newName].typeName)
      && (newName !in archive ==> r.name == "<<unknown>>" && r.typeText == "<<unknown>>")
  {
  }

  /** After a rename to a different name no fragment item refers to the old name. */
  lemma {:induction false} RenameLeavesNoOldReference(s: seq<NodeItem>, oldName: string, newName: string, archive: map<string, Parameter>)
    requires oldName != newName
    ensures forall x :: x in RenamedItems(s, oldName, newName, archive) && x.FragmentItem? ==> x.archiveName != Some(oldName)
  {
    var r := RenamedItems(s, oldName, newName, archive);
    forall x | x in r && x.FragmentItem? ensures x.archiveName != Some(oldName) {
      var k :| 0 <= k < |r| && r[k] == x;
    }
  }

  // ---------------------------------------------------------------------------
  // FillInMaterialParameters: the preview material state against the graph

  datatype SyncError = NullArchiveName | DuplicatePreviewKey(key: string)

  /** A preview value: the parameter's default text converted to its type, or the
    * type's default object (TypeRules is not part of this model). */
  datatype PreviewValue = ParsedDefault(text: string, typeName: string) | TypeDefault(typeName: string)

  predicate DropDownsValid(items: seq<NodeItem>)
  {
    forall i :: 0 <= i < |items| && items[i].DropDownItem? ==> items[i].selectedIndex < |items[i].choices|
  }

  /** The source type a parameter node's first drop-down selects; System when it has none. */
  function NodeSourceType(items: seq<NodeItem>): SourceType
    requires DropDownsValid(items)
    decreases |items|
  {
    if |items| == 0 then System
    else if items[0].DropDownItem? then AsSourceType(items[0].choices[items[0].selectedIndex])
    else NodeSourceType(items[1..])
  }

  predicate GraphDropDownsValid(nodes: seq<Node>)
  {
    forall n :: 0 <= n < |nodes| ==> DropDownsValid(nodes[n].items)
  }

  predicate IsMaterialParameterNode(n: Node)
    requires DropDownsValid(n.items)
  {
    n.tag.ParameterNodeTag? && |n.items| > 0 && NodeSourceType(n.items) == Material
  }

  /** Items of the graph's material parameter nodes, in node order. */
  function MaterialItems(nodes: seq<Node>): seq<NodeItem>
    requires GraphDropDownsValid(nodes)
    decreases |nodes|
  {
    if |nodes| == 0 then []
    else (if IsMaterialParameterNode(nodes[0]) then nodes[0].items else []) + MaterialItems(nodes[1..])
  }

  function Keys(entries: seq<(string, string)>): set<string>
  {
    set e | e in entries :: e.0
  }

  /** The type collected for an archive name. */
  function CollectedType(key: string, archive: map<string, Parameter>): string
  {
    if key in archive then archive[key].typeName else "<<unknown>>"
  }

  /** newMaterialParameters after visiting items, starting from acc: each fragment item's
    * archive name once, in first-seen order. A null archive name makes ContainsKey throw. */
  function CollectFrom(acc: seq<(string, string)>, items: seq<NodeItem>, archive: map<string, Parameter>)
    : (r: Result<seq<(string, string)>, SyncError>)
    ensures r.Err? ==> r.error == NullArchiveName
    decreases |items|
  {
    if |items| == 0 then Ok(acc)
    else if !items[0].FragmentItem? then CollectFrom(acc, items[1..], archive)
    else if items[0].archiveName.None? then Err(NullArchiveName)
    else if items[0].archiveName.value in Keys(acc) then CollectFrom(acc, items[1..], archive)
    else
      var key := items[0].archiveName.value;
      CollectFrom(acc + [(key, CollectedType(key, archive))], items[1..], archive)
  }

  predicate DistinctKeys(entries: seq<(string, string)>)
  {
    forall i, j :: 0 <= i < j < |entries| ==> entries[i].0 != entries[j].0
  }

  /** The collection holds every archive name of the visited fragment items, once each,
    * and fails exactly when one of them has no archive name. */
  lemma {:induction false} CollectFromMeaning(acc: seq<(string, string)>, items: seq<NodeItem>, archive: map<string, Parameter>)
    requires DistinctKeys(acc)
    ensures CollectFrom(acc, items, archive).Err? <==>
      exists i :: 0 <= i < |items| && items[i].FragmentItem? && items[i].archiveName.None?
    ensures CollectFrom(acc, items, archive).Ok? ==>
      var r := CollectFrom(acc, items, archive).value;
      DistinctKeys(r) && |r| >= |acc| && r[..|acc|] == acc
      && Keys(r) == Keys(acc) + (set i | 0 <= i < |items| && items[i].FragmentItem? && items[i].archiveName.Some? :: items[i].archiveName.value)
      && forall e :: e in r[|acc|..] ==> e.1 == CollectedType(e.0, archive)
    decreases |items|
  {
    CollectFromFails(acc, items, archive);
    if |items| > 0 && CollectFrom(acc, items, archive).Ok? {
      var item := items[0];
      var tail := items[1..];
      if !item.FragmentItem? || (item.archiveName.Some? && item.archiveName.value in Keys(acc)) {
        CollectFromMeaning(acc, tail, archive);
        assert forall i :: 0 < i < |items| ==> items[i] == tail[i - 1];
      } else if item.archiveName.Some? {
        var key := item.archiveName.value;
        var acc' := acc + [(key, CollectedType(key, archive))];
        assert DistinctKeys(acc') by {
          forall e | e in acc ensures e.0 != key {
            assert e.0 in Keys(acc);
          }
        }
        CollectFromMeaning(acc', tail, archive);
        assert forall i :: 0 < i < |items| ==> items[i] == tail[i - 1];
        var r := CollectFrom(acc, items, archive).value;
        assert r[..|acc'|][..|acc|] == r[..|acc|];
        assert r[|acc|..] == [r[|acc|]] + r[|acc'|..];
      }
    }
  }

  /** Collection fails exactly when a visited fragment item has no archive name. */
  lemma {:induction false} CollectFromFails(acc: seq<(string, string)>, items: seq<NodeItem>, archive: map<string, Parameter>)
    ensures CollectFrom(acc, items, archive).Err? <==>
      exists i :: 0 <= i < |items| && items[i].FragmentItem? && items[i].archiveName.None?
    decreases |items|
  {
    if |items| > 0 {
      var item := items[0];
      var tail := items[1..];
      assert forall i :: 0 < i < |items| ==> items[i] == tail[i - 1];
      if !item.FragmentItem? || item.archiveName.Some? {
        var next := if !item.FragmentItem? || item.archiveName.value in Keys(acc) then acc
          else acc + [(item.archiveName.value, CollectedType(item.archiveName.value, archive))];
        CollectFromFails(next, tail, archive);
        if CollectFrom(acc, items, archive).Err? {
          var i :| 0 <= i < |tail| && tail[i].FragmentItem? && tail[i].archiveName.None?;
          assert items[i + 1] == tail[i];
        }
      }
    }
  }

  /** Where collection stops with an error, the rest does not matter; otherwise visiting a
    * and then b is visiting a + b. */
  lemma {:induction false} CollectFromAppend(acc: seq<(string, string)>, a: seq<NodeItem>, b: seq<NodeItem>, archive: map<string, Parameter>)
    ensures CollectFrom(acc, a + b, archive) ==
      match CollectFrom(acc, a, archive)
      case Ok(mid) => CollectFrom(mid, b, archive)
      case Err(e) => Err(e)
    decreases |a|
  {
    if |a| > 0 {
      assert (a + b)[0] == a[0];
      assert (a + b)[1..] == a[1..] + b;
      var item := a[0];
      if !item.FragmentItem? || (item.archiveName.Some? && item.archiveName.value in Keys(acc)) {
        CollectFromAppend(acc, a[1..], b, archive);
      } else if item.archiveName.Some? {
        var key := item.archiveName.value;
        CollectFromAppend(acc + [(key, CollectedType(key, archive))], a[1..], b, archive);
      }
    } else {
      assert a + b == b;
    }
  }

  /** The preview state without the keys absent from the collection. */
  function Pruned(state: map<string, PreviewValue>, keys: set<string>): (r: map<string, PreviewValue>)
    ensures r.Keys == state.Keys * keys
    ensures forall k :: k in r ==> r[k] == state[k]
  {
    map k | k in state && k in keys :: state[k]
  }

  /** The key a collected archive name is added under: the parameter's name when the
    * archive knows it, the archive name otherwise. */
  function PreviewKey(key: string, archive: map<string, Parameter>): string
  {
    if key in archive then archive[key].name else key
  }

  function InitialValue(key: string, typeName: string, archive: map<string, Parameter>): PreviewValue
  {
    if key in archive && |archive[key].defaultText| > 0 then ParsedDefault(archive[key].defaultText, archive[key].typeName)
    else TypeDefault(typeName)
  }

  /** State, "something was added" flag, and the exception Dictionary.Add threw, if any. */
  datatype AddOutcome = AddOutcome(state: map<string, PreviewValue>, added: bool, error: Option<SyncError>)

  /** The adding loop over the collected entries: an entry whose archive name is not a key
    * is added under its preview key; adding an existing key throws. */
  function AddMissing(state: map<string, PreviewValue>, entries: seq<(string, string)>, archive: map<string, Parameter>)
    : (r: AddOutcome)
    ensures forall k :: k in state ==> k in r.state && r.state[k] == state[k]
    ensures r.error.Some? ==> r.error.value.DuplicatePreviewKey?
    decreases |entries|
  {
    if |entries| == 0 then AddOutcome(state, false, None)
    else
      var key := entries[0].0;
      if key in state then AddMissing(state, entries[1..], archive)
      else
        var name := PreviewKey(key, archive);
        if name in state then AddOutcome(state, false, Some(DuplicatePreviewKey(name)))
        else
          var rest := AddMissing(state[name := InitialValue(key, entries[0].1, archive)], entries[1..], archive);
          rest.(added := true)
  }

  /** Adding only adds: no key disappears and the values already there stay. */
  lemma {:induction false} AddMissingOnlyAdds(state: map<string, PreviewValue>, entries: seq<(string, string)>, archive: map<string, Parameter>)
    ensures var r := AddMissing(state, entries, archive);
      (forall k :: k in state ==> k in r.state && r.state[k] == state[k])
      && (forall k :: k in r.state && k !in state ==> exists e :: e in entries && PreviewKey(e.0, archive) == k)
      && (r.state.Keys != state.Keys ==> r.added)
    decreases |entries|
  {
    if |entries| > 0 {
      var key := entries[0].0;
      var name := PreviewKey(key, archive);
      if key in state {
        AddMissingOnlyAdds(state, entries[1..], archive);
      } else if name !in state {
        var state' := state[name := InitialValue(key, entries[0].1, archive)];
        AddMissingOnlyAdds(state', entries[1..], archive);
        var r := AddMissing(state, entries, archive);
        forall k | k in r.state && k !in state
          ensures exists e :: e in entries && PreviewKey(e.0, archive) == k
        {
          if k != name {
            var e :| e in entries[1..] && PreviewKey(e.0, archive) == k;
          }
        }
      }
    }
  }

  /** When every archive name is its own preview key and the entries are distinct,
    * adding succeeds and makes the keys exactly the old keys plus the entries' names. */
  lemma {:induction false} AddMissingWithMatchingNames(state: map<string, PreviewValue>, entries: seq<(string, string)>, archive: map<string, Parameter>)
    requires DistinctKeys(entries)
    requires forall e :: e in entries ==> PreviewKey(e.0, archive) == e.0
    ensures var r := AddMissing(state, entries, archive);
      r.error.None? && r.state.Keys == state.Keys + Keys(entries)
      && r.added == !(Keys(entries) <= state.Keys)
    decreases |entries|
  {
    if |entries| > 0 {
      var key := entries[0].0;
      assert DistinctKeys(entries[1..]) by {
        forall i, j | 0 <= i < j < |entries[1..]| ensures entries[1..][i].0 != entries[1..][j].0 {
          assert entries[1..][i] == entries[i + 1] && entries[1..][j] == entries[j + 1];
        }
      }
      assert Keys(entries) == {key} + Keys(entries[1..]);
      if key in state {
        AddMissingWithMatchingNames(state, entries[1..], archive);
      } else {
        var state' := state[key := InitialValue(key, entries[0].1, archive)];
        AddMissingWithMatchingNames(state', entries[1..], archive);
      }
    }
  }

  datatype SyncOutcome = SyncOutcome(state: map<string, PreviewValue>, result: Result<bool, SyncError>)

  /** The removal and adding loops of FillInMaterialParameters, given the collected entries. */
  function Sync(state: map<string, PreviewValue>, entries: seq<(string, string)>, archive: map<string, Parameter>): (r: SyncOutcome)
    ensures forall k :: k in state && k in Keys(entries) ==> k in r.state && r.state[k] == state[k]
    ensures r.result.Ok? && !(state.Keys <= Keys(entries)) ==> r.result.value
  {
    var keys := Keys(entries);
    var removed := !(state.Keys <= keys);
    var outcome := AddMissing(Pruned(state, keys), entries, archive);
    SyncOutcome(outcome.state, if outcome.error.Some? then Err(outcome.error.value) else Ok(removed || outcome.added))
  }

  /** When every collected archive name is its own preview key, one sync makes the preview
    * keys exactly the collected names and reports whether they differed before, so a second
    * sync reports nothing to do. */
  lemma SyncWithMatchingNames(state: map<string, PreviewValue>, entries: seq<(string, string)>, archive: map<string, Parameter>)
    requires DistinctKeys(entries)
    requires forall e :: e in entries ==> PreviewKey(e.0, archive) == e.0
    ensures var first := Sync(state, entries, archive);
      first.result == Ok(state.Keys != Keys(entries)) && first.state.Keys == Keys(entries)
      && Sync(first.state, entries, archive).result == Ok(false)
  {
    var keys := Keys(entries);
    AddMissingWithMatchingNames(Pruned(state, keys), entries, archive);
    var first := Sync(state, entries, archive);
    AddMissingWithMatchingNames(Pruned(first.state, keys), entries, archive);
    assert Pruned(first.state, keys).Keys == keys;
  }

  /** A material parameter whose archive name differs from its name, as local archive
    * parameters do ("LocalArchive[Colour]" named "Colour"): every sync removes the entry it
    * added the time before and adds it again, so it always reports a change and replaces
    * the value the user edited with the default. */
  lemma SyncResetsPreviewValues()
    ensures var archive := map["LocalArchive[Colour]" := Parameter("Colour", "float3", "")];
      var entries := [("LocalArchive[Colour]", "float3")];
      var first := Sync(map[], entries, archive);
      var edited := map["Colour" := ParsedDefault("1, 0, 0", "float3")];
      first == SyncOutcome(map["Colour" := TypeDefault("float3")], Ok(true))
      && Sync(edited, entries, archive) == SyncOutcome(map["Colour" := TypeDefault("float3")], Ok(true))
  {
    var archive := map["LocalArchive[Colour]" := Parameter("Colour", "float3", "")];
    var entries := [("LocalArchive[Colour]", "float3")];
    assert Keys(entries) == {"LocalArchive[Colour]"};
    var edited := map["Colour" := ParsedDefault("1, 0, 0", "float3")];
    assert Pruned(edited, Keys(entries)) == map[];
    assert Pruned(map[], Keys(entries)) == map[];
  }

  // The synchronisation keyed the way the entries are added: by preview key.

  function PreviewKeys(entries: seq<(string, string)>, archive: map<string, Parameter>): set<string>
  {
    set e | e in entries :: PreviewKey(e.0, archive)
  }

  function AddMissingByPreviewKey(state: map<string, PreviewValue>, entries: seq<(string, string)>, archive: map<string, Parameter>)
    : (r: (map<string, PreviewValue>, bool))
    decreases |entries|
  {
    if |entries| == 0 then (state, false)
    else
      var name := PreviewKey(entries[0].0, archive);
      if name in state then AddMissingByPreviewKey(state, entries[1..], archive)
      else
        var rest := AddMissingByPreviewKey(state[name := InitialValue(entries[0].0, entries[0].1, archive)], entries[1..], archive);
        (rest.0, true)
  }

  lemma {:induction false} AddMissingByPreviewKeyMeaning(state: map<string, PreviewValue>, entries: seq<(string, string)>, archive: map<string, Parameter>)
    ensures var r := AddMissingByPreviewKey(state, entries, archive);
      r.0.Keys == state.Keys + PreviewKeys(entries, archive)
      && (forall k :: k in state ==> r.0[k] == state[k])
      && r.1 == !(PreviewKeys(entries, archive) <= state.Keys)
    decreases |entries|
  {
    if |entries| > 0 {
      var name := PreviewKey(entries[0].0, archive);
      assert PreviewKeys(entries, archive) == {name} + PreviewKeys(entries[1..], archive);
      if name in state {
        AddMissingByPreviewKeyMeaning(state, entries[1..], archive);
      } else {
        AddMissingByPreviewKeyMeaning(state[name := InitialValue(entries[0].0, entries[0].1, archive)], entries[1..], archive);
      }
    }
  }

  /** Sync with removal and adding both keyed by preview key. */
  function CorrectedSync(state: map<string, PreviewValue>, entries: seq<(string, string)>, archive: map<string, Parameter>)
    : (r: SyncOutcome)
    ensures r.result.Ok?
    ensures r.state.Keys == PreviewKeys(entries, archive)
    ensures forall k :: k in state && k in r.state ==> r.state[k] == state[k]
    ensures r.result.value <==> r.state.Keys != state.Keys
  {
    var keys := PreviewKeys(entries, archive);
    var removed := !(state.Keys <= keys);
    var added := AddMissingByPreviewKey(Pruned(state, keys), entries, archive);
    AddMissingByPreviewKeyMeaning(Pruned(state, keys), entries, archive);
    SyncOutcome(added.0, Ok(removed || added.1))
  }

  /** A second corrected sync finds nothing to do and keeps every value. */
  lemma CorrectedSyncIsIdempotent(state: map<string, PreviewValue>, entries: seq<(string, string)>, archive: map<string, Parameter>)
    ensures var first := CorrectedSync(state, entries, archive);
      CorrectedSync(first.state, entries, archive) == SyncOutcome(first.state, Ok(false))
  {
  }

  /** The preview material state of a shader diagram document. */
  class Document {
    var previewMaterialState: map<string, PreviewValue>

    constructor (state: map<string, PreviewValue>)
      ensures previewMaterialState == state
    {
      previewMaterialState := state;
    }

    /** FillInMaterialParameters: collect the material parameter names of the graph, drop the
      * preview entries not among them and add an entry for every name not yet present.
      * Returns whether anything was removed or added. */
    method FillInMaterialParameters(nodes: seq<Node>, archive: map<string, Parameter>)
      returns (r: Result<bool, SyncError>)
      requires GraphDropDownsValid(nodes)
      modifies this
      ensures var collected := CollectFrom([], MaterialItems(nodes), archive);
        if collected.Err? then r == Err(collected.error) && previewMaterialState == old(previewMaterialState)
        else
          var outcome := Sync(old(previewMaterialState), collected.value, archive);
          previewMaterialState == outcome.state && r == outcome.result
    {
      var collected := CollectMaterialParameters(nodes, archive);
      if collected.Err? {
        return Err(collected.error);
      }
      var entries := collected.value;
      var removed := RemoveStaleEntries(Keys(entries));
      var added := AddMissingEntries(entries, archive);
      if added.Err? {
        return Err(added.error);
      }
      r := Ok(removed || added.value);
    }

    /** The removal loop of FillInMaterialParameters: every preview entry whose name was not
      * collected goes. */
    method RemoveStaleEntries(keys: set<string>) returns (didSomething: bool)
      modifies this
      ensures previewMaterialState == Pruned(old(previewMaterialState), keys)
      ensures didSomething == !(old(previewMaterialState).Keys <= keys)
    {
      didSomething := false;
      var entriesToRemove := set k | k in previewMaterialState && k !in keys;
      ghost var before := previewMaterialState;
      while entriesToRemove != {}
        invariant entriesToRemove <= previewMaterialState.Keys
        invariant previewMaterialState.Keys - entriesToRemove == before.Keys * keys
        invariant forall k :: k in previewMaterialState ==> k in before && previewMaterialState[k] == before[k]
        invariant didSomething == (previewMaterialState.Keys != before.Keys)
        decreases entriesToRemove
      {
        var s :| s in entriesToRemove;
        previewMaterialState := previewMaterialState - {s};
        didSomething := true;
        entriesToRemove := entriesToRemove - {s};
      }
      assert previewMaterialState == Pruned(before, keys);
    }

    /** The adding loop of FillInMaterialParameters: an entry for every collected name not yet
      * present, under its preview key; Dictionary.Add throws on a key already there. */
    method AddMissingEntries(entries: seq<(string, string)>, archive: map<string, Parameter>) returns (r: Result<bool, SyncError>)
      modifies this
      ensures var outcome := AddMissing(old(previewMaterialState), entries, archive);
        previewMaterialState == outcome.state
        && r == if outcome.error.Some? then Err(outcome.error.value) else Ok(outcome.added)
    {
      ghost var pruned := previewMaterialState;
      var added := false;
      var i := 0;
      while i < |entries|
        invariant 0 <= i <= |entries|
        invariant AddMissing(pruned, entries, archive)
          == var rest := AddMissing(previewMaterialState, entries[i..], archive); rest.(added := rest.added || added)
      {
        var key := entries[i].0;
        assert entries[i..][0] == entries[i] && entries[i..][1..] == entries[i + 1..];
        if key !in previewMaterialState {
          var parameterName := if key in archive then archive[key].name else key;
          if parameterName in previewMaterialState {
            return Err(DuplicatePreviewKey(parameterName));
          }
          previewMaterialState := previewMaterialState[parameterName := InitialValue(key, entries[i].1, archive)];
          added := true;
        }
        i := i + 1;
      }
      r := Ok(added);
    }
  }

  /** The parameter node's type: the selection of its first drop-down, System without one. */
  method SelectedSourceType(items: seq<NodeItem>) returns (t: SourceType)
    requires DropDownsValid(items)
    ensures t == NodeSourceType(items)
  {
    t := System;
    var i := 0;
    while i < |items|
      invariant 0 <= i <= |items|
      invariant NodeSourceType(items) == NodeSourceType(items[i..])
    {
      assert items[i..][1..] == items[i + 1..];
      if items[i].DropDownItem? {
        t := AsSourceType(items[i].choices[items[i].selectedIndex]);
        return;
      }
      i := i + 1;
    }
  }

  /** The first loop of FillInMaterialParameters: newMaterialParameters in insertion order. */
  method CollectMaterialParameters(nodes: seq<Node>, archive: map<string, Parameter>)
    returns (r: Result<seq<(string, string)>, SyncError>)
    requires GraphDropDownsValid(nodes)
    ensures r == CollectFrom([], MaterialItems(nodes), archive)
  {
    var entries: seq<(string, string)> := [];
    var n := 0;
    while n < |nodes|
      invariant 0 <= n <= |nodes|
      invariant CollectFrom([], MaterialItems(nodes), archive) == CollectFrom(entries, MaterialItems(nodes[n..]), archive)
    {
      assert nodes[n..][0] == nodes[n] && nodes[n..][1..] == nodes[n + 1..];
      var node := nodes[n];
      ghost var rest := MaterialItems(nodes[n + 1..]);
      assert MaterialItems(nodes[n..]) == (if IsMaterialParameterNode(node) then node.items else []) + rest;
      assert [] + rest == rest;
      if node.tag.ParameterNodeTag? && |node.items| > 0 {
        var t := SelectedSourceType(node.items);
        if t == Material {
          var collected := CollectItems(entries, node.items, archive);
          CollectFromAppend(entries, node.items, rest, archive);
          if collected.Err? {
            return Err(NullArchiveName);
          }
          entries := collected.value;
        }
      }
      n := n + 1;
    }
    r := Ok(entries);
  }

  /** The inner loop of CollectMaterialParameters: one material parameter node's items, added
    * to the entries collected so far. */
  method CollectItems(entries: seq<(string, string)>, items: seq<NodeItem>, archive: map<string, Parameter>)
    returns (r: Result<seq<(string, string)>, SyncError>)
    ensures r == CollectFrom(entries, items, archive)
  {
    var acc := entries;
    var k := 0;
    assert items[0..] == items;
    while k < |items|
      invariant 0 <= k <= |items|
      invariant CollectFrom(entries, items, archive) == CollectFrom(acc, items[k..], archive)
    {
      var item := items[k];
      assert items[k..][0] == item && items[k..][1..] == items[k + 1..];
      if item.FragmentItem? {
        if item.archiveName.None? {
          return Err(NullArchiveName);
        }
        var key := item.archiveName.value;
        if key !in Keys(acc) {
          acc := acc + [(key, CollectedType(key, archive))];
        }
      }
      k := k + 1;
    }
    r := Ok(acc);
  }

  /** The graph control's node list. */
  class GraphControl {
    var nodes: seq<Node>

    constructor (nodes: seq<Node>)
      ensures this.nodes == nodes
    {
      this.nodes := nodes;
    }

    /** ParameterNodeTypeChanged: the drop-down of node nodeIndex now shows selection.
      * Each single-direction fragment item pointing the wrong way is removed and a
      * recreated item with the right direction is appended. */
    method ParameterNodeTypeChanged(nodeIndex: nat, selection: string)
      requires nodeIndex < |nodes|
      modifies this
      ensures |nodes| == |old(nodes)|
      ensures forall n :: 0 <= n < |nodes| && n != nodeIndex ==> nodes[n] == old(nodes)[n]
      ensures nodes[nodeIndex].tag == old(nodes)[nodeIndex].tag
      ensures var isOutput := AsSourceType(selection) == Output;
        nodes[nodeIndex].items == KeptItems(old(nodes)[nodeIndex].items, isOutput)
                                  + RedirectedItems(old(nodes)[nodeIndex].items, isOutput)
    {
      var isOutput := AsSourceType(selection) == Output;
      var items := FixItemDirections(nodes[nodeIndex].items, isOutput);
      nodes := nodes[nodeIndex := nodes[nodeIndex].(items := items)];
    }

    /** UpdateGraphConnectionsForParameter: every fragment item that refers to oldName
      * is pointed at newName and takes its name and type from the archive. */
    method UpdateGraphConnectionsForParameter(oldName: string, newName: string, archive: map<string, Parameter>)
      modifies this
      ensures |nodes| == |old(nodes)|
      ensures forall n :: 0 <= n < |nodes| ==>
        nodes[n] == old(nodes)[n].(items := RenamedItems(old(nodes)[n].items, oldName, newName, archive))
    {
      var n := 0;
      while n < |nodes|
        invariant 0 <= n <= |nodes| && |nodes| == |old(nodes)|
        invariant forall m :: 0 <= m < n ==>
          nodes[m] == old(nodes)[m].(items := RenamedItems(old(nodes)[m].items, oldName, newName, archive))
        invariant forall m :: n <= m < |nodes| ==> nodes[m] == old(nodes)[m]
      {
        var items := nodes[n].items;
        var k := 0;
        while k < |items|
          invariant 0 <= k <= |items| && |items| == |old(nodes)[n].items|
          invariant forall j :: 0 <= j < k ==> items[j] == Renamed(old(nodes)[n].items[j], oldName, newName, archive)
          invariant forall j :: k <= j < |items| ==> items[j] == old(nodes)[n].items[j]
        {
          var item := items[k];
          if item.FragmentItem? && item.archiveName.Some? && item.archiveName.value == oldName {
            if newName in archive {
              var param := archive[newName];
              item := item.(archiveName := Some(newName), name := param.name, typeText := param.typeName);
            } else {
              item := item.(archiveName := Some(newName), name := "<<unknown>>", typeText := "<<unknown>>");
            }
            items := items[k := item];
          }
          k := k + 1;
        }
        assert items == RenamedItems(old(nodes)[n].items, oldName, newName, archive);
        nodes := nodes[n := nodes[n].(items := items)];
        n := n + 1;
      }
    }
  }
}
