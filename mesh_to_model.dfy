/**
 * MeshToModel (RenderCore/Assets/ModelRunTime.cpp): the transform from a mesh's space to the
 * model's, looked up by the geo call's transform marker among the skeleton's output
 * transforms, optionally through a skeleton binding.
 *
 * Matrices are symbolic: the renderer only selects and combines them. MeshToModel's
 * declaration is not part of this model; IsGood is taken to mean that there is a skeleton
 * output array, which is what the constructors below set or leave null.
 */
module MeshToModels {
  import opened Wrappers

  /** A 4x4 transform: the identity, one given transform, or the product of two. */
  datatype Matrix = Identity | Transform(id: nat) | Combine(first: Matrix, second: Matrix)

  /** The skeleton's output transforms (None for a null array) and, optionally, the skeleton
    * binding's map from model joint index to machine output index. */
  datatype MeshToModel = MeshToModel(skeletonOutput: Option<seq<Matrix>>, binding: Option<seq<nat>>)

  /** `~unsigned(0)`: a joint with no machine output. */
  const NoOutput: nat := 0xFFFF_FFFF

  function OutputCount(m: MeshToModel): nat
  {
    if m.skeletonOutput.Some? then |m.skeletonOutput.value| else 0
  }

  predicate IsGood(m: MeshToModel)
  {
    m.skeletonOutput.Some?
  }

  /** The default constructor: no output and no binding. */
  function Empty(): (r: MeshToModel)
    ensures !IsGood(r) && OutputCount(r) == 0
  {
    MeshToModel(None, None)
  }

  /** The constructor from a model scaffold: its default transforms, or a null array when it
    * has none; never a binding. */
  function FromScaffoldDefaults(defaultTransforms: seq<Matrix>): (r: MeshToModel)
    ensures r.binding.None?
    ensures IsGood(r) <==> |defaultTransforms| > 0
    ensures IsGood(r) ==> r.skeletonOutput.value == defaultTransforms
  {
    if |defaultTransforms| > 0 then MeshToModel(Some(defaultTransforms), None) else MeshToModel(None, None)
  }

  /** Whether the marker may be looked up: with a binding, it must be a joint the binding
    * knows, as the source asserts before indexing. */
  predicate MarkerKnown(m: MeshToModel, transformMarker: nat)
  {
    m.binding.Some? ==> transformMarker < |m.binding.value|
  }

  /** GetMeshToModel: the output transform the marker maps to; identity when the binding has no
    * output for it or the output index is out of range. */
  function GetMeshToModel(m: MeshToModel, transformMarker: nat): (r: Matrix)
    requires MarkerKnown(m, transformMarker)
    ensures r == Identity || (m.skeletonOutput.Some? && r in m.skeletonOutput.value)
  {
    var output := if m.binding.Some? then m.binding.value[transformMarker] else transformMarker;
    if m.binding.Some? && output == NoOutput then Identity
    else if output >= OutputCount(m) then Identity
    else m.skeletonOutput.value[output]
  }

  /** The transform is the skeleton output of the (mapped) index when there is one, and the
    * identity otherwise. */
  lemma GetMeshToModelMeaning(m: MeshToModel, transformMarker: nat)
    requires MarkerKnown(m, transformMarker)
    ensures var j := if m.binding.Some? then m.binding.value[transformMarker] else transformMarker;
      if (m.binding.None? || j != NoOutput) && j < OutputCount(m)
      then GetMeshToModel(m, transformMarker) == m.skeletonOutput.value[j]
      else GetMeshToModel(m, transformMarker) == Identity
    ensures GetMeshToModel(m, transformMarker) == Identity ||
      (m.skeletonOutput.Some? && GetMeshToModel(m, transformMarker) in m.skeletonOutput.value)
  {
  }

  /** A binding that maps every joint to the output of the same index gives the same
    * transforms as no binding at all. */
  lemma IdentityBindingIsNoBinding(outputs: Option<seq<Matrix>>, binding: seq<nat>, transformMarker: nat)
    requires forall k :: 0 <= k < |binding| ==> binding[k] == k && k != NoOutput
    requires transformMarker < |binding|
    ensures GetMeshToModel(MeshToModel(outputs, Some(binding)), transformMarker)
      == GetMeshToModel(MeshToModel(outputs, None), transformMarker)
  {
  }

  /** Without skeleton output every marker maps to the identity. */
  lemma NoOutputGivesIdentity(m: MeshToModel, transformMarker: nat)
    requires MarkerKnown(m, transformMarker) && !IsGood(m)
    ensures GetMeshToModel(m, transformMarker) == Identity
  {
  }
}
