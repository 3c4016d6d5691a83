/**
 * The shared state set, as the renderer sees it (RenderCore/Assets/SharedStateSet.h): each
 * Insert call interns a value and returns its handle. Only the interface is part of this
 * model; the handle of a value is taken to be the position of its first insertion.
 */
module SharedStates {
  import opened ModelData
  import UITypesBinding

  /** The position of the first occurrence of `x`: a position holding it (IndexOfIsFirst
    * says no earlier one does). */
  function IndexOf<T(==)>(s: seq<T>, x: T): (r: nat)
    requires x in s
    ensures r < |s| && s[r] == x
  {
    if s[0] == x then 0 else 1 + IndexOf(s[1..], x)
  }

  /** No position before IndexOf holds `x`. */
  lemma {:induction false} IndexOfIsFirst<T>(s: seq<T>, x: T)
    requires x in s
    ensures forall k :: 0 <= k < IndexOf(s, x) ==> s[k] != x
  {
    if s[0] != x {
      IndexOfIsFirst(s[1..], x);
      assert forall k :: 1 <= k < |s| ==> s[k] == s[1..][k - 1];
    }
  }

  /** A position holding `x` with no `x` before it is the first occurrence. */
  lemma IndexOfFirst<T>(s: seq<T>, x: T, i: nat)
    requires i < |s| && s[i] == x
    requires forall k :: 0 <= k < i ==> s[k] != x
    ensures IndexOf(s, x) == i
  {
    IndexOfIsFirst(s, x);
  }

  /** Appending to a sequence keeps the first occurrence of what it already holds. */
  lemma IndexOfAppend<T>(s: seq<T>, t: seq<T>, x: T)
    requires x in s
    ensures IndexOf(s + t, x) == IndexOf(s, x)
  {
    IndexOfIsFirst(s, x);
    IndexOfFirst(s + t, x, IndexOf(s, x));
  }

  predicate NoDuplicates<T(==)>(s: seq<T>)
  {
    forall i, j :: 0 <= i < j < |s| ==> s[i] != s[j]
  }

  /** Interning `x`: the table is kept when it already holds `x`, otherwise `x` is appended;
    * the handle is the position of `x`. */
  function Interned<T(==)>(table: seq<T>, x: T): (seq<T>, nat)
  {
    if x in table then (table, IndexOf(table, x)) else (table + [x], |table|)
  }

  /** The interned table holds `x` at the handle, keeps every earlier entry in place, grows by
    * at most one entry, and never acquires a duplicate. */
  lemma InternedFacts<T>(table: seq<T>, x: T)
    ensures var (t, h) := Interned(table, x);
      && h < |t| && t[h] == x
      && (forall k :: 0 <= k < h ==> t[k] != x)
      && table <= t && |t| <= |table| + 1
      && (x in table <==> t == table)
      && (NoDuplicates(table) ==> NoDuplicates(t))
  {
    if x in table {
      IndexOfIsFirst(table, x);
    }
  }

  class SharedStateSet {
    var shaderNames: seq<string>
    var parameterBoxes: seq<ParameterBox>
    var renderStateSets: seq<UITypesBinding.StateSet>
    var techniqueInterfaces: seq<TechniqueInterfaceDesc>

    /** Every table only grows at its end. */
    twostate predicate Extends()
      reads this
    {
      && old(shaderNames) <= shaderNames
      && old(parameterBoxes) <= parameterBoxes
      && old(renderStateSets) <= renderStateSets
      && old(techniqueInterfaces) <= techniqueInterfaces
    }

    constructor()
      ensures shaderNames == [] && parameterBoxes == [] && renderStateSets == [] && techniqueInterfaces == []
    {
      shaderNames := [];
      parameterBoxes := [];
      renderStateSets := [];
      techniqueInterfaces := [];
    }

    method InsertShaderName(name: string) returns (h: nat)
      modifies this
      ensures (shaderNames, h) == Interned(old(shaderNames), name)
      ensures parameterBoxes == old(parameterBoxes) && renderStateSets == old(renderStateSets)
      ensures techniqueInterfaces == old(techniqueInterfaces)
      ensures Extends() && h < |shaderNames| && shaderNames[h] == name
    {
      InternedFacts(shaderNames, name);
      var t;
      t, h := Interned(shaderNames, name).0, Interned(shaderNames, name).1;
      shaderNames := t;
    }

    method InsertParameterBox(box: ParameterBox) returns (h: nat)
      modifies this
      ensures (parameterBoxes, h) == Interned(old(parameterBoxes), box)
      ensures shaderNames == old(shaderNames) && renderStateSets == old(renderStateSets)
      ensures techniqueInterfaces == old(techniqueInterfaces)
      ensures Extends() && h < |parameterBoxes| && parameterBoxes[h] == box
    {
      InternedFacts(parameterBoxes, box);
      var t;
      t, h := Interned(parameterBoxes, box).0, Interned(parameterBoxes, box).1;
      parameterBoxes := t;
    }

    method InsertRenderStateSet(states: UITypesBinding.StateSet) returns (h: nat)
      modifies this
      ensures (renderStateSets, h) == Interned(old(renderStateSets), states)
      ensures shaderNames == old(shaderNames) && parameterBoxes == old(parameterBoxes)
      ensures techniqueInterfaces == old(techniqueInterfaces)
      ensures Extends() && h < |renderStateSets| && renderStateSets[h] == states
    {
      InternedFacts(renderStateSets, states);
      var t;
      t, h := Interned(renderStateSets, states).0, Interned(renderStateSets, states).1;
      renderStateSets := t;
    }

    method InsertTechniqueInterface(desc: TechniqueInterfaceDesc) returns (h: nat)
      modifies this
      ensures (techniqueInterfaces, h) == Interned(old(techniqueInterfaces), desc)
      ensures shaderNames == old(shaderNames) && parameterBoxes == old(parameterBoxes)
      ensures renderStateSets == old(renderStateSets)
      ensures Extends() && h < |techniqueInterfaces| && techniqueInterfaces[h] == desc
    {
      InternedFacts(techniqueInterfaces, desc);
      var t;
      t, h := Interned(techniqueInterfaces, desc).0, Interned(techniqueInterfaces, desc).1;
      techniqueInterfaces := t;
    }
  }
}
