/**
 * Mesh construction for the model renderer (RenderCore/Assets/ModelRunTime.cpp): the
 * vertex- and index-buffer allocator, the low-level input layouts of a mesh's vertex streams,
 * the geometry parameter box, and the meshes themselves.
 *
 * Buffer sizes and offsets are unbounded naturals: the 32-bit wrap-around of the source's
 * `unsigned` counters is not modelled. Reading the uploads' bytes from the file is not part
 * of this model; the uploads are recorded as the source records them.
 */
module GeoBuffers {
  import opened ModelData
  import opened SharedStates
  import Text
  import opened Sequences

  /** `~0u`: the upload comes from the model itself, not from a supplement. */
  const NoSupplement: nat := 0xFFFF_FFFF

  /** The vertex streams a mesh can bind: its own and up to two supplements. */
  const MaxVertexStreams: nat := 3

  /** The capacity of the input-layout arrays the meshes build. */
  const MaxInputElements: nat := 12

  /** A block of the large-blocks area to copy into one of the buffers. */
  datatype PendingGeoUpload = PendingGeoUpload(sourceFileOffset: nat, size: nat, supplementIndex: nat, bufferDestination: nat)

  // ---------------------------------------------------------------------------
  // Allocation

  /** Index buffers of 32-bit indices are 4-byte aligned, the others 2-byte aligned. */
  function IndexStride(format: NativeFormat): (r: nat)
    ensures r == 4 || r == 2
    ensures r == 4 <==> format == R32Uint
  {
    if format == R32Uint then 4 else 2
  }

  /** `x` rounded up to a multiple of `stride`. */
  function AlignUp(x: nat, stride: nat): nat
    requires stride > 0
  {
    var rem := x % stride;
    if rem != 0 then x + (stride - rem) else x
  }

  /** Rounding up to an index stride gives the least multiple of the stride not below `x`. */
  lemma AlignUpMeaning(x: nat, format: NativeFormat)
    ensures AlignUp(x, IndexStride(format)) % IndexStride(format) == 0
    ensures x <= AlignUp(x, IndexStride(format)) < x + IndexStride(format)
    ensures x % IndexStride(format) == 0 ==> AlignUp(x, IndexStride(format)) == x
  {
    if format == R32Uint {
      assert AlignUp(x, 4) % 4 == 0;
    } else {
      assert AlignUp(x, 2) % 2 == 0;
    }
  }

  /** Every upload ends before the next one starts, and the last one ends by `end`. */
  predicate Packed(uploads: seq<PendingGeoUpload>, end: nat)
  {
    && (forall i :: 0 <= i < |uploads| - 1 ==> uploads[i].bufferDestination + uploads[i].size <= uploads[i + 1].bufferDestination)
    && (|uploads| > 0 ==> uploads[|uploads| - 1].bufferDestination + uploads[|uploads| - 1].size <= end)
  }

  /** Packed uploads never overlap, and all of them fit below `end`. */
  lemma {:induction false} PackedDisjoint(uploads: seq<PendingGeoUpload>, end: nat, i: nat, j: nat)
    requires Packed(uploads, end) && i < |uploads|
    requires i < j <= |uploads|
    ensures uploads[i].bufferDestination + uploads[i].size <= (if j < |uploads| then uploads[j].bufferDestination else end)
  {
    if j == i + 1 {
    } else {
      PackedDisjoint(uploads, end, i, j - 1);
      assert uploads[j - 1].bufferDestination <= uploads[j - 1].bufferDestination + uploads[j - 1].size;
    }
  }

  /** Appending an upload that starts at or after `end` keeps the uploads packed. */
  lemma PackedAppend(uploads: seq<PendingGeoUpload>, end: nat, u: PendingGeoUpload)
    requires Packed(uploads, end) && end <= u.bufferDestination
    ensures Packed(uploads + [u], u.bufferDestination + u.size)
  {
  }

  /** The buffers a model renderer fills while it builds its meshes. */
  class BuffersUnderConstruction {
    var vbSize: nat
    var ibSize: nat
    var vbUploads: seq<PendingGeoUpload>
    var ibUploads: seq<PendingGeoUpload>

    /** The uploads of each buffer lie one after another inside it. */
    predicate Valid()
      reads this
    {
      Packed(vbUploads, vbSize) && Packed(ibUploads, ibSize)
    }

    constructor()
      ensures vbSize == 0 && ibSize == 0 && vbUploads == [] && ibUploads == []
      ensures Valid()
    {
      vbSize, ibSize := 0, 0;
      vbUploads, ibUploads := [], [];
    }

    /** AllocateIB: `size` bytes at the next offset aligned for the index format. */
    method AllocateIB(size: nat, format: NativeFormat) returns (allocation: nat)
      modifies this
      ensures allocation == AlignUp(old(ibSize), IndexStride(format))
      ensures ibSize == allocation + size
      ensures vbSize == old(vbSize) && vbUploads == old(vbUploads) && ibUploads == old(ibUploads)
    {
      allocation := ibSize;
      var indexStride := IndexStride(format);
      var rem := ibSize % indexStride;
      if rem != 0 {
        allocation := allocation + (indexStride - rem);
      }
      ibSize := allocation + size;
    }

    /** AllocateVB: `size` bytes at the end of the vertex buffer. */
    method AllocateVB(size: nat) returns (result: nat)
      modifies this
      ensures result == old(vbSize) && vbSize == old(vbSize) + size
      ensures ibSize == old(ibSize) && vbUploads == old(vbUploads) && ibUploads == old(ibUploads)
    {
      result := vbSize;
      vbSize := vbSize + size;
    }

    /** An index block allocated and recorded for upload. */
    method UploadIB(sourceFileOffset: nat, size: nat, format: NativeFormat) returns (offset: nat)
      requires Valid()
      modifies this
      ensures Valid()
      ensures offset == AlignUp(old(ibSize), IndexStride(format)) && ibSize == offset + size
      ensures ibUploads == old(ibUploads) + [PendingGeoUpload(sourceFileOffset, size, NoSupplement, offset)]
      ensures vbSize == old(vbSize) && vbUploads == old(vbUploads)
    {
      AlignUpMeaning(ibSize, format);
      ghost var end := ibSize;
      offset := AllocateIB(size, format);
      var u := PendingGeoUpload(sourceFileOffset, size, NoSupplement, offset);
      PackedAppend(ibUploads, end, u);
      ibUploads := ibUploads + [u];
    }

    /** A vertex block allocated and recorded for upload. */
    method UploadVB(sourceFileOffset: nat, size: nat, supplementIndex: nat) returns (offset: nat)
      requires Valid()
      modifies this
      ensures Valid()
      ensures offset == old(vbSize) && vbSize == offset + size
      ensures vbUploads == old(vbUploads) + [PendingGeoUpload(sourceFileOffset, size, supplementIndex, offset)]
      ensures ibSize == old(ibSize) && ibUploads == old(ibUploads)
    {
      offset := AllocateVB(size);
      var u := PendingGeoUpload(sourceFileOffset, size, supplementIndex, offset);
      PackedAppend(vbUploads, offset, u);
      vbUploads := vbUploads + [u];
    }
  }

  // ---------------------------------------------------------------------------
  // Input layouts

  /** A vertex element placed in input slot `slot`. */
  function Lowered(e: VertexElement, slot: nat): InputElementDesc
  {
    InputElementDesc(e.semanticName, e.semanticIndex, e.nativeFormat, slot, e.alignedByteOffset)
  }

  function Min(a: nat, b: nat): nat { if a <= b then a else b }

  /** The input layout of the streams, in order, each stream's elements in its slot, cut off
    * at `capacity` elements. */
  function StreamsLayout(streams: seq<(seq<VertexElement>, nat)>, capacity: nat): (r: seq<InputElementDesc>)
    ensures |r| <= capacity
  {
    if |streams| == 0 then []
    else
      var first := StreamPrefix(streams[0], capacity);
      first + StreamsLayout(streams[1..], capacity - |first|)
  }

  /** The elements of one stream that fit in `capacity`, in its slot. */
  function StreamPrefix(stream: (seq<VertexElement>, nat), capacity: nat): (r: seq<InputElementDesc>)
    ensures |r| == Min(|stream.0|, capacity)
    ensures forall i :: 0 <= i < |r| ==> r[i] == Lowered(stream.0[i], stream.1)
  {
    seq(Min(|stream.0|, capacity), i requires 0 <= i < Min(|stream.0|, capacity) => Lowered(stream.0[i], stream.1))
  }

  /** Every element of a stream that fits is in the layout, in its stream's slot; nothing
    * else is. */
  lemma {:induction false} StreamsLayoutElements(streams: seq<(seq<VertexElement>, nat)>, capacity: nat, d: InputElementDesc)
    ensures d in StreamsLayout(streams, capacity) ==>
      exists k, i :: 0 <= k < |streams| && 0 <= i < |streams[k].0| && d == Lowered(streams[k].0[i], streams[k].1)
  {
    if |streams| > 0 && d in StreamsLayout(streams, capacity) {
      var first := StreamPrefix(streams[0], capacity);
      if d in first {
        var i :| 0 <= i < |first| && first[i] == d;
        assert d == Lowered(streams[0].0[i], streams[0].1);
      } else {
        StreamsLayoutElements(streams[1..], capacity - |first|, d);
        var k, i :| 0 <= k < |streams[1..]| && 0 <= i < |streams[1..][k].0| && d == Lowered(streams[1..][k].0[i], streams[1..][k].1);
        assert streams[1..][k] == streams[k + 1];
      }
    }
  }

  /** When everything fits, nothing is cut off: the layout has one element per vertex
    * element of every stream. */
  lemma {:induction false} StreamsLayoutFits(streams: seq<(seq<VertexElement>, nat)>, capacity: nat)
    requires ElementCount(streams) <= capacity
    ensures |StreamsLayout(streams, capacity)| == ElementCount(streams)
  {
    if |streams| > 0 {
      StreamsLayoutFits(streams[1..], capacity - |streams[0].0|);
    }
  }

  function ElementCount(streams: seq<(seq<VertexElement>, nat)>): nat
  {
    if |streams| == 0 then 0 else |streams[0].0| + ElementCount(streams[1..])
  }

  /** BuildLowLevelInputAssembly: the source elements, in slot `slot`, written from `start`
    * onwards as far as the array has room; returns how many were written. */
  method BuildLowLevelInputAssembly(dst: array<InputElementDesc>, start: nat, source: seq<VertexElement>, slot: nat)
    returns (count: nat)
    requires start <= dst.Length
    modifies dst
    ensures count == Min(|source|, dst.Length - start)
    ensures dst[..start] == old(dst[..start])
    ensures dst[start..start + count] == StreamsLayout([(source, slot)], dst.Length - start)
  {
    count := 0;
    var i := 0;
    while i < |source|
      invariant i <= |source| && count == Min(i, dst.Length - start)
      invariant dst[..start] == old(dst[..start])
      invariant forall k :: 0 <= k < count ==> dst[start + k] == Lowered(source[k], slot)
    {
      if count + 1 <= dst.Length - start {
        dst[start + count] := Lowered(source[i], slot);
        count := count + 1;
      }
      i := i + 1;
    }
    assert StreamsLayout([(source, slot)], dst.Length - start) == StreamsLayout([(source, slot)][..1], dst.Length - start);
  }

  // ---------------------------------------------------------------------------
  // Geometry parameter box

  /** HasElement: a layout element has the semantic name, ignoring case. */
  predicate HasElement(layout: seq<InputElementDesc>, name: string)
  {
    exists i :: 0 <= i < |layout| && Text.EqualsIgnoreCase(layout[i].semanticName, name)
  }

  predicate HasVertexElement(elements: seq<VertexElement>, name: string)
  {
    exists i :: 0 <= i < |elements| && Text.EqualsIgnoreCase(elements[i].semanticName, name)
  }

  /** BuildGeoParamBox: a GEO_HAS_ flag, set to 1, for each kind of vertex data the layout has. */
  function GeoParamBox(layout: seq<InputElementDesc>, normalFromSkinning: bool): ParameterBox
  {
    SetFlags(map[], GeoFlagConditions(layout, normalFromSkinning))
  }

  /** The GEO_HAS_ flags, each with whether the layout calls for it, in the order
    * BuildGeoParamBox tests them. */
  function GeoFlagConditions(layout: seq<InputElementDesc>, normalFromSkinning: bool): seq<(ParamName, bool)>
  {
    [ (GeoHasTexcoord, HasElement(layout, "TEXCOORD")),
      (GeoHasColour, HasElement(layout, "COLOR")),
      (GeoHasNormal, HasElement(layout, "NORMAL") || normalFromSkinning),
      (GeoHasTangentFrame, HasElement(layout, "TEXTANGENT")),
      (GeoHasBitangent, HasElement(layout, "TEXBITANGENT")),
      (GeoHasSkinWeights, HasElement(layout, "BONEINDICES") && HasElement(layout, "BONEWEIGHTS")),
      (GeoHasPerVertexAo, HasElement(layout, "PER_VERTEX_AO")) ]
  }

  /** The box with each flag whose condition holds set to 1, in order. */
  function SetFlags(b: ParameterBox, flags: seq<(ParamName, bool)>): ParameterBox
    decreases flags
  {
    if |flags| == 0 then b
    else SetFlags(if flags[0].1 then b[flags[0].0 := 1] else b, flags[1..])
  }

  /** A name is in the box afterwards when it was before or one of the flags holding it was
    * set; a set flag holds 1 and every other name keeps its value. */
  lemma {:induction false} SetFlagsMeaning(b: ParameterBox, flags: seq<(ParamName, bool)>, k: ParamName)
    ensures var chosen := exists i :: 0 <= i < |flags| && flags[i].0 == k && flags[i].1;
      && (k in SetFlags(b, flags) <==> k in b || chosen)
      && (k in SetFlags(b, flags) ==> SetFlags(b, flags)[k] == if chosen then 1 else b[k])
    decreases flags
  {
    if |flags| > 0 {
      var b1 := if flags[0].1 then b[flags[0].0 := 1] else b;
      SetFlagsMeaning(b1, flags[1..], k);
      var setRest := exists i :: 0 <= i < |flags[1..]| && flags[1..][i].0 == k && flags[1..][i].1;
      var chosen := exists i :: 0 <= i < |flags| && flags[i].0 == k && flags[i].1;
      if setRest {
        var i :| 0 <= i < |flags[1..]| && flags[1..][i].0 == k && flags[1..][i].1;
        assert flags[i + 1] == flags[1..][i];
      }
      if chosen && !(flags[0].0 == k && flags[0].1) {
        var i :| 0 <= i < |flags| && flags[i].0 == k && flags[i].1;
        assert flags[1..][i - 1] == flags[i];
      }
    }
  }

  /** The flags of the geometry parameter box are all 1, and only GEO_HAS_ flags are set. */
  lemma GeoParamBoxFlags(layout: seq<InputElementDesc>, normalFromSkinning: bool)
    ensures forall k :: k in GeoParamBox(layout, normalFromSkinning) ==> GeoParamBox(layout, normalFromSkinning)[k] == 1
    ensures forall k :: k in GeoParamBox(layout, normalFromSkinning) ==>
      k in {GeoHasTexcoord, GeoHasColour, GeoHasNormal, GeoHasTangentFrame, GeoHasBitangent, GeoHasSkinWeights, GeoHasPerVertexAo}
  {
    var flags := GeoFlagConditions(layout, normalFromSkinning);
    forall k | k in GeoParamBox(layout, normalFromSkinning)
      ensures GeoParamBox(layout, normalFromSkinning)[k] == 1
      ensures k in {GeoHasTexcoord, GeoHasColour, GeoHasNormal, GeoHasTangentFrame, GeoHasBitangent, GeoHasSkinWeights, GeoHasPerVertexAo}
    {
      SetFlagsMeaning(map[], flags, k);
      var i :| 0 <= i < |flags| && flags[i].0 == k && flags[i].1;
    }
  }

  /** The normal flag is set by a NORMAL element or by skinning; the skin-weights flag needs
    * both bone indices and bone weights. */
  lemma GeoParamBoxConditions(layout: seq<InputElementDesc>, normalFromSkinning: bool)
    ensures GeoHasNormal in GeoParamBox(layout, normalFromSkinning) <==> HasElement(layout, "NORMAL") || normalFromSkinning
    ensures GeoHasSkinWeights in GeoParamBox(layout, normalFromSkinning) <==>
      HasElement(layout, "BONEINDICES") && HasElement(layout, "BONEWEIGHTS")
    ensures GeoHasTexcoord in GeoParamBox(layout, normalFromSkinning) <==> HasElement(layout, "TEXCOORD")
  {
    var flags := GeoFlagConditions(layout, normalFromSkinning);
    SetFlagsMeaning(map[], flags, GeoHasNormal);
    SetFlagsMeaning(map[], flags, GeoHasSkinWeights);
    SetFlagsMeaning(map[], flags, GeoHasTexcoord);
    assert flags[0].0 == GeoHasTexcoord && flags[2].0 == GeoHasNormal && flags[5].0 == GeoHasSkinWeights;
  }

  /** Semantic names match regardless of case: a lower-case `texcoord` element sets the
    * texture-coordinate flag. */
  lemma HasElementIgnoresCase(layout: seq<InputElementDesc>, slot: nat)
    ensures HasElement(layout + [InputElementDesc("texcoord", 0, 0, slot, 0)], "TEXCOORD")
  {
    var d := InputElementDesc("texcoord", 0, 0, slot, 0);
    assert Text.ToLower("texcoord") == Text.ToLower("TEXCOORD");
    assert (layout + [d])[|layout|] == d;
  }

  // ---------------------------------------------------------------------------
  // Meshes

  /** A mesh of the renderer: where its index and vertex data went, its vertex streams, its
    * geometry parameter box and its technique interface. */
  datatype Mesh = Mesh(
    id: nat,
    indexFormat: NativeFormat,
    ibOffset: nat,
    vbOffsets: seq<nat>,
    vertexStrides: seq<nat>,
    vertexStreamCount: nat,
    geoParamBox: nat,
    techniqueInterface: nat)

  /** A skinned mesh: a mesh plus its animated-geometry and skeleton-binding streams, and the
    * technique interface it renders with. */
  datatype SkinnedMesh = SkinnedMesh(
    base: Mesh,
    extraVbOffset: seq<nat>,
    extraVbStride: seq<nat>,
    vertexCount: seq<nat>,
    skinnedTechniqueInterface: nat)

  /** A vertex stream a supplement scaffold adds to a mesh, tagged with the position of the
    * supplement whose file holds its bytes. */
  datatype SupplementStream = SupplementStream(supplementIndex: nat, vb: VertexData)

  /** The streams of a mesh: its own vertex elements in slot 0, then supplement `s` in slot
    * `1 + s`. */
  function MeshStreams(geo: RawGeometry, supplements: seq<SupplementStream>): seq<(seq<VertexElement>, nat)>
  {
    [(geo.vb.ia.elements, 0)] + seq(|supplements|, s requires 0 <= s < |supplements| => (supplements[s].vb.ia.elements, 1 + s))
  }

  /** The vertex-buffer offsets of the streams, packed one after another from `start`. */
  function StreamOffsets(start: nat, sizes: seq<nat>): (r: seq<nat>)
    ensures |r| == |sizes|
    decreases |sizes|
  {
    if |sizes| == 0 then [] else [start] + StreamOffsets(start + sizes[0], sizes[1..])
  }

  function SupplementSizes(supplements: seq<SupplementStream>): seq<nat>
  {
    seq(|supplements|, s requires 0 <= s < |supplements| => supplements[s].vb.size)
  }

  /** The offsets lie one after another: each stream starts where the previous one ends. */
  lemma {:induction false} StreamOffsetsContiguous(start: nat, sizes: seq<nat>, i: nat)
    requires i + 1 < |sizes|
    ensures StreamOffsets(start, sizes)[i + 1] == StreamOffsets(start, sizes)[i] + sizes[i]
    decreases i
  {
    if i > 0 {
      StreamOffsetsContiguous(start + sizes[0], sizes[1..], i - 1);
    }
  }

  /** The layout of streams followed by one more stream is the first layout followed by the
    * new stream's elements, in the room that is left. */
  lemma {:induction false} StreamsLayoutAppend(streams: seq<(seq<VertexElement>, nat)>, x: (seq<VertexElement>, nat), capacity: nat)
    ensures StreamsLayout(streams + [x], capacity) ==
      StreamsLayout(streams, capacity) + StreamsLayout([x], capacity - |StreamsLayout(streams, capacity)|)
  {
    if |streams| == 0 {
      assert streams + [x] == [x];
    } else {
      var first := StreamPrefix(streams[0], capacity);
      var rest := StreamsLayout(streams[1..], capacity - |first|);
      assert StreamsLayout(streams, capacity) == first + rest;
      var last := StreamsLayout([x], capacity - |first| - |rest|);
      assert (streams + [x])[0] == streams[0];
      assert (streams + [x])[1..] == streams[1..] + [x];
      assert StreamsLayout(streams + [x], capacity) == first + StreamsLayout(streams[1..] + [x], capacity - |first|);
      StreamsLayoutAppend(streams[1..], x, capacity - |first|);
      AppendAssociative(first, rest, last);
      assert |first + rest| == |first| + |rest|;
    }
  }

  /** The input layout of a mesh's streams, built in an array of MaxInputElements entries. */
  method BuildStreamsLayout(streams: seq<(seq<VertexElement>, nat)>) returns (layout: seq<InputElementDesc>)
    ensures layout == StreamsLayout(streams, MaxInputElements)
  {
    var inputDesc := new InputElementDesc[MaxInputElements](_ => InputElementDesc("", 0, 0, 0, 0));
    var count: nat := 0;
    var s := 0;
    while s < |streams|
      invariant s <= |streams| && count <= inputDesc.Length
      invariant inputDesc[..count] == StreamsLayout(streams[..s], MaxInputElements)
    {
      var added := BuildLowLevelInputAssembly(inputDesc, count, streams[s].0, streams[s].1);
      assert inputDesc[..count + added] == inputDesc[..count] + inputDesc[count..count + added];
      StreamsLayoutAppend(streams[..s], streams[s], MaxInputElements);
      assert streams[..s + 1] == streams[..s] + [streams[s]];
      count := count + added;
      s := s + 1;
    }
    assert streams[..s] == streams;
    layout := inputDesc[..count];
  }

  /** The vertex streams of a mesh: its own vertex data, then each supplement, one after another
    * at the end of the vertex buffer; unused stream slots hold zero. */
  method AllocateVertexStreams(geo: RawGeometry, supplements: seq<SupplementStream>, wb: BuffersUnderConstruction)
    returns (vbOffsets: seq<nat>, vertexStrides: seq<nat>)
    requires |supplements| <= MaxVertexStreams - 1 && wb.Valid()
    modifies wb
    ensures wb.Valid()
    ensures |vbOffsets| == MaxVertexStreams && |vertexStrides| == MaxVertexStreams
    ensures vbOffsets[..1 + |supplements|] == StreamOffsets(old(wb.vbSize), [geo.vb.size] + SupplementSizes(supplements))
    ensures forall s :: 1 + |supplements| <= s < MaxVertexStreams ==> vbOffsets[s] == 0 && vertexStrides[s] == 0
    ensures vertexStrides[0] == geo.vb.ia.vertexStride
    ensures forall s :: 0 <= s < |supplements| ==> vertexStrides[1 + s] == supplements[s].vb.ia.vertexStride
    ensures |wb.vbUploads| == |old(wb.vbUploads)| + 1 + |supplements| && old(wb.vbUploads) <= wb.vbUploads
    ensures wb.vbUploads[|old(wb.vbUploads)|] == PendingGeoUpload(geo.vb.offset, geo.vb.size, NoSupplement, vbOffsets[0])
    ensures forall s :: 0 <= s < |supplements| ==>
      wb.vbUploads[|old(wb.vbUploads)| + 1 + s] == PendingGeoUpload(supplements[s].vb.offset, supplements[s].vb.size, supplements[s].supplementIndex, vbOffsets[1 + s])
    ensures wb.ibSize == old(wb.ibSize) && wb.ibUploads == old(wb.ibUploads)
  {
    var streams := [(geo.vb, NoSupplement)] + seq(|supplements|, s requires 0 <= s < |supplements| => (supplements[s].vb, supplements[s].supplementIndex));
    assert StreamSizes(streams) == [geo.vb.size] + SupplementSizes(supplements);
    vbOffsets, vertexStrides := UploadStreams(streams, wb);
    var unused: seq<nat> := seq(MaxVertexStreams - |streams|, _ => 0);
    vbOffsets := vbOffsets + unused;
    vertexStrides := vertexStrides + unused;
    assert vbOffsets[..1 + |supplements|] == StreamOffsets(old(wb.vbSize), StreamSizes(streams));
    assert streams[0] == (geo.vb, NoSupplement);
    assert forall s :: 0 <= s < |supplements| ==> streams[1 + s] == (supplements[s].vb, supplements[s].supplementIndex);
  }

  function StreamSizes(streams: seq<(VertexData, nat)>): (r: seq<nat>)
    ensures |r| == |streams|
  {
    seq(|streams|, s requires 0 <= s < |streams| => streams[s].0.size)
  }

  /** Appends each stream, tagged with its supplement index, to the vertex buffer in order. */
  method UploadStreams(streams: seq<(VertexData, nat)>, wb: BuffersUnderConstruction)
    returns (vbOffsets: seq<nat>, vertexStrides: seq<nat>)
    requires wb.Valid()
    modifies wb
    ensures wb.Valid()
    ensures vbOffsets == StreamOffsets(old(wb.vbSize), StreamSizes(streams))
    ensures |vertexStrides| == |streams| && forall s :: 0 <= s < |streams| ==> vertexStrides[s] == streams[s].0.ia.vertexStride
    ensures |wb.vbUploads| == |old(wb.vbUploads)| + |streams| && old(wb.vbUploads) <= wb.vbUploads
    ensures forall s :: 0 <= s < |streams| ==>
      wb.vbUploads[|old(wb.vbUploads)| + s] == PendingGeoUpload(streams[s].0.offset, streams[s].0.size, streams[s].1, vbOffsets[s])
    ensures wb.ibSize == old(wb.ibSize) && wb.ibUploads == old(wb.ibUploads)
  {
    ghost var sizes := StreamSizes(streams);
    ghost var uploads0 := wb.vbUploads;
    vbOffsets, vertexStrides := [], [];
    var s := 0;
    while s < |streams|
      invariant s <= |streams| && wb.Valid()
      invariant vbOffsets == StreamOffsets(old(wb.vbSize), sizes)[..s]
      invariant wb.vbSize == StreamEnd(old(wb.vbSize), sizes[..s])
      invariant |vertexStrides| == s && forall k :: 0 <= k < s ==> vertexStrides[k] == streams[k].0.ia.vertexStride
      invariant |wb.vbUploads| == |uploads0| + s && uploads0 <= wb.vbUploads
      invariant forall k :: 0 <= k < s ==>
        wb.vbUploads[|uploads0| + k] == PendingGeoUpload(streams[k].0.offset, streams[k].0.size, streams[k].1, vbOffsets[k])
      invariant wb.ibSize == old(wb.ibSize) && wb.ibUploads == old(wb.ibUploads)
    {
      StreamEndNext(old(wb.vbSize), sizes, s);
      var offset := wb.UploadVB(streams[s].0.offset, streams[s].0.size, streams[s].1);
      vbOffsets := vbOffsets + [offset];
      vertexStrides := vertexStrides + [streams[s].0.ia.vertexStride];
      s := s + 1;
    }
    assert StreamOffsets(old(wb.vbSize), sizes)[..s] == StreamOffsets(old(wb.vbSize), sizes);
  }

  /** Where the streams of the given sizes end when they start at `start`. */
  function StreamEnd(start: nat, sizes: seq<nat>): nat
    decreases |sizes|
  {
    if |sizes| == 0 then start else StreamEnd(start + sizes[0], sizes[1..])
  }

  /** The next stream starts where the streams before it end. */
  lemma {:induction false} StreamEndNext(start: nat, sizes: seq<nat>, n: nat)
    requires n < |sizes|
    ensures StreamOffsets(start, sizes)[n] == StreamEnd(start, sizes[..n])
    ensures StreamEnd(start, sizes[..n + 1]) == StreamEnd(start, sizes[..n]) + sizes[n]
    ensures StreamOffsets(start, sizes)[..n + 1] == StreamOffsets(start, sizes)[..n] + [StreamEnd(start, sizes[..n])]
    decreases n
  {
    if n > 0 {
      StreamEndNext(start + sizes[0], sizes[1..], n - 1);
      assert sizes[..n][1..] == sizes[1..][..n - 1];
      assert sizes[..n + 1][1..] == sizes[1..][..n];
    }
  }

  /** The layout a mesh's technique interface is built from. */
  function MeshLayout(geo: RawGeometry, supplements: seq<SupplementStream>): seq<InputElementDesc>
  {
    StreamsLayout(MeshStreams(geo, supplements), MaxInputElements)
  }

  /** Pimpl::BuildMesh: the mesh of a geo call, its index data placed at the next aligned
    * offset of the index buffer, its vertex streams at the end of the vertex buffer, and its
    * geometry parameter box and technique interface interned from its input layout. */
  method BuildMesh(
    geoInst: GeoCall, geo: RawGeometry, supplements: seq<SupplementStream>, wb: BuffersUnderConstruction,
    sss: SharedStateSet, tbp: seq<nat>, normalFromSkinning: bool)
    returns (mesh: Mesh)
    requires |supplements| <= MaxVertexStreams - 1 && wb.Valid()
    modifies wb, sss
    ensures wb.Valid() && sss.Extends()
    ensures sss.shaderNames == old(sss.shaderNames) && sss.renderStateSets == old(sss.renderStateSets)
    ensures mesh.id == geoInst.geoId && mesh.indexFormat == geo.ib.format
    ensures mesh.ibOffset == AlignUp(old(wb.ibSize), IndexStride(geo.ib.format))
    ensures wb.ibSize == mesh.ibOffset + geo.ib.size
    ensures wb.ibUploads == old(wb.ibUploads) + [PendingGeoUpload(geo.ib.offset, geo.ib.size, NoSupplement, mesh.ibOffset)]
    ensures mesh.vertexStreamCount == 1 + |supplements|
    ensures |mesh.vbOffsets| == MaxVertexStreams && |mesh.vertexStrides| == MaxVertexStreams
    ensures mesh.vbOffsets[..1 + |supplements|] == StreamOffsets(old(wb.vbSize), [geo.vb.size] + SupplementSizes(supplements))
    ensures forall s :: 1 + |supplements| <= s < MaxVertexStreams ==> mesh.vbOffsets[s] == 0 && mesh.vertexStrides[s] == 0
    ensures mesh.vertexStrides[0] == geo.vb.ia.vertexStride
    ensures forall s :: 0 <= s < |supplements| ==> mesh.vertexStrides[1 + s] == supplements[s].vb.ia.vertexStride
    ensures |wb.vbUploads| == |old(wb.vbUploads)| + 1 + |supplements| && old(wb.vbUploads) <= wb.vbUploads
    ensures wb.vbUploads[|old(wb.vbUploads)|] == PendingGeoUpload(geo.vb.offset, geo.vb.size, NoSupplement, mesh.vbOffsets[0])
    ensures forall s :: 0 <= s < |supplements| ==>
      wb.vbUploads[|old(wb.vbUploads)| + 1 + s] == PendingGeoUpload(supplements[s].vb.offset, supplements[s].vb.size, supplements[s].supplementIndex, mesh.vbOffsets[1 + s])
    ensures mesh.geoParamBox < |sss.parameterBoxes|
    ensures sss.parameterBoxes[mesh.geoParamBox] == GeoParamBox(MeshLayout(geo, supplements), normalFromSkinning)
    ensures mesh.techniqueInterface < |sss.techniqueInterfaces|
    ensures sss.techniqueInterfaces[mesh.techniqueInterface] == TechniqueInterfaceDesc(MeshLayout(geo, supplements), tbp)
  {
    var ibOffset := wb.UploadIB(geo.ib.offset, geo.ib.size, geo.ib.format);
    var vbOffsets, vertexStrides := AllocateVertexStreams(geo, supplements, wb);
    var layout := BuildStreamsLayout(MeshStreams(geo, supplements));
    var geoParamBox := sss.InsertParameterBox(GeoParamBox(layout, normalFromSkinning));
    var techniqueInterface := sss.InsertTechniqueInterface(TechniqueInterfaceDesc(layout, tbp));
    mesh := Mesh(geoInst.geoId, geo.ib.format, ibOffset, vbOffsets, vertexStrides, 1 + |supplements|,
                 geoParamBox, techniqueInterface);
  }

  /** The layout a skinned mesh renders with: the animated elements in slot 0, then the
    * unanimated ones in slot 1. */
  function SkinnedLayout(geo: BoundSkinnedGeometry): seq<InputElementDesc>
  {
    StreamsLayout([(geo.animatedVertexElements.ia.elements, 0), (geo.geo.vb.ia.elements, 1)], MaxInputElements)
  }

  /** PimplWithSkinning::BuildMesh: the unskinned mesh (with a normal when the animated
    * elements carry one), the animated-geometry and skeleton-binding streams appended to the
    * vertex buffer, and the technique interface of the skinned layout. */
  method BuildSkinnedMesh(
    geoInst: GeoCall, geo: BoundSkinnedGeometry, supplements: seq<SupplementStream>, wb: BuffersUnderConstruction,
    sss: SharedStateSet, tbp: seq<nat>)
    returns (mesh: SkinnedMesh)
    requires |supplements| <= MaxVertexStreams - 1 && wb.Valid()
    requires geo.animatedVertexElements.ia.vertexStride > 0 && geo.skeletonBinding.ia.vertexStride > 0
    modifies wb, sss
    ensures wb.Valid() && sss.Extends()
    ensures sss.shaderNames == old(sss.shaderNames) && sss.renderStateSets == old(sss.renderStateSets)
    ensures mesh.base.id == geoInst.geoId
    ensures mesh.base.geoParamBox < |sss.parameterBoxes| && mesh.base.techniqueInterface < |sss.techniqueInterfaces|
    ensures sss.parameterBoxes[mesh.base.geoParamBox] ==
      GeoParamBox(MeshLayout(geo.geo, supplements), HasVertexElement(geo.animatedVertexElements.ia.elements, "NORMAL"))
    ensures sss.techniqueInterfaces[mesh.base.techniqueInterface] == TechniqueInterfaceDesc(MeshLayout(geo.geo, supplements), tbp)
    ensures |mesh.extraVbOffset| == 2 && |mesh.extraVbStride| == 2 && |mesh.vertexCount| == 2
    ensures mesh.extraVbOffset[1] == mesh.extraVbOffset[0] + geo.animatedVertexElements.size
    ensures wb.vbSize == mesh.extraVbOffset[1] + geo.skeletonBinding.size
    ensures mesh.extraVbStride == [geo.animatedVertexElements.ia.vertexStride, geo.skeletonBinding.ia.vertexStride]
    ensures mesh.vertexCount == [geo.animatedVertexElements.size / geo.animatedVertexElements.ia.vertexStride,
                                 geo.skeletonBinding.size / geo.skeletonBinding.ia.vertexStride]
    ensures |wb.vbUploads| >= 2
    ensures wb.vbUploads[|wb.vbUploads| - 2..] == [
      PendingGeoUpload(geo.animatedVertexElements.offset, geo.animatedVertexElements.size, NoSupplement, mesh.extraVbOffset[0]),
      PendingGeoUpload(geo.skeletonBinding.offset, geo.skeletonBinding.size, NoSupplement, mesh.extraVbOffset[1])]
    ensures mesh.skinnedTechniqueInterface < |sss.techniqueInterfaces|
    ensures sss.techniqueInterfaces[mesh.skinnedTechniqueInterface] == TechniqueInterfaceDesc(SkinnedLayout(geo), tbp)
  {
    var skinnedNormal := HasVertexElementScan(geo.animatedVertexElements.ia.elements, "NORMAL");
    var base := BuildMesh(geoInst, geo.geo, supplements, wb, sss, tbp, skinnedNormal);
    ghost var tis := sss.techniqueInterfaces;
    var extraVbOffset, extraVbStride, vertexCount := AllocateExtraStreams(geo.animatedVertexElements, geo.skeletonBinding, wb);
    var layout := BuildStreamsLayout([(geo.animatedVertexElements.ia.elements, 0), (geo.geo.vb.ia.elements, 1)]);
    var skinnedTechniqueInterface := sss.InsertTechniqueInterface(TechniqueInterfaceDesc(layout, tbp));
    assert tis <= sss.techniqueInterfaces;
    mesh := SkinnedMesh(base, extraVbOffset, extraVbStride, vertexCount, skinnedTechniqueInterface);
  }

  /** The HasElement search over a stream's vertex elements. */
  method HasVertexElementScan(elements: seq<VertexElement>, name: string) returns (found: bool)
    ensures found <==> HasVertexElement(elements, name)
  {
    var i := 0;
    while i < |elements|
      invariant i <= |elements|
      invariant forall k :: 0 <= k < i ==> !Text.EqualsIgnoreCase(elements[k].semanticName, name)
    {
      if Text.EqualsIgnoreCase(elements[i].semanticName, name) {
        return true;
      }
      i := i + 1;
    }
    return false;
  }

  /** The animated-geometry and skeleton-binding streams of a skinned mesh, appended to the
    * vertex buffer, with their strides and vertex counts. */
  method AllocateExtraStreams(animGeo: VertexData, skelBind: VertexData, wb: BuffersUnderConstruction)
    returns (extraVbOffset: seq<nat>, extraVbStride: seq<nat>, vertexCount: seq<nat>)
    requires wb.Valid() && animGeo.ia.vertexStride > 0 && skelBind.ia.vertexStride > 0
    modifies wb
    ensures wb.Valid()
    ensures |extraVbOffset| == 2 && extraVbOffset[0] == old(wb.vbSize)
    ensures extraVbOffset[1] == extraVbOffset[0] + animGeo.size && wb.vbSize == extraVbOffset[1] + skelBind.size
    ensures extraVbStride == [animGeo.ia.vertexStride, skelBind.ia.vertexStride]
    ensures vertexCount == [animGeo.size / animGeo.ia.vertexStride, skelBind.size / skelBind.ia.vertexStride]
    ensures wb.vbUploads == old(wb.vbUploads) + [
      PendingGeoUpload(animGeo.offset, animGeo.size, NoSupplement, extraVbOffset[0]),
      PendingGeoUpload(skelBind.offset, skelBind.size, NoSupplement, extraVbOffset[1])]
    ensures wb.ibSize == old(wb.ibSize) && wb.ibUploads == old(wb.ibUploads)
  {
    var vd := [animGeo, skelBind];
    ghost var offsets := [wb.vbSize, wb.vbSize + animGeo.size];
    ghost var strides := [animGeo.ia.vertexStride, skelBind.ia.vertexStride];
    ghost var counts := [animGeo.size / animGeo.ia.vertexStride, skelBind.size / skelBind.ia.vertexStride];
    ghost var uploads := [
      PendingGeoUpload(animGeo.offset, animGeo.size, NoSupplement, offsets[0]),
      PendingGeoUpload(skelBind.offset, skelBind.size, NoSupplement, offsets[1])];
    extraVbOffset, extraVbStride, vertexCount := [], [], [];
    var c := 0;
    while c < 2
      invariant c <= 2 && wb.Valid()
      invariant extraVbOffset == offsets[..c] && extraVbStride == strides[..c] && vertexCount == counts[..c]
      invariant wb.vbSize == if c == 0 then offsets[0] else if c == 1 then offsets[1] else offsets[1] + skelBind.size
      invariant wb.vbUploads == old(wb.vbUploads) + uploads[..c]
      invariant wb.ibSize == old(wb.ibSize) && wb.ibUploads == old(wb.ibUploads)
    {
      var offset := wb.UploadVB(vd[c].offset, vd[c].size, NoSupplement);
      extraVbOffset := extraVbOffset + [offset];
      extraVbStride := extraVbStride + [vd[c].ia.vertexStride];
      vertexCount := vertexCount + [vd[c].size / vd[c].ia.vertexStride];
      c := c + 1;
    }
  }

  // ---------------------------------------------------------------------------
  // Supplement scaffolds

  /** A geometry of a supplement scaffold: extra vertex data for the model's geometry `geoId`. */
  datatype SupplementGeo = SupplementGeo(geoId: nat, vb: VertexData)

  type SupplementScaffold = seq<SupplementGeo>

  /** The vertex data a supplement scaffold holds for geometry `geoId`, in its order. */
  function MatchingGeos(geos: seq<SupplementGeo>, geoId: nat): (r: seq<VertexData>)
    ensures |r| <= |geos|
  {
    if |geos| == 0 then []
    else MatchingGeos(geos[..|geos| - 1], geoId) + (if geos[|geos| - 1].geoId == geoId then [geos[|geos| - 1].vb] else [])
  }

  /** FindSupplementGeo as written: the vertex data of every supplement for geometry `geoId`,
    * supplement by supplement. BuildMesh then tags the `s`-th of them with `s`. */
  function SupplementGeoAsWritten(supplements: seq<SupplementScaffold>, geoId: nat): seq<VertexData>
  {
    if |supplements| == 0 then []
    else SupplementGeoAsWritten(supplements[..|supplements| - 1], geoId) + MatchingGeos(supplements[|supplements| - 1], geoId)
  }

  /** The streams as the source tags them: by position in the list, not by supplement. */
  function TaggedAsWritten(vbs: seq<VertexData>): seq<SupplementStream>
  {
    seq(|vbs|, s requires 0 <= s < |vbs| => SupplementStream(s, vbs[s]))
  }

  /** The supplement streams for geometry `geoId`, each tagged with the supplement it comes
    * from, so that the read of supplement `s`'s file picks exactly the streams it holds. */
  function SupplementStreams(supplements: seq<SupplementScaffold>, geoId: nat): seq<SupplementStream>
  {
    if |supplements| == 0 then []
    else
      var c := |supplements| - 1;
      var own := MatchingGeos(supplements[c], geoId);
      SupplementStreams(supplements[..c], geoId) + seq(|own|, k requires 0 <= k < |own| => SupplementStream(c, own[k]))
  }

  /** A supplement holds vertex data `vb` for geometry `geoId`. */
  predicate Holds(supplement: SupplementScaffold, geoId: nat, vb: VertexData)
  {
    exists g :: g in supplement && g.geoId == geoId && g.vb == vb
  }

  lemma {:induction false} MatchingGeosHeld(geos: seq<SupplementGeo>, geoId: nat, vb: VertexData)
    requires vb in MatchingGeos(geos, geoId)
    ensures Holds(geos, geoId, vb)
  {
    var init := geos[..|geos| - 1];
    if vb in MatchingGeos(init, geoId) {
      MatchingGeosHeld(init, geoId, vb);
      var g :| g in init && g.geoId == geoId && g.vb == vb;
      assert g in geos;
    } else {
      assert geos[|geos| - 1] in geos;
    }
  }

  /** Every tagged stream is held, for that geometry, by the supplement its tag names. */
  lemma {:induction false} SupplementStreamsHeld(supplements: seq<SupplementScaffold>, geoId: nat, k: nat)
    requires k < |SupplementStreams(supplements, geoId)|
    ensures SupplementStreams(supplements, geoId)[k].supplementIndex < |supplements|
    ensures Holds(supplements[SupplementStreams(supplements, geoId)[k].supplementIndex], geoId,
                  SupplementStreams(supplements, geoId)[k].vb)
  {
    var c := |supplements| - 1;
    var prev := SupplementStreams(supplements[..c], geoId);
    var own := MatchingGeos(supplements[c], geoId);
    if k < |prev| {
      SupplementStreamsHeld(supplements[..c], geoId, k);
      assert supplements[..c][prev[k].supplementIndex] == supplements[prev[k].supplementIndex];
    } else {
      assert own[k - |prev|] in own;
      MatchingGeosHeld(supplements[c], geoId, own[k - |prev|]);
    }
  }

  /** The tagged streams carry the same vertex data, in the same order, as the source's list. */
  lemma {:induction false} SupplementStreamsData(supplements: seq<SupplementScaffold>, geoId: nat)
    ensures |SupplementStreams(supplements, geoId)| == |SupplementGeoAsWritten(supplements, geoId)|
    ensures forall k :: 0 <= k < |SupplementStreams(supplements, geoId)| ==>
      SupplementStreams(supplements, geoId)[k].vb == SupplementGeoAsWritten(supplements, geoId)[k]
  {
    if |supplements| > 0 {
      SupplementStreamsData(supplements[..|supplements| - 1], geoId);
    }
  }

  /** With a first supplement that has nothing for geometry 5 and a second that has, the source
    * tags the second supplement's stream with 0, so the read of supplement 0's file would fill
    * it; the tagged streams name supplement 1. */
  lemma SupplementIndexAsWrittenMismatch(vb: VertexData)
    ensures var supplements := [[], [SupplementGeo(5, vb)]];
      && TaggedAsWritten(SupplementGeoAsWritten(supplements, 5)) == [SupplementStream(0, vb)]
      && !Holds(supplements[0], 5, vb)
      && SupplementStreams(supplements, 5) == [SupplementStream(1, vb)]
  {
    var supplements: seq<SupplementScaffold> := [[], [SupplementGeo(5, vb)]];
    assert supplements[..1] == [[]];
    assert supplements[..1][..0] == [];
    assert MatchingGeos([SupplementGeo(5, vb)], 5) == [vb] by {
      assert [SupplementGeo(5, vb)][..0] == [];
    }
    var first: seq<SupplementScaffold> := [[]];
    assert first[..0] == [];
    assert SupplementGeoAsWritten(first, 5) == [];
    assert SupplementGeoAsWritten(supplements, 5) == SupplementGeoAsWritten(first, 5) + MatchingGeos(supplements[1], 5);
    assert SupplementGeoAsWritten(supplements, 5) == [vb];
    assert SupplementStreams(first, 5) == [];
    assert SupplementStreams(supplements, 5) == SupplementStreams(first, 5) + [SupplementStream(1, vb)];
    assert !Holds(supplements[0], 5, vb);
  }

  /** FindSupplementGeo: the supplement streams for geometry `geoId`, scanning the supplements
    * and their geometries in order. */
  method FindSupplementGeo(supplements: seq<SupplementScaffold>, geoId: nat) returns (result: seq<SupplementStream>)
    ensures result == SupplementStreams(supplements, geoId)
  {
    result := [];
    var c := 0;
    while c < |supplements|
      invariant c <= |supplements|
      invariant result == SupplementStreams(supplements[..c], geoId)
    {
      var geos := supplements[c];
      var g := 0;
      ghost var base := result;
      while g < |geos|
        invariant g <= |geos|
        invariant result == base + seq(|MatchingGeos(geos[..g], geoId)|, k requires 0 <= k < |MatchingGeos(geos[..g], geoId)| =>
          SupplementStream(c, MatchingGeos(geos[..g], geoId)[k]))
      {
        assert geos[..g + 1][..g] == geos[..g];
        if geos[g].geoId == geoId {
          result := result + [SupplementStream(c, geos[g].vb)];
        }
        g := g + 1;
      }
      assert geos[..g] == geos;
      assert supplements[..c + 1][..c] == supplements[..c];
      c := c + 1;
    }
    assert supplements[..c] == supplements;
  }
}
