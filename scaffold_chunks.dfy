/**
 * Chunk lookup for model scaffolds (RenderCore/Assets/ModelRunTime.cpp, LoadRawData):
 * every request is served by the first chunk of its type in the file's chunk table,
 * provided that chunk has the expected version.
 *
 * The file's bytes and its already-parsed chunk table are inputs. A thrown FormatError
 * is an `Err` value. The block serializer's pointer relocation (Block_Initialize) is not
 * part of this model: a BlockSerializer request yields the raw bytes, like a Raw one.
 */
module ScaffoldChunks {
  import opened Wrappers

  newtype byte = x: int | 0 <= x < 256

  /** One entry of the chunk table. */
  datatype ChunkHeader = ChunkHeader(chunkType: nat, chunkVersion: nat, fileOffset: nat, size: nat)

  /** A chunk file: its bytes and its chunk table. */
  datatype ChunkFile = ChunkFile(bytes: seq<byte>, chunks: seq<ChunkHeader>)

  datatype DataType = DontLoad | Raw | BlockSerializer

  datatype AssetChunkRequest = AssetChunkRequest(name: string, chunkType: nat, expectedVersion: nat, dataType: DataType)

  /** The result for one request; `buffer` is None where the source leaves the pointer null. */
  datatype AssetChunkResult = AssetChunkResult(offset: nat, buffer: Option<seq<byte>>, size: nat)

  datatype FormatError =
    | MissingChunk(name: string)
    | WrongVersion(name: string, expected: nat, got: nat)

  /** The position of the first chunk of type `t`, the `find_if` over the chunk table. */
  function FirstChunkOfType(chunks: seq<ChunkHeader>, t: nat): (r: Option<nat>)
    ensures r.Some? ==> r.value < |chunks| && chunks[r.value].chunkType == t
    ensures r.Some? ==> forall j :: 0 <= j < r.value ==> chunks[j].chunkType != t
    ensures r.None? <==> forall j :: 0 <= j < |chunks| ==> chunks[j].chunkType != t
  {
    if |chunks| == 0 then None
    else if chunks[0].chunkType == t then Some(0)
    else match FirstChunkOfType(chunks[1..], t)
      case None => None
      case Some(i) => Some(i + 1)
  }

  /** `size` bytes read from `offset`: the buffer starts zeroed and receives the bytes the
    * file still has at that position. */
  function ReadBlock(bytes: seq<byte>, offset: nat, size: nat): (r: seq<byte>)
    ensures |r| == size
    ensures forall i :: 0 <= i < size && offset + i < |bytes| ==> r[i] == bytes[offset + i]
    ensures forall i :: 0 <= i < size && offset + i >= |bytes| ==> r[i] == 0
  {
    seq(size, i requires 0 <= i < size => if offset + i < |bytes| then bytes[offset + i] else 0)
  }

  /** The outcome of one request. */
  function ServeRequest(file: ChunkFile, r: AssetChunkRequest): Result<AssetChunkResult, FormatError>
  {
    match FirstChunkOfType(file.chunks, r.chunkType)
    case None => Err(MissingChunk(r.name))
    case Some(i) =>
      var c := file.chunks[i];
      if c.chunkVersion != r.expectedVersion then Err(WrongVersion(r.name, r.expectedVersion, c.chunkVersion))
      else Ok(AssetChunkResult(c.fileOffset,
                               if r.dataType == DontLoad then None else Some(ReadBlock(file.bytes, c.fileOffset, c.size)),
                               c.size))
  }

  /** A request is served exactly when a chunk of its type exists and the first such chunk has
    * the expected version; the result carries that chunk's offset and size, and a buffer of
    * its bytes unless the request is DontLoad. */
  lemma ServeRequestMeaning(file: ChunkFile, r: AssetChunkRequest)
    ensures ServeRequest(file, r).Ok? <==>
      (exists i :: 0 <= i < |file.chunks| && file.chunks[i].chunkType == r.chunkType
        && (forall j :: 0 <= j < i ==> file.chunks[j].chunkType != r.chunkType)
        && file.chunks[i].chunkVersion == r.expectedVersion)
    ensures ServeRequest(file, r) == Err(MissingChunk(r.name)) <==>
      (forall j :: 0 <= j < |file.chunks| ==> file.chunks[j].chunkType != r.chunkType)
    ensures ServeRequest(file, r).Ok? ==>
      var i := FirstChunkOfType(file.chunks, r.chunkType).value;
      var res := ServeRequest(file, r).value;
      && res.offset == file.chunks[i].fileOffset
      && res.size == file.chunks[i].size
      && (res.buffer.None? <==> r.dataType == DontLoad)
      && (res.buffer.Some? ==> |res.buffer.value| == res.size)
  {
    var f := FirstChunkOfType(file.chunks, r.chunkType);
    if ServeRequest(file, r).Ok? {
      assert f.Some?;
    }
    if f.Some? && file.chunks[f.value].chunkVersion == r.expectedVersion {
      assert ServeRequest(file, r).Ok?;
    }
    if exists i :: 0 <= i < |file.chunks| && file.chunks[i].chunkType == r.chunkType
        && (forall j :: 0 <= j < i ==> file.chunks[j].chunkType != r.chunkType)
        && file.chunks[i].chunkVersion == r.expectedVersion
    {
      var i :| 0 <= i < |file.chunks| && file.chunks[i].chunkType == r.chunkType
        && (forall j :: 0 <= j < i ==> file.chunks[j].chunkType != r.chunkType)
        && file.chunks[i].chunkVersion == r.expectedVersion;
      assert f.Some?;
      assert f.value == i;
    }
  }

  /** The position of the first chunk of type `t`, scanning the table in order. */
  method FindChunk(chunks: seq<ChunkHeader>, t: nat) returns (r: Option<nat>)
    ensures r == FirstChunkOfType(chunks, t)
  {
    var i := 0;
    while i < |chunks|
      invariant 0 <= i <= |chunks|
      invariant forall j :: 0 <= j < i ==> chunks[j].chunkType != t
    {
      if chunks[i].chunkType == t {
        FirstChunkIsUnique(chunks, t, i);
        return Some(i);
      }
      i := i + 1;
    }
    return None;
  }

  lemma FirstChunkIsUnique(chunks: seq<ChunkHeader>, t: nat, i: nat)
    requires i < |chunks| && chunks[i].chunkType == t
    requires forall j :: 0 <= j < i ==> chunks[j].chunkType != t
    ensures FirstChunkOfType(chunks, t) == Some(i)
  {
  }

  /** Request `k` is the first that cannot be served, and it fails with `e`. */
  predicate FailsFirst(file: ChunkFile, requests: seq<AssetChunkRequest>, k: int, e: FormatError)
  {
    && 0 <= k < |requests|
    && (forall j :: 0 <= j < k ==> ServeRequest(file, requests[j]).Ok?)
    && ServeRequest(file, requests[k]) == Err(e)
  }

  /** LoadRawData: one result per request, in request order; the first request that cannot be
    * served raises its FormatError. */
  method LoadRawData(file: ChunkFile, requests: seq<AssetChunkRequest>)
    returns (result: Result<seq<AssetChunkResult>, FormatError>)
    ensures result.Ok? <==> forall k :: 0 <= k < |requests| ==> ServeRequest(file, requests[k]).Ok?
    ensures result.Ok? ==> |result.value| == |requests|
    ensures result.Ok? ==> forall k :: 0 <= k < |requests| ==> result.value[k] == ServeRequest(file, requests[k]).value
    ensures result.Err? ==> exists k :: FailsFirst(file, requests, k, result.error)
  {
    var results: seq<AssetChunkResult> := [];
    var k := 0;
    while k < |requests|
      invariant 0 <= k <= |requests| && |results| == k
      invariant forall j :: 0 <= j < k ==> ServeRequest(file, requests[j]) == Ok(results[j])
    {
      var r := requests[k];
      var i := FindChunk(file.chunks, r.chunkType);
      if i.None? {
        assert FailsFirst(file, requests, k, MissingChunk(r.name));
        return Err(MissingChunk(r.name));
      }
      var c := file.chunks[i.value];
      if c.chunkVersion != r.expectedVersion {
        assert FailsFirst(file, requests, k, WrongVersion(r.name, r.expectedVersion, c.chunkVersion));
        return Err(WrongVersion(r.name, r.expectedVersion, c.chunkVersion));
      }
      var buffer: Option<seq<byte>> := None;
      if r.dataType != DontLoad {
        buffer := Some(ReadBlock(file.bytes, c.fileOffset, c.size));
      }
      results := results + [AssetChunkResult(c.fileOffset, buffer, c.size)];
      k := k + 1;
    }
    return Ok(results);
  }
}
