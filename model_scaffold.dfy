/**
 * The scaffold's pending-marker state machine (RenderCore/Assets/ModelRunTime.cpp,
 * ScaffoldBase and ModelScaffold): a scaffold built from a compile marker stays unresolved
 * while the marker is pending, reports or throws an invalid marker, and completes from a
 * ready marker by loading its chunks and dropping the marker.
 *
 * The file system is a map from file names to chunk files; opening a name that is not in
 * it is the BasicFile constructor's failure. The compile marker is a value: the state it
 * reports now, and the state StallWhilePending would return, are given. Dependency
 * validation and the supplement scaffold (which resolves exactly like the model scaffold)
 * are not part of this model.
 */
module ModelScaffolds {
  import opened Wrappers
  import opened ScaffoldChunks

  datatype AssetState = Pending | Ready | Invalid

  /** A compile marker: the file it names and the state it reports. */
  datatype PendingCompileMarker = PendingCompileMarker(sourceId: string, state: AssetState, stalledState: AssetState)

  datatype ScaffoldError =
    | FileMissing(filename: string)
    | Format(error: FormatError)
    | InvalidAsset(initializer: string)
    | PendingAsset(initializer: string)

  type FileSystem = map<string, ChunkFile>

  /** The two requests of a model scaffold: the serialized scaffold block, and the position
    * of the large blocks, which is not loaded. The type identifiers are inputs. */
  function ModelScaffoldChunkRequests(scaffoldType: nat, largeBlocksType: nat): (r: seq<AssetChunkRequest>)
    ensures |r| == 2
    ensures r[0].chunkType == scaffoldType && r[0].dataType == BlockSerializer && r[0].expectedVersion == 0
    ensures r[1].chunkType == largeBlocksType && r[1].dataType == DontLoad && r[1].expectedVersion == 0
  {
    [AssetChunkRequest("Scaffold", scaffoldType, 0, BlockSerializer),
     AssetChunkRequest("LargeBlocks", largeBlocksType, 0, DontLoad)]
  }

  /** The resolvable part of a scaffold's state. */
  datatype ScaffoldState = ScaffoldState(
    filename: string,
    marker: Option<PendingCompileMarker>,
    rawMemoryBlock: Option<seq<byte>>,
    largeBlocksOffset: nat)

  /** Opens `filename` and serves `requests` from it. */
  function LoadChunks(fs: FileSystem, filename: string, requests: seq<AssetChunkRequest>): (r: Result<seq<AssetChunkResult>, ScaffoldError>)
    ensures r.Ok? ==> filename in fs && |r.value| == |requests|
    ensures filename !in fs ==> r == Err(FileMissing(filename))
  {
    if filename !in fs then Err(FileMissing(filename))
    else
      var file := fs[filename];
      if forall k :: 0 <= k < |requests| ==> ServeRequest(file, requests[k]).Ok? then
        Ok(seq(|requests|, k requires 0 <= k < |requests| => ServeRequest(file, requests[k]).value))
      else
        Err(Format(FirstFailure(file, requests)))
  }

  /** The error of the first request that cannot be served. */
  function FirstFailure(file: ChunkFile, requests: seq<AssetChunkRequest>): FormatError
    requires exists k :: 0 <= k < |requests| && ServeRequest(file, requests[k]).Err?
  {
    if ServeRequest(file, requests[0]).Err? then ServeRequest(file, requests[0]).error
    else
      assert exists k :: 0 <= k < |requests[1..]| && ServeRequest(file, requests[1..][k]).Err? by {
        var k :| 0 <= k < |requests| && ServeRequest(file, requests[k]).Err?;
        assert requests[1..][k - 1] == requests[k];
      }
      FirstFailure(file, requests[1..])
  }

  /** ModelScaffold::Resolver: the scaffold block is the first chunk's buffer, and the large
    * blocks start where the second chunk does. */
  function Resolver(st: ScaffoldState, chunks: seq<AssetChunkResult>): (r: ScaffoldState)
    requires |chunks| >= 2
    ensures r.rawMemoryBlock == chunks[0].buffer && r.largeBlocksOffset == chunks[1].offset
    ensures r.filename == st.filename && r.marker == st.marker
  {
    st.(rawMemoryBlock := chunks[0].buffer, largeBlocksOffset := chunks[1].offset)
  }

  /** CompleteFromMarker followed by dropping the marker: the scaffold takes the marker's file
    * name before it loads, so a failed load keeps the marker and the data but not the old
    * name; a load that succeeds takes the marker's chunks and drops the marker. */
  function CompleteFromMarker(st: ScaffoldState, fs: FileSystem, requests: seq<AssetChunkRequest>)
    : (r: (Result<(), ScaffoldError>, ScaffoldState))
    requires st.marker.Some? && |requests| >= 2
    ensures r.1.filename == st.marker.value.sourceId
    ensures r.0.Ok? <==> LoadChunks(fs, st.marker.value.sourceId, requests).Ok?
    ensures r.0.Err? ==>
      && r.0.error == LoadChunks(fs, st.marker.value.sourceId, requests).error
      && r.1.marker == st.marker && r.1.rawMemoryBlock == st.rawMemoryBlock
      && r.1.largeBlocksOffset == st.largeBlocksOffset
    ensures r.0.Ok? ==> r.1.marker.None?
  {
    var marker := st.marker.value;
    var named := st.(filename := marker.sourceId);
    match LoadChunks(fs, marker.sourceId, requests)
    case Err(e) => (Err(e), named)
    case Ok(chunks) => (Ok(()), Resolver(named.(marker := None), chunks))
  }

  /** The outcome of TryResolve (with `stall` false) or StallAndResolve (with `stall` true):
    * the state reported, or the load error, and the new state. Ready is reported exactly
    * when no marker is left, and a marker that is left is the old one. */
  function TryResolveStep(st: ScaffoldState, fs: FileSystem, requests: seq<AssetChunkRequest>, stall: bool)
    : (r: (Result<AssetState, ScaffoldError>, ScaffoldState))
    requires |requests| >= 2
    ensures r.0 == Ok(Ready) <==> r.1.marker.None?
    ensures r.1.marker.Some? ==> r.1.marker == st.marker
    ensures r.0.Err? ==> st.marker.Some? && r.1 == st.(filename := st.marker.value.sourceId)
  {
    if st.marker.None? then (Ok(Ready), st)
    else
      var markerState := if stall then st.marker.value.stalledState else st.marker.value.state;
      if markerState != Ready then (Ok(markerState), st)
      else match CompleteFromMarker(st, fs, requests)
        case (Err(e), failed) => (Err(e), failed)
        case (Ok(_), next) => (Ok(Ready), next)
  }

  /** The outcome of Resolve: nothing, or the exception it throws, and the new state. It
    * returns exactly when no marker is left. */
  function ResolveStep(st: ScaffoldState, fs: FileSystem, requests: seq<AssetChunkRequest>)
    : (r: (Result<(), ScaffoldError>, ScaffoldState))
    requires |requests| >= 2
    ensures r.0.Ok? <==> r.1.marker.None?
    ensures r.1.marker.Some? ==> r.1.marker == st.marker
  {
    if st.marker.None? then (Ok(()), st)
    else if st.marker.value.state == Invalid then (Err(InvalidAsset(st.marker.value.sourceId)), st)
    else if st.marker.value.state == Pending then (Err(PendingAsset(st.marker.value.sourceId)), st)
    else CompleteFromMarker(st, fs, requests)
  }

  /** Without a marker the scaffold is ready and resolving changes nothing. A pending or
    * invalid marker is reported, or thrown, and kept. */
  lemma ResolveReportsMarkerState(st: ScaffoldState, fs: FileSystem, requests: seq<AssetChunkRequest>, stall: bool)
    requires |requests| >= 2
    ensures st.marker.None? ==> TryResolveStep(st, fs, requests, stall) == (Ok(Ready), st)
    ensures st.marker.None? ==> ResolveStep(st, fs, requests) == (Ok(()), st)
    ensures st.marker.Some? && st.marker.value.state == Pending ==>
      ResolveStep(st, fs, requests) == (Err(PendingAsset(st.marker.value.sourceId)), st)
      && TryResolveStep(st, fs, requests, false) == (Ok(Pending), st)
    ensures st.marker.Some? && st.marker.value.state == Invalid ==>
      ResolveStep(st, fs, requests) == (Err(InvalidAsset(st.marker.value.sourceId)), st)
      && TryResolveStep(st, fs, requests, false) == (Ok(Invalid), st)
  {
  }

  /** A ready marker whose file is missing: the load fails, the marker stays for a later
    * resolve, and the scaffold is left with the marker's file name. */
  lemma FailedLoadTakesMarkerName(st: ScaffoldState, fs: FileSystem, requests: seq<AssetChunkRequest>, stall: bool)
    requires |requests| >= 2 && st.marker.Some? && st.marker.value.sourceId !in fs
    requires st.marker.value.state == Ready && st.marker.value.stalledState == Ready
    ensures var failed := st.(filename := st.marker.value.sourceId);
      && TryResolveStep(st, fs, requests, stall) == (Err(FileMissing(st.marker.value.sourceId)), failed)
      && ResolveStep(st, fs, requests) == (Err(FileMissing(st.marker.value.sourceId)), failed)
  {
  }

  /** A ready marker whose file loads completes the scaffold: the marker is dropped, the file
    * name and both chunks are taken from the marker's file, and a second resolve is a no-op. */
  lemma {:induction false} ReadyMarkerCompletes(st: ScaffoldState, fs: FileSystem, scaffoldType: nat, largeBlocksType: nat)
    requires st.marker.Some? && st.marker.value.state == Ready
    requires st.marker.value.sourceId in fs
    requires var file := fs[st.marker.value.sourceId];
      && ServeRequest(file, ModelScaffoldChunkRequests(scaffoldType, largeBlocksType)[0]).Ok?
      && ServeRequest(file, ModelScaffoldChunkRequests(scaffoldType, largeBlocksType)[1]).Ok?
    ensures var requests := ModelScaffoldChunkRequests(scaffoldType, largeBlocksType);
      var file := fs[st.marker.value.sourceId];
      var (res, next) := TryResolveStep(st, fs, requests, false);
      && res == Ok(Ready)
      && next.marker.None?
      && next.filename == st.marker.value.sourceId
      && next.rawMemoryBlock == ServeRequest(file, requests[0]).value.buffer
      && next.rawMemoryBlock.Some?
      && next.largeBlocksOffset == ServeRequest(file, requests[1]).value.offset
      && ResolveStep(st, fs, requests) == (Ok(()), next)
      && TryResolveStep(next, fs, requests, false) == (Ok(Ready), next)
  {
    var requests := ModelScaffoldChunkRequests(scaffoldType, largeBlocksType);
    var file := fs[st.marker.value.sourceId];
    assert forall k :: 0 <= k < |requests| ==> ServeRequest(file, requests[k]).Ok? by {
      forall k | 0 <= k < |requests|
        ensures ServeRequest(file, requests[k]).Ok?
      {
        assert k == 0 || k == 1;
      }
    }
    ServeRequestMeaning(file, requests[0]);
  }

  /** The error LoadChunks reports is the first request's failure in request order. */
  lemma {:induction false} FirstFailureIsFirst(file: ChunkFile, requests: seq<AssetChunkRequest>)
    requires exists k :: 0 <= k < |requests| && ServeRequest(file, requests[k]).Err?
    ensures exists k :: FailsFirst(file, requests, k, FirstFailure(file, requests))
  {
    if ServeRequest(file, requests[0]).Ok? {
      assert exists k :: 0 <= k < |requests[1..]| && ServeRequest(file, requests[1..][k]).Err? by {
        var k :| 0 <= k < |requests| && ServeRequest(file, requests[k]).Err?;
        assert requests[1..][k - 1] == requests[k];
      }
      FirstFailureIsFirst(file, requests[1..]);
      var k :| FailsFirst(file, requests[1..], k, FirstFailure(file, requests[1..]));
      assert requests[k + 1] == requests[1..][k];
      assert forall j :: 0 <= j < k + 1 ==> ServeRequest(file, requests[j]).Ok? by {
        forall j | 0 <= j < k + 1
          ensures ServeRequest(file, requests[j]).Ok?
        {
          if j > 0 {
            assert requests[j] == requests[1..][j - 1];
          }
        }
      }
      assert FailsFirst(file, requests, k + 1, FirstFailure(file, requests));
    } else {
      assert FailsFirst(file, requests, 0, FirstFailure(file, requests));
    }
  }

  /** Opens the named chunk file and runs LoadRawData on it. */
  method LoadFromFile(fs: FileSystem, filename: string, requests: seq<AssetChunkRequest>)
    returns (r: Result<seq<AssetChunkResult>, ScaffoldError>)
    ensures r == LoadChunks(fs, filename, requests)
  {
    if filename !in fs {
      return Err(FileMissing(filename));
    }
    var loaded := LoadRawData(fs[filename], requests);
    if loaded.Err? {
      FirstFailureIsFirst(fs[filename], requests);
      FirstFailureUnique(fs[filename], requests, loaded.error);
      return Err(Format(loaded.error));
    }
    assert loaded.value == seq(|requests|, k requires 0 <= k < |requests| => ServeRequest(fs[filename], requests[k]).value);
    return Ok(loaded.value);
  }

  lemma FirstFailureUnique(file: ChunkFile, requests: seq<AssetChunkRequest>, e: FormatError)
    requires exists k :: FailsFirst(file, requests, k, e)
    requires exists k :: FailsFirst(file, requests, k, FirstFailure(file, requests))
    ensures e == FirstFailure(file, requests)
  {
    var k1 :| FailsFirst(file, requests, k1, e);
    var k2 :| FailsFirst(file, requests, k2, FirstFailure(file, requests));
    assert k1 == k2;
  }

  /** A model scaffold (ScaffoldBase with ModelScaffold's chunk requests and resolver). */
  class ModelScaffold {
    var filename: string
    var marker: Option<PendingCompileMarker>
    var rawMemoryBlock: Option<seq<byte>>
    var largeBlocksOffset: nat
    const requests: seq<AssetChunkRequest>

    function State(): ScaffoldState
      reads this
    {
      ScaffoldState(filename, marker, rawMemoryBlock, largeBlocksOffset)
    }

    /** The scaffold before resolution: a marker and no data. */
    constructor FromMarker(m: PendingCompileMarker, scaffoldType: nat, largeBlocksType: nat)
      ensures requests == ModelScaffoldChunkRequests(scaffoldType, largeBlocksType)
      ensures State() == ScaffoldState("", Some(m), None, 0)
    {
      filename := "";
      marker := Some(m);
      rawMemoryBlock := None;
      largeBlocksOffset := 0;
      requests := ModelScaffoldChunkRequests(scaffoldType, largeBlocksType);
    }

    /** A scaffold whose chunks are already loaded. */
    constructor FromChunks(name: string, chunks: seq<AssetChunkResult>, scaffoldType: nat, largeBlocksType: nat)
      requires |chunks| >= 2
      ensures requests == ModelScaffoldChunkRequests(scaffoldType, largeBlocksType)
      ensures State() == Resolver(ScaffoldState(name, None, None, 0), chunks)
    {
      filename := name;
      marker := None;
      rawMemoryBlock := chunks[0].buffer;
      largeBlocksOffset := chunks[1].offset;
      requests := ModelScaffoldChunkRequests(scaffoldType, largeBlocksType);
    }

    /** CompleteFromMarker, then the marker is dropped. */
    method Complete(fs: FileSystem) returns (r: Result<(), ScaffoldError>)
      requires marker.Some? && |requests| >= 2
      modifies this
      ensures (r, State()) == CompleteFromMarker(old(State()), fs, requests)
    {
      filename := marker.value.sourceId;
      var loaded := LoadFromFile(fs, filename, requests);
      if loaded.Err? {
        return Err(loaded.error);
      }
      marker := None;
      rawMemoryBlock := loaded.value[0].buffer;
      largeBlocksOffset := loaded.value[1].offset;
      return Ok(());
    }

    /** ScaffoldBase::TryResolve. */
    method TryResolve(fs: FileSystem) returns (r: Result<AssetState, ScaffoldError>)
      requires |requests| >= 2
      modifies this
      ensures (r, State()) == TryResolveStep(old(State()), fs, requests, false)
    {
      if marker.Some? {
        var markerState := marker.value.state;
        if markerState != Ready {
          return Ok(markerState);
        }
        var done := Complete(fs);
        if done.Err? {
          return Err(done.error);
        }
      }
      return Ok(Ready);
    }

    /** ScaffoldBase::StallAndResolve: as TryResolve, after waiting for the marker. */
    method StallAndResolve(fs: FileSystem) returns (r: Result<AssetState, ScaffoldError>)
      requires |requests| >= 2
      modifies this
      ensures (r, State()) == TryResolveStep(old(State()), fs, requests, true)
    {
      if marker.Some? {
        var markerState := marker.value.stalledState;
        if markerState != Ready {
          return Ok(markerState);
        }
        var done := Complete(fs);
        if done.Err? {
          return Err(done.error);
        }
      }
      return Ok(Ready);
    }

    /** ScaffoldBase::Resolve: throws on an invalid or pending marker. */
    method Resolve(fs: FileSystem) returns (r: Result<(), ScaffoldError>)
      requires |requests| >= 2
      modifies this
      ensures (r, State()) == ResolveStep(old(State()), fs, requests)
    {
      if marker.Some? {
        if marker.value.state == Invalid {
          return Err(InvalidAsset(marker.value.sourceId));
        } else if marker.value.state == Pending {
          return Err(PendingAsset(marker.value.sourceId));
        }
        r := Complete(fs);
        return;
      }
      return Ok(());
    }
  }

  /** ModelScaffold's constructor from a file name: the chunks are loaded at once and the
    * resolver runs on them. */
  method OpenModelScaffold(fs: FileSystem, filename: string, scaffoldType: nat, largeBlocksType: nat)
    returns (r: Result<ModelScaffold, ScaffoldError>)
    ensures r.Ok? ==> fresh(r.value) && r.value.marker.None? && r.value.filename == filename
    ensures r.Ok? ==> r.value.requests == ModelScaffoldChunkRequests(scaffoldType, largeBlocksType)
    ensures var load := LoadChunks(fs, filename, ModelScaffoldChunkRequests(scaffoldType, largeBlocksType));
      && (r.Ok? <==> load.Ok?)
      && (r.Err? ==> r.error == load.error)
      && (r.Ok? ==> r.value.State() == Resolver(ScaffoldState(filename, None, None, 0), load.value))
  {
    var requests := ModelScaffoldChunkRequests(scaffoldType, largeBlocksType);
    var loaded := LoadFromFile(fs, filename, requests);
    if loaded.Err? {
      return Err(loaded.error);
    }
    var s := new ModelScaffold.FromChunks(filename, loaded.value, scaffoldType, largeBlocksType);
    return Ok(s);
  }

  /** ModelScaffold's constructor from a compile marker: a ready marker is loaded at once, any
    * other marker is kept for a later resolve. */
  method OpenModelScaffoldFromMarker(fs: FileSystem, m: PendingCompileMarker, scaffoldType: nat, largeBlocksType: nat)
    returns (r: Result<ModelScaffold, ScaffoldError>)
    ensures r.Ok? ==> fresh(r.value) && r.value.requests == ModelScaffoldChunkRequests(scaffoldType, largeBlocksType)
    ensures m.state != Ready ==> r.Ok? && r.value.State() == ScaffoldState("", Some(m), None, 0)
    ensures m.state == Ready ==>
      var load := LoadChunks(fs, m.sourceId, ModelScaffoldChunkRequests(scaffoldType, largeBlocksType));
      && (r.Ok? <==> load.Ok?)
      && (r.Err? ==> r.error == load.error)
      && (r.Ok? ==> r.value.State() == Resolver(ScaffoldState(m.sourceId, None, None, 0), load.value))
  {
    if m.state != Ready {
      var s := new ModelScaffold.FromMarker(m, scaffoldType, largeBlocksType);
      return Ok(s);
    }
    r := OpenModelScaffold(fs, m.sourceId, scaffoldType, largeBlocksType);
  }
}
