# XLE model renderer and editor helpers, in Dafny

This project models the core of the XLE engine's model renderer, plus a handful of smaller engine
and editor components, and proves properties of the model.

**The model renderer** (`RenderCore/Assets/ModelRunTime.cpp`) covers:
- chunk lookup in a scaffold file and the scaffold's pending/ready/invalid marker state machine;
- construction planning: material indices, the sorted material-resource and bind-point tables,
  constant-buffer deduplication and the bound-texture table;
- the vertex/index buffer bump allocator, the input layouts of a mesh's streams and its
  geometry parameter box;
- the renderer constructor, which stores one mesh per geometry and one draw call per drawable
  draw call;
- `Prepare`, which files one delayed entry per draw call with its variation hash and transform;
- the draw-call order and the rendering of a delay step's sorted entries;
- the immediate `Render` pass;
- the texture-state fold (`GetState`/`TryResolve`), the material-binding query and `MeshToModel`.

Device calls are events of a trace (bind streams, look up a variation, draw a range). The shared
state set is an interner whose handle is the position of the first equal value.

**The smaller components are:**
- the terrain uber-surface: file header check, sample addressing, the empty-file writer, the GPU
  cache rectangle and cell notification (`SceneEngine/TerrainUberSurface.cpp`);
- the ocean's grid-patch index generator (`SceneEngine/Ocean.cpp`);
- the light-resolve shader slot table (`SceneEngine/LightingTargets.cpp`);
- the default shadow-frustum settings (`PlatformRig/PlatformRigUtil.cpp`);
- the editor's render-state and mouse-over bindings (`Tools/GUILayer/UITypesBinding.cpp`);
- the shader-graph editor's node bookkeeping (`Tools/NodeEditor/ShaderFragmentNodes.cs`);
- the asset service's path helpers (`Foreign/SonyLE/LevelEditorXLE/AssetMan/AssetProperties.cs`).

Each source file is one module, or a few modules for `ModelRunTime.cpp`. Two extra modules hold
shared pieces: `Wrappers` (Option/Result) and `Text`/`Bits`/`Sequences` (shared facts).

Objects whose fields the source updates in place are classes with `modifies` clauses, for example:
- the buffer allocator, the delayed draw-call set and the renderer;
- the scaffold, the uber-surface interface and the ocean patch;
- the shadow settings, the render-state binding, the preview document and the graph control.

Each method is proved against a specification function, and the lemmas state what that function
means.

## Model

| member | source | states |
|---|---|---|
| AssetProperties.ExtensionDotUnique | Foreign/SonyLE/LevelEditorXLE/AssetMan/AssetProperties.cs:100-103 | at most one position passes the extension-dot test (the last dot, after every separator, not at index 0) |
| AssetProperties.StripExtension | Foreign/SonyLE/LevelEditorXLE/AssetMan/AssetProperties.cs:98-108 | the result is a prefix of the input, ends exactly at the extension dot when there is one, and is the whole input otherwise |
| AssetProperties.StripExtensionRoundTrip | Foreign/SonyLE/LevelEditorXLE/AssetMan/AssetProperties.cs:100-107 | appending "." and an extension free of dots and separators to a non-empty name, then stripping, gives the name back |
| AssetProperties.StripExtensionKeepsLeadingDot | Foreign/SonyLE/LevelEditorXLE/AssetMan/AssetProperties.cs:103 | a dot at index 0 is never taken as an extension |
| AssetProperties.StripExtensionKeepsDirectoryDot | Foreign/SonyLE/LevelEditorXLE/AssetMan/AssetProperties.cs:101-103 | a dot followed by a '/' belongs to a directory name and the input comes back unchanged |
| AssetProperties.SuffixMatchLength | Foreign/SonyLE/LevelEditorXLE/AssetMan/AssetProperties.cs:120-121 | the pattern matches 0, 3 or 4 characters at a position, never more than remain, and a match begins with '_' |
| AssetProperties.BaseTextureName | Foreign/SonyLE/LevelEditorXLE/AssetMan/AssetProperties.cs:110-123 | the left-to-right replacement of each _df/_ddn/_sp match (any case) with "_*" never lengthens the name; what it keeps and replaces is stated by the lemmas below |
| AssetProperties.BaseTextureNameWithoutMatch | Foreign/SonyLE/LevelEditorXLE/AssetMan/AssetProperties.cs:120-122 | a name with no match anywhere comes back unchanged |
| AssetProperties.SuffixMatchLengthBeforeDot | Foreign/SonyLE/LevelEditorXLE/AssetMan/AssetProperties.cs:121 | a match cannot run across a '.', so what follows the dot does not change the match before it |
| AssetProperties.BaseTextureNameKeepsExtension | Foreign/SonyLE/LevelEditorXLE/AssetMan/AssetProperties.cs:114-122 | a trailing extension (a '.' and no '_' after it) comes through the replacement unchanged |
| AssetProperties.BaseTextureNameCopiesPlainText | Foreign/SonyLE/LevelEditorXLE/AssetMan/AssetProperties.cs:120-122 | text without '_' holds no match: it is copied to the result and the replacement continues with what follows |
| AssetProperties.BaseTextureNameReplacesSuffix | Foreign/SonyLE/LevelEditorXLE/AssetMan/AssetProperties.cs:110-122 | a name with a _df, _ddn or _sp suffix between text without '_' comes back with that suffix replaced by "_*" and everything else unchanged |
| AssetProperties.BaseTextureNameHead | Foreign/SonyLE/LevelEditorXLE/AssetMan/AssetProperties.cs:120-122 | up to the first '_' of the result, the result is the input copied character for character |
| AssetProperties.BaseTextureNameLeavesNoMatch | Foreign/SonyLE/LevelEditorXLE/AssetMan/AssetProperties.cs:120-122 | no match of the pattern survives anywhere in the result: each match became "_*" and none forms across a replacement |
| Bits.XorBits | RenderCore/Assets/ModelRunTime.cpp:1184 | the exclusive or of the low n bits of two numbers fits in n bits |
| Bits.XorDisjoint | RenderCore/Assets/ModelRunTime.cpp:1184 | when a fits below bit m, a ^ (q << m) is a + (q << m): the fields of the variation hash do not mix |
| Bits.Xor32Disjoint | RenderCore/Assets/ModelRunTime.cpp:1184 | the same for 32-bit unsigned values, where the shift is taken modulo 2^32 |
| DrawCallScheduling.CompareDrawCallStrict | RenderCore/Assets/ModelRunTime.cpp:1124-1136 | CompareDrawCall is irreflexive and transitive, so it is a strict weak order std::sort may use |
| DrawCallScheduling.CompareDrawCallTotal | RenderCore/Assets/ModelRunTime.cpp:1124-1136 | two entries are ordered one way or the other exactly when their (hash, renderer, sub-mesh, draw call index) keys differ, and never both ways |
| DrawCallScheduling.InsertEntryPermutes | RenderCore/Assets/ModelRunTime.cpp:1282 | inserting an entry into a run of entries adds exactly that entry |
| DrawCallScheduling.InsertEntrySorted | RenderCore/Assets/ModelRunTime.cpp:1282 | inserting an entry into a run ordered by CompareDrawCall keeps it ordered |
| DrawCallScheduling.NotBeforeHead | RenderCore/Assets/ModelRunTime.cpp:1282 | what is inserted behind the head of an ordered run is not less than that head |
| DrawCallScheduling.SortEntriesCorrect | RenderCore/Assets/ModelRunTime.cpp:1282 | the sort of a delay step's entries is a permutation of them, ordered by CompareDrawCall |
| DrawCallScheduling.Xor32 | RenderCore/Assets/ModelRunTime.cpp:1184 | `^` on unsigned 32-bit values stays below 2^32 |
| DrawCallScheduling.VariationHash | RenderCore/Assets/ModelRunTime.cpp:1184 | the shader variation hash, interface ^ (geo << 12) ^ (mat << 15) ^ (shader << 24) in 32 bits, is a 32-bit value |
| DrawCallScheduling.VariationHashFields | RenderCore/Assets/ModelRunTime.cpp:1184 | while the handles fit 12, 3, 9 and 8 bits, the hash is the sum of the placed fields |
| DrawCallScheduling.VariationHashInjective | RenderCore/Assets/ModelRunTime.cpp:1184 | in those widths two variations with one hash are the same variation |
| DrawCallScheduling.FieldsDecode | RenderCore/Assets/ModelRunTime.cpp:1184 | each field can be read back from the sum of placed fields |
| DrawCallScheduling.VariationHashCollide | RenderCore/Assets/ModelRunTime.cpp:1184 | beyond those widths different variations share a hash, the collision the source's comment allows for |
| DrawCallScheduling.VariationHashReachesStart | RenderCore/Assets/ModelRunTime.cpp:1184 | a hash of in-range handles can equal ~0u, the tracker's start value, so such an entry would not begin a variation (also line 1286) |
| DrawCallScheduling.TopologyTagRoundTrip | RenderCore/Assets/ModelRunTime.cpp:1188 | for a topology below 0x100, the 0x100 tag marks skinned entries (`> 0xff`) and `& 0xff` gives the topology back; an untagged topology is read as unskinned (also lines 1229, 1300, 1366) |
| DrawCallScheduling.DelayedDrawCallSet.constructor | RenderCore/Assets/ModelRunTime.cpp:1266 | a new set has the given renderer type, no entries in any delay step and no transforms |
| DrawCallScheduling.DelayedDrawCallSet.Push | RenderCore/Assets/ModelRunTime.cpp:1190-1231 | the entry is appended to its delay step's list; the other steps and the transforms are unchanged |
| DrawCallScheduling.DelayedDrawCallSet.PushTransform | RenderCore/Assets/ModelRunTime.cpp:1146-1179 | the transform is appended and its index is the old count; no entry changes |
| DrawCallScheduling.DelayedDrawCallSet.Sort | RenderCore/Assets/ModelRunTime.cpp:1282 | the step's entries become their sort; the other steps and the transforms are unchanged |
| DrawCallScheduling.AsWrittenInterfaceMismatch | RenderCore/Assets/ModelRunTime.cpp:1224 | for a skinned mesh whose two interfaces differ, the interface the loop reads is not the one its entries were hashed with (also lines 1316, 1329-1331) |
| DrawCallScheduling.DrawsAppend | RenderCore/Assets/ModelRunTime.cpp:1370 | the draws of two traces in sequence are the draws of the first followed by those of the second |
| DrawCallScheduling.MeshBindsAppend | RenderCore/Assets/ModelRunTime.cpp:1305-1314 | likewise for mesh binds |
| DrawCallScheduling.PreparedTraceDrawsEveryEntry | RenderCore/Assets/ModelRunTime.cpp:1291-1371 | when every variation has uniforms and no hash equals the start value, the loop draws every entry once, in order, with its own index range |
| DrawCallScheduling.DrawStepDraws | RenderCore/Assets/ModelRunTime.cpp:1338-1370 | the draw part of an entry draws exactly that entry's index range |
| DrawCallScheduling.PreparedTraceBindsOnMeshChange | RenderCore/Assets/ModelRunTime.cpp:1295-1318 | a mesh's streams are bound exactly at the entries whose mesh differs from the previous entry's |
| DrawCallScheduling.DrawStepBindsNoMesh | RenderCore/Assets/ModelRunTime.cpp:1338-1370 | the draw part of an entry binds no mesh |
| DrawCallScheduling.NoMeshBinds | RenderCore/Assets/ModelRunTime.cpp:1295 | a trace without stream binds has no mesh binds |
| DrawCallScheduling.OneMeshBindsOnce | RenderCore/Assets/ModelRunTime.cpp:1295-1318 | a run of entries on one mesh, after a different mesh, binds its streams exactly once |
| DrawCallScheduling.SameMeshNoChange | RenderCore/Assets/ModelRunTime.cpp:1295 | a run on the mesh already bound binds nothing |
| DrawCallScheduling.RenderPreparedInternal | RenderCore/Assets/ModelRunTime.cpp:1261-1372 | a set filled by another renderer type is refused and left as it was; otherwise the step's entries are sorted in place and the result is the trace of drawing them from the initial trackers; other steps and the transforms are unchanged |
| DrawCallScheduling.SortKeepsResolvable | RenderCore/Assets/ModelRunTime.cpp:1282 | sorting keeps every entry resolvable against its renderer |
| DrawCallScheduling.DrawEntries | RenderCore/Assets/ModelRunTime.cpp:1284-1371 | the loop over the sorted entries produces the trace PreparedTrace defines |
| DrawCallScheduling.DrawEntry | RenderCore/Assets/ModelRunTime.cpp:1292-1370 | one iteration produces the state and events of EntryStep |
| DrawCallScheduling.CompareDrawCall | RenderCore/Assets/ModelRunTime.cpp:1124-1136 | an entry ordered before another never has a larger variation hash |
| DrawCallScheduling.InsertEntry | RenderCore/Assets/ModelRunTime.cpp:1282 | inserting adds exactly one entry, the one inserted |
| DrawCallScheduling.SortEntries | RenderCore/Assets/ModelRunTime.cpp:1282 | sorting keeps the number of entries |
| DrawCallScheduling.PreparedTraceBindsFirstMesh | RenderCore/Assets/ModelRunTime.cpp:1295-1318 | the pass opens by binding the first entry's mesh streams unless that mesh is already bound |
| DrawCallScheduling.VariationsBegunAppend | RenderCore/Assets/ModelRunTime.cpp:1327-1334 | the variation lookups of two traces in a row are those of the first, then those of the second |
| DrawCallScheduling.EntryStepVariation | RenderCore/Assets/ModelRunTime.cpp:1327-1334 | an entry looks up a variation, keyed by its shader, bound interface and parameter boxes, exactly when its hash differs from the last one, and then records its hash |
| DrawCallScheduling.PreparedTraceVariationsOnHashChange | RenderCore/Assets/ModelRunTime.cpp:1320-1334 | the prepared pass looks up a variation exactly at the entries whose hash differs from the entry before, and nowhere else |
| DrawCallScheduling.UniformsAppliedAppend | RenderCore/Assets/ModelRunTime.cpp:1352-1364 | the uniform applications of two traces in a row are those of the first, then those of the second |
| DrawCallScheduling.EntryStepUniforms | RenderCore/Assets/ModelRunTime.cpp:1295-1364 | an entry applies its bound uniforms exactly when it is the first or its mesh, hash, texture set or constant buffer differs from the entry before |
| DrawCallScheduling.PreDrawApplyIsChange | RenderCore/Assets/ModelRunTime.cpp:1315-1333 | after the mesh and variation parts, uniforms are bound and the tracked texture set or constant buffer differs from the entry's exactly when the entry is the first or its mesh, hash, texture set or constant buffer differs from the previous entry's: a mesh or hash change resets the tracked texture set |
| DrawCallScheduling.DrawStepApplies | RenderCore/Assets/ModelRunTime.cpp:1352-1364 | drawing applies the uniforms exactly when the texture set or constant buffer differs from the bound ones |
| DrawCallScheduling.PreparedTraceAppliesUniformsOnChange | RenderCore/Assets/ModelRunTime.cpp:1295-1364 | over the whole pass, uniforms are applied exactly at the entries that start a run of equal mesh, hash, texture set and constant buffer |
| GeoBuffers.IndexStride | RenderCore/Assets/ModelRunTime.cpp:396 | the index stride is 4 exactly for R32_UINT and 2 for every other format |
| GeoBuffers.AlignUpMeaning | RenderCore/Assets/ModelRunTime.cpp:393-401 | the aligned offset is the least multiple of the stride not below the current size, and an aligned size is kept |
| GeoBuffers.PackedDisjoint | RenderCore/Assets/ModelRunTime.cpp:391-411 | packed uploads never overlap: each ends before any later one starts, and all end by the buffer size |
| GeoBuffers.PackedAppend | RenderCore/Assets/ModelRunTime.cpp:391-411 | an upload placed at or after the end keeps the uploads packed |
| GeoBuffers.BuffersUnderConstruction.constructor | RenderCore/Assets/ModelRunTime.cpp:413 | both sizes start at 0 with no uploads, which is packed |
| GeoBuffers.BuffersUnderConstruction.AllocateIB | RenderCore/Assets/ModelRunTime.cpp:391-404 | the allocation is the old size rounded up to the index stride and the new size is allocation + size; nothing else changes |
| GeoBuffers.BuffersUnderConstruction.AllocateVB | RenderCore/Assets/ModelRunTime.cpp:406-411 | the allocation is the old size and the size grows by the request; nothing else changes |
| GeoBuffers.BuffersUnderConstruction.UploadIB | RenderCore/Assets/ModelRunTime.cpp:856-859 | an index block allocated and recorded for upload at its aligned offset, keeping the index uploads packed |
| GeoBuffers.BuffersUnderConstruction.UploadVB | RenderCore/Assets/ModelRunTime.cpp:861-881 | a vertex block allocated at the end and recorded with its supplement tag, keeping the vertex uploads packed |
| GeoBuffers.StreamsLayout | RenderCore/Assets/ModelRunTime.cpp:889-895 | the layout of several streams never exceeds the capacity of the array it is built in |
| GeoBuffers.StreamPrefix | RenderCore/Assets/ModelRunTime.cpp:443-461 | the elements of one stream that fit, each lowered in order into the stream's slot |
| GeoBuffers.StreamsLayoutElements | RenderCore/Assets/ModelRunTime.cpp:443-461 | every element of the layout is some stream's element in that stream's slot (also lines 889-895) |
| GeoBuffers.StreamsLayoutFits | RenderCore/Assets/ModelRunTime.cpp:889-895 | when all elements fit the array, the layout has one entry per vertex element |
| GeoBuffers.BuildLowLevelInputAssembly | RenderCore/Assets/ModelRunTime.cpp:443-461 | writes min(source count, room left) elements, in order and in the slot, after `start`; the entries before `start` are untouched |
| GeoBuffers.SetFlagsMeaning | RenderCore/Assets/ModelRunTime.cpp:202-212 | after setting flags, a name is in the box iff it was before or a flag with that name held, and set names hold 1 |
| GeoBuffers.GeoParamBoxFlags | RenderCore/Assets/ModelRunTime.cpp:196-216 | the geometry box holds only GEO_HAS_ names, each set to 1 |
| GeoBuffers.GeoParamBoxConditions | RenderCore/Assets/ModelRunTime.cpp:203-212 | GEO_HAS_NORMAL iff a NORMAL element or skinned normals; GEO_HAS_SKIN_WEIGHTS iff both BONEINDICES and BONEWEIGHTS; GEO_HAS_TEXCOORD iff TEXCOORD |
| GeoBuffers.HasElementIgnoresCase | RenderCore/Assets/ModelRunTime.cpp:155-160 | semantic names compare without case: a `texcoord` element counts as TEXCOORD |
| GeoBuffers.StreamOffsets | RenderCore/Assets/ModelRunTime.cpp:861-877 | one offset per stream |
| GeoBuffers.StreamOffsetsContiguous | RenderCore/Assets/ModelRunTime.cpp:861-877 | each stream starts where the previous one ends |
| GeoBuffers.StreamsLayoutAppend | RenderCore/Assets/ModelRunTime.cpp:892-895 | the layout of one more stream is the old layout followed by what of the new stream fits in the room left |
| GeoBuffers.BuildStreamsLayout | RenderCore/Assets/ModelRunTime.cpp:889-895 | the array built stream by stream holds StreamsLayout of the streams with capacity 12 |
| GeoBuffers.AllocateVertexStreams | RenderCore/Assets/ModelRunTime.cpp:861-887 | the mesh's own stream and each supplement get consecutive vertex offsets and their strides, unused slots are zeroed, and one upload per stream is recorded with its tag |
| GeoBuffers.StreamSizes | RenderCore/Assets/ModelRunTime.cpp:861-877 | one size per stream |
| GeoBuffers.UploadStreams | RenderCore/Assets/ModelRunTime.cpp:874-882 | the streams are appended one after another, each recorded for upload with its tag, keeping the vertex buffer packed |
| GeoBuffers.StreamEndNext | RenderCore/Assets/ModelRunTime.cpp:874-882 | the next stream starts where the streams before it end |
| GeoBuffers.BuildMesh | RenderCore/Assets/ModelRunTime.cpp:841-907 | the mesh's index data goes at the next aligned offset, its streams at consecutive vertex offsets, uploads are recorded for each, and its box and technique interface are those of its layout; the shared state only grows |
| GeoBuffers.BuildSkinnedMesh | RenderCore/Assets/ModelRunTime.cpp:909-976 | the unskinned part as BuildMesh with skinned normals counted, then the animated and skeleton-binding streams appended with their strides and vertex counts, and a second technique interface for the animated-then-unanimated layout |
| GeoBuffers.HasVertexElementScan | RenderCore/Assets/ModelRunTime.cpp:148-153 | the scan finds an element iff one has the name, ignoring case |
| GeoBuffers.AllocateExtraStreams | RenderCore/Assets/ModelRunTime.cpp:933-942 | the two skinning streams go one after the other at the end of the vertex buffer, with their uploads |
| GeoBuffers.MatchingGeos | RenderCore/Assets/ModelRunTime.cpp:422-426 | a supplement contributes at most one stream per geometry it holds |
| GeoBuffers.MatchingGeosHeld | RenderCore/Assets/ModelRunTime.cpp:422-426 | every stream found is held for that geometry |
| GeoBuffers.SupplementStreamsHeld | RenderCore/Assets/ModelRunTime.cpp:416-427 | each stream's tag names a supplement that holds that stream for the geometry (also line 644) |
| GeoBuffers.SupplementStreamsData | RenderCore/Assets/ModelRunTime.cpp:416-427 | the tagged streams carry the same vertex data, in the same order, as the list FindSupplementGeo builds |
| GeoBuffers.SupplementIndexAsWrittenMismatch | RenderCore/Assets/ModelRunTime.cpp:877-881 | tagging by position in the list names the wrong supplement when an earlier supplement has nothing for the geometry (also line 644) |
| GeoBuffers.FindSupplementGeo | RenderCore/Assets/ModelRunTime.cpp:416-427 | the scan over supplements and their geometries gives SupplementStreams |
| ImmediateRendering.StoredDraws | RenderCore/Assets/ModelRunTime.cpp:1069-1109 | one draw per stored draw call, each with that call's own index range |
| ImmediateRendering.MeshVariations | RenderCore/Assets/ModelRunTime.cpp:723-735 | one variation key per draw call |
| ImmediateRendering.VariationsAppend | RenderCore/Assets/ModelRunTime.cpp:1050-1092 | the lookups of two traces in sequence are those of the first followed by those of the second |
| ImmediateRendering.NoDraws | RenderCore/Assets/ModelRunTime.cpp:737-768 | a trace without draw events draws nothing |
| ImmediateRendering.NoVariations | RenderCore/Assets/ModelRunTime.cpp:737-768 | a trace without lookups looks nothing up |
| ImmediateRendering.GeoStepEvents | RenderCore/Assets/ModelRunTime.cpp:737-768 | beginning a geo call draws nothing, looks up no variation, and binds the mesh's streams exactly when the geo call changes (also lines 771-819) |
| ImmediateRendering.CallStepEvents | RenderCore/Assets/ModelRunTime.cpp:1050-1110 | the rest of a draw call draws it once with its index range, looks up one variation with the current interface, and binds no streams |
| ImmediateRendering.StepEvents | RenderCore/Assets/ModelRunTime.cpp:1044-1110 | one draw call draws itself once, looks up one variation with the interface current after its geo step, and binds streams only on a geo call change |
| ImmediateRendering.StepState | RenderCore/Assets/ModelRunTime.cpp:1044-1089 | after a draw call its geo call is current, with the interface its geo call bound, or the one already current when the geo call did not change |
| ImmediateRendering.SameGeoCallSameInterface | RenderCore/Assets/ModelRunTime.cpp:1044-1089 | neighbouring draw calls of one list on the same geo call bind the same interface |
| ImmediateRendering.StateUpToMeaning | RenderCore/Assets/ModelRunTime.cpp:1017-1089 | after the first n draw calls the current geo call is that of the draw call before n in its own list (none at the start of the skinned loop), with that draw call's interface |
| ImmediateRendering.GeoStepInterface | RenderCore/Assets/ModelRunTime.cpp:1044-1089 | whether or not its geo call is begun again, each draw call is looked up with the interface bound for its own mesh |
| ImmediateRendering.RenderStart | RenderCore/Assets/ModelRunTime.cpp:1025-1029 | before the loops, Render draws, binds and looks up nothing |
| ImmediateRendering.StepDraw | RenderCore/Assets/ModelRunTime.cpp:1075-1109 | each draw call draws itself only |
| ImmediateRendering.DrawsStep | RenderCore/Assets/ModelRunTime.cpp:1040-1110 | the draws of the first n calls are those of the first n-1 followed by call n-1's draw |
| ImmediateRendering.RenderDrawsEveryCall | RenderCore/Assets/ModelRunTime.cpp:1040-1110 | Render draws every stored draw call once, unskinned ones first, each in stored order with its own index range |
| ImmediateRendering.StepBinds | RenderCore/Assets/ModelRunTime.cpp:1044-1089 | a draw call binds its mesh's streams only when its geo call differs from the previous one in its list |
| ImmediateRendering.BindsStep | RenderCore/Assets/ModelRunTime.cpp:1040-1110 | the binds of the first n calls are those of the first n-1 followed by call n-1's |
| ImmediateRendering.RenderBindsOnGeoCallChange | RenderCore/Assets/ModelRunTime.cpp:1044-1089 | Render binds a mesh's streams exactly where a draw call's geo call differs from the one before it in its list, and at the start of each list |
| ImmediateRendering.StepVariation | RenderCore/Assets/ModelRunTime.cpp:1050-1092 | each draw call looks up its own mesh's variation only |
| ImmediateRendering.VariationsStep | RenderCore/Assets/ModelRunTime.cpp:1040-1110 | the lookups of the first n calls are those of the first n-1 followed by call n-1's |
| ImmediateRendering.RenderVariationsUseMeshInterface | RenderCore/Assets/ModelRunTime.cpp:723-735 | every lookup uses the draw call's shader, box and material handles with the interface bound for its own mesh (also lines 1050, 1092) |
| ImmediateRendering.SkinCallTransformMismatch | RenderCore/Assets/ModelRunTime.cpp:782-787 | with a good lookup and no prepared animation, the transform BeginSkinCall writes (the model's) is not the mesh placement it computes |
| ImmediateRendering.RenderTrace | RenderCore/Assets/ModelRunTime.cpp:1017-1110 | the events of a whole Render pass draw every stored draw call once, in order |
| ImmediateRendering.GeoCallTransform | RenderCore/Assets/ModelRunTime.cpp:747-752 | beginning a geo call writes at most one local transform, and none for a skinned call with a prepared animation |
| ImmediateRendering.BindsInduct | RenderCore/Assets/ModelRunTime.cpp:1044-1089 | if the first n-1 draw calls bind streams exactly on geo-call changes, so do the first n |
| LightingTargets.ReservedIndexCount | SceneEngine/LightingTargets.cpp:202-205 | the table reserves 0x1F + 1 = 32 slots |
| LightingTargets.AsIndex | SceneEngine/LightingTargets.cpp:207-224 | the masks keep every index below ReservedIndexCount, whatever the field values |
| LightingTargets.AsIndexUnique | SceneEngine/LightingTargets.cpp:213-223 | two configurations share a slot exactly when their normalised fields (projection&1, adjusted shadows&3, diffuse&1, adjusted resolve&1) agree |
| LightingTargets.PointOrthSharesPerspectiveSlot | SceneEngine/LightingTargets.cpp:213 | a point light with orthogonal shadows gets the slot of one with perspective shadows |
| LightingTargets.UnshadowedIgnoresResolveModel | SceneEngine/LightingTargets.cpp:215-216 | without shadows the shadow resolve model does not change the slot |
| LightingTargets.NatToString | SceneEngine/LightingTargets.cpp:231-237 | the decimal text of a value is never empty |
| LightingTargets.NatToStringInjective | SceneEngine/LightingTargets.cpp:231-237 | different values print differently |
| LightingTargets.ShaderDefinesAsWritten | SceneEngine/LightingTargets.cpp:232 | as written, MSAA_SAMPLES receives the streamed comparison `count <= 1` (1 or 0), not the sample count; the other defines are as intended |
| LightingTargets.ShaderDefines | SceneEngine/LightingTargets.cpp:230-237 | MSAA_SAMPLES is 0 without multisampling and the count otherwise; SHADOW_CASCADE_MODE is 2 exactly for Orth and OrthHybrid shadows and 1 otherwise; SHADOW_RT_HYBRID is 1 exactly for OrthHybrid |
| LightingTargets.MsaaSamplesAsWrittenLosesCount | SceneEngine/LightingTargets.cpp:232 | as written a 4-sample target gets MSAA_SAMPLES=0 and a single-sample target 1, the reverse of what is meant |
| LightingTargets.MsaaSamplesIdentifiesCount | SceneEngine/LightingTargets.cpp:232 | with the corrected defines, the defines text tells multisampled sample counts apart |
| LightingTargets.VertexShaderFor | SceneEngine/LightingTargets.cpp:239-243 | the flipped frustum-vector vertex shader is used exactly when the target flips |
| LightingTargets.PixelShaderFor | SceneEngine/LightingTargets.cpp:248-278 | a point-light pixel shader exactly for point lights, and the unshadowed variant exactly without shadows |
| LightingTargets.BuiltConfigurationSlot | SceneEngine/LightingTargets.cpp:310-329 | each configuration the constructor builds lands in its listed slot |
| LightingTargets.BuiltSlotsDistinct | SceneEngine/LightingTargets.cpp:245-246 | the 20 built configurations land in 20 distinct slots below 32, so the assert that a slot is still empty holds (also lines 310-329) |
| LightingTargets.EmptyTable | SceneEngine/LightingTargets.cpp:307 | the resized table has 32 empty slots |
| LightingTargets.TableAfter | SceneEngine/LightingTargets.cpp:307-329 | the table after any number of builds keeps its 32 slots |
| LightingTargets.TableAfterBuilt | SceneEngine/LightingTargets.cpp:310-329 | after n builds each configuration built so far has its program in its slot |
| LightingTargets.TableAfterUnbuilt | SceneEngine/LightingTargets.cpp:307-329 | after n builds a slot none of them maps to is still empty |
| LightingTargets.BuiltEntryFor | SceneEngine/LightingTargets.cpp:310-329 | every configuration with in-range fields is served by a built entry with the same slot |
| LightingTargets.ConstructedTableCoverage | SceneEngine/LightingTargets.cpp:295-329 | after construction, a point or directional configuration with in-range fields finds a built program exactly when it is not a point light with hybrid orthogonal shadows; no built configuration shares that slot, so it stays empty |
| LightingTargets.LightingResolveShaders.GetShader | SceneEngine/LightingTargets.cpp:295-300 | a slot is returned iff the index is below the table size, and it is the slot at that index |
| LightingTargets.LightingResolveShaders.BuildShader | SceneEngine/LightingTargets.cpp:226-293 | the configuration's slot, which must be empty, receives the program of the desc and configuration; no other slot changes |
| LightingTargets.LightingResolveShaders.constructor | SceneEngine/LightingTargets.cpp:303-329 | the table is the 32 slots after the 20 builds, and GetShader never returns null afterwards |
| LightingTargets.ProgramFor | SceneEngine/LightingTargets.cpp:239-278 | the program built for a configuration uses an unshadowed pixel shader exactly when the light casts no shadows |
| ModelConstruction.LowerBound | RenderCore/Assets/ModelRunTime.cpp:241-242 | the position returned splits a sorted sequence into the values below x and those not below it |
| ModelConstruction.InsertSorted | RenderCore/Assets/ModelRunTime.cpp:241-291 | inserting at the lower bound unless already present keeps the sequence strictly sorted and adds exactly x |
| ModelConstruction.InsertOrCombine | RenderCore/Assets/ModelRunTime.cpp:56-67 | the scan returns the table and index Interned defines: the first byte-identical buffer, or the buffer appended at the end |
| ModelConstruction.InsertOrCombineDeduplicates | RenderCore/Assets/ModelRunTime.cpp:56-67 | the returned index holds the buffer and no earlier one equals it; the list keeps its old buffers, grows by at most one, grows exactly when the buffer was absent, and never gains a duplicate |
| ModelConstruction.ScaffoldMaterialIndexIsListed | RenderCore/Assets/ModelRunTime.cpp:105-121 | a draw call's material guid is always the all-ones sentinel or one of its geo call's own guids; it is the sentinel exactly when the sub-material index is out of range or the listed guid is itself all ones |
| ModelConstruction.CallMaterials | RenderCore/Assets/ModelRunTime.cpp:237-247 | a geo call at the level of detail contributes the guid of each of its draw calls in order, and other geo calls nothing |
| ModelConstruction.DrawCallMaterials | RenderCore/Assets/ModelRunTime.cpp:240-241 | the guids of the first m draw calls, one per draw call, in order |
| ModelConstruction.LodMaterialsContainDrawCall | RenderCore/Assets/ModelRunTime.cpp:235-247 | every draw call of a geo call at the level of detail contributes its guid, the sentinel included |
| ModelConstruction.LodMaterialsComeFromDrawCalls | RenderCore/Assets/ModelRunTime.cpp:235-247 | every guid collected is that of some draw call of a geo call at the level of detail |
| ModelConstruction.CollectMaterialGuids | RenderCore/Assets/ModelRunTime.cpp:235-247 | the first loop yields a strictly sorted list holding exactly the guids of the draw calls at the level of detail |
| ModelConstruction.InsertCallMaterials | RenderCore/Assets/ModelRunTime.cpp:240-246 | the inner loop adds exactly the guids of one geo call's draw calls and keeps the list strictly sorted |
| ModelConstruction.Guids | RenderCore/Assets/ModelRunTime.cpp:233 | the guid column of the material table, one per entry |
| ModelConstruction.DelayStepOf | RenderCore/Assets/ModelRunTime.cpp:316-317 | a material renders in the opaque pass exactly when its forward blend op is NoBlending |
| ModelConstruction.MaterialParamBoxMeaning | RenderCore/Assets/ModelRunTime.cpp:270-313 | the box sets RES_HAS_<name> to 1 for each binding with a non-empty type, has the DXT flag exactly when a normal map is bound or the material has it, sets it to 1 or 0 by the normal map's DXT answer when one is bound, and otherwise holds the material's own parameters |
| ModelConstruction.ResHasParamsMeaning | RenderCore/Assets/ModelRunTime.cpp:280-286 | every binding with a non-empty type sets its RES_HAS_ flag to 1, and every key set is the RES_HAS_ flag of such a binding |
| ModelConstruction.BindPointsUpToMeaning | RenderCore/Assets/ModelRunTime.cpp:280-292 | a hash is a bind point of the first n materials exactly when one of them exists and binds it with a non-empty type |
| ModelConstruction.AddBindPoints | RenderCore/Assets/ModelRunTime.cpp:280-292 | the bind-point loop over one material adds exactly its hashes and keeps the list strictly sorted |
| ModelConstruction.AssignShaderNames | RenderCore/Assets/ModelRunTime.cpp:250-255 | every material gets the handle of the default shader "illum" and its own position as texture set |
| ModelConstruction.BuildMaterialConstants | RenderCore/Assets/ModelRunTime.cpp:257-266 | each entry's constant buffer holds its material's constants, or a zeroed buffer of the layout size when the material is missing; buffers are shared through InsertOrCombine, so the list gains no duplicate |
| ModelConstruction.ConfigureMaterials | RenderCore/Assets/ModelRunTime.cpp:268-320 | every entry gets its material's parameter box, render states and pass, and the bind points become the sorted union of the old ones and every material's |
| ModelConstruction.ConfigureMaterial | RenderCore/Assets/ModelRunTime.cpp:270-320 | one entry: the interned parameter box and render states of its material (the defaults for a missing one) and the pass they call for |
| ModelConstruction.BindPointsStep | RenderCore/Assets/ModelRunTime.cpp:280-292 | adding material i's bind points to those of the materials before it gives those of the first i+1 |
| ModelConstruction.ConfiguredAsStep | RenderCore/Assets/ModelRunTime.cpp:268-320 | entries configured earlier stay configured as the shared state set grows |
| ModelConstruction.BuildMaterialResources | RenderCore/Assets/ModelRunTime.cpp:220-323 | the table is strictly sorted by guid and has one entry per distinct guid of the draw calls at the level of detail; each entry has the default shader, its own position as texture set, its constants, its box, states and pass; the bind points stay strictly sorted and gain those of every material |
| ModelConstruction.SlotInRange | RenderCore/Assets/ModelRunTime.cpp:360 | the slot of a bind point in a texture set lies inside the table of count × bind points |
| ModelConstruction.SlotUnique | RenderCore/Assets/ModelRunTime.cpp:360 | distinct (texture set, bind point) pairs have distinct slots |
| ModelConstruction.BuildBoundTextures | RenderCore/Assets/ModelRunTime.cpp:325-380 | count × bind-point slots, each holding what BoundAfter says once every material has been processed |
| ModelConstruction.ProcessBindings | RenderCore/Assets/ModelRunTime.cpp:343-377 | the loop over one material's bindings leaves each slot as SlotAfterBindings says |
| ModelConstruction.OtherSetKeepsSlot | RenderCore/Assets/ModelRunTime.cpp:360 | a material in another texture set never writes the slot |
| ModelConstruction.OwnSetSlot | RenderCore/Assets/ModelRunTime.cpp:343-377 | within its own set, a material leaves in the slot of a bind point the texture of its last binding of it whose resource loads, or what was there |
| ModelConstruction.SlotEmptyBefore | RenderCore/Assets/ModelRunTime.cpp:333-334 | before material i is reached its slots are empty |
| ModelConstruction.KnownBindPoints | RenderCore/Assets/ModelRunTime.cpp:352-354 | every bind point a material binds is in the bind-point list, as the assert requires |
| ModelConstruction.SlotKeptAfter | RenderCore/Assets/ModelRunTime.cpp:336-378 | after material i, no later material touches its slots |
| ModelConstruction.BoundTextureMeaning | RenderCore/Assets/ModelRunTime.cpp:325-380 | with texture sets at their materials' positions, each slot holds the texture of that material's last loading binding of that bind point, and nothing for a missing material or an unbound bind point |
| ModelConstruction.LodMaterialSource | RenderCore/Assets/ModelRunTime.cpp:235-247 | for a guid listed at a level of detail, names the geo call and draw call (below the bound) whose material it is |
| ModelRenderers.GlobalIndex | RenderCore/Assets/ModelRunTime.cpp:586-608 | skin call gi is found by GetGeoCall at the unskinned count plus gi, and unskinned call gi at gi |
| ModelRenderers.DrawCallGuidIsScaffoldMaterialIndex | RenderCore/Assets/ModelRunTime.cpp:105-117 | a draw call's material guid is the one ScaffoldMaterialIndex returns for its geo call's global index and its draw-call index (also lines 550, 608) |
| ModelRenderers.StoredOfMeaning | RenderCore/Assets/ModelRunTime.cpp:546-568 | a draw call is stored under geo call gi exactly when it belongs to that call's geometry, has indices and its material is in the table |
| ModelRenderers.AtLeastOneValidDrawCall | RenderCore/Assets/ModelRunTime.cpp:123-140 | true exactly when some draw call of the geometry has indices and a material the table holds |
| ModelRenderers.NoValidDrawCallStoresNothing | RenderCore/Assets/ModelRunTime.cpp:529-586 | skipping a geometry with no valid draw call loses no stored draw call |
| ModelRenderers.FindMaterial | RenderCore/Assets/ModelRunTime.cpp:551-612 | the lower-bound lookup finds a guid exactly when the table holds it, at the index of that guid |
| ModelRenderers.EveryLodDrawCallHasMaterial | RenderCore/Assets/ModelRunTime.cpp:235-247 | with the table built from the level of detail's guids, every draw call of that level has its material, so it is stored exactly when it has indices (also lines 550-554) |
| ModelRenderers.ValidDrawCallMeansIndices | RenderCore/Assets/ModelRunTime.cpp:123-140 | with such a table, a geometry has a valid draw call exactly when some draw call has indices (also lines 235-247) |
| ModelRenderers.EmitDrawCalls | RenderCore/Assets/ModelRunTime.cpp:546-623 | the emitted draw calls are the stored ones in draw-call order, each paired with its material's shader, parameters, textures, constants, states, pass and guid |
| ModelRenderers.ResourcesMeaning | RenderCore/Assets/ModelRunTime.cpp:562-619 | a stored draw call's resources name the default shader, its material's parameter box, constant bytes, render states and pass, its texture set, and the mesh's geometry parameter box |
| ModelRenderers.FindMesh | RenderCore/Assets/ModelRunTime.cpp:532-589 | the search finds a mesh exactly when one has the geometry id, at the first such position |
| ModelRenderers.MeshWantedStep | RenderCore/Assets/ModelRunTime.cpp:521-543 | a geometry is wanted by the first gi+1 calls exactly when it was wanted by the first gi or call gi wants it |
| ModelRenderers.MeshSetSkip | RenderCore/Assets/ModelRunTime.cpp:523-529 | a call at another level of detail or without a valid draw call leaves the set of meshes unchanged and still exactly the wanted ones |
| ModelRenderers.MeshSetUse | RenderCore/Assets/ModelRunTime.cpp:532-543 | a call that wants its geometry adds that geometry's mesh only when missing, keeping one mesh per wanted geometry |
| ModelRenderers.EmittedAppend | RenderCore/Assets/ModelRunTime.cpp:567-568 | appending a call's stored draw calls and their resources keeps the two lists in step |
| ModelRenderers.StoredDrawCallsStep | RenderCore/Assets/ModelRunTime.cpp:521-570 | the stored draw calls of the first gi+1 calls are those of the first gi followed by call gi's when it is at the level of detail |
| ModelRenderers.BuildUnskinned | RenderCore/Assets/ModelRunTime.cpp:515-570 | after the loop the draw calls are exactly the stored ones of all unskinned calls at the level of detail, each with its resources, and there is one mesh, built from its geometry and supplements, per wanted geometry |
| ModelRenderers.AddUnskinnedCall | RenderCore/Assets/ModelRunTime.cpp:522-569 | one iteration appends call gi's stored draw calls when it is at the level of detail and keeps the mesh set exact |
| ModelRenderers.UnskinnedMeshFor | RenderCore/Assets/ModelRunTime.cpp:532-543 | the mesh returned has the geometry's id; the list is unchanged when it already held one and otherwise gains a mesh built from the geometry and its supplements |
| ModelRenderers.BuildSkinned | RenderCore/Assets/ModelRunTime.cpp:574-624 | the same for the skin calls, with their materials looked up after the unskinned calls and their supplements under the geometry count plus the id |
| ModelRenderers.AddSkinnedCall | RenderCore/Assets/ModelRunTime.cpp:579-623 | one iteration of the skinned loop, as for the unskinned one |
| ModelRenderers.SkinnedMeshFor | RenderCore/Assets/ModelRunTime.cpp:589-602 | the skinned mesh returned has the geometry's id; the list gains one only when it had none |
| ModelRenderers.NewSkinnedMesh | RenderCore/Assets/ModelRunTime.cpp:591-595 | the new skinned mesh has the geometry's id and is built from the supplements held under the geometry count plus that id |
| ScaffoldChunks.FirstChunkOfType | RenderCore/Assets/ModelRunTime.cpp:1741-1742 | the position found holds a chunk of the type and no earlier chunk has it; none is found exactly when no chunk has the type |
| ScaffoldChunks.ReadBlock | RenderCore/Assets/ModelRunTime.cpp:1760-1762 | the buffer has the chunk's size and holds the file's bytes from the chunk's offset, zero where the file ends early |
| ScaffoldChunks.ServeRequestMeaning | RenderCore/Assets/ModelRunTime.cpp:1740-1769 | a request is served exactly when the first chunk of its type has the expected version, fails as a missing chunk exactly when no chunk has its type, and yields that chunk's offset and size with a buffer unless it is DontLoad |
| ScaffoldChunks.FindChunk | RenderCore/Assets/ModelRunTime.cpp:1741-1742 | the scan returns the first chunk of the type |
| ScaffoldChunks.FirstChunkIsUnique | RenderCore/Assets/ModelRunTime.cpp:1741-1742 | a chunk of the type with none before it is the one the lookup finds |
| ScaffoldChunks.LoadRawData | RenderCore/Assets/ModelRunTime.cpp:1729-1773 | succeeds exactly when every request can be served, with one result per request in order; otherwise reports the error of the first request that cannot be served |
| ModelScaffolds.ModelScaffoldChunkRequests | RenderCore/Assets/ModelRunTime.cpp:1901-1905 | two requests of version 0: the block-serialized scaffold, then the large blocks, not loaded |
| ModelScaffolds.LoadChunks | RenderCore/Assets/ModelRunTime.cpp:1733 | a file missing from the file system is the open's failure; a successful load has one chunk per request (also lines 1783, 1873) |
| ModelScaffolds.Resolver | RenderCore/Assets/ModelRunTime.cpp:1936-1943 | the scaffold takes the first chunk's buffer and the second chunk's offset and keeps its name and marker |
| ModelScaffolds.ResolveReportsMarkerState | RenderCore/Assets/ModelRunTime.cpp:1822-1865 | without a marker, resolving reports ready and changes nothing; a pending or invalid marker is reported by TryResolve and thrown by Resolve, and the state is kept |
| ModelScaffolds.ReadyMarkerCompletes | RenderCore/Assets/ModelRunTime.cpp:1841-1875 | a ready marker whose file serves both requests completes the scaffold: marker dropped, name and chunks from the marker's file, Resolve agreeing, and a second TryResolve a no-op |
| ModelScaffolds.FirstFailureIsFirst | RenderCore/Assets/ModelRunTime.cpp:1740-1753 | the error reported is that of the first request, in request order, that cannot be served |
| ModelScaffolds.FirstFailureUnique | RenderCore/Assets/ModelRunTime.cpp:1740-1753 | only one error is the first request's failure |
| ModelScaffolds.LoadFromFile | RenderCore/Assets/ModelRunTime.cpp:1729-1773 | opening the file and running LoadRawData gives LoadChunks's result |
| ModelScaffolds.ModelScaffold.FromMarker | RenderCore/Assets/ModelRunTime.cpp:1796-1799 | a scaffold built from a marker that is not ready keeps the marker and has no data (also lines 1914-1919) |
| ModelScaffolds.ModelScaffold.FromChunks | RenderCore/Assets/ModelRunTime.cpp:1907-1912 | a scaffold whose chunks are loaded holds what Resolver takes from them |
| ModelScaffolds.ModelScaffold.Complete | RenderCore/Assets/ModelRunTime.cpp:1837-1875 | the new state is CompleteFromMarker's: the scaffold takes the marker's name first, then either the marker's chunks with the marker dropped, or the load's error with the marker and data kept |
| ModelScaffolds.ModelScaffold.TryResolve | RenderCore/Assets/ModelRunTime.cpp:1841-1852 | the reported state and new state are TryResolveStep's: Ready exactly when no marker is left, and on a failed load the marker's name with the marker kept |
| ModelScaffolds.ModelScaffold.StallAndResolve | RenderCore/Assets/ModelRunTime.cpp:1854-1865 | the same as TryResolve, with the state the marker reports after stalling |
| ModelScaffolds.ModelScaffold.Resolve | RenderCore/Assets/ModelRunTime.cpp:1822-1839 | throws InvalidAsset or PendingAsset on such a marker and otherwise completes, as ResolveStep defines; a failed load throws after the name is taken from the marker |
| ModelScaffolds.CompleteFromMarker | RenderCore/Assets/ModelRunTime.cpp:1867-1875 | the name becomes the marker's source id whatever the load does; the load succeeds iff LoadChunks does, and then the marker is gone; a failed load reports LoadChunks's error and keeps the marker and data |
| ModelScaffolds.TryResolveStep | RenderCore/Assets/ModelRunTime.cpp:1841-1865 | Ready is reported exactly when no marker is left; a marker that is left is the old one; an error leaves the old state with the marker's name |
| ModelScaffolds.ResolveStep | RenderCore/Assets/ModelRunTime.cpp:1822-1839 | returns normally exactly when no marker is left; a marker that is left is the old one |
| ModelScaffolds.FailedLoadTakesMarkerName | RenderCore/Assets/ModelRunTime.cpp:1867-1873 | a ready marker whose file is missing: every resolve fails with FileMissing, keeps the marker and leaves the marker's source id as the name |
| ModelScaffolds.OpenModelScaffold | RenderCore/Assets/ModelRunTime.cpp:1775-1784 | succeeds exactly when the file's chunks load, with no marker, the file's name and the resolved chunks; otherwise fails with the load's error (also lines 1907-1912) |
| ModelScaffolds.OpenModelScaffoldFromMarker | RenderCore/Assets/ModelRunTime.cpp:1786-1800 | a marker that is not ready is kept for later; a ready one is loaded at once under its file name (also lines 1914-1919) |
| ModelPreparation.SubMeshAt | RenderCore/Assets/ModelRunTime.cpp:1164-1208 | the sub-mesh of draw call k is in the skinned list exactly when k is past the unskinned draw calls, and indexes a mesh of that list |
| ModelPreparation.PreparedEntries | RenderCore/Assets/ModelRunTime.cpp:1153-1232 | Prepare files one entry per stored draw call, entry k being draw call k's with the transform index Prepare gives it |
| ModelPreparation.EntriesUpToAt | RenderCore/Assets/ModelRunTime.cpp:1154-1195 | entry k among the first n is the one filed for draw call k |
| ModelPreparation.MeshTransformsUpToAt | RenderCore/Assets/ModelRunTime.cpp:1174-1220 | transform k among the first n is draw call k's mesh-to-model transform combined with the model-to-world one |
| ModelPreparation.PreparedTransforms | RenderCore/Assets/ModelRunTime.cpp:1144-1223 | a good lookup pushes one transform per draw call; otherwise only the model-to-world transform is pushed |
| ModelPreparation.AsPrepared | RenderCore/Assets/ModelRunTime.cpp:1183-1224 | the renderer an entry names exposes its draw-call resources and its meshes' technique interfaces, unskinned and skinned |
| ModelPreparation.OfStepMeaning | RenderCore/Assets/ModelRunTime.cpp:1169-1231 | an entry is filed under a delay step exactly when it is one of the entries and its draw call's resources name that step |
| ModelPreparation.OfStepPartition | RenderCore/Assets/ModelRunTime.cpp:1169-1231 | every entry lands in exactly one of the two delay steps |
| ModelPreparation.OfStepAppend | RenderCore/Assets/ModelRunTime.cpp:1190-1231 | filing one more entry adds it to its own step's list only |
| ModelPreparation.EntryAtMeaning | RenderCore/Assets/ModelRunTime.cpp:1171-1231 | the entry names draw call k and this renderer; its sub-mesh is the first mesh with the geo call's geometry; its hash is that of the interface the sub-mesh's list binds; its topology gives the draw call's back and is tagged exactly for skinned calls; its index counts are the draw call's |
| ModelPreparation.EntryTransformMeaning | RenderCore/Assets/ModelRunTime.cpp:1144-1182 | the entry's transform index points, among the transforms the set then holds, at the mesh's placement in the world, or at the model-to-world transform when the lookup is not good |
| ModelPreparation.PreparedEntryMeaning | RenderCore/Assets/ModelRunTime.cpp:1171-1190 | entry k of those Prepare files is draw call k's, and its transform index is in range and holds that transform |
| ModelPreparation.PreparedEntriesResolvable | RenderCore/Assets/ModelRunTime.cpp:1167-1208 | every entry Prepare files can be drawn later: its renderer, draw call, sub-mesh and transform all exist |
| ModelPreparation.EmittedPreparable | RenderCore/Assets/ModelRunTime.cpp:1167 | after construction every stored draw call has resources and a mesh for its geometry, as Prepare's asserts demand (also lines 1208, 535-542, 592-601) |
| ModelPreparation.FiledNext | RenderCore/Assets/ModelRunTime.cpp:1154-1191 | filing draw call n after the first n gives the set after the first n+1 |
| ModelPreparation.FiledAll | RenderCore/Assets/ModelRunTime.cpp:1138-1233 | after every draw call is filed, the set's transforms and both step lists are the old ones followed by Prepare's |
| ModelPreparation.EntryAt | RenderCore/Assets/ModelRunTime.cpp:1171-1208 | the entry filed for draw call k records k and is skinned exactly when k is past the unskinned calls |
| Renderer.MaterialBindings | RenderCore/Assets/ModelRunTime.cpp:1543-1551 | one guid per draw-call resource record, in order, each that record's material binding |
| Renderer.EntryMeaningGrows | RenderCore/Assets/ModelRunTime.cpp:535-595 | building meshes only appends parameter boxes, so the material entries keep their meaning |
| Renderer.BindPointsCovered | RenderCore/Assets/ModelRunTime.cpp:282-292 | every hash a material binds is one of the renderer's texture bind points (also lines 650-654) |
| Renderer.TextureSetsInRange | RenderCore/Assets/ModelRunTime.cpp:650-654 | every material's texture set is below the number of sets the bound-texture table holds |
| Renderer.BuildDrawCalls | RenderCore/Assets/ModelRunTime.cpp:515-624 | the unskinned loop then the skinned loop: their draw calls are the stored ones, their resources follow in the same order, and their meshes are exactly the wanted geometries' |
| Renderer.ModelRenderer.constructor | RenderCore/Assets/ModelRunTime.cpp:463-700 | the material table holds exactly the level of detail's guids with entries that mean their material's resources; the draw calls, meshes and resources are those of BuildDrawCalls; each material's slots bind the texture its material names for that bind point; the result can be prepared |
| Renderer.ModelRenderer.Prepare | RenderCore/Assets/ModelRunTime.cpp:1138-1233 | the set gains the transforms and, under each delay step, the entries of that step that PreparedEntries defines |
| Renderer.ModelRenderer.FileEntries | RenderCore/Assets/ModelRunTime.cpp:1153-1232 | the two loops file every draw call, unskinned then skinned |
| Renderer.ModelRenderer.FileNext | RenderCore/Assets/ModelRunTime.cpp:1154-1191 | one iteration files draw call k after the first k |
| Renderer.ModelRenderer.FileEntry | RenderCore/Assets/ModelRunTime.cpp:1171-1231 | the draw call's transform is pushed when the lookup is good, and its entry is appended to its own step's list only |
| Renderer.ModelRenderer.EntryFor | RenderCore/Assets/ModelRunTime.cpp:1155-1230 | the entry built is EntryAt's and the step is the draw call's delay step |
| Renderer.ModelRenderer.Render | RenderCore/Assets/ModelRunTime.cpp:1006-1114 | the events are the trace RenderTrace defines for the renderer's draw calls |
| Renderer.ModelRenderer.RenderUnskinned | RenderCore/Assets/ModelRunTime.cpp:1023-1079 | the model transform when the lookup is not good, then every unskinned draw call in order |
| Renderer.ModelRenderer.RenderSkinned | RenderCore/Assets/ModelRunTime.cpp:1084-1114 | every skinned draw call in order, numbered on from the unskinned ones, starting with no current geo call |
| Renderer.ModelRenderer.RenderUnskinnedNext | RenderCore/Assets/ModelRunTime.cpp:1044-1079 | one iteration of the unskinned loop |
| Renderer.ModelRenderer.RenderSkinnedNext | RenderCore/Assets/ModelRunTime.cpp:1085-1114 | one iteration of the skinned loop |
| Renderer.ModelRenderer.RenderUnskinnedCall | RenderCore/Assets/ModelRunTime.cpp:1046-1078 | a new geo call begins only when it differs from the current one, then the draw call is drawn |
| Renderer.ModelRenderer.RenderSkinnedCall | RenderCore/Assets/ModelRunTime.cpp:1088-1113 | the same with BeginSkinCall |
| Renderer.ModelRenderer.BeginGeoCall | RenderCore/Assets/ModelRunTime.cpp:737-768 | writes the mesh's placement when the lookup is good, binds the streams of the first mesh with the geometry and returns its technique interface |
| Renderer.ModelRenderer.BeginSkinCall | RenderCore/Assets/ModelRunTime.cpp:771-819 | writes the placement only without a prepared animation, binds the skinned mesh's streams and returns its skinned interface, or the animation's binding |
| Renderer.ModelRenderer.DrawStoredCall | RenderCore/Assets/ModelRunTime.cpp:1052-1113 | render states and variation, uniforms applied only when they, the texture set or the constant buffer changed, the topology, the stencil reference 1+k and index in the unskinned loop only, and the draw |
| Renderer.ModelRenderer.DrawCallToMaterialBinding | RenderCore/Assets/ModelRunTime.cpp:1543-1551 | the material guid of every draw call, in draw-call order |
| Renderer.ModelRenderer.GetMaterialBindingForDrawCall | RenderCore/Assets/ModelRunTime.cpp:1553-1558 | the guid at that index of the binding list, or ~0 past its end |
| Renderer.ModelRenderer.GetState | RenderCore/Assets/ModelRunTime.cpp:1560-1575 | Invalid when a bound texture is invalid, otherwise Pending when one is pending, otherwise Ready |
| Renderer.ModelRenderer.TryResolve | RenderCore/Assets/ModelRunTime.cpp:1577-1587 | the same combination of the textures' TryResolve answers |
| Renderer.CombinedStateAppend | RenderCore/Assets/ModelRunTime.cpp:1567-1574 | the state of two runs of slots is the worse of their states, so the early return on Invalid loses nothing |
| Renderer.FoldTextureStates | RenderCore/Assets/ModelRunTime.cpp:1567-1586 | the loop returns CombinedState: an invalid texture ends it, a pending one is remembered, empty slots are skipped |
| Renderer.SlotStates | RenderCore/Assets/ModelRunTime.cpp:1568-1573 | a state is seen in the first i+1 slots exactly when seen in the first i or in slot i |
| MeshToModels.Empty | RenderCore/Assets/ModelRunTime.cpp:1497-1502 | the default lookup has no skeleton output, so it is not good |
| MeshToModels.FromScaffoldDefaults | RenderCore/Assets/ModelRunTime.cpp:1513-1524 | the lookup built from a scaffold never has a binding, and is good exactly when the scaffold has default transforms, which it then uses |
| MeshToModels.GetMeshToModelMeaning | RenderCore/Assets/ModelRunTime.cpp:1472-1495 | the transform is the skeleton output at the marker, or at the binding's output for it, when that exists and is in range; otherwise the identity |
| MeshToModels.IdentityBindingIsNoBinding | RenderCore/Assets/ModelRunTime.cpp:1477-1494 | a binding mapping every joint to itself gives the transforms of no binding |
| MeshToModels.NoOutputGivesIdentity | RenderCore/Assets/ModelRunTime.cpp:1483-1502 | without skeleton output every marker maps to the identity |
| MeshToModels.GetMeshToModel | RenderCore/Assets/ModelRunTime.cpp:1472-1495 | the transform of a marker is the identity or one of the skeleton's output matrices |
| SharedStates.IndexOfIsFirst | RenderCore/Assets/SharedStateSet.h:57-63 | no position before a value's handle holds that value |
| SharedStates.InternedFacts | RenderCore/Assets/SharedStateSet.h:57-63 | interning keeps a table that already holds the value and otherwise appends it; the handle holds the value at its first position, earlier entries stay in place, and no duplicate appears |
| SharedStates.SharedStateSet.constructor | RenderCore/Assets/SharedStateSet.h:54-63 | every table starts empty |
| SharedStates.SharedStateSet.InsertShaderName | RenderCore/Assets/SharedStateSet.h:61 | the shader-name table is interned with the name and the handle returned names it; the other tables are unchanged |
| SharedStates.SharedStateSet.InsertParameterBox | RenderCore/Assets/SharedStateSet.h:62 | the same for the parameter-box table |
| SharedStates.SharedStateSet.InsertRenderStateSet | RenderCore/Assets/SharedStateSet.h:63 | the same for the render-state table |
| SharedStates.SharedStateSet.InsertTechniqueInterface | RenderCore/Assets/SharedStateSet.h:57-60 | the same for the technique-interface table |
| TerrainUberSurface.DecodeEncodeWord | SceneEngine/TerrainUberSurface.cpp:85 | a header word written little-endian reads back as the same value (also line 543) |
| TerrainUberSurface.DecodeEncodeHeader | SceneEngine/TerrainUberSurface.cpp:85-95 | a file that starts with a written header reads back that header (also lines 536-543) |
| TerrainUberSurface.OpenAsWritten | SceneEngine/TerrainUberSurface.cpp:85-100 | the check as written: a bad magic is rejected exactly as such, and an accepted file holds only the size product taken modulo 2^32 |
| TerrainUberSurface.Open | SceneEngine/TerrainUberSurface.cpp:85-100 | the check as intended: a file is accepted exactly when its magic matches and it holds every sample the header announces, keeping the header's size and type |
| TerrainUberSurface.OpenAsWrittenAcceptsTruncatedFile | SceneEngine/TerrainUberSurface.cpp:98 | a 65536 x 65536 surface of one-byte samples whose file holds the header alone passes the check as written and fails the intended one |
| TerrainUberSurface.SampleInside | SceneEngine/TerrainUberSurface.cpp:59-61 | a sample inside the surface lies within its own row and within the data |
| TerrainUberSurface.SamplesDisjoint | SceneEngine/TerrainUberSurface.cpp:59-61 | distinct samples occupy disjoint bytes |
| TerrainUberSurface.BuildEmptyFile | SceneEngine/TerrainUberSurface.cpp:530-551 | the file written is the header followed by height zeroed lines of width times the sample size |
| TerrainUberSurface.EmptyFileOpens | SceneEngine/TerrainUberSurface.cpp:71-103 | when a line's size fits in 32 bits, the empty file is accepted, reads back its size and type, holds exactly the announced samples, and every sample is zero (also lines 530-551) |
| TerrainUberSurface.EmptyFileHeaderReadsBack | SceneEngine/TerrainUberSurface.cpp:536-543 | the empty file's header reads back the magic, size and type it was written with |
| TerrainUberSurface.EmptyFileDataSize | SceneEngine/TerrainUberSurface.cpp:545-550 | height lines of the 32-bit line size are exactly the data size the constructor checks for (also line 98) |
| TerrainUberSurface.UberSurface.constructor | SceneEngine/TerrainUberSurface.cpp:71-103 | an accepted file gives the header's width, height and format, and its data bytes are the file after the header |
| TerrainUberSurface.UberSurface.GetData | SceneEngine/TerrainUberSurface.cpp:56-62 | a coordinate outside the surface gives nothing; one inside gives its sample's offset, whose bytes lie inside the data |
| TerrainUberSurface.UberSurface.GetStride | SceneEngine/TerrainUberSurface.cpp:64-67 | the stride is the distance between a sample and the one below it |
| TerrainUberSurface.RowInside | SceneEngine/TerrainUberSurface.cpp:326-332 | each copied row ends at its last sample inside the data, before the next surface row |
| TerrainUberSurface.RowsDisjoint | SceneEngine/TerrainUberSurface.cpp:328-332 | later copied rows start after earlier ones end |
| TerrainUberSurface.Splice | SceneEngine/TerrainUberSurface.cpp:329-332 | the copy replaces exactly the destination range with the source and keeps every other byte |
| TerrainUberSurface.CopyRowsOutside | SceneEngine/TerrainUberSurface.cpp:328-332 | bytes outside the copied rows keep their value |
| TerrainUberSurface.CopyRowsInside | SceneEngine/TerrainUberSurface.cpp:328-332 | each copied row holds the readback's row |
| TerrainUberSurface.RowByteInSample | SceneEngine/TerrainUberSurface.cpp:326-332 | every byte of a copied row belongs to a sample inside the cache rectangle |
| TerrainUberSurface.CopyRowsChangesOnlyCacheSamples | SceneEngine/TerrainUberSurface.cpp:322-332 | writing the cache back changes only bytes of samples inside the cache rectangle |
| TerrainUberSurface.CopyMemory | SceneEngine/TerrainUberSurface.cpp:329-332 | the array afterwards is the old contents with the source spliced in at the offset |
| TerrainUberSurface.IntersectsIffSharedSample | SceneEngine/TerrainUberSurface.cpp:343-344 | for well-formed rectangles, a cell passes both tests exactly when it shares a sample with the rectangle (also lines 515-516) |
| TerrainUberSurface.IntersectingCellsExactly | SceneEngine/TerrainUberSurface.cpp:342-353 | exactly the intersecting cells are selected, each once, in registration order (also lines 514-524) |
| TerrainUberSurface.SelectIntersectingCells | SceneEngine/TerrainUberSurface.cpp:342-353 | the loop over the registered cells selects IntersectingCells (also lines 514-524) |
| TerrainUberSurface.CacheWindowContainsEdit | SceneEngine/TerrainUberSurface.cpp:402-414 | for an edit inside the field, the window is a cache rectangle inside the field that contains the edit |
| TerrainUberSurface.CacheWindowCoversNeighbourhood | SceneEngine/TerrainUberSurface.cpp:403-412 | with no 32-bit wrap, the window takes in every sample of the field within 512 of the edit centre on both axes |
| TerrainUberSurface.GenericUberSurfaceInterface.constructor | SceneEngine/TerrainUberSurface.cpp:594-601 | the interface starts with no cache and no registered cell |
| TerrainUberSurface.GenericUberSurfaceInterface.FlushGPUCache | SceneEngine/TerrainUberSurface.cpp:307-358 | with a cache, the readback is copied over the cache rectangle, the cache is dropped and its corners zeroed, and the intersecting cells are rewritten when there is a terrain format; without one nothing changes |
| TerrainUberSurface.GenericUberSurfaceInterface.BuildGPUCache | SceneEngine/TerrainUberSurface.cpp:360-386 | any existing cache is written back first, then the given rectangle is cached |
| TerrainUberSurface.GenericUberSurfaceInterface.PrepareCache | SceneEngine/TerrainUberSurface.cpp:388-416 | afterwards the edit is cached; a cache already containing it is kept, otherwise the cache is written back and the window around the edit cached |
| TerrainUberSurface.GenericUberSurfaceInterface.DoShortCircuitUpdate | SceneEngine/TerrainUberSurface.cpp:498-528 | exactly the registered cells the edit touches are notified, in registration order |
| TerrainUberSurface.GenericUberSurfaceInterface.RegisterCell | SceneEngine/TerrainUberSurface.cpp:553-567 | the cell is appended to the registered cells and the cache is unchanged |
| TerrainUberSurface.CopyCacheRows | SceneEngine/TerrainUberSurface.cpp:322-332 | the copy loop leaves the data that CopyRows defines |
| TerrainUberSurface.EncodeHeader | SceneEngine/TerrainUberSurface.cpp:536-543 | the header written to a new file is always the header size, 32 bytes |
| TerrainUberSurface.DecodeHeader | SceneEngine/TerrainUberSurface.cpp:85-95 | reads the five little-endian header words; DecodeEncodeHeader states that it reads back what EncodeHeader writes |
| TerrainUberSurface.CacheWindowAxis | SceneEngine/TerrainUberSurface.cpp:403-412 | the cache window along an axis starts at or before the edit and ends inside the field |
| TerrainUberSurface.CopyRows | SceneEngine/TerrainUberSurface.cpp:328-332 | copying cache rows back keeps the file's length |
| TerrainUberSurface.IntersectingCells | SceneEngine/TerrainUberSurface.cpp:342-353 | every index selected is the index of a registered cell |
| OceanPatch.MiniGrid | SceneEngine/Ocean.cpp:126-157 | each mini-grid contributes 16 x 16 x 6 = 1536 indices |
| OceanPatch.MiniGridSlice | SceneEngine/Ocean.cpp:123-130 | mini-grid mg occupies exactly the slice starting at mg times 1536 of the index data |
| OceanPatch.CellCoversQuad | SceneEngine/Ocean.cpp:133-155 | a cell's six indices use exactly the quad's four corners; inside the grid the two triangles share exactly one diagonal, through the top-left corner on odd cells of a flipping patch and the other diagonal everywhere else |
| OceanPatch.EdgeNeighboursCollapse | SceneEngine/Ocean.cpp:133-136 | on the last column the right neighbour is the vertex itself, and on the last row the lower neighbour is |
| OceanPatch.CornersInGrid | SceneEngine/Ocean.cpp:133-136 | every corner of a cell inside the grid is a vertex of the grid |
| OceanPatch.RowCellsInGrid | SceneEngine/Ocean.cpp:132-156 | every index of a mini-grid row names a vertex of the grid |
| OceanPatch.GridRowsInGrid | SceneEngine/Ocean.cpp:131-157 | every index of a mini-grid names a vertex of the grid |
| OceanPatch.MiniGridOriginInGrid | SceneEngine/Ocean.cpp:121-128 | every mini-grid of the patch lies inside the grid |
| OceanPatch.PatchIndicesInGrid | SceneEngine/Ocean.cpp:126-158 | every generated index names a vertex of the width x height grid |
| OceanPatch.SimplePatchBox.constructor | SceneEngine/Ocean.cpp:115-165 | the index data is the mini-grids in order, its count 1536 per mini-grid, every index inside the grid |
| OceanPatch.BuildIndexData | SceneEngine/Ocean.cpp:124-158 | the fill loop leaves exactly PatchIndices for all mini-grids |
| OceanPatch.WriteMiniGrid | SceneEngine/Ocean.cpp:127-157 | one mini-grid is appended, row by row, at the writing position |
| OceanPatch.WriteRow | SceneEngine/Ocean.cpp:132-156 | one row of 16 cells is appended at the writing position |
| OceanPatch.WriteCell | SceneEngine/Ocean.cpp:142-154 | the cell's six indices are appended at the writing position |
| OceanPatch.Corners | SceneEngine/Ocean.cpp:133-136 | of the four corner vertices of a cell, the top-left is the smallest index and the bottom-right the largest |
| OceanPatch.Cell | SceneEngine/Ocean.cpp:142-154 | every cell is written as two triangles, six indices |
| OceanPatch.PatchIndices | SceneEngine/Ocean.cpp:124-158 | a patch of k mini-grids holds 1536 indices per mini-grid (16 by 16 cells, six indices each) |
| ShadowSettings.ClampFrustumCount | PlatformRig/PlatformRigUtil.cpp:104 | the count is clamped into 1..MaxShadowTexturesPerLight: kept when inside, raised to 1 below, lowered to the maximum above |
| ShadowSettings.IntegerLog2Bounds | PlatformRig/PlatformRigUtil.cpp:110 | IntegerLog2 is the index of the highest set bit: 2^l <= x < 2^(l+1) |
| ShadowSettings.CeilToPowerOfTwoIsLeast | PlatformRig/PlatformRigUtil.cpp:110 | the stored texture size is a power of two, not below the request, and the least such |
| ShadowSettings.CeilToPowerOfTwoKeepsPowers | PlatformRig/PlatformRigUtil.cpp:110 | a request that already is a power of two is kept |
| ShadowSettings.DefaultShadowFrustumSettings.constructor | PlatformRig/PlatformRigUtil.cpp:68-90 | five frustums, 2048-texel textures, high-precision depths only, the fixed distances and blur settings, and the three biases from the console |
| ShadowSettings.DefaultShadowFrustumSettings.SetFrustumCount | PlatformRig/PlatformRigUtil.cpp:103-104 | the frustum count becomes the clamped value and nothing else changes |
| ShadowSettings.DefaultShadowFrustumSettings.SetTextureSize | PlatformRig/PlatformRigUtil.cpp:109-110 | the texture size becomes the least power of two not below the request and nothing else changes |
| ShadowSettings.CascadeFormatsFollowPrecisionFlag | PlatformRig/PlatformRigUtil.cpp:363-373 | the texture is square at the configured size; the 24-bit formats are chosen exactly under HighPrecisionDepths and the three formats always come from one family |
| ShadowSettings.CascadeModeFollowsFlags | PlatformRig/PlatformRigUtil.cpp:158-159 | ArbitraryCascades gives five arbitrary projections, otherwise one orthogonal cascade per frustum; RayTraced exactly selects the ray-traced resolve (also lines 230-231, 375-389) |
| ShadowSettings.CascadeCopiesBiasAndBlur | PlatformRig/PlatformRigUtil.cpp:391-400 | the bias and blur settings and the light id pass through unchanged |
| ShadowSettings.CeilToPowerOfTwo | PlatformRig/PlatformRigUtil.cpp:110 | rounding up gives a value at least the input and below twice the input |
| ShadowSettings.CalculateDefaultShadowCascades | PlatformRig/PlatformRigUtil.cpp:348-402 | the shadow map is square, and the typeless, write and read formats are the 24-bit ones together or none of them |
| UITypesBinding.CheckStateOf | Tools/GUILayer/UITypesBinding.cpp:475-507 | a setting reads as indeterminate exactly when its flag is clear, and as checked exactly when the flag is set and the value true |
| UITypesBinding.DoubleSidedRoundTrip | Tools/GUILayer/UITypesBinding.cpp:475-497 | setting DoubleSided reads back as set, and only the DoubleSided flag and value change; Wireframe reads the same |
| UITypesBinding.WireframeRoundTrip | Tools/GUILayer/UITypesBinding.cpp:499-521 | setting Wireframe reads back as set, and only the Wireframe flag and value change; DoubleSided reads the same |
| UITypesBinding.FirstRowMatching | Tools/GUILayer/UITypesBinding.cpp:586-590 | the result is the first table row with the given operation and factors, or -1 when none has them |
| UITypesBinding.StandardBlendDefsShape | Tools/GUILayer/UITypesBinding.cpp:545-560 | the table has ten rows; exactly the first two use no blending; the other rows have distinct operation and factors; no mode appears twice, and Inherit and Complex have no row |
| UITypesBinding.BlendModeClassification | Tools/GUILayer/UITypesBinding.cpp:562-593 | Inherit exactly when neither blend flag is set; Decal exactly when the deferred decal is on and the forward blend is absent or a no-blend; Complex exactly when a forward blend matches no table row |
| UITypesBinding.AsStandardBlendMode | Tools/GUILayer/UITypesBinding.cpp:562-593 | the table scan returns the classification of the state set |
| UITypesBinding.RowFor | Tools/GUILayer/UITypesBinding.cpp:624-625 | the result is the first table row defining the mode, or -1 |
| UITypesBinding.TableModeUpdate | Tools/GUILayer/UITypesBinding.cpp:624-638 | a table mode writes its first row as the forward blend, sets the forward flag, and sets the deferred decal exactly for Decal |
| UITypesBinding.RowForTableMode | Tools/GUILayer/UITypesBinding.cpp:545-625 | every mode other than Inherit and Complex has a row |
| UITypesBinding.ForwardRowClassifies | Tools/GUILayer/UITypesBinding.cpp:586-590 | a forward blend equal to a blending row classifies as that row's mode |
| UITypesBinding.TableModeRoundTrip | Tools/GUILayer/UITypesBinding.cpp:601-640 | after setting a table mode the getter shows that mode |
| UITypesBinding.StandardBlendModeRoundTrip | Tools/GUILayer/UITypesBinding.cpp:595-640 | every mode but Complex reads back as set; setting Complex changes nothing |
| UITypesBinding.StandardBlendModeKeepsOtherStates | Tools/GUILayer/UITypesBinding.cpp:601-640 | the blend-mode setter leaves DoubleSided and Wireframe unchanged |
| UITypesBinding.RenderStateSet.constructor | Tools/GUILayer/UITypesBinding.cpp:643-647 | the binding wraps the given state set |
| UITypesBinding.RenderStateSet.SetDoubleSided | Tools/GUILayer/UITypesBinding.cpp:485-497 | the state set is updated as the setter says, and DoubleSided then reads as the value set |
| UITypesBinding.RenderStateSet.SetWireframe | Tools/GUILayer/UITypesBinding.cpp:509-521 | the state set is updated as the setter says, and Wireframe then reads as the value set |
| UITypesBinding.RenderStateSet.SetStandardBlendMode | Tools/GUILayer/UITypesBinding.cpp:601-640 | the state set is updated as the setter says, and any mode but Complex then reads back |
| UITypesBinding.DrawCallIndex | Tools/GUILayer/UITypesBinding.cpp:120-127 | with a mouse-over, the stored draw call index; when no stored index is all ones, the all-ones 32-bit value is returned exactly when there is no mouse-over |
| UITypesBinding.MaterialBindingGuid | Tools/GUILayer/UITypesBinding.cpp:167-174 | with a mouse-over, the stored guid; when no stored guid is all ones, the all-ones 64-bit value is returned exactly when there is no mouse-over |
| UITypesBinding.MaterialName | Tools/GUILayer/UITypesBinding.cpp:129-141 | the placeholder without a full name; otherwise a suffix of the full name that holds no ';' |
| UITypesBinding.MaterialNameOfQualifiedName | Tools/GUILayer/UITypesBinding.cpp:129-141 | for "...;archive:material" only the material part is shown |
| UITypesBinding.MaterialNameOfPlainName | Tools/GUILayer/UITypesBinding.cpp:129-141 | a name without ';' or ':' is shown whole |
| UITypesBinding.BoxOfKeys | Tools/GUILayer/UITypesBinding.cpp:260-288 | a name is in the parameter box exactly when some entry carries it |
| UITypesBinding.BoxOfLastWins | Tools/GUILayer/UITypesBinding.cpp:260-288 | the value of a name is that of its last entry |
| UITypesBinding.StringEntriesNames | Tools/GUILayer/UITypesBinding.cpp:265-268 | a name survives the string conversion exactly when some pair with a non-empty name and a value carries it |
| UITypesBinding.AsParameterBoxFromStrings | Tools/GUILayer/UITypesBinding.cpp:260-273 | the box holds the pairs with a non-null non-empty name and a non-null value, set in order |
| UITypesBinding.AsParameterBoxFromInts | Tools/GUILayer/UITypesBinding.cpp:275-288 | the box holds the pairs with a non-null non-empty name, set in order |
| UITypesBinding.StringBoxNames | Tools/GUILayer/UITypesBinding.cpp:260-273 | a name is in the string box exactly when some kept pair carries it |
| UITypesBinding.BlendModeOf | Tools/GUILayer/UITypesBinding.cpp:562-593 | a state set without the forward blend flag is never classified Complex |
| UITypesBinding.WithStandardBlendMode | Tools/GUILayer/UITypesBinding.cpp:601-640 | setting a standard blend mode keeps double-sidedness, wireframe and every flag other than the two blend flags |
| ShaderFragmentNodes.ShortType | Tools/NodeEditor/ShaderFragmentNodes.cs:53-78 | empty for an empty type; otherwise the first character plus nothing, the last digit, or the trailing "NxM" dimensions, as the type ends |
| ShaderFragmentNodes.ShortTypeExamples | Tools/NodeEditor/ShaderFragmentNodes.cs:53-78 | "float3x4" is shown as "f3x4", "float4" as "f4", "float" as "f" |
| ShaderFragmentNodes.NewFragmentItem | Tools/NodeEditor/ShaderFragmentNodes.cs:30-37 | the item keeps name, type, archive name and directions, and its connector tag is the type text |
| ShaderFragmentNodes.CanConnect | Tools/NodeEditor/ShaderFragmentNodes.cs:206-230 | two untyped connectors are compatible, one untyped is incompatible; compatible exactly for types equal ignoring case, a conversion exactly for types that differ ignoring case and have an automatic conversion |
| ShaderFragmentNodes.CompatibleIsSymmetric | Tools/NodeEditor/ShaderFragmentNodes.cs:206-230 | compatibility does not depend on the direction |
| ShaderFragmentNodes.NodeTagCounter.constructor | Tools/NodeEditor/ShaderFragmentNodes.cs:247 | the shared counter starts at 1 |
| ShaderFragmentNodes.NodeTagCounter.NextId | Tools/NodeEditor/ShaderFragmentNodes.cs:246 | the id is the counter pre-incremented with 32-bit wrap-around, and the counter keeps it |
| ShaderFragmentNodes.TwoTagsFromStart | Tools/NodeEditor/ShaderFragmentNodes.cs:246-247 | the first two tags get ids 2 and 3 |
| ShaderFragmentNodes.AsStringInjective | Tools/NodeEditor/ShaderFragmentNodes.cs:278-290 | distinct source types have distinct display strings |
| ShaderFragmentNodes.AsSourceTypeInvertsAsString | Tools/NodeEditor/ShaderFragmentNodes.cs:278-302 | the display string of a source type parses back to it |
| ShaderFragmentNodes.AsSourceTypeDefaultsToMaterial | Tools/NodeEditor/ShaderFragmentNodes.cs:292-302 | a string that no source type displays as parses to Material |
| ShaderFragmentNodes.KeptAndRedirectedCount | Tools/NodeEditor/ShaderFragmentNodes.cs:314-333 | a type change keeps the number of items |
| ShaderFragmentNodes.RedirectedItemsPointTheRightWay | Tools/NodeEditor/ShaderFragmentNodes.cs:323-329 | every recreated item is input-only for an Output node and output-only otherwise |
| ShaderFragmentNodes.KeptItemsNeedNoFix | Tools/NodeEditor/ShaderFragmentNodes.cs:323-325 | the items left in place are original items that needed no fix |
| ShaderFragmentNodes.TypeChangeFixesDirections | Tools/NodeEditor/ShaderFragmentNodes.cs:304-336 | afterwards every single-direction fragment item has its output enabled exactly when the node is not an Output node |
| ShaderFragmentNodes.RedirectedItemsKeepIdentity | Tools/NodeEditor/ShaderFragmentNodes.cs:327-329 | each recreated item keeps the name, type and archive name of an item it replaced |
| ShaderFragmentNodes.FixItemDirections | Tools/NodeEditor/ShaderFragmentNodes.cs:314-333 | the loop leaves the kept items in order followed by the recreated items in order |
| ShaderFragmentNodes.RenameChangesOnlyMatchingItems | Tools/NodeEditor/ShaderFragmentNodes.cs:465-484 | only items referring to the old name change; they refer to the new name, take name and type from the archive or "<<unknown>>", and keep their connector tag and directions |
| ShaderFragmentNodes.RenameLeavesNoOldReference | Tools/NodeEditor/ShaderFragmentNodes.cs:451-489 | after the rename no fragment item refers to the old name |
| ShaderFragmentNodes.CollectFromMeaning | Tools/NodeEditor/ShaderFragmentNodes.cs:559-597 | the collection fails exactly when a visited fragment item has no archive name; otherwise it holds each archive name once, in first-seen order, typed from the archive or "<<unknown>>" |
| ShaderFragmentNodes.CollectFromAppend | Tools/NodeEditor/ShaderFragmentNodes.cs:557-599 | collecting over two item lists is collecting over the first and continuing with the second |
| ShaderFragmentNodes.AddMissingOnlyAdds | Tools/NodeEditor/ShaderFragmentNodes.cs:619-642 | adding keeps every existing entry and value, every new key is the preview key of a collected name, and a new key is reported |
| ShaderFragmentNodes.AddMissingWithMatchingNames | Tools/NodeEditor/ShaderFragmentNodes.cs:619-642 | when every name is its own preview key, adding succeeds and the keys become the old keys plus the collected names |
| ShaderFragmentNodes.SyncWithMatchingNames | Tools/NodeEditor/ShaderFragmentNodes.cs:550-644 | when every name is its own preview key, one sync makes the keys the collected names, reports whether they changed, and a second sync reports no change |
| ShaderFragmentNodes.SyncResetsPreviewValues | Tools/NodeEditor/ShaderFragmentNodes.cs:605-639 | a local archive parameter is removed and re-added on every sync, so each sync reports a change and resets the edited value to the default |
| ShaderFragmentNodes.AddMissingByPreviewKeyMeaning | Tools/NodeEditor/ShaderFragmentNodes.cs:619-642 | adding by preview key makes the keys the old keys plus the preview keys, keeps old values, and reports exactly a new key |
| ShaderFragmentNodes.CorrectedSync | Tools/NodeEditor/ShaderFragmentNodes.cs:550-644 | a sync keyed by preview key never fails, makes the keys exactly the preview keys, keeps surviving values, and reports exactly a change of keys |
| ShaderFragmentNodes.CorrectedSyncIsIdempotent | Tools/NodeEditor/ShaderFragmentNodes.cs:550-644 | a second corrected sync finds nothing to do and keeps every value |
| ShaderFragmentNodes.Document.constructor | Tools/NodeEditor/ShaderFragmentNodes.cs:550 | the document holds the given preview material state |
| ShaderFragmentNodes.Document.FillInMaterialParameters | Tools/NodeEditor/ShaderFragmentNodes.cs:550-644 | the preview state becomes the sync of the collected material parameters, or is untouched when collecting fails |
| ShaderFragmentNodes.Document.RemoveStaleEntries | Tools/NodeEditor/ShaderFragmentNodes.cs:603-617 | the entries whose names were not collected are removed and the rest keep their values; the result says whether any went |
| ShaderFragmentNodes.Document.AddMissingEntries | Tools/NodeEditor/ShaderFragmentNodes.cs:619-642 | each collected name not present is added under its preview key; a clash with a key already there is an error |
| ShaderFragmentNodes.SelectedSourceType | Tools/NodeEditor/ShaderFragmentNodes.cs:562-573 | the type of the first drop-down's selection, or System without one |
| ShaderFragmentNodes.CollectMaterialParameters | Tools/NodeEditor/ShaderFragmentNodes.cs:557-599 | the loop computes the collection over the fragment items of the material parameter nodes |
| ShaderFragmentNodes.CollectItems | Tools/NodeEditor/ShaderFragmentNodes.cs:577-598 | one material node's item loop adds each fragment item's archive name not yet collected, in order, and fails on an item without one, exactly as the collection does |
| ShaderFragmentNodes.GraphControl.constructor | Tools/NodeEditor/ShaderFragmentNodes.cs:451-460 | the control holds the given nodes |
| ShaderFragmentNodes.GraphControl.ParameterNodeTypeChanged | Tools/NodeEditor/ShaderFragmentNodes.cs:304-336 | only the changed node changes; its items become the kept items followed by the recreated ones |
| ShaderFragmentNodes.GraphControl.UpdateGraphConnectionsForParameter | Tools/NodeEditor/ShaderFragmentNodes.cs:451-489 | every node's items are renamed as the rename says and the node count is unchanged |
| ShaderFragmentNodes.AsString | Tools/NodeEditor/ShaderFragmentNodes.cs:278-290 | every source type has a non-empty name |
| ShaderFragmentNodes.AsSourceType | Tools/NodeEditor/ShaderFragmentNodes.cs:292-302 | parsing a string gives the source type of that name, or Material exactly when no type has that name |
| ShaderFragmentNodes.CollectFrom | Tools/NodeEditor/ShaderFragmentNodes.cs:559-597 | collecting can fail only with the missing-archive-name error |
| ShaderFragmentNodes.CollectFromFails | Tools/NodeEditor/ShaderFragmentNodes.cs:559-597 | collecting fails exactly when some visited fragment item has no archive name |
| ShaderFragmentNodes.AddMissing | Tools/NodeEditor/ShaderFragmentNodes.cs:619-642 | adding entries never removes or changes a preview value already present, and its only error is a duplicate preview key |
| ShaderFragmentNodes.Sync | Tools/NodeEditor/ShaderFragmentNodes.cs:550-644 | a preview value whose key is still a collected archive name keeps its value; when some existing key is not collected, a successful sync reports a change |

## Left out

- GPU objects, device binding and drawing are events or opaque identities. Not modelled: buffer contents, Map/Unmap, and the float math of WriteLocalTransform.
- File reads (LoadBlock, ReadImmediately, BasicFile) are inputs: the bytes and the chunk table are given.
- Block_Initialize relocation of addresses is not modelled; a BlockSerializer request yields raw bytes.
- Dependency-validation registration is not modelled.
- The supplement scaffold's own resolution is not modelled; it resolves like the model scaffold.
- GetAssetDep, ResolveFile, IsDXTNormalMap and Hash64 are inputs; a thrown InvalidAsset is `None`.
- SharedStateSet internals are not modelled: its header only declares them, so Insert* is an interner. BeginVariation's result is a function parameter.
- The order of the mesh addresses that CompareDrawCall compares is taken to be unskinned before skinned, then by position in the renderer's list. Two renderers are ordered by their address.
- std::sort is not known to be stable; the model's sort is one admissible result for CompareDrawCall. The property proved is ordering plus permutation.
- The SkinnedAsStatic console tweakable is a parameter; the prepared-animation path's BuildAnimBinding is not modelled.
- The RenderPrepared overload that takes a callback is not modelled; only RenderPreparedInternal's loop is.
- LogReport, Width<> and the debug-only parameter-box descriptions are not modelled.
- The `RES_HAS_` parameter names are generated from a binding's name without the source's string formatting.
- Unsigned 32-bit counters and offsets in the buffer allocator, the stencil value 1+k and the variation tracker's `~0u` start value are unbounded naturals. The hash itself is computed modulo 2^32.
- Matrices are symbolic (identity, a given transform, or a product); no arithmetic is done on them.
- Floating-point settings and parameters are exact reals.
- Renderer.ModelRenderer.constructor: requires that geo and skin calls name existing geometries and controllers (the source indexes without a check). It also requires that every material constant buffer is non-empty (InsertOrCombine asserts it), that no geometry has more supplement streams than the fixed stream arrays hold, and that skinned strides are non-zero (vertex counts divide by them).
- MeshToModels.GetMeshToModel: requires that a marker looked up through a skeleton binding is a joint of the binding, as the source asserts before indexing.
- Renderer.ModelRenderer.Prepare and Renderer.ModelRenderer.Render: require the renderer's draw calls to have resources and meshes, which the constructor guarantees (ModelPreparation.EmittedPreparable). They also require the transform markers to be known to the binding, and a prepared animation to have one entry per skinned mesh.
- TerrainUberSurface header: the header layout (eight little-endian 32-bit words) and the magic value are parameters, since the header declaration is not part of this model.
- TerrainUberSurface: GPU textures, the readback and the cell callbacks are external. The readback is a parameter and the cells are returned as indices.
- TerrainUberSurface: brush, erosion and compute tools, and memory mapping, are not modelled.
- TerrainUberSurface.GenericUberSurfaceInterface.PrepareCache: requires the adjusted rectangle to be ordered and inside the field. Otherwise the source's unsigned arithmetic wraps and the window it computes is not meaningful.
- OceanPatch: indices are exact naturals; they agree with the source's 32-bit values while width times height fits in 32 bits. The GPU index buffer is not modelled.
- OceanPatch: Desc is a value, so the source's zero-fill (which makes equal arguments give identical descs) is value equality.
- LightingTargets: the enumerator values declared in LightingTargets.h are taken in declaration order.
- LightingTargets: shader compilation and the other render-target boxes are not modelled; a slot holds the program's vertex shader, pixel shader and defines table.
- ShadowSettings: the cascade projection matrices and the cascade fitting are not modelled; only the count and mode of the projections are kept.
- ShadowSettings: MaxShadowTexturesPerLight and the console tweakables read by the defaults are parameters.
- ShadowSettings.DefaultShadowFrustumSettings.SetTextureSize: requires 2 <= value <= 2^31. Below 2, IntegerLog2(value - 1) is taken of 0; above 2^31, the unsigned shift overflows.
- ShadowSettings.CeilToPowerOfTwo: same range as SetTextureSize, for the same reason.
- UITypesBinding: transactions, property-change notifications and the DeferredBlend placeholder property are not modelled. Only the RenderStateSet enumerators this file names are modelled.
- UITypesBinding: the FullMaterialName lookup through the model cache is an input: the full name, or none.
- ShaderFragmentNodes: drawing, the preview item, node creation from archive functions, and IdentifierSafeName's Unicode regex are not modelled.
- ShaderFragmentNodes: TypeRules.HasAutomaticConversion, CreateFromString and CreateDefaultObject are parameters or symbolic values.
- AssetProperties: the Uri-based AsAssetName and the TypeConverter classes are not modelled.
- TerrainUberSurface.UberSurface.constructor: checks the file size with the corrected check of the TerrainUberSurface.cpp:98 finding (TerrainUberSurface.Open, in exact arithmetic), so it refuses the truncated file the source accepts as written. TerrainUberSurface.OpenAsWritten models the check as written.
- TerrainUberSurface.UberSurface.GetData: sample offsets are exact naturals; the source computes them in 32-bit unsigned arithmetic (TerrainUberSurface.cpp:55-62). The two agree while width * height * sampleBytes fits in 32 bits.
- TerrainUberSurface.UberSurface.GetStride: the stride width * sampleBytes is exact; the source's is 32-bit unsigned (TerrainUberSurface.cpp:64-66). They agree while width * height * sampleBytes fits in 32 bits.
- TerrainUberSurface.GenericUberSurfaceInterface.FlushGPUCache: row offsets are exact naturals; the source computes them in 32-bit unsigned arithmetic (TerrainUberSurface.cpp:328-333). They agree while width * height * sampleBytes fits in 32 bits.
- TerrainUberSurface.BuildEmptyFile: writes height zeroed lines for every height. Both the model and the source write the header's height as an unsigned word (TerrainUberSurface.cpp:539). But the source's loop bound is int(height) (TerrainUberSurface.cpp:548), which is negative from 2^31 up, so for such a height the source writes the header and no lines at all. The two agree for every height below 2^31. The line size is taken modulo 2^32 in both.
- Renderer.ModelRenderer.Render: the source wraps both draw loops in a TRY/CATCH that ends the pass without an error when a shared-state lookup throws InvalidAsset or PendingAsset (ModelRunTime.cpp:1031 and 1117-1119). The model's lookups never throw, so it does not capture a pass cut short part way; every stored draw call is drawn.
- TerrainUberSurface.GenericUberSurfaceInterface.DoShortCircuitUpdate: the source wraps its loop in a TRY/CATCH that swallows every exception (TerrainUberSurface.cpp:502-527), so a cell callback that throws silently skips the cells after it. The model's callbacks are cell numbers and never throw, so it does not capture an update cut short part way; every intersecting cell is notified.
- ImmediateRendering.RenderDrawsEveryCall: holds only for a pass in which no lookup throws, for the reason given under Renderer.ModelRenderer.Render. ImmediateRendering.RenderTrace carries the same assumption.
- Renderer.ModelRenderer.BeginSkinCall: computes the corrected behaviour of the ModelRunTime.cpp:782-787 finding: it writes the mesh's placement. ImmediateRendering.SkinCallTransformMismatch states what the source writes as written.
- Renderer.ModelRenderer.RenderSkinnedCall: goes through Renderer.ModelRenderer.BeginSkinCall, so it follows the corrected behaviour of the ModelRunTime.cpp:782-787 finding.
- Renderer.ModelRenderer.Render: its skinned loop also follows the corrected behaviour of the ModelRunTime.cpp:782-787 finding, through Renderer.ModelRenderer.RenderSkinnedCall.
- ImmediateRendering.GeoCallTransform: is the corrected transform of the ModelRunTime.cpp:782-787 finding, and the trace functions built on it (ImmediateRendering.RenderTrace) inherit it.
- DrawCallScheduling.DrawEntry: binds the skinned technique interface for a skinned mesh, the corrected behaviour of the ModelRunTime.cpp:1316-1331 finding. DrawCallScheduling.AsWrittenInterfaceMismatch states what the source binds as written.
- DrawCallScheduling.DrawEntries: follows the corrected behaviour of the ModelRunTime.cpp:1316-1331 finding, through DrawCallScheduling.DrawEntry.
- DrawCallScheduling.RenderPreparedInternal: follows the corrected behaviour of the ModelRunTime.cpp:1316-1331 finding, through DrawCallScheduling.DrawEntries.
- GeoBuffers.FindSupplementGeo: tags each stream with its supplement's index, the corrected behaviour of the ModelRunTime.cpp:877-881 finding. GeoBuffers.SupplementIndexAsWrittenMismatch states the tag the source gives as written.
- GeoBuffers.AllocateVertexStreams: uses GeoBuffers.FindSupplementGeo, so it follows the corrected behaviour of the ModelRunTime.cpp:877-881 finding.
- GeoBuffers.BuildMesh: uses GeoBuffers.AllocateVertexStreams, so it follows the corrected behaviour of the ModelRunTime.cpp:877-881 finding.
- GeoBuffers.BuildSkinnedMesh: builds its unskinned part with GeoBuffers.BuildMesh, so it follows the corrected behaviour of the ModelRunTime.cpp:877-881 finding.
- ModelRenderers.UnskinnedMeshFor: builds a new mesh with GeoBuffers.BuildMesh, so it follows the corrected behaviour of the ModelRunTime.cpp:877-881 finding.
- ModelRenderers.NewSkinnedMesh: builds the mesh with GeoBuffers.BuildSkinnedMesh, so it follows the corrected behaviour of the ModelRunTime.cpp:877-881 finding.
- Renderer.ModelRenderer.constructor: builds its meshes through ModelRenderers.UnskinnedMeshFor and ModelRenderers.NewSkinnedMesh, so it follows the corrected behaviour of the ModelRunTime.cpp:877-881 finding.
- LightingTargets.LightingResolveShaders.BuildShader: builds the corrected defines of the LightingTargets.cpp:232 finding (MSAA_SAMPLES is the sample count). LightingTargets.ShaderDefinesAsWritten models the defines as written.
- LightingTargets.LightingResolveShaders.constructor: builds every slot through LightingTargets.LightingResolveShaders.BuildShader, so it follows the corrected behaviour of the LightingTargets.cpp:232 finding.
- ShaderFragmentNodes.Document.FillInMaterialParameters: uses ShaderFragmentNodes.Sync as written, with the ShaderFragmentNodes.cs:605-639 finding's key mismatch included. ShaderFragmentNodes.CorrectedSync is stated beside it and is not used by the class.
- Text.IsAsciiDigit: accepts the ASCII digits only. The source's Char.IsDigit also accepts the other Unicode decimal digits (ShaderFragmentNodes.cs:63-65). ShaderFragmentNodes.ShortType uses it.
- Text.EqualsIgnoreCase: folds ASCII letters only, comparing ordinally. The source compares with StringComparison.CurrentCultureIgnoreCase, which folds by the current culture (ShaderFragmentNodes.cs:215). ShaderFragmentNodes.CanConnect uses it.

## Findings

| source | as written | input that shows it | evidently intended | confidence | as-written member | corrected member |
|---|---|---|---|---|---|---|
| SceneEngine/LightingTargets.cpp:232 | `<<` binds before `?:`, so the stream first receives the bool `samples.count <= 1` and the conditional then only selects between two expressions on the stream; the sample count itself is never written | a 4-sample MSAA target gets MSAA_SAMPLES=0; a single-sample target gets 1 | MSAA_SAMPLES is the sample count (0 without MSAA) | not executed | LightingTargets.ShaderDefinesAsWritten, LightingTargets.MsaaSamplesAsWrittenLosesCount | LightingTargets.ShaderDefines, LightingTargets.MsaaSamplesIdentifiesCount |
| SceneEngine/TerrainUberSurface.cpp:98 | the expected size width*height*sampleBytes is computed in 32-bit unsigned arithmetic and wraps | a 65536 x 65536 surface of one-byte samples, whose file holds only the header, is accepted | accept only files holding every sample | not executed | TerrainUberSurface.OpenAsWritten, TerrainUberSurface.OpenAsWrittenAcceptsTruncatedFile | TerrainUberSurface.Open, TerrainUberSurface.EmptyFileOpens |
| Tools/NodeEditor/ShaderFragmentNodes.cs:605-639 | stale preview entries are removed by archive name, but new entries are added under the parameter's name | a local archive parameter "LocalArchive[Colour]" named "Colour": every call removes "Colour", adds it again with the default, and reports a change | removal and adding keyed alike, so a second sync changes nothing and keeps edited values | not executed | ShaderFragmentNodes.Sync, ShaderFragmentNodes.SyncResetsPreviewValues | ShaderFragmentNodes.CorrectedSync, ShaderFragmentNodes.CorrectedSyncIsIdempotent |
| RenderCore/Assets/ModelRunTime.cpp:1316-1331 | RenderPreparedInternal takes the technique interface from the sub-mesh's unskinned part for skinned meshes too | a skinned mesh whose skinned interface differs from its unskinned one: its entries were hashed with the skinned interface, but the other is bound | bind the skinned interface, the one the entry's hash was computed with | not executed | DrawCallScheduling.AsWrittenInterfaceMismatch | DrawCallScheduling.DrawEntry, ModelPreparation.EntryAtMeaning |
| RenderCore/Assets/ModelRunTime.cpp:782-787 | BeginSkinCall computes the mesh's placement but writes the model-to-world transform | a good mesh-to-model lookup, no prepared animation, and a mesh with a transform of its own | write the placement, as BeginGeoCall does | not executed | ImmediateRendering.SkinCallTransformMismatch | Renderer.ModelRenderer.BeginSkinCall |
| RenderCore/Assets/ModelRunTime.cpp:877-881 | a supplement stream is tagged with its position in the list of found streams, not with the index of its supplement | supplements [nothing for geometry 5, a stream for geometry 5]: the stream is tagged 0, so it is read from supplement 0's file | tag each stream with its supplement's index | not executed | GeoBuffers.SupplementIndexAsWrittenMismatch | GeoBuffers.SupplementStreamsHeld, GeoBuffers.FindSupplementGeo |
