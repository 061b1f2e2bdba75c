# IQM v2 model decoder, in Dafny

This project models `load_iqm` from `src/iqm.rs`. That function decodes an
Inter-Quake Model (IQM) version 2 file held in memory into a list of meshes.
Each mesh is an interleaved vertex list (3 position, 2 texture-coordinate and
3 normal components per vertex) plus a triangle index list. The decoder works
in four stages over one cursor:

1. **Header.** A partial first read fills a zeroed 16-byte buffer that must
   equal the signature `INTERQUAKEMODEL\0`. Then comes the version word
   (must be 2), 16 skipped bytes, and seven header words.
2. **Vertex arrays.** Descriptor `i` sits at `ofsVertexArrays + 20 * i`.
   Position arrays must be Float x 3 and are read strictly. Texture-coordinate
   (Float x 2) and normal (Float x 3) arrays substitute 0.0 for a read past
   the end. Every other type tag is ignored.
3. **Triangles.** `3 * numTriangles` words are read from `ofsTriangles`.
4. **Meshes.** Record `k` sits at `ofsMeshes + 24 * k`: 8 skipped bytes,
   then first vertex, vertex count, first triangle and triangle count.
   Each record gathers its vertices from the attribute lists and copies its
   triangles' indices from the global index list.

The project has four modules:

- `IqmFormat` (`iqm_format.dfy`): bytes, 32-bit words, little-endian
  decoding, format constants, the two tag enumerations, strict and
  tolerant runs of word reads.
- `IqmSpec` (`iqm_spec.dfy`): the reference decoder as pure functions, one
  per stage. Each loop of the source is a fold over a prefix of its range
  (`LoadVertexArrays`, `GatherVertices`, `GatherIndices`, `LoadMeshes`).
  `Decode` chains the stages.
- `IqmLoader` (`iqm_loader.dfy`): the decoder as the source runs it. It uses
  methods over an `array<u8>`, an explicit cursor position, and `for` loops
  that push onto lists. Each method is proved to compute its stage of
  `Decode`, and `LoadIqm` computes `Decode` itself.
- `IqmProperties` (`iqm_properties.dfy`): what the decoder promises, proved
  about `Decode` and its stages. This covers where every header field,
  descriptor and mesh record is read, what each vertex array adds, what
  every output mesh holds in closed form, and exactly when each stage fails.

Every panic in the source becomes an error result. The kinds are:

- `BadMagic`: the signature check fails.
- `BadVersion`: the version check fails.
- `Truncated`: an `unwrap` of a failed read.
- `BadLayout`: a format/size assertion fails.
- `Overflow`: u32 arithmetic overflows, which panics in a debug build.
- `OutOfRange`: a slice index is out of bounds.

A 32-bit float is kept as its bit pattern (`u32`), since the decoder only
copies floats. The 0.0 the tolerant reads substitute is the all-zero pattern.

The code behaves as follows, and the model follows the code:

- Triangle indices are copied unchanged. They are not rebased by the
  mesh's first vertex, and no index is checked against the mesh's vertex
  range (`GatherIndicesSpec`). So a mesh with `firstVertex > 0` whose
  file stores indices into the whole model's vertex list gets indices
  past the end of its own vertex list.
- Only position, texture-coordinate and normal arrays are read. Tangent,
  blend and color arrays are ignored (`OtherArraysIgnored`).
- An attribute list that no descriptor targets stays empty
  (`UntargetedListsStayEmpty`) and is not zero-filled. Any mesh with a
  vertex then fails. The error is `OutOfRange`, unless `3 * firstVertex + 2`
  already exceeds u32, in which case the index arithmetic may overflow first
  (`AbsentArrayFails`).
- A texture-coordinate or normal array with the wrong layout aborts the
  decode, just as a position array does (`OptionalArrayLoaded`).
- A buffer shorter than 20 bytes fails with `BadMagic` or `Truncated`
  (`ShortBufferRejected`). Among buffers shorter than 16 bytes, exactly
  the 15-byte `INTERQUAKEMODEL` passes the signature check, because the
  zeroed buffer supplies the final byte (`ShortSignatureMatches`,
  `UnterminatedSignatureMatches`).

A failed tolerant read leaves the cursor where no later read of the same
array can succeed. Older standard libraries leave the position in place;
newer ones move it to the end. Both give the same words. The model leaves
it in place.

## Model

| member | source | states |
|---|---|---|
| IqmFormat.VertexArrayTypeOf | src/iqm.rs:11-19 | a type tag names a vertex-array type exactly when it is below 7, and that type's tag is the tag |
| IqmFormat.VertexArrayTypeTagRoundTrip | src/iqm.rs:11-19 | every vertex-array type is recovered from its own tag |
| IqmFormat.VertexArrayFormatOf | src/iqm.rs:22-32 | a format tag names a component format exactly when it is below 9, and that format's tag is the tag (Float is 7) |
| IqmFormat.VertexArrayFormatTagRoundTrip | src/iqm.rs:22-32 | every component format is recovered from its own tag |
| IqmFormat.LeU32 | src/iqm.rs:73-79 | a little-endian word read succeeds exactly when its four bytes lie inside the buffer |
| IqmFormat.LeU32RoundTrip | src/iqm.rs:73-79 | decoding the little-endian bytes of a word gives the word back |
| IqmFormat.LeBytesRoundTrip | src/iqm.rs:73-79 | encoding a decoded word gives back the four bytes, so the decoding is injective |
| IqmFormat.ReadWords | src/iqm.rs:99-103 | a run of strict reads succeeds exactly when it is empty or all its bytes lie in the buffer, fails only with Truncated, and yields one word per read |
| IqmFormat.ReadWordsOrZero | src/iqm.rs:107-111 | a run of tolerant reads always yields one word per read |
| IqmFormat.ReadWordsSnoc | src/iqm.rs:101-103 | one more strict read appends the word at the next position |
| IqmFormat.ReadWordsOrZeroSnoc | src/iqm.rs:109-111 | one more tolerant read appends that word, or zero when its bytes are past the end |
| IqmSpec.MagicRead | src/iqm.rs:62-63 | the signature buffer is always 16 bytes: the bytes the read copied (all of the input, up to 16), then zeros |
| IqmSpec.LoadVertexArraysErrorSticky | src/iqm.rs:87-123 | once a descriptor aborts the vertex-array loop, the whole loop fails with that error |
| IqmSpec.GatherVerticesErrorSticky | src/iqm.rs:157-170 | once a vertex aborts the vertex loop, the whole loop fails with that error |
| IqmSpec.GatherIndicesErrorSticky | src/iqm.rs:175-181 | once a triangle aborts the index loop, the whole loop fails with that error |
| IqmSpec.LoadMeshesErrorSticky | src/iqm.rs:145-191 | once a mesh aborts the mesh loop, the whole loop fails with that error |
| IqmLoader.ReadU32 | src/iqm.rs:73 | a cursor word read computes the little-endian word at the position, or fails past the end |
| IqmLoader.ReadHeader | src/iqm.rs:60-79 | the partial signature read, version check, skip and seven reads compute `IqmSpec.ParseHeader`, errors included |
| IqmLoader.ReadStrict | src/iqm.rs:99-103 | seeking and reading words one at a time with `unwrap` computes `IqmFormat.ReadWords` |
| IqmLoader.ReadTolerant | src/iqm.rs:107-111 | reading words one at a time with `unwrap_or(0.0)`, where a failed read does not advance, computes `IqmFormat.ReadWordsOrZero` |
| IqmLoader.ApplyDescriptor | src/iqm.rs:96-122 | the dispatch on the type tag computes `IqmSpec.ApplyVertexArray`, the effect of one descriptor on the attribute lists |
| IqmLoader.ReadDescriptor | src/iqm.rs:88-94 | the seek to `ofsVertexArrays + i * 20` and five reads compute `IqmSpec.ReadVertexArray`, including the u32 overflow of the address |
| IqmLoader.ReadVertexArrays | src/iqm.rs:81-123 | the descriptor loop computes `IqmSpec.LoadVertexArrays` over all descriptors |
| IqmLoader.ReadTriangleIndices | src/iqm.rs:125-137 | the nested triangle loop computes `IqmSpec.ReadTriangles`, and the count check after it cannot fail |
| IqmLoader.CollectVertices | src/iqm.rs:154-170 | the vertex loop of one mesh computes `IqmSpec.GatherVertices` (one `IqmSpec.GatherVertex` per step), and the u32 sum `first + j` never overflows |
| IqmLoader.CollectIndices | src/iqm.rs:172-181 | the index loop of one mesh computes `IqmSpec.GatherIndices`, and the u32 sum `first + j` never overflows |
| IqmLoader.ReadMeshRecordAt | src/iqm.rs:146-152 | skipping 8 bytes and reading four words computes `IqmSpec.ReadMeshRecord` |
| IqmLoader.AssembleMesh | src/iqm.rs:154-190 | the vertex loop and then the index loop compute `IqmSpec.BuildMesh` of a record |
| IqmLoader.ReadMesh | src/iqm.rs:145-190 | one pass of the mesh loop with the cursor at record `k` computes `IqmSpec.MeshAt` for `k` |
| IqmLoader.ReadMeshes | src/iqm.rs:140-191 | the mesh loop computes `IqmSpec.LoadMeshes` over all records, with the cursor advancing 24 bytes per record |
| IqmLoader.LoadIqm | src/iqm.rs:47-195 | the whole loader computes `IqmSpec.Decode`, every error included |
| IqmProperties.MagicCheckedFirst | src/iqm.rs:62-66 | a failed signature check is reported as BadMagic whatever follows it, and for 16 bytes or more it compares the first 16 bytes |
| IqmProperties.ShortBufferRejected | src/iqm.rs:62-67 | a buffer shorter than 20 bytes fails with BadMagic or Truncated |
| IqmProperties.ShortSignatureMatches | src/iqm.rs:62-66 | a buffer under 16 bytes passes the signature check exactly when it is the 15 signature bytes before the final zero |
| IqmProperties.UnterminatedSignatureMatches | src/iqm.rs:62-67 | the 15-byte signature without its final zero matches, then fails with Truncated on the version read |
| IqmProperties.VersionChecked | src/iqm.rs:67 | after a matching signature, a version other than 2 fails with BadVersion |
| IqmProperties.HeaderLayout | src/iqm.rs:60-79 | `IqmSpec.ParseHeader` succeeds exactly when the buffer holds 64 bytes with the signature and version 2, and its fields are the words at 36, 40, ..., 60 in order |
| IqmProperties.DescriptorAt | src/iqm.rs:88-94 | `IqmSpec.ReadVertexArray` gives descriptor `i` as the five words at `ofsVertexArrays + 20 * i`, or Overflow when the address exceeds u32, or Truncated past the end |
| IqmProperties.PositionArrayLoaded | src/iqm.rs:97-104 | under `IqmSpec.ApplyVertexArray` a position array needs Float x 3, and then appends exactly `3 * numVertices` words in file order or fails with Truncated, leaving the other lists alone |
| IqmProperties.OptionalArrayLoaded | src/iqm.rs:105-120 | under `IqmSpec.ApplyVertexArray` a texture-coordinate or normal array needs its layout, and then always appends `size * numVertices` words, each the file word when its bytes are in the buffer and zero otherwise |
| IqmProperties.OtherArraysIgnored | src/iqm.rs:121 | a descriptor of any other type leaves the attribute lists unchanged |
| IqmProperties.VertexArraysOnlyAppend | src/iqm.rs:81-123 | the attribute lists after `i` descriptors are prefixes of those after any later count |
| IqmProperties.UntargetedListsStayEmpty | src/iqm.rs:82-123 | the texture-coordinate (normal) list stays empty when no descriptor has type 1 (2), since only the matching arm pushes onto it |
| IqmProperties.ApplyOutcomeIndependent | src/iqm.rs:95-120 | whether a descriptor applies, and with which error it fails, does not depend on the lists already loaded |
| IqmProperties.LoadVertexArraysOk | src/iqm.rs:82-123 | the descriptor loop succeeds exactly when every descriptor reads and applies |
| IqmProperties.TrianglesLoaded | src/iqm.rs:125-137 | `IqmSpec.ReadTriangles` gives the `3 * numTriangles` words from `ofsTriangles` in order, or Truncated when they do not fit |
| IqmProperties.FetchRunIsSequential | src/iqm.rs:161-168 | the closed form `IqmSpec.FetchRun` of a run of slice indexings equals `IqmSpec.FetchEach`, their evaluation one `IqmSpec.Fetch` at a time, first error included |
| IqmProperties.FetchRunSpec | src/iqm.rs:161-168 | a run of indexings succeeds exactly when every index fits u32 and lies in the list, and then yields that slice |
| IqmProperties.GatherVertexSpec | src/iqm.rs:158-169 | `IqmSpec.GatherVertex` succeeds exactly when the vertex is in range, and gives the slices of the three lists at `3 * id`, `2 * id`, `3 * id` |
| IqmProperties.GatherVerticesShape | src/iqm.rs:157-170 | the vertex loop succeeds exactly when its last vertex is in range, and yields one vertex per step |
| IqmProperties.GatherVerticesLastStep | src/iqm.rs:157-170 | a successful vertex loop is the loop one step shorter plus its last vertex, which is in range |
| IqmProperties.GatherVerticesAt | src/iqm.rs:157-170 | a successful vertex loop holds global vertex `id` at position `id - first` |
| IqmProperties.GatherVerticesSpec | src/iqm.rs:154-170 | the vertex loop succeeds exactly when its last vertex is in range, and then holds every global vertex of the range at its offset |
| IqmProperties.VertexIdFits | src/iqm.rs:158 | the vertex id `first_vertex + j` never overflows u32 |
| IqmProperties.GatherIndicesSpec | src/iqm.rs:172-181 | the index loop succeeds exactly when its last index fits u32 and lies in the list, and then copies the `3 * count` indices from `3 * first` unchanged |
| IqmProperties.TriangleIdFits | src/iqm.rs:176 | the triangle id `first_triangle + j` never overflows u32 |
| IqmProperties.BuildMeshSpec | src/iqm.rs:154-190 | `IqmSpec.BuildMesh` succeeds exactly when the record's vertex and triangle ranges are in range, and the mesh is then the one the record describes |
| IqmProperties.AbsentArrayFails | src/iqm.rs:157-169 | with an empty texture-coordinate or normal list, any mesh with a vertex fails, since nothing is zero-filled; the error is OutOfRange whenever `3 * firstVertex + 2` fits u32 |
| IqmProperties.MeshAtSpec | src/iqm.rs:145-190 | a mesh that builds is the one its record at `ofsMeshes + 24 * k` describes |
| IqmProperties.LoadMeshesLastStep | src/iqm.rs:145-191 | a successful mesh loop is the loop one step shorter plus its last mesh |
| IqmProperties.LoadMeshesLength | src/iqm.rs:145-191 | a successful mesh loop over `count` records yields exactly `count` meshes |
| IqmProperties.LoadMeshesAt | src/iqm.rs:145-191 | a successful mesh loop holds mesh `k` at position `k` |
| IqmProperties.LoadMeshesSucceeds | src/iqm.rs:145-191 | the mesh loop succeeds when every one of its meshes builds |
| IqmProperties.LoadMeshesSpec | src/iqm.rs:140-191 | `IqmSpec.LoadMeshes` succeeds exactly when every `IqmSpec.MeshAt` builds, and then yields them in record order |
| IqmProperties.MeshRecordAt | src/iqm.rs:143-152 | `IqmSpec.ReadMeshRecord` gives record `k` as the four words at `ofsMeshes + 24 * k + 8`, or Truncated past the end |
| IqmProperties.DecodeStages | src/iqm.rs:47-195 | a successful decode passed every stage and returns the mesh stage's result |
| IqmProperties.MeshesDescribed | src/iqm.rs:140-191 | a successful mesh stage yields `numMeshes` meshes, mesh `k` being the one its record at `ofsMeshes + 24 * k` describes |
| IqmProperties.DecodedMeshes | src/iqm.rs:47-195 | a successful `IqmSpec.Decode` yields exactly one mesh per record in file order, each the one its record describes over the loaded attribute and index lists |
| IqmProperties.EmptyModelDecodes | src/iqm.rs:47-195 | a 64-byte file with the signature, version 2 and all-zero header fields decodes to no meshes |

## Left out

- GPU upload: the `Display` parameter and the `VertexBuffer` and `IndexBuffer` construction (lines 184-185). A mesh here is the vertex and index lists those buffers would receive. The errors those constructors can report are not modelled.
- Floating point: an `f32` is its 32-bit pattern, because the decoder only copies floats.
- Release builds: the model follows debug-build semantics, where u32 overflow panics. A release build wraps around instead, and that behaviour is not modelled.
- The `va_flags` word is read and kept but unused, as in the source. The 16 header bytes after the version are skipped, as are the name and material words of a mesh record.
- Panics are errors: the source aborts the process, while the model returns the first error, which identifies the same failing step.
- `src/camera.rs` and `src/main.rs` (camera maths, window and event loop, file I/O) are not part of this model.
- IqmFormat.ReadWordsOrZero: its own contract gives only the length. What each word is appears in `IqmProperties.OptionalArrayLoaded`.
