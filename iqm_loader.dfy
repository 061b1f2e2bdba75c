/**
  The loader as the source runs it: one pass over an immutable byte array
  with a cursor position that reads advance and seeks reset, filling the
  attribute lists, the global index list and the output meshes by pushes
  inside `for` loops. Every method is proved to compute the reference
  decoder's stage of the same name, and `LoadIqm` the whole of `Decode`.
 */
module IqmLoader {
  import opened IqmFormat
  import opened IqmSpec
  import opened IqmProperties

  /** `read_u32::<LittleEndian>` at cursor position `pos`. A read past the
      end fails and leaves the position to the caller. */
  method ReadU32(data: array<u8>, pos: int) returns (r: Option<u32>)
    ensures r == LeU32(data[..], pos)
  {
    if 0 <= pos && pos + 4 <= data.Length {
      r := Some(Le4(data[pos], data[pos + 1], data[pos + 2], data[pos + 3]));
    } else {
      r := None;
    }
  }

  /** The header stage: signature, version, skip, seven header words. */
  method ReadHeader(data: array<u8>) returns (r: Result<Header>)
    ensures r == ParseHeader(data[..])
  {
    // The first read copies as many bytes as there are, up to 16, into a
    // zeroed buffer.
    var magic := new u8[16](_ => 0);
    var n := if data.Length < 16 then data.Length else 16;
    for i := 0 to n
      invariant forall k :: 0 <= k < i ==> magic[k] == data[k]
      invariant forall k :: i <= k < 16 ==> magic[k] == 0
    {
      magic[i] := data[i];
    }
    assert magic[..] == MagicRead(data[..]);
    if magic[..] != MAGIC {
      return Err(BadMagic);
    }
    var pos := n;
    var version := ReadU32(data, pos);
    if version.None? {
      return Err(Truncated);
    }
    pos := pos + 4;
    if version.value != VERSION {
      return Err(BadVersion);
    }
    pos := pos + HEADER_SKIP;
    var numMeshes := ReadU32(data, pos);
    if numMeshes.None? {
      return Err(Truncated);
    }
    pos := pos + 4;
    var ofsMeshes := ReadU32(data, pos);
    if ofsMeshes.None? {
      return Err(Truncated);
    }
    pos := pos + 4;
    var numVertexArrays := ReadU32(data, pos);
    if numVertexArrays.None? {
      return Err(Truncated);
    }
    pos := pos + 4;
    var numVertices := ReadU32(data, pos);
    if numVertices.None? {
      return Err(Truncated);
    }
    pos := pos + 4;
    var ofsVertexArrays := ReadU32(data, pos);
    if ofsVertexArrays.None? {
      return Err(Truncated);
    }
    pos := pos + 4;
    var numTriangles := ReadU32(data, pos);
    if numTriangles.None? {
      return Err(Truncated);
    }
    pos := pos + 4;
    var ofsTriangles := ReadU32(data, pos);
    if ofsTriangles.None? {
      return Err(Truncated);
    }
    r := Ok(Header(numMeshes.value, ofsMeshes.value, numVertexArrays.value, numVertices.value,
                   ofsVertexArrays.value, numTriangles.value, ofsTriangles.value));
  }

  /** Seek to `start`, then `count` strict reads. */
  method ReadStrict(data: array<u8>, start: u32, count: nat) returns (r: Result<seq<u32>>)
    ensures r == ReadWords(data[..], start, count)
  {
    var pos: int := start;
    var ws := [];
    for j := 0 to count
      invariant pos == start + 4 * j && (j == 0 || pos <= data.Length)
      invariant ws == ReadWords(data[..], start, j).value
    {
      var w := ReadU32(data, pos);
      if w.None? {
        return Err(Truncated);
      }
      ReadWordsSnoc(data[..], start, j);
      ws := ws + [w.value];
      pos := pos + 4;
    }
    return Ok(ws);
  }

  /** Seek to `start`, then `count` reads that yield zero on failure. A failed
      read does not move the cursor. */
  method ReadTolerant(data: array<u8>, start: u32, count: nat) returns (ws: seq<u32>)
    ensures ws == ReadWordsOrZero(data[..], start, count)
  {
    var pos: int := start;
    ws := [];
    for j := 0 to count
      invariant ws == ReadWordsOrZero(data[..], start, j)
      invariant pos == start + 4 * j || (pos + 4 > data.Length && start + 4 * j + 4 > data.Length)
      invariant pos >= 0
    {
      var w := ReadU32(data, pos);
      ReadWordsOrZeroSnoc(data[..], start, j);
      if w.Some? {
        ws := ws + [w.value];
        pos := pos + 4;
      } else {
        ws := ws + [ZERO_F32];
      }
    }
  }

  /** The dispatch on one descriptor's type tag. */
  method ApplyDescriptor(data: array<u8>, numVertices: u32, attrs: Attributes, va: VertexArray)
    returns (r: Result<Attributes>)
    ensures r == ApplyVertexArray(data[..], numVertices, attrs, va)
  {
    if va.vaType == Position.Tag() {
      if !HasLayout(va, Float, 3) {
        return Err(BadLayout);
      }
      if numVertices * 3 > U32_MAX {
        return Err(Overflow);
      }
      var ws := ReadStrict(data, va.offset, numVertices * 3);
      if ws.Err? {
        return Err(ws.error);
      }
      r := Ok(attrs.(positions := attrs.positions + ws.value));
    } else if va.vaType == TexCoord.Tag() {
      if !HasLayout(va, Float, 2) {
        return Err(BadLayout);
      }
      if numVertices * 2 > U32_MAX {
        return Err(Overflow);
      }
      var ws := ReadTolerant(data, va.offset, numVertices * 2);
      r := Ok(attrs.(texCoords := attrs.texCoords + ws));
    } else if va.vaType == Normal.Tag() {
      if !HasLayout(va, Float, 3) {
        return Err(BadLayout);
      }
      if numVertices * 3 > U32_MAX {
        return Err(Overflow);
      }
      var ws := ReadTolerant(data, va.offset, numVertices * 3);
      r := Ok(attrs.(normals := attrs.normals + ws));
    } else {
      r := Ok(attrs);
    }
  }

  /** Descriptor `i`: seek to `ofsVertexArrays + i * 20` (a u32 sum), then
      five reads. */
  method ReadDescriptor(data: array<u8>, h: Header, i: nat) returns (r: Result<VertexArray>)
    ensures r == ReadVertexArray(data[..], h, i)
  {
    var at := h.ofsVertexArrays + i * SIZE_OF_VA_STRUCT;
    if at > U32_MAX {
      return Err(Overflow);
    }
    var f := ReadStrict(data, at, 5);
    if f.Err? {
      return Err(f.error);
    }
    r := Ok(VertexArray(f.value[0], f.value[1], f.value[2], f.value[3], f.value[4]));
  }

  /** The vertex-array stage: seek to each descriptor, read its five words,
      apply it. */
  method ReadVertexArrays(data: array<u8>, h: Header) returns (r: Result<Attributes>)
    ensures r == LoadVertexArrays(data[..], h, h.numVertexArrays)
  {
    var attrs := Attributes([], [], []);
    for i := 0 to h.numVertexArrays
      invariant LoadVertexArrays(data[..], h, i) == Ok(attrs)
    {
      var va := ReadDescriptor(data, h, i);
      if va.Err? {
        LoadVertexArraysErrorSticky(data[..], h, i + 1, h.numVertexArrays);
        return Err(va.error);
      }
      var next := ApplyDescriptor(data, h.numVertices, attrs, va.value);
      if next.Err? {
        LoadVertexArraysErrorSticky(data[..], h, i + 1, h.numVertexArrays);
        return Err(next.error);
      }
      attrs := next.value;
    }
    r := Ok(attrs);
  }

  /** The triangle stage: seek to `ofsTriangles`, then three reads per
      triangle. */
  method ReadTriangleIndices(data: array<u8>, h: Header) returns (r: Result<seq<u32>>)
    ensures r == ReadTriangles(data[..], h)
  {
    var indices := [];
    var pos: int := h.ofsTriangles;
    for i := 0 to h.numTriangles
      invariant |indices| == 3 * i
      invariant pos == h.ofsTriangles + 4 * |indices| && (|indices| == 0 || pos <= data.Length)
      invariant indices == ReadWords(data[..], h.ofsTriangles, |indices|).value
    {
      for j := 0 to 3
        invariant |indices| == 3 * i + j
        invariant pos == h.ofsTriangles + 4 * |indices| && (|indices| == 0 || pos <= data.Length)
        invariant indices == ReadWords(data[..], h.ofsTriangles, |indices|).value
      {
        var w := ReadU32(data, pos);
        if w.None? {
          return Err(Truncated);
        }
        ReadWordsSnoc(data[..], h.ofsTriangles, |indices|);
        indices := indices + [w.value];
        pos := pos + 4;
      }
    }
    // The count check after the loop can never fail.
    assert |indices| / 3 == h.numTriangles;
    r := Ok(indices);
  }

  /** The vertex loop of one mesh. */
  method CollectVertices(attrs: Attributes, first: u32, count: u32) returns (r: Result<seq<Vertex>>)
    ensures r == GatherVertices(attrs, first, count)
  {
    var vertData := [];
    for j := 0 to count
      invariant GatherVertices(attrs, first, j) == Ok(vertData)
    {
      // The u32 sum `first + j` cannot overflow once vertex j - 1 was gathered.
      VertexIdFits(attrs, first, j);
      var id: u32 := first + j;
      // The eight separate indexings, taken as runs of three, two and three;
      // FetchRunIsSequential shows a run is the same indexings one by one.
      var v := GatherVertex(attrs, id);
      if v.Err? {
        GatherVerticesErrorSticky(attrs, first, j + 1, count);
        return Err(v.error);
      }
      vertData := vertData + [v.value];
    }
    r := Ok(vertData);
  }

  /** The index loop of one mesh: three pushes per triangle, indices copied
      unchanged. */
  method CollectIndices(indices: seq<u32>, first: u32, count: u32) returns (r: Result<seq<u32>>)
    ensures r == GatherIndices(indices, first, count)
  {
    var idxData := [];
    for j := 0 to count
      invariant GatherIndices(indices, first, j) == Ok(idxData)
    {
      // The u32 sum `first + j` cannot overflow once triangle j - 1 was copied.
      TriangleIdFits(indices, first, j);
      var id: u32 := first + j;
      // The three separate indexings as one run; FetchRunIsSequential shows
      // it equals them one by one, first error included.
      var t := FetchRun(indices, 3 * id, 3);
      if t.Err? {
        GatherIndicesErrorSticky(indices, first, j + 1, count);
        return Err(t.error);
      }
      idxData := idxData + t.value;
    }
    r := Ok(idxData);
  }

  /** One mesh record at cursor position `pos`: skip the name and material
      words, then read four words. */
  method ReadMeshRecordAt(data: array<u8>, pos: int) returns (r: Result<MeshRecord>)
    ensures r == ReadMeshRecord(data[..], pos)
  {
    var at := pos + MESH_SKIP;
    var firstVertex := ReadU32(data, at);
    if firstVertex.None? {
      return Err(Truncated);
    }
    at := at + 4;
    var numVertices := ReadU32(data, at);
    if numVertices.None? {
      return Err(Truncated);
    }
    at := at + 4;
    var firstTriangle := ReadU32(data, at);
    if firstTriangle.None? {
      return Err(Truncated);
    }
    at := at + 4;
    var numTriangles := ReadU32(data, at);
    if numTriangles.None? {
      return Err(Truncated);
    }
    r := Ok(MeshRecord(firstVertex.value, numVertices.value, firstTriangle.value, numTriangles.value));
  }

  /** The output mesh of one record: its vertex loop, then its index loop. */
  method AssembleMesh(attrs: Attributes, indices: seq<u32>, rec: MeshRecord) returns (r: Result<Mesh>)
    ensures r == BuildMesh(attrs, indices, rec)
  {
    var vertData := CollectVertices(attrs, rec.firstVertex, rec.numVertices);
    if vertData.Err? {
      return Err(vertData.error);
    }
    var idxData := CollectIndices(indices, rec.firstTriangle, rec.numTriangles);
    if idxData.Err? {
      return Err(idxData.error);
    }
    r := Ok(Mesh(vertData.value, idxData.value));
  }

  /** One pass of the mesh loop, with the cursor at record `k`: read the
      record, then gather its vertices and indices. */
  method ReadMesh(data: array<u8>, h: Header, attrs: Attributes, indices: seq<u32>, k: nat, pos: int)
    returns (r: Result<Mesh>)
    requires pos == h.ofsMeshes + k * SIZE_OF_MESH_STRUCT
    ensures r == MeshAt(data[..], h, attrs, indices, k)
  {
    var rec := ReadMeshRecordAt(data, pos);
    if rec.Err? {
      return Err(rec.error);
    }
    r := AssembleMesh(attrs, indices, rec.value);
  }

  /** The mesh stage: seek to `ofsMeshes`; per record skip 8 bytes, read
      four words, gather its vertices and indices, push the mesh. */
  method ReadMeshes(data: array<u8>, h: Header, attrs: Attributes, indices: seq<u32>)
    returns (r: Result<seq<Mesh>>)
    ensures r == LoadMeshes(data[..], h, attrs, indices, h.numMeshes)
  {
    var meshes := [];
    var pos: int := h.ofsMeshes;
    for k := 0 to h.numMeshes
      invariant pos == h.ofsMeshes + k * SIZE_OF_MESH_STRUCT
      invariant LoadMeshes(data[..], h, attrs, indices, k) == Ok(meshes)
    {
      var mesh := ReadMesh(data, h, attrs, indices, k, pos);
      if mesh.Err? {
        LoadMeshesErrorSticky(data[..], h, attrs, indices, k + 1, h.numMeshes);
        return Err(mesh.error);
      }
      pos := pos + SIZE_OF_MESH_STRUCT;
      meshes := meshes + [mesh.value];
    }
    r := Ok(meshes);
  }

  /** `load_iqm`: decode an IQM version 2 buffer into one (vertices,
      indices) pair per mesh, or the error that aborts it. */
  method LoadIqm(data: array<u8>) returns (r: Result<seq<Mesh>>)
    ensures r == Decode(data[..])
  {
    var header := ReadHeader(data);
    if header.Err? {
      return Err(header.error);
    }
    var h := header.value;
    var attrs := ReadVertexArrays(data, h);
    if attrs.Err? {
      return Err(attrs.error);
    }
    var indices := ReadTriangleIndices(data, h);
    if indices.Err? {
      return Err(indices.error);
    }
    r := ReadMeshes(data, h, attrs.value, indices.value);
  }
}
