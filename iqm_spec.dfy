/**
  The reference decoder: what `load_iqm` computes from a byte buffer, stage
  by stage, as pure functions. Each stage that the source runs as a `for`
  loop is a fold over a prefix of its range (`count` steps), so that the
  loader's loops can be proved against it one step at a time.
 */
module IqmSpec {
  import opened IqmFormat

  /** The seven header words the reader uses. */
  datatype Header = Header(
    numMeshes: u32,
    ofsMeshes: u32,
    numVertexArrays: u32,
    numVertices: u32,
    ofsVertexArrays: u32,
    numTriangles: u32,
    ofsTriangles: u32)

  /** One 20-byte vertex-array descriptor. */
  datatype VertexArray = VertexArray(vaType: u32, flags: u32, format: u32, size: u32, offset: u32)

  /** The three attribute lists the reader fills (flat, one word per component). */
  datatype Attributes = Attributes(positions: seq<u32>, texCoords: seq<u32>, normals: seq<u32>)

  /** The four words of a mesh record the reader uses. */
  datatype MeshRecord = MeshRecord(firstVertex: u32, numVertices: u32, firstTriangle: u32, numTriangles: u32)

  /** One interleaved output vertex: 3 position, 2 texcoord and 3 normal words. */
  datatype Vertex = Vertex(position: seq<u32>, texCoord: seq<u32>, normal: seq<u32>)

  /** One output mesh: its vertex list and its index list. */
  datatype Mesh = Mesh(vertices: seq<Vertex>, indices: seq<u32>)

  // ---------------------------------------------------------------------
  // Header

  /** How many bytes the first read of the cursor copies: all of the
      buffer, up to 16. */
  function MagicLength(data: seq<u8>): nat {
    if |data| < |MAGIC| then |data| else |MAGIC|
  }

  /** The 16-byte buffer after the first read: zero-initialised, then
      overwritten by the bytes the read copied. */
  function MagicRead(data: seq<u8>): (m: seq<u8>)
    ensures |m| == |MAGIC|
    ensures m[..MagicLength(data)] == data[..MagicLength(data)]
    ensures forall k :: MagicLength(data) <= k < |MAGIC| ==> m[k] == 0
  {
    data[..MagicLength(data)] + seq(|MAGIC| - MagicLength(data), _ => 0)
  }

  /** Signature check, version check, 16 skipped bytes, then seven words. */
  function ParseHeader(data: seq<u8>): Result<Header> {
    if MagicRead(data) != MAGIC then Err(BadMagic)
    else match LeU32(data, MagicLength(data))
      case None => Err(Truncated)
      case Some(version) =>
        if version != VERSION then Err(BadVersion)
        else match ReadWords(data, MagicLength(data) + 4 + HEADER_SKIP, 7)
          case Err(e) => Err(e)
          case Ok(f) => Ok(Header(f[0], f[1], f[2], f[3], f[4], f[5], f[6]))
  }

  // ---------------------------------------------------------------------
  // Vertex arrays

  /** Descriptor `i`, read at `ofsVertexArrays + i * 20`; the address is a
      u32 computation, so an overflow aborts. */
  function ReadVertexArray(data: seq<u8>, h: Header, i: nat): Result<VertexArray> {
    var at := h.ofsVertexArrays + i * SIZE_OF_VA_STRUCT;
    if at > U32_MAX then Err(Overflow)
    else match ReadWords(data, at, 5)
      case Err(e) => Err(e)
      case Ok(f) => Ok(VertexArray(f[0], f[1], f[2], f[3], f[4]))
  }

  /** Whether a descriptor declares the given component format and size. */
  predicate HasLayout(va: VertexArray, format: VertexArrayFormat, size: u32) {
    va.format == format.Tag() && va.size == size
  }

  /** The effect of one descriptor on the attribute lists. Positions are
      read strictly; texcoords and normals substitute zero for a failed read;
      every other type tag is ignored. The element count
      `numVertices * va.size` is a u32 product (va.size is fixed by the
      layout check at that point). */
  function ApplyVertexArray(data: seq<u8>, numVertices: u32, attrs: Attributes, va: VertexArray): Result<Attributes> {
    if va.vaType == Position.Tag() then
      if !HasLayout(va, Float, 3) then Err(BadLayout)
      else if numVertices * 3 > U32_MAX then Err(Overflow)
      else match ReadWords(data, va.offset, numVertices * 3)
        case Err(e) => Err(e)
        case Ok(ws) => Ok(attrs.(positions := attrs.positions + ws))
    else if va.vaType == TexCoord.Tag() then
      if !HasLayout(va, Float, 2) then Err(BadLayout)
      else if numVertices * 2 > U32_MAX then Err(Overflow)
      else Ok(attrs.(texCoords := attrs.texCoords + ReadWordsOrZero(data, va.offset, numVertices * 2)))
    else if va.vaType == Normal.Tag() then
      if !HasLayout(va, Float, 3) then Err(BadLayout)
      else if numVertices * 3 > U32_MAX then Err(Overflow)
      else Ok(attrs.(normals := attrs.normals + ReadWordsOrZero(data, va.offset, numVertices * 3)))
    else Ok(attrs)
  }

  /** The attribute lists after the first `count` descriptors. */
  function LoadVertexArrays(data: seq<u8>, h: Header, count: nat): Result<Attributes>
    decreases count
  {
    if count == 0 then Ok(Attributes([], [], []))
    else match LoadVertexArrays(data, h, count - 1)
      case Err(e) => Err(e)
      case Ok(attrs) =>
        match ReadVertexArray(data, h, count - 1)
        case Err(e) => Err(e)
        case Ok(va) => ApplyVertexArray(data, h.numVertices, attrs, va)
  }

  // ---------------------------------------------------------------------
  // Triangles

  /** The global index list: three words per triangle from `ofsTriangles`. */
  function ReadTriangles(data: seq<u8>, h: Header): Result<seq<u32>> {
    ReadWords(data, h.ofsTriangles, 3 * h.numTriangles)
  }

  // ---------------------------------------------------------------------
  // Meshes

  /** A mesh record at byte position `pos`: 8 skipped bytes, then four words. */
  function ReadMeshRecord(data: seq<u8>, pos: int): Result<MeshRecord> {
    match ReadWords(data, pos + MESH_SKIP, 4)
    case Err(e) => Err(e)
    case Ok(f) => Ok(MeshRecord(f[0], f[1], f[2], f[3]))
  }

  /** One indexing `list[i]`, where `i` was computed in u32 arithmetic. */
  function Fetch(list: seq<u32>, i: nat): Result<u32> {
    if i > U32_MAX then Err(Overflow)
    else if i >= |list| then Err(OutOfRange)
    else Ok(list[i])
  }

  /** `list[start]`, `list[start + 1]`, ... `count` indexings evaluated in
      order, stopping at the first that fails. */
  function FetchEach(list: seq<u32>, start: nat, count: nat): Result<seq<u32>>
    decreases count
  {
    if count == 0 then Ok([])
    else match Fetch(list, start)
      case Err(e) => Err(e)
      case Ok(x) =>
        match FetchEach(list, start + 1, count - 1)
        case Err(e) => Err(e)
        case Ok(xs) => Ok([x] + xs)
  }

  /** The same `count` indexings in closed form: an index is rejected when
      it reaches `min(|list|, 2^32)`, and the first rejected index of the run
      decides the error. */
  function FetchRun(list: seq<u32>, start: nat, count: nat): Result<seq<u32>> {
    var limit := if |list| <= U32_MAX then |list| else U32_MAX + 1;
    var firstBad := if start > limit then start else limit;
    if count == 0 then Ok([])
    else if start + count <= firstBad then Ok(list[start..start + count])
    else if firstBad > U32_MAX then Err(Overflow)
    else Err(OutOfRange)
  }

  /** The vertex with global id `id`, gathered field by field in the order
      the vertex literal is written. */
  function GatherVertex(attrs: Attributes, id: u32): Result<Vertex> {
    match FetchRun(attrs.positions, 3 * id, 3)
    case Err(e) => Err(e)
    case Ok(p) =>
      match FetchRun(attrs.texCoords, 2 * id, 2)
      case Err(e) => Err(e)
      case Ok(t) =>
        match FetchRun(attrs.normals, 3 * id, 3)
        case Err(e) => Err(e)
        case Ok(n) => Ok(Vertex(p, t, n))
  }

  /** The vertices `first`, `first + 1`, ... of a mesh: the first `count`
      steps of the vertex loop, whose id `first + j` is a u32 sum. */
  function GatherVertices(attrs: Attributes, first: u32, count: nat): Result<seq<Vertex>>
    decreases count
  {
    if count == 0 then Ok([])
    else match GatherVertices(attrs, first, count - 1)
      case Err(e) => Err(e)
      case Ok(vs) =>
        var id := first + (count - 1);
        if id > U32_MAX then Err(Overflow)
        else match GatherVertex(attrs, id)
          case Err(e) => Err(e)
          case Ok(v) => Ok(vs + [v])
  }

  /** The indices of the triangles `first`, `first + 1`, ... of a mesh,
      copied from the global index list without change: the first `count`
      steps of the index loop. */
  function GatherIndices(indices: seq<u32>, first: u32, count: nat): Result<seq<u32>>
    decreases count
  {
    if count == 0 then Ok([])
    else match GatherIndices(indices, first, count - 1)
      case Err(e) => Err(e)
      case Ok(xs) =>
        var id := first + (count - 1);
        if id > U32_MAX then Err(Overflow)
        else match FetchRun(indices, 3 * id, 3)
          case Err(e) => Err(e)
          case Ok(t) => Ok(xs + t)
  }

  /** The output mesh for one record: vertices first, then indices. */
  function BuildMesh(attrs: Attributes, indices: seq<u32>, rec: MeshRecord): Result<Mesh> {
    match GatherVertices(attrs, rec.firstVertex, rec.numVertices)
    case Err(e) => Err(e)
    case Ok(vs) =>
      match GatherIndices(indices, rec.firstTriangle, rec.numTriangles)
      case Err(e) => Err(e)
      case Ok(xs) => Ok(Mesh(vs, xs))
  }

  /** Mesh `k`: the cursor starts at `ofsMeshes` and each record consumes
      24 bytes, so record `k` sits at `ofsMeshes + 24 * k`. */
  function MeshAt(data: seq<u8>, h: Header, attrs: Attributes, indices: seq<u32>, k: nat): Result<Mesh> {
    match ReadMeshRecord(data, h.ofsMeshes + k * SIZE_OF_MESH_STRUCT)
    case Err(e) => Err(e)
    case Ok(rec) => BuildMesh(attrs, indices, rec)
  }

  /** The first `count` output meshes. */
  function LoadMeshes(data: seq<u8>, h: Header, attrs: Attributes, indices: seq<u32>, count: nat): Result<seq<Mesh>>
    decreases count
  {
    if count == 0 then Ok([])
    else match LoadMeshes(data, h, attrs, indices, count - 1)
      case Err(e) => Err(e)
      case Ok(ms) =>
        match MeshAt(data, h, attrs, indices, count - 1)
        case Err(e) => Err(e)
        case Ok(m) => Ok(ms + [m])
  }

  // ---------------------------------------------------------------------
  // The whole decoder

  /** `load_iqm`: header, vertex arrays, triangles, meshes, in that order. */
  function Decode(data: seq<u8>): Result<seq<Mesh>> {
    match ParseHeader(data)
    case Err(e) => Err(e)
    case Ok(h) =>
      match LoadVertexArrays(data, h, h.numVertexArrays)
      case Err(e) => Err(e)
      case Ok(attrs) =>
        match ReadTriangles(data, h)
        case Err(e) => Err(e)
        case Ok(indices) => LoadMeshes(data, h, attrs, indices, h.numMeshes)
  }

  // ---------------------------------------------------------------------
  // Errors stop every loop: once a prefix of a loop has failed, the whole
  // loop fails with the same error.

  lemma {:induction false} LoadVertexArraysErrorSticky(data: seq<u8>, h: Header, i: nat, count: nat)
    requires i <= count
    requires LoadVertexArrays(data, h, i).Err?
    ensures LoadVertexArrays(data, h, count) == LoadVertexArrays(data, h, i)
    decreases count
  {
    if count > i {
      LoadVertexArraysErrorSticky(data, h, i, count - 1);
    }
  }

  lemma {:induction false} GatherVerticesErrorSticky(attrs: Attributes, first: u32, i: nat, count: nat)
    requires i <= count
    requires GatherVertices(attrs, first, i).Err?
    ensures GatherVertices(attrs, first, count) == GatherVertices(attrs, first, i)
    decreases count
  {
    if count > i {
      GatherVerticesErrorSticky(attrs, first, i, count - 1);
    }
  }

  lemma {:induction false} GatherIndicesErrorSticky(indices: seq<u32>, first: u32, i: nat, count: nat)
    requires i <= count
    requires GatherIndices(indices, first, i).Err?
    ensures GatherIndices(indices, first, count) == GatherIndices(indices, first, i)
    decreases count
  {
    if count > i {
      GatherIndicesErrorSticky(indices, first, i, count - 1);
    }
  }

  lemma {:induction false} LoadMeshesErrorSticky(data: seq<u8>, h: Header, attrs: Attributes, indices: seq<u32>, i: nat, count: nat)
    requires i <= count
    requires LoadMeshes(data, h, attrs, indices, i).Err?
    ensures LoadMeshes(data, h, attrs, indices, count) == LoadMeshes(data, h, attrs, indices, i)
    decreases count
  {
    if count > i {
      LoadMeshesErrorSticky(data, h, attrs, indices, i, count - 1);
    }
  }
}
