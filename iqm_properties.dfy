/**
  What the reference decoder promises, proved about it: where the header
  and each descriptor come from, what each kind of vertex array adds to the
  attribute lists, what the index list holds, and what every output mesh
  is, in closed form.
 */
module IqmProperties {
  import opened IqmFormat
  import opened IqmSpec

  // ---------------------------------------------------------------------
  // Header

  /** Nothing is examined before the signature: a buffer whose first read
      does not give MAGIC fails with BadMagic whatever follows, and for a
      buffer of 16 bytes or more that read is its first 16 bytes. */
  lemma MagicCheckedFirst(data: seq<u8>)
    ensures MagicRead(data) != MAGIC ==> Decode(data) == Err(BadMagic)
    ensures |data| >= 16 ==> (MagicRead(data) == MAGIC <==> data[..16] == MAGIC)
  {
    if |data| >= 16 {
      assert MagicRead(data) == data[..16];
    }
  }

  /** A buffer shorter than 20 bytes never decodes: it fails on the
      signature or on the version read. */
  lemma ShortBufferRejected(data: seq<u8>)
    requires |data| < 20
    ensures Decode(data) == Err(BadMagic) || Decode(data) == Err(Truncated)
  {
  }

  /** The first read is partial: a 15-byte buffer holding the signature
      without its final zero byte still matches, because the zeroed buffer
      supplies that byte; it then fails on the version read. */
  lemma UnterminatedSignatureMatches()
    ensures MagicRead(MAGIC[..15]) == MAGIC
    ensures Decode(MAGIC[..15]) == Err(Truncated)
  {
    assert MagicRead(MAGIC[..15]) == MAGIC[..15] + [0];
  }

  /** A buffer shorter than 16 bytes passes the signature check exactly
      when it is the 15 signature bytes before the final zero: the zeroed
      tail of the read buffer supplies that zero, and only that one. */
  lemma ShortSignatureMatches(data: seq<u8>)
    requires |data| < |MAGIC|
    ensures MagicRead(data) == MAGIC <==> data == MAGIC[..15]
  {
    var m := MagicRead(data);
    if data == MAGIC[..15] {
      assert m == MAGIC[..15] + [0];
    } else if |data| == 15 {
      assert m[..15] == data;
      assert m[..15] != MAGIC[..15];
    } else {
      assert m[14] == 0 != MAGIC[14];
    }
  }

  /** After a matching signature, a version word other than 2 fails with
      BadVersion. */
  lemma VersionChecked(data: seq<u8>)
    requires |data| >= 20 && data[..16] == MAGIC
    requires LeU32(data, 16) != Some(VERSION)
    ensures Decode(data) == Err(BadVersion)
  {
    MagicCheckedFirst(data);
  }

  /** The header parses exactly when the signature and version match and
      the buffer holds the seven words after the 16 skipped bytes; those
      words are read at 36, 40, ..., 60 in this order. */
  lemma HeaderLayout(data: seq<u8>)
    ensures ParseHeader(data).Ok? <==>
      |data| >= 64 && data[..16] == MAGIC && LeU32(data, 16) == Some(VERSION)
    ensures ParseHeader(data).Ok? ==> ParseHeader(data).value == Header(
      LeU32(data, 36).value, LeU32(data, 40).value, LeU32(data, 44).value, LeU32(data, 48).value,
      LeU32(data, 52).value, LeU32(data, 56).value, LeU32(data, 60).value)
  {
    MagicCheckedFirst(data);
    if ParseHeader(data).Ok? {
      assert |data| >= 16;
    }
  }

  // ---------------------------------------------------------------------
  // Vertex-array descriptors

  /** Descriptor `i` is the five words at `ofsVertexArrays + 20 * i`; it
      depends on nothing but the header and the buffer. */
  lemma DescriptorAt(data: seq<u8>, h: Header, i: nat)
    ensures var at := h.ofsVertexArrays + 20 * i;
      ReadVertexArray(data, h, i) ==
        if at > U32_MAX then Err(Overflow)
        else if at + 20 > |data| then Err(Truncated)
        else Ok(VertexArray(LeU32(data, at).value, LeU32(data, at + 4).value, LeU32(data, at + 8).value,
                            LeU32(data, at + 12).value, LeU32(data, at + 16).value))
  {
  }

  /** A position array must be Float x 3; it then adds exactly
      `3 * numVertices` words, read strictly and in file order from its
      offset, and leaves the other lists alone. */
  lemma PositionArrayLoaded(data: seq<u8>, numVertices: u32, attrs: Attributes, va: VertexArray)
    requires va.vaType == Position.Tag()
    ensures !HasLayout(va, Float, 3) ==> ApplyVertexArray(data, numVertices, attrs, va) == Err(BadLayout)
    ensures HasLayout(va, Float, 3) && 3 * numVertices > U32_MAX ==>
      ApplyVertexArray(data, numVertices, attrs, va) == Err(Overflow)
    ensures HasLayout(va, Float, 3) && 3 * numVertices <= U32_MAX ==>
      var r := ApplyVertexArray(data, numVertices, attrs, va);
      (r.Ok? <==> numVertices == 0 || va.offset + 12 * numVertices <= |data|) &&
      (r.Err? ==> r.error == Truncated) &&
      (r.Ok? ==>
        r.value.texCoords == attrs.texCoords && r.value.normals == attrs.normals &&
        |r.value.positions| == |attrs.positions| + 3 * numVertices &&
        r.value.positions[..|attrs.positions|] == attrs.positions &&
        forall k :: 0 <= k < 3 * numVertices ==>
          r.value.positions[|attrs.positions| + k] == LeU32(data, va.offset + 4 * k).value)
  {
  }

  /** A texcoord (Float x 2) or normal (Float x 3) array must have its
      layout; it then always adds exactly `size * numVertices` words: word
      k comes from the file when its four bytes lie in the buffer and is
      zero otherwise, so after the first failed read every word is zero.
      The other lists are left alone. */
  lemma OptionalArrayLoaded(data: seq<u8>, numVertices: u32, attrs: Attributes, va: VertexArray)
    requires va.vaType == TexCoord.Tag() || va.vaType == Normal.Tag()
    ensures var size := if va.vaType == TexCoord.Tag() then 2 else 3;
      var r := ApplyVertexArray(data, numVertices, attrs, va);
      var before := if va.vaType == TexCoord.Tag() then attrs.texCoords else attrs.normals;
      (!HasLayout(va, Float, size) ==> r == Err(BadLayout)) &&
      (HasLayout(va, Float, size) && size * numVertices > U32_MAX ==> r == Err(Overflow)) &&
      (HasLayout(va, Float, size) && size * numVertices <= U32_MAX ==>
        r.Ok? && r.value.positions == attrs.positions &&
        var after := if va.vaType == TexCoord.Tag() then r.value.texCoords else r.value.normals;
        (if va.vaType == TexCoord.Tag() then r.value.normals == attrs.normals else r.value.texCoords == attrs.texCoords) &&
        |after| == |before| + size * numVertices &&
        after[..|before|] == before &&
        forall k :: 0 <= k < size * numVertices ==>
          after[|before| + k] ==
            if va.offset + 4 * k + 4 <= |data| then LeU32(data, va.offset + 4 * k).value else ZERO_F32)
  {
  }

  /** A descriptor whose type tag is not position, texcoord or normal is
      ignored. */
  lemma OtherArraysIgnored(data: seq<u8>, numVertices: u32, attrs: Attributes, va: VertexArray)
    requires va.vaType >= 3
    ensures ApplyVertexArray(data, numVertices, attrs, va) == Ok(attrs)
  {
  }

  /** The attribute lists only ever grow: the lists after `i` descriptors
      are prefixes of the lists after `j >= i` descriptors. */
  lemma {:induction false} VertexArraysOnlyAppend(data: seq<u8>, h: Header, i: nat, j: nat)
    requires i <= j
    requires LoadVertexArrays(data, h, j).Ok?
    ensures LoadVertexArrays(data, h, i).Ok?
    ensures var a, b := LoadVertexArrays(data, h, i).value, LoadVertexArrays(data, h, j).value;
      a.positions <= b.positions && a.texCoords <= b.texCoords && a.normals <= b.normals
    decreases j
  {
    if i < j {
      VertexArraysOnlyAppend(data, h, i, j - 1);
    }
  }

  /** A list that no descriptor targets stays empty: without a texcoord
      (normal) descriptor among the first `count`, the texcoord (normal)
      list after them is empty. */
  lemma {:induction false} UntargetedListsStayEmpty(data: seq<u8>, h: Header, count: nat)
    requires LoadVertexArrays(data, h, count).Ok?
    ensures (forall i :: 0 <= i < count && ReadVertexArray(data, h, i).Ok? ==>
               ReadVertexArray(data, h, i).value.vaType != TexCoord.Tag()) ==>
            LoadVertexArrays(data, h, count).value.texCoords == []
    ensures (forall i :: 0 <= i < count && ReadVertexArray(data, h, i).Ok? ==>
               ReadVertexArray(data, h, i).value.vaType != Normal.Tag()) ==>
            LoadVertexArrays(data, h, count).value.normals == []
    decreases count
  {
    if count > 0 {
      var prev := LoadVertexArrays(data, h, count - 1);
      assert prev.Ok?;
      UntargetedListsStayEmpty(data, h, count - 1);
      var va := ReadVertexArray(data, h, count - 1);
      assert va.Ok?;
      assert LoadVertexArrays(data, h, count) == ApplyVertexArray(data, h.numVertices, prev.value, va.value);
    }
  }

  /** Descriptor `i` reads, and applying it to empty lists succeeds. */
  predicate DescriptorApplies(data: seq<u8>, h: Header, i: nat) {
    ReadVertexArray(data, h, i).Ok?
    && ApplyVertexArray(data, h.numVertices, Attributes([], [], []), ReadVertexArray(data, h, i).value).Ok?
  }

  /** Whether a descriptor applies, and with which error it fails, does not
      depend on the lists it appends to. */
  lemma ApplyOutcomeIndependent(data: seq<u8>, numVertices: u32, a: Attributes, b: Attributes, va: VertexArray)
    ensures ApplyVertexArray(data, numVertices, a, va).Ok? <==> ApplyVertexArray(data, numVertices, b, va).Ok?
    ensures ApplyVertexArray(data, numVertices, a, va).Err? ==>
      ApplyVertexArray(data, numVertices, a, va) == ApplyVertexArray(data, numVertices, b, va)
  {
  }

  /** The descriptor loop succeeds exactly when every descriptor it visits
      reads and applies. */
  lemma {:induction false} LoadVertexArraysOk(data: seq<u8>, h: Header, count: nat)
    ensures LoadVertexArrays(data, h, count).Ok? <==> forall i :: 0 <= i < count ==> DescriptorApplies(data, h, i)
    decreases count
  {
    if count > 0 {
      LoadVertexArraysOk(data, h, count - 1);
      var prev := LoadVertexArrays(data, h, count - 1);
      if prev.Ok? {
        var va := ReadVertexArray(data, h, count - 1);
        if va.Ok? {
          ApplyOutcomeIndependent(data, h.numVertices, prev.value, Attributes([], [], []), va.value);
        }
        assert LoadVertexArrays(data, h, count).Ok? <==> DescriptorApplies(data, h, count - 1);
      } else {
        var i :| 0 <= i < count - 1 && !DescriptorApplies(data, h, i);
        assert !DescriptorApplies(data, h, i);
      }
    }
  }

  // ---------------------------------------------------------------------
  // Triangles

  /** The global index list is the `3 * numTriangles` words from
      `ofsTriangles`, and a short buffer fails. */
  lemma TrianglesLoaded(data: seq<u8>, h: Header)
    ensures ReadTriangles(data, h).Ok? <==>
      h.numTriangles == 0 || h.ofsTriangles + 12 * h.numTriangles <= |data|
    ensures ReadTriangles(data, h).Err? ==> ReadTriangles(data, h).error == Truncated
    ensures ReadTriangles(data, h).Ok? ==>
      |ReadTriangles(data, h).value| == 3 * h.numTriangles &&
      forall k :: 0 <= k < 3 * h.numTriangles ==>
        ReadTriangles(data, h).value[k] == LeU32(data, h.ofsTriangles + 4 * k).value
  {
  }

  // ---------------------------------------------------------------------
  // Gathering

  /** The closed form of a run of indexings is exactly their step-by-step
      evaluation: same values, same first error. */
  lemma {:induction false} FetchRunIsSequential(list: seq<u32>, start: nat, count: nat)
    ensures FetchRun(list, start, count) == FetchEach(list, start, count)
    decreases count
  {
    if count > 0 {
      FetchRunIsSequential(list, start + 1, count - 1);
      if start < |list| && start <= U32_MAX {
        // the first indexing succeeds; the rest decide the outcome
        assert Fetch(list, start) == Ok(list[start]);
        if start + count <= |list| && start + count - 1 <= U32_MAX {
          assert list[start..start + count] == [list[start]] + list[start + 1..start + count];
        }
      }
    }
  }

  /** `count` consecutive indexings from `start` succeed exactly when every
      index fits a u32 and lies in the list; they then give that slice. */
  lemma FetchRunSpec(list: seq<u32>, start: nat, count: nat)
    ensures FetchRun(list, start, count).Ok? <==>
      count == 0 || (start + count - 1 <= U32_MAX && start + count <= |list|)
    ensures FetchRun(list, start, count).Ok? && count > 0 ==>
      FetchRun(list, start, count).value == list[start..start + count]
  {
  }

  /** Whether the vertex with global id `id` can be gathered: its three
      position, two texcoord and three normal words exist and their indices
      fit a u32. */
  predicate VertexInRange(attrs: Attributes, id: nat) {
    3 * id + 2 <= U32_MAX &&
    3 * id + 3 <= |attrs.positions| &&
    2 * id + 2 <= |attrs.texCoords| &&
    3 * id + 3 <= |attrs.normals|
  }

  /** The vertex with global id `id`, read off the attribute lists. */
  function VertexOf(attrs: Attributes, id: nat): Vertex
    requires VertexInRange(attrs, id)
  {
    Vertex(attrs.positions[3 * id..3 * id + 3], attrs.texCoords[2 * id..2 * id + 2], attrs.normals[3 * id..3 * id + 3])
  }

  /** Gathering one vertex succeeds exactly when it is in range, and then
      gives its slices of the three lists. */
  lemma GatherVertexSpec(attrs: Attributes, id: u32)
    ensures GatherVertex(attrs, id).Ok? <==> VertexInRange(attrs, id)
    ensures GatherVertex(attrs, id).Ok? ==> GatherVertex(attrs, id).value == VertexOf(attrs, id)
  {
    FetchRunSpec(attrs.positions, 3 * id, 3);
    FetchRunSpec(attrs.texCoords, 2 * id, 2);
    FetchRunSpec(attrs.normals, 3 * id, 3);
  }

  /** `vs` holds the consecutive global vertices `first`, `first + 1`, ...:
      global vertex `id` of the range sits at position `id - first`. */
  ghost predicate VerticesFrom(attrs: Attributes, first: nat, vs: seq<Vertex>) {
    forall id :: first <= id < first + |vs| ==>
      VertexInRange(attrs, id) && vs[id - first] == VertexOf(attrs, id)
  }

  /** The vertex loop of a mesh succeeds exactly when its last vertex is in
      range, and then yields one vertex per step. */
  lemma {:induction false} GatherVerticesShape(attrs: Attributes, first: u32, count: nat)
    ensures var r := GatherVertices(attrs, first, count);
      (r.Ok? <==> count == 0 || VertexInRange(attrs, first + count - 1)) &&
      (r.Ok? ==> |r.value| == count)
    decreases count
  {
    if count > 0 {
      GatherVerticesShape(attrs, first, count - 1);
      var prev := GatherVertices(attrs, first, count - 1);
      var last := first + (count - 1);
      if prev.Ok? {
        // the previous vertex already needed `3 * (last - 1) + 2` to fit
        assert last <= U32_MAX;
        GatherVertexSpec(attrs, last);
        var v := GatherVertex(attrs, last);
        if v.Ok? {
          assert GatherVertices(attrs, first, count) == Ok(prev.value + [v.value]);
        } else {
          assert GatherVertices(attrs, first, count) == Err(v.error);
        }
      } else {
        assert GatherVertices(attrs, first, count) == Err(prev.error);
      }
    }
  }

  /** A successful vertex loop of `count > 0` steps is a successful loop of
      `count - 1` steps followed by its last vertex, which is in range. */
  lemma GatherVerticesLastStep(attrs: Attributes, first: u32, count: nat)
    requires count > 0 && GatherVertices(attrs, first, count).Ok?
    ensures GatherVertices(attrs, first, count - 1).Ok?
    ensures |GatherVertices(attrs, first, count - 1).value| == count - 1
    ensures VertexInRange(attrs, first + (count - 1))
    ensures GatherVertices(attrs, first, count).value ==
      GatherVertices(attrs, first, count - 1).value + [VertexOf(attrs, first + (count - 1))]
  {
    GatherVertexSpec(attrs, first + (count - 1));
    GatherVerticesShape(attrs, first, count - 1);
  }

  /** A successful vertex loop yields global vertex `id` at position
      `id - first`, for each id of the range. */
  lemma {:induction false} GatherVerticesAt(attrs: Attributes, first: u32, count: nat, id: nat)
    requires GatherVertices(attrs, first, count).Ok?
    requires first <= id < first + count
    ensures |GatherVertices(attrs, first, count).value| == count
    ensures VertexInRange(attrs, id) && GatherVertices(attrs, first, count).value[id - first] == VertexOf(attrs, id)
    decreases count
  {
    GatherVerticesLastStep(attrs, first, count);
    var prev := GatherVertices(attrs, first, count - 1).value;
    var last := VertexOf(attrs, first + (count - 1));
    var vs := prev + [last];
    assert GatherVertices(attrs, first, count).value == vs;
    if id < first + (count - 1) {
      GatherVerticesAt(attrs, first, count - 1, id);
      assert vs[id - first] == prev[id - first];
    } else {
      assert vs[id - first] == last;
    }
  }

  /** The vertex loop of a mesh succeeds exactly when its last vertex is in
      range, and then yields global vertex `id` at position `id - first`,
      for every id of the range. */
  lemma GatherVerticesSpec(attrs: Attributes, first: u32, count: nat)
    ensures var r := GatherVertices(attrs, first, count);
      (r.Ok? <==> count == 0 || VertexInRange(attrs, first + count - 1)) &&
      (r.Ok? ==> |r.value| == count && VerticesFrom(attrs, first, r.value))
  {
    GatherVerticesShape(attrs, first, count);
    if GatherVertices(attrs, first, count).Ok? {
      forall id | first <= id < first + count
        ensures VertexInRange(attrs, id) &&
          GatherVertices(attrs, first, count).value[id - first] == VertexOf(attrs, id)
      {
        GatherVerticesAt(attrs, first, count, id);
      }
    }
  }

  /** The u32 sum `first + j` of the vertex loop never overflows: gathering
      vertex `first + j - 1` already needed `3 * (first + j - 1) + 2` to fit. */
  lemma VertexIdFits(attrs: Attributes, first: u32, j: nat)
    requires GatherVertices(attrs, first, j).Ok?
    ensures first + j <= U32_MAX
  {
    GatherVerticesSpec(attrs, first, j);
  }

  /** The index loop of a mesh succeeds exactly when its last index fits a
      u32 and lies in the global list, and then copies the slice
      starting at `3 * first`, `3 * count` words long, unchanged (no
      rebasing). */
  lemma {:induction false} GatherIndicesSpec(indices: seq<u32>, first: u32, count: nat)
    ensures var r := GatherIndices(indices, first, count);
      (r.Ok? <==> count == 0 || (3 * (first + count) - 1 <= U32_MAX && 3 * (first + count) <= |indices|)) &&
      (r.Ok? ==> (|r.value| == 3 * count &&
        forall k :: 0 <= k < 3 * count ==> 3 * first + k < |indices| && r.value[k] == indices[3 * first + k]))
    decreases count
  {
    if count > 0 {
      GatherIndicesSpec(indices, first, count - 1);
      var id := first + (count - 1);
      if id <= U32_MAX {
        FetchRunSpec(indices, 3 * id, 3);
        if GatherIndices(indices, first, count).Ok? {
          var xs := GatherIndices(indices, first, count - 1).value;
          assert GatherIndices(indices, first, count).value == xs + indices[3 * id..3 * id + 3];
        }
      }
    }
  }

  /** The u32 sum `first + j` of the index loop never overflows. */
  lemma TriangleIdFits(indices: seq<u32>, first: u32, j: nat)
    requires GatherIndices(indices, first, j).Ok?
    ensures first + j <= U32_MAX
  {
    GatherIndicesSpec(indices, first, j);
  }

  /** What an output mesh built from a record is: `numVertices` vertices,
      global vertex `id` of the range at position `id - firstVertex`, and the
      `3 * numTriangles` global indices of its triangles, unchanged. */
  ghost predicate MeshFromRecord(attrs: Attributes, indices: seq<u32>, rec: MeshRecord, m: Mesh) {
    |m.vertices| == rec.numVertices &&
    VerticesFrom(attrs, rec.firstVertex, m.vertices) &&
    |m.indices| == 3 * rec.numTriangles &&
    (forall k :: 0 <= k < |m.indices| ==>
      3 * rec.firstTriangle + k < |indices| && m.indices[k] == indices[3 * rec.firstTriangle + k])
  }

  /** A mesh record builds exactly when its vertex and index ranges are in
      range, and the mesh is then the one the record describes. */
  lemma BuildMeshSpec(attrs: Attributes, indices: seq<u32>, rec: MeshRecord)
    ensures BuildMesh(attrs, indices, rec).Ok? <==>
      (rec.numVertices == 0 || VertexInRange(attrs, rec.firstVertex + rec.numVertices - 1)) &&
      (rec.numTriangles == 0 ||
        (3 * (rec.firstTriangle + rec.numTriangles) - 1 <= U32_MAX &&
         3 * (rec.firstTriangle + rec.numTriangles) <= |indices|))
    ensures BuildMesh(attrs, indices, rec).Ok? ==> MeshFromRecord(attrs, indices, rec, BuildMesh(attrs, indices, rec).value)
  {
    var vs := GatherVertices(attrs, rec.firstVertex, rec.numVertices);
    var xs := GatherIndices(indices, rec.firstTriangle, rec.numTriangles);
    GatherVerticesSpec(attrs, rec.firstVertex, rec.numVertices);
    GatherIndicesSpec(indices, rec.firstTriangle, rec.numTriangles);
    if vs.Ok? && xs.Ok? {
      assert BuildMesh(attrs, indices, rec) == Ok(Mesh(vs.value, xs.value));
    } else if vs.Ok? {
      assert BuildMesh(attrs, indices, rec) == Err(xs.error);
    } else {
      assert BuildMesh(attrs, indices, rec) == Err(vs.error);
    }
  }

  /** There is no zero-fill for an empty attribute list: a mesh with at
      least one vertex then fails to build. Its first vertex fails, with
      OutOfRange unless the indices of that vertex already overflow u32. */
  lemma AbsentArrayFails(attrs: Attributes, indices: seq<u32>, rec: MeshRecord)
    requires rec.numVertices > 0
    requires attrs.texCoords == [] || attrs.normals == []
    ensures BuildMesh(attrs, indices, rec).Err?
    ensures 3 * rec.firstVertex + 2 <= U32_MAX ==> BuildMesh(attrs, indices, rec) == Err(OutOfRange)
  {
    BuildMeshSpec(attrs, indices, rec);
    var first := rec.firstVertex;
    if 3 * first + 2 <= U32_MAX {
      FetchRunSpec(attrs.positions, 3 * first, 3);
      assert GatherVertex(attrs, first) == Err(OutOfRange);
      assert GatherVertices(attrs, first, 1) == Err(OutOfRange);
      GatherVerticesErrorSticky(attrs, first, 1, rec.numVertices);
    }
  }

  /** Mesh `k` of the mesh loop, when it builds, is what its record says. */
  lemma MeshAtSpec(data: seq<u8>, h: Header, attrs: Attributes, indices: seq<u32>, k: nat)
    requires MeshAt(data, h, attrs, indices, k).Ok?
    ensures ReadMeshRecord(data, h.ofsMeshes + 24 * k).Ok?
    ensures MeshFromRecord(attrs, indices, ReadMeshRecord(data, h.ofsMeshes + 24 * k).value,
                           MeshAt(data, h, attrs, indices, k).value)
  {
    BuildMeshSpec(attrs, indices, ReadMeshRecord(data, h.ofsMeshes + 24 * k).value);
  }

  /** A successful mesh loop of `count > 0` steps is a successful loop of
      `count - 1` steps followed by a successful last mesh. */
  lemma LoadMeshesLastStep(data: seq<u8>, h: Header, attrs: Attributes, indices: seq<u32>, count: nat)
    requires count > 0 && LoadMeshes(data, h, attrs, indices, count).Ok?
    ensures LoadMeshes(data, h, attrs, indices, count - 1).Ok?
    ensures MeshAt(data, h, attrs, indices, count - 1).Ok?
    ensures LoadMeshes(data, h, attrs, indices, count).value ==
      LoadMeshes(data, h, attrs, indices, count - 1).value + [MeshAt(data, h, attrs, indices, count - 1).value]
  {
  }

  /** A successful mesh loop yields one mesh per record. */
  lemma {:induction false} LoadMeshesLength(data: seq<u8>, h: Header, attrs: Attributes, indices: seq<u32>, count: nat)
    requires LoadMeshes(data, h, attrs, indices, count).Ok?
    ensures |LoadMeshes(data, h, attrs, indices, count).value| == count
    decreases count
  {
    if count > 0 {
      LoadMeshesLastStep(data, h, attrs, indices, count);
      LoadMeshesLength(data, h, attrs, indices, count - 1);
    }
  }

  /** A successful mesh loop yields mesh `k` at position `k`. */
  lemma {:induction false} LoadMeshesAt(data: seq<u8>, h: Header, attrs: Attributes, indices: seq<u32>, count: nat, k: nat)
    requires LoadMeshes(data, h, attrs, indices, count).Ok?
    requires k < count
    ensures |LoadMeshes(data, h, attrs, indices, count).value| == count
    ensures MeshAt(data, h, attrs, indices, k).Ok?
    ensures LoadMeshes(data, h, attrs, indices, count).value[k] == MeshAt(data, h, attrs, indices, k).value
    decreases count
  {
    LoadMeshesLastStep(data, h, attrs, indices, count);
    LoadMeshesLength(data, h, attrs, indices, count - 1);
    var prev := LoadMeshes(data, h, attrs, indices, count - 1).value;
    var m := MeshAt(data, h, attrs, indices, count - 1).value;
    if k < count - 1 {
      LoadMeshesAt(data, h, attrs, indices, count - 1, k);
      assert (prev + [m])[k] == prev[k];
    }
  }

  /** When every one of its meshes can be built, the mesh loop succeeds. */
  lemma {:induction false} LoadMeshesSucceeds(data: seq<u8>, h: Header, attrs: Attributes, indices: seq<u32>, count: nat)
    requires forall k :: 0 <= k < count ==> MeshAt(data, h, attrs, indices, k).Ok?
    ensures LoadMeshes(data, h, attrs, indices, count).Ok?
    decreases count
  {
    if count > 0 {
      LoadMeshesSucceeds(data, h, attrs, indices, count - 1);
      var prev := LoadMeshes(data, h, attrs, indices, count - 1).value;
      var m := MeshAt(data, h, attrs, indices, count - 1).value;
      assert LoadMeshes(data, h, attrs, indices, count) == Ok(prev + [m]);
    }
  }

  /** The mesh loop succeeds exactly when every one of its meshes does, and
      yields them in record order. */
  lemma LoadMeshesSpec(data: seq<u8>, h: Header, attrs: Attributes, indices: seq<u32>, count: nat)
    ensures var r := LoadMeshes(data, h, attrs, indices, count);
      (r.Ok? <==> forall k :: 0 <= k < count ==> MeshAt(data, h, attrs, indices, k).Ok?) &&
      (r.Ok? ==> (|r.value| == count &&
        forall k :: 0 <= k < count ==> r.value[k] == MeshAt(data, h, attrs, indices, k).value))
  {
    var r := LoadMeshes(data, h, attrs, indices, count);
    if r.Ok? && count == 0 {
      assert r == Ok([]);
    } else if r.Ok? {
      LoadMeshesAt(data, h, attrs, indices, count, 0);
      forall k | 0 <= k < count
        ensures MeshAt(data, h, attrs, indices, k).Ok? && r.value[k] == MeshAt(data, h, attrs, indices, k).value
      {
        LoadMeshesAt(data, h, attrs, indices, count, k);
      }
    } else if forall k :: 0 <= k < count ==> MeshAt(data, h, attrs, indices, k).Ok? {
      LoadMeshesSucceeds(data, h, attrs, indices, count);
    }
  }

  /** A mesh record `k` sits at `ofsMeshes + 24 * k`: after 8 skipped
      bytes come first vertex, vertex count, first triangle and triangle
      count. */
  lemma MeshRecordAt(data: seq<u8>, h: Header, k: nat)
    ensures var at := h.ofsMeshes + 24 * k;
      ReadMeshRecord(data, at) ==
        if at + 24 > |data| then Err(Truncated)
        else Ok(MeshRecord(LeU32(data, at + 8).value, LeU32(data, at + 12).value,
                           LeU32(data, at + 16).value, LeU32(data, at + 20).value))
  {
  }

  // ---------------------------------------------------------------------
  // The whole decoder

  /** A successful decode passed every stage, and its result is the mesh
      stage's. */
  lemma DecodeStages(data: seq<u8>, ms: seq<Mesh>)
    requires Decode(data) == Ok(ms)
    ensures ParseHeader(data).Ok?
    ensures var h := ParseHeader(data).value;
      LoadVertexArrays(data, h, h.numVertexArrays).Ok? &&
      ReadTriangles(data, h).Ok? &&
      LoadMeshes(data, h, LoadVertexArrays(data, h, h.numVertexArrays).value, ReadTriangles(data, h).value, h.numMeshes) == Ok(ms)
  {
  }

  /** A successful mesh stage yields one mesh per record, each being what
      its record (at `ofsMeshes + 24 * k`) describes. */
  lemma MeshesDescribed(data: seq<u8>, h: Header, attrs: Attributes, indices: seq<u32>, ms: seq<Mesh>)
    requires LoadMeshes(data, h, attrs, indices, h.numMeshes) == Ok(ms)
    ensures |ms| == h.numMeshes
    ensures forall k :: 0 <= k < |ms| ==>
      ReadMeshRecord(data, h.ofsMeshes + 24 * k).Ok? &&
      MeshFromRecord(attrs, indices, ReadMeshRecord(data, h.ofsMeshes + 24 * k).value, ms[k])
  {
    LoadMeshesSpec(data, h, attrs, indices, h.numMeshes);
    forall k | 0 <= k < |ms|
      ensures ReadMeshRecord(data, h.ofsMeshes + 24 * k).Ok?
      ensures MeshFromRecord(attrs, indices, ReadMeshRecord(data, h.ofsMeshes + 24 * k).value, ms[k])
    {
      MeshAtSpec(data, h, attrs, indices, k);
    }
  }

  /** A successful decode: the header parsed, every vertex array applied,
      the index list read, and exactly one mesh per record, in file order,
      each being what its record (at `ofsMeshes + 24 * k`) describes. */
  lemma DecodedMeshes(data: seq<u8>, ms: seq<Mesh>)
    requires Decode(data) == Ok(ms)
    ensures ParseHeader(data).Ok?
    ensures var h := ParseHeader(data).value;
      LoadVertexArrays(data, h, h.numVertexArrays).Ok? &&
      ReadTriangles(data, h).Ok? &&
      |ms| == h.numMeshes &&
      forall k :: 0 <= k < |ms| ==>
        ReadMeshRecord(data, h.ofsMeshes + 24 * k).Ok? &&
        MeshFromRecord(LoadVertexArrays(data, h, h.numVertexArrays).value, ReadTriangles(data, h).value,
                       ReadMeshRecord(data, h.ofsMeshes + 24 * k).value, ms[k])
  {
    DecodeStages(data, ms);
    var h := ParseHeader(data).value;
    MeshesDescribed(data, h, LoadVertexArrays(data, h, h.numVertexArrays).value, ReadTriangles(data, h).value, ms);
  }

  /** The smallest file that decodes: signature, version 2, and a header
      whose counts are all zero yields no meshes. */
  lemma EmptyModelDecodes()
    ensures Decode(MAGIC + [2, 0, 0, 0] + seq(44, _ => 0)) == Ok([])
  {
    var data: seq<u8> := MAGIC + [2, 0, 0, 0] + seq(44, _ => 0);
    assert data[..16] == MAGIC;
    assert LeU32(data, 16) == Some(VERSION);
    assert forall i :: 20 <= i < |data| ==> data[i] == 0;
    HeaderLayout(data);
    var h := ParseHeader(data).value;
    assert h == Header(0, 0, 0, 0, 0, 0, 0);
    assert LoadVertexArrays(data, h, 0) == Ok(Attributes([], [], []));
    assert ReadTriangles(data, h) == Ok([]);
  }
}
