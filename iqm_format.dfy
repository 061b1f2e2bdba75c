/**
  The fixed vocabulary of the Inter-Quake Model (IQM) version 2 reader:
  byte and word types, the little-endian word decoding that every read of
  the cursor performs, the format constants and the two tag enumerations.
 */
module IqmFormat {

  /** One byte of the input file. */
  type u8 = x: int | 0 <= x < 0x100

  /** A 32-bit unsigned word. Every header field, descriptor field and
      triangle index is one of these; an `f32` attribute value is kept as
      its uninterpreted 32-bit pattern, because the reader only copies it. */
  type u32 = x: int | 0 <= x < 0x1_0000_0000

  const U32_MAX: int := 0xFFFF_FFFF

  /** The bit pattern of the `f32` value 0.0, substituted for attribute
      values that could not be read. */
  const ZERO_F32: u32 := 0

  datatype Option<T> = None | Some(value: T)

  /** Every way the reader aborts. The source panics in each case; here the
      panic becomes an error result. */
  datatype DecodeError =
    | BadMagic      // the 16 signature bytes differ from MAGIC
    | BadVersion    // the version word differs from VERSION
    | Truncated     // a strict read ran past the end of the buffer
    | BadLayout     // a position/texcoord/normal array has the wrong format or size
    | Overflow      // a u32 offset, count or index computation overflowed
    | OutOfRange    // an attribute or index gather indexed past a list's end

  datatype Result<T> = Ok(value: T) | Err(error: DecodeError)

  /** "INTERQUAKEMODEL\0" as bytes. */
  const MAGIC: seq<u8> := [73, 78, 84, 69, 82, 81, 85, 65, 75, 69, 77, 79, 68, 69, 76, 0]
  const VERSION: u32 := 2

  /** Bytes of header fields skipped after the version word. */
  const HEADER_SKIP: int := 16
  /** Size in bytes of one vertex-array descriptor (five words). */
  const SIZE_OF_VA_STRUCT: int := 20
  /** Bytes of a mesh record skipped before its four vertex/triangle words
      (the name and material fields). */
  const MESH_SKIP: int := 8
  /** Size in bytes of one mesh record: the skipped fields plus four words. */
  const SIZE_OF_MESH_STRUCT: int := MESH_SKIP + 16

  /** The kind of data a vertex array holds, with its tag in the file. */
  datatype VertexArrayType = Position | TexCoord | Normal | Tangent | BlendIndex | BlendWeight | Color
  {
    function Tag(): u32 {
      match this
      case Position => 0
      case TexCoord => 1
      case Normal => 2
      case Tangent => 3
      case BlendIndex => 4
      case BlendWeight => 5
      case Color => 6
    }
  }

  /** The component format of a vertex array, with its tag in the file. */
  datatype VertexArrayFormat = Byte | UByte | Short | UShort | Int | UInt | Half | Float | Double
  {
    function Tag(): u32 {
      match this
      case Byte => 0
      case UByte => 1
      case Short => 2
      case UShort => 3
      case Int => 4
      case UInt => 5
      case Half => 6
      case Float => 7
      case Double => 8
    }
  }

  /** The vertex-array type a tag names, if any. */
  function VertexArrayTypeOf(tag: u32): (t: Option<VertexArrayType>)
    ensures t.Some? <==> tag < 7
    ensures t.Some? ==> t.value.Tag() == tag
  {
    if tag == 0 then Some(Position)
    else if tag == 1 then Some(TexCoord)
    else if tag == 2 then Some(Normal)
    else if tag == 3 then Some(Tangent)
    else if tag == 4 then Some(BlendIndex)
    else if tag == 5 then Some(BlendWeight)
    else if tag == 6 then Some(Color)
    else None
  }

  /** The component format a tag names, if any. */
  function VertexArrayFormatOf(tag: u32): (f: Option<VertexArrayFormat>)
    ensures f.Some? <==> tag < 9
    ensures f.Some? ==> f.value.Tag() == tag
  {
    if tag == 0 then Some(Byte)
    else if tag == 1 then Some(UByte)
    else if tag == 2 then Some(Short)
    else if tag == 3 then Some(UShort)
    else if tag == 4 then Some(Int)
    else if tag == 5 then Some(UInt)
    else if tag == 6 then Some(Half)
    else if tag == 7 then Some(Float)
    else if tag == 8 then Some(Double)
    else None
  }

  /** Each vertex-array type has its own tag, and the tag leads back to it. */
  lemma VertexArrayTypeTagRoundTrip(t: VertexArrayType)
    ensures VertexArrayTypeOf(t.Tag()) == Some(t)
  {
  }

  /** Each component format has its own tag, and the tag leads back to it. */
  lemma VertexArrayFormatTagRoundTrip(f: VertexArrayFormat)
    ensures VertexArrayFormatOf(f.Tag()) == Some(f)
  {
  }

  /** The word whose little-endian bytes are b0, b1, b2, b3. */
  function Le4(b0: u8, b1: u8, b2: u8, b3: u8): u32 {
    b0 + 0x100 * (b1 + 0x100 * (b2 + 0x100 * b3))
  }

  /** The little-endian encoding of a word: the inverse of Le4. */
  function LeBytes(w: u32): (bs: seq<u8>)
    ensures |bs| == 4
  {
    var w1 := w / 0x100;
    var w2 := w1 / 0x100;
    var w3 := w2 / 0x100;
    [w % 0x100, w1 % 0x100, w2 % 0x100, w3]
  }

  /** A little-endian u32 read at byte position `pos`: it succeeds exactly
      when the four bytes lie inside the buffer. */
  function LeU32(data: seq<u8>, pos: int): (r: Option<u32>)
    ensures r.Some? <==> 0 <= pos && pos + 4 <= |data|
  {
    if 0 <= pos && pos + 4 <= |data| then Some(Le4(data[pos], data[pos + 1], data[pos + 2], data[pos + 3]))
    else None
  }

  /** Splitting off the low byte of `low + 0x100 * high`. */
  lemma SplitLowByte(low: int, high: int)
    requires 0 <= low < 0x100
    ensures (low + 0x100 * high) / 0x100 == high
    ensures (low + 0x100 * high) % 0x100 == low
  {
  }

  /** Decoding the little-endian encoding of a word gives the word back. */
  lemma LeU32RoundTrip(w: u32)
    ensures LeU32(LeBytes(w), 0) == Some(w)
  {
    var w1 := w / 0x100;
    var w2 := w1 / 0x100;
    var w3 := w2 / 0x100;
    assert w == w % 0x100 + 0x100 * w1;
    assert w1 == w1 % 0x100 + 0x100 * w2;
    assert w2 == w2 % 0x100 + 0x100 * w3;
  }

  /** Encoding the word read from four bytes gives those bytes back, so two
      different byte quadruples never decode to the same word. */
  lemma LeBytesRoundTrip(b0: u8, b1: u8, b2: u8, b3: u8)
    ensures LeBytes(Le4(b0, b1, b2, b3)) == [b0, b1, b2, b3]
  {
    var hi := b2 as int + 0x100 * b3 as int;
    var mid := b1 as int + 0x100 * hi;
    SplitLowByte(b0, mid);
    SplitLowByte(b1, hi);
    SplitLowByte(b2, b3);
  }

  /** `count` words read one after the other from `pos`, aborting on the first
      read that runs past the end (reading no words never fails). */
  function ReadWords(data: seq<u8>, pos: int, count: nat): (r: Result<seq<u32>>)
    ensures r.Ok? <==> count == 0 || (0 <= pos && pos + 4 * count <= |data|)
    ensures r.Err? ==> r.error == Truncated
    ensures r.Ok? ==> |r.value| == count
  {
    if count == 0 then Ok([])
    else if 0 <= pos && pos + 4 * count <= |data| then
      Ok(seq(count, k requires 0 <= k < count => LeU32(data, pos + 4 * k).value))
    else Err(Truncated)
  }

  /** `count` words read one after the other from `pos`, where a read that
      fails yields ZERO_F32 instead of aborting. A failed read leaves the
      position where it was, so once one read fails every later one fails:
      word k is read from the file exactly when its four bytes lie inside
      the buffer. */
  function ReadWordsOrZero(data: seq<u8>, pos: nat, count: nat): (ws: seq<u32>)
    ensures |ws| == count
  {
    seq(count, k requires 0 <= k < count =>
      if pos + 4 * k + 4 <= |data| then LeU32(data, pos + 4 * k).value else ZERO_F32)
  }

  /** Reading one more word extends a strict read by that word. */
  lemma ReadWordsSnoc(data: seq<u8>, pos: int, j: nat)
    requires 0 <= pos && pos + 4 * (j + 1) <= |data|
    ensures ReadWords(data, pos, j + 1).value == ReadWords(data, pos, j).value + [LeU32(data, pos + 4 * j).value]
  {
    assert ReadWords(data, pos, j + 1).value[..j] == ReadWords(data, pos, j).value;
  }

  /** Reading one more word extends a tolerant read by that word or zero. */
  lemma ReadWordsOrZeroSnoc(data: seq<u8>, pos: nat, j: nat)
    ensures ReadWordsOrZero(data, pos, j + 1) ==
      ReadWordsOrZero(data, pos, j) + [if pos + 4 * j + 4 <= |data| then LeU32(data, pos + 4 * j).value else ZERO_F32]
  {
    assert ReadWordsOrZero(data, pos, j + 1)[..j] == ReadWordsOrZero(data, pos, j);
  }
}
