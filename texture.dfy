/**
 * Texture::Texture(const char *path): the engine's DDS reader.  It checks
 * the "DDS " magic, reads the 124-byte header, rejects odd dimensions, reads
 * the compressed payload, maps the FourCC code to an S3TC format and hands
 * each mipmap level to glCompressedTexImage2D, halving the dimensions from
 * one level to the next.  The GL calls are modelled by the list of levels
 * they are given.
 */
module EngineTexture {
  import opened Bytes
  import opened Wrappers
  import opened FileIO

  const DDS_MAGIC: seq<Byte> := [0x44, 0x44, 0x53, 0x20]
  const HEADER_SIZE: nat := 124

  const FOURCC_DXT1: U32 := 0x3154_5844
  const FOURCC_DXT3: U32 := 0x3354_5844
  const FOURCC_DXT5: U32 := 0x3554_5844

  /** GL_COMPRESSED_RGBA_S3TC_DXT{1,3,5}_EXT. */
  const RGBA_S3TC_DXT1: U32 := 0x83F1
  const RGBA_S3TC_DXT3: U32 := 0x83F2
  const RGBA_S3TC_DXT5: U32 := 0x83F3

  /** Debug::showError reasons 10, 11 and 12; a short fread is Truncated (see README). */
  datatype TextureError = NotDds | UnknownFormat | OddSize | Truncated

  /** One glCompressedTexImage2D call: level, dimensions, byte count and offset into the payload. */
  datatype MipLevel = MipLevel(level: nat, width: U32, height: U32, size: U32, offset: U32)

  /** The loaded texture: the int width and height fields, the GL format, the uploads and the payload. */
  datatype TextureData = TextureData(width: int, height: int, format: U32, levels: seq<MipLevel>, payload: seq<Byte>)

  // ---------------------------------------------------------------------------
  // C integer semantics
  // ---------------------------------------------------------------------------

  /** An unsigned int stored in an int field (two's complement). */
  function AsInt32(u: U32): (i: int)
    ensures -0x8000_0000 <= i < 0x8000_0000
    ensures i % 0x1_0000_0000 == u
  {
    if u < 0x8000_0000 then u else u - 0x1_0000_0000
  }

  /** C's % on int, which truncates toward zero. */
  function CRem(a: int, b: int): (r: int)
    requires b > 0
    ensures a >= 0 ==> 0 <= r < b
    ensures a < 0 ==> -b < r <= 0
  {
    if a >= 0 then a % b else -((-a) % b)
  }

  /** The odd-dimension test on the int fields is the parity of the header's unsigned value. */
  lemma OddAsInt32(u: U32)
    ensures CRem(AsInt32(u), 2) != 0 <==> u % 2 == 1
  {
    if u >= 0x8000_0000 {
      assert -AsInt32(u) == 0x1_0000_0000 - u;
      assert (0x1_0000_0000 - u) % 2 == u % 2;
    }
  }

  function Pow2(k: nat): (p: nat)
    ensures p >= 1
  {
    if k == 0 then 1 else 2 * Pow2(k - 1)
  }

  /** w halved k times, as the loop does, rounding down each time. */
  function Halve(w: nat, k: nat): (h: nat)
    ensures h <= w
  {
    if k == 0 then w else Halve(w, k - 1) / 2
  }

  /** Halving once and then k times is halving k + 1 times. */
  lemma {:induction false} HalveFirst(w: nat, k: nat)
    ensures Halve(w / 2, k) == Halve(w, k + 1)
  {
    if k > 0 {
      HalveFirst(w, k - 1);
    }
  }

  /** A value below 2^j is zero once halved j times. */
  lemma {:induction false} HalveToZero(w: nat, j: nat)
    requires w < Pow2(j)
    ensures Halve(w, j) == 0
  {
    if j > 0 {
      HalveToZero(w / 2, j - 1);
      HalveFirst(w, j - 1);
    }
  }

  /** (a * b) mod 2^32, unsigned multiplication. */
  function Mul32(a: U32, b: U32): U32
  {
    (a * b) % 0x1_0000_0000
  }

  // ---------------------------------------------------------------------------
  // Specification
  // ---------------------------------------------------------------------------

  /** The little-endian u32 at off in the header. */
  function Field(header: seq<Byte>, off: nat): (x: U32)
    requires off + 4 <= |header|
  {
    FromLE32(header[off..off + 4])
  }

  /** Twice the linear size when there is more than one mipmap, in unsigned arithmetic. */
  function BufferSize(linearSize: U32, mipMapCount: U32): (n: U32)
    ensures mipMapCount <= 1 ==> n == linearSize
    ensures mipMapCount > 1 && linearSize < 0x8000_0000 ==> n == 2 * linearSize
  {
    if mipMapCount > 1 then (linearSize * 2) % 0x1_0000_0000 else linearSize
  }

  /** The S3TC format of a FourCC code, or None for any other code. */
  function FormatOf(fourCC: U32): (f: Option<U32>)
    ensures f.Some? <==> fourCC in {FOURCC_DXT1, FOURCC_DXT3, FOURCC_DXT5}
    ensures f.Some? ==> f.value in {RGBA_S3TC_DXT1, RGBA_S3TC_DXT3, RGBA_S3TC_DXT5}
    ensures f == Some(RGBA_S3TC_DXT1) <==> fourCC == FOURCC_DXT1
  {
    if fourCC == FOURCC_DXT1 then Some(RGBA_S3TC_DXT1)
    else if fourCC == FOURCC_DXT3 then Some(RGBA_S3TC_DXT3)
    else if fourCC == FOURCC_DXT5 then Some(RGBA_S3TC_DXT5)
    else None
  }

  /** Eight bytes per 4x4 block for DXT1, sixteen for DXT3 and DXT5. */
  function BlockSize(format: U32): (bs: U32)
    ensures bs == 8 <==> format == RGBA_S3TC_DXT1
    ensures bs == 8 || bs == 16
  {
    if format == RGBA_S3TC_DXT1 then 8 else 16
  }

  /** ((width+3)/4)*((height+3)/4)*blockSize, every step in unsigned arithmetic. */
  function LevelSize(width: U32, height: U32, blockSize: U32): (size: U32)
  {
    Mul32(Mul32((width + 3) % 0x1_0000_0000 / 4, (height + 3) % 0x1_0000_0000 / 4), blockSize)
  }

  /**
   * The levels uploaded from level onwards: one per level below the header's
   * count while either dimension is nonzero; the offset advances by each
   * level's size, the dimensions halve.
   */
  function MipChain(width: U32, height: U32, count: U32, blockSize: U32, level: nat, offset: U32): (ls: seq<MipLevel>)
    decreases count - level
  {
    if level < count && (width != 0 || height != 0) then
      var size := LevelSize(width, height, blockSize);
      [MipLevel(level, width, height, size, offset)]
      + MipChain(width / 2, height / 2, count, blockSize, level + 1, (offset + size) % 0x1_0000_0000)
    else []
  }

  /** The constructor on a whole file's bytes. */
  function ParseDds(data: seq<Byte>): (r: Result<TextureData, TextureError>)
    ensures r == Err(NotDds) <==> |data| >= 4 && data[..4] != DDS_MAGIC
    ensures r.Ok? ==> |data| >= 4 + HEADER_SIZE && data[..4] == DDS_MAGIC
  {
    if |data| < 4 then Err(Truncated)
    else if data[..4] != DDS_MAGIC then Err(NotDds)
    else if |data| < 4 + HEADER_SIZE then Err(Truncated)
    else
      var header := data[4..4 + HEADER_SIZE];
      var height := Field(header, 8);
      var width := Field(header, 12);
      var linearSize := Field(header, 16);
      var mipMapCount := Field(header, 24);
      var fourCC := Field(header, 80);
      if CRem(AsInt32(height), 2) != 0 || CRem(AsInt32(width), 2) != 0 then Err(OddSize)
      else
        var bufsize := BufferSize(linearSize, mipMapCount);
        if |data| < 4 + HEADER_SIZE + bufsize then Err(Truncated)
        else
          match FormatOf(fourCC)
          case None => Err(UnknownFormat)
          case Some(format) =>
            Ok(TextureData(AsInt32(width), AsInt32(height), format,
              MipChain(width, height, mipMapCount, BlockSize(format), 0, 0),
              data[4 + HEADER_SIZE..4 + HEADER_SIZE + bufsize]))
  }

  // ---------------------------------------------------------------------------
  // Facts
  // ---------------------------------------------------------------------------

  /**
   * Which check rejects a file: the magic first, then odd dimensions, then
   * a FourCC other than DXT1, DXT3 and DXT5, the header read and the payload
   * read being complete.  An accepted file keeps the header's dimensions.
   */
  lemma ParseDdsOutcome(data: seq<Byte>)
    requires |data| >= 4 + HEADER_SIZE && data[..4] == DDS_MAGIC
    ensures ParseDds(data) == Err(OddSize) <==> Field(data, 12) % 2 == 1 || Field(data, 16) % 2 == 1
    ensures ParseDds(data).Ok? <==>
      && Field(data, 12) % 2 == 0 && Field(data, 16) % 2 == 0
      && |data| >= 4 + HEADER_SIZE + BufferSize(Field(data, 20), Field(data, 28))
      && Field(data, 84) in {FOURCC_DXT1, FOURCC_DXT3, FOURCC_DXT5}
    ensures ParseDds(data).Ok? ==>
      && ParseDds(data).value.height == AsInt32(Field(data, 12))
      && ParseDds(data).value.width == AsInt32(Field(data, 16))
      && |ParseDds(data).value.payload| == BufferSize(Field(data, 20), Field(data, 28))
  {
    var header := data[4..4 + HEADER_SIZE];
    HeaderField(data, 8);
    HeaderField(data, 12);
    HeaderField(data, 16);
    HeaderField(data, 24);
    HeaderField(data, 80);
    OddAsInt32(Field(header, 8));
    OddAsInt32(Field(header, 12));
  }

  /** A header field is the file's u32 four bytes further on. */
  lemma HeaderField(data: seq<Byte>, off: nat)
    requires |data| >= 4 + HEADER_SIZE && off + 4 <= HEADER_SIZE
    ensures Field(data[4..4 + HEADER_SIZE], off) == Field(data, 4 + off)
  {
    assert data[4..128][off..off + 4] == data[4 + off..4 + off + 4];
  }

  /**
   * Level k of the chain: level number level + k, the dimensions halved k
   * times, at least one of them nonzero.
   */
  lemma MipChainLevels(width: U32, height: U32, count: U32, bs: U32, level: nat, offset: U32)
    ensures var ls := MipChain(width, height, count, bs, level, offset);
      forall k :: 0 <= k < |ls| ==>
        && ls[k].level == level + k
        && ls[k].width == Halve(width, k) && ls[k].height == Halve(height, k)
        && (ls[k].width != 0 || ls[k].height != 0)
  {
    var ls := MipChain(width, height, count, bs, level, offset);
    forall k | 0 <= k < |ls|
      ensures ls[k].level == level + k
      ensures ls[k].width == Halve(width, k) && ls[k].height == Halve(height, k)
      ensures ls[k].width != 0 || ls[k].height != 0
    {
      MipChainLevelAt(width, height, count, bs, level, offset, k);
    }
  }

  /** Level k's number and dimensions, by induction on k. */
  lemma {:induction false} MipChainLevelAt(width: U32, height: U32, count: U32, bs: U32, level: nat, offset: U32, k: nat)
    requires k < |MipChain(width, height, count, bs, level, offset)|
    ensures var l := MipChain(width, height, count, bs, level, offset)[k];
      && l.level == level + k
      && l.width == Halve(width, k) && l.height == Halve(height, k)
      && (l.width != 0 || l.height != 0)
    decreases k
  {
    var size := LevelSize(width, height, bs);
    var next := (offset + size) % 0x1_0000_0000;
    var tail := MipChain(width / 2, height / 2, count, bs, level + 1, next);
    assert MipChain(width, height, count, bs, level, offset) == [MipLevel(level, width, height, size, offset)] + tail;
    if k > 0 {
      MipChainLevelAt(width / 2, height / 2, count, bs, level + 1, next, k - 1);
      HalveFirst(width, k - 1);
      HalveFirst(height, k - 1);
    }
  }

  /** Every level's size is the block size of its own dimensions. */
  lemma MipChainSizes(width: U32, height: U32, count: U32, bs: U32, level: nat, offset: U32)
    ensures var ls := MipChain(width, height, count, bs, level, offset);
      forall k :: 0 <= k < |ls| ==> ls[k].size == LevelSize(ls[k].width, ls[k].height, bs)
  {
    var ls := MipChain(width, height, count, bs, level, offset);
    forall k | 0 <= k < |ls|
      ensures ls[k].size == LevelSize(ls[k].width, ls[k].height, bs)
    {
      MipChainSizeAt(width, height, count, bs, level, offset, k);
    }
  }

  /** Level k's size, by induction on k. */
  lemma {:induction false} MipChainSizeAt(width: U32, height: U32, count: U32, bs: U32, level: nat, offset: U32, k: nat)
    requires k < |MipChain(width, height, count, bs, level, offset)|
    ensures var l := MipChain(width, height, count, bs, level, offset)[k];
      l.size == LevelSize(l.width, l.height, bs)
    decreases k
  {
    var size := LevelSize(width, height, bs);
    var next := (offset + size) % 0x1_0000_0000;
    var tail := MipChain(width / 2, height / 2, count, bs, level + 1, next);
    assert MipChain(width, height, count, bs, level, offset) == [MipLevel(level, width, height, size, offset)] + tail;
    if k > 0 {
      MipChainSizeAt(width / 2, height / 2, count, bs, level + 1, next, k - 1);
    }
  }

  /**
   * The first level is at the offset given, and each next level starts
   * where the previous one ends, modulo 2^32.
   */
  lemma {:induction false} MipChainOffsets(width: U32, height: U32, count: U32, bs: U32, level: nat, offset: U32)
    ensures var ls := MipChain(width, height, count, bs, level, offset);
      && (|ls| > 0 ==> ls[0].offset == offset)
      && forall k :: 0 <= k < |ls| - 1 ==> ls[k + 1].offset == (ls[k].offset + ls[k].size) % 0x1_0000_0000
    decreases count - level
  {
    if level < count && (width != 0 || height != 0) {
      var size := LevelSize(width, height, bs);
      var next := (offset + size) % 0x1_0000_0000;
      MipChainOffsets(width / 2, height / 2, count, bs, level + 1, next);
      var ls := MipChain(width, height, count, bs, level, offset);
      var tail := MipChain(width / 2, height / 2, count, bs, level + 1, next);
      assert ls == [MipLevel(level, width, height, size, offset)] + tail;
    }
  }

  /**
   * The loop stops at the header's mipmap count or once both dimensions
   * have halved to zero, whichever comes first.
   */
  lemma {:induction false} MipChainLength(width: U32, height: U32, count: U32, bs: U32, level: nat, offset: U32)
    requires level <= count
    ensures var n := |MipChain(width, height, count, bs, level, offset)|;
      && n <= count - level
      && (n < count - level ==> Halve(width, n) == 0 && Halve(height, n) == 0)
      && forall k :: 0 <= k < n ==> Halve(width, k) != 0 || Halve(height, k) != 0
    decreases count - level
  {
    MipChainLevels(width, height, count, bs, level, offset);
    if level < count && (width != 0 || height != 0) {
      var next := (offset + LevelSize(width, height, bs)) % 0x1_0000_0000;
      MipChainLength(width / 2, height / 2, count, bs, level + 1, next);
      var n := |MipChain(width, height, count, bs, level, offset)|;
      HalveFirst(width, n - 1);
      HalveFirst(height, n - 1);
    }
  }

  /** Both dimensions stay nonzero-or-zero together with their halvings: a level below 2^j a side has at most j levels. */
  lemma ChainAtMost(width: U32, height: U32, count: U32, bs: U32, j: nat)
    requires width < Pow2(j) && height < Pow2(j)
    ensures |MipChain(width, height, count, bs, 0, 0)| <= j
  {
    MipChainLength(width, height, count, bs, 0, 0);
    HalveToZero(width, j);
    HalveToZero(height, j);
  }

  lemma Pow2of32()
    ensures Pow2(32) == 0x1_0000_0000
  {
    assert Pow2(8) == 0x100;
    assert Pow2(16) == 0x1_0000;
    assert Pow2(24) == 0x100_0000;
  }

  /** A whole file's chain: at most the header's count, at most 32 levels. */
  lemma MipChainBound(width: U32, height: U32, count: U32, bs: U32)
    ensures |MipChain(width, height, count, bs, 0, 0)| <= count
    ensures |MipChain(width, height, count, bs, 0, 0)| <= 32
  {
    Pow2of32();
    MipChainLength(width, height, count, bs, 0, 0);
    ChainAtMost(width, height, count, bs, 32);
  }

  /** Below 32768 pixels a side nothing wraps: a level is its block count times the block size. */
  lemma LevelSizeExact(width: U32, height: U32, bs: U32)
    requires width < 0x8000 && height < 0x8000 && (bs == 8 || bs == 16)
    ensures LevelSize(width, height, bs) == ((width + 3) / 4) * ((height + 3) / 4) * bs
  {
    var a: U32 := (width + 3) / 4;
    var b: U32 := (height + 3) / 4;
    MulBound(a, b, 0x2000, 0x2000);
    Mul32Exact(a, b);
    MulBound(a * b, bs, 0x400_0000, 16);
    Mul32Exact(a * b, bs);
  }

  lemma Mul32Exact(a: U32, b: U32)
    requires a * b < 0x1_0000_0000
    ensures Mul32(a, b) == a * b
  {
  }

  lemma MulBound(a: nat, b: nat, m: nat, n: nat)
    requires a <= m && b <= n
    ensures a * b <= m * n
  {
    assert a * b <= m * b;
    assert m * b <= m * n;
  }

  /**
   * The offsets are never checked against the payload: a DXT1 file of 4x4
   * pixels with one mipmap and a linear size of 0 gets a level of 8 bytes
   * from an empty payload.
   */
  lemma LevelsUnchecked()
    ensures BufferSize(0, 1) == 0
    ensures MipChain(4, 4, 1, BlockSize(RGBA_S3TC_DXT1), 0, 0) == [MipLevel(0, 4, 4, 8, 0)]
  {
  }

  // ---------------------------------------------------------------------------
  // The constructor
  // ---------------------------------------------------------------------------

  /** The mipmap loop: one upload per level, then halve both dimensions. */
  method UploadLevels(width0: U32, height0: U32, mipMapCount: U32, blockSize: U32) returns (levels: seq<MipLevel>)
    ensures levels == MipChain(width0, height0, mipMapCount, blockSize, 0, 0)
  {
    var width, height := width0, height0;
    var offset: U32 := 0;
    var level: nat := 0;
    levels := [];
    while level < mipMapCount && (width != 0 || height != 0)
      invariant levels + MipChain(width, height, mipMapCount, blockSize, level, offset) == MipChain(width0, height0, mipMapCount, blockSize, 0, 0)
      decreases mipMapCount - level
    {
      var size := LevelSize(width, height, blockSize);
      levels := levels + [MipLevel(level, width, height, size, offset)];
      offset := (offset + size) % 0x1_0000_0000;
      width := width / 2;
      height := height / 2;
      level := level + 1;
    }
  }

  /** Texture::Texture on an opened file. */
  method LoadTexture(f: FileReader) returns (r: Result<TextureData, TextureError>)
    requires f.pos == 0
    modifies f
    ensures r == ParseDds(f.contents)
  {
    var filecode := f.Read(4);
    if filecode.None? { return Err(Truncated); }
    if filecode.value != DDS_MAGIC { return Err(NotDds); }
    var header := f.Read(HEADER_SIZE);
    if header.None? { return Err(Truncated); }
    var h := header.value;
    var height := Field(h, 8);
    var width := Field(h, 12);
    var linearSize := Field(h, 16);
    var mipMapCount := Field(h, 24);
    var fourCC := Field(h, 80);
    if CRem(AsInt32(height), 2) != 0 || CRem(AsInt32(width), 2) != 0 {
      return Err(OddSize);
    }
    var bufsize := BufferSize(linearSize, mipMapCount);
    var buffer := f.Read(bufsize);
    if buffer.None? { return Err(Truncated); }
    var format := FormatOf(fourCC);
    if format.None? { return Err(UnknownFormat); }
    var levels := UploadLevels(width, height, mipMapCount, BlockSize(format.value));
    return Ok(TextureData(AsInt32(width), AsInt32(height), format.value, levels, buffer.value));
  }
}
