/** Sizes, strides and dispatch tiling. Products of 32-bit values wrap as they do in the code. */
module Sizes {

  datatype PixelFormat =
    | RGBA32_UINT | RGBA32_FLOAT | RGBA16_FLOAT | R32_FLOAT | RG32_UINT | RGBA8_UNORM | RGBA8_UNORM_SRGB | RG8_UINT
    | BC1_UNORM | BC3_UNORM | BC4_UNORM | BC4_SNORM | BC5_UNORM | BC5_SNORM | BC6H_UF16
    | ETC1_RGB8_UNORM | ETC2_RGBA8_UNORM | EAC_R11_UNORM | EAC_RG11_UNORM

  const WORD: nat := 0x1_0000_0000
  const LONG: nat := 0x1_0000_0000_0000_0000

  /** uint32_t arithmetic. */
  function U32(x: int): (r: nat) ensures r < WORD { x % WORD }

  /** 64-bit size_t arithmetic. */
  function U64(x: int): (r: nat) ensures r < LONG { x % LONG }

  function Align32(offset: nat, alignment: nat): nat
    requires alignment > 0
  {
    U32(U32(offset + alignment - 1) / alignment * alignment)
  }

  function Align64(offset: nat, alignment: nat): nat
    requires alignment > 0
  {
    U64(U64(offset + alignment - 1) / alignment * alignment)
  }

  function BytesPerPixel(format: PixelFormat): nat {
    match format
    case RGBA32_UINT | RGBA32_FLOAT => 16
    case RGBA16_FLOAT | RG32_UINT => 8
    case R32_FLOAT | RGBA8_UNORM | RGBA8_UNORM_SRGB => 4
    case RG8_UINT => 2
    case _ => 0
  }

  predicate IsCompressed(format: PixelFormat) {
    match format
    case BC1_UNORM | BC3_UNORM | BC4_UNORM | BC4_SNORM | BC5_UNORM | BC5_SNORM | BC6H_UF16 => true
    case ETC1_RGB8_UNORM | ETC2_RGBA8_UNORM | EAC_R11_UNORM | EAC_RG11_UNORM => true
    case _ => false
  }

  /** Bytes of one 4x4 block. */
  function BlockBytes(format: PixelFormat): nat {
    match format
    case BC1_UNORM | BC4_UNORM | BC4_SNORM | ETC1_RGB8_UNORM | EAC_R11_UNORM => 8
    case BC3_UNORM | BC5_UNORM | BC5_SNORM | ETC2_RGBA8_UNORM | EAC_RG11_UNORM | BC6H_UF16 => 16
    case _ => 0
  }

  /** ( size + 3u ) / 4u, which is also getBlockWidth and getBlockHeight. */
  function Blocks(size: nat): nat { U32(size + 3) / 4 }

  function SizeBytes(width: nat, height: nat, depth: nat, slices: nat, format: PixelFormat, rowAlignment: nat): nat
    requires rowAlignment > 0
  {
    if IsCompressed(format) then U32(Blocks(width) * Blocks(height) * BlockBytes(format) * depth * slices)
    else U64(Align64(U64(width * BytesPerPixel(format)), rowAlignment) * U32(height * depth * slices))
  }

  // ---- staging buffers ----

  lemma BlocksBound(size: nat)
    ensures Blocks(size) < 0x4000_0000
  {
  }

  lemma AlignedAlready(x: nat, k: nat)
    requires x + 3 < LONG && x == 4 * k
    ensures Align64(x, 4) == x
  {
  }

  lemma NoWrap64(x: nat)
    requires x < LONG
    ensures U64(x) == x
  {
  }

  lemma AlignPairs(width: nat)
    requires width < WORD
    ensures Align64(2 * width, 4) == (width + 1) / 2 * 4
  {
  }

  lemma ProductMonotone(a: nat, b: nat, c: nat, d: nat)
    requires a <= c && b <= d
    ensures a * b <= c * d
  {
    assert a * b <= a * d <= c * d;
  }

  /** Unpadded rows: the 64-bit size is the plain product. */
  lemma BlockRowsSize(w: nat, h: nat, staging: PixelFormat)
    requires w < 0x4000_0000 && h < 0x4000_0000
    requires BytesPerPixel(staging) == 8 || BytesPerPixel(staging) == 16
    ensures SizeBytes(w, h, 1, 1, staging, 4) == w * h * BytesPerPixel(staging)
  {
    hide U64, Align64;
    var n := BytesPerPixel(staging);
    ProductMonotone(w, n, 0x4000_0000, 16);
    NoWrap64(w * n);
    AlignedAlready(w * n, w * (n / 4));
    ProductMonotone(w, h, 0x3FFF_FFFF, 0x3FFF_FFFF);
    assert w * n * h == w * h * n;
    assert w * h * n <= w * h * 16;
    NoWrap64(w * n * h);
    assert U32(h * 1 * 1) == h;
  }

  /**
   A block-sized staging texture holds exactly as many bytes as the compressed image it is
   downloaded as, exactly when the compressed size does not wrap around in 32 bits.
   */
  lemma StagingHoldsCompressed(width: nat, height: nat, staging: PixelFormat, compressed: PixelFormat)
    requires width < WORD && height < WORD
    requires IsCompressed(compressed) && !IsCompressed(staging)
    requires BlockBytes(compressed) == BytesPerPixel(staging)
    ensures SizeBytes(Blocks(width), Blocks(height), 1, 1, staging, 4) == SizeBytes(width, height, 1, 1, compressed, 4)
            <==> Blocks(width) * Blocks(height) * BlockBytes(compressed) < WORD
  {
    hide Blocks, SizeBytes, U32;
    BlocksBound(width);
    BlocksBound(height);
    BlockRowsSize(Blocks(width), Blocks(height), staging);
    CompressedSize(width, height, compressed);
    NoWrap32(Blocks(width) * Blocks(height) * BlockBytes(compressed));
  }

  lemma CompressedSize(width: nat, height: nat, format: PixelFormat)
    requires IsCompressed(format)
    ensures SizeBytes(width, height, 1, 1, format, 4) == U32(Blocks(width) * Blocks(height) * BlockBytes(format))
  {
    hide Blocks, U32;
  }

  lemma NoWrap32(x: int)
    ensures x >= 0 ==> (U32(x) == x <==> x < WORD)
  {
  }

  /** Blocks cover the pixels along an axis, and none is empty; the last three sizes wrap around to none. */
  lemma BlocksCover(size: nat)
    requires size < WORD
    ensures if size <= 0xFFFF_FFFC then size <= 4 * Blocks(size) < size + 4 else Blocks(size) == 0
  {
  }

  predicate SmallBlocks(format: PixelFormat) {
    format in {BC1_UNORM, BC4_UNORM, BC4_SNORM, ETC1_RGB8_UNORM, EAC_R11_UNORM}
  }

  predicate LargeBlocks(format: PixelFormat) {
    format in {BC3_UNORM, BC5_UNORM, BC5_SNORM, ETC2_RGBA8_UNORM, EAC_RG11_UNORM, BC6H_UF16}
  }

  /**
   What the encoders download: 8 bytes a block in RG32_UINT for one channel and for opaque colours,
   16 bytes in RGBA32_UINT for two channels and for colours with alpha.
   */
  lemma EncodersDownload(width: nat, height: nat, format: PixelFormat)
    requires width < WORD && height < WORD
    ensures var blocks := Blocks(width) * Blocks(height);
            && (SmallBlocks(format) ==>
                  && SizeBytes(Blocks(width), Blocks(height), 1, 1, RG32_UINT, 4) == 8 * blocks
                  && SizeBytes(width, height, 1, 1, format, 4) == 8 * blocks % 0x1_0000_0000)
            && (LargeBlocks(format) ==>
                  && SizeBytes(Blocks(width), Blocks(height), 1, 1, RGBA32_UINT, 4) == 16 * blocks
                  && SizeBytes(width, height, 1, 1, format, 4) == 16 * blocks % 0x1_0000_0000)
  {
    hide Blocks, SizeBytes;
    BlocksBound(width);
    BlocksBound(height);
    BlockRowsSize(Blocks(width), Blocks(height), RG32_UINT);
    BlockRowsSize(Blocks(width), Blocks(height), RGBA32_UINT);
    if IsCompressed(format) {
      CompressedSize(width, height, format);
    }
  }

  /** The images that are loaded: four bytes a pixel, or four floats. */
  lemma SourceBytes(width: nat, height: nat)
    requires width < WORD && height < WORD
    ensures SizeBytes(width, height, 1, 1, RGBA8_UNORM_SRGB, 4) == width * 4 * height % 0x1_0000_0000_0000_0000
    ensures SizeBytes(width, height, 1, 1, RGBA8_UNORM, 4) == width * 4 * height % 0x1_0000_0000_0000_0000
    ensures SizeBytes(width, height, 1, 1, RGBA32_FLOAT, 4) == width * 16 * height % 0x1_0000_0000_0000_0000
  {
    hide SizeBytes, BytesPerRow;
    PlainSize(width, height, RGBA8_UNORM_SRGB);
    PlainSize(width, height, RGBA8_UNORM);
    PlainSize(width, height, RGBA32_FLOAT);
    RowBytes(width, RGBA8_UNORM_SRGB);
    RowBytes(width, RGBA8_UNORM);
    RowBytes(width, RGBA32_FLOAT);
  }

  // ---- unpacking rows: section 8.4.4.1 of the OpenGL 4.5 core specification ----

  datatype Element = Element(count: nat, size: nat)

  /** Elements of a pixel and their byte size, as OpenGL is told; a packed type is one element. */
  function ElementsOf(format: PixelFormat): Element
    requires !IsCompressed(format)
  {
    match format
    case RGBA32_UINT | RGBA32_FLOAT => Element(4, 4)
    case RGBA16_FLOAT => Element(4, 2)
    case R32_FLOAT => Element(1, 4)
    case RG32_UINT => Element(2, 4)
    case RGBA8_UNORM | RGBA8_UNORM_SRGB => Element(1, 4)
    case RG8_UINT => Element(2, 1)
  }

  function CeilDiv(a: nat, b: nat): nat requires b > 0 { (a + b - 1) / b }

  /** Bytes from one row to the next that OpenGL assumes. */
  function GlRowBytes(e: Element, rowLength: nat, alignment: nat): nat
    requires e.size > 0 && alignment > 0
  {
    var k := if e.size >= alignment then e.count * rowLength
             else alignment / e.size * CeilDiv(e.size * e.count * rowLength, alignment);
    k * e.size
  }

  function BytesPerRow(width: nat, format: PixelFormat): nat { SizeBytes(width, 1, 1, 1, format, 4) }

  /**
   uploadStagingTexture makes OpenGL step through the buffer by exactly its row size, and the
   rows fill the buffer exactly when its size does not wrap in 64 bits.
   */
  lemma UploadStrideIsRowSize(width: nat, height: nat, format: PixelFormat)
    requires width < WORD && height < WORD && !IsCompressed(format)
    ensures var bytesPerRow := BytesPerRow(width, format);
            && GlRowBytes(ElementsOf(format), bytesPerRow / BytesPerPixel(format), 4) == bytesPerRow
            && width * BytesPerPixel(format) <= bytesPerRow < width * BytesPerPixel(format) + 4
            && (bytesPerRow * height == SizeBytes(width, height, 1, 1, format, 4) <==> bytesPerRow * height < LONG)
  {
    hide U64, Align64, GlRowBytes;
    RowBytes(width, format);
    PlainSize(width, height, format);
    WrapsAt64(BytesPerRow(width, format) * height);
    if BytesPerPixel(format) == 2 {
      StrideOfPairs(BytesPerRow(width, format) / 2);
    } else {
      StrideOfWords(width, format);
    }
  }

  /** The size of an uncompressed image: 64-bit rows times 32-bit height. */
  lemma PlainSize(width: nat, height: nat, format: PixelFormat)
    requires width < WORD && height < WORD && !IsCompressed(format)
    ensures SizeBytes(width, height, 1, 1, format, 4) == U64(BytesPerRow(width, format) * height)
  {
    hide U64, Align64;
    RowBytes(width, format);
    assert U32(height * 1 * 1) == height;
  }

  lemma WrapsAt64(x: nat)
    ensures U64(x) == x <==> x < LONG
  {
  }

  lemma RowBytes(width: nat, format: PixelFormat)
    requires width < WORD && !IsCompressed(format)
    ensures var n := BytesPerPixel(format);
            && BytesPerRow(width, format) == (if n == 2 then (width + 1) / 2 * 4 else width * n)
            && Align64(U64(width * n), 4) == BytesPerRow(width, format)
  {
    hide U64, Align64;
    var n := BytesPerPixel(format);
    ProductMonotone(width, n, WORD, 16);
    NoWrap64(width * n);
    assert U32(1 * 1 * 1) == 1;
    if n == 2 {
      AlignPairs(width);
      NoWrap64((width + 1) / 2 * 4);
    } else {
      AlignedAlready(width * n, width * (n / 4));
    }
  }

  lemma StrideOfPairs(rowLength: nat)
    requires rowLength % 2 == 0
    ensures GlRowBytes(ElementsOf(RG8_UINT), rowLength, 4) == 2 * rowLength
  {
  }

  lemma StrideOfWords(width: nat, format: PixelFormat)
    requires width < WORD && !IsCompressed(format) && BytesPerPixel(format) != 2
    ensures width * BytesPerPixel(format) / BytesPerPixel(format) == width
    ensures GlRowBytes(ElementsOf(format), width, 4) == width * BytesPerPixel(format)
  {
    var n := BytesPerPixel(format);
    Cancels(width, n);
    assert n in {4, 8, 16};
    assert width * n == 4 * (width * (n / 4));
  }

  // ---- rounding up and dispatch groups ----

  ghost predicate LeastMultiple(m: nat, offset: nat, alignment: nat) {
    && (exists k: nat :: m == k * alignment)
    && offset <= m < offset + alignment
  }

  /** The 32-bit rounding gives the least multiple exactly when the sum inside does not wrap. */
  lemma Align32IsExact(offset: nat, alignment: nat)
    requires 0 < alignment < WORD && offset < WORD
    ensures LeastMultiple(Align32(offset, alignment), offset, alignment) <==> offset + alignment - 1 < WORD
  {
    var sum := offset + alignment - 1;
    var k := U32(sum) / alignment;
    DivBounds(U32(sum), alignment);
    if sum < WORD {
      assert Align32(offset, alignment) == k * alignment;
    } else {
      assert U32(sum) == sum - WORD < alignment;
      assert k == 0;
    }
  }

  lemma DivBounds(a: nat, b: nat)
    requires b > 0
    ensures a / b * b <= a < a / b * b + b
    ensures a < b ==> a / b == 0
  {
  }

  /**
   Work groups of tile x tile pixels cover the grid of 4x4 blocks: along each axis every block
   lies in exactly one group that is dispatched, and no group lies outside the grid.
   */
  lemma GroupsTileBlocks(size: nat, tile: nat, perGroup: nat)
    requires tile == 4 * perGroup && perGroup > 0 && size + tile - 1 < WORD
    ensures var groups := Align32(size, tile) / tile;
            && (forall block: nat :: block < Blocks(size) ==> block / perGroup < groups)
            && (forall group: nat :: group < groups ==> group * perGroup < Blocks(size))
  {
    hide Align32, Blocks;
    var groups, sum := Align32(size, tile) / tile, size + tile - 1;
    RoundsUp(size, tile);
    Cancels(sum / tile, tile);
    DivBounds(sum, tile);
    forall block: nat | block < Blocks(size) ensures block / perGroup < groups {
      BlockInGroup(size, tile, perGroup, block, groups);
    }
    forall group: nat | group < groups ensures group * perGroup < Blocks(size) {
      GroupMeetsGrid(size, tile, perGroup, group, groups);
    }
  }

  lemma RoundsUp(size: nat, tile: nat)
    requires tile > 0 && size + tile - 1 < WORD
    ensures Align32(size, tile) == (size + tile - 1) / tile * tile
  {
    DivBounds(size + tile - 1, tile);
  }

  lemma Cancels(k: nat, n: nat)
    requires n > 0
    ensures k * n / n == k
  {
    var q := k * n / n;
    DivBounds(k * n, n);
    assert q < k ==> (q + 1) * n <= k * n;
    assert q > k ==> (k + 1) * n <= q * n;
  }

  lemma BlockInGroup(size: nat, tile: nat, perGroup: nat, block: nat, groups: nat)
    requires tile == 4 * perGroup && perGroup > 0 && size + tile - 1 < WORD
    requires groups * tile <= size + tile - 1 < groups * tile + tile
    requires block < Blocks(size)
    ensures block / perGroup < groups
  {
    hide Blocks;
    DivBounds(block, perGroup);
    BlockInside(size, block);
    var group: nat := block / perGroup;
    assert group * tile == 4 * (group * perGroup);
    if group >= groups {
      ProductMonotone(groups, tile, group, tile);
    }
  }

  lemma BlockInside(size: nat, block: nat)
    requires size + 3 < WORD && block < Blocks(size)
    ensures 4 * block < size
  {
  }

  lemma GroupMeetsGrid(size: nat, tile: nat, perGroup: nat, group: nat, groups: nat)
    requires tile == 4 * perGroup && perGroup > 0 && size + tile - 1 < WORD
    requires groups * tile <= size + tile - 1 < groups * tile + tile
    requires group < groups
    ensures group * perGroup < Blocks(size)
  {
    assert (group + 1) * tile <= groups * tile;
    assert group * tile == 4 * (group * perGroup);
  }
}
