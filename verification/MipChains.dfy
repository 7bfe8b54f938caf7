/**
Tiled mip chains: driver/ps5vk_image.c's measured chain table, its level and layer bases and the
sides they give. The levels of a chain share one slice of storage; the levels of 64x64 texels
and less share its first 64 KiB tile, told apart only by the origins XORed into their texels'
positions.
*/
module MipChains {
  import opened Options
  import opened Arithmetic
  import opened Words
  import opened TileMaps
  import opened TileGrid
  import opened TilePlaces
  import opened CopySides
  import opened Images

  /** A level of a chain: its extent and where it starts in its slice. */
  datatype Level = Level(wide: nat, high: nat, base: nat)

  function LevelOf(chain: Chain, level: nat): Level
    requires level < |chain.bases|
  {
    Level(LevelExtent(chain.width, level), LevelExtent(chain.height, level), chain.bases[level])
  }

  /** Blocks of 128x128 four-byte texels. */
  function LevelBlocks(l: Level): nat {
    GridBlocks(l.wide, l.high, 128, 128)
  }

  /** A level with whole tiles of its own, inside its slice. */
  predicate TileLevel(l: Level, blocks: nat) {
    l.base % TILE_BYTES == 0 && l.base / TILE_BYTES + LevelBlocks(l) <= blocks
  }

  /** A level packed into the slice's first tile: small enough for its origin. */
  predicate TailLevel(l: Level) {
    || (l.base == 0x8400 && l.wide <= 64 && l.high <= 64)
    || (l.base == 0x4800 && l.wide <= 32 && l.high <= 32)
    || (l.base == 0x800 && l.wide <= 16 && l.high <= 16)
    || (l.base == 0x400 && l.wide <= 8 && l.high <= 8)
  }

  /** A larger level a and a smaller level b of one chain keep out of each other's way. */
  predicate Separate(a: Level, b: Level) {
    if TailLevel(a) then TailLevel(b) && a.base > b.base
    else if TailLevel(b) then a.base >= TILE_BYTES
    else FirstBlock(b) + LevelBlocks(b) <= FirstBlock(a)
  }

  function SliceBlocks(chain: Chain): nat {
    chain.bytes / TILE_BYTES
  }

  /** What the chain table is checked for, entry by entry. */
  ghost predicate Packed(chain: Chain) {
    && |chain.bases| == chain.levels
    && chain.bytes == SliceBlocks(chain) * TILE_BYTES && SliceBlocks(chain) > 0
    && (forall i | 0 <= i < |chain.bases| ::
          TailLevel(LevelOf(chain, i)) || TileLevel(LevelOf(chain, i), SliceBlocks(chain)))
    && (forall i | 0 < i < |chain.bases| :: Separate(LevelOf(chain, i - 1), LevelOf(chain, i)))
  }

  /** The tiles of a level, in its slice's numbering. */
  function FirstBlock(l: Level): nat {
    l.base / TILE_BYTES
  }

  lemma SeparateTransitive(a: Level, b: Level, c: Level)
    requires Separate(a, b) && Separate(b, c)
    ensures Separate(a, c)
  {
    TileFollows(FirstBlock(a), a.base);
    TileFollows(FirstBlock(b), b.base);
    BlocksFollow(FirstBlock(a), FirstBlock(b), LevelBlocks(b));
  }

  lemma TileFollows(block: nat, base: nat)
    requires block == base / TILE_BYTES
    ensures block >= 1 <==> base >= TILE_BYTES
  {
  }

  lemma BlocksFollow(a: nat, b: nat, blocks: nat)
    ensures b + blocks <= a ==> b <= a
  {
  }

  /** Consecutive levels keep apart, so all levels do. */
  lemma LevelsSeparate(chain: Chain, i: nat, j: nat)
    requires Packed(chain) && i < j < |chain.bases|
    ensures Separate(LevelOf(chain, i), LevelOf(chain, j))
    decreases j
  {
    if i < j - 1 {
      LevelsSeparate(chain, i, j - 1);
      SeparateTransitive(LevelOf(chain, i), LevelOf(chain, j - 1), LevelOf(chain, j));
    }
  }

  // The levels the table is made of: where each ends, and that it keeps clear of the next.

  const L1024: Level := Level(1024, 1024, 0x160000)
  const L512: Level := Level(512, 512, 0x60000)
  const L256: Level := Level(256, 256, 0x20000)
  const L128: Level := Level(128, 128, 0x10000)
  const L64: Level := Level(64, 64, 0x8400)
  const L32: Level := Level(32, 32, 0x4800)
  const L16: Level := Level(16, 16, 0x800)
  const L8: Level := Level(8, 8, 0x400)

  lemma Grids()
    ensures LevelBlocks(L1024) == 64 && LevelBlocks(L512) == 16
    ensures LevelBlocks(L256) == 4 && LevelBlocks(L128) == 1
  {
    IsDivision(1024 + 127, 128);
    IsDivision(512 + 127, 128);
    IsDivision(256 + 127, 128);
    IsDivision(128 + 127, 128);
  }

  lemma WholeTileLevels(blocks: nat)
    ensures blocks >= 0x56 ==> TileLevel(L1024, blocks)
    ensures blocks >= 0x16 ==> TileLevel(L512, blocks)
    ensures blocks >= 6 ==> TileLevel(L256, blocks)
    ensures blocks >= 2 ==> TileLevel(L128, blocks)
    ensures Separate(L1024, L512) && Separate(L512, L256) && Separate(L256, L128)
  {
    Grids();
  }

  lemma TailLevels()
    ensures TailLevel(L64) && TailLevel(L32) && TailLevel(L16) && TailLevel(L8)
    ensures Separate(L128, L64) && Separate(L64, L32) && Separate(L32, L16) && Separate(L16, L8)
  {
  }

  // The table's entries, level by level.

  lemma Packed_256X256_1()
    ensures Packed(CHAIN_256X256_1)
  {
    var c := CHAIN_256X256_1;
    IsDivision(256 + 127, 128);
    IsDivision(256 + 127, 128);
    assert LevelOf(c, 0) == Level(256, 256, 0x0);
  }

  lemma Packed_64X64_1()
    ensures Packed(CHAIN_64X64_1)
  {
    var c := CHAIN_64X64_1;
    IsDivision(64 + 127, 128);
    IsDivision(64 + 127, 128);
    assert LevelOf(c, 0) == Level(64, 64, 0x0);
  }

  lemma Packed_256X256_5()
    ensures Packed(CHAIN_256X256_5)
  {
    var c := CHAIN_256X256_5;
    assert SliceBlocks(c) == 0x6;
    WholeTileLevels(0x6);
    TailLevels();
    assert LevelOf(c, 0) == L256;
    assert LevelOf(c, 1) == L128;
    assert LevelOf(c, 2) == L64;
    assert LevelOf(c, 3) == L32;
    assert LevelOf(c, 4) == L16;
  }

  lemma Packed_256X256_6()
    ensures Packed(CHAIN_256X256_6)
  {
    var c := CHAIN_256X256_6;
    assert SliceBlocks(c) == 0x6;
    WholeTileLevels(0x6);
    TailLevels();
    assert LevelOf(c, 0) == L256;
    assert LevelOf(c, 1) == L128;
    assert LevelOf(c, 2) == L64;
    assert LevelOf(c, 3) == L32;
    assert LevelOf(c, 4) == L16;
    assert LevelOf(c, 5) == L8;
  }

  lemma Packed_128X128_4()
    ensures Packed(CHAIN_128X128_4)
  {
    var c := CHAIN_128X128_4;
    assert SliceBlocks(c) == 0x2;
    WholeTileLevels(0x2);
    TailLevels();
    assert LevelOf(c, 0) == L128;
    assert LevelOf(c, 1) == L64;
    assert LevelOf(c, 2) == L32;
    assert LevelOf(c, 3) == L16;
  }

  lemma Packed_512X512_5()
    ensures Packed(CHAIN_512X512_5)
  {
    var c := CHAIN_512X512_5;
    assert SliceBlocks(c) == 0x16;
    WholeTileLevels(0x16);
    TailLevels();
    assert LevelOf(c, 0) == L512;
    assert LevelOf(c, 1) == L256;
    assert LevelOf(c, 2) == L128;
    assert LevelOf(c, 3) == L64;
    assert LevelOf(c, 4) == L32;
  }

  lemma Packed_512X512_7()
    ensures Packed(CHAIN_512X512_7)
  {
    var c := CHAIN_512X512_7;
    assert SliceBlocks(c) == 0x16;
    WholeTileLevels(0x16);
    TailLevels();
    assert LevelOf(c, 0) == L512;
    assert LevelOf(c, 1) == L256;
    assert LevelOf(c, 2) == L128;
    assert LevelOf(c, 3) == L64;
    assert LevelOf(c, 4) == L32;
    assert LevelOf(c, 5) == L16;
    assert LevelOf(c, 6) == L8;
  }

  lemma Packed_1024X1024_8()
    ensures Packed(CHAIN_1024X1024_8)
  {
    var c := CHAIN_1024X1024_8;
    assert SliceBlocks(c) == 0x56;
    WholeTileLevels(0x56);
    TailLevels();
    assert LevelOf(c, 0) == L1024;
    assert LevelOf(c, 1) == L512;
    assert LevelOf(c, 2) == L256;
    assert LevelOf(c, 3) == L128;
    assert LevelOf(c, 4) == L64;
    assert LevelOf(c, 5) == L32;
    assert LevelOf(c, 6) == L16;
    assert LevelOf(c, 7) == L8;
  }

  lemma Packed_256X128_4()
    ensures Packed(CHAIN_256X128_4)
  {
    var c := CHAIN_256X128_4;
    IsDivision(256 + 127, 128);
    IsDivision(128 + 127, 128);
    IsDivision(64 + 127, 128);
    assert SliceBlocks(c) == 4;
    assert LevelOf(c, 0) == Level(256, 128, 0x20000);
    assert LevelOf(c, 1) == Level(128, 64, 0x10000);
    assert LevelOf(c, 2) == Level(64, 32, 0x8400);
    assert LevelOf(c, 3) == Level(32, 16, 0x4800);
  }

  lemma Packed_64X64_3()
    ensures Packed(CHAIN_64X64_3)
  {
    var c := CHAIN_64X64_3;
    assert SliceBlocks(c) == 0x1;
    WholeTileLevels(0x1);
    TailLevels();
    assert LevelOf(c, 0) == L64;
    assert LevelOf(c, 1) == L32;
    assert LevelOf(c, 2) == L16;
  }

  lemma Packed_32X32_2()
    ensures Packed(CHAIN_32X32_2)
  {
    var c := CHAIN_32X32_2;
    IsDivision(32 + 127, 128);
    IsDivision(32 + 127, 128);
    assert LevelOf(c, 0) == Level(32, 32, 0x8400);
    assert LevelOf(c, 1) == Level(16, 16, 0x4800);
  }

  lemma TablePacked(chain: Chain)
    requires chain in CHAINS
    ensures Packed(chain)
  {
    Packed_256X256_1();
    Packed_64X64_1();
    Packed_256X256_5();
    Packed_256X256_6();
    Packed_128X128_4();
    Packed_512X512_5();
    Packed_512X512_7();
    Packed_1024X1024_8();
    Packed_256X128_4();
    Packed_64X64_3();
    Packed_32X32_2();
  }

  // ------------------------------------------------------------------ bases and sides

  /** Where a level of a tiled image starts in its slice, if measured
      (ps5vk_image_tiled_level_base). */
  function LevelBase(info: ImageInfo, level: nat): Option<nat> {
    if level == 0 && info.levels == 1 then Some(0)
    else
      match ChainOf(info)
      case None => None
      case Some(chain) => if level < |chain.bases| then Some(chain.bases[level]) else None
  }

  /** One layer's bytes, or 0 for a tiled shape no measurement covers (ps5vk_image_layer_bytes). */
  function LayerBytes(info: ImageInfo): nat
    requires ValidInfo(info)
  {
    if !Tiled(info) then RowBytesFrom(info, 0)
    else
      match ChainOf(info)
      case Some(chain) => chain.bytes
      case None =>
        if info.levels == 1 && !info.stencil then Quotient(StorageOf(info).size, Max(info.layers, 1)) else 0
  }

  /** ps5vk_image_tiled_layer_level_base. */
  function LayerLevelBase(info: ImageInfo, level: nat, layer: nat): Option<nat>
    requires ValidInfo(info)
  {
    if layer == 0 then LevelBase(info, level)
    else if LayerBytes(info) == 0 || LevelBase(info, level).None? then None
    else Some(Product(LayerBytes(info), layer) + LevelBase(info, level).value)
  }

  /** The side of one level of one layer, if the driver has a map for it
      (ps5vk_image_copy_side). */
  function CopySide(info: ImageInfo, aspect: Aspect, level: nat, layer: nat, address: nat): Option<Side>
    requires ValidInfo(info)
  {
    if PlaneOfAspect(info, aspect).None? then None
    else
      var plane := PlaneOfAspect(info, aspect).value;
      if plane.elementBytes == 0 || info.samples == 2 || info.samples == 8 then None
      else if plane.offset != 0 && (info.levels != 1 || info.layers != 1 || info.samples != 1) then None
      else if Tiled(info) then TiledSide(info, plane, level, layer, address)
      else if info.samples != 1 then None
      else
        Some(Side(address + plane.offset + RowBytesFrom(info, level + 1), RowPitch(info, level),
                  RowExtent(info.width, level), 0, 0, 0, plane.elementBytes, 1, plane.depthMap, false))
  }

  /** The side of a level that starts at `base`: the tile it starts in, and the bits below as the
      origin of its positions. */
  function SideAtBase(address: nat, base: nat, levelWidth: nat, wide: nat, high: nat, elementBytes: nat,
                      samples: nat, depth: bool): Side {
    Side(address + Quotient(base, TILE_BYTES) * TILE_BYTES, 0, levelWidth, WordOf(Remainder(base, TILE_BYTES)),
         wide, high, elementBytes, samples, depth, true)
  }

  function TiledSide(info: ImageInfo, plane: Plane, level: nat, layer: nat, address: nat): Option<Side>
    requires ValidInfo(info) && (info.samples == 1 || info.samples == 4)
  {
    var (wide, high) := TileExtent(plane.elementBytes, plane.depthMap, info.samples);
    if !(plane.elementBytes in {4, 8, 16} || (plane.elementBytes in {1, 2} && info.samples == 1)) then None
    else if info.levels != 1 then
      match LayerLevelBase(info, level, layer)
      case None => None
      case Some(base) =>
        Some(SideAtBase(address, base, LevelExtent(info.width, level), wide, high, plane.elementBytes,
                        info.samples, plane.depthMap))
    else if info.layers > 1 && LayerBytes(info) == 0 then None
    else if plane.depthMap && plane.elementBytes * info.samples !in {1, 4, 16} then None
    else
      var offset := if info.layers > 1 then Product(LayerBytes(info), layer) else 0;
      Some(Side(address + plane.offset + offset, 0, info.width, 0, wide, high, plane.elementBytes,
                info.samples, plane.depthMap, true))
  }

  /** The side of one level of one layer of an image in the chain table. */
  function ChainSide(chain: Chain, level: nat, layer: nat, address: nat, depth: bool): Side
    requires level < |chain.bases|
  {
    SideAtBase(address, Product(chain.bytes, layer) + chain.bases[level], LevelExtent(chain.width, level),
               128, 128, 4, 1, depth)
  }

  // ------------------------------------------------------------------ the packed tail

  /** Which tail level's a position in the slice's first tile is, from its bits 15, 14 and 11. */
  function TailOf(l: bv16): nat {
    if l & 0x8000 != 0 then 0x8400 else if l & 0x4000 != 0 then 0x4800
    else if l & 0x800 != 0 then 0x800 else 0x400
  }

  lemma Tail64(x: bv16, y: bv16)
    requires x & 0xffc0 == 0 && y & 0xffc0 == 0
    ensures TailOf(Shifted(Colour4Formula(x, y), 0x8400)) == 0x8400
  {
  }

  lemma Tail32(x: bv16, y: bv16)
    requires x & 0xffe0 == 0 && y & 0xffe0 == 0
    ensures TailOf(Shifted(Colour4Formula(x, y), 0x4800)) == 0x4800
  {
  }

  lemma Tail16(x: bv16, y: bv16)
    requires x & 0xfff0 == 0 && y & 0xfff0 == 0
    ensures TailOf(Shifted(Colour4Formula(x, y), 0x800)) == 0x800
  {
  }

  lemma Tail8(x: bv16, y: bv16)
    requires x & 0xfff8 == 0 && y & 0xfff8 == 0
    ensures TailOf(Shifted(Colour4Formula(x, y), 0x400)) == 0x400
  {
  }

  /** The tail origins as words. */
  function OriginWord(base: nat): bv16 {
    if base == 0x8400 then 0x8400 else if base == 0x4800 then 0x4800
    else if base == 0x800 then 0x800 else if base == 0x400 then 0x400 else 0
  }

  lemma OriginIsBase(base: nat)
    requires base in {0, 0x8400, 0x4800, 0x800, 0x400}
    ensures WordOf(base) == OriginWord(base)
  {
    assert OriginWord(base) as nat == base;
    SameWord(WordOf(base), OriginWord(base));
  }

  /** A tail level's texel lies where its own level's positions do. */
  lemma TailPlace(l: Level, i: Coordinate, j: Coordinate)
    requires TailLevel(l) && i < l.wide && j < l.high
    ensures TailOf(Shifted(Turned(COLOUR_4, i, j, 0, 0), OriginWord(l.base))) == l.base
  {
    var x, y := WordOf(i), WordOf(j);
    Untwisted(COLOUR_4, i, j);
    Colour4Unrolled(x, y);
    if l.base == 0x8400 {
      Below64(x); Below64(y); Tail64(x, y);
    } else if l.base == 0x4800 {
      Below32(x); Below32(y); Tail32(x, y);
    } else if l.base == 0x800 {
      Below16(x); Below16(y); Tail16(x, y);
    } else {
      Below8(x); Below8(y); Tail8(x, y);
    }
  }

  // ------------------------------------------------------------------ every texel of a chain image

  /** Where a layer's slice starts. */
  function SliceStart(chain: Chain, layer: nat, address: nat): nat {
    address + Product(chain.bytes, layer)
  }

  lemma BaseParts(chain: Chain, level: nat, layer: nat)
    requires Packed(chain) && level < |chain.bases|
    ensures var base := Product(chain.bytes, layer) + chain.bases[level];
            Quotient(base, TILE_BYTES) * TILE_BYTES ==
            Product(chain.bytes, layer) + chain.bases[level] / TILE_BYTES * TILE_BYTES &&
            Remainder(base, TILE_BYTES) == chain.bases[level] % TILE_BYTES
  {
    var b := chain.bases[level];
    var k := Product(SliceBlocks(chain), layer) + b / TILE_BYTES;
    SliceProduct(SliceBlocks(chain), layer);
    assert Product(chain.bytes, layer) + b == Product(k, TILE_BYTES) + b % TILE_BYTES;
    QuotientOfMultiple(k, b % TILE_BYTES, TILE_BYTES);
  }

  lemma SliceProduct(blocks: nat, layer: nat)
    ensures Product(blocks * TILE_BYTES, layer) == Product(blocks, layer) * TILE_BYTES
  {
  }

  lemma ChainSideStart(chain: Chain, level: nat, layer: nat, address: nat, depth: bool)
    requires Packed(chain) && level < |chain.bases|
    ensures var side, l := ChainSide(chain, level, layer, address, depth), LevelOf(chain, level);
            side.address == SliceStart(chain, layer, address) + l.base / TILE_BYTES * TILE_BYTES &&
            side.tileXor == OriginWord(l.base)
  {
    BaseParts(chain, level, layer);
    var l := LevelOf(chain, level);
    assert TailLevel(l) || TileLevel(l, SliceBlocks(chain));
    OriginIsBase(l.base % TILE_BYTES);
  }

  lemma ChainColourSide(chain: Chain, level: nat, layer: nat, address: nat)
    requires Packed(chain) && level < |chain.bases|
    ensures var side := ChainSide(chain, level, layer, address, false);
            ColourSide(side) && ValidSide(side)
  {
    ChainSideStart(chain, level, layer, address, false);
    OriginAligned(chain.bases[level]);
  }

  lemma OriginAligned(base: nat)
    ensures Aligned(OriginWord(base), 4)
  {
  }

  /** A texel of a chain image: its level, its coordinates in it, and its layer. */
  datatype ChainTexel = ChainTexel(layer: nat, level: nat, x: nat, y: nat)

  predicate InChain(chain: Chain, t: ChainTexel) {
    && t.level < |chain.bases|
    && t.x < LevelOf(chain, t.level).wide && t.y < LevelOf(chain, t.level).high
  }

  /** Where ps5vk_image_copy_address puts it. */
  function ChainAddress(chain: Chain, address: nat, t: ChainTexel): nat
    requires InChain(chain, t)
  {
    AddressOf(ChainSide(chain, t.level, t.layer, address, false), t.x, t.y, 0)
  }

  /** A level with tiles of its own keeps to them. */
  lemma TileLevelAt(chain: Chain, address: nat, t: ChainTexel)
    requires Packed(chain) && InChain(chain, t) && !TailLevel(LevelOf(chain, t.level))
    ensures var start := SliceStart(chain, t.layer, address);
            var l := LevelOf(chain, t.level);
            Inside(ChainAddress(chain, address, t), 4, start + l.base / TILE_BYTES * TILE_BYTES,
                   start + (l.base / TILE_BYTES + LevelBlocks(l)) * TILE_BYTES)
  {
    ChainSideStart(chain, t.level, t.layer, address, false);
    ChainColourSide(chain, t.level, t.layer, address);
    SideTexelInside(ChainSide(chain, t.level, t.layer, address, false), LevelOf(chain, t.level).high, t.x, t.y, 0);
  }

  /** A tail level's texel is in the slice's first tile, at its level's positions. */
  lemma TailLevelAt(chain: Chain, address: nat, t: ChainTexel)
    requires Packed(chain) && InChain(chain, t) && TailLevel(LevelOf(chain, t.level))
    ensures t.x < 64 && t.y < 64
    ensures ChainAddress(chain, address, t) ==
            SliceStart(chain, t.layer, address) +
            Value(Shifted(Turned(COLOUR_4, t.x, t.y, 0, 0), OriginWord(LevelOf(chain, t.level).base)))
  {
    TailBounds(LevelOf(chain, t.level), t.x, t.y);
    ChainSideStart(chain, t.level, t.layer, address, false);
    ChainColourSide(chain, t.level, t.layer, address);
    FirstTile(ChainSide(chain, t.level, t.layer, address, false), t.x, t.y, OriginWord(LevelOf(chain, t.level).base));
  }

  lemma TailBounds(l: Level, x: nat, y: nat)
    requires TailLevel(l) && x < l.wide && y < l.high
    ensures x < 64 && y < 64 && l.base / TILE_BYTES * TILE_BYTES == 0
  {
  }

  lemma FirstTile(side: Side, x: nat, y: nat, origin: bv16)
    requires ColourSide(side) && ValidSide(side) && side.elementBytes == 4 && x < 64 && y < 64
    requires side.tileXor == origin
    ensures AddressOf(side, x, y, 0) == side.address + Value(Shifted(Turned(COLOUR_4, x, y, 0, 0), origin))
  {
    assert SideBlock(side, x, y) == 0;
    assert SideSwizzle(side, x, y) == Turned(COLOUR_4, x, y, 0, 0);
  }

  lemma TailInFirstTile(chain: Chain, address: nat, t: ChainTexel)
    requires Packed(chain) && InChain(chain, t) && TailLevel(LevelOf(chain, t.level))
    ensures var start := SliceStart(chain, t.layer, address);
            Inside(ChainAddress(chain, address, t), 4, start, start + TILE_BYTES)
  {
    TailLevelAt(chain, address, t);
    var origin := OriginWord(LevelOf(chain, t.level).base);
    Colour4OneToOne();
    TurnedAligned(COLOUR_4, t.x, t.y, 0, 0);
    OriginAligned(LevelOf(chain, t.level).base);
    ShiftedAligned(Turned(COLOUR_4, t.x, t.y, 0, 0), origin, 4);
    EndsInTile(Shifted(Turned(COLOUR_4, t.x, t.y, 0, 0), origin), 4);
  }

  /** Every texel of a layer lies in that layer's slice. */
  lemma ChainTexelInSlice(chain: Chain, address: nat, t: ChainTexel)
    requires Packed(chain) && InChain(chain, t)
    ensures var start := SliceStart(chain, t.layer, address);
            Inside(ChainAddress(chain, address, t), 4, start, start + chain.bytes)
  {
    if TailLevel(LevelOf(chain, t.level)) {
      TailInFirstTile(chain, address, t);
    } else {
      TileLevelAt(chain, address, t);
    }
  }

  lemma TailTexelsApart(chain: Chain, address: nat, t: ChainTexel, t': ChainTexel)
    requires Packed(chain) && InChain(chain, t) && InChain(chain, t') && t.layer == t'.layer
    requires TailLevel(LevelOf(chain, t.level)) && TailLevel(LevelOf(chain, t'.level))
    requires LevelOf(chain, t.level).base != LevelOf(chain, t'.level).base
    ensures Disjoint(ChainAddress(chain, address, t), 4, ChainAddress(chain, address, t'), 4)
  {
    var l, l' := LevelOf(chain, t.level), LevelOf(chain, t'.level);
    TailLevelAt(chain, address, t);
    TailLevelAt(chain, address, t');
    TailPlacesApart(l, t.x, t.y, l', t'.x, t'.y);
  }

  lemma TailPlacesApart(l: Level, i: Coordinate, j: Coordinate, l': Level, i': Coordinate, j': Coordinate)
    requires TailLevel(l) && i < l.wide && j < l.high
    requires TailLevel(l') && i' < l'.wide && j' < l'.high && l.base != l'.base
    ensures Disjoint(Value(Shifted(Turned(COLOUR_4, i, j, 0, 0), OriginWord(l.base))), 4,
                     Value(Shifted(Turned(COLOUR_4, i', j', 0, 0), OriginWord(l'.base))), 4)
  {
    var a := TailWord(l, i, j);
    var b := TailWord(l', i', j');
    TailWordsApart(a, b);
  }

  /** A tail level's texel in the slice's first tile. */
  ghost function TailWord(l: Level, i: Coordinate, j: Coordinate): (a: bv16)
    requires TailLevel(l) && i < l.wide && j < l.high
    ensures a == Shifted(Turned(COLOUR_4, i, j, 0, 0), OriginWord(l.base))
    ensures TailOf(a) == l.base && Aligned(a, 4)
  {
    TailPlace(l, i, j);
    TailAligned(l, i, j);
    Shifted(Turned(COLOUR_4, i, j, 0, 0), OriginWord(l.base))
  }

  lemma TailWordsApart(a: bv16, b: bv16)
    requires Aligned(a, 4) && Aligned(b, 4) && TailOf(a) != TailOf(b)
    ensures Disjoint(Value(a), 4, Value(b), 4)
  {
    ElementsApart(0, a, 0, b, 4);
  }

  lemma TailAligned(l: Level, i: Coordinate, j: Coordinate)
    requires TailLevel(l) && i < l.wide && j < l.high
    ensures Aligned(Shifted(Turned(COLOUR_4, i, j, 0, 0), OriginWord(l.base)), 4)
  {
    Colour4OneToOne();
    TurnedAligned(COLOUR_4, i, j, 0, 0);
    OriginAligned(l.base);
    ShiftedAligned(Turned(COLOUR_4, i, j, 0, 0), OriginWord(l.base), 4);
  }

  /** Texels of a larger and a smaller level of one layer share no byte. */
  lemma LevelsApart(chain: Chain, address: nat, t: ChainTexel, t': ChainTexel)
    requires Packed(chain) && InChain(chain, t) && InChain(chain, t') && t.layer == t'.layer
    requires t.level < t'.level
    ensures Disjoint(ChainAddress(chain, address, t), 4, ChainAddress(chain, address, t'), 4)
  {
    LevelsSeparate(chain, t.level, t'.level);
    if TailLevel(LevelOf(chain, t.level)) {
      TailTexelsApart(chain, address, t, t');
    } else {
      TileLevelAt(chain, address, t);
      if TailLevel(LevelOf(chain, t'.level)) {
        TailInFirstTile(chain, address, t');
      } else {
        TileLevelAt(chain, address, t');
      }
    }
  }

  lemma LayersApart(chain: Chain, address: nat, t: ChainTexel, t': ChainTexel)
    requires Packed(chain) && InChain(chain, t) && InChain(chain, t') && t.layer < t'.layer
    ensures Disjoint(ChainAddress(chain, address, t), 4, ChainAddress(chain, address, t'), 4)
  {
    ChainTexelInSlice(chain, address, t);
    ChainTexelInSlice(chain, address, t');
    NextSlice(chain.bytes, t.layer, t'.layer);
  }

  lemma NextSlice(bytes: nat, layer: nat, layer': nat)
    requires layer < layer'
    ensures Product(bytes, layer) + bytes <= Product(bytes, layer')
  {
    ProductMonotone(layer + 1, layer', bytes);
  }

  /** For every shape of the chain table and any number of layers, distinct texels of any layers
      and levels take bytes of their own. */
  lemma ChainTexelsApart(chain: Chain, address: nat, t: ChainTexel, t': ChainTexel)
    requires chain in CHAINS && InChain(chain, t) && InChain(chain, t') && t != t'
    ensures Disjoint(ChainAddress(chain, address, t), 4, ChainAddress(chain, address, t'), 4)
  {
    TablePacked(chain);
    PackedTexelsApart(chain, address, t, t');
  }

  lemma PackedTexelsApart(chain: Chain, address: nat, t: ChainTexel, t': ChainTexel)
    requires Packed(chain) && InChain(chain, t) && InChain(chain, t') && t != t'
    ensures Disjoint(ChainAddress(chain, address, t), 4, ChainAddress(chain, address, t'), 4)
  {
    if t.layer < t'.layer {
      LayersApart(chain, address, t, t');
    } else if t'.layer < t.layer {
      LayersApart(chain, address, t', t);
    } else if t.level < t'.level {
      LevelsApart(chain, address, t, t');
    } else if t'.level < t.level {
      LevelsApart(chain, address, t', t);
    } else {
      SameLevelApart(chain, address, t, t');
    }
  }

  lemma SameLevelApart(chain: Chain, address: nat, t: ChainTexel, t': ChainTexel)
    requires Packed(chain) && InChain(chain, t) && InChain(chain, t') && t != t'
    requires t.layer == t'.layer && t.level == t'.level
    ensures Disjoint(ChainAddress(chain, address, t), 4, ChainAddress(chain, address, t'), 4)
  {
    var side := ChainSide(chain, t.level, t.layer, address, false);
    ChainColourSide(chain, t.level, t.layer, address);
    SideTexelsApart(side, t.x, t.y, 0, t'.x, t'.y, 0);
  }

  /** And all of them lie in the layers' slices, one after the other. */
  lemma ChainTexelInside(chain: Chain, address: nat, t: ChainTexel, layers: nat)
    requires chain in CHAINS && InChain(chain, t) && t.layer < layers
    ensures Inside(ChainAddress(chain, address, t), 4, address, address + Product(chain.bytes, layers))
  {
    TablePacked(chain);
    ChainTexelInSlice(chain, address, t);
    NextSlice(chain.bytes, t.layer, layers);
  }

  // ------------------------------------------------------------------ the driver's sides are these

  /** An image the chain table covers, and the plane of it a copy works on. */
  predicate ChainImage(info: ImageInfo, chain: Chain, aspect: Aspect) {
    && ValidInfo(info) && Tiled(info) && !info.stencil && ChainOf(info) == Some(chain)
    && PlaneOfAspect(info, aspect).Some?
  }

  lemma ChainImagePlane(info: ImageInfo, chain: Chain, aspect: Aspect)
    requires ChainImage(info, chain, aspect)
    ensures chain in CHAINS && chain.levels == info.levels
    ensures chain.width == info.width && chain.height == info.height
    ensures PlaneOfAspect(info, aspect) == Some(Plane(0, 4, info.depth))
    ensures TileExtent(4, info.depth, 1) == (128, 128)
  {
    ChainFromInTable(info, 0);
    SmallPowers();
  }

  lemma SingleLevelBase(chain: Chain)
    requires chain in CHAINS && chain.levels == 1
    ensures chain.bases == [0]
  {
  }

  lemma {:induction false} WholeTileSide(address: nat, base: nat, levelWidth: nat, depth: bool)
    requires Quotient(base, TILE_BYTES) * TILE_BYTES == base && Remainder(base, TILE_BYTES) == 0
    ensures SideAtBase(address, base, levelWidth, 128, 128, 4, 1, depth) ==
            Side(address + base, 0, levelWidth, 0, 128, 128, 4, 1, depth, true)
  {
    OriginIsBase(0);
  }

  lemma SingleLevelSide(chain: Chain, layer: nat, address: nat, depth: bool)
    requires Packed(chain) && chain.bases == [0]
    ensures ChainSide(chain, 0, layer, address, depth) ==
            Side(SliceStart(chain, layer, address), 0, LevelExtent(chain.width, 0), 0, 128, 128, 4, 1, depth, true)
  {
    BaseParts(chain, 0, layer);
    WholeTileSide(address, Product(chain.bytes, layer), LevelExtent(chain.width, 0), depth);
  }

  /** ps5vk_image_copy_side gives exactly these sides to every level and layer of an image the
      table covers. */
  lemma CopySideOfChain(info: ImageInfo, chain: Chain, aspect: Aspect, level: nat, layer: nat, address: nat)
    requires ChainImage(info, chain, aspect) && level < info.levels && layer < info.layers
    ensures |chain.bases| == info.levels
    ensures CopySide(info, aspect, level, layer, address) ==
            Some(ChainSide(chain, level, layer, address, info.depth))
  {
    ChainImagePlane(info, chain, aspect);
    TablePacked(chain);
    if info.levels == 1 {
      SingleLevelBase(chain);
      SingleChainSide(info, chain, layer, address);
    } else {
      LevelChainSide(info, chain, level, layer, address);
    }
  }

  lemma SingleChainSide(info: ImageInfo, chain: Chain, layer: nat, address: nat)
    requires ValidInfo(info) && Tiled(info) && ChainOf(info) == Some(chain) && Packed(chain)
    requires info.levels == 1 && layer < info.layers && chain.bases == [0] && chain.width == info.width
    requires TileExtent(4, info.depth, 1) == (128, 128)
    ensures TiledSide(info, Plane(0, 4, info.depth), 0, layer, address) ==
            Some(ChainSide(chain, 0, layer, address, info.depth))
  {
    SingleLevelSide(chain, layer, address, info.depth);
  }

  lemma LevelChainSide(info: ImageInfo, chain: Chain, level: nat, layer: nat, address: nat)
    requires ValidInfo(info) && Tiled(info) && ChainOf(info) == Some(chain) && Packed(chain)
    requires info.levels != 1 && level < |chain.bases| && chain.width == info.width
    requires TileExtent(4, info.depth, 1) == (128, 128)
    ensures TiledSide(info, Plane(0, 4, info.depth), level, layer, address) ==
            Some(ChainSide(chain, level, layer, address, info.depth))
  {
    ChainLevelBase(info, chain, level, layer);
    BaseSide(info, level, layer, address, Product(chain.bytes, layer) + chain.bases[level]);
  }

  /** The side of a level of several, from its base. */
  lemma BaseSide(info: ImageInfo, level: nat, layer: nat, address: nat, base: nat)
    requires ValidInfo(info) && info.samples == 1 && info.levels != 1
    requires TileExtent(4, info.depth, 1) == (128, 128) && LayerLevelBase(info, level, layer) == Some(base)
    ensures TiledSide(info, Plane(0, 4, info.depth), level, layer, address) ==
            Some(SideAtBase(address, base, LevelExtent(info.width, level), 128, 128, 4, 1, info.depth))
  {
  }

  lemma ChainLevelBase(info: ImageInfo, chain: Chain, level: nat, layer: nat)
    requires ValidInfo(info) && Tiled(info) && ChainOf(info) == Some(chain) && Packed(chain)
    requires info.levels != 1 && level < |chain.bases|
    ensures LayerLevelBase(info, level, layer) == Some(Product(chain.bytes, layer) + chain.bases[level])
  {
    ChainLayerBytes(info, chain);
    assert LevelBase(info, level) == Some(chain.bases[level]);
  }

  lemma ChainLayerBytes(info: ImageInfo, chain: Chain)
    requires ValidInfo(info) && Tiled(info) && ChainOf(info) == Some(chain)
    ensures LayerBytes(info) == chain.bytes
  {
  }

  /** And the image's size covers its layers' slices. */
  lemma ChainImageSize(info: ImageInfo, chain: Chain, aspect: Aspect)
    requires ChainImage(info, chain, aspect)
    ensures Product(chain.bytes, info.layers) <= StorageOf(info).size
  {
    AlignUpBounds(Product(chain.bytes, info.layers), TILED_ALIGNMENT);
  }

  /** The sides ps5vk_image_copy_side gives the planes of a single-level image are the ones their
      texels were placed with; only the two-byte depth plane has no copies. */
  lemma CopySideOfPlane(info: ImageInfo, aspect: Aspect, address: nat)
    requires SingleLevel(info) && PlaneOfAspect(info, aspect).Some?
    ensures var plane := PlaneOfAspect(info, aspect).value;
            CopySide(info, aspect, 0, 0, address) ==
            if plane.depthMap && plane.elementBytes == 2 then None else Some(PlaneSide(info, plane, address))
  {
    var plane := PlaneOfAspect(info, aspect).value;
    MappedPlane(info, aspect);
    SinglePlaneSide(info, plane, address);
  }

  lemma MappedPlane(info: ImageInfo, aspect: Aspect)
    requires SingleLevel(info) && PlaneOfAspect(info, aspect).Some?
    ensures var plane := PlaneOfAspect(info, aspect).value;
            && (info.samples == 1 || (info.samples == 4 && plane.elementBytes == 4 && plane.offset == 0))
            && ElementSize(plane.elementBytes) && (plane.depthMap ==> plane.elementBytes in {1, 2, 4})
  {
  }

  lemma SinglePlaneSide(info: ImageInfo, plane: Plane, address: nat)
    requires ValidInfo(info) && info.levels == 1 && info.layers == 1 && ElementSize(plane.elementBytes)
    requires info.samples == 1 || (info.samples == 4 && plane.elementBytes == 4)
    requires plane.depthMap ==> plane.elementBytes in {1, 2, 4}
    ensures TiledSide(info, plane, 0, 0, address) ==
            if plane.depthMap && plane.elementBytes == 2 then None else Some(PlaneSide(info, plane, address))
  {
  }
}
