/**
Image storage: driver/ps5vk_image.c's size and plane computation (ps5vk_image_storage,
ps5vk_image_stencil_plane), the planes an aspect selects and the side a single-level plane
gives, with the proof that every texel of every plane has bytes of its own inside the image.
*/
module Images {
  import opened Options
  import opened Arithmetic
  import opened Words
  import opened TileGrid
  import opened TilePlaces
  import opened CopySides

  const TILED_ALIGNMENT: nat := 0x200000
  const ROW_ALIGNMENT: nat := 256
  const STENCIL_TILE: nat := 256

  /** What vkCreateImage asks for, as far as storage goes. texelBytes is the format's block
      size; attachment says the usage has a colour or depth attachment bit; tilePadded is the
      diagnostic switch that tiles padded single-level images. */
  datatype ImageInfo = ImageInfo(
    width: nat, height: nat, levels: nat, layers: nat, samples: nat, texelBytes: nat,
    depth: bool, stencil: bool, compressed: bool, attachment: bool, tilePadded: bool)

  predicate ValidInfo(info: ImageInfo) {
    info.width > 0 && info.height > 0 && SampleCount(info.samples)
  }

  function Max(a: nat, b: nat): nat {
    if a > b then a else b
  }

  /** extent >> level. */
  function ShiftRight(extent: nat, level: nat): nat {
    if level == 0 then extent else ShiftRight(extent, level - 1) / 2
  }

  /** A level's extent: halved and rounded down, at least one. */
  function LevelExtent(extent: nat, level: nat): nat {
    Max(ShiftRight(extent, level), 1)
  }

  /** A level's storage extent in row layout: halved and rounded up, at least one. */
  function RowExtent(extent: nat, level: nat): nat {
    Max(DivRoundUp(extent, Pow2(level)), 1)
  }

  predicate PaddedSingle(info: ImageInfo) {
    && !info.depth && !info.compressed && info.levels == 1 && info.layers == 1 && info.samples == 1
    && ElementSize(info.texelBytes) && info.width * info.texelBytes % 256 != 0
  }

  predicate Tiled(info: ImageInfo) {
    info.attachment || info.stencil || (info.tilePadded && PaddedSingle(info))
  }

  /** The tiled mip chains whose level bases have been measured: four-byte texels, one sample,
      one slice. A base's low 16 bits are the origin XORed into the level's positions. */
  datatype Chain = Chain(width: nat, height: nat, levels: nat, bytes: nat, bases: seq<nat>)

  const CHAIN_256X256_1: Chain :=
    Chain(256, 256, 1, 0x40000, [0x0])
  const CHAIN_64X64_1: Chain :=
    Chain(64, 64, 1, 0x10000, [0x0])
  const CHAIN_256X256_5: Chain :=
    Chain(256, 256, 5, 0x60000, [0x20000, 0x10000, 0x8400, 0x4800, 0x800])
  const CHAIN_256X256_6: Chain :=
    Chain(256, 256, 6, 0x60000, [0x20000, 0x10000, 0x8400, 0x4800, 0x800, 0x400])
  const CHAIN_128X128_4: Chain :=
    Chain(128, 128, 4, 0x20000, [0x10000, 0x8400, 0x4800, 0x800])
  const CHAIN_512X512_5: Chain :=
    Chain(512, 512, 5, 0x160000, [0x60000, 0x20000, 0x10000, 0x8400, 0x4800])
  const CHAIN_512X512_7: Chain :=
    Chain(512, 512, 7, 0x160000, [0x60000, 0x20000, 0x10000, 0x8400, 0x4800, 0x800, 0x400])
  const CHAIN_1024X1024_8: Chain :=
    Chain(1024, 1024, 8, 0x560000, [0x160000, 0x60000, 0x20000, 0x10000, 0x8400, 0x4800, 0x800, 0x400])
  const CHAIN_256X128_4: Chain :=
    Chain(256, 128, 4, 0x40000, [0x20000, 0x10000, 0x8400, 0x4800])
  const CHAIN_64X64_3: Chain :=
    Chain(64, 64, 3, 0x10000, [0x8400, 0x4800, 0x800])
  const CHAIN_32X32_2: Chain :=
    Chain(32, 32, 2, 0x10000, [0x8400, 0x4800])

  const CHAINS: seq<Chain> := [
    CHAIN_256X256_1, CHAIN_64X64_1, CHAIN_256X256_5, CHAIN_256X256_6, CHAIN_128X128_4,
    CHAIN_512X512_5, CHAIN_512X512_7, CHAIN_1024X1024_8, CHAIN_256X128_4, CHAIN_64X64_3,
    CHAIN_32X32_2]

  predicate ChainFits(chain: Chain, info: ImageInfo) {
    chain.width == info.width && chain.height == info.height && chain.levels == info.levels
  }

  /** The first table entry from index i on that has the image's shape. */
  function ChainFrom(info: ImageInfo, i: nat): Option<Chain>
    requires i <= |CHAINS|
    decreases |CHAINS| - i
  {
    if i == |CHAINS| then None
    else if ChainFits(CHAINS[i], info) then Some(CHAINS[i])
    else ChainFrom(info, i + 1)
  }

  /** The table entry that lays out one layer of the image, if any does (ps5vk_tiled_chain_of). */
  function ChainOf(info: ImageInfo): Option<Chain> {
    if info.texelBytes != 4 || info.samples != 1 then None else ChainFrom(info, 0)
  }

  lemma {:induction false} ChainFromInTable(info: ImageInfo, i: nat)
    requires i <= |CHAINS|
    ensures ChainFrom(info, i).Some? ==>
              ChainFrom(info, i).value in CHAINS && ChainFits(ChainFrom(info, i).value, info)
    decreases |CHAINS| - i
  {
    if i < |CHAINS| && !ChainFits(CHAINS[i], info) {
      ChainFromInTable(info, i + 1);
    }
  }

  // ------------------------------------------------------------------ sizes

  function TileWide(info: ImageInfo): nat
    requires ValidInfo(info)
  {
    TileExtent(info.texelBytes, info.depth, info.samples).0
  }

  function TileHigh(info: ImageInfo): nat
    requires ValidInfo(info)
  {
    TileExtent(info.texelBytes, info.depth, info.samples).1
  }

  /** The tile bytes of the levels before `level`. */
  function LevelTileBytes(width: nat, height: nat, wide: nat, high: nat, level: nat): nat
    requires wide > 0 && high > 0
  {
    if level == 0 then 0
    else LevelTileBytes(width, height, wide, high, level - 1) +
         GridBlocks(LevelExtent(width, level - 1), LevelExtent(height, level - 1), wide, high) * TILE_BYTES
  }

  /** One layer's bytes of a tiled image: a measured chain's, or every level's tiles in turn. */
  function TiledLayerBytes(info: ImageInfo): nat
    requires ValidInfo(info)
  {
    if ChainOf(info).Some? then ChainOf(info).value.bytes
    else LevelTileBytes(info.width, info.height, TileWide(info), TileHigh(info), info.levels)
  }

  function StencilBytes(info: ImageInfo): nat {
    if !info.stencil then 0
    else Product(LevelTileBytes(info.width, info.height, STENCIL_TILE, STENCIL_TILE, info.levels), info.layers)
  }

  function RowPitch(info: ImageInfo, level: nat): nat {
    AlignUp(Product(RowExtent(info.width, level), info.texelBytes), ROW_ALIGNMENT)
  }

  function RowLevelBytes(info: ImageInfo, level: nat): nat {
    Product(RowPitch(info, level), RowExtent(info.height, level))
  }

  /** The row bytes of levels `first` and smaller ones: where level first - 1 starts. */
  function RowBytesFrom(info: ImageInfo, first: nat): nat
    decreases info.levels - first
  {
    if first >= info.levels then 0 else RowLevelBytes(info, first) + RowBytesFrom(info, first + 1)
  }

  datatype Storage = Storage(tiles: bool, size: nat, alignment: nat, stencilOffset: nat)

  /** A tiled image: its layers' tiles, then the stencil plane when it has one. */
  function TiledStorage(layerBytes: nat, layers: nat, stencil: bool, stencilBytes: nat): Storage {
    var offset := if stencil then AlignUp(layerBytes, TILE_BYTES) else 0;
    var bytes := if stencilBytes != 0 then offset + stencilBytes else Product(layerBytes, layers);
    Storage(true, AlignUp(bytes, TILED_ALIGNMENT), TILED_ALIGNMENT, offset)
  }

  /** ps5vk_image_storage. */
  function StorageOf(info: ImageInfo): Storage
    requires ValidInfo(info)
  {
    if Tiled(info) then
      TiledStorage(TiledLayerBytes(info), info.layers, info.stencil, StencilBytes(info))
    else
      Storage(false, Product(Product(RowBytesFrom(info, 0), info.layers), info.samples), ROW_ALIGNMENT, 0)
  }

  method SumTiles(width: nat, height: nat, levels: nat, wide: nat, high: nat) returns (bytes: nat)
    requires wide > 0 && high > 0
    ensures bytes == LevelTileBytes(width, height, wide, high, levels)
  {
    bytes := 0;
    for level := 0 to levels
      invariant bytes == LevelTileBytes(width, height, wide, high, level)
    {
      bytes := bytes +
               GridBlocks(LevelExtent(width, level), LevelExtent(height, level), wide, high) * TILE_BYTES;
    }
  }

  method FindChain(info: ImageInfo) returns (found: Option<Chain>)
    ensures found == ChainFrom(info, 0)
  {
    for i := 0 to |CHAINS|
      invariant ChainFrom(info, 0) == ChainFrom(info, i)
    {
      if ChainFits(CHAINS[i], info) {
        return Some(CHAINS[i]);
      }
    }
    return None;
  }

  method LayerSize(info: ImageInfo) returns (layerBytes: nat)
    requires ValidInfo(info)
    ensures layerBytes == TiledLayerBytes(info)
  {
    layerBytes := SumTiles(info.width, info.height, info.levels, TileWide(info), TileHigh(info));
    var chain := FindChain(info);
    if info.texelBytes == 4 && info.samples == 1 && chain.Some? {
      layerBytes := chain.value.bytes;
    }
  }

  method StencilSize(info: ImageInfo) returns (bytes: nat)
    ensures bytes == StencilBytes(info)
  {
    if !info.stencil {
      return 0;
    }
    bytes := SumTiles(info.width, info.height, info.levels, STENCIL_TILE, STENCIL_TILE);
    bytes := Product(bytes, info.layers);
  }

  method SumRows(info: ImageInfo) returns (bytes: nat)
    ensures bytes == RowBytesFrom(info, 0)
  {
    bytes := 0;
    for level := 0 to info.levels
      invariant bytes + RowBytesFrom(info, level) == RowBytesFrom(info, 0)
    {
      bytes := bytes + RowLevelBytes(info, level);
    }
  }

  /** ps5vk_image_storage: the size and placement the loops over levels and over the chain table
      arrive at. */
  method ComputeStorage(info: ImageInfo) returns (storage: Storage)
    requires ValidInfo(info)
    ensures storage == StorageOf(info)
  {
    if Tiled(info) {
      var layerBytes := LayerSize(info);
      var stencilBytes := StencilSize(info);
      storage := TiledStorage(layerBytes, info.layers, info.stencil, stencilBytes);
    } else {
      var layerBytes := SumRows(info);
      storage := Storage(false, Product(Product(layerBytes, info.layers), info.samples), ROW_ALIGNMENT, 0);
    }
  }

  // ------------------------------------------------------------------ planes of a single-level image

  datatype Aspect = ColourAspect | DepthAspect | StencilAspect

  /** One plane of an image: its offset, its element's size and whether it walks a depth map. */
  datatype Plane = Plane(offset: nat, elementBytes: nat, depthMap: bool)

  /** The plane an aspect selects, if the format has it (ps5vk_image_plane). */
  function PlaneOfAspect(info: ImageInfo, aspect: Aspect): Option<Plane>
    requires ValidInfo(info)
  {
    if !info.depth && !info.stencil then
      if aspect.ColourAspect? then Some(Plane(0, info.texelBytes, false)) else None
    else if aspect.DepthAspect? && info.depth then
      Some(Plane(0, if info.stencil then 4 else info.texelBytes, true))
    else if aspect.StencilAspect? && info.stencil && StorageOf(info).stencilOffset != 0 then
      Some(Plane(StorageOf(info).stencilOffset, 1, true))
    else None
  }

  /** The side of a tiled single-level, single-layer image's plane, from the image's address. */
  function PlaneSide(info: ImageInfo, plane: Plane, address: nat): Side
    requires ValidInfo(info)
  {
    var (wide, high) := TileExtent(plane.elementBytes, plane.depthMap, info.samples);
    Side(address + plane.offset, 0, info.width, 0, wide, high, plane.elementBytes,
         if info.samples == 4 then 4 else 1, plane.depthMap, true)
  }

  /** The formats and sample counts the driver has a texel map for: every colour element size at
      one sample, four-byte colour and depth at four, the depth formats, and a stencil only
      beside a four-byte depth at one sample (vkCreateImage refuses the rest). */
  predicate MappedFormat(info: ImageInfo) {
    && (info.samples == 1 || (info.samples == 4 && info.texelBytes == 4 && !info.stencil))
    && (if info.stencil then info.depth && info.texelBytes in {4, 8}
        else if info.depth then info.texelBytes in {2, 4}
        else ElementSize(info.texelBytes))
  }

  predicate SingleLevel(info: ImageInfo) {
    ValidInfo(info) && Tiled(info) && MappedFormat(info) && info.levels == 1 && info.layers == 1
  }

  lemma ColourExtent(bytes: nat)
    requires ElementSize(bytes)
    ensures TileExtent(bytes, false, 1) == (ColourShape(bytes).wide, ColourShape(bytes).high)
  {
    SmallPowers();
  }

  lemma DepthExtent(bytes: nat)
    requires bytes in {1, 2, 4}
    ensures TileExtent(bytes, true, 1) == (DepthShape(bytes).wide, DepthShape(bytes).high)
  {
    SmallPowers();
  }

  lemma FourSampleExtent(depth: bool)
    ensures TileExtent(4, depth, 4) == (64, 64)
  {
    SmallPowers();
  }

  lemma PlaneSideMapped(info: ImageInfo, aspect: Aspect, address: nat)
    requires SingleLevel(info) && PlaneOfAspect(info, aspect).Some?
    ensures var side := PlaneSide(info, PlaneOfAspect(info, aspect).value, address);
            MappedSide(side) && ValidSide(side) && side.samples == info.samples && side.tileXor == 0
  {
    FourSampleExtent(info.depth);
    if info.samples == 1 {
      if aspect.ColourAspect? {
        ColourExtent(info.texelBytes);
        ZeroAligned(info.texelBytes);
      } else {
        DepthExtent(PlaneOfAspect(info, aspect).value.elementBytes);
      }
    }
  }

  lemma ZeroAligned(bytes: nat)
    requires ElementSize(bytes)
    ensures Aligned(0, bytes)
  {
  }

  lemma {:induction false} OneLevelTiles(width: nat, height: nat, wide: nat, high: nat)
    requires width > 0 && height > 0 && wide > 0 && high > 0
    ensures LevelTileBytes(width, height, wide, high, 1) == GridBlocks(width, height, wide, high) * TILE_BYTES
  {
    assert LevelTileBytes(width, height, wide, high, 0) == 0;
  }

  /** The single-level chains are exactly their grid of 128x128 tiles. */
  lemma SingleGrid(chain: Chain)
    requires chain in CHAINS && chain.levels == 1
    ensures GridBlocks(chain.width, chain.height, 128, 128) * TILE_BYTES == chain.bytes
  {
    if chain.width == 256 {
      IsDivision(256 + 127, 128);
    } else {
      IsDivision(64 + 127, 128);
    }
  }

  lemma SingleChain(info: ImageInfo)
    requires info.levels == 1 && ChainOf(info).Some?
    ensures ChainOf(info).value.bytes == GridBlocks(info.width, info.height, 128, 128) * TILE_BYTES
  {
    ChainFromInTable(info, 0);
    SingleGrid(ChainOf(info).value);
  }

  lemma ChainTile(info: ImageInfo)
    requires ValidInfo(info) && ChainOf(info).Some?
    ensures TileWide(info) == 128 && TileHigh(info) == 128
  {
    SmallPowers();
  }

  /** The tiles of a single-level image's first plane are the bytes its layer is given. */
  lemma LayerIsGrid(info: ImageInfo, wide: nat, high: nat)
    requires SingleLevel(info) && wide == TileWide(info) > 0 && high == TileHigh(info) > 0
    ensures TiledLayerBytes(info) == GridBlocks(info.width, info.height, wide, high) * TILE_BYTES
  {
    if ChainOf(info).Some? {
      SingleChain(info);
      ChainTile(info);
    } else {
      OneLevelTiles(info.width, info.height, wide, high);
    }
  }

  // ------------------------------------------------------------------ every texel of an image

  /** One sample of one texel of one plane. */
  datatype Texel = Texel(aspect: Aspect, x: nat, y: nat, sample: Sample)

  predicate HasTexel(info: ImageInfo, t: Texel)
    requires ValidInfo(info)
  {
    && PlaneOfAspect(info, t.aspect).Some?
    && t.x < info.width && t.y < info.height && t.sample < info.samples
  }

  function TexelSide(info: ImageInfo, address: nat, t: Texel): Side
    requires ValidInfo(info) && HasTexel(info, t)
  {
    PlaneSide(info, PlaneOfAspect(info, t.aspect).value, address)
  }

  /** Where the texel's sample is, and how many bytes it takes. */
  function TexelAddress(info: ImageInfo, address: nat, t: Texel): nat
    requires SingleLevel(info) && HasTexel(info, t)
  {
    PlaneSideMapped(info, t.aspect, address);
    AddressOf(TexelSide(info, address, t), t.x, t.y, t.sample)
  }

  function TexelSize(info: ImageInfo, t: Texel): nat
    requires ValidInfo(info) && HasTexel(info, t)
  {
    PlaneOfAspect(info, t.aspect).value.elementBytes
  }

  lemma LayerAligned(info: ImageInfo)
    requires SingleLevel(info)
    ensures AlignUp(TiledLayerBytes(info), TILE_BYTES) == TiledLayerBytes(info)
  {
    LayerIsGrid(info, TileWide(info), TileHigh(info));
    AlignUpMultiple(GridBlocks(info.width, info.height, TileWide(info), TileHigh(info)), TILE_BYTES);
  }

  /** The stencil plane starts exactly where the depth tiles end, and the image's size covers
      whatever planes it has. */
  lemma PlanesFit(info: ImageInfo)
    requires SingleLevel(info)
    ensures info.stencil ==> StorageOf(info).stencilOffset == TiledLayerBytes(info)
    ensures TiledLayerBytes(info) + StencilBytes(info) <= StorageOf(info).size
  {
    LayerAligned(info);
    TiledStorageFits(TiledLayerBytes(info), info.stencil, StencilBytes(info));
  }

  lemma TiledStorageFits(layerBytes: nat, stencil: bool, stencilBytes: nat)
    requires AlignUp(layerBytes, TILE_BYTES) == layerBytes && (!stencil ==> stencilBytes == 0)
    ensures var storage := TiledStorage(layerBytes, 1, stencil, stencilBytes);
            (stencil ==> storage.stencilOffset == layerBytes) && layerBytes + stencilBytes <= storage.size
  {
    if stencilBytes != 0 {
      AlignUpBounds(layerBytes + stencilBytes, TILED_ALIGNMENT);
    } else {
      AlignUpBounds(Product(layerBytes, 1), TILED_ALIGNMENT);
    }
  }

  lemma StencilIsGrid(info: ImageInfo)
    requires SingleLevel(info) && info.stencil
    ensures StencilBytes(info) == GridBlocks(info.width, info.height, 256, 256) * TILE_BYTES
  {
    OneLevelTiles(info.width, info.height, 256, 256);
  }

  lemma FirstPlaneTile(info: ImageInfo, aspect: Aspect)
    requires SingleLevel(info) && PlaneOfAspect(info, aspect).Some? && !aspect.StencilAspect?
    ensures var plane := PlaneOfAspect(info, aspect).value;
            TileExtent(plane.elementBytes, plane.depthMap, info.samples) == (TileWide(info), TileHigh(info))
  {
    var plane := PlaneOfAspect(info, aspect).value;
    assert Log2Bytes(plane.elementBytes, plane.depthMap) == Log2Bytes(info.texelBytes, info.depth);
  }

  lemma FirstPlaneGrid(info: ImageInfo, address: nat, t: Texel)
    requires SingleLevel(info) && HasTexel(info, t) && !t.aspect.StencilAspect?
    ensures var side := TexelSide(info, address, t);
            side.address == address && ValidSide(side) && side.tiled &&
            GridBytes(side, info.height) == TiledLayerBytes(info)
  {
    PlaneSideMapped(info, t.aspect, address);
    FirstPlaneTile(info, t.aspect);
    LayerIsGrid(info, TileWide(info), TileHigh(info));
  }

  lemma StencilPlaneGrid(info: ImageInfo, address: nat, t: Texel)
    requires SingleLevel(info) && HasTexel(info, t) && t.aspect.StencilAspect?
    ensures var side := TexelSide(info, address, t);
            side.address == address + TiledLayerBytes(info) && ValidSide(side) && side.tiled &&
            GridBytes(side, info.height) == StencilBytes(info)
  {
    PlaneSideMapped(info, t.aspect, address);
    PlanesFit(info);
    StencilIsGrid(info);
    DepthExtent(1);
  }

  /** Each texel lies in its own plane: colour and depth in the layer's tiles, stencil after. */
  lemma TexelInPlane(info: ImageInfo, address: nat, t: Texel)
    requires SingleLevel(info) && HasTexel(info, t)
    ensures var layer := address + TiledLayerBytes(info);
            if t.aspect.StencilAspect?
            then Inside(TexelAddress(info, address, t), TexelSize(info, t), layer, layer + StencilBytes(info))
            else Inside(TexelAddress(info, address, t), TexelSize(info, t), address, layer)
  {
    PlaneSideMapped(info, t.aspect, address);
    if t.aspect.StencilAspect? {
      StencilPlaneGrid(info, address, t);
    } else {
      FirstPlaneGrid(info, address, t);
    }
    SideTexelInside(TexelSide(info, address, t), info.height, t.x, t.y, t.sample);
  }

  /** Every texel and sample of a single-level image lies inside the bytes the driver sized. */
  lemma ImageTexelInside(info: ImageInfo, address: nat, t: Texel)
    requires SingleLevel(info) && HasTexel(info, t)
    ensures Inside(TexelAddress(info, address, t), TexelSize(info, t),
                   address, address + StorageOf(info).size)
  {
    TexelInPlane(info, address, t);
    PlanesFit(info);
  }

  /** No two texels or samples of a single-level image share a byte, in one plane or across the
      depth and stencil planes of a combined image. */
  lemma ImageTexelsApart(info: ImageInfo, address: nat, t: Texel, t': Texel)
    requires SingleLevel(info) && HasTexel(info, t) && HasTexel(info, t') && t != t'
    ensures Disjoint(TexelAddress(info, address, t), TexelSize(info, t),
                     TexelAddress(info, address, t'), TexelSize(info, t'))
  {
    if t.aspect == t'.aspect {
      PlaneSideMapped(info, t.aspect, address);
      SideTexelsApart(TexelSide(info, address, t), t.x, t.y, t.sample, t'.x, t'.y, t'.sample);
    } else {
      TexelInPlane(info, address, t);
      TexelInPlane(info, address, t');
    }
  }
}
