/**
How large an image is and where its rows fall, in plain terms: the sizes driver/ps5vk_image.c
computes are the least that its layout allows, level by level and as a whole. Also the images its
texel maps do not cover, for which no side is given.
*/
module ImageSizes {
  import opened Options
  import opened Arithmetic
  import opened TileGrid
  import opened Images
  import opened MipChains

  // ------------------------------------------------------------------ level extents

  /** The least multiple of a step from n on. */
  predicate RoundedUp(out: nat, n: nat, step: nat)
    requires step > 0
  {
    n <= out < n + step && Remainder(out, step) == 0
  }

  lemma AlignUpRounds(n: nat, step: nat)
    requires step > 0
    ensures RoundedUp(AlignUp(n, step), n, step)
  {
    AlignUpBounds(n, step);
    QuotientOfMultiple(DivRoundUp(n, step), 0, step);
  }

  lemma {:induction false} ShiftMeans(extent: nat, level: nat)
    ensures var e := ShiftRight(extent, level); Product(e, Pow2(level)) <= extent < Product(e + 1, Pow2(level))
  {
    if level > 0 {
      ShiftMeans(extent, level - 1);
      HalfMeans(ShiftRight(extent, level - 1), Pow2(level - 1), extent);
    }
  }

  lemma HalfMeans(before: nat, power: nat, extent: nat)
    requires Product(before, power) <= extent < Product(before + 1, power)
    ensures Product(before / 2, 2 * power) <= extent < Product(before / 2 + 1, 2 * power)
  {
    var half := before / 2;
    assert 2 * half <= before <= 2 * half + 1;
    ProductMonotone(2 * half, before, power);
    ProductMonotone(before + 1, 2 * half + 2, power);
    assert Product(half, 2 * power) == Product(2 * half, power);
    assert Product(half + 1, 2 * power) == Product(2 * half + 2, power);
  }

  /** A level's extent is the image's divided by 2^level, rounded down, and at least one. */
  lemma {:induction false} LevelExtentMeans(extent: nat, level: nat)
    ensures var e := LevelExtent(extent, level);
            && e >= 1 && extent < Product(e + 1, Pow2(level))
            && (e > 1 ==> Product(e, Pow2(level)) <= extent)
  {
    ShiftMeans(extent, level);
    ProductMonotone(ShiftRight(extent, level) + 1, LevelExtent(extent, level) + 1, Pow2(level));
  }

  /** Its extent in rows is the same, rounded up. */
  lemma {:induction false} RowExtentMeans(extent: nat, level: nat)
    requires extent > 0
    ensures var e := RowExtent(extent, level);
            e >= 1 && extent <= Product(e, Pow2(level)) && (e > 1 ==> Product(e - 1, Pow2(level)) < extent)
  {
    var p, q := Pow2(level), DivRoundUp(extent, Pow2(level));
    QuotientAndRemainder(extent + p - 1, p);
    assert extent + p - 1 < Product(q, p) + p;
    assert Product(q, p) <= extent + p - 1;
    QuotientBelow(0, extent, p);
    assert Product(q - 1, p) == Product(q, p) - p;
  }

  // ------------------------------------------------------------------ tiled storage

  /** A level takes whole tiles: as many across and down as cover it, 64 KiB each. */
  lemma {:induction false} LevelTakesTiles(width: nat, height: nat, wide: nat, high: nat, level: nat)
    requires wide > 0 && high > 0
    ensures LevelTileBytes(width, height, wide, high, 0) == 0
    ensures LevelTileBytes(width, height, wide, high, level + 1) - LevelTileBytes(width, height, wide, high, level) ==
            Product((LevelExtent(height, level) + high - 1) / high, (LevelExtent(width, level) + wide - 1) / wide) *
            0x10000
  {
    IsDivision(LevelExtent(height, level) + high - 1, high);
    IsDivision(LevelExtent(width, level) + wide - 1, wide);
  }

  /** A tiled image without stencil takes its layers' tiles, or slices of the measured chain, rounded
      up to 2 MiB. */
  lemma {:induction false} TiledSize(info: ImageInfo)
    requires ValidInfo(info) && Tiled(info) && !info.stencil
    ensures var storage := StorageOf(info);
            && storage.tiles && storage.alignment == 0x200000 && storage.stencilOffset == 0
            && RoundedUp(storage.size, Product(TiledLayerBytes(info), info.layers), 0x200000)
    ensures var (wide, high) := TileExtent(info.texelBytes, info.depth, info.samples);
            ChainOf(info) == None ==>
              TiledLayerBytes(info) == LevelTileBytes(info.width, info.height, wide, high, info.levels)
    ensures ChainOf(info).Some? ==> TiledLayerBytes(info) == ChainOf(info).value.bytes
  {
    AlignUpRounds(Product(TiledLayerBytes(info), info.layers), TILED_ALIGNMENT);
  }

  /** With stencil, the plane follows the depth layer at the next 64 KiB, a tile of 256 by 256 bytes
      for each part of each level and layer, and the whole is rounded up to 2 MiB. */
  lemma {:induction false} StencilSize(info: ImageInfo)
    requires ValidInfo(info) && info.stencil && info.levels > 0 && info.layers > 0
    ensures var storage := StorageOf(info);
            var plane := Product(LevelTileBytes(info.width, info.height, 256, 256, info.levels), info.layers);
            && storage.tiles && storage.alignment == 0x200000 && plane > 0
            && RoundedUp(storage.stencilOffset, TiledLayerBytes(info), 0x10000)
            && RoundedUp(storage.size, storage.stencilOffset + plane, 0x200000)
  {
    var tiles := LevelTileBytes(info.width, info.height, 256, 256, info.levels);
    SomeTiles(info.width, info.height, info.levels);
    ProductMonotone(1, info.layers, tiles);
    assert Product(tiles, info.layers) == info.layers * tiles;
    AlignUpRounds(TiledLayerBytes(info), TILE_BYTES);
    AlignUpRounds(AlignUp(TiledLayerBytes(info), TILE_BYTES) + Product(tiles, info.layers), TILED_ALIGNMENT);
  }

  lemma {:induction false} SomeTiles(width: nat, height: nat, levels: nat)
    requires levels > 0
    ensures LevelTileBytes(width, height, 256, 256, levels) > 0
  {
    var l := levels - 1;
    QuotientBelow(0, LevelExtent(width, l), 256);
    QuotientBelow(0, LevelExtent(height, l), 256);
    ProductMonotone(1, DivRoundUp(LevelExtent(height, l), 256), DivRoundUp(LevelExtent(width, l), 256));
  }

  // ------------------------------------------------------------------ rows

  /** A row is its texels rounded up to 256 bytes, and a level as many rows as it is high. */
  lemma RowsTake(info: ImageInfo, level: nat)
    ensures RoundedUp(RowPitch(info, level), Product(RowExtent(info.width, level), info.texelBytes), 256)
    ensures RowLevelBytes(info, level) == Product(RowPitch(info, level), RowExtent(info.height, level))
  {
    AlignUpRounds(Product(RowExtent(info.width, level), info.texelBytes), ROW_ALIGNMENT);
  }

  /** An image in rows takes its levels' rows for each layer and sample, and no more. */
  lemma {:induction false} RowSize(info: ImageInfo, level: nat)
    requires ValidInfo(info) && !Tiled(info) && level < info.levels
    ensures StorageOf(info) ==
            Storage(false, Product(Product(RowBytesFrom(info, 0), info.layers), info.samples), 256, 0)
    ensures RowBytesFrom(info, level) - RowBytesFrom(info, level + 1) == RowLevelBytes(info, level)
    ensures RowBytesFrom(info, info.levels) == 0
  {
  }

  /** An image is tiled if the GPU renders to it, if it has stencil, or where the diagnostic switch
      tiles single-level colour images whose rows would need padding. */
  lemma TiledWhen(info: ImageInfo)
    ensures Tiled(info) <==>
            || info.attachment || info.stencil
            || (info.tilePadded && !info.depth && !info.compressed && info.levels == 1 && info.layers == 1 &&
                info.samples == 1 && info.texelBytes in {1, 2, 4, 8, 16} && info.width * info.texelBytes % 256 != 0)
  {
  }

  // ------------------------------------------------------------------ images without a side

  /** No side is given to an aspect the format lacks, to two or eight samples, to several samples in
      rows or of one or two bytes, to stencil of several levels, layers or samples, to two-byte depth,
      nor to a level of several whose shape has not been measured. */
  lemma {:induction false} NoSide(info: ImageInfo, aspect: Aspect, level: nat, layer: nat, address: nat)
    requires ValidInfo(info)
    ensures aspect.ColourAspect? && (info.depth || info.stencil) ==>
              CopySide(info, aspect, level, layer, address) == None
    ensures aspect.DepthAspect? && !info.depth ==> CopySide(info, aspect, level, layer, address) == None
    ensures aspect.StencilAspect? && !info.stencil ==> CopySide(info, aspect, level, layer, address) == None
    ensures info.samples == 2 || info.samples == 8 ==> CopySide(info, aspect, level, layer, address) == None
    ensures info.samples != 1 && !Tiled(info) ==> CopySide(info, aspect, level, layer, address) == None
    ensures info.samples != 1 && Tiled(info) && !info.stencil && info.texelBytes in {1, 2} ==>
              CopySide(info, aspect, level, layer, address) == None
    ensures aspect.StencilAspect? && (info.levels != 1 || info.layers != 1 || info.samples != 1) ==>
              CopySide(info, aspect, level, layer, address) == None
    ensures info.depth && !info.stencil && Tiled(info) && info.levels == 1 && info.texelBytes == 2 ==>
              CopySide(info, aspect, level, layer, address) == None
    ensures Tiled(info) && info.levels != 1 && ChainOf(info) == None ==>
              CopySide(info, aspect, level, layer, address) == None
    ensures Tiled(info) && info.layers > 1 && info.stencil && ChainOf(info) == None ==>
              CopySide(info, aspect, level, layer, address) == None
  {
  }
}
