/**
Row-layout images: driver/ps5vk_image.c's level layout. Levels are stored smallest first, each
row padded to 256 bytes, and layers follow each other slice by slice.
*/
module RowImages {
  import opened Arithmetic
  import opened TileGrid
  import opened CopySides
  import opened Images
  import opened MipChains

  /** ps5vk_image_level_layout: a level starts where the smaller ones end. */
  method LevelLayout(info: ImageInfo, level: nat) returns (offset: nat, rowPitch: nat, wide: nat, high: nat)
    requires level < info.levels
    ensures offset == RowBytesFrom(info, level + 1)
    ensures offset + Product(rowPitch, high) == RowBytesFrom(info, level)
    ensures rowPitch == RowPitch(info, level)
    ensures wide == RowExtent(info.width, level) && high == RowExtent(info.height, level)
  {
    offset := 0;
    for index := level + 1 to info.levels
      invariant offset + RowBytesFrom(info, index) == RowBytesFrom(info, level + 1)
    {
      wide, high := RowExtent(info.width, index), RowExtent(info.height, index);
      offset := offset + Product(AlignUp(Product(wide, info.texelBytes), ROW_ALIGNMENT), high);
    }
    wide, high := RowExtent(info.width, level), RowExtent(info.height, level);
    rowPitch := AlignUp(Product(wide, info.texelBytes), ROW_ALIGNMENT);
  }

  /** ps5vk_image_layer_bytes of a row image: the loop over level layouts is the slice. */
  method LayerSlice(info: ImageInfo) returns (slice: nat)
    ensures slice == RowBytesFrom(info, 0)
  {
    slice := 0;
    for level := 0 to info.levels
      invariant slice + RowBytesFrom(info, level) == RowBytesFrom(info, 0)
    {
      var _, rowPitch, _, high := LevelLayout(info, level);
      slice := slice + Product(rowPitch, high);
    }
  }

  // ------------------------------------------------------------------ every texel of a row image

  datatype RowTexel = RowTexel(layer: nat, level: nat, x: nat, y: nat)

  predicate InRows(info: ImageInfo, t: RowTexel) {
    && t.layer < info.layers && t.level < info.levels
    && t.x < RowExtent(info.width, t.level) && t.y < RowExtent(info.height, t.level)
  }

  /** A texel's offset in its level. */
  function InLevel(info: ImageInfo, t: RowTexel): nat {
    Product(t.y, RowPitch(info, t.level)) + Product(t.x, info.texelBytes)
  }

  /** Where an upload puts a texel: its layer's slice, its level, its row. */
  function RowAddress(info: ImageInfo, address: nat, t: RowTexel): nat {
    address + Product(RowBytesFrom(info, 0), t.layer) + RowBytesFrom(info, t.level + 1) + InLevel(info, t)
  }

  lemma InRow(info: ImageInfo, level: nat, x: nat)
    requires x < RowExtent(info.width, level)
    ensures Product(x, info.texelBytes) + info.texelBytes <= RowPitch(info, level)
  {
    ProductMonotone(x + 1, RowExtent(info.width, level), info.texelBytes);
    AlignUpBounds(Product(RowExtent(info.width, level), info.texelBytes), ROW_ALIGNMENT);
  }

  lemma NextRow(y: nat, y': nat, pitch: nat)
    requires y < y'
    ensures Product(y, pitch) + pitch <= Product(y', pitch)
  {
    ProductMonotone(y + 1, y', pitch);
  }

  lemma TexelInLevel(info: ImageInfo, t: RowTexel)
    requires InRows(info, t)
    ensures InLevel(info, t) + info.texelBytes <= RowLevelBytes(info, t.level)
  {
    InRow(info, t.level, t.x);
    NextRow(t.y, RowExtent(info.height, t.level), RowPitch(info, t.level));
    Commuted(RowExtent(info.height, t.level), RowPitch(info, t.level));
  }

  lemma Commuted(a: nat, b: nat)
    ensures Product(a, b) == Product(b, a)
  {
  }

  /** A smaller level ends before a larger one starts. */
  lemma {:induction false} SmallerLevelsFirst(info: ImageInfo, first: nat, level: nat)
    requires first <= level
    ensures RowBytesFrom(info, level) <= RowBytesFrom(info, first)
    decreases level - first
  {
    if first < level {
      SmallerLevelsFirst(info, first + 1, level);
    }
  }

  /** Every texel lies between its level's start and end. */
  lemma {:induction false} TexelInSlice(info: ImageInfo, address: nat, t: RowTexel)
    requires InRows(info, t)
    ensures var start := address + Product(RowBytesFrom(info, 0), t.layer);
            Inside(RowAddress(info, address, t), info.texelBytes,
                   start + RowBytesFrom(info, t.level + 1), start + RowBytesFrom(info, t.level))
  {
    TexelInLevel(info, t);
  }

  lemma RowsApart(info: ImageInfo, t: RowTexel, t': RowTexel)
    requires InRows(info, t) && InRows(info, t') && t.level == t'.level && (t.x != t'.x || t.y != t'.y)
    ensures Disjoint(InLevel(info, t), info.texelBytes, InLevel(info, t'), info.texelBytes)
  {
    InRow(info, t.level, t.x);
    InRow(info, t.level, t'.x);
    if t.y < t'.y {
      NextRow(t.y, t'.y, RowPitch(info, t.level));
    } else if t'.y < t.y {
      NextRow(t'.y, t.y, RowPitch(info, t.level));
    } else if t.x < t'.x {
      NextRow(t.x, t'.x, info.texelBytes);
    } else {
      NextRow(t'.x, t.x, info.texelBytes);
    }
  }

  lemma LayersFollow(info: ImageInfo, address: nat, t: RowTexel, t': RowTexel)
    requires InRows(info, t) && InRows(info, t') && t.layer < t'.layer
    ensures Disjoint(RowAddress(info, address, t), info.texelBytes,
                     RowAddress(info, address, t'), info.texelBytes)
  {
    TexelInSlice(info, address, t);
    SmallerLevelsFirst(info, 0, t.level);
    NextSlice(RowBytesFrom(info, 0), t.layer, t'.layer);
  }

  lemma LevelsFollow(info: ImageInfo, address: nat, t: RowTexel, t': RowTexel)
    requires InRows(info, t) && InRows(info, t') && t.layer == t'.layer && t.level < t'.level
    ensures Disjoint(RowAddress(info, address, t), info.texelBytes,
                     RowAddress(info, address, t'), info.texelBytes)
  {
    TexelInSlice(info, address, t);
    TexelInSlice(info, address, t');
    SmallerLevelsFirst(info, t.level + 1, t'.level);
  }

  /** Distinct texels of any layers and levels of a row image have bytes of their own. */
  lemma RowTexelsApart(info: ImageInfo, address: nat, t: RowTexel, t': RowTexel)
    requires InRows(info, t) && InRows(info, t') && t != t'
    ensures Disjoint(RowAddress(info, address, t), info.texelBytes,
                     RowAddress(info, address, t'), info.texelBytes)
  {
    if t.layer < t'.layer { LayersFollow(info, address, t, t'); }
    else if t'.layer < t.layer { LayersFollow(info, address, t', t); }
    else if t.level < t'.level { LevelsFollow(info, address, t, t'); }
    else if t'.level < t.level { LevelsFollow(info, address, t', t); }
    else { RowsApart(info, t, t'); }
  }

  /** And all of them lie inside the size the driver computes. */
  lemma RowTexelInside(info: ImageInfo, address: nat, t: RowTexel)
    requires ValidInfo(info) && !Tiled(info) && InRows(info, t)
    ensures Inside(RowAddress(info, address, t), info.texelBytes, address, address + StorageOf(info).size)
  {
    TexelInSlice(info, address, t);
    SmallerLevelsFirst(info, 0, t.level);
    NextSlice(RowBytesFrom(info, 0), t.layer, info.layers);
    SamplesGrow(Product(RowBytesFrom(info, 0), info.layers), info.samples);
  }

  lemma SamplesGrow(bytes: nat, samples: nat)
    requires samples > 0
    ensures bytes <= Product(bytes, samples)
  {
    ProductMonotone(1, samples, bytes);
  }

  /** The side a copy of a row image works on addresses the first layer's texels so; every caller
      refuses the other layers. */
  lemma RowSideOfImage(info: ImageInfo, address: nat, t: RowTexel)
    requires ValidInfo(info) && !Tiled(info) && info.samples == 1 && info.texelBytes > 0
    requires InRows(info, t) && t.layer == 0
    ensures var aspect := if info.depth then DepthAspect else ColourAspect;
            CopySide(info, aspect, t.level, 0, address).Some? &&
            var side := CopySide(info, aspect, t.level, 0, address).value;
            && ValidSide(side) && AddressOf(side, t.x, t.y, 0) == RowAddress(info, address, t)
            && !side.tiled && side.samples == 1 && side.levelWidth == RowExtent(info.width, t.level)
            && side.elementBytes == info.texelBytes && side.depth == info.depth
  {
  }
}
