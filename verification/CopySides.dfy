/**
One side of a copy, clear or blit and where its texels lie: driver/ps5vk_image.c's
ps5vk_image_copy_address over the surfaces its callers build, with the proof that distinct
texels and samples lie in disjoint byte ranges inside the surface's tile grid.
*/
module CopySides {
  import opened Arithmetic
  import opened Words
  import opened TileMaps
  import opened TileGrid
  import opened TilePlaces

  /** struct ps5vk_image_copy_side. In rows, a texel is so many pitches and texels from the address;
      in tiles, elementBytes, samples and depth pick the map and tileXor is added to its positions. */
  datatype Side = Side(
    address: nat, rowPitch: nat, levelWidth: nat, tileXor: bv16, tileWidth: nat, tileHeight: nat,
    elementBytes: nat, samples: nat, depth: bool, tiled: bool)

  predicate ValidSide(side: Side) {
    side.tiled ==> TileEdge(side.tileWidth) && TileEdge(side.tileHeight)
  }

  /** The tile a texel of a tiled side lies in. */
  function SideBlock(side: Side, x: nat, y: nat): nat
    requires ValidSide(side) && side.tiled
  {
    Block(Quotient(x, side.tileWidth), Quotient(y, side.tileHeight), side.levelWidth, side.tileWidth)
  }

  function SideSwizzle(side: Side, x: nat, y: nat): bv16
    requires ValidSide(side) && side.tiled
  {
    Swizzle(Remainder(x, side.tileWidth), Remainder(y, side.tileHeight),
            Quotient(x, side.tileWidth), Quotient(y, side.tileHeight),
            side.tileWidth, side.tileHeight, side.elementBytes, side.samples)
  }

  /** ps5vk_tiled_depth_offset: the map is the element size's own, whatever tile the side names. */
  function DepthOffset(x: nat, y: nat, levelWidth: nat, elementBytes: nat): nat {
    var m := DepthMap(elementBytes);
    Block(Quotient(x, m.wide), Quotient(y, m.high), levelWidth, m.wide) * TILE_BYTES +
    Value(m.place(WordOf(Remainder(x, m.wide)), WordOf(Remainder(y, m.high))))
  }

  /** ps5vk_tiled_depth4_offset. */
  function Depth4xOffset(side: Side, x: nat, y: nat): nat
    requires ValidSide(side) && side.tiled
  {
    SideBlock(side, x, y) * TILE_BYTES +
    Value(Shifted(DEPTH_4X.place(WordOf(Remainder(x, side.tileWidth)),
                                 WordOf(Remainder(y, side.tileHeight))),
                  DepthTwist(Quotient(x, side.tileWidth), Quotient(y, side.tileHeight))))
  }

  /** Where a colour texel's sample lies: its tile, its sample plane and its swizzled position. */
  function ColourAddress(side: Side, x: nat, y: nat, sample: nat): nat
    requires ValidSide(side) && side.tiled
  {
    side.address + SideBlock(side, x, y) * TILE_BYTES +
    (if side.samples == 4 then Remainder(sample, 4) * SAMPLE_PLANE_BYTES else 0) +
    Value(Shifted(SideSwizzle(side, x, y), side.tileXor))
  }

  function DepthAddress(side: Side, x: nat, y: nat, texelBytes: nat, sample: nat): nat
    requires ValidSide(side) && side.tiled
  {
    if side.samples == 4 then
      side.address + Depth4xOffset(side, x, y) + Remainder(sample, 4) * DEPTH_SAMPLE_BYTES
    else
      side.address + DepthOffset(x, y, side.levelWidth, texelBytes)
  }

  /** ps5vk_image_copy_address: where sample `sample` of texel (x, y) of a side lies. */
  function CopyAddress(side: Side, x: nat, y: nat, texelBytes: nat, sample: nat): nat
    requires ValidSide(side)
  {
    if !side.tiled then side.address + Product(y, side.rowPitch) + Product(x, texelBytes)
    else if side.depth then DepthAddress(side, x, y, texelBytes, sample)
    else ColourAddress(side, x, y, sample)
  }

  method DepthWalk(x: nat, y: nat, levelWidth: nat, elementBytes: nat) returns (offset: nat)
    ensures offset == DepthOffset(x, y, levelWidth, elementBytes)
  {
    var m := DepthMap(elementBytes);
    IsDivision(x, m.wide);
    IsDivision(y, m.high);
    var local := WalkDepth(x % m.wide, y % m.high, elementBytes);
    offset := Block(x / m.wide, y / m.high, levelWidth, m.wide) * TILE_BYTES + Value(local);
  }

  method Depth4xWalk(side: Side, x: nat, y: nat) returns (offset: nat)
    requires ValidSide(side) && side.tiled
    ensures offset == Depth4xOffset(side, x, y)
  {
    IsDivision(x, side.tileWidth);
    IsDivision(y, side.tileHeight);
    var column, row := x / side.tileWidth, y / side.tileHeight;
    var local := WalkDepth4x(x % side.tileWidth, y % side.tileHeight, column, row);
    offset := Block(column, row, side.levelWidth, side.tileWidth) * TILE_BYTES + Value(local);
  }

  method ColourWalk(side: Side, x: nat, y: nat, sample: nat) returns (address: nat)
    requires ValidSide(side) && side.tiled
    ensures address == ColourAddress(side, x, y, sample)
  {
    var tile, swizzle := TiledTexelOffset(x, y, side.levelWidth, side.tileWidth, side.tileHeight,
                                          side.elementBytes, side.samples);
    var plane := if side.samples == 4 then Remainder(sample, 4) * SAMPLE_PLANE_BYTES else 0;
    address := side.address + tile + plane + Value(Shifted(swizzle, side.tileXor));
  }

  /** ps5vk_image_copy_address, by the loops over the maps' tables. */
  method ComputeAddress(side: Side, x: nat, y: nat, texelBytes: nat, sample: nat) returns (address: nat)
    requires ValidSide(side)
    ensures address == CopyAddress(side, x, y, texelBytes, sample)
  {
    if side.tiled {
      if side.depth {
        if side.samples == 4 {
          var offset := Depth4xWalk(side, x, y);
          address := side.address + offset + Remainder(sample, 4) * DEPTH_SAMPLE_BYTES;
        } else {
          var offset := DepthWalk(x, y, side.levelWidth, texelBytes);
          address := side.address + offset;
        }
      } else {
        address := ColourWalk(side, x, y, sample);
      }
    } else {
      address := side.address + Product(y, side.rowPitch) + Product(x, texelBytes);
    }
  }

  // ------------------------------------------------------------------ the mapped surfaces

  /** The tiles a side walks are those of the map its kind, element size and samples select. */
  predicate MatchesShape(side: Side, t: Shape) {
    side.tiled && side.tileWidth == t.wide && side.tileHeight == t.high
  }

  predicate ColourSide(side: Side) {
    && !side.depth && side.samples == 1 && ElementSize(side.elementBytes)
    && MatchesShape(side, ColourShape(side.elementBytes)) && Aligned(side.tileXor, side.elementBytes)
  }

  predicate Colour4xSide(side: Side) {
    && !side.depth && side.samples == 4 && side.elementBytes == 4
    && MatchesShape(side, COLOUR4X_SHAPE) && side.tileXor == 0
  }

  predicate DepthSide(side: Side) {
    && side.depth && side.samples == 1 && side.elementBytes in {1, 2, 4}
    && MatchesShape(side, DepthShape(side.elementBytes))
  }

  predicate Depth4xSide(side: Side) {
    side.depth && side.samples == 4 && side.elementBytes == 4 && MatchesShape(side, DEPTH4X_SHAPE)
  }

  /** A side whose map the driver has measured. */
  predicate MappedSide(side: Side) {
    ColourSide(side) || Colour4xSide(side) || DepthSide(side) || Depth4xSide(side)
  }

  // Each mapped side's addresses are its surface's places, from the side's own address.

  lemma {:induction false} TexelAtSplit(f: TilePlace, t: Shape, side: Side, x: nat, y: nat, s: Sample, value: nat)
    requires ValidShape(t) && ValidSide(side) && MatchesShape(side, t)
    requires Value(f(Quotient(x, t.wide), Quotient(y, t.high),
                     Remainder(x, t.wide), Remainder(y, t.high), s)) == value
    ensures TexelAt(f, t, side.levelWidth, x, y, s) == SideBlock(side, x, y) * TILE_BYTES + value
  {
  }

  lemma ColourPlaced(side: Side, x: nat, y: nat)
    requires ColourSide(side) && ValidSide(side)
    ensures ColourAddress(side, x, y, 0) ==
            side.address + TexelAt(ColourPlace(side.elementBytes, side.tileXor),
                                   ColourShape(side.elementBytes), side.levelWidth, x, y, 0)
  {
    var f := ColourPlace(side.elementBytes, side.tileXor);
    assert f(Quotient(x, side.tileWidth), Quotient(y, side.tileHeight),
             Remainder(x, side.tileWidth), Remainder(y, side.tileHeight), 0) ==
           Shifted(SideSwizzle(side, x, y), side.tileXor);
  }

  lemma {:induction false} Colour4xInTile(side: Side, x: nat, y: nat, s: Sample)
    requires Colour4xSide(side) && ValidSide(side)
    ensures Value(COLOUR4X_PLACE(Quotient(x, 64), Quotient(y, 64), Remainder(x, 64), Remainder(y, 64), s)) ==
            Value(SideSwizzle(side, x, y)) + s * SAMPLE_PLANE_BYTES
  {
    var tx, ty := TwistX(4, 4, Quotient(y, 64), 64), TwistY(4, 4, Quotient(x, 64), 64);
    TurnedInFirstPlane(Remainder(x, 64), Remainder(y, 64), tx, ty);
    InPlaneValue(Turned(COLOUR_4, Remainder(x, 64), Remainder(y, 64), tx, ty), s);
  }

  lemma Colour4xPlaced(side: Side, x: nat, y: nat, s: Sample)
    requires Colour4xSide(side) && ValidSide(side)
    ensures ColourAddress(side, x, y, s) ==
            side.address + TexelAt(COLOUR4X_PLACE, COLOUR4X_SHAPE, side.levelWidth, x, y, s)
  {
    Colour4xInTile(side, x, y, s);
    ShiftedByNone(SideSwizzle(side, x, y));
    TexelAtSplit(COLOUR4X_PLACE, COLOUR4X_SHAPE, side, x, y, s,
                 Value(SideSwizzle(side, x, y)) + s * SAMPLE_PLANE_BYTES);
  }

  lemma Untwisted(m: TileMap, i: Coordinate, j: Coordinate)
    ensures Turned(m, i, j, 0, 0) == m.place(WordOf(i), WordOf(j))
  {
    NoTwist(WordOf(i));
    NoTwist(WordOf(j));
  }

  lemma DepthPlaced(side: Side, x: nat, y: nat)
    requires DepthSide(side) && ValidSide(side)
    ensures DepthAddress(side, x, y, side.elementBytes, 0) ==
            side.address + TexelAt(DepthPlace(side.elementBytes), DepthShape(side.elementBytes),
                                   side.levelWidth, x, y, 0)
  {
    var m := DepthMap(side.elementBytes);
    var i, j := Remainder(x, m.wide), Remainder(y, m.high);
    Untwisted(m, i, j);
    ShiftedByNone(Turned(m, i, j, 0, 0));
    var f := DepthPlace(side.elementBytes);
    assert f(Quotient(x, m.wide), Quotient(y, m.high), i, j, 0) == Shifted(Turned(m, i, j, 0, 0), 0);
  }

  lemma Depth4xInTile(column: nat, row: nat, i: Coordinate, j: Coordinate)
    ensures DEPTH4X_PLACE(column, row, i, j, 0) ==
            Shifted(DEPTH_4X.place(WordOf(i), WordOf(j)), DepthTwist(column, row))
  {
    Untwisted(DEPTH_4X, i, j);
  }

  lemma Depth4xPlaced(side: Side, x: nat, y: nat, s: Sample)
    requires Depth4xSide(side) && ValidSide(side)
    ensures DepthAddress(side, x, y, 16, s) ==
            side.address + TexelAt(DEPTH4X_PLACE, DEPTH4X_SHAPE, side.levelWidth, x, y, 0) +
            s * DEPTH_SAMPLE_BYTES
  {
    Depth4xInTile(Quotient(x, 64), Quotient(y, 64), Remainder(x, 64), Remainder(y, 64));
    TexelAtSplit(DEPTH4X_PLACE, DEPTH4X_SHAPE, side, x, y, 0,
                 Value(Shifted(DEPTH_4X.place(WordOf(Remainder(x, 64)), WordOf(Remainder(y, 64))),
                               DepthTwist(Quotient(x, 64), Quotient(y, 64)))));
  }

  // ------------------------------------------------------------------ apart and inside

  /** The bytes one texel's samples take together: what a copy passes as the texel's size. */
  function TexelBytes(side: Side): nat {
    if side.samples == 4 then 4 * side.elementBytes else side.elementBytes
  }

  function AddressOf(side: Side, x: nat, y: nat, s: Sample): nat
    requires ValidSide(side)
  {
    CopyAddress(side, x, y, TexelBytes(side), s)
  }

  lemma ColourSideApart(side: Side, x: nat, y: nat, x': nat, y': nat)
    requires ColourSide(side) && ValidSide(side) && x < side.levelWidth && x' < side.levelWidth
    requires x != x' || y != y'
    ensures Disjoint(ColourAddress(side, x, y, 0), side.elementBytes,
                     ColourAddress(side, x', y', 0), side.elementBytes)
  {
    ColourPlaced(side, x, y);
    ColourPlaced(side, x', y');
    ColourGridPlace(side.elementBytes, side.tileXor);
    TexelsApart(ColourPlace(side.elementBytes, side.tileXor), ColourShape(side.elementBytes),
                side.levelWidth, x, y, 0, x', y', 0);
  }

  lemma Colour4xSideApart(side: Side, x: nat, y: nat, s: Sample, x': nat, y': nat, s': Sample)
    requires Colour4xSide(side) && ValidSide(side) && x < side.levelWidth && x' < side.levelWidth
    requires x != x' || y != y' || s != s'
    ensures Disjoint(ColourAddress(side, x, y, s), 4, ColourAddress(side, x', y', s'), 4)
  {
    Colour4xPlaced(side, x, y, s);
    Colour4xPlaced(side, x', y', s');
    Colour4xGridPlace();
    TexelsApart(COLOUR4X_PLACE, COLOUR4X_SHAPE, side.levelWidth, x, y, s, x', y', s');
  }

  lemma DepthSideApart(side: Side, x: nat, y: nat, x': nat, y': nat)
    requires DepthSide(side) && ValidSide(side) && x < side.levelWidth && x' < side.levelWidth
    requires x != x' || y != y'
    ensures Disjoint(DepthAddress(side, x, y, side.elementBytes, 0), side.elementBytes,
                     DepthAddress(side, x', y', side.elementBytes, 0), side.elementBytes)
  {
    DepthPlaced(side, x, y);
    DepthPlaced(side, x', y');
    DepthGridPlace(side.elementBytes);
    TexelsApart(DepthPlace(side.elementBytes), DepthShape(side.elementBytes),
                side.levelWidth, x, y, 0, x', y', 0);
  }

  lemma Depth4xSideApart(side: Side, x: nat, y: nat, s: Sample, x': nat, y': nat, s': Sample)
    requires Depth4xSide(side) && ValidSide(side) && x < side.levelWidth && x' < side.levelWidth
    requires x != x' || y != y' || s != s'
    ensures Disjoint(DepthAddress(side, x, y, 16, s), 4, DepthAddress(side, x', y', 16, s'), 4)
  {
    Depth4xPlaced(side, x, y, s);
    Depth4xPlaced(side, x', y', s');
    Depth4xGridPlace();
    if x != x' || y != y' {
      TexelsApart(DEPTH4X_PLACE, DEPTH4X_SHAPE, side.levelWidth, x, y, 0, x', y', 0);
    }
  }

  /** No two texels or samples of a mapped side share a byte, whatever the level's width. */
  lemma SideTexelsApart(side: Side, x: nat, y: nat, s: Sample, x': nat, y': nat, s': Sample)
    requires MappedSide(side) && ValidSide(side) && x < side.levelWidth && x' < side.levelWidth
    requires s < side.samples && s' < side.samples && (x != x' || y != y' || s != s')
    ensures Disjoint(AddressOf(side, x, y, s), side.elementBytes,
                     AddressOf(side, x', y', s'), side.elementBytes)
  {
    if ColourSide(side) { ColourSideApart(side, x, y, x', y'); }
    else if Colour4xSide(side) { Colour4xSideApart(side, x, y, s, x', y', s'); }
    else if DepthSide(side) { DepthSideApart(side, x, y, x', y'); }
    else { Depth4xSideApart(side, x, y, s, x', y', s'); }
  }

  /** The bytes of a side's tile grid, for a level this high. */
  function GridBytes(side: Side, h: nat): nat
    requires ValidSide(side) && side.tiled
  {
    GridBlocks(side.levelWidth, h, side.tileWidth, side.tileHeight) * TILE_BYTES
  }

  lemma ColourSideInside(side: Side, h: nat, x: nat, y: nat)
    requires ColourSide(side) && ValidSide(side) && x < side.levelWidth && y < h
    ensures Inside(ColourAddress(side, x, y, 0), side.elementBytes,
                   side.address, side.address + GridBytes(side, h))
  {
    ColourPlaced(side, x, y);
    ColourGridPlace(side.elementBytes, side.tileXor);
    TexelInside(ColourPlace(side.elementBytes, side.tileXor), ColourShape(side.elementBytes),
                side.levelWidth, h, x, y, 0);
  }

  lemma Colour4xSideInside(side: Side, h: nat, x: nat, y: nat, s: Sample)
    requires Colour4xSide(side) && ValidSide(side) && x < side.levelWidth && y < h
    ensures Inside(ColourAddress(side, x, y, s), 4, side.address, side.address + GridBytes(side, h))
  {
    Colour4xPlaced(side, x, y, s);
    Colour4xGridPlace();
    TexelInside(COLOUR4X_PLACE, COLOUR4X_SHAPE, side.levelWidth, h, x, y, s);
  }

  lemma DepthSideInside(side: Side, h: nat, x: nat, y: nat)
    requires DepthSide(side) && ValidSide(side) && x < side.levelWidth && y < h
    ensures Inside(DepthAddress(side, x, y, side.elementBytes, 0), side.elementBytes,
                   side.address, side.address + GridBytes(side, h))
  {
    DepthPlaced(side, x, y);
    DepthGridPlace(side.elementBytes);
    TexelInside(DepthPlace(side.elementBytes), DepthShape(side.elementBytes),
                side.levelWidth, h, x, y, 0);
  }

  lemma Depth4xSideInside(side: Side, h: nat, x: nat, y: nat, s: Sample)
    requires Depth4xSide(side) && ValidSide(side) && x < side.levelWidth && y < h
    ensures Inside(DepthAddress(side, x, y, 16, s), 4, side.address, side.address + GridBytes(side, h))
  {
    Depth4xPlaced(side, x, y, s);
    Depth4xGridPlace();
    TexelInside(DEPTH4X_PLACE, DEPTH4X_SHAPE, side.levelWidth, h, x, y, 0);
  }

  /** And every one lies inside the side's tile grid. */
  lemma SideTexelInside(side: Side, h: nat, x: nat, y: nat, s: Sample)
    requires MappedSide(side) && ValidSide(side) && x < side.levelWidth && y < h && s < side.samples
    ensures Inside(AddressOf(side, x, y, s), side.elementBytes,
                   side.address, side.address + GridBytes(side, h))
  {
    if ColourSide(side) { ColourSideInside(side, h, x, y); }
    else if Colour4xSide(side) { Colour4xSideInside(side, h, x, y, s); }
    else if DepthSide(side) { DepthSideInside(side, h, x, y); }
    else { Depth4xSideInside(side, h, x, y, s); }
  }
}
