/**
Whether the samples of a four-sample image stay in its tiles, and in the storage the driver sizes
for it. The positions of a wide texel may fall in a later plane than the first, so its last
samples may fall in the next tile; after the last tile there is none.
*/
module FourSampleStorages {
  import opened Arithmetic
  import opened Words
  import opened TileGrid
  import opened TilePlaces
  import opened CopySides
  import opened Images
  import opened SamplePlanes
  import opened FourSamples

  // ------------------------------------------------------------------ samples in the tiles

  /** An element of a plane ends in it. */
  lemma EndsInPlane(l: bv16, bytes: nat)
    requires ElementSize(bytes) && Aligned(l, bytes)
    ensures Value(WithinPlane(l)) + bytes <= SAMPLE_PLANE_BYTES
  {
    PlaneAligned(l, 3, bytes);
    EndsInTile(InPlane(WithinPlane(l), 3), bytes);
    PlaneRejoins(l);
    InPlaneValue(WithinPlane(l), 3);
  }

  function Rows(bytes: nat, h: nat): nat {
    DivRoundUp(h, TileHeight(bytes))
  }

  function Blocks(bytes: nat, w: nat, h: nat): nat {
    RowMajor(Rows(bytes, h), 0, Columns(bytes, w))
  }

  /** A sample lies in the first `blocks` tiles exactly when its plane is one of theirs. */
  lemma InsideByPlane(bytes: nat, columns: nat, a: Spot, blocks: nat)
    requires bytes in {8, 16} && InTileSpot(bytes, a)
    ensures var n := PlaneNumber(SwirlOf(bytes), columns, a);
            Inside(SpotOffset(SwirlOf(bytes), columns, a), bytes, 0, blocks * TILE_BYTES) <==> n < 4 * blocks
  {
    SpotAligned(bytes, a);
    EndsInPlane(At(SwirlOf(bytes), a), bytes);
    PlaneEnds(PlaneNumber(SwirlOf(bytes), columns, a), Value(WithinPlane(At(SwirlOf(bytes), a))), bytes, blocks);
  }

  lemma PlaneEnds(n: nat, v: nat, bytes: nat, blocks: nat)
    requires 0 < bytes && v + bytes <= SAMPLE_PLANE_BYTES
    ensures n * SAMPLE_PLANE_BYTES + v + bytes <= blocks * TILE_BYTES <==> n < 4 * blocks
  {
  }

  lemma LastTile(columns: nat, rows: nat, column: nat, row: nat)
    requires column < columns && row < rows
    ensures RowMajor(row, column, columns) < RowMajor(rows, 0, columns)
    ensures RowMajor(row, column, columns) == RowMajor(rows, 0, columns) - 1 <==>
            column == columns - 1 && row == rows - 1
  {
    RowMajorBelow(row, column, rows, columns);
    assert (rows - 1) * columns + columns == rows * columns;
    if RowMajor(row, column, columns) == RowMajor(rows, 0, columns) - 1 {
      RowMajorUnique(row, column, rows - 1, columns - 1, columns);
    }
  }

  /** In the last tile of a row of n texels the tile-local coordinate reaches (n - 1) % edge. */
  lemma LastLocal(x: nat, n: nat, edge: nat)
    requires edge > 0 && x < n
    ensures Quotient(x, edge) < DivRoundUp(n, edge)
    ensures Quotient(x, edge) == DivRoundUp(n, edge) - 1 ==> Remainder(x, edge) <= Remainder(n - 1, edge)
  {
    QuotientBelow(x, n, edge);
    QuotientAndRemainder(x, edge);
    QuotientAndRemainder(n - 1, edge);
    assert Quotient(n - 1 + edge, edge) == 1 + Quotient(n - 1, edge);
  }

  /** The texel at tile-local i of the last tile. */
  lemma LastAt(n: nat, edge: nat, i: nat) returns (x: nat)
    requires n > 0 && edge > 0 && i <= Remainder(n - 1, edge)
    ensures x < n && Quotient(x, edge) == DivRoundUp(n, edge) - 1 && Remainder(x, edge) == i
  {
    x := n - 1 - Remainder(n - 1, edge) + i;
    QuotientAndRemainder(n - 1, edge);
    QuotientOfMultiple(Quotient(n - 1, edge), i, edge);
    assert Quotient(n - 1 + edge, edge) == 1 + Quotient(n - 1, edge);
  }

  /** When the samples of an image this wide and high stay in its tiles: in its last tile, every
      texel's position is in the first plane. */
  predicate SamplesInTiles(bytes: nat, w: nat, h: nat)
    requires w > 0 && h > 0
  {
    if bytes == 8 then Columns(8, w) % 2 == 1 && Remainder(h - 1, 32) < 16
    else if bytes == 16 then
      Rows(16, h) % 2 == 1 && Remainder(w - 1, 32) < 16 && Remainder(h - 1, 32) < 8
    else true
  }

  lemma PlaneBelow(l: bv16)
    ensures PlaneOf(l) <= 3
  {
  }

  lemma EightInFirst(a: Spot)
    requires InTileSpot(8, a) && a.column % 2 == 0 && a.j < 16
    ensures PlaneOf(At(EightAt, a)) == 0
  {
    EightPlaces(a.column, a.row, a.i, a.j);
  }

  lemma SixteenInFirst(a: Spot)
    requires InTileSpot(16, a) && a.row % 2 == 0 && a.i < 16 && a.j < 8
    ensures PlaneOf(At(SixteenAt, a)) == 0
  {
    SixteenPlaces(a.column, a.row, a.i, a.j);
  }

  /** In the last tile of such an image every position is in the first plane. */
  lemma LastInFirst(bytes: nat, w: nat, h: nat, p: Point)
    requires bytes in {8, 16} && w > 0 && h > 0 && SamplesInTiles(bytes, w, h) && InImage(p, w, h)
    requires SpotOf(bytes, p).column == Columns(bytes, w) - 1 && SpotOf(bytes, p).row == Rows(bytes, h) - 1
    ensures PlaneOf(At(SwirlOf(bytes), SpotOf(bytes, p))) == 0
  {
    LastLocal(p.x, w, TileWidth(bytes));
    LastLocal(p.y, h, TileHeight(bytes));
    if bytes == 8 {
      EightInFirst(SpotOf(8, p));
    } else {
      SixteenInFirst(SpotOf(16, p));
    }
  }

  /** Every sample starts in the image's tiles, or in the tile after the last. */
  lemma PlaneInTiles(bytes: nat, w: nat, h: nat, p: Point)
    requires bytes in {8, 16} && w > 0 && h > 0 && InImage(p, w, h)
    ensures var n := PlaneNumber(SwirlOf(bytes), Columns(bytes, w), SpotOf(bytes, p));
            n < 4 * Blocks(bytes, w, h) + 4 && (SamplesInTiles(bytes, w, h) ==> n < 4 * Blocks(bytes, w, h))
  {
    var a := SpotOf(bytes, p);
    LastLocal(p.x, w, TileWidth(bytes));
    LastLocal(p.y, h, TileHeight(bytes));
    LastTile(Columns(bytes, w), Rows(bytes, h), a.column, a.row);
    PlaneBelow(At(SwirlOf(bytes), a));
    if SamplesInTiles(bytes, w, h) && a.column == Columns(bytes, w) - 1 && a.row == Rows(bytes, h) - 1 {
      LastInFirst(bytes, w, h, p);
    }
  }

  /** The texel whose last sample leaves the tiles of any other image. */
  lemma LeavingSpot(bytes: nat, w: nat, h: nat) returns (p: Point)
    requires bytes in {8, 16} && w > 0 && h > 0 && !SamplesInTiles(bytes, w, h)
    ensures InImage(p, w, h) && p.sample == 3 && PlaneOf(At(SwirlOf(bytes), SpotOf(bytes, p))) > 0
    ensures SpotOf(bytes, p).column == Columns(bytes, w) - 1 && SpotOf(bytes, p).row == Rows(bytes, h) - 1
  {
    var i := if bytes == 16 && Rows(16, h) % 2 == 1 && Remainder(w - 1, 32) >= 16 then 16 else 0;
    var j := if bytes == 8 then if Columns(8, w) % 2 == 1 then 16 else 0
             else if Rows(16, h) % 2 == 1 && Remainder(w - 1, 32) < 16 then 8 else 0;
    var x := LastAt(w, TileWidth(bytes), i);
    var y := LastAt(h, TileHeight(bytes), j);
    p := Point(x, y, 3);
    LeavesFirst(bytes, SpotOf(bytes, p));
  }

  lemma LeavesFirst(bytes: nat, a: Spot)
    requires bytes in {8, 16} && InTileSpot(bytes, a)
    requires bytes == 8 ==> (a.j >= 16) != (a.column % 2 == 1)
    requires bytes == 16 ==> (a.i >= 16) != (a.row % 2 == 1) || 8 <= a.j < 16
    ensures PlaneOf(At(SwirlOf(bytes), a)) > 0
  {
    if bytes == 8 {
      EightPlaces(a.column, a.row, a.i, a.j);
    } else {
      SixteenPlaces(a.column, a.row, a.i, a.j);
    }
  }

  /** Every sample of an image this wide and high lies in its first `size` bytes. */
  ghost predicate SamplesInside(bytes: nat, address: nat, w: nat, h: nat, size: nat)
    requires bytes in {4, 8, 16}
  {
    forall p | InImage(p, w, h) ::
      Inside(SampleAddress(bytes, address, w, p), bytes, address, address + size)
  }

  lemma SampleInsideByPlane(bytes: nat, address: nat, w: nat, p: Point, tiles: nat)
    requires bytes in {8, 16}
    ensures Inside(SampleAddress(bytes, address, w, p), bytes, address, address + tiles * TILE_BYTES) <==>
            PlaneNumber(SwirlOf(bytes), Columns(bytes, w), SpotOf(bytes, p)) < 4 * tiles
  {
    SamplePlaced(bytes, address, w, p);
    InsideByPlane(bytes, Columns(bytes, w), SpotOf(bytes, p), tiles);
  }

  lemma FourByteSampleInside(address: nat, w: nat, h: nat, tiles: nat, p: Point)
    requires InImage(p, w, h) && tiles >= Blocks(4, w, h)
    ensures Inside(SampleAddress(4, address, w, p), 4, address, address + tiles * TILE_BYTES)
  {
    var side := FourSampleSide(4, address, w);
    assert Colour4xSide(side);
    SideTexelInside(side, h, p.x, p.y, p.sample);
  }

  lemma SampleInside(bytes: nat, address: nat, w: nat, h: nat, tiles: nat, p: Point)
    requires bytes in {4, 8, 16} && w > 0 && h > 0 && InImage(p, w, h) && tiles >= Blocks(bytes, w, h)
    requires SamplesInTiles(bytes, w, h) || tiles > Blocks(bytes, w, h)
    ensures Inside(SampleAddress(bytes, address, w, p), bytes, address, address + tiles * TILE_BYTES)
  {
    if bytes == 4 {
      FourByteSampleInside(address, w, h, tiles, p);
    } else {
      PlaneInTiles(bytes, w, h, p);
      SampleInsideByPlane(bytes, address, w, p, tiles);
    }
  }

  lemma SampleLeaves(bytes: nat, address: nat, w: nat, h: nat)
    requires bytes in {8, 16} && w > 0 && h > 0 && !SamplesInTiles(bytes, w, h)
    ensures !SamplesInside(bytes, address, w, h, Blocks(bytes, w, h) * TILE_BYTES)
  {
    var p := LeavingSpot(bytes, w, h);
    var a := SpotOf(bytes, p);
    LastTile(Columns(bytes, w), Rows(bytes, h), a.column, a.row);
    SampleInsideByPlane(bytes, address, w, p, Blocks(bytes, w, h));
  }

  /** Given as many tiles as its grid has, or more, a four-sample image's samples all lie in them
      exactly when its last tile's do, or there is a tile to spare. */
  lemma FourSampleInsideExact(bytes: nat, address: nat, w: nat, h: nat, tiles: nat)
    requires bytes in {4, 8, 16} && w > 0 && h > 0 && tiles >= Blocks(bytes, w, h)
    ensures SamplesInside(bytes, address, w, h, tiles * TILE_BYTES) <==>
            SamplesInTiles(bytes, w, h) || tiles > Blocks(bytes, w, h)
  {
    if SamplesInTiles(bytes, w, h) || tiles > Blocks(bytes, w, h) {
      forall p | InImage(p, w, h)
        ensures Inside(SampleAddress(bytes, address, w, p), bytes, address, address + tiles * TILE_BYTES)
      {
        SampleInside(bytes, address, w, h, tiles, p);
      }
    } else {
      SampleLeaves(bytes, address, w, h);
    }
  }

  /** This many tiles rounded up to 32. */
  function RoundedBytes(blocks: nat): nat {
    (blocks + 31) / 32 * 32 * TILE_BYTES
  }

  lemma AlignedTiles(blocks: nat)
    ensures AlignUp(Product(blocks * TILE_BYTES, 1), TILED_ALIGNMENT) == RoundedBytes(blocks)
  {
    var q, r := (blocks + 31) / 32, (blocks + 31) % 32;
    QuotientOfMultiple(q, r * TILE_BYTES + TILE_BYTES - 1, TILED_ALIGNMENT);
    assert blocks * TILE_BYTES + TILED_ALIGNMENT - 1 == Product(q, TILED_ALIGNMENT) + r * TILE_BYTES + TILE_BYTES - 1;
  }

  lemma FourSampleStorage(info: ImageInfo)
    requires FourSampleImage(info)
    ensures StorageOf(info).size == RoundedBytes(Blocks(info.texelBytes, info.width, info.height))
  {
    FourSampleTile(info.texelBytes);
    OneLevelTiles(info.width, info.height, TileWidth(info.texelBytes), TileHeight(info.texelBytes));
    AlignedTiles(Blocks(info.texelBytes, info.width, info.height));
  }

  lemma RoundedUp(blocks: nat)
    ensures (blocks + 31) / 32 * 32 >= blocks
    ensures (blocks + 31) / 32 * 32 > blocks <==> blocks % 32 != 0
  {
  }

  lemma RoundedTiles(bytes: nat, address: nat, w: nat, h: nat, size: nat)
    requires bytes in {4, 8, 16} && w > 0 && h > 0 && size == RoundedBytes(Blocks(bytes, w, h))
    ensures SamplesInside(bytes, address, w, h, size) <==>
            SamplesInTiles(bytes, w, h) || Blocks(bytes, w, h) % 32 != 0
  {
    RoundedUp(Blocks(bytes, w, h));
    FourSampleInsideExact(bytes, address, w, h, (Blocks(bytes, w, h) + 31) / 32 * 32);
  }

  /** Every sample lies in the image's own storage exactly when its samples stay in its tiles or
      the tiles do not fill the storage, which is rounded up to 32 of them. */
  lemma FourSampleStorageExact(info: ImageInfo, address: nat)
    requires FourSampleImage(info)
    ensures SamplesInside(info.texelBytes, address, info.width, info.height, StorageOf(info).size) <==>
            SamplesInTiles(info.texelBytes, info.width, info.height) ||
            Blocks(info.texelBytes, info.width, info.height) % 32 != 0
  {
    FourSampleStorage(info);
    RoundedTiles(info.texelBytes, address, info.width, info.height, StorageOf(info).size);
  }

  /** Sample 3 of texel (0, 16) of eight bytes lies past its tile. */
  lemma EightByteSampleLeaves(address: nat, w: nat)
    ensures SampleAddress(8, address, w, Point(0, 16, 3)) == address + TILE_BYTES + 0x200
  {
    TwistedIs(0, 0, 0);
    TwistedIs(16, 16, 0);
    EightSample(address, w, Point(0, 16, 3), 0, 16);
  }

  /** A 2048 by 32 image of eight-byte texels fills its storage with 32 tiles, and a sample leaves
      it. */
  lemma EightByteSampleLeavesStorage(address: nat)
    ensures var info := ImageInfo(2048, 32, 1, 1, 4, 8, false, false, false, true, false);
            FourSampleImage(info) && !SamplesInside(8, address, 2048, 32, StorageOf(info).size)
  {
    LeavesStorage(ImageInfo(2048, 32, 1, 1, 4, 8, false, false, false, true, false), address);
  }

  lemma WideTiles()
    ensures Columns(8, 2048) == 32 && Blocks(8, 2048, 32) == 32
  {
    QuotientOfMultiple(32, 63, 64);
    QuotientOfMultiple(1, 31, 32);
  }

  lemma LeavesStorage(info: ImageInfo, address: nat)
    requires FourSampleImage(info) && info.texelBytes == 8 && info.width == 2048 && info.height == 32
    ensures !SamplesInside(8, address, 2048, 32, StorageOf(info).size)
  {
    WideTiles();
    FourSampleStorageExact(info, address);
  }
}
