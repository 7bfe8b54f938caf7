/**
Where every texel of every measured map lies, in plain terms: the tile by whole divisions, the
place in it by the map's table at the texel's own place in the tile, and what an odd row or column
of tiles does to that place, which the address functions compute by twists of the coordinates.
Sixteen-byte texels and four-sample colour exchange the halves of a tile; eight-byte texels flip one
address bit; four-sample depth flips up to four; everything else is the same in every tile.
*/
module TileTurns {
  import opened Arithmetic
  import opened Words
  import opened TileMaps
  import opened TileGrid
  import opened TilePlaces
  import opened CopySides

  // ------------------------------------------------------------------ the stating side

  /** Where a texel's tile starts, from the level's start: tiles in rows, 64 KiB each. */
  function TileStart(x: nat, y: nat, levelWidth: nat, wide: nat, high: nat): nat
    requires wide > 0 && high > 0
  {
    (Product(y / high, (levelWidth + wide - 1) / wide) + x / wide) * 0x10000
  }

  /** The place a map's table gives a coordinate pair. */
  function TablePlace(m: TileMap, i: nat, j: nat): bv16
    requires i < 0x10000 && j < 0x10000
  {
    m.place(WordOf(i), WordOf(j))
  }

  /** The halves of an edge exchanged. */
  function Swapped(n: nat, edge: nat): nat {
    if n < edge / 2 then n + edge / 2 else n - edge / 2
  }

  /** A tile-local coordinate, its halves exchanged in an odd row or column of tiles. */
  function Exchanged(n: nat, edge: nat, odd: bool): nat {
    if odd then Swapped(n, edge) else n
  }

  /** A side's texel lies so far into its tile: in its sample's plane, at this place with the
      level's origin added. */
  ghost predicate LiesAt(side: Side, x: nat, y: nat, texelBytes: nat, sample: nat, plane: nat, place: bv16)
    requires ValidSide(side) && side.tiled
  {
    CopyAddress(side, x, y, texelBytes, sample) ==
    side.address + TileStart(x, y, side.levelWidth, side.tileWidth, side.tileHeight) + plane +
    Value(Shifted(place, side.tileXor))
  }

  // ------------------------------------------------------------------ tiles and words

  lemma {:induction false} StartIsBlock(x: nat, y: nat, levelWidth: nat, wide: nat, high: nat)
    requires wide > 0 && high > 0
    ensures TileStart(x, y, levelWidth, wide, high) ==
            Block(Quotient(x, wide), Quotient(y, high), levelWidth, wide) * TILE_BYTES
  {
    IsDivision(x, wide);
    IsDivision(y, high);
    IsDivision(levelWidth + wide - 1, wide);
  }

  lemma Half32(a: bv16)
    requires a & 0xffe0 == 0
    ensures (a ^ 16) as nat == if a as nat < 16 then a as nat + 16 else a as nat - 16
  {
  }

  lemma Half64(a: bv16)
    requires a & 0xffc0 == 0
    ensures (a ^ 32) as nat == if a as nat < 32 then a as nat + 32 else a as nat - 32
  {
  }

  lemma HalfWord(n: nat, edge: nat)
    requires (edge == 32 || edge == 64) && n < edge
    ensures WordOf(n) ^ HalfEdge(edge) == WordOf(Swapped(n, edge))
  {
    WordOfBelow(n, edge);
    if edge == 32 {
      Half32(WordOf(n));
    } else {
      Half64(WordOf(n));
    }
    SameWord(WordOf(n) ^ HalfEdge(edge), WordOf(Swapped(n, edge)));
  }

  /** The twist that exchanges the halves of an edge, in odd rows or columns. */
  predicate Exchanges(twist: bv16, edge: nat, odd: bool)
    requires TileEdge(edge)
  {
    twist == if odd then HalfEdge(edge) else 0
  }

  /** Half an edge XORed into a coordinate exchanges its halves. */
  lemma ExchangedWord(n: nat, edge: nat, odd: bool, twist: bv16)
    requires (edge == 32 || edge == 64) && n < edge && Exchanges(twist, edge, odd)
    ensures WordOf(n) ^ twist == WordOf(Exchanged(n, edge, odd))
  {
    if odd {
      HalfWord(n, edge);
    } else {
      NoTwist(WordOf(n));
    }
  }

  // ------------------------------------------------------------------ colour

  lemma {:induction false} ColourLies(side: Side, x: nat, y: nat, texelBytes: nat, sample: nat, place: bv16)
    requires ValidSide(side) && side.tiled && !side.depth && SideSwizzle(side, x, y) == place
    ensures LiesAt(side, x, y, texelBytes, sample, if side.samples == 4 then sample % 4 * 0x4000 else 0, place)
  {
    StartIsBlock(x, y, side.levelWidth, side.tileWidth, side.tileHeight);
    IsDivision(sample, 4);
  }

  lemma {:induction false} PlainSwizzle(side: Side, x: nat, y: nat)
    requires ColourSide(side) && ValidSide(side) && side.elementBytes in {1, 2, 4}
    ensures SideSwizzle(side, x, y) ==
            TablePlace(ColourMap(side.elementBytes), Remainder(x, side.tileWidth), Remainder(y, side.tileHeight))
  {
    Untwisted(ColourMap(side.elementBytes), Remainder(x, side.tileWidth), Remainder(y, side.tileHeight));
  }

  /** A one-sample texel of one, two or four bytes lies at its table's place in every tile. */
  lemma {:induction false} PlainAddress(side: Side, x: nat, y: nat, texelBytes: nat, sample: nat)
    requires ColourSide(side) && ValidSide(side)
    ensures side.elementBytes == 1 ==>
              LiesAt(side, x, y, texelBytes, sample, 0, TablePlace(COLOUR_1, x % 256, y % 256))
    ensures side.elementBytes == 2 ==>
              LiesAt(side, x, y, texelBytes, sample, 0, TablePlace(COLOUR_2, x % 256, y % 128))
    ensures side.elementBytes == 4 ==>
              LiesAt(side, x, y, texelBytes, sample, 0, TablePlace(COLOUR_4, x % 128, y % 128))
  {
    IsDivision(x, side.tileWidth);
    IsDivision(y, side.tileHeight);
    if side.elementBytes in {1, 2, 4} {
      PlainSwizzle(side, x, y);
      ColourLies(side, x, y, texelBytes, sample, SideSwizzle(side, x, y));
    }
  }

  lemma EightBit(x: bv16, y: bv16)
    ensures Colour8Formula(x ^ 32, y) == Colour8Formula(x, y) ^ 0x800
  {
  }

  lemma EightFlipped(x: bv16, y: bv16)
    ensures COLOUR_8.place(x ^ 32, y ^ 0) == Shifted(COLOUR_8.place(x, y), 0x800)
    ensures COLOUR_8.place(x ^ 0, y ^ 0) == COLOUR_8.place(x, y)
  {
    NoTwist(x);
    NoTwist(y);
    EightBit(x, y);
    Colour8Unrolled(x, y);
    Colour8Unrolled(x ^ 32, y);
  }

  lemma EightTurned(i: Coordinate, j: Coordinate, column: nat, row: nat)
    ensures Swizzle(i, j, column, row, 128, 64, 8, 1) ==
            if row % 2 == 1 then Shifted(TablePlace(COLOUR_8, i, j), 0x800) else TablePlace(COLOUR_8, i, j)
  {
    EightTwists(column, row);
    EightTurnedBy(i, j);
    if row % 2 == 1 {
      EightSwizzle(i, j, column, row, 32);
    } else {
      EightSwizzle(i, j, column, row, 0);
    }
  }

  lemma EightTwists(column: nat, row: nat)
    ensures TwistX(8, 1, row, 128) == (if row % 2 == 1 then 32 else 0) && TwistY(8, 1, column, 64) == 0
  {
  }

  lemma EightTurnedBy(i: Coordinate, j: Coordinate)
    ensures Turned(COLOUR_8, i, j, 32, 0) == Shifted(TablePlace(COLOUR_8, i, j), 0x800)
    ensures Turned(COLOUR_8, i, j, 0, 0) == TablePlace(COLOUR_8, i, j)
  {
    EightFlipped(WordOf(i), WordOf(j));
  }

  lemma EightSwizzle(i: Coordinate, j: Coordinate, column: nat, row: nat, tx: bv16)
    requires TwistX(8, 1, row, 128) == tx && TwistY(8, 1, column, 64) == 0
    ensures Swizzle(i, j, column, row, 128, 64, 8, 1) == Turned(COLOUR_8, i, j, tx, 0)
  {
  }

  /** A one-sample texel of eight bytes lies at its table's place, with address bit 11 flipped in
      odd rows of tiles and in no other way. */
  lemma {:induction false} EightByteAddress(side: Side, x: nat, y: nat, texelBytes: nat, sample: nat)
    requires ColourSide(side) && ValidSide(side) && side.elementBytes == 8
    ensures var place := TablePlace(COLOUR_8, x % 128, y % 64);
            LiesAt(side, x, y, texelBytes, sample, 0, if y / 64 % 2 == 1 then Shifted(place, 0x800) else place)
  {
    IsDivision(x, 128);
    IsDivision(y, 64);
    EightTurned(x % 128, y % 64, x / 128, y / 64);
    ColourLies(side, x, y, texelBytes, sample, SideSwizzle(side, x, y));
  }

  lemma HalvesTurned(m: TileMap, i: Coordinate, j: Coordinate, wide: nat, high: nat, oddRow: bool, oddColumn: bool,
                     tx: bv16, ty: bv16)
    requires (wide == 32 || wide == 64) && (high == 32 || high == 64) && i < wide && j < high
    requires Exchanges(tx, wide, oddRow) && Exchanges(ty, high, oddColumn)
    ensures Turned(m, i, j, tx, ty) == TablePlace(m, Exchanged(i, wide, oddRow), Exchanged(j, high, oddColumn))
  {
    ExchangedWord(i, wide, oddRow, tx);
    ExchangedWord(j, high, oddColumn, ty);
    TurnedTo(m, i, j, tx, ty, Exchanged(i, wide, oddRow), Exchanged(j, high, oddColumn));
  }

  lemma TurnedTo(m: TileMap, i: Coordinate, j: Coordinate, tx: bv16, ty: bv16, i': Coordinate, j': Coordinate)
    requires WordOf(i) ^ tx == WordOf(i') && WordOf(j) ^ ty == WordOf(j')
    ensures Turned(m, i, j, tx, ty) == TablePlace(m, i', j')
  {
  }

  lemma SixteenTurned(i: Coordinate, j: Coordinate, column: nat, row: nat)
    requires i < 64 && j < 64
    ensures Swizzle(i, j, column, row, 64, 64, 16, 1) ==
            TablePlace(COLOUR_16, Exchanged(i, 64, row % 2 == 1), Exchanged(j, 64, column % 2 == 1))
  {
    HalvesTurned(COLOUR_16, i, j, 64, 64, row % 2 == 1, column % 2 == 1,
                 TwistX(16, 1, row, 64), TwistY(16, 1, column, 64));
  }

  /** A one-sample texel of sixteen bytes lies where its table puts the texel half a tile across in
      odd rows of tiles, and half a tile down in odd columns. */
  lemma {:induction false} SixteenByteAddress(side: Side, x: nat, y: nat, texelBytes: nat, sample: nat)
    requires ColourSide(side) && ValidSide(side) && side.elementBytes == 16
    ensures LiesAt(side, x, y, texelBytes, sample, 0,
                   TablePlace(COLOUR_16, Exchanged(x % 64, 64, y / 64 % 2 == 1),
                              Exchanged(y % 64, 64, x / 64 % 2 == 1)))
  {
    IsDivision(x, 64);
    IsDivision(y, 64);
    SixteenTurned(x % 64, y % 64, x / 64, y / 64);
    ColourLies(side, x, y, texelBytes, sample, SideSwizzle(side, x, y));
  }

  lemma FourTurned(bytes: nat, i: Coordinate, j: Coordinate, column: nat, row: nat, wide: nat, high: nat)
    requires (wide == 32 || wide == 64) && (high == 32 || high == 64) && i < wide && j < high
    ensures Swizzle(i, j, column, row, wide, high, bytes, 4) ==
            TablePlace(ColourMap(bytes), Exchanged(i, wide, row % 2 == 1), Exchanged(j, high, column % 2 == 1))
  {
    HalvesTurned(ColourMap(bytes), i, j, wide, high, row % 2 == 1, column % 2 == 1, TwistX(bytes, 4, row, wide),
                 TwistY(bytes, 4, column, high));
  }

  /** A sample of a four-sample texel lies so too, for each element size on its own tiles, in the
      0x4000-byte plane of its number. */
  lemma {:induction false} FourSampleAddress(side: Side, x: nat, y: nat, texelBytes: nat, sample: nat, m: TileMap,
                                             wide: nat, high: nat)
    requires side.tiled && !side.depth && side.samples == 4 && side.tileWidth == wide && side.tileHeight == high
    requires || (side.elementBytes == 4 && m == COLOUR_4 && wide == 64 && high == 64)
             || (side.elementBytes == 8 && m == COLOUR_8 && wide == 64 && high == 32)
             || (side.elementBytes == 16 && m == COLOUR_16 && wide == 32 && high == 32)
    ensures ValidSide(side)
    ensures LiesAt(side, x, y, texelBytes, sample, sample % 4 * 0x4000,
                   TablePlace(m, Exchanged(x % wide, wide, y / high % 2 == 1),
                              Exchanged(y % high, high, x / wide % 2 == 1)))
  {
    IsDivision(x, wide);
    IsDivision(y, high);
    FourTurned(side.elementBytes, x % wide, y % high, x / wide, y / high, wide, high);
    ColourLies(side, x, y, texelBytes, sample, SideSwizzle(side, x, y));
  }

  // ------------------------------------------------------------------ depth and stencil

  /** A one-sample depth or stencil texel lies at its table's place in every tile, whatever the
      level's origin. */
  lemma {:induction false} DepthPlainAddress(side: Side, x: nat, y: nat, sample: nat)
    requires ValidSide(side) && side.tiled && side.depth && side.samples == 1
    ensures CopyAddress(side, x, y, 1, sample) ==
            side.address + TileStart(x, y, side.levelWidth, 256, 256) + Value(TablePlace(STENCIL_1, x % 256, y % 256))
    ensures CopyAddress(side, x, y, 2, sample) ==
            side.address + TileStart(x, y, side.levelWidth, 256, 128) + Value(TablePlace(DEPTH_2, x % 256, y % 128))
    ensures CopyAddress(side, x, y, 4, sample) ==
            side.address + TileStart(x, y, side.levelWidth, 128, 128) + Value(TablePlace(DEPTH_4, x % 128, y % 128))
  {
    IsDivision(x, 256);
    IsDivision(y, 256);
    IsDivision(x, 128);
    IsDivision(y, 128);
    StartIsBlock(x, y, side.levelWidth, 256, 256);
    StartIsBlock(x, y, side.levelWidth, 256, 128);
    StartIsBlock(x, y, side.levelWidth, 128, 128);
  }

  /** The address bits a four-sample depth tile flips, over four rows of tiles. */
  function Flips(oddColumn: bool, row: nat): bv16
    requires row < 4
  {
    if oddColumn then
      if row == 0 then 0x400 else if row == 1 then 0x4c00 else if row == 2 then 0x8400 else 0xcc00
    else
      if row == 0 then 0 else if row == 1 then 0x4800 else if row == 2 then 0x8000 else 0xc800
  }

  lemma TwistFlips(column: nat, row: nat)
    ensures DepthTwist(column, row) == Flips(column % 2 == 1, row % 4)
  {
    assert row % 2 == row % 4 % 2 && row / 2 % 2 == row % 4 / 2;
  }

  /** A sample of a four-sample depth texel lies four bytes after the one before it, at its table's
      place with the bits flipped that its tile's place in the grid says. */
  lemma {:induction false} FourSampleDepthAddress(side: Side, x: nat, y: nat, texelBytes: nat, sample: nat)
    requires side.tiled && side.depth && side.samples == 4 && side.tileWidth == 64 && side.tileHeight == 64
    ensures ValidSide(side)
    ensures CopyAddress(side, x, y, texelBytes, sample) ==
            side.address + TileStart(x, y, side.levelWidth, 64, 64) + sample % 4 * 4 +
            Value(Shifted(TablePlace(DEPTH_4X, x % 64, y % 64), Flips(x / 64 % 2 == 1, y / 64 % 4)))
  {
    IsDivision(x, 64);
    IsDivision(y, 64);
    IsDivision(sample, 4);
    StartIsBlock(x, y, side.levelWidth, 64, 64);
    TwistFlips(x / 64, y / 64);
  }
}
