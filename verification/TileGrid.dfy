/**
Texels of a level placed tile by tile: driver/ps5vk_image.c's tile extents, its texel offset
functions for colour, depth and stencil, and the proof that no two texels of a surface share a
byte and none leaves the surface's tile grid.
*/
module TileGrid {
  import opened Arithmetic
  import opened Words
  import opened TileMaps

  const TILE_BYTES: nat := 0x10000

  /** Bytes between the sample planes of a four-sample colour tile. */
  const SAMPLE_PLANE_BYTES: nat := 0x4000

  /** Bytes between the samples of a four-sample depth texel. */
  const DEPTH_SAMPLE_BYTES: nat := 4

  function Pow2(n: nat): (p: nat)
    ensures p > 0
  {
    if n == 0 then 1 else 2 * Pow2(n - 1)
  }

  predicate SampleCount(n: nat) {
    n == 1 || n == 2 || n == 4 || n == 8
  }

  function Log2Samples(samples: nat): nat
    requires SampleCount(samples)
  {
    if samples == 1 then 0 else if samples == 2 then 1 else if samples == 4 then 2 else 3
  }

  /** log2 of the element size a tile is dimensioned for. Depth formats count as four bytes unless
      they have one or two; sizes the driver does not know count as four too. */
  function Log2Bytes(texelBytes: nat, depth: bool): nat {
    var b := if depth && texelBytes != 2 && texelBytes != 1 then 4 else texelBytes;
    if b == 1 then 0 else if b == 2 then 1 else if b == 8 then 3 else if b == 16 then 4 else 2
  }

  /** The tile's width and height in texels (ps5vk_tile_extent). */
  function TileExtent(texelBytes: nat, depth: bool, samples: nat): (nat, nat)
    requires SampleCount(samples)
  {
    var n := 16 - Log2Bytes(texelBytes, depth) - Log2Samples(samples);
    (Pow2((n + 1) / 2), Pow2(n / 2))
  }

  lemma SmallPowers()
    ensures Pow2(4) == 16 && Pow2(5) == 32 && Pow2(6) == 64 && Pow2(7) == 128 && Pow2(8) == 256
  {
  }

  /** What a tile of width w and height h holds, with this many bytes to the element. */
  function TileHolds(w: nat, h: nat, bytes: nat, samples: nat): nat {
    Product(Product(w, h), Product(bytes, samples))
  }

  /** At every element size and sample count a tile is square or twice as wide as high, and its
      samples fill exactly 64 KiB. */
  lemma TileFilled(bytes: nat, depth: bool, samples: nat)
    requires SampleCount(samples) && (if depth then bytes in {1, 2, 4} else bytes in {1, 2, 4, 8, 16})
    ensures var (wide, high) := TileExtent(bytes, depth, samples);
            && (wide == high || wide == 2 * high)
            && TileHolds(wide, high, bytes, samples) == TILE_BYTES
  {
    SmallPowers();
  }

  // ------------------------------------------------------------------ the block grid

  /** The tile in this column and row, row-major over the level's grid. */
  function Block(column: nat, row: nat, levelWidth: nat, wide: nat): nat
    requires wide > 0
  {
    RowMajor(row, column, DivRoundUp(levelWidth, wide))
  }

  function GridBlocks(levelWidth: nat, levelHeight: nat, wide: nat, high: nat): nat
    requires wide > 0 && high > 0
  {
    RowMajor(DivRoundUp(levelHeight, high), 0, DivRoundUp(levelWidth, wide))
  }

  lemma {:induction false} BlockInGrid(x: nat, y: nat, w: nat, h: nat, wide: nat, high: nat)
    requires wide > 0 && high > 0 && x < w && y < h
    ensures Block(Quotient(x, wide), Quotient(y, high), w, wide) < GridBlocks(w, h, wide, high)
  {
    QuotientBelow(x, w, wide);
    QuotientBelow(y, h, high);
    RowMajorBelow(Quotient(y, high), Quotient(x, wide), DivRoundUp(h, high), DivRoundUp(w, wide));
  }

  lemma BlockUnique(column: nat, row: nat, column': nat, row': nat, w: nat, wide: nat)
    requires wide > 0 && column < DivRoundUp(w, wide) && column' < DivRoundUp(w, wide)
    requires Block(column, row, w, wide) == Block(column', row', w, wide)
    ensures column == column' && row == row'
  {
    RowMajorUnique(row, column, row', column', DivRoundUp(w, wide));
  }

  // ------------------------------------------------------------------ byte ranges

  predicate Disjoint(a: nat, aBytes: nat, b: nat, bBytes: nat) {
    a + aBytes <= b || b + bBytes <= a
  }

  predicate Inside(a: nat, bytes: nat, start: nat, end: nat) {
    start <= a && a + bytes <= end
  }

  lemma DistinctMultiples(size: nat, k: nat, k': nat)
    requires ElementSize(size) && k != k'
    ensures Disjoint(size * k, size, size * k', size)
  {
  }

  /** An aligned element ends inside the tile it starts in. */
  lemma EndsInTile(l: bv16, bytes: nat)
    requires ElementSize(bytes) && Aligned(l, bytes)
    ensures Value(l) + bytes <= TILE_BYTES
  {
    var k := Multiple(l, bytes);
    BelowTile(l as int, bytes, k);
  }

  lemma BelowTile(n: int, size: nat, k: nat)
    requires ElementSize(size) && n == size * k && n < TILE_BYTES
    ensures n + size <= TILE_BYTES
  {
  }

  /** Aligned elements at different places of one tile, or in different tiles, are disjoint. */
  lemma ElementsApart(block: nat, l: bv16, block': nat, l': bv16, bytes: nat)
    requires ElementSize(bytes) && Aligned(l, bytes) && Aligned(l', bytes)
    requires block != block' || l != l'
    ensures Disjoint(block * TILE_BYTES + Value(l), bytes, block' * TILE_BYTES + Value(l'), bytes)
  {
    EndsInTile(l, bytes);
    EndsInTile(l', bytes);
    if block == block' {
      if l as int == l' as int {
        SameWord(l, l');
        assert false;
      }
      var k := Multiple(l, bytes);
      var k' := Multiple(l', bytes);
      DistinctMultiples(bytes, k, k');
    } else {
      BlocksApart(block, block');
    }
  }

  lemma BlocksApart(block: nat, block': nat)
    requires block != block'
    ensures Disjoint(block * TILE_BYTES, TILE_BYTES, block' * TILE_BYTES, TILE_BYTES)
  {
  }

  lemma BlockInside(block: nat, blocks: nat)
    requires block < blocks
    ensures (block + 1) * TILE_BYTES <= blocks * TILE_BYTES
  {
  }

  // ------------------------------------------------------------------ places inside a tile

  /** The words a parity twist may XOR into a coordinate of this edge. */
  predicate Twist(t: bv16, edge: nat)
    requires TileEdge(edge)
  {
    t == 0 || t == HalfEdge(edge) || (t == 32 && edge == 128) || (t == 16 && edge == 64)
  }

  lemma TwistedBelow(a: bv16, t: bv16, edge: nat)
    requires TileEdge(edge) && BelowEdge(a, edge) && Twist(t, edge)
    ensures BelowEdge(a ^ t, edge)
  {
  }

  lemma UntwistEqual(a: bv16, b: bv16, t: bv16)
    requires a ^ t == b ^ t
    ensures a == b
  {
  }

  /** Tile-local coordinates whose twisted words agree are one coordinate. */
  lemma SameTwisted(i: nat, i': nat, t: bv16)
    requires i <= 256 && i' <= 256 && WordOf(i) ^ t == WordOf(i') ^ t
    ensures i == i'
  {
    UntwistEqual(WordOf(i), WordOf(i'), t);
  }

  lemma PlaceOf(m: TileMap, x: bv16, y: bv16)
    requires OneToOne(m) && InTile(m, x, y)
    ensures Inverted(m, x, y, m.place(x, y))
  {
  }

  lemma SamePlaceWords(m: TileMap, x: bv16, y: bv16, x': bv16, y': bv16)
    requires OneToOne(m) && InTile(m, x, y) && InTile(m, x', y') && m.place(x, y) == m.place(x', y')
    ensures x == x' && y == y'
  {
    PlaceOf(m, x, y);
    PlaceOf(m, x', y');
  }

  lemma WordOfTwistedBelow(i: nat, t: bv16, edge: nat)
    requires TileEdge(edge) && i < edge && Twist(t, edge)
    ensures BelowEdge(WordOf(i) ^ t, edge)
  {
    WordOfBelow(i, edge);
    TwistedBelow(WordOf(i), t, edge);
  }

  lemma TwistedInTile(m: TileMap, i: nat, j: nat, tx: bv16, ty: bv16)
    requires TileEdge(m.wide) && TileEdge(m.high) && i < m.wide && j < m.high
    requires Twist(tx, m.wide) && Twist(ty, m.high)
    ensures InTile(m, WordOf(i) ^ tx, WordOf(j) ^ ty)
  {
    WordOfTwistedBelow(i, tx, m.wide);
    WordOfTwistedBelow(j, ty, m.high);
  }

  lemma SameTwistedWords(m: TileMap, i: nat, j: nat, i': nat, j': nat, tx: bv16, ty: bv16)
    requires OneToOne(m) && i < m.wide && j < m.high && i' < m.wide && j' < m.high
    requires Twist(tx, m.wide) && Twist(ty, m.high)
    requires m.place(WordOf(i) ^ tx, WordOf(j) ^ ty) == m.place(WordOf(i') ^ tx, WordOf(j') ^ ty)
    ensures WordOf(i) ^ tx == WordOf(i') ^ tx && WordOf(j) ^ ty == WordOf(j') ^ ty
  {
    TwistedInTile(m, i, j, tx, ty);
    TwistedInTile(m, i', j', tx, ty);
    SamePlaceWords(m, WordOf(i) ^ tx, WordOf(j) ^ ty, WordOf(i') ^ tx, WordOf(j') ^ ty);
  }

  lemma EdgeBound(i: nat, edge: nat)
    requires TileEdge(edge) && i < edge
    ensures i <= 256
  {
  }

  lemma SameColumn(m: TileMap, i: nat, j: nat, i': nat, j': nat, tx: bv16, ty: bv16)
    requires OneToOne(m) && i < m.wide && j < m.high && i' < m.wide && j' < m.high
    requires Twist(tx, m.wide) && Twist(ty, m.high)
    requires m.place(WordOf(i) ^ tx, WordOf(j) ^ ty) == m.place(WordOf(i') ^ tx, WordOf(j') ^ ty)
    ensures i == i'
  {
    EdgeBound(i, m.wide);
    EdgeBound(i', m.wide);
    SameTwistedWords(m, i, j, i', j', tx, ty);
    SameTwisted(i, i', tx);
  }

  lemma SameRow(m: TileMap, i: nat, j: nat, i': nat, j': nat, tx: bv16, ty: bv16)
    requires OneToOne(m) && i < m.wide && j < m.high && i' < m.wide && j' < m.high
    requires Twist(tx, m.wide) && Twist(ty, m.high)
    requires m.place(WordOf(i) ^ tx, WordOf(j) ^ ty) == m.place(WordOf(i') ^ tx, WordOf(j') ^ ty)
    ensures j == j'
  {
    EdgeBound(j, m.high);
    EdgeBound(j', m.high);
    SameTwistedWords(m, i, j, i', j', tx, ty);
    SameTwisted(j, j', ty);
  }

  /** Texels of one tile, twisted alike and placed at one byte, are one texel. */
  lemma SamePlace(m: TileMap, i: nat, j: nat, i': nat, j': nat, tx: bv16, ty: bv16)
    requires OneToOne(m) && i < m.wide && j < m.high && i' < m.wide && j' < m.high
    requires Twist(tx, m.wide) && Twist(ty, m.high)
    requires m.place(WordOf(i) ^ tx, WordOf(j) ^ ty) == m.place(WordOf(i') ^ tx, WordOf(j') ^ ty)
    ensures i == i' && j == j'
  {
    SameColumn(m, i, j, i', j', tx, ty);
    SameRow(m, i, j, i', j', tx, ty);
  }

  // ------------------------------------------------------------------ whole levels

  type Coordinate = n: nat | n < 256
  type Sample = n: nat | n < 4

  /** Where sample s of tile-local (i, j) of the tile in a column and row starts, inside that
      tile: (column, row, i, j, s). */
  type TilePlace = (nat, nat, Coordinate, Coordinate, Sample) -> bv16

  /** The shape of a level's tiles: texels across and down, samples a texel, bytes an element. */
  datatype Shape = Shape(wide: nat, high: nat, samples: nat, bytes: nat)

  predicate ValidShape(t: Shape) {
    TileEdge(t.wide) && TileEdge(t.high) && (t.samples == 1 || t.samples == 4) && ElementSize(t.bytes)
  }

  /** Within each tile, distinct texels and samples have distinct places. */
  ghost predicate PlacesDistinct(f: TilePlace, t: Shape) {
    forall column: nat, row: nat, i: Coordinate, j: Coordinate, s: Sample,
           i': Coordinate, j': Coordinate, s': Sample |
      i < t.wide && j < t.high && s < t.samples && i' < t.wide && j' < t.high && s' < t.samples &&
      f(column, row, i, j, s) == f(column, row, i', j', s') ::
      i == i' && j == j' && s == s'
  }

  /** Every place starts an element. */
  ghost predicate PlacesAligned(f: TilePlace, t: Shape)
    requires ElementSize(t.bytes)
  {
    forall column: nat, row: nat, i: Coordinate, j: Coordinate, s: Sample |
      i < t.wide && j < t.high && s < t.samples :: Aligned(f(column, row, i, j, s), t.bytes)
  }

  ghost predicate GridPlace(f: TilePlace, t: Shape) {
    ValidShape(t) && PlacesDistinct(f, t) && PlacesAligned(f, t)
  }

  function PlacedAt(f: TilePlace, w: nat, wide: nat, column: nat, row: nat,
                    i: Coordinate, j: Coordinate, s: Sample): nat
    requires wide > 0
  {
    Block(column, row, w, wide) * TILE_BYTES + Value(f(column, row, i, j, s))
  }

  /** The byte, from the level's start, at which sample s of texel (x, y) of a level w texels
      wide starts. */
  function TexelAt(f: TilePlace, t: Shape, w: nat, x: nat, y: nat, s: Sample): nat
    requires ValidShape(t)
  {
    PlacedAt(f, w, t.wide, Quotient(x, t.wide), Quotient(y, t.high),
             Remainder(x, t.wide), Remainder(y, t.high), s)
  }

  lemma PlacesDiffer(f: TilePlace, t: Shape, w: nat,
                     column: nat, row: nat, i: Coordinate, j: Coordinate, s: Sample,
                     column': nat, row': nat, i': Coordinate, j': Coordinate, s': Sample)
    requires t.wide > 0 && PlacesDistinct(f, t)
    requires column < DivRoundUp(w, t.wide) && column' < DivRoundUp(w, t.wide)
    requires i < t.wide && j < t.high && s < t.samples
    requires i' < t.wide && j' < t.high && s' < t.samples
    requires column != column' || row != row' || i != i' || j != j' || s != s'
    ensures Block(column, row, w, t.wide) != Block(column', row', w, t.wide) ||
            f(column, row, i, j, s) != f(column', row', i', j', s')
  {
    if Block(column, row, w, t.wide) == Block(column', row', w, t.wide) {
      BlockUnique(column, row, column', row', w, t.wide);
    }
  }

  lemma PlacedApart(f: TilePlace, t: Shape, w: nat,
                    column: nat, row: nat, i: Coordinate, j: Coordinate, s: Sample,
                    column': nat, row': nat, i': Coordinate, j': Coordinate, s': Sample)
    requires GridPlace(f, t)
    requires column < DivRoundUp(w, t.wide) && column' < DivRoundUp(w, t.wide)
    requires i < t.wide && j < t.high && s < t.samples
    requires i' < t.wide && j' < t.high && s' < t.samples
    requires column != column' || row != row' || i != i' || j != j' || s != s'
    ensures Disjoint(PlacedAt(f, w, t.wide, column, row, i, j, s), t.bytes,
                     PlacedAt(f, w, t.wide, column', row', i', j', s'), t.bytes)
  {
    PlacesDiffer(f, t, w, column, row, i, j, s, column', row', i', j', s');
    ElementsApart(Block(column, row, w, t.wide), f(column, row, i, j, s),
                  Block(column', row', w, t.wide), f(column', row', i', j', s'), t.bytes);
  }

  /** Distinct texels and samples of a level start elements that share no byte. */
  lemma TexelsApart(f: TilePlace, t: Shape, w: nat,
                    x: nat, y: nat, s: Sample, x': nat, y': nat, s': Sample)
    requires GridPlace(f, t) && x < w && x' < w && s < t.samples && s' < t.samples
    requires x != x' || y != y' || s != s'
    ensures Disjoint(TexelAt(f, t, w, x, y, s), t.bytes, TexelAt(f, t, w, x', y', s'), t.bytes)
  {
    QuotientBelow(x, w, t.wide);
    QuotientBelow(x', w, t.wide);
    if Quotient(x, t.wide) == Quotient(x', t.wide) && Remainder(x, t.wide) == Remainder(x', t.wide) {
      SameNumber(x, x', t.wide);
    }
    if Quotient(y, t.high) == Quotient(y', t.high) && Remainder(y, t.high) == Remainder(y', t.high) {
      SameNumber(y, y', t.high);
    }
    PlacedApart(f, t, w,
                Quotient(x, t.wide), Quotient(y, t.high), Remainder(x, t.wide), Remainder(y, t.high), s,
                Quotient(x', t.wide), Quotient(y', t.high), Remainder(x', t.wide), Remainder(y', t.high), s');
  }

  /** And every texel's element lies inside the level's tile grid. */
  lemma TexelInside(f: TilePlace, t: Shape, w: nat, h: nat, x: nat, y: nat, s: Sample)
    requires GridPlace(f, t) && x < w && y < h && s < t.samples
    ensures Inside(TexelAt(f, t, w, x, y, s), t.bytes, 0, GridBlocks(w, h, t.wide, t.high) * TILE_BYTES)
  {
    BlockInGrid(x, y, w, h, t.wide, t.high);
    BlockInside(Block(Quotient(x, t.wide), Quotient(y, t.high), w, t.wide), GridBlocks(w, h, t.wide, t.high));
    EndsInTile(f(Quotient(x, t.wide), Quotient(y, t.high), Remainder(x, t.wide), Remainder(y, t.high), s),
               t.bytes);
  }
}
