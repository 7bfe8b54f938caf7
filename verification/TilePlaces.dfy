/**
The places of driver/ps5vk_image.c's surfaces inside their tiles: the colour, depth, stencil and
four-sample offset functions, each with its parity twists, and the proof that each one gives the
texels and samples of a tile places of their own.
*/
module TilePlaces {
  import opened Arithmetic
  import opened Words
  import opened TileMaps
  import opened TileGrid

  // ------------------------------------------------------------------ colour

  function ColourMap(elementBytes: nat): TileMap {
    if elementBytes == 1 then COLOUR_1 else if elementBytes == 2 then COLOUR_2
    else if elementBytes == 8 then COLOUR_8 else if elementBytes == 16 then COLOUR_16
    else COLOUR_4
  }

  /** What an odd tile row XORs into the tile-local column. */
  function TwistX(elementBytes: nat, samples: nat, row: nat, wide: nat): bv16
    requires TileEdge(wide)
  {
    if row % 2 == 0 then 0
    else if samples == 4 then HalfEdge(wide)
    else if elementBytes == 8 then 32
    else if elementBytes == 16 then HalfEdge(wide)
    else 0
  }

  /** What an odd tile column XORs into the tile-local row. */
  function TwistY(elementBytes: nat, samples: nat, column: nat, high: nat): bv16
    requires TileEdge(high)
  {
    if column % 2 == 0 then 0
    else if samples == 4 then HalfEdge(high)
    else if elementBytes == 8 then 0
    else if elementBytes == 16 then HalfEdge(high)
    else 0
  }

  /** Tile-local (i, j), turned and placed. */
  function Turned(m: TileMap, i: Coordinate, j: Coordinate, tx: bv16, ty: bv16): bv16 {
    m.place(WordOf(i) ^ tx, WordOf(j) ^ ty)
  }

  /** The swizzled position of tile-local (i, j) inside the tile in this column and row. */
  function Swizzle(i: Coordinate, j: Coordinate, column: nat, row: nat, wide: nat, high: nat,
                   elementBytes: nat, samples: nat): bv16
    requires TileEdge(wide) && TileEdge(high)
  {
    Turned(ColourMap(elementBytes), i, j, TwistX(elementBytes, samples, row, wide),
           TwistY(elementBytes, samples, column, high))
  }

  /** The walk of the element size's own table, the coordinates first turned by the tile's
      place in the grid. */
  method WalkTurned(inX: bv16, inY: bv16, column: nat, row: nat, wide: nat, high: nat,
                    elementBytes: nat, samples: nat)
    returns (local: bv16)
    requires TileEdge(wide) && TileEdge(high)
    ensures local == ColourMap(elementBytes).place(inX ^ TwistX(elementBytes, samples, row, wide),
                                                   inY ^ TwistY(elementBytes, samples, column, high))
  {
    var terms :=
      if elementBytes == 1 then TERMS_1B else if elementBytes == 2 then TERMS_2B
      else if elementBytes == 8 then TERMS_8B else if elementBytes == 16 then TERMS_16B
      else TERMS_4B;
    local := WalkTable(terms, inX ^ TwistX(elementBytes, samples, row, wide),
                       inY ^ TwistY(elementBytes, samples, column, high));
  }

  method WalkSwizzle(i: Coordinate, j: Coordinate, column: nat, row: nat, wide: nat, high: nat,
                     elementBytes: nat, samples: nat)
    returns (swizzle: bv16)
    requires TileEdge(wide) && TileEdge(high)
    ensures swizzle == Swizzle(i, j, column, row, wide, high, elementBytes, samples)
  {
    swizzle := WalkTurned(WordOf(i), WordOf(j), column, row, wide, high, elementBytes, samples);
  }

  /** The unrolled RGBA8 path, which computes what the table walk does. */
  method UnrolledSwizzle(i: Coordinate, j: Coordinate, column: nat, row: nat)
    returns (swizzle: bv16)
    ensures swizzle == Swizzle(i, j, column, row, 128, 128, 4, 1)
  {
    var inX, inY := WordOf(i), WordOf(j);
    swizzle := Colour4Formula(inX, inY);
    NoTwist(inX);
    NoTwist(inY);
    Colour4Unrolled(inX, inY);
  }

  lemma NoTwist(a: bv16)
    ensures a ^ 0 == a
  {
  }

  /** ps5vk_tiled_texel_offset: the texel's tile, and its swizzled position inside it, by the
      unrolled RGBA8 path or the table walk. */
  method TiledTexelOffset(x: nat, y: nat, levelWidth: nat, wide: nat, high: nat,
                          elementBytes: nat, samples: nat)
    returns (tile: nat, swizzle: bv16)
    requires TileEdge(wide) && TileEdge(high)
    ensures tile == Block(Quotient(x, wide), Quotient(y, high), levelWidth, wide) * TILE_BYTES
    ensures swizzle == Swizzle(Remainder(x, wide), Remainder(y, high), Quotient(x, wide),
                               Quotient(y, high), wide, high, elementBytes, samples)
  {
    IsDivision(x, wide);
    IsDivision(y, high);
    var column, row, i, j := x / wide, y / high, x % wide, y % high;
    tile := Block(column, row, levelWidth, wide) * TILE_BYTES;
    if elementBytes == 4 && samples == 1 && wide == 128 && high == 128 {
      swizzle := UnrolledSwizzle(i, j, column, row);
    } else {
      swizzle := WalkSwizzle(i, j, column, row, wide, high, elementBytes, samples);
    }
  }

  // ------------------------------------------------------------------ depth and stencil

  function DepthMap(elementBytes: nat): TileMap {
    if elementBytes == 1 then STENCIL_1 else if elementBytes == 2 then DEPTH_2 else DEPTH_4
  }

  /** The bits a four-sample depth tile flips in all its positions: bit 10 in odd columns, bits 11
      and 14 in odd rows, bit 15 in every second pair of rows. */
  function DepthTwist(column: nat, row: nat): bv16 {
    (if column % 2 == 1 then 0x400 else 0) ^ (if row % 2 == 1 then 0x800 else 0) ^
    (if row % 2 == 1 then 0x4000 else 0) ^ (if row / 2 % 2 == 1 then 0x8000 else 0)
  }

  /** The position of a one-sample depth or stencil texel inside its tile, by the table or mask
      walk of its element size (ps5vk_tiled_depth_offset). */
  method WalkDepth(i: Coordinate, j: Coordinate, elementBytes: nat) returns (local: bv16)
    ensures local == DepthMap(elementBytes).place(WordOf(i), WordOf(j))
  {
    if elementBytes == 1 {
      local := WalkTable(TERMS_STENCIL, WordOf(i), WordOf(j));
    } else if elementBytes == 2 {
      local := WalkTable(TERMS_DEPTH2, WordOf(i), WordOf(j));
    } else {
      local := WalkDepthMasks(WordOf(i), WordOf(j));
    }
  }

  /** The position of a four-sample depth texel inside its tile (ps5vk_tiled_depth4_offset). */
  method WalkDepth4x(i: Coordinate, j: Coordinate, column: nat, row: nat) returns (local: bv16)
    ensures local == Shifted(DEPTH_4X.place(WordOf(i), WordOf(j)), DepthTwist(column, row))
  {
    local := WalkTable(TERMS_DEPTH4X, WordOf(i), WordOf(j));
    local := Shifted(local, DepthTwist(column, row));
  }

  // ------------------------------------------------------------------ places of each kind

  lemma TurnedSame(m: TileMap, i: Coordinate, j: Coordinate, i': Coordinate, j': Coordinate,
                   tx: bv16, ty: bv16)
    requires OneToOne(m) && Twist(tx, m.wide) && Twist(ty, m.high)
    requires i < m.wide && j < m.high && i' < m.wide && j' < m.high
    requires Turned(m, i, j, tx, ty) == Turned(m, i', j', tx, ty)
    ensures i == i' && j == j'
  {
    SamePlace(m, i, j, i', j', tx, ty);
  }

  lemma TurnedAligned(m: TileMap, i: Coordinate, j: Coordinate, tx: bv16, ty: bv16)
    requires OneToOne(m) && i < m.wide && j < m.high && Twist(tx, m.wide) && Twist(ty, m.high)
    ensures Aligned(Turned(m, i, j, tx, ty), m.bytes)
  {
    TwistedInTile(m, i, j, tx, ty);
    PlaceOf(m, WordOf(i) ^ tx, WordOf(j) ^ ty);
  }

  /** A position with its tile's or level's origin XORed in. */
  function Shifted(l: bv16, z: bv16): bv16 {
    l ^ z
  }

  lemma ShiftedByNone(l: bv16)
    ensures Shifted(l, 0) == l
  {
  }

  lemma ShiftedSame(l: bv16, l': bv16, z: bv16)
    requires Shifted(l, z) == Shifted(l', z)
    ensures l == l'
  {
  }

  lemma ShiftedAligned(l: bv16, z: bv16, bytes: nat)
    requires ElementSize(bytes) && Aligned(l, bytes) && Aligned(z, bytes)
    ensures Aligned(Shifted(l, z), bytes)
  {
  }

  /** How a kind of surface turns its tiles: by row, by column, and by what it XORs into the
      positions of a whole tile. */
  datatype Turns = Turns(tx: nat -> bv16, ty: nat -> bv16, z: (nat, nat) -> bv16)

  ghost predicate TurnsFit(m: TileMap, k: Turns)
    requires TileEdge(m.wide) && TileEdge(m.high) && ElementSize(m.bytes)
  {
    && (forall row: nat :: Twist(k.tx(row), m.wide))
    && (forall column: nat :: Twist(k.ty(column), m.high))
    && (forall column: nat, row: nat :: Aligned(k.z(column, row), m.bytes))
  }

  /** The places of a one-sample surface. */
  function TurnedPlace(m: TileMap, k: Turns): TilePlace {
    (column: nat, row: nat, i: Coordinate, j: Coordinate, s: Sample) =>
      Shifted(Turned(m, i, j, k.tx(row), k.ty(column)), k.z(column, row))
  }

  lemma TurnedGridPlace(m: TileMap, k: Turns)
    requires OneToOne(m) && TurnsFit(m, k)
    ensures GridPlace(TurnedPlace(m, k), Shape(m.wide, m.high, 1, m.bytes))
  {
    var f, t := TurnedPlace(m, k), Shape(m.wide, m.high, 1, m.bytes);
    forall column: nat, row: nat, i: Coordinate, j: Coordinate, s: Sample,
           i': Coordinate, j': Coordinate, s': Sample |
      i < t.wide && j < t.high && s < t.samples && i' < t.wide && j' < t.high && s' < t.samples &&
      f(column, row, i, j, s) == f(column, row, i', j', s')
      ensures i == i' && j == j' && s == s'
    {
      ShiftedSame(Turned(m, i, j, k.tx(row), k.ty(column)), Turned(m, i', j', k.tx(row), k.ty(column)),
                  k.z(column, row));
      TurnedSame(m, i, j, i', j', k.tx(row), k.ty(column));
    }
    forall column: nat, row: nat, i: Coordinate, j: Coordinate, s: Sample |
      i < t.wide && j < t.high && s < t.samples
      ensures Aligned(f(column, row, i, j, s), t.bytes)
    {
      TurnedAligned(m, i, j, k.tx(row), k.ty(column));
      ShiftedAligned(Turned(m, i, j, k.tx(row), k.ty(column)), k.z(column, row), t.bytes);
    }
  }

  /** A one-sample colour level: element-size twists, and the level's origin in its low bits. */
  function ColourTurns(elementBytes: nat, origin: bv16): Turns {
    var m := ColourMap(elementBytes);
    Turns((row: nat) => TwistX(elementBytes, 1, row, m.wide),
          (column: nat) => TwistY(elementBytes, 1, column, m.high),
          (column: nat, row: nat) => origin)
  }

  function ColourPlace(elementBytes: nat, origin: bv16): TilePlace {
    TurnedPlace(ColourMap(elementBytes), ColourTurns(elementBytes, origin))
  }

  function ColourShape(elementBytes: nat): Shape {
    Shape(ColourMap(elementBytes).wide, ColourMap(elementBytes).high, 1, elementBytes)
  }

  lemma ColourMapsOneToOne(elementBytes: nat)
    requires ElementSize(elementBytes)
    ensures OneToOne(ColourMap(elementBytes)) && ColourMap(elementBytes).bytes == elementBytes
  {
    Colour1OneToOne();
    Colour2OneToOne();
    Colour4OneToOne();
    Colour8OneToOne();
    Colour16OneToOne();
  }

  lemma ColourGridPlace(elementBytes: nat, origin: bv16)
    requires ElementSize(elementBytes) && Aligned(origin, elementBytes)
    ensures GridPlace(ColourPlace(elementBytes, origin), ColourShape(elementBytes))
  {
    ColourMapsOneToOne(elementBytes);
    var m, k := ColourMap(elementBytes), ColourTurns(elementBytes, origin);
    forall row: nat ensures Twist(k.tx(row), m.wide) {
      assert k.tx(row) == TwistX(elementBytes, 1, row, m.wide);
    }
    forall column: nat ensures Twist(k.ty(column), m.high) {
      assert k.ty(column) == TwistY(elementBytes, 1, column, m.high);
    }
    TurnedGridPlace(m, k);
  }

  /** A one-sample depth or stencil level, whose tiles are not turned. */
  const NO_TURNS: Turns := Turns((row: nat) => 0, (column: nat) => 0, (column: nat, row: nat) => 0)

  function DepthPlace(elementBytes: nat): TilePlace {
    TurnedPlace(DepthMap(elementBytes), NO_TURNS)
  }

  function DepthShape(elementBytes: nat): Shape {
    Shape(DepthMap(elementBytes).wide, DepthMap(elementBytes).high, 1, elementBytes)
  }

  lemma DepthGridPlace(elementBytes: nat)
    requires elementBytes == 1 || elementBytes == 2 || elementBytes == 4
    ensures GridPlace(DepthPlace(elementBytes), DepthShape(elementBytes))
  {
    StencilOneToOne();
    Depth2OneToOne();
    Depth4OneToOne();
    assert DepthMap(elementBytes).bytes == elementBytes;
    TurnedGridPlace(DepthMap(elementBytes), NO_TURNS);
  }

  /** A four-sample depth level: a sixteen-byte texel, its tile's twist XORed into its place. */
  const DEPTH4X_TURNS: Turns := NO_TURNS.(z := DepthTwist)
  const DEPTH4X_PLACE: TilePlace := TurnedPlace(DEPTH_4X, DEPTH4X_TURNS)
  const DEPTH4X_SHAPE: Shape := Shape(64, 64, 1, 16)

  lemma Depth4xGridPlace()
    ensures GridPlace(DEPTH4X_PLACE, DEPTH4X_SHAPE)
  {
    Depth4xOneToOne();
    forall column: nat, row: nat ensures Aligned(DEPTH4X_TURNS.z(column, row), 16) {
      DepthTwistAligned(column, row);
    }
    TurnedGridPlace(DEPTH_4X, DEPTH4X_TURNS);
  }

  lemma DepthTwistAligned(column: nat, row: nat)
    ensures Aligned(DepthTwist(column, row), 16)
  {
  }

  // ------------------------------------------------------------------ four-sample colour

  predicate FirstPlane(l: bv16) {
    l & 0xc000 == 0
  }

  /** A four-sample colour tile is four planes of 0x4000 bytes: the top two address bits. */
  function InPlane(l: bv16, s: Sample): bv16 {
    if s == 0 then l else if s == 1 then l | 0x4000 else if s == 2 then l | 0x8000 else l | 0xc000
  }

  function PlaneOf(p: bv16): nat {
    if p & 0xc000 == 0 then 0 else if p & 0xc000 == 0x4000 then 1
    else if p & 0xc000 == 0x8000 then 2 else 3
  }

  function WithinPlane(p: bv16): bv16 {
    p & 0x3fff
  }

  lemma InPlaneInverts(l: bv16, s: Sample)
    requires FirstPlane(l)
    ensures PlaneOf(InPlane(l, s)) == s && WithinPlane(InPlane(l, s)) == l
  {
  }

  lemma InPlaneSame(l: bv16, s: Sample, l': bv16, s': Sample)
    requires FirstPlane(l) && FirstPlane(l') && InPlane(l, s) == InPlane(l', s')
    ensures l == l' && s == s'
  {
    InPlaneInverts(l, s);
    InPlaneInverts(l', s');
  }

  lemma InPlaneAligned(l: bv16, s: Sample)
    requires Aligned(l, 4)
    ensures Aligned(InPlane(l, s), 4)
  {
  }

  lemma InPlaneValue(l: bv16, s: Sample)
    requires FirstPlane(l)
    ensures Value(InPlane(l, s)) == Value(l) + s * SAMPLE_PLANE_BYTES
  {
    if s == 1 { Plane1(l); } else if s == 2 { Plane2(l); } else if s == 3 { Plane3(l); }
  }

  lemma Plane1(l: bv16)
    requires l & 0xc000 == 0
    ensures (l | 0x4000) as nat == l as nat + 0x4000
  {
  }

  lemma Plane2(l: bv16)
    requires l & 0xc000 == 0
    ensures (l | 0x8000) as nat == l as nat + 0x8000
  {
  }

  lemma Plane3(l: bv16)
    requires l & 0xc000 == 0
    ensures (l | 0xc000) as nat == l as nat + 0xc000
  {
  }

  /** A quarter of the four-byte map's tile lies in its first 0x4000 bytes. */
  lemma QuarterTile(x: bv16, y: bv16)
    requires BelowEdge(x, 64) && BelowEdge(y, 64)
    ensures FirstPlane(COLOUR_4.place(x, y))
  {
    Colour4Unrolled(x, y);
    QuarterFormula(x, y);
  }

  lemma QuarterFormula(x: bv16, y: bv16)
    requires BelowEdge(x, 64) && BelowEdge(y, 64)
    ensures FirstPlane(Colour4Formula(x, y))
  {
  }

  lemma TurnedInFirstPlane(i: Coordinate, j: Coordinate, tx: bv16, ty: bv16)
    requires i < 64 && j < 64 && Twist(tx, 64) && Twist(ty, 64)
    ensures FirstPlane(Turned(COLOUR_4, i, j, tx, ty))
  {
    WordOfTwistedBelow(i, tx, 64);
    WordOfTwistedBelow(j, ty, 64);
    QuarterTile(WordOf(i) ^ tx, WordOf(j) ^ ty);
  }

  const COLOUR4X_SHAPE: Shape := Shape(64, 64, 4, 4)

  const COLOUR4X_PLACE: TilePlace :=
    (column: nat, row: nat, i: Coordinate, j: Coordinate, s: Sample) =>
      InPlane(Turned(COLOUR_4, i, j, TwistX(4, 4, row, 64), TwistY(4, 4, column, 64)), s)

  lemma Colour4xGridPlace()
    ensures GridPlace(COLOUR4X_PLACE, COLOUR4X_SHAPE)
  {
    Colour4OneToOne();
    var f, t := COLOUR4X_PLACE, COLOUR4X_SHAPE;
    forall column: nat, row: nat, i: Coordinate, j: Coordinate, s: Sample,
           i': Coordinate, j': Coordinate, s': Sample |
      i < t.wide && j < t.high && s < t.samples && i' < t.wide && j' < t.high && s' < t.samples &&
      f(column, row, i, j, s) == f(column, row, i', j', s')
      ensures i == i' && j == j' && s == s'
    {
      var tx, ty := TwistX(4, 4, row, 64), TwistY(4, 4, column, 64);
      TurnedInFirstPlane(i, j, tx, ty);
      TurnedInFirstPlane(i', j', tx, ty);
      InPlaneSame(Turned(COLOUR_4, i, j, tx, ty), s, Turned(COLOUR_4, i', j', tx, ty), s');
      TurnedSame(COLOUR_4, i, j, i', j', tx, ty);
    }
    forall column: nat, row: nat, i: Coordinate, j: Coordinate, s: Sample |
      i < t.wide && j < t.high && s < t.samples
      ensures Aligned(f(column, row, i, j, s), t.bytes)
    {
      var tx, ty := TwistX(4, 4, row, 64), TwistY(4, 4, column, 64);
      TurnedAligned(COLOUR_4, i, j, tx, ty);
      InPlaneAligned(Turned(COLOUR_4, i, j, tx, ty), s);
    }
  }
}
