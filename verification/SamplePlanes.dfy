/**
Sample planes: a four-sample colour tile is four planes of 0x4000 bytes, and a sample lies in the
plane its position falls in, counted on by its number. What the places of the quarter tiles of the
eight- and sixteen-byte maps tell of a texel, and when that is enough to tell every sample from
every other.
*/
module SamplePlanes {
  import opened Arithmetic
  import opened Words
  import opened TileMaps
  import opened TileGrid
  import opened TilePlaces

  // ------------------------------------------------------------------ planes of 0x4000 bytes

  lemma PlaneRejoins(l: bv16)
    ensures InPlane(WithinPlane(l), PlaneOf(l)) == l && FirstPlane(WithinPlane(l))
  {
    LowBitsLow(l);
    if l & 0xc000 == 0 {
      Rejoin0(l);
    } else if l & 0xc000 == 0x4000 {
      Rejoin1(l);
    } else if l & 0xc000 == 0x8000 {
      Rejoin2(l);
    } else {
      Rejoin3(l);
    }
  }

  lemma LowBitsLow(l: bv16)
    ensures (l & 0x3fff) & 0xc000 == 0
  {
  }

  lemma Rejoin0(l: bv16)
    requires l & 0xc000 == 0
    ensures l & 0x3fff == l
  {
  }

  lemma Rejoin1(l: bv16)
    requires l & 0xc000 == 0x4000
    ensures (l & 0x3fff) | 0x4000 == l
  {
  }

  lemma Rejoin2(l: bv16)
    requires l & 0xc000 == 0x8000
    ensures (l & 0x3fff) | 0x8000 == l
  {
  }

  lemma Rejoin3(l: bv16)
    requires l & 0xc000 != 0 && l & 0xc000 != 0x4000 && l & 0xc000 != 0x8000
    ensures (l & 0x3fff) | 0xc000 == l
  {
  }

  lemma PlaneValue(l: bv16)
    ensures Value(l) == Value(WithinPlane(l)) + PlaneOf(l) * SAMPLE_PLANE_BYTES
  {
    PlaneRejoins(l);
    InPlaneValue(WithinPlane(l), PlaneOf(l));
  }

  lemma PlaneAligned(l: bv16, s: Sample, bytes: nat)
    requires ElementSize(bytes) && Aligned(l, bytes)
    ensures Aligned(InPlane(WithinPlane(l), s), bytes)
  {
  }

  lemma PlacesApart(block: nat, s: Sample, l: bv16, block': nat, s': Sample, l': bv16, bytes: nat)
    requires ElementSize(bytes) && Aligned(l, bytes) && Aligned(l', bytes)
    requires block != block' || s != s' || WithinPlane(l) != WithinPlane(l')
    ensures Disjoint(block * TILE_BYTES + Value(InPlane(WithinPlane(l), s)), bytes,
                     block' * TILE_BYTES + Value(InPlane(WithinPlane(l'), s')), bytes)
  {
    PlaneAligned(l, s, bytes);
    PlaneAligned(l', s', bytes);
    if InPlane(WithinPlane(l), s) == InPlane(WithinPlane(l'), s') {
      PlaneRejoins(l);
      PlaneRejoins(l');
      InPlaneSame(WithinPlane(l), s, WithinPlane(l'), s');
    }
    ElementsApart(block, InPlane(WithinPlane(l), s), block', InPlane(WithinPlane(l'), s'), bytes);
  }

  /** Elements in different planes, or at different places of one, are disjoint. */
  lemma PlanesApart(n: nat, l: bv16, n': nat, l': bv16, bytes: nat)
    requires ElementSize(bytes) && Aligned(l, bytes) && Aligned(l', bytes)
    requires n != n' || WithinPlane(l) != WithinPlane(l')
    ensures Disjoint(n * SAMPLE_PLANE_BYTES + Value(WithinPlane(l)), bytes,
                     n' * SAMPLE_PLANE_BYTES + Value(WithinPlane(l')), bytes)
  {
    var at, at' := Value(InPlane(WithinPlane(l), n % 4)), Value(InPlane(WithinPlane(l'), n' % 4));
    assert Disjoint(n / 4 * TILE_BYTES + at, bytes, n' / 4 * TILE_BYTES + at', bytes) by {
      PlacesApart(n / 4, n % 4, l, n' / 4, n' % 4, l', bytes);
    }
    assert n * SAMPLE_PLANE_BYTES + Value(WithinPlane(l)) == n / 4 * TILE_BYTES + at by {
      PlaneInTile(n, l);
    }
    assert n' * SAMPLE_PLANE_BYTES + Value(WithinPlane(l')) == n' / 4 * TILE_BYTES + at' by {
      PlaneInTile(n', l');
    }
  }

  lemma PlaneInTile(n: nat, l: bv16)
    ensures n * SAMPLE_PLANE_BYTES + Value(WithinPlane(l)) ==
            n / 4 * TILE_BYTES + Value(InPlane(WithinPlane(l), n % 4))
  {
    PlaneRejoins(l);
    InPlaneValue(WithinPlane(l), n % 4);
  }

  // ------------------------------------------------------------------ spots

  /** A texel's tile, its place in the tile, and a sample. */
  datatype Spot = Spot(column: nat, row: nat, i: Coordinate, j: Coordinate, sample: Sample)

  /** Where a map puts tile-local (i, j) of the tile in a column and row. */
  type Swirl = (nat, nat, Coordinate, Coordinate) -> bv16

  function At(f: Swirl, a: Spot): bv16 {
    f(a.column, a.row, a.i, a.j)
  }

  /** The plane, counted from the image's start, that a sample starts in, with this many tiles to
      a row. */
  function PlaneNumber(f: Swirl, columns: nat, a: Spot): nat {
    4 * RowMajor(a.row, a.column, columns) + PlaneOf(At(f, a)) + a.sample
  }

  /** Where a sample starts, from the image's start. */
  function SpotOffset(f: Swirl, columns: nat, a: Spot): nat {
    PlaneNumber(f, columns, a) * SAMPLE_PLANE_BYTES + Value(WithinPlane(At(f, a)))
  }

  predicate SameTile(a: Spot, b: Spot) {
    a.column == b.column && a.row == b.row
  }

  /** One position of one tile is one texel. */
  predicate Told(f: Swirl, a: Spot, b: Spot) {
    SameTile(a, b) && At(f, a) == At(f, b) ==> a.i == b.i && a.j == b.j
  }

  predicate SameStart(f: Swirl, columns: nat, a: Spot, b: Spot) {
    PlaneNumber(f, columns, a) == PlaneNumber(f, columns, b) && WithinPlane(At(f, a)) == WithinPlane(At(f, b))
  }

  lemma SamePosition(l: bv16, l': bv16)
    requires WithinPlane(l) == WithinPlane(l') && PlaneOf(l) == PlaneOf(l')
    ensures l == l'
  {
    PlaneRejoins(l);
    PlaneRejoins(l');
  }

  /** How a spot's plane is told by its tile and its place within the plane. */
  datatype Tell = EightNarrow | EightFlat | SixteenNarrow | SixteenFlat

  function ToldPlane(tell: Tell, column: nat, row: nat, within: bv16): nat {
    match tell
    case EightNarrow => Mark(within, 0x200)
    case EightFlat => column
    case SixteenNarrow => Mark(within, 0x100) + 2 * row
    case SixteenFlat => 2 * Mark(within, 0x200)
  }

  /** The tiles each takes: one column of any height, two tiles, two tiles, one. */
  predicate ToldTile(tell: Tell, column: nat, row: nat) {
    match tell
    case EightNarrow => column == 0
    case EightFlat => column <= 1 && row == 0
    case SixteenNarrow => column == 0 && row <= 1
    case SixteenFlat => column == 0 && row == 0
  }

  predicate ToldSpot(tell: Tell, f: Swirl, a: Spot) {
    && ToldTile(tell, a.column, a.row)
    && PlaneOf(At(f, a)) == ToldPlane(tell, a.column, a.row, WithinPlane(At(f, a)))
  }

  lemma ToldTiles(tell: Tell, columns: nat, column: nat, row: nat, s: Sample, column': nat, row': nat, s': Sample,
                  within: bv16)
    requires ToldTile(tell, column, row) && ToldTile(tell, column', row')
    requires (tell.EightNarrow? || tell.SixteenNarrow?) ==> columns == 1
    requires 4 * RowMajor(row, column, columns) + ToldPlane(tell, column, row, within) + s ==
             4 * RowMajor(row', column', columns) + ToldPlane(tell, column', row', within) + s'
    ensures column == column' && row == row' && s == s'
  {
  }

  lemma ToldSame(tell: Tell, f: Swirl, columns: nat, a: Spot, b: Spot)
    requires ToldSpot(tell, f, a) && ToldSpot(tell, f, b) && Told(f, a, b) && SameStart(f, columns, a, b)
    requires (tell.EightNarrow? || tell.SixteenNarrow?) ==> columns == 1
    ensures a == b
  {
    ToldTiles(tell, columns, a.column, a.row, a.sample, b.column, b.row, b.sample, WithinPlane(At(f, a)));
    SamePosition(At(f, a), At(f, b));
  }

  lemma ToldApart(tell: Tell, f: Swirl, columns: nat, a: Spot, b: Spot, bytes: nat)
    requires ElementSize(bytes) && Aligned(At(f, a), bytes) && Aligned(At(f, b), bytes) && a != b
    requires ToldSpot(tell, f, a) && ToldSpot(tell, f, b) && Told(f, a, b)
    requires (tell.EightNarrow? || tell.SixteenNarrow?) ==> columns == 1
    ensures Disjoint(SpotOffset(f, columns, a), bytes, SpotOffset(f, columns, b), bytes)
  {
    if SameStart(f, columns, a, b) {
      ToldSame(tell, f, columns, a, b);
    }
    PlanesApart(PlaneNumber(f, columns, a), At(f, a), PlaneNumber(f, columns, b), At(f, b), bytes);
  }

  // ------------------------------------------------------------------ the wide maps, bit by bit

  predicate Bit(a: bv16, bit: bv16) {
    a & bit != 0
  }

  /** A bit as a number. */
  function Mark(a: bv16, bit: bv16): nat {
    if Bit(a, bit) then 1 else 0
  }

  /** In an eight-byte quarter tile bit 4 of the row is the plane, and bit 9 of the place tells it
      apart from bit 4 of the column only when one of them is known. */
  lemma EightPlane(x: bv16, y: bv16)
    requires BelowEdge(x, 64) && BelowEdge(y, 32)
    ensures PlaneOf(Colour8Formula(x, y)) == Mark(y, 16)
    ensures !Bit(x, 16) ==> Mark(y, 16) == Mark(WithinPlane(Colour8Formula(x, y)), 0x200)
  {
  }

  /** In a sixteen-byte one bit 3 of the row and bit 4 of the column are the plane, and the place
      has their sums with bit 3 of the column and bit 4 of the row. */
  lemma SixteenPlane(x: bv16, y: bv16)
    requires BelowEdge(x, 32) && BelowEdge(y, 32)
    ensures PlaneOf(Colour16Formula(x, y)) == Mark(y, 8) + 2 * Mark(x, 16)
    ensures !Bit(x, 8) ==> Mark(y, 8) == Mark(WithinPlane(Colour16Formula(x, y)), 0x100)
    ensures !Bit(y, 16) ==> Mark(x, 16) == Mark(WithinPlane(Colour16Formula(x, y)), 0x200)
  {
  }

  lemma FormulasAligned(x: bv16, y: bv16)
    ensures Aligned(Colour8Formula(x, y), 8) && Aligned(Colour16Formula(x, y), 16)
  {
  }


  function Twisted(n: Coordinate, twist: bv16): bv16 {
    WordOf(n) ^ twist
  }

  /** A coordinate below 32 has bit 4, turned or not, and bit 3. */
  lemma TwistedBits(n: Coordinate, twist: bv16)
    requires n < 32 && (twist == 0 || twist == 16 || twist == 32)
    ensures Bit(Twisted(n, twist), 16) == ((n >= 16) != (twist == 16))
    ensures n < 16 ==> Bit(Twisted(n, twist), 8) == (n >= 8)
  {
    var a := WordOf(n);
    if n < 8 {
      Below8(a);
      Below8Bits(a, twist);
    } else if n < 16 {
      From8(a);
      Below16Bits(a, twist);
    } else {
      From16(a);
      From16Bits(a, twist);
    }
  }

  lemma Below8Bits(a: bv16, twist: bv16)
    requires a & 0xfff8 == 0 && (twist == 0 || twist == 16 || twist == 32)
    ensures Bit(a ^ twist, 16) == (twist == 16) && !Bit(a ^ twist, 8)
  {
  }

  lemma Below16Bits(a: bv16, twist: bv16)
    requires a & 0xfff8 == 8 && (twist == 0 || twist == 16 || twist == 32)
    ensures Bit(a ^ twist, 16) == (twist == 16) && Bit(a ^ twist, 8)
  {
  }

  lemma From16Bits(a: bv16, twist: bv16)
    requires a & 0xfff0 == 16 && (twist == 0 || twist == 16 || twist == 32)
    ensures Bit(a ^ twist, 16) == (twist != 16)
  {
  }

  lemma From8(a: bv16)
    requires 8 <= a as nat < 16
    ensures a & 0xfff8 == 8
  {
  }

  lemma From16(a: bv16)
    requires 16 <= a as nat < 32
    ensures a & 0xfff0 == 16
  {
  }

  // ------------------------------------------------------------------ the places of the wide texels

  function EightAt(column: nat, row: nat, i: Coordinate, j: Coordinate): bv16 {
    Swizzle(i, j, column, row, 64, 32, 8, 4)
  }

  function SixteenAt(column: nat, row: nat, i: Coordinate, j: Coordinate): bv16 {
    Swizzle(i, j, column, row, 32, 32, 16, 4)
  }

  lemma EightBelow(column: nat, row: nat, i: Coordinate, j: Coordinate)
    requires i < 64 && j < 32
    ensures BelowEdge(Twisted(i, TwistX(8, 4, row, 64)), 64)
    ensures BelowEdge(Twisted(j, TwistY(8, 4, column, 32)), 32)
  {
    WordOfTwistedBelow(i, TwistX(8, 4, row, 64), 64);
    WordOfTwistedBelow(j, TwistY(8, 4, column, 32), 32);
  }

  lemma EightFormula(column: nat, row: nat, i: Coordinate, j: Coordinate)
    ensures EightAt(column, row, i, j) ==
            Colour8Formula(Twisted(i, TwistX(8, 4, row, 64)), Twisted(j, TwistY(8, 4, column, 32)))
  {
    Colour8Unrolled(Twisted(i, TwistX(8, 4, row, 64)), Twisted(j, TwistY(8, 4, column, 32)));
  }

  lemma SixteenBelow(column: nat, row: nat, i: Coordinate, j: Coordinate)
    requires i < 32 && j < 32
    ensures BelowEdge(Twisted(i, TwistX(16, 4, row, 32)), 32)
    ensures BelowEdge(Twisted(j, TwistY(16, 4, column, 32)), 32)
  {
    WordOfTwistedBelow(i, TwistX(16, 4, row, 32), 32);
    WordOfTwistedBelow(j, TwistY(16, 4, column, 32), 32);
  }

  lemma SixteenFormula(column: nat, row: nat, i: Coordinate, j: Coordinate)
    ensures SixteenAt(column, row, i, j) ==
            Colour16Formula(Twisted(i, TwistX(16, 4, row, 32)), Twisted(j, TwistY(16, 4, column, 32)))
  {
    Colour16Unrolled(Twisted(i, TwistX(16, 4, row, 32)), Twisted(j, TwistY(16, 4, column, 32)));
  }

  /** The plane of an eight-byte texel: bit 4 of its row, turned in odd columns. */
  predicate EightPlaced(column: nat, i: Coordinate, j: Coordinate, l: bv16) {
    && Aligned(l, 8)
    && PlaneOf(l) == (if (j >= 16) != (column % 2 == 1) then 1 else 0)
    && (i < 16 ==> PlaneOf(l) == Mark(WithinPlane(l), 0x200))
  }

  lemma EightPlaces(column: nat, row: nat, i: Coordinate, j: Coordinate)
    requires i < 64 && j < 32
    ensures EightPlaced(column, i, j, EightAt(column, row, i, j))
  {
    var x, y := Twisted(i, TwistX(8, 4, row, 64)), Twisted(j, TwistY(8, 4, column, 32));
    EightBelow(column, row, i, j);
    EightFormula(column, row, i, j);
    FormulasAligned(x, y);
    EightPlane(x, y);
    TwistedBits(j, TwistY(8, 4, column, 32));
    if i < 16 {
      TwistedBits(i, TwistX(8, 4, row, 64));
    }
  }

  /** Twice the column's bit 4, turned in odd rows. */
  function ColumnPlane(row: nat, i: Coordinate): nat {
    if (i >= 16) != (row % 2 == 1) then 2 else 0
  }

  /** The plane of a sixteen-byte one: that, and bit 3 of its row. */
  predicate SixteenPlaced(column: nat, row: nat, i: Coordinate, j: Coordinate, l: bv16) {
    && Aligned(l, 16)
    && ColumnPlane(row, i) <= PlaneOf(l) <= ColumnPlane(row, i) + 1
    && (j < 16 ==> PlaneOf(l) == ColumnPlane(row, i) + if j >= 8 then 1 else 0)
    && (i < 8 ==> PlaneOf(l) == ColumnPlane(row, i) + Mark(WithinPlane(l), 0x100))
    && (j < 16 && column % 2 == 0 ==> ColumnPlane(row, i) == 2 * Mark(WithinPlane(l), 0x200))
  }

  lemma SixteenPlaces(column: nat, row: nat, i: Coordinate, j: Coordinate)
    requires i < 32 && j < 32
    ensures SixteenPlaced(column, row, i, j, SixteenAt(column, row, i, j))
  {
    SixteenBelow(column, row, i, j);
    SixteenFormula(column, row, i, j);
    TwistedBits(i, TwistX(16, 4, row, 32));
    TwistedBits(j, TwistY(16, 4, column, 32));
    SixteenPlacedBy(column, row, i, j, Twisted(i, TwistX(16, 4, row, 32)), Twisted(j, TwistY(16, 4, column, 32)));
  }

  lemma SixteenPlacedBy(column: nat, row: nat, i: Coordinate, j: Coordinate, x: bv16, y: bv16)
    requires BelowEdge(x, 32) && BelowEdge(y, 32) && Bit(x, 16) == (ColumnPlane(row, i) == 2)
    requires (i < 8 ==> !Bit(x, 8)) && (j < 16 ==> Bit(y, 8) == (j >= 8))
    requires j < 16 && column % 2 == 0 ==> !Bit(y, 16)
    ensures SixteenPlaced(column, row, i, j, Colour16Formula(x, y))
  {
    FormulasAligned(x, y);
    SixteenPlane(x, y);
  }

  lemma EightTold(column: nat, row: nat, i: Coordinate, j: Coordinate, i': Coordinate, j': Coordinate)
    requires i < 64 && j < 32 && i' < 64 && j' < 32
    requires EightAt(column, row, i, j) == EightAt(column, row, i', j')
    ensures i == i' && j == j'
  {
    Colour8OneToOne();
    TurnedSame(COLOUR_8, i, j, i', j', TwistX(8, 4, row, 64), TwistY(8, 4, column, 32));
  }

  lemma SixteenTold(column: nat, row: nat, i: Coordinate, j: Coordinate, i': Coordinate, j': Coordinate)
    requires i < 32 && j < 32 && i' < 32 && j' < 32
    requires SixteenAt(column, row, i, j) == SixteenAt(column, row, i', j')
    ensures i == i' && j == j'
  {
    Colour16OneToOne();
    TurnedSame(COLOUR_16, i, j, i', j', TwistX(16, 4, row, 32), TwistY(16, 4, column, 32));
  }
}
