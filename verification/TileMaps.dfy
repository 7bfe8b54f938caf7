/**
The in-tile texel maps of driver/ps5vk_image.c.

A tiled surface is a grid of 64 KiB tiles. Where a texel lies inside its tile is an
XOR-linear function of its tile-local coordinates, written in the driver as a table of
shift-and-mask terms (or, for the four-byte depth map, one mask per coordinate bit). Each map
is given here as the driver writes it, with the same map written out and an explicit inverse
beside it. Together they say that a tile's texels and its aligned byte slots correspond one
to one.
*/
module TileMaps {
  import opened Words

  datatype Coord = X | Y

  type Shift = s: bv16 | s <= 16

  /** One term of a map: ((coord << shift) & mask). Every mask lies in the tile's 16 address
      bits, so 16-bit words carry all that survives the mask. */
  datatype Term = Term(coord: Coord, shift: Shift, mask: bv16)

  const TERMS_1B: seq<Term> := [
    Term(X, 0, 0x7), Term(X, 3, 0x40), Term(X, 5, 0x300), Term(X, 6, 0x800), Term(X, 4, 0x400),
    Term(X, 7, 0x2000), Term(X, 8, 0x8000), Term(Y, 4, 0x10), Term(Y, 2, 0x8), Term(Y, 3, 0xa0),
    Term(Y, 5, 0xf00), Term(Y, 6, 0x1000), Term(Y, 7, 0x4000)]

  const TERMS_2B: seq<Term> := [
    Term(X, 1, 0x0e), Term(X, 4, 0x480), Term(X, 5, 0x300), Term(X, 6, 0x800), Term(X, 7, 0x2000),
    Term(X, 8, 0x8000), Term(Y, 4, 0x70), Term(Y, 5, 0xf00), Term(Y, 8, 0x5000)]

  const TERMS_4B: seq<Term> := [
    Term(X, 2, 0x0c), Term(X, 5, 0x380), Term(X, 4, 0x400), Term(X, 6, 0x800), Term(X, 9, 0xa000),
    Term(Y, 4, 0x70), Term(Y, 5, 0xf00), Term(Y, 9, 0x1000), Term(Y, 8, 0x4000)]

  const TERMS_8B: seq<Term> := [
    Term(X, 3, 0x8), Term(X, 4, 0x460), Term(X, 5, 0x300), Term(X, 10, 0x2000), Term(X, 6, 0x800),
    Term(X, 9, 0x8000), Term(Y, 4, 0x10), Term(Y, 6, 0x80), Term(Y, 10, 0x5000), Term(Y, 5, 0x700)]

  const TERMS_16B: seq<Term> := [
    Term(X, 4, 0x10), Term(X, 5, 0x340), Term(X, 11, 0xa000), Term(X, 6, 0x800),
    Term(Y, 5, 0x720), Term(Y, 6, 0x80), Term(Y, 10, 0x1000), Term(Y, 11, 0x4000)]

  const TERMS_DEPTH2: seq<Term> := [
    Term(X, 1, 0x2), Term(X, 2, 0x8), Term(X, 3, 0x20), Term(X, 4, 0x480), Term(X, 5, 0x300),
    Term(X, 6, 0x800), Term(X, 7, 0x2000), Term(X, 8, 0x8000), Term(Y, 2, 0x4), Term(Y, 3, 0x10),
    Term(Y, 4, 0x40), Term(Y, 5, 0xf00), Term(Y, 8, 0x5000)]

  const TERMS_STENCIL: seq<Term> := [
    Term(X, 0, 0x1), Term(X, 1, 0x4), Term(X, 2, 0x10), Term(X, 3, 0x40), Term(X, 5, 0x300),
    Term(X, 6, 0x800), Term(X, 4, 0x400), Term(X, 7, 0x2000), Term(X, 8, 0x8000), Term(Y, 1, 0x2),
    Term(Y, 2, 0x8), Term(Y, 3, 0xa0), Term(Y, 5, 0xf00), Term(Y, 6, 0x1000), Term(Y, 7, 0x4000)]

  const TERMS_DEPTH4X: seq<Term> := [
    Term(X, 4, 0x10), Term(X, 5, 0x340), Term(X, 13, 0x8000), Term(X, 9, 0x2000), Term(X, 6, 0x800),
    Term(Y, 5, 0x720), Term(Y, 6, 0x80), Term(Y, 12, 0x4000), Term(Y, 9, 0x1000)]

  /** The four-byte depth map's masks, one pair per coordinate bit; bit selects that bit. */
  datatype BitMasks = BitMasks(bit: bv16, xMask: bv16, yMask: bv16)

  const DEPTH_MASKS: seq<BitMasks> := [
    BitMasks(1, 0x0004, 0x0008), BitMasks(2, 0x0010, 0x0020), BitMasks(4, 0x0040, 0x0080),
    BitMasks(8, 0x0100, 0x1100), BitMasks(16, 0x2200, 0x0200), BitMasks(32, 0x0800, 0x0400),
    BitMasks(64, 0x8400, 0x4800)]

  function Apply(t: Term, x: bv16, y: bv16): bv16 {
    ((if t.coord.X? then x else y) << t.shift) & t.mask
  }

  function Select(c: bv16, bit: bv16, mask: bv16): bv16 {
    if c & bit != 0 then mask else 0
  }

  function ApplyMasks(local: bv16, m: BitMasks, x: bv16, y: bv16): bv16 {
    local ^ Select(x, m.bit, m.xMask) ^ Select(y, m.bit, m.yMask)
  }

  /** The value a loop over a table's first n entries has accumulated. */
  function Fold<E, T>(f: (T, E) -> T, z: T, s: seq<E>, n: nat): T
    requires n <= |s|
    decreases n
  {
    if n == 0 then z else f(Fold(f, z, s, n - 1), s[n - 1])
  }

  function XorTerm(x: bv16, y: bv16): (bv16, Term) -> bv16 {
    (local: bv16, t: Term) => local ^ Apply(t, x, y)
  }

  function XorMasks(x: bv16, y: bv16): (bv16, BitMasks) -> bv16 {
    (local: bv16, m: BitMasks) => ApplyMasks(local, m, x, y)
  }

  /** The XOR of a table's terms: the driver's swizzle of tile-local (x, y). */
  function Walk(terms: seq<Term>, x: bv16, y: bv16): bv16 {
    Fold(XorTerm(x, y), 0, terms, |terms|)
  }

  function WalkMasks(x: bv16, y: bv16): bv16 {
    Fold(XorMasks(x, y), 0, DEPTH_MASKS, |DEPTH_MASKS|)
  }

  /** The term loop of ps5vk_tiled_texel_offset and its depth counterparts. */
  method WalkTable(terms: seq<Term>, x: bv16, y: bv16) returns (local: bv16)
    ensures local == Walk(terms, x, y)
  {
    local := 0;
    for index := 0 to |terms|
      invariant local == Fold(XorTerm(x, y), 0, terms, index)
    {
      local := local ^ Apply(terms[index], x, y);
    }
  }

  /** The bit loop of ps5vk_tiled_depth_offset. */
  method WalkDepthMasks(x: bv16, y: bv16) returns (local: bv16)
    ensures local == WalkMasks(x, y)
  {
    local := 0;
    for index := 0 to |DEPTH_MASKS|
      invariant local == Fold(XorMasks(x, y), 0, DEPTH_MASKS, index)
    {
      local := ApplyMasks(local, DEPTH_MASKS[index], x, y);
    }
  }

  // Loops of a known length, unrolled.

  lemma {:induction false} Unroll7<E, T>(f: (T, E) -> T, z: T, s: seq<E>)
    requires |s| == 7
    ensures Fold(f, z, s, 7) ==
            f(f(f(f(f(f(f(z, s[0]), s[1]), s[2]), s[3]), s[4]), s[5]), s[6])
  {
  }

  lemma {:induction false} Unroll8<E, T>(f: (T, E) -> T, z: T, s: seq<E>)
    requires |s| == 8
    ensures Fold(f, z, s, 8) ==
            f(f(f(f(f(f(f(f(z, s[0]), s[1]), s[2]), s[3]), s[4]), s[5]), s[6]), s[7])
  {
  }

  lemma {:induction false} Unroll9<E, T>(f: (T, E) -> T, z: T, s: seq<E>)
    requires |s| == 9
    ensures Fold(f, z, s, 9) ==
            f(f(f(f(f(f(f(f(f(z, s[0]), s[1]), s[2]), s[3]), s[4]), s[5]), s[6]), s[7]), s[8])
  {
  }

  lemma {:induction false} Unroll10<E, T>(f: (T, E) -> T, z: T, s: seq<E>)
    requires |s| == 10
    ensures Fold(f, z, s, 10) ==
            f(f(f(f(f(f(f(f(f(f(z, s[0]), s[1]), s[2]), s[3]), s[4]), s[5]), s[6]), s[7]), s[8]), s[9])
  {
  }

  lemma {:induction false} Unroll13<E, T>(f: (T, E) -> T, z: T, s: seq<E>)
    requires |s| == 13
    ensures Fold(f, z, s, 13) ==
            f(f(f(f(f(f(f(f(f(f(f(f(f(z, s[0]), s[1]), s[2]), s[3]), s[4]), s[5]), s[6]), s[7]), s[8]),
            s[9]), s[10]), s[11]), s[12])
  {
  }

  lemma {:induction false} Unroll15<E, T>(f: (T, E) -> T, z: T, s: seq<E>)
    requires |s| == 15
    ensures Fold(f, z, s, 15) ==
            f(f(f(f(f(f(f(f(f(f(f(f(f(f(f(z, s[0]), s[1]), s[2]), s[3]), s[4]), s[5]), s[6]), s[7]),
            s[8]), s[9]), s[10]), s[11]), s[12]), s[13]), s[14])
  {
  }

  /** A map and its inverse: where tile-local (x, y) starts in its tile, and the column and row
      of the element that starts at a given byte. */
  datatype TileMap = TileMap(
    wide: nat, high: nat, bytes: nat,
    place: (bv16, bv16) -> bv16, texelX: bv16 -> bv16, texelY: bv16 -> bv16)

  /** Byte l is aligned to the element, and texel (x, y) is what starts there. */
  predicate Inverted(m: TileMap, x: bv16, y: bv16, l: bv16)
    requires ElementSize(m.bytes)
  {
    Aligned(l, m.bytes) && m.texelX(l) == x && m.texelY(l) == y
  }

  predicate InTile(m: TileMap, x: bv16, y: bv16)
    requires TileEdge(m.wide) && TileEdge(m.high)
  {
    BelowEdge(x, m.wide) && BelowEdge(y, m.high)
  }

  /** The map sends the texels of a tile one to one onto its aligned slots. */
  ghost predicate OneToOne(m: TileMap) {
    && TileEdge(m.wide) && TileEdge(m.high) && ElementSize(m.bytes)
    && (forall x, y | InTile(m, x, y) :: Inverted(m, x, y, m.place(x, y)))
    && (forall l | Aligned(l, m.bytes) ::
          InTile(m, m.texelX(l), m.texelY(l)) && m.place(m.texelX(l), m.texelY(l)) == l)
  }

  // The maps written out, and their inverses: the column and row of the element that starts at
  // byte l of a tile. Colour4Formula is the driver's own unrolled RGBA8 path.

  function Colour1Formula(x: bv16, y: bv16): bv16 {
    (x & 0x7) ^ ((x << 3) & 0x40) ^ ((x << 5) & 0x300) ^ ((x << 6) & 0x800) ^ ((x << 4) & 0x400)
    ^ ((x << 7) & 0x2000) ^ ((x << 8) & 0x8000) ^ ((y << 4) & 0x10) ^ ((y << 2) & 0x8)
    ^ ((y << 3) & 0xa0) ^ ((y << 5) & 0xf00) ^ ((y << 6) & 0x1000) ^ ((y << 7) & 0x4000)
  }

  function Colour1X(l: bv16): bv16 {
    (l & 0x7) ^ ((l >> 3) & 0x18) ^ ((l >> 5) & 0x10) ^ ((l >> 6) & 0x20) ^ ((l >> 7) & 0x60)
    ^ ((l >> 8) & 0x80)
  }

  function Colour1Y(l: bv16): bv16 {
    ((l >> 2) & 0x2) ^ ((l >> 3) & 0x1c) ^ ((l >> 4) & 0x1) ^ ((l >> 5) & 0x28)
    ^ ((l >> 6) & 0x40) ^ ((l >> 7) & 0x80) ^ ((l >> 8) & 0x20)
  }

  lemma Colour1Unrolled(x: bv16, y: bv16)
    ensures Walk(TERMS_1B, x, y) == Colour1Formula(x, y)
  {
    Unroll13(XorTerm(x, y), 0, TERMS_1B);
  }

  lemma Colour1Forth(x: bv16, y: bv16)
    requires x < 256 && y < 256
    ensures var l := Colour1Formula(x, y); Colour1X(l) == x && Colour1Y(l) == y && l & 0 == 0
  {
  }

  lemma Colour1Back(l: bv16)
    requires l & 0 == 0
    ensures Colour1X(l) < 256 && Colour1Y(l) < 256 && Colour1Formula(Colour1X(l), Colour1Y(l)) == l
  {
  }

  function Colour2Formula(x: bv16, y: bv16): bv16 {
    ((x << 1) & 0x0e) ^ ((x << 4) & 0x480) ^ ((x << 5) & 0x300) ^ ((x << 6) & 0x800)
    ^ ((x << 7) & 0x2000) ^ ((x << 8) & 0x8000) ^ ((y << 4) & 0x70) ^ ((y << 5) & 0xf00)
    ^ ((y << 8) & 0x5000)
  }

  function Colour2X(l: bv16): bv16 {
    ((l >> 1) & 0x7) ^ ((l >> 4) & 0x8) ^ ((l >> 5) & 0x10) ^ ((l >> 6) & 0x20)
    ^ ((l >> 7) & 0x40) ^ ((l >> 8) & 0x90) ^ ((l >> 9) & 0x20)
  }

  function Colour2Y(l: bv16): bv16 {
    ((l >> 4) & 0xf) ^ ((l >> 5) & 0x28) ^ ((l >> 8) & 0x70)
  }

  lemma Colour2Unrolled(x: bv16, y: bv16)
    ensures Walk(TERMS_2B, x, y) == Colour2Formula(x, y)
  {
    Unroll9(XorTerm(x, y), 0, TERMS_2B);
  }

  lemma Colour2Forth(x: bv16, y: bv16)
    requires x < 256 && y < 128
    ensures var l := Colour2Formula(x, y); Colour2X(l) == x && Colour2Y(l) == y && l & 1 == 0
  {
  }

  lemma Colour2Back(l: bv16)
    requires l & 1 == 0
    ensures Colour2X(l) < 256 && Colour2Y(l) < 128 && Colour2Formula(Colour2X(l), Colour2Y(l)) == l
  {
  }

  function Colour4Formula(x: bv16, y: bv16): bv16 {
    ((x << 2) & 0x0c) ^ ((x << 5) & 0x380) ^ ((x << 4) & 0x400) ^ ((x << 6) & 0x800)
    ^ ((x << 9) & 0xa000) ^ ((y << 4) & 0x70) ^ ((y << 5) & 0xf00) ^ ((y << 9) & 0x1000)
    ^ ((y << 8) & 0x4000)
  }

  function Colour4X(l: bv16): bv16 {
    ((l >> 2) & 0x3) ^ ((l >> 5) & 0xc) ^ ((l >> 6) & 0x20) ^ ((l >> 9) & 0x78)
  }

  function Colour4Y(l: bv16): bv16 {
    ((l >> 4) & 0x7) ^ ((l >> 5) & 0x30) ^ ((l >> 8) & 0x40) ^ ((l >> 9) & 0x18)
    ^ ((l >> 10) & 0x20)
  }

  lemma Colour4Unrolled(x: bv16, y: bv16)
    ensures Walk(TERMS_4B, x, y) == Colour4Formula(x, y)
  {
    Unroll9(XorTerm(x, y), 0, TERMS_4B);
  }

  lemma Colour4Forth(x: bv16, y: bv16)
    requires x < 128 && y < 128
    ensures var l := Colour4Formula(x, y); Colour4X(l) == x && Colour4Y(l) == y && l & 3 == 0
  {
  }

  lemma Colour4Back(l: bv16)
    requires l & 3 == 0
    ensures Colour4X(l) < 128 && Colour4Y(l) < 128 && Colour4Formula(Colour4X(l), Colour4Y(l)) == l
  {
  }

  function Colour8Formula(x: bv16, y: bv16): bv16 {
    ((x << 3) & 0x8) ^ ((x << 4) & 0x460) ^ ((x << 5) & 0x300) ^ ((x << 10) & 0x2000)
    ^ ((x << 6) & 0x800) ^ ((x << 9) & 0x8000) ^ ((y << 4) & 0x10) ^ ((y << 6) & 0x80)
    ^ ((y << 10) & 0x5000) ^ ((y << 5) & 0x700)
  }

  function Colour8X(l: bv16): bv16 {
    ((l >> 3) & 0x1) ^ ((l >> 4) & 0x6) ^ ((l >> 5) & 0x10) ^ ((l >> 6) & 0x20)
    ^ ((l >> 9) & 0x40) ^ ((l >> 10) & 0x18)
  }

  function Colour8Y(l: bv16): bv16 {
    ((l >> 4) & 0x1) ^ ((l >> 5) & 0x28) ^ ((l >> 6) & 0x2) ^ ((l >> 10) & 0x3c)
  }

  lemma Colour8Unrolled(x: bv16, y: bv16)
    ensures Walk(TERMS_8B, x, y) == Colour8Formula(x, y)
  {
    Unroll10(XorTerm(x, y), 0, TERMS_8B);
  }

  lemma Colour8Forth(x: bv16, y: bv16)
    requires x < 128 && y < 64
    ensures var l := Colour8Formula(x, y); Colour8X(l) == x && Colour8Y(l) == y && l & 7 == 0
  {
  }

  lemma Colour8Back(l: bv16)
    requires l & 7 == 0
    ensures Colour8X(l) < 128 && Colour8Y(l) < 64 && Colour8Formula(Colour8X(l), Colour8Y(l)) == l
  {
  }

  function Colour16Formula(x: bv16, y: bv16): bv16 {
    ((x << 4) & 0x10) ^ ((x << 5) & 0x340) ^ ((x << 11) & 0xa000) ^ ((x << 6) & 0x800)
    ^ ((y << 5) & 0x720) ^ ((y << 6) & 0x80) ^ ((y << 10) & 0x1000) ^ ((y << 11) & 0x4000)
  }

  function Colour16X(l: bv16): bv16 {
    ((l >> 4) & 0x1) ^ ((l >> 5) & 0xa) ^ ((l >> 6) & 0x20) ^ ((l >> 11) & 0x1c)
  }

  function Colour16Y(l: bv16): bv16 {
    ((l >> 5) & 0x31) ^ ((l >> 6) & 0x2) ^ ((l >> 10) & 0x4) ^ ((l >> 11) & 0x18)
  }

  lemma Colour16Unrolled(x: bv16, y: bv16)
    ensures Walk(TERMS_16B, x, y) == Colour16Formula(x, y)
  {
    Unroll8(XorTerm(x, y), 0, TERMS_16B);
  }

  lemma Colour16Forth(x: bv16, y: bv16)
    requires x < 64 && y < 64
    ensures var l := Colour16Formula(x, y); Colour16X(l) == x && Colour16Y(l) == y && l & 15 == 0
  {
  }

  lemma Colour16Back(l: bv16)
    requires l & 15 == 0
    ensures Colour16X(l) < 64 && Colour16Y(l) < 64 && Colour16Formula(Colour16X(l), Colour16Y(l)) == l
  {
  }

  function Depth4Formula(x: bv16, y: bv16): bv16 {
    ((x << 2) & 0x4) ^ ((x << 3) & 0x10) ^ ((x << 4) & 0x440) ^ ((x << 5) & 0x300)
    ^ ((x << 6) & 0x800) ^ ((x << 9) & 0xa000) ^ ((y << 3) & 0x8) ^ ((y << 4) & 0x20)
    ^ ((y << 5) & 0xf80) ^ ((y << 8) & 0x4000) ^ ((y << 9) & 0x1000)
  }

  function Depth4X(l: bv16): bv16 {
    ((l >> 2) & 0x1) ^ ((l >> 3) & 0x2) ^ ((l >> 4) & 0x4) ^ ((l >> 5) & 0x8) ^ ((l >> 6) & 0x20)
    ^ ((l >> 9) & 0x78)
  }

  function Depth4Y(l: bv16): bv16 {
    ((l >> 3) & 0x1) ^ ((l >> 4) & 0x2) ^ ((l >> 5) & 0x34) ^ ((l >> 8) & 0x40)
    ^ ((l >> 9) & 0x18) ^ ((l >> 10) & 0x20)
  }

  /** Each mask, selected by its bit, as shifts of the coordinate. */
  lemma MaskShifts(x: bv16, y: bv16)
    ensures Select(x, 1, 0x0004) == ((x << 2) & 0x4)
    ensures Select(y, 1, 0x0008) == ((y << 3) & 0x8)
    ensures Select(x, 2, 0x0010) == ((x << 3) & 0x10)
    ensures Select(y, 2, 0x0020) == ((y << 4) & 0x20)
    ensures Select(x, 4, 0x0040) == ((x << 4) & 0x40)
    ensures Select(y, 4, 0x0080) == ((y << 5) & 0x80)
    ensures Select(x, 8, 0x0100) == ((x << 5) & 0x100)
    ensures Select(y, 8, 0x1100) == ((y << 5) & 0x100) ^ ((y << 9) & 0x1000)
    ensures Select(x, 16, 0x2200) == ((x << 5) & 0x200) ^ ((x << 9) & 0x2000)
    ensures Select(y, 16, 0x0200) == ((y << 5) & 0x200)
    ensures Select(x, 32, 0x0800) == ((x << 6) & 0x800)
    ensures Select(y, 32, 0x0400) == ((y << 5) & 0x400)
    ensures Select(x, 64, 0x8400) == ((x << 4) & 0x400) ^ ((x << 9) & 0x8000)
    ensures Select(y, 64, 0x4800) == ((y << 5) & 0x800) ^ ((y << 8) & 0x4000)
  {
  }

  function Depth4Steps(x: bv16, y: bv16): bv16 {
    var l0 := ApplyMasks(0, BitMasks(1, 0x0004, 0x0008), x, y);
    var l1 := ApplyMasks(l0, BitMasks(2, 0x0010, 0x0020), x, y);
    var l2 := ApplyMasks(l1, BitMasks(4, 0x0040, 0x0080), x, y);
    var l3 := ApplyMasks(l2, BitMasks(8, 0x0100, 0x1100), x, y);
    var l4 := ApplyMasks(l3, BitMasks(16, 0x2200, 0x0200), x, y);
    var l5 := ApplyMasks(l4, BitMasks(32, 0x0800, 0x0400), x, y);
    var l6 := ApplyMasks(l5, BitMasks(64, 0x8400, 0x4800), x, y);
    l6
  }

  lemma MasksAreSteps(x: bv16, y: bv16)
    ensures WalkMasks(x, y) == Depth4Steps(x, y)
  {
    Unroll7(XorMasks(x, y), 0, DEPTH_MASKS);
  }

  lemma StepsAreShifts(x: bv16, y: bv16)
    ensures Depth4Steps(x, y) == Depth4Formula(x, y)
  {
    MaskShifts(x, y);
  }

  lemma Depth4Unrolled(x: bv16, y: bv16)
    ensures WalkMasks(x, y) == Depth4Formula(x, y)
  {
    MasksAreSteps(x, y);
    StepsAreShifts(x, y);
  }

  lemma Depth4Forth(x: bv16, y: bv16)
    requires x < 128 && y < 128
    ensures var l := Depth4Formula(x, y); Depth4X(l) == x && Depth4Y(l) == y && l & 3 == 0
  {
  }

  lemma Depth4Back(l: bv16)
    requires l & 3 == 0
    ensures Depth4X(l) < 128 && Depth4Y(l) < 128 && Depth4Formula(Depth4X(l), Depth4Y(l)) == l
  {
  }

  function Depth2Formula(x: bv16, y: bv16): bv16 {
    ((x << 1) & 0x2) ^ ((x << 2) & 0x8) ^ ((x << 3) & 0x20) ^ ((x << 4) & 0x480)
    ^ ((x << 5) & 0x300) ^ ((x << 6) & 0x800) ^ ((x << 7) & 0x2000) ^ ((x << 8) & 0x8000)
    ^ ((y << 2) & 0x4) ^ ((y << 3) & 0x10) ^ ((y << 4) & 0x40) ^ ((y << 5) & 0xf00)
    ^ ((y << 8) & 0x5000)
  }

  function Depth2X(l: bv16): bv16 {
    ((l >> 1) & 0x1) ^ ((l >> 2) & 0x2) ^ ((l >> 3) & 0x4) ^ ((l >> 4) & 0x8) ^ ((l >> 5) & 0x10)
    ^ ((l >> 6) & 0x20) ^ ((l >> 7) & 0x40) ^ ((l >> 8) & 0x90) ^ ((l >> 9) & 0x20)
  }

  function Depth2Y(l: bv16): bv16 {
    ((l >> 2) & 0x1) ^ ((l >> 3) & 0x2) ^ ((l >> 4) & 0xc) ^ ((l >> 5) & 0x28)
    ^ ((l >> 8) & 0x70)
  }

  lemma Depth2Unrolled(x: bv16, y: bv16)
    ensures Walk(TERMS_DEPTH2, x, y) == Depth2Formula(x, y)
  {
    Unroll13(XorTerm(x, y), 0, TERMS_DEPTH2);
  }

  lemma Depth2Forth(x: bv16, y: bv16)
    requires x < 256 && y < 128
    ensures var l := Depth2Formula(x, y); Depth2X(l) == x && Depth2Y(l) == y && l & 1 == 0
  {
  }

  lemma Depth2Back(l: bv16)
    requires l & 1 == 0
    ensures Depth2X(l) < 256 && Depth2Y(l) < 128 && Depth2Formula(Depth2X(l), Depth2Y(l)) == l
  {
  }

  function StencilFormula(x: bv16, y: bv16): bv16 {
    (x & 0x1) ^ ((x << 1) & 0x4) ^ ((x << 2) & 0x10) ^ ((x << 3) & 0x40) ^ ((x << 5) & 0x300)
    ^ ((x << 6) & 0x800) ^ ((x << 4) & 0x400) ^ ((x << 7) & 0x2000) ^ ((x << 8) & 0x8000)
    ^ ((y << 1) & 0x2) ^ ((y << 2) & 0x8) ^ ((y << 3) & 0xa0) ^ ((y << 5) & 0xf00)
    ^ ((y << 6) & 0x1000) ^ ((y << 7) & 0x4000)
  }

  function StencilX(l: bv16): bv16 {
    (l & 0x1) ^ ((l >> 1) & 0x2) ^ ((l >> 2) & 0x4) ^ ((l >> 3) & 0x18) ^ ((l >> 5) & 0x10)
    ^ ((l >> 6) & 0x20) ^ ((l >> 7) & 0x60) ^ ((l >> 8) & 0x80)
  }

  function StencilY(l: bv16): bv16 {
    ((l >> 1) & 0x1) ^ ((l >> 2) & 0x2) ^ ((l >> 3) & 0x1c) ^ ((l >> 5) & 0x28)
    ^ ((l >> 6) & 0x40) ^ ((l >> 7) & 0x80) ^ ((l >> 8) & 0x20)
  }

  lemma StencilUnrolled(x: bv16, y: bv16)
    ensures Walk(TERMS_STENCIL, x, y) == StencilFormula(x, y)
  {
    Unroll15(XorTerm(x, y), 0, TERMS_STENCIL);
  }

  lemma StencilForth(x: bv16, y: bv16)
    requires x < 256 && y < 256
    ensures var l := StencilFormula(x, y); StencilX(l) == x && StencilY(l) == y && l & 0 == 0
  {
  }

  lemma StencilBack(l: bv16)
    requires l & 0 == 0
    ensures StencilX(l) < 256 && StencilY(l) < 256 && StencilFormula(StencilX(l), StencilY(l)) == l
  {
  }

  function Depth4xFormula(x: bv16, y: bv16): bv16 {
    ((x << 4) & 0x10) ^ ((x << 5) & 0x340) ^ ((x << 13) & 0x8000) ^ ((x << 9) & 0x2000)
    ^ ((x << 6) & 0x800) ^ ((y << 5) & 0x720) ^ ((y << 6) & 0x80) ^ ((y << 12) & 0x4000)
    ^ ((y << 9) & 0x1000)
  }

  function Depth4xX(l: bv16): bv16 {
    ((l >> 4) & 0x1) ^ ((l >> 5) & 0xa) ^ ((l >> 6) & 0x20) ^ ((l >> 9) & 0x18)
    ^ ((l >> 13) & 0x4)
  }

  function Depth4xY(l: bv16): bv16 {
    ((l >> 5) & 0x31) ^ ((l >> 6) & 0x2) ^ ((l >> 9) & 0x18) ^ ((l >> 12) & 0x4)
  }

  lemma Depth4xUnrolled(x: bv16, y: bv16)
    ensures Walk(TERMS_DEPTH4X, x, y) == Depth4xFormula(x, y)
  {
    Unroll9(XorTerm(x, y), 0, TERMS_DEPTH4X);
  }

  lemma Depth4xForth(x: bv16, y: bv16)
    requires x < 64 && y < 64
    ensures var l := Depth4xFormula(x, y); Depth4xX(l) == x && Depth4xY(l) == y && l & 15 == 0
  {
  }

  lemma Depth4xBack(l: bv16)
    requires l & 15 == 0
    ensures Depth4xX(l) < 64 && Depth4xY(l) < 64 && Depth4xFormula(Depth4xX(l), Depth4xY(l)) == l
  {
  }

  // The driver's nine maps. The four-sample depth map's element is a sixteen-byte texel.

  const COLOUR_1: TileMap := TileMap(256, 256, 1, (x, y) => Walk(TERMS_1B, x, y), Colour1X, Colour1Y)
  const COLOUR_2: TileMap := TileMap(256, 128, 2, (x, y) => Walk(TERMS_2B, x, y), Colour2X, Colour2Y)
  const COLOUR_4: TileMap := TileMap(128, 128, 4, (x, y) => Walk(TERMS_4B, x, y), Colour4X, Colour4Y)
  const COLOUR_8: TileMap := TileMap(128, 64, 8, (x, y) => Walk(TERMS_8B, x, y), Colour8X, Colour8Y)
  const COLOUR_16: TileMap := TileMap(64, 64, 16, (x, y) => Walk(TERMS_16B, x, y), Colour16X, Colour16Y)
  const DEPTH_4: TileMap := TileMap(128, 128, 4, WalkMasks, Depth4X, Depth4Y)
  const DEPTH_2: TileMap := TileMap(256, 128, 2, (x, y) => Walk(TERMS_DEPTH2, x, y), Depth2X, Depth2Y)
  const STENCIL_1: TileMap := TileMap(256, 256, 1, (x, y) => Walk(TERMS_STENCIL, x, y), StencilX, StencilY)
  const DEPTH_4X: TileMap := TileMap(64, 64, 16, (x, y) => Walk(TERMS_DEPTH4X, x, y), Depth4xX, Depth4xY)

  lemma Colour1OneToOne()
    ensures OneToOne(COLOUR_1)
  {
    forall x, y | InTile(COLOUR_1, x, y) ensures Inverted(COLOUR_1, x, y, COLOUR_1.place(x, y)) {
      Colour1Unrolled(x, y);
      Colour1Forth(x, y);
    }
    forall l | Aligned(l, COLOUR_1.bytes)
      ensures InTile(COLOUR_1, COLOUR_1.texelX(l), COLOUR_1.texelY(l))
      ensures COLOUR_1.place(COLOUR_1.texelX(l), COLOUR_1.texelY(l)) == l
    {
      Colour1Unrolled(COLOUR_1.texelX(l), COLOUR_1.texelY(l));
      Colour1Back(l);
    }
  }

  lemma Colour2OneToOne()
    ensures OneToOne(COLOUR_2)
  {
    forall x, y | InTile(COLOUR_2, x, y) ensures Inverted(COLOUR_2, x, y, COLOUR_2.place(x, y)) {
      Colour2Unrolled(x, y);
      Colour2Forth(x, y);
    }
    forall l | Aligned(l, COLOUR_2.bytes)
      ensures InTile(COLOUR_2, COLOUR_2.texelX(l), COLOUR_2.texelY(l))
      ensures COLOUR_2.place(COLOUR_2.texelX(l), COLOUR_2.texelY(l)) == l
    {
      Colour2Unrolled(COLOUR_2.texelX(l), COLOUR_2.texelY(l));
      Colour2Back(l);
    }
  }

  lemma Colour4OneToOne()
    ensures OneToOne(COLOUR_4)
  {
    forall x, y | InTile(COLOUR_4, x, y) ensures Inverted(COLOUR_4, x, y, COLOUR_4.place(x, y)) {
      Colour4Unrolled(x, y);
      Colour4Forth(x, y);
    }
    forall l | Aligned(l, COLOUR_4.bytes)
      ensures InTile(COLOUR_4, COLOUR_4.texelX(l), COLOUR_4.texelY(l))
      ensures COLOUR_4.place(COLOUR_4.texelX(l), COLOUR_4.texelY(l)) == l
    {
      Colour4Unrolled(COLOUR_4.texelX(l), COLOUR_4.texelY(l));
      Colour4Back(l);
    }
  }

  lemma Colour8OneToOne()
    ensures OneToOne(COLOUR_8)
  {
    forall x, y | InTile(COLOUR_8, x, y) ensures Inverted(COLOUR_8, x, y, COLOUR_8.place(x, y)) {
      Colour8Unrolled(x, y);
      Colour8Forth(x, y);
    }
    forall l | Aligned(l, COLOUR_8.bytes)
      ensures InTile(COLOUR_8, COLOUR_8.texelX(l), COLOUR_8.texelY(l))
      ensures COLOUR_8.place(COLOUR_8.texelX(l), COLOUR_8.texelY(l)) == l
    {
      Colour8Unrolled(COLOUR_8.texelX(l), COLOUR_8.texelY(l));
      Colour8Back(l);
    }
  }

  lemma Colour16OneToOne()
    ensures OneToOne(COLOUR_16)
  {
    forall x, y | InTile(COLOUR_16, x, y) ensures Inverted(COLOUR_16, x, y, COLOUR_16.place(x, y)) {
      Colour16Unrolled(x, y);
      Colour16Forth(x, y);
    }
    forall l | Aligned(l, COLOUR_16.bytes)
      ensures InTile(COLOUR_16, COLOUR_16.texelX(l), COLOUR_16.texelY(l))
      ensures COLOUR_16.place(COLOUR_16.texelX(l), COLOUR_16.texelY(l)) == l
    {
      Colour16Unrolled(COLOUR_16.texelX(l), COLOUR_16.texelY(l));
      Colour16Back(l);
    }
  }

  lemma Depth4OneToOne()
    ensures OneToOne(DEPTH_4)
  {
    forall x, y | InTile(DEPTH_4, x, y) ensures Inverted(DEPTH_4, x, y, DEPTH_4.place(x, y)) {
      Depth4Unrolled(x, y);
      Depth4Forth(x, y);
    }
    forall l | Aligned(l, DEPTH_4.bytes)
      ensures InTile(DEPTH_4, DEPTH_4.texelX(l), DEPTH_4.texelY(l))
      ensures DEPTH_4.place(DEPTH_4.texelX(l), DEPTH_4.texelY(l)) == l
    {
      Depth4Unrolled(DEPTH_4.texelX(l), DEPTH_4.texelY(l));
      Depth4Back(l);
    }
  }

  lemma Depth2OneToOne()
    ensures OneToOne(DEPTH_2)
  {
    forall x, y | InTile(DEPTH_2, x, y) ensures Inverted(DEPTH_2, x, y, DEPTH_2.place(x, y)) {
      Depth2Unrolled(x, y);
      Depth2Forth(x, y);
    }
    forall l | Aligned(l, DEPTH_2.bytes)
      ensures InTile(DEPTH_2, DEPTH_2.texelX(l), DEPTH_2.texelY(l))
      ensures DEPTH_2.place(DEPTH_2.texelX(l), DEPTH_2.texelY(l)) == l
    {
      Depth2Unrolled(DEPTH_2.texelX(l), DEPTH_2.texelY(l));
      Depth2Back(l);
    }
  }

  lemma StencilOneToOne()
    ensures OneToOne(STENCIL_1)
  {
    forall x, y | InTile(STENCIL_1, x, y) ensures Inverted(STENCIL_1, x, y, STENCIL_1.place(x, y)) {
      StencilUnrolled(x, y);
      StencilForth(x, y);
    }
    forall l | Aligned(l, STENCIL_1.bytes)
      ensures InTile(STENCIL_1, STENCIL_1.texelX(l), STENCIL_1.texelY(l))
      ensures STENCIL_1.place(STENCIL_1.texelX(l), STENCIL_1.texelY(l)) == l
    {
      StencilUnrolled(STENCIL_1.texelX(l), STENCIL_1.texelY(l));
      StencilBack(l);
    }
  }

  lemma Depth4xOneToOne()
    ensures OneToOne(DEPTH_4X)
  {
    forall x, y | InTile(DEPTH_4X, x, y) ensures Inverted(DEPTH_4X, x, y, DEPTH_4X.place(x, y)) {
      Depth4xUnrolled(x, y);
      Depth4xForth(x, y);
    }
    forall l | Aligned(l, DEPTH_4X.bytes)
      ensures InTile(DEPTH_4X, DEPTH_4X.texelX(l), DEPTH_4X.texelY(l))
      ensures DEPTH_4X.place(DEPTH_4X.texelX(l), DEPTH_4X.texelY(l)) == l
    {
      Depth4xUnrolled(DEPTH_4X.texelX(l), DEPTH_4X.texelY(l));
      Depth4xBack(l);
    }
  }
}
