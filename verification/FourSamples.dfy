/**
Four-sample colour sides. The driver puts a texel's samples 0x4000 bytes apart, which fits the
four-byte map: a quarter of its tile lies in the first 0x4000 bytes. The quarter tiles of the
eight- and sixteen-byte maps reach further, into the planes of the next samples and from there
into the next tile. For an image of any width and height this says exactly when its samples still
have bytes of their own. Of the commands only the clear on the CPU reaches the wide sides: copies
and blits refuse multi-sample colour images before they ask for one.
*/
module FourSamples {
  import opened Options
  import opened Arithmetic
  import opened Words
  import opened TileMaps
  import opened TileGrid
  import opened TilePlaces
  import opened CopySides
  import opened Images
  import opened MipChains
  import opened SamplePlanes

  // ------------------------------------------------------------------ the sides

  function TileWidth(bytes: nat): nat {
    if bytes == 16 then 32 else 64
  }

  function TileHeight(bytes: nat): nat {
    if bytes == 4 then 64 else 32
  }

  /** The four-sample colour side of a single-level image. */
  function FourSampleSide(bytes: nat, address: nat, width: nat): (side: Side)
    requires bytes in {4, 8, 16}
    ensures ValidSide(side) && side.tiled
  {
    Side(address, 0, width, 0, TileWidth(bytes), TileHeight(bytes), bytes, 4, false, true)
  }

  predicate FourSampleImage(info: ImageInfo) {
    && ValidInfo(info) && info.attachment && !info.depth && !info.stencil
    && info.samples == 4 && info.levels == 1 && info.layers == 1 && info.texelBytes in {4, 8, 16}
  }

  lemma FourSampleTile(bytes: nat)
    requires bytes in {4, 8, 16}
    ensures TileExtent(bytes, false, 4) == (TileWidth(bytes), TileHeight(bytes))
  {
    SmallPowers();
  }

  /** ps5vk_image_copy_side accepts these images, of all three element sizes. */
  lemma FourSampleSideOfImage(info: ImageInfo, address: nat)
    requires FourSampleImage(info)
    ensures CopySide(info, ColourAspect, 0, 0, address) ==
            Some(FourSampleSide(info.texelBytes, address, info.width))
  {
    FourSampleTile(info.texelBytes);
    assert CopySide(info, ColourAspect, 0, 0, address) ==
           TiledSide(info, Plane(0, info.texelBytes, false), 0, 0, address);
  }

  /** One sample of one texel. */
  datatype Point = Point(x: nat, y: nat, sample: Sample)

  predicate InImage(p: Point, w: nat, h: nat) {
    p.x < w && p.y < h
  }

  function SampleAddress(bytes: nat, address: nat, w: nat, p: Point): nat
    requires bytes in {4, 8, 16}
  {
    AddressOf(FourSampleSide(bytes, address, w), p.x, p.y, p.sample)
  }

  // ------------------------------------------------------------------ samples apart

  function SwirlOf(bytes: nat): Swirl {
    if bytes == 16 then SixteenAt else EightAt
  }

  function SpotOf(bytes: nat, p: Point): Spot {
    Spot(Quotient(p.x, TileWidth(bytes)), Quotient(p.y, TileHeight(bytes)),
         Remainder(p.x, TileWidth(bytes)), Remainder(p.y, TileHeight(bytes)), p.sample)
  }

  function Columns(bytes: nat, w: nat): nat {
    DivRoundUp(w, TileWidth(bytes))
  }

  lemma SameTexel(bytes: nat, p: Point, q: Point)
    requires SpotOf(bytes, p) == SpotOf(bytes, q)
    ensures p == q
  {
    SameNumber(p.x, q.x, TileWidth(bytes));
    SameNumber(p.y, q.y, TileHeight(bytes));
  }

  lemma SampleParts(bytes: nat, address: nat, w: nat, p: Point)
    requires bytes in {8, 16}
    ensures var a := SpotOf(bytes, p);
            SampleAddress(bytes, address, w, p) ==
            address + RowMajor(a.row, a.column, Columns(bytes, w)) * TILE_BYTES +
            a.sample * SAMPLE_PLANE_BYTES + Value(Shifted(At(SwirlOf(bytes), a), 0))
  {
    var side := FourSampleSide(bytes, address, w);
    assert SideSwizzle(side, p.x, p.y) == At(SwirlOf(bytes), SpotOf(bytes, p));
    assert Remainder(p.sample, 4) == p.sample;
  }

  /** A sample starts where its spot does. */
  lemma SamplePlaced(bytes: nat, address: nat, w: nat, p: Point)
    requires bytes in {8, 16}
    ensures SampleAddress(bytes, address, w, p) ==
            address + SpotOffset(SwirlOf(bytes), Columns(bytes, w), SpotOf(bytes, p))
  {
    SampleParts(bytes, address, w, p);
    ShiftedByNone(At(SwirlOf(bytes), SpotOf(bytes, p)));
    PlaneValue(At(SwirlOf(bytes), SpotOf(bytes, p)));
  }

  predicate InTileSpot(bytes: nat, a: Spot) {
    a.i < TileWidth(bytes) && a.j < TileHeight(bytes)
  }

  lemma SpotsTold(bytes: nat, a: Spot, b: Spot)
    requires bytes in {8, 16} && InTileSpot(bytes, a) && InTileSpot(bytes, b)
    ensures Told(SwirlOf(bytes), a, b)
  {
    if SameTile(a, b) && At(SwirlOf(bytes), a) == At(SwirlOf(bytes), b) {
      if bytes == 8 {
        EightTold(a.column, a.row, a.i, a.j, b.i, b.j);
      } else {
        SixteenTold(a.column, a.row, a.i, a.j, b.i, b.j);
      }
    }
  }

  lemma SpotAligned(bytes: nat, a: Spot)
    requires bytes in {8, 16} && InTileSpot(bytes, a)
    ensures Aligned(At(SwirlOf(bytes), a), bytes)
  {
    if bytes == 8 {
      EightPlaces(a.column, a.row, a.i, a.j);
    } else {
      SixteenPlaces(a.column, a.row, a.i, a.j);
    }
  }

  /** When an image of this width and height keeps its samples apart. */
  predicate SamplesFit(bytes: nat, w: nat, h: nat) {
    if bytes == 8 then w <= 16 || (h <= 16 && w <= 128)
    else if bytes == 16 then (w <= 8 && h <= 64) || (h <= 8 && w <= 32)
    else true
  }

  function TellOf(bytes: nat, w: nat, h: nat): Tell {
    if bytes == 8 then if w <= 16 then EightNarrow else EightFlat
    else if w <= 8 && h <= 64 then SixteenNarrow else SixteenFlat
  }

  /** The spots of such an image. */
  predicate FitSpot(tell: Tell, a: Spot) {
    && ToldTile(tell, a.column, a.row)
    && match tell
       case EightNarrow => a.i < 16
       case EightFlat => a.j < 16
       case SixteenNarrow => a.i < 8
       case SixteenFlat => a.j < 8
  }

  lemma EightPlaceTold(tell: Tell, a: Spot, l: bv16)
    requires EightPlaced(a.column, a.i, a.j, l) && FitSpot(tell, a) && (tell.EightNarrow? || tell.EightFlat?)
    ensures PlaneOf(l) == ToldPlane(tell, a.column, a.row, WithinPlane(l))
  {
  }

  lemma EightSpotTold(tell: Tell, a: Spot)
    requires InTileSpot(8, a) && FitSpot(tell, a) && (tell.EightNarrow? || tell.EightFlat?)
    ensures ToldSpot(tell, EightAt, a)
  {
    EightPlaces(a.column, a.row, a.i, a.j);
    EightPlaceTold(tell, a, EightAt(a.column, a.row, a.i, a.j));
  }

  lemma SixteenPlaceTold(tell: Tell, a: Spot, l: bv16)
    requires SixteenPlaced(a.column, a.row, a.i, a.j, l) && FitSpot(tell, a)
    requires tell.SixteenNarrow? || tell.SixteenFlat?
    ensures PlaneOf(l) == ToldPlane(tell, a.column, a.row, WithinPlane(l))
  {
  }

  lemma SixteenSpotTold(tell: Tell, a: Spot)
    requires InTileSpot(16, a) && FitSpot(tell, a) && (tell.SixteenNarrow? || tell.SixteenFlat?)
    ensures ToldSpot(tell, SixteenAt, a)
  {
    SixteenPlaces(a.column, a.row, a.i, a.j);
    SixteenPlaceTold(tell, a, SixteenAt(a.column, a.row, a.i, a.j));
  }

  lemma {:induction false} WithinOne(n: nat, edge: nat)
    requires n < edge
    ensures Quotient(n, edge) == 0 && Remainder(n, edge) == n && DivRoundUp(n + 1, edge) == 1
  {
    assert Quotient(n + 1 + edge - 1, edge) == 1 + Quotient(n, edge);
  }

  lemma {:induction false} WithinTwo(n: nat, edge: nat)
    requires edge > 0 && n < 2 * edge
    ensures Quotient(n, edge) <= 1
  {
    assert n >= edge ==> Quotient(n - edge, edge) == 0;
  }

  lemma SpotFits(bytes: nat, w: nat, h: nat, p: Point)
    requires bytes in {8, 16} && SamplesFit(bytes, w, h) && InImage(p, w, h)
    ensures FitSpot(TellOf(bytes, w, h), SpotOf(bytes, p))
    ensures w <= 16 ==> Columns(bytes, w) == 1
  {
    if w <= 16 {
      WithinOne(w - 1, TileWidth(bytes));
    }
    if p.x < TileWidth(bytes) {
      WithinOne(p.x, TileWidth(bytes));
    } else {
      WithinTwo(p.x, TileWidth(bytes));
    }
    if p.y < TileHeight(bytes) {
      WithinOne(p.y, TileHeight(bytes));
    } else if p.y < 64 {
      WithinTwo(p.y, TileHeight(bytes));
    }
  }

  lemma FourByteSamplesApart(address: nat, w: nat, p: Point, q: Point)
    requires p.x < w && q.x < w && p != q
    ensures Disjoint(SampleAddress(4, address, w, p), 4, SampleAddress(4, address, w, q), 4)
  {
    var side := FourSampleSide(4, address, w);
    assert Colour4xSide(side);
    SideTexelsApart(side, p.x, p.y, p.sample, q.x, q.y, q.sample);
  }

  lemma FitSpotsApart(bytes: nat, tell: Tell, columns: nat, a: Spot, b: Spot)
    requires bytes in {8, 16} && InTileSpot(bytes, a) && InTileSpot(bytes, b) && a != b
    requires bytes == 8 <==> (tell.EightNarrow? || tell.EightFlat?)
    requires FitSpot(tell, a) && FitSpot(tell, b)
    requires (tell.EightNarrow? || tell.SixteenNarrow?) ==> columns == 1
    ensures Disjoint(SpotOffset(SwirlOf(bytes), columns, a), bytes, SpotOffset(SwirlOf(bytes), columns, b), bytes)
  {
    if bytes == 8 {
      EightSpotTold(tell, a);
      EightSpotTold(tell, b);
    } else {
      SixteenSpotTold(tell, a);
      SixteenSpotTold(tell, b);
    }
    SpotsTold(bytes, a, b);
    SpotAligned(bytes, a);
    SpotAligned(bytes, b);
    ToldApart(tell, SwirlOf(bytes), columns, a, b, bytes);
  }

  lemma FittingSamplesApart(bytes: nat, address: nat, w: nat, h: nat, p: Point, q: Point)
    requires bytes in {4, 8, 16} && SamplesFit(bytes, w, h)
    requires InImage(p, w, h) && InImage(q, w, h) && p != q
    ensures Disjoint(SampleAddress(bytes, address, w, p), bytes, SampleAddress(bytes, address, w, q), bytes)
  {
    if bytes == 4 {
      FourByteSamplesApart(address, w, p, q);
    } else {
      var a, b := SpotOf(bytes, p), SpotOf(bytes, q);
      if a == b {
        SameTexel(bytes, p, q);
      }
      SpotFits(bytes, w, h, p);
      SpotFits(bytes, w, h, q);
      FitSpotsApart(bytes, TellOf(bytes, w, h), Columns(bytes, w), a, b);
      SamplePlaced(bytes, address, w, p);
      SamplePlaced(bytes, address, w, q);
    }
  }

  // ------------------------------------------------------------------ samples that meet

  lemma IsWord(n: nat, a: bv16)
    requires n < 0x10000 && a as nat == n
    ensures WordOf(n) == a
  {
    SameWord(WordOf(n), a);
  }

  lemma TwistedIs(n: Coordinate, a: bv16, twist: bv16)
    requires n == a as nat
    ensures Twisted(n, twist) == a ^ twist
  {
    IsWord(n, a);
  }

  /** A texel whose turned words are known lies where the formula puts it. */
  lemma EightSample(address: nat, w: nat, p: Point, x: bv16, y: bv16)
    requires Twisted(Remainder(p.x, 64), TwistX(8, 4, Quotient(p.y, 32), 64)) == x
    requires Twisted(Remainder(p.y, 32), TwistY(8, 4, Quotient(p.x, 64), 32)) == y
    ensures SampleAddress(8, address, w, p) ==
            address + RowMajor(Quotient(p.y, 32), Quotient(p.x, 64), Columns(8, w)) * TILE_BYTES +
            p.sample * SAMPLE_PLANE_BYTES + Value(Colour8Formula(x, y))
  {
    var a := SpotOf(8, p);
    SampleParts(8, address, w, p);
    ShiftedByNone(At(EightAt, a));
    EightFormula(a.column, a.row, a.i, a.j);
  }

  lemma SixteenSample(address: nat, w: nat, p: Point, x: bv16, y: bv16)
    requires Twisted(Remainder(p.x, 32), TwistX(16, 4, Quotient(p.y, 32), 32)) == x
    requires Twisted(Remainder(p.y, 32), TwistY(16, 4, Quotient(p.x, 32), 32)) == y
    ensures SampleAddress(16, address, w, p) ==
            address + RowMajor(Quotient(p.y, 32), Quotient(p.x, 32), Columns(16, w)) * TILE_BYTES +
            p.sample * SAMPLE_PLANE_BYTES + Value(Colour16Formula(x, y))
  {
    var a := SpotOf(16, p);
    SampleParts(16, address, w, p);
    ShiftedByNone(At(SixteenAt, a));
    SixteenFormula(a.column, a.row, a.i, a.j);
  }

  /** Sample 1 of texel (16, 0) and sample 0 of texel (0, 16): byte 0x4200 of the tile. */
  lemma EightByteSamplesMeet(address: nat, w: nat)
    ensures SampleAddress(8, address, w, Point(16, 0, 1)) ==
            SampleAddress(8, address, w, Point(0, 16, 0)) == address + 0x4200
  {
    TwistedIs(16, 16, 0);
    TwistedIs(0, 0, 0);
    EightSample(address, w, Point(16, 0, 1), 16, 0);
    TwistedIs(0, 0, 0);
    TwistedIs(16, 16, 0);
    EightSample(address, w, Point(0, 16, 0), 0, 16);
  }

  /** Sample 3 of texel (80, 0), in the second tile, and sample 0 of (128, 0), in the third. */
  lemma EightByteTilesMeet(address: nat, w: nat)
    ensures SampleAddress(8, address, w, Point(80, 0, 3)) ==
            SampleAddress(8, address, w, Point(128, 0, 0)) == address + 0x20000
  {
    TwistedIs(16, 16, 0);
    TwistedIs(0, 0, 16);
    EightSample(address, w, Point(80, 0, 3), 16, 16);
    TwistedIs(0, 0, 0);
    EightSample(address, w, Point(128, 0, 0), 0, 0);
  }

  /** Sample 1 of texel (8, 0) and sample 0 of texel (0, 8): byte 0x4100 of the tile. */
  lemma SixteenByteSamplesMeet(address: nat, w: nat)
    ensures SampleAddress(16, address, w, Point(8, 0, 1)) ==
            SampleAddress(16, address, w, Point(0, 8, 0)) == address + 0x4100
  {
    TwistedIs(8, 8, 0);
    TwistedIs(0, 0, 0);
    SixteenSample(address, w, Point(8, 0, 1), 8, 0);
    TwistedIs(0, 0, 0);
    TwistedIs(8, 8, 0);
    SixteenSample(address, w, Point(0, 8, 0), 0, 8);
  }

  /** Sample 2 of texel (16, 0), in the first tile, and sample 0 of (32, 0), in the second. */
  lemma SixteenByteTilesMeet(address: nat, w: nat)
    ensures SampleAddress(16, address, w, Point(16, 0, 2)) ==
            SampleAddress(16, address, w, Point(32, 0, 0)) == address + 0x10200
  {
    TwistedIs(16, 16, 0);
    TwistedIs(0, 0, 0);
    SixteenSample(address, w, Point(16, 0, 2), 16, 0);
    TwistedIs(0, 0, 0);
    TwistedIs(0, 0, 16);
    SixteenSample(address, w, Point(32, 0, 0), 0, 16);
  }

  /** In one column of tiles, sample 2 of texel (0, 48) and sample 0 of (0, 64). */
  lemma SixteenByteRowsMeet(address: nat, w: nat)
    requires 0 < w <= 32
    ensures SampleAddress(16, address, w, Point(0, 48, 2)) ==
            SampleAddress(16, address, w, Point(0, 64, 0)) == address + 0x20000
  {
    WithinOne(w - 1, 32);
    TwistedIs(0, 0, 16);
    TwistedIs(16, 16, 0);
    SixteenSample(address, w, Point(0, 48, 2), 16, 16);
    TwistedIs(0, 0, 0);
    SixteenSample(address, w, Point(0, 64, 0), 0, 0);
  }

  /** Every two samples of an image this wide and high have bytes of their own. */
  ghost predicate SamplesApart(bytes: nat, address: nat, w: nat, h: nat)
    requires bytes in {4, 8, 16}
  {
    forall p, q | InImage(p, w, h) && InImage(q, w, h) && p != q ::
      Disjoint(SampleAddress(bytes, address, w, p), bytes, SampleAddress(bytes, address, w, q), bytes)
  }

  lemma Meet(bytes: nat, address: nat, w: nat, h: nat, p: Point, q: Point)
    requires bytes in {4, 8, 16} && InImage(p, w, h) && InImage(q, w, h) && p != q
    requires SampleAddress(bytes, address, w, p) == SampleAddress(bytes, address, w, q)
    ensures !SamplesApart(bytes, address, w, h)
  {
  }

  lemma UnfittingSamplesMeet(bytes: nat, address: nat, w: nat, h: nat)
    requires bytes in {4, 8, 16} && w > 0 && h > 0 && !SamplesFit(bytes, w, h)
    ensures !SamplesApart(bytes, address, w, h)
  {
    if bytes == 8 && h > 16 {
      EightByteSamplesMeet(address, w);
      Meet(8, address, w, h, Point(16, 0, 1), Point(0, 16, 0));
    } else if bytes == 8 {
      EightByteTilesMeet(address, w);
      Meet(8, address, w, h, Point(80, 0, 3), Point(128, 0, 0));
    } else if w > 8 && h > 8 {
      SixteenByteSamplesMeet(address, w);
      Meet(16, address, w, h, Point(8, 0, 1), Point(0, 8, 0));
    } else if h <= 8 {
      SixteenByteTilesMeet(address, w);
      Meet(16, address, w, h, Point(16, 0, 2), Point(32, 0, 0));
    } else {
      SixteenByteRowsMeet(address, w);
      Meet(16, address, w, h, Point(0, 48, 2), Point(0, 64, 0));
    }
  }

  /** A four-sample image of any width and height keeps its samples apart exactly when it fits. */
  lemma FourSampleExact(bytes: nat, address: nat, w: nat, h: nat)
    requires bytes in {4, 8, 16} && w > 0 && h > 0
    ensures SamplesApart(bytes, address, w, h) <==> SamplesFit(bytes, w, h)
  {
    if SamplesFit(bytes, w, h) {
      forall p, q | InImage(p, w, h) && InImage(q, w, h) && p != q
        ensures Disjoint(SampleAddress(bytes, address, w, p), bytes, SampleAddress(bytes, address, w, q), bytes)
      {
        FittingSamplesApart(bytes, address, w, h, p, q);
      }
    } else {
      UnfittingSamplesMeet(bytes, address, w, h);
    }
  }
}
