/**
Facts that carry 16-bit words over to numbers. The tile maps are bit arithmetic on words and
the tile grid around them is arithmetic on numbers; every crossing between the two goes
through one of these lemmas.
*/
module Words {

  /** The tile edges and element sizes the driver's maps use. */
  predicate TileEdge(n: int) {
    n == 32 || n == 64 || n == 128 || n == 256
  }

  predicate ElementSize(n: int) {
    n == 1 || n == 2 || n == 4 || n == 8 || n == 16
  }

  /** The address bits an element of this size keeps zero where it starts. */
  function LowBits(size: nat): bv16
    requires ElementSize(size)
  {
    if size == 1 then 0 else if size == 2 then 1 else if size == 4 then 3
    else if size == 8 then 7 else 15
  }

  /** The bits a word below this edge keeps zero. */
  function Above(edge: nat): bv16
    requires TileEdge(edge)
  {
    if edge == 32 then 0xffe0 else if edge == 64 then 0xffc0 else if edge == 128 then 0xff80
    else 0xff00
  }

  predicate BelowEdge(a: bv16, edge: nat)
    requires TileEdge(edge)
  {
    a & Above(edge) == 0
  }

  /** An element of this size may start at byte a. */
  predicate Aligned(a: bv16, size: nat)
    requires ElementSize(size)
  {
    a & LowBits(size) == 0
  }

  /** Half a tile edge, as a word. */
  function HalfEdge(edge: nat): bv16
    requires TileEdge(edge)
  {
    if edge == 32 then 16 else if edge == 64 then 32 else if edge == 128 then 64 else 128
  }

  /** A word's number. */
  function Value(a: bv16): (n: nat)
    ensures n < 0x10000
  {
    a as nat
  }

  predicate HasValue(a: bv16, n: nat) {
    a as nat == n
  }

  /** The word whose value is n. */
  function WordOf(n: nat): (a: bv16)
    requires n < 0x10000
    ensures a as nat == n
  {
    WordExists(n);
    WordUnique(n);
    var a :| HasValue(a, n);
    a
  }

  lemma WordExists(n: nat)
    requires n < 0x10000
    ensures exists a :: HasValue(a, n)
  {
    var a := BuildWord(n);
    assert HasValue(a, n);
  }

  lemma BuildWord(n: nat) returns (a: bv16)
    requires n < 0x10000
    ensures a as nat == n
  {
    if n == 0 {
      a := 0;
    } else {
      var b := BuildWord(n / 2);
      if n % 2 == 0 {
        Doubled(b);
        a := b << 1;
      } else {
        DoubledPlusOne(b);
        a := (b << 1) | 1;
      }
    }
  }

  lemma Doubled(a: bv16)
    requires a as nat < 0x8000
    ensures (a << 1) as nat == 2 * (a as nat)
  {
    HalfRange(a);
    Up2(a);
  }

  lemma DoubledPlusOne(a: bv16)
    requires a as nat < 0x8000
    ensures ((a << 1) | 1) as nat == 2 * (a as nat) + 1
  {
    HalfRange(a);
    UpPlusOne(a);
  }

  lemma HalfRange(a: bv16)
    requires a as nat < 0x8000
    ensures a < 0x8000
  {
  }

  lemma UpPlusOne(a: bv16)
    requires a < 0x8000
    ensures ((a << 1) | 1) as nat == 2 * (a as nat) + 1
  {
  }

  lemma WordUnique(n: nat)
    ensures forall a, b | HasValue(a, n) && HasValue(b, n) :: a == b
  {
    forall a, b | HasValue(a, n) && HasValue(b, n) ensures a == b {
      SameWord(a, b);
    }
  }

  /** A number below an edge is a word below it. */
  lemma WordOfBelow(n: nat, edge: nat)
    requires TileEdge(edge) && n < edge
    ensures BelowEdge(WordOf(n), edge)
  {
    if edge == 32 { Below32(WordOf(n)); } else if edge == 64 { Below64(WordOf(n)); }
    else if edge == 128 { Below128(WordOf(n)); } else { Below256(WordOf(n)); }
  }

  lemma Below8(a: bv16)
    requires a as nat < 8
    ensures a & 0xfff8 == 0
  {
  }

  lemma Below16(a: bv16)
    requires a as nat < 16
    ensures a & 0xfff0 == 0
  {
  }

  lemma Below32(a: bv16)
    requires a as nat < 32
    ensures a & 0xffe0 == 0
  {
  }

  lemma Below64(a: bv16)
    requires a as nat < 64
    ensures a & 0xffc0 == 0
  {
  }

  lemma Below128(a: bv16)
    requires a as nat < 128
    ensures a & 0xff80 == 0
  {
  }

  lemma Below256(a: bv16)
    requires a as nat < 256
    ensures a & 0xff00 == 0
  {
  }

  /** Words with one value are one word. */
  lemma SameWord(a: bv16, b: bv16)
    requires a as int == b as int
    ensures a == b
  {
    ValueThenWord(a);
    ValueThenWord(b);
  }

  lemma ValueThenWord(a: bv16)
    ensures (a as int) as bv16 == a
  {
  }

  /** size * k, for the element sizes. */
  function Times(size: nat, k: nat): nat
    requires ElementSize(size)
  {
    if size == 1 then k else if size == 2 then 2 * k else if size == 4 then 4 * k
    else if size == 8 then 8 * k else 16 * k
  }

  lemma MultipleByCases(a: bv16, size: nat) returns (k: nat)
    requires ElementSize(size) && Aligned(a, size)
    ensures a as int == Times(size, k)
  {
    if size == 1 { k := a as int; }
    else if size == 2 { k := MultipleOf2(a); }
    else if size == 4 { k := MultipleOf4(a); }
    else if size == 8 { k := MultipleOf8(a); }
    else { k := MultipleOf16(a); }
  }

  lemma TimesIsProduct(size: nat, k: nat)
    requires ElementSize(size)
    ensures Times(size, k) == size * k
  {
  }

  /** A word whose low bits are zero is a multiple of the element size. */
  lemma Multiple(a: bv16, size: nat) returns (k: nat)
    requires ElementSize(size) && Aligned(a, size)
    ensures a as int == size * k
  {
    k := MultipleByCases(a, size);
    TimesIsProduct(size, k);
  }

  lemma MultipleOf2(a: bv16) returns (k: nat)
    requires a & 1 == 0
    ensures a as int == 2 * k
  {
    Shifted2(a);
    k := (a >> 1) as int;
  }

  lemma Shifted2(a: bv16)
    requires a & 1 == 0
    ensures a as int == 2 * ((a >> 1) as int)
  {
    Down2(a);
    Up2(a >> 1);
  }

  lemma Down2(a: bv16)
    requires a & 1 == 0
    ensures (a >> 1) << 1 == a && (a >> 1) < 0x8000
  {
  }

  lemma Up2(a: bv16)
    requires a < 0x8000
    ensures (a << 1) as int == 2 * (a as int)
  {
  }

  lemma MultipleOf4(a: bv16) returns (k: nat)
    requires a & 3 == 0
    ensures a as int == 4 * k
  {
    Shifted4(a);
    k := (a >> 2) as int;
  }

  lemma Shifted4(a: bv16)
    requires a & 3 == 0
    ensures a as int == 4 * ((a >> 2) as int)
  {
    Down4(a);
    Up4(a >> 2);
  }

  lemma Down4(a: bv16)
    requires a & 3 == 0
    ensures (a >> 2) << 2 == a && (a >> 2) < 0x4000
  {
  }

  lemma Up4(a: bv16)
    requires a < 0x4000
    ensures (a << 2) as int == 4 * (a as int)
  {
  }

  lemma MultipleOf8(a: bv16) returns (k: nat)
    requires a & 7 == 0
    ensures a as int == 8 * k
  {
    Shifted8(a);
    k := (a >> 3) as int;
  }

  lemma Shifted8(a: bv16)
    requires a & 7 == 0
    ensures a as int == 8 * ((a >> 3) as int)
  {
    Down8(a);
    Up8(a >> 3);
  }

  lemma Down8(a: bv16)
    requires a & 7 == 0
    ensures (a >> 3) << 3 == a && (a >> 3) < 0x2000
  {
  }

  lemma Up8(a: bv16)
    requires a < 0x2000
    ensures (a << 3) as int == 8 * (a as int)
  {
  }

  lemma MultipleOf16(a: bv16) returns (k: nat)
    requires a & 15 == 0
    ensures a as int == 16 * k
  {
    Shifted16(a);
    k := (a >> 4) as int;
  }

  lemma Shifted16(a: bv16)
    requires a & 15 == 0
    ensures a as int == 16 * ((a >> 4) as int)
  {
    Down16(a);
    Up16(a >> 4);
  }

  lemma Down16(a: bv16)
    requires a & 15 == 0
    ensures (a >> 4) << 4 == a && (a >> 4) < 0x1000
  {
  }

  lemma Up16(a: bv16)
    requires a < 0x1000
    ensures (a << 4) as int == 16 * (a as int)
  {
  }
}
