/**
driver/ps5vk_direct_memory.c's allocator of address granules: a bitmap on 64-bit words, in which the
search for the lowest free run steps over full words whole.
*/
module Regions {
  import opened Options

  // ------------------------------------------------------------------ bits of a word

  /** UINT64_C(1) << k. */
  function Bit(k: nat): bv64 {
    if k == 0 then 1 else Double(Bit(k - 1))
  }

  function Double(a: bv64): bv64 {
    a << 1
  }

  function And(a: bv64, b: bv64): bv64 {
    a & b
  }

  const FULL: bv64 := 0xffff_ffff_ffff_ffff

  predicate Meets(a: bv64, b: bv64) {
    And(a, b) != 0
  }

  function With(word: bv64, bit: bv64): bv64 {
    word | bit
  }

  function Without(word: bv64, bit: bv64): bv64 {
    word & !bit
  }

  predicate Has(word: bv64, k: nat) {
    Meets(word, Bit(k))
  }

  lemma FirstApart(b: bv64)
    ensures !Meets(1, Double(b))
  {
  }

  lemma ShiftedApart(a: bv64, b: bv64)
    requires !Meets(a, b)
    ensures !Meets(Double(a), Double(b))
  {
  }

  lemma {:induction false} BitsApart(j: nat, k: nat)
    requires j < k
    ensures !Meets(Bit(j), Bit(k))
  {
    if j == 0 {
      FirstApart(Bit(k - 1));
    } else {
      BitsApart(j - 1, k - 1);
      ShiftedApart(Bit(j - 1), Bit(k - 1));
    }
  }

  lemma Swapped(a: bv64, b: bv64)
    ensures Meets(a, b) == Meets(b, a)
  {
  }

  lemma {:induction false} Apart(j: nat, k: nat)
    ensures j != k ==> !Meets(Bit(j), Bit(k))
  {
    if j < k {
      BitsApart(j, k);
    } else if k < j {
      BitsApart(k, j);
      Swapped(Bit(k), Bit(j));
    }
  }

  lemma ShiftOnce(v: bv64)
    ensures Double(Double(v)) == v << 2 && (v << 2) << 2 == v << 4 && (v << 4) << 4 == v << 8
  {
  }

  lemma Two(k: nat, v: bv64)
    requires Bit(k) == v
    ensures Bit(k + 2) == v << 2
  {
    assert Bit(k + 1) == Double(v);
    ShiftOnce(v);
  }

  lemma Four(k: nat, v: bv64)
    requires Bit(k) == v
    ensures Bit(k + 4) == v << 4
  {
    Two(k, v);
    Two(k + 2, v << 2);
    ShiftOnce(v);
  }

  lemma Eight(k: nat, v: bv64)
    requires Bit(k) == v
    ensures Bit(k + 8) == v << 8
  {
    Four(k, v);
    Four(k + 4, v << 4);
    ShiftOnce(v);
  }

  lemma TopBit()
    ensures Bit(63) == 0x8000_0000_0000_0000
  {
    assert Bit(7) == 0x80;
    Eight(7, 0x80);
    Eight(15, 0x8000);
    Eight(23, 0x80_0000);
    Eight(31, 0x8000_0000);
    Eight(39, 0x80_0000_0000);
    Eight(47, 0x8000_0000_0000);
    Eight(55, 0x80_0000_0000_0000);
  }

  lemma {:induction false} ZeroStaysZero(k: nat, n: nat)
    requires Bit(k) == 0
    ensures Bit(k + n) == 0
  {
    if n > 0 {
      ZeroStaysZero(k, n - 1);
    }
  }

  lemma {:induction false} BitNotZero(k: nat)
    requires k < 64
    ensures Bit(k) != 0
  {
    TopBit();
    if Bit(k) == 0 {
      ZeroStaysZero(k, 63 - k);
    }
  }

  lemma FullHasAll(k: nat)
    requires k < 64
    ensures Has(FULL, k)
  {
    BitNotZero(k);
    FullMeets(Bit(k));
  }

  lemma FullMeets(bit: bv64)
    requires bit != 0
    ensures Meets(FULL, bit)
  {
  }

  lemma NoneMeets(bit: bv64)
    ensures !Meets(0, bit)
  {
  }

  lemma OrThenAnd(word: bv64, a: bv64, b: bv64)
    ensures And(a, b) == 0 ==> And(With(word, a), b) == And(word, b)
    ensures And(With(word, a), a) == a
  {
  }

  lemma AndNotThenAnd(word: bv64, a: bv64, b: bv64)
    ensures And(a, b) == 0 ==> And(Without(word, a), b) == And(word, b)
    ensures And(Without(word, a), a) == 0
  {
  }

  lemma WithOther(word: bv64, a: bv64, b: bv64)
    requires !Meets(a, b)
    ensures Meets(With(word, a), b) == Meets(word, b)
  {
    OrThenAnd(word, a, b);
  }

  lemma WithSame(word: bv64, a: bv64)
    requires a != 0
    ensures Meets(With(word, a), a)
  {
    OrThenAnd(word, a, a);
  }

  lemma WithoutOther(word: bv64, a: bv64, b: bv64)
    requires !Meets(a, b)
    ensures Meets(Without(word, a), b) == Meets(word, b)
  {
    AndNotThenAnd(word, a, b);
  }

  lemma WithoutSame(word: bv64, a: bv64)
    ensures !Meets(Without(word, a), a)
  {
    AndNotThenAnd(word, a, a);
  }

  lemma {:induction false} SetBit(word: bv64, j: nat, k: nat)
    requires j < 64 && k < 64
    ensures Has(With(word, Bit(j)), k) <==> k == j || Has(word, k)
  {
    if j == k {
      BitNotZero(j);
      WithSame(word, Bit(j));
    } else {
      Apart(j, k);
      WithOther(word, Bit(j), Bit(k));
    }
  }

  lemma {:induction false} ClearBit(word: bv64, j: nat, k: nat)
    requires j < 64 && k < 64
    ensures Has(Without(word, Bit(j)), k) <==> k != j && Has(word, k)
  {
    if j == k {
      WithoutSame(word, Bit(j));
    } else {
      Apart(j, k);
      WithoutOther(word, Bit(j), Bit(k));
    }
  }

  // ------------------------------------------------------------------ the bitmap

  /** Whether granule g is held. */
  predicate Used(words: seq<bv64>, g: nat)
    requires g / 64 < |words|
  {
    Has(words[g / 64], g % 64)
  }

  /** The granules as they are: one flag each. */
  function Granules(words: seq<bv64>): seq<bool> {
    seq(64 * |words|, g requires 0 <= g < 64 * |words| => Used(words, g))
  }

  lemma AllFree(words: seq<bv64>)
    requires forall w | 0 <= w < |words| :: words[w] == 0
    ensures Granules(words) == seq(64 * |words|, _ => false)
  {
    forall g | 0 <= g < 64 * |words| ensures !Used(words, g) {
      NoneMeets(Bit(g % 64));
    }
  }

  /** Granules with [first, first + count) set to `used`. */
  function Marked(granules: seq<bool>, first: nat, count: nat, used: bool): seq<bool>
    requires first + count <= |granules|
  {
    seq(|granules|, g requires 0 <= g < |granules| => if first <= g < first + count then used else granules[g])
  }

  ghost predicate FreeRun(granules: seq<bool>, first: nat, count: nat) {
    first + count <= |granules| && forall g | first <= g < first + count :: !granules[g]
  }

  /** The lowest free run of the length; none for an empty request, or when there is none. */
  ghost predicate FirstFit(granules: seq<bool>, count: nat, first: Option<nat>) {
    match first
    case None => count == 0 || forall f: nat :: !FreeRun(granules, f, count)
    case Some(f) => count > 0 && FreeRun(granules, f, count) && forall h: nat | h < f :: !FreeRun(granules, h, count)
  }

  lemma SameGranule(g: nat, h: nat)
    requires g / 64 == h / 64 && g % 64 == h % 64
    ensures g == h
  {
  }

  /** One bit of one word. */
  lemma {:induction false} MarkOne(words: seq<bv64>, g: nat, used: bool)
    requires g / 64 < |words|
    ensures var word := words[g / 64];
            var out := words[g / 64 := if used then With(word, Bit(g % 64)) else Without(word, Bit(g % 64))];
            Granules(out) == Granules(words)[g := used]
  {
    var word := words[g / 64];
    var out := words[g / 64 := if used then With(word, Bit(g % 64)) else Without(word, Bit(g % 64))];
    forall h | 0 <= h < 64 * |words| ensures Used(out, h) == if h == g then used else Used(words, h) {
      if h / 64 == g / 64 {
        if used {
          SetBit(word, g % 64, h % 64);
        } else {
          ClearBit(word, g % 64, h % 64);
        }
        if h % 64 == g % 64 {
          SameGranule(g, h);
        }
      }
    }
  }

  /** ps5vk_region_mark. */
  method Mark(words: array<bv64>, first: nat, count: nat, used: bool)
    requires first + count <= 64 * words.Length
    modifies words
    ensures Granules(words[..]) == Marked(old(Granules(words[..])), first, count, used)
  {
    ghost var before := Granules(words[..]);
    for granule := first to first + count
      invariant Granules(words[..]) == Marked(before, first, granule - first, used)
    {
      ghost var was := words[..];
      MarkOne(was, granule, used);
      var bit := Bit(granule % 64);
      if used {
        words[granule / 64] := With(words[granule / 64], bit);
      } else {
        words[granule / 64] := Without(words[granule / 64], bit);
      }
      assert Marked(before, first, granule - first, used)[granule := used] ==
             Marked(before, first, granule - first + 1, used);
    }
  }

  // ------------------------------------------------------------------ first fit

  /** Nothing of the length is free below `end`. */
  ghost predicate NoneBelow(granules: seq<bool>, count: nat, end: nat) {
    forall h: nat | h + count <= end :: !FreeRun(granules, h, count)
  }

  /** The search has seen the granules below `granule`; the last `run` of them are free and no
      more. */
  ghost predicate Searched(granules: seq<bool>, count: nat, granule: nat, run: nat) {
    && run <= granule <= |granules| && run < count
    && (forall g | granule - run <= g < granule :: !granules[g])
    && (granule > run ==> granules[granule - run - 1])
    && NoneBelow(granules, count, granule)
  }

  /** Granules [granule, next) are held: no run reaches into them. */
  lemma SkipUsed(granules: seq<bool>, count: nat, granule: nat, run: nat, next: nat)
    requires Searched(granules, count, granule, run) && granule < next <= |granules|
    requires forall g | granule <= g < next :: granules[g]
    ensures Searched(granules, count, next, 0)
  {
    forall h: nat | h + count <= next ensures !FreeRun(granules, h, count) {
      if h + count > granule {
        assert granules[h + count - 1];
      }
    }
  }

  lemma OneMoreFree(granules: seq<bool>, count: nat, granule: nat, run: nat)
    requires Searched(granules, count, granule, run) && granule < |granules| && !granules[granule]
    requires run + 1 < count
    ensures Searched(granules, count, granule + 1, run + 1)
  {
    forall h: nat | h + count <= granule + 1 ensures !FreeRun(granules, h, count) {
      if h + count == granule + 1 {
        assert granules[granule - run - 1];
      }
    }
  }

  lemma RunFound(granules: seq<bool>, count: nat, granule: nat, run: nat)
    requires Searched(granules, count, granule, run) && granule < |granules| && !granules[granule]
    requires run + 1 == count
    ensures FirstFit(granules, count, Some(granule + 1 - count))
  {
  }

  lemma NotFound(granules: seq<bool>, count: nat, run: nat)
    requires Searched(granules, count, |granules|, run)
    ensures FirstFit(granules, count, None)
  {
  }

  lemma FullWord(words: seq<bv64>, w: nat)
    requires w < |words| && words[w] == FULL
    ensures forall g | 64 * w <= g < 64 * w + 64 :: Granules(words)[g]
  {
    forall g | 64 * w <= g < 64 * w + 64 ensures Granules(words)[g] {
      FullHasAll(g % 64);
    }
  }

  /** ps5vk_region_take. */
  method Take(words: array<bv64>, count: nat) returns (first: Option<nat>)
    modifies words
    ensures FirstFit(old(Granules(words[..])), count, first)
    ensures first.None? ==> words[..] == old(words[..])
    ensures first.Some? ==> Granules(words[..]) == Marked(old(Granules(words[..])), first.value, count, true)
  {
    ghost var granules := Granules(words[..]);
    if count == 0 || count > 64 * words.Length {
      return None;
    }
    var run, granule := 0, 0;
    while granule < 64 * words.Length
      invariant Searched(granules, count, granule, run)
      invariant words[..] == old(words[..])
    {
      if granule % 64 == 0 && words[granule / 64] == FULL {
        FullWord(words[..], granule / 64);
        SkipUsed(granules, count, granule, run, granule + 64);
        granule, run := granule + 64, 0;
      } else if Has(words[granule / 64], granule % 64) {
        SkipUsed(granules, count, granule, run, granule + 1);
        granule, run := granule + 1, 0;
      } else if run + 1 == count {
        RunFound(granules, count, granule, run);
        first := Some(granule + 1 - count);
        Mark(words, first.value, count, true);
        return;
      } else {
        OneMoreFree(granules, count, granule, run);
        granule, run := granule + 1, run + 1;
      }
    }
    NotFound(granules, count, run);
    return None;
  }

  /** There is one lowest run: first fit is a function of the granules. */
  lemma FirstFitUnique(granules: seq<bool>, count: nat, a: Option<nat>, b: Option<nat>)
    requires FirstFit(granules, count, a) && FirstFit(granules, count, b)
    ensures a == b
  {
  }
}
