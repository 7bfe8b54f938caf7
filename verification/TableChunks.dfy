/**
The command buffer's table memory: driver/ps5vk_cmd_buffer.c's chunked bump allocator. Tables are
carved out of 256 KiB chunks mapped as they are needed; a reset starts over at the first chunk.
*/
module TableChunks {
  import opened Options
  import opened Arithmetic
  import opened TileGrid

  const CHUNK_BYTES: nat := 0x40000
  const PAGE_BYTES: nat := 0x4000

  /** The chunks mapped so far, by address, the one in use (|chunks| when there is none) and the
      bytes used of it. */
  datatype Tables = Tables(chunks: seq<nat>, chunk: nat, used: nat)

  predicate ValidTables(t: Tables) {
    t.chunk <= |t.chunks| && t.used <= CHUNK_BYTES && (t.chunk == |t.chunks| ==> t.used == 0)
  }

  /** A table of so many bytes at an alignment of 2^shift; at most a chunk. */
  datatype Request = Request(bytes: nat, shift: nat)

  /** The bytes a table takes: whole quadwords. */
  function Size(q: Request): nat {
    AlignUp(q.bytes, 8)
  }

  function Alignment(q: Request): (a: nat)
    ensures a > 0
  {
    Pow2(q.shift)
  }

  predicate ValidRequest(q: Request) {
    Size(q) <= CHUNK_BYTES
  }

  /** Where the table would start in the chunk in use. */
  function Offset(t: Tables, q: Request): nat {
    AlignUp(t.used, Alignment(q))
  }

  predicate Fits(t: Tables, q: Request) {
    t.chunk < |t.chunks| && Offset(t, q) <= CHUNK_BYTES && Size(q) <= CHUNK_BYTES - Offset(t, q)
  }

  /** The first chunk from the one in use that the table fits in. */
  function Seek(t: Tables, q: Request): (out: Tables)
    requires ValidTables(t)
    ensures ValidTables(out) && out.chunks == t.chunks && t.chunk <= out.chunk
    ensures out.chunk < |out.chunks| ==> Fits(out, q)
    ensures out.chunk == t.chunk ==> out.used == t.used
    ensures out.chunk > t.chunk ==> out.used == 0
    decreases |t.chunks| - t.chunk
  {
    if t.chunk == |t.chunks| || Fits(t, q) then t
    else Seek(t.(chunk := t.chunk + 1, used := 0), q)
  }

  /** Whether the request needs a chunk that is not there yet. */
  predicate NeedsChunk(t: Tables, q: Request)
    requires ValidTables(t)
  {
    Seek(t, q).chunk == |t.chunks|
  }

  lemma FirstFits(t: Tables, q: Request)
    requires t.used == 0 && t.chunk < |t.chunks| && ValidRequest(q)
    ensures Offset(t, q) == 0 && Fits(t, q)
  {
    AlignUpMultiple(0, Alignment(q));
  }

  /** ps5vk_cmd_buffer_table: `mapped` is the address the kernel would map a new chunk at, or none
      where that fails. */
  function Take(t: Tables, q: Request, mapped: Option<nat>): (out: (Tables, Option<nat>))
    requires ValidTables(t) && ValidRequest(q)
    ensures ValidTables(out.0) && t.chunks <= out.0.chunks
  {
    var s := Seek(t, q);
    if s.chunk < |s.chunks| then (s.(used := Offset(s, q) + Size(q)), Some(s.chunks[s.chunk] + Offset(s, q)))
    else if mapped.None? then (s, None)
    else (s.(chunks := s.chunks + [mapped.value], used := Size(q)), Some(mapped.value))
  }

  /** ps5vk_cmd_buffer_clear_state: the chunks stay. */
  function Reset(t: Tables): Tables {
    t.(chunk := 0, used := 0)
  }

  // ------------------------------------------------------------------ the allocator

  class TableMemory {
    var chunks: seq<nat>
    var chunk: nat
    var used: nat

    ghost function View(): Tables
      reads this
    {
      Tables(chunks, chunk, used)
    }

    constructor ()
      ensures View() == Tables([], 0, 0)
    {
      chunks, chunk, used := [], 0, 0;
    }

    method Allocate(q: Request, mapped: Option<nat>) returns (table: Option<nat>)
      requires ValidTables(View()) && ValidRequest(q)
      modifies this
      ensures ValidTables(View()) && (View(), table) == Take(old(View()), q, mapped)
    {
      ghost var start := View();
      var bytes, alignment := Size(q), Alignment(q);
      while true
        invariant ValidTables(View())
        invariant (start.chunks == chunks && Seek(View(), q) == Seek(start, q)) ||
                  (NeedsChunk(start, q) && mapped.Some? &&
                   View() == Tables(start.chunks + [mapped.value], |start.chunks|, 0))
        decreases if chunks == start.chunks then 1 else 0, |chunks| - chunk
      {
        if chunk < |chunks| {
          var offset := AlignUp(used, alignment);
          if offset <= CHUNK_BYTES && bytes <= CHUNK_BYTES - offset {
            table := Some(chunks[chunk] + offset);
            if chunks != start.chunks {
              FirstFits(View(), q);
            }
            used := offset + bytes;
            return;
          }
          if chunks != start.chunks {
            FirstFits(View(), q);
            assert false;
          }
          chunk := chunk + 1;
          used := 0;
        } else {
          if mapped.None? {
            return None;
          }
          chunk := |chunks|;
          chunks := chunks + [mapped.value];
        }
      }
    }

    /** ps5vk_cmd_buffer_release_tables, then clear_state. */
    method ResetReleasing()
      modifies this
      ensures View() == Tables([], 0, 0)
    {
      chunks, chunk, used := [], 0, 0;
    }

    method ResetKeeping()
      modifies this
      ensures View() == Reset(old(View()))
    {
      chunk, used := 0, 0;
    }
  }

  // ------------------------------------------------------------------ where a table goes

  /** A table takes its bytes, rounded up to whole quadwords. */
  lemma SizeRounds(q: Request)
    ensures Size(q) == (q.bytes + 7) / 8 * 8 && q.bytes <= Size(q) < q.bytes + 8
  {
    IsDivision(q.bytes + 7, 8);
    AlignUpBounds(q.bytes, 8);
  }

  /** The lowest multiple of an alignment from a place on. */
  predicate LowestFrom(offset: nat, used: nat, alignment: nat)
    requires alignment > 0
  {
    used <= offset < used + alignment && Remainder(offset, alignment) == 0
  }

  lemma OffsetLowest(t: Tables, q: Request)
    ensures LowestFrom(Offset(t, q), t.used, Pow2(q.shift))
  {
    AlignUpBounds(t.used, Alignment(q));
    QuotientOfMultiple(DivRoundUp(t.used, Alignment(q)), 0, Alignment(q));
  }

  /** The chunk after the one in use. */
  function NextChunk(t: Tables): nat {
    if t.chunk < |t.chunks| then t.chunk + 1 else t.chunk
  }

  /** A table goes to the lowest aligned place left in the chunk in use; if it does not fit there, to
      the start of the next chunk; and if there is none, to the start of a new one, which is mapped
      for nothing else. */
  lemma {:induction false} TakePlaces(t: Tables, q: Request, mapped: Option<nat>)
    requires ValidTables(t) && ValidRequest(q)
    ensures var size := (q.bytes + 7) / 8 * 8;
            var offset := Offset(t, q);
            var (out, table) := Take(t, q, mapped);
            && LowestFrom(offset, t.used, Pow2(q.shift))
            && if t.chunk < |t.chunks| && offset + size <= CHUNK_BYTES then
                 out == t.(used := offset + size) && table == Some(t.chunks[t.chunk] + offset)
               else if NextChunk(t) < |t.chunks| then
                 out == Tables(t.chunks, NextChunk(t), size) && table == Some(t.chunks[NextChunk(t)])
               else if mapped.Some? then
                 out == Tables(t.chunks + [mapped.value], |t.chunks|, size) && table == mapped
               else out == Tables(t.chunks, |t.chunks|, 0) && table == None
  {
    SizeRounds(q);
    OffsetLowest(t, q);
    SeekPlaces(t, q);
    if NextChunk(t) < |t.chunks| {
      FirstFits(Tables(t.chunks, NextChunk(t), 0), q);
    }
  }

  lemma {:induction false} SeekPlaces(t: Tables, q: Request)
    requires ValidTables(t) && ValidRequest(q)
    ensures Seek(t, q) == if t.chunk == |t.chunks| || Fits(t, q) then t else Tables(t.chunks, t.chunk + 1, 0)
  {
    if t.chunk < |t.chunks| && !Fits(t, q) {
      var next := Tables(t.chunks, t.chunk + 1, 0);
      if t.chunk + 1 < |t.chunks| {
        FirstFits(next, q);
      }
      assert Seek(next, q) == next;
    }
  }

  // ------------------------------------------------------------------ runs of requests

  /** One request, and what mapping a chunk for it would answer. */
  datatype Call = Call(q: Request, mapped: Option<nat>)

  ghost predicate ValidCalls(calls: seq<Call>) {
    forall i | 0 <= i < |calls| :: ValidRequest(calls[i].q)
  }

  function Run(t: Tables, calls: seq<Call>): (out: (Tables, seq<Option<nat>>))
    requires ValidTables(t) && ValidCalls(calls)
    ensures ValidTables(out.0) && |out.1| == |calls| && t.chunks <= out.0.chunks
    decreases |calls|
  {
    if calls == [] then (t, [])
    else
      var first := Take(t, calls[0].q, calls[0].mapped);
      var rest := Run(first.0, calls[1..]);
      (rest.0, [first.1] + rest.1)
  }

  // ------------------------------------------------------------------ inside, aligned and apart

  /** Chunks are mapped apart from each other. */
  ghost predicate ChunksApart(chunks: seq<nat>) {
    forall i, j | 0 <= i < j < |chunks| :: Disjoint(chunks[i], CHUNK_BYTES, chunks[j], CHUNK_BYTES)
  }

  /** A range of chunk i's bytes that have been handed out. */
  predicate HandedOut(t: Tables, i: nat, start: nat, size: nat) {
    i <= t.chunk && i < |t.chunks| &&
    Inside(start, size, t.chunks[i], t.chunks[i] + if i == t.chunk then t.used else CHUNK_BYTES)
  }

  /** A table lies in the chunk in use, after everything handed out of it before. */
  lemma TakeHandsOut(t: Tables, q: Request, mapped: Option<nat>)
    requires ValidTables(t) && ValidRequest(q) && Take(t, q, mapped).1.Some?
    ensures var (out, table) := Take(t, q, mapped);
            HandedOut(out, out.chunk, table.value, Size(q)) && out.used <= CHUNK_BYTES
  {
  }

  lemma TakeApart(t: Tables, q: Request, mapped: Option<nat>, i: nat, start: nat, size: nat)
    requires ValidTables(t) && ValidRequest(q) && HandedOut(t, i, start, size)
    requires ChunksApart(Take(t, q, mapped).0.chunks)
    ensures HandedOut(Take(t, q, mapped).0, i, start, size)
    ensures Take(t, q, mapped).1.Some? ==> Disjoint(start, size, Take(t, q, mapped).1.value, Size(q))
  {
    var s := Seek(t, q);
    var (out, table) := Take(t, q, mapped);
    AlignUpBounds(s.used, Alignment(q));
    assert out.chunks[i] == t.chunks[i];
    if table.Some? {
      TakeHandsOut(t, q, mapped);
      if i < out.chunk {
        assert Disjoint(out.chunks[i], CHUNK_BYTES, out.chunks[out.chunk], CHUNK_BYTES);
      }
    }
  }

  lemma ChunksApartPrefix(chunks: seq<nat>, more: seq<nat>)
    requires ChunksApart(more) && chunks <= more
    ensures ChunksApart(chunks)
  {
    forall i, j | 0 <= i < j < |chunks| ensures Disjoint(chunks[i], CHUNK_BYTES, chunks[j], CHUNK_BYTES) {
      assert chunks[i] == more[i] && chunks[j] == more[j];
    }
  }

  /** What was handed out stays apart from every later table. */
  lemma {:induction false} LaterApart(t: Tables, calls: seq<Call>, i: nat, start: nat, size: nat, k: nat)
    requires ValidTables(t) && ValidCalls(calls) && HandedOut(t, i, start, size)
    requires ChunksApart(Run(t, calls).0.chunks) && k < |calls| && Run(t, calls).1[k].Some?
    ensures Disjoint(start, size, Run(t, calls).1[k].value, Size(calls[k].q))
    decreases |calls|
  {
    var first := Take(t, calls[0].q, calls[0].mapped);
    ChunksApartPrefix(first.0.chunks, Run(t, calls).0.chunks);
    TakeApart(t, calls[0].q, calls[0].mapped, i, start, size);
    if k > 0 {
      LaterApart(first.0, calls[1..], i, start, size, k - 1);
    }
  }

  /** Every two tables of a run are apart. */
  lemma {:induction false} TablesApart(t: Tables, calls: seq<Call>, j: nat, k: nat)
    requires ValidTables(t) && ValidCalls(calls) && ChunksApart(Run(t, calls).0.chunks)
    requires j < k < |calls| && Run(t, calls).1[j].Some? && Run(t, calls).1[k].Some?
    ensures var tables := Run(t, calls).1;
            && Disjoint(tables[j].value, Size(calls[j].q), tables[k].value, Size(calls[k].q))
            && Disjoint(tables[j].value, calls[j].q.bytes, tables[k].value, calls[k].q.bytes)
    decreases |calls|
  {
    var first := Take(t, calls[0].q, calls[0].mapped);
    SizeRounds(calls[j].q);
    SizeRounds(calls[k].q);
    if j == 0 {
      TakeHandsOut(t, calls[0].q, calls[0].mapped);
      LaterApart(first.0, calls[1..], first.0.chunk, first.1.value, Size(calls[0].q), k - 1);
    } else {
      TablesApart(first.0, calls[1..], j - 1, k - 1);
    }
  }

  predicate Multiple(n: nat, d: nat)
    requires d > 0
  {
    Remainder(n, d) == 0
  }

  /** Adding a multiple changes nothing. */
  lemma {:induction false} MultipleAdds(n: nat, b: nat, d: nat)
    requires d > 0
    ensures Multiple(n + Product(b, d), d) <==> Multiple(n, d)
  {
    var q, r := Quotient(n, d), Remainder(n, d);
    QuotientAndRemainder(n, d);
    assert n + Product(b, d) == Product(q + b, d) + r;
    QuotientOfMultiple(q + b, r, d);
  }

  /** A chunk starts on a page, so on any power of two up to one. */
  lemma {:induction false} PageAligned(shift: nat, page: nat)
    requires shift <= 14
    ensures Multiple(Product(page, PAGE_BYTES), Pow2(shift))
  {
    assert Pow2(14) == PAGE_BYTES by { assert Pow2(7) == 128; }
    PowerSplit(14 - shift, shift);
    Regrouped(page, Pow2(14 - shift), Pow2(shift));
    QuotientOfMultiple(Product(page, Pow2(14 - shift)), 0, Pow2(shift));
  }

  lemma Regrouped(a: nat, b: nat, c: nat)
    ensures Product(a, Product(b, c)) == Product(Product(a, b), c)
  {
  }

  lemma {:induction false} PowerSplit(a: nat, b: nat)
    ensures Pow2(a + b) == Product(Pow2(a), Pow2(b))
  {
    if a > 0 {
      PowerSplit(a - 1, b);
    }
  }

  /** Every table lies inside one chunk of those mapped, and starts at the alignment asked for
      exactly when the chunk does. */
  lemma {:induction false} TableInChunk(t: Tables, q: Request, mapped: Option<nat>)
    requires ValidTables(t) && ValidRequest(q) && Take(t, q, mapped).1.Some?
    ensures var (out, table) := Take(t, q, mapped);
            var start := out.chunks[out.chunk];
            && Inside(table.value, Size(q), start, start + CHUNK_BYTES)
            && Inside(table.value, q.bytes, start, start + CHUNK_BYTES)
            && (Multiple(table.value, Alignment(q)) <==> Multiple(start, Alignment(q)))
  {
    TakeHandsOut(t, q, mapped);
    SizeRounds(q);
    var s := Seek(t, q);
    if s.chunk < |s.chunks| {
      MultipleAdds(s.chunks[s.chunk], DivRoundUp(s.used, Alignment(q)), Alignment(q));
    }
  }

  /** A chunk is mapped on a page, so alignments up to one are met. */
  lemma {:induction false} TableAligned(t: Tables, q: Request, mapped: Option<nat>, page: nat)
    requires ValidTables(t) && ValidRequest(q) && Take(t, q, mapped).1.Some? && q.shift <= 14
    requires var out := Take(t, q, mapped).0; out.chunks[out.chunk] == Product(page, PAGE_BYTES)
    ensures Multiple(Take(t, q, mapped).1.value, Alignment(q))
  {
    TableInChunk(t, q, mapped);
    PageAligned(q.shift, page);
  }

  // ------------------------------------------------------------------ the same again after a reset

  /** With more chunks behind the ones it had, the search ends in the same place, or at the chunk
      that had to be mapped. */
  lemma {:induction false} SeekAgain(t: Tables, q: Request, chunks: seq<nat>)
    requires ValidTables(t) && ValidRequest(q) && t.chunks <= chunks && t.used <= CHUNK_BYTES
    requires NeedsChunk(t, q) ==> |t.chunks| < |chunks|
    ensures ValidTables(t.(chunks := chunks))
    ensures var s := Seek(t.(chunks := chunks), q);
            s.chunk == Seek(t, q).chunk && s.used == Seek(t, q).used && s.chunk < |chunks|
    decreases |t.chunks| - t.chunk
  {
    if t.chunk == |t.chunks| {
      FirstFits(t.(chunks := chunks), q);
    } else if !Fits(t, q) {
      SeekAgain(t.(chunk := t.chunk + 1, used := 0), q, chunks);
    }
  }

  lemma TakeAgain(t: Tables, q: Request, mapped: Option<nat>, chunks: seq<nat>, other: Option<nat>)
    requires ValidTables(t) && ValidRequest(q)
    requires Take(t, q, mapped).1.Some? && Take(t, q, mapped).0.chunks <= chunks
    ensures ValidTables(t.(chunks := chunks))
    ensures Take(t.(chunks := chunks), q, other) ==
            (Take(t, q, mapped).0.(chunks := chunks), Take(t, q, mapped).1)
  {
    SeekAgain(t, q, chunks);
    var s := Seek(t.(chunks := chunks), q);
    if NeedsChunk(t, q) {
      FirstFits(s, q);
      assert chunks[s.chunk] == mapped.value;
    } else {
      assert chunks[s.chunk] == t.chunks[s.chunk];
    }
  }

  ghost predicate AllGranted(tables: seq<Option<nat>>) {
    forall i | 0 <= i < |tables| :: tables[i].Some?
  }

  ghost predicate SameRequests(calls: seq<Call>, again: seq<Call>) {
    |calls| == |again| && forall i | 0 <= i < |calls| :: calls[i].q == again[i].q
  }

  lemma {:induction false} RunAgain(t: Tables, calls: seq<Call>, again: seq<Call>, chunks: seq<nat>)
    requires ValidTables(t) && ValidCalls(calls) && ValidCalls(again) && SameRequests(calls, again)
    requires AllGranted(Run(t, calls).1) && Run(t, calls).0.chunks <= chunks
    ensures ValidTables(t.(chunks := chunks))
    ensures Run(t.(chunks := chunks), again) == (Run(t, calls).0.(chunks := chunks), Run(t, calls).1)
    decreases |calls|
  {
    if calls != [] {
      var (first, table) := Take(t, calls[0].q, calls[0].mapped);
      var rest := Run(first, calls[1..]);
      assert Run(t, calls).1[0] == table;
      assert forall i | 0 <= i < |rest.1| :: rest.1[i] == Run(t, calls).1[i + 1];
      TakeAgain(t, calls[0].q, calls[0].mapped, chunks, again[0].mapped);
      RunAgain(first, calls[1..], again[1..], chunks);
    }
  }

  /** Recording the same requests again after a plain reset gives the same tables and maps no new
      chunk, whatever the kernel would have answered. */
  lemma {:induction false} SameAfterReset(t: Tables, calls: seq<Call>, again: seq<Call>)
    requires ValidTables(t) && ValidCalls(calls) && ValidCalls(again) && SameRequests(calls, again)
    requires AllGranted(Run(Reset(t), calls).1)
    ensures var first := Run(Reset(t), calls);
            Run(Reset(first.0), again) == first
  {
    var first := Run(Reset(t), calls);
    RunAgain(Reset(t), calls, again, first.0.chunks);
  }
}
