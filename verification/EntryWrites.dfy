/**
Writing one cache entry's file: the file operations of driver/ps5vk_shader_cache.c's cache_write.
Every write of an entry in one process uses the same temporary name, so writes of one entry can
share an open file: opening truncates it for all, and a rename moves it while others still write.
The writer thread makes them one at a time; a store that finds no thread writes by itself.
*/
module EntryWrites {
  import opened Arithmetic
  import opened Options
  import opened ShaderFiles

  /** A write under way: the file it has open, and how much of the entry it has put there. */
  datatype Writer = Writer(inode: nat, at: nat)

  /** The files, which of them has the temporary name and which the entry's own, and the writes
      under way. */
  datatype Disk = Disk(
    inodes: seq<seq<Byte>>, temporary: Option<nat>, place: Option<nat>, writers: map<nat, Writer>)

  datatype Step =
    | Open(writer: nat)
    | Write(writer: nat, bytes: nat)
    | Rename(writer: nat)
    | Fail(writer: nat)

  // ------------------------------------------------------------------ the steps

  /** A piece written at an offset; a gap before it reads as zeros. */
  function Overlaid(content: seq<Byte>, at: nat, piece: seq<Byte>): seq<Byte> {
    if |content| < at then content + seq(at - |content|, _ => 0) + piece
    else if at + |piece| < |content| then content[..at] + piece + content[at + |piece|..]
    else content[..at] + piece
  }

  /** Inside the piece it is the piece, before and after it what was there, and in a gap zeros. */
  lemma OverlaidMeans(content: seq<Byte>, at: nat, piece: seq<Byte>, i: nat)
    ensures var out := Overlaid(content, at, piece);
            && |out| == (if at + |piece| < |content| then |content| else at + |piece|)
            && (i < |out| ==>
                  out[i] == if at <= i < at + |piece| then piece[i - at] else if i < |content| then content[i] else 0)
  {
  }

  predicate Named(d: Disk, name: Option<nat>) {
    name.Some? ==> name.value < |d.inodes|
  }

  /** Names and writers have files, and no file has both names. */
  predicate Valid(d: Disk) {
    && Named(d, d.temporary) && Named(d, d.place) && (d.temporary.Some? ==> d.temporary != d.place)
    && forall w | w in d.writers :: d.writers[w].inode < |d.inodes|
  }

  /** fopen for writing: a file of that name is emptied, or one is made. */
  function Opens(d: Disk, w: nat): Disk
    requires Valid(d)
  {
    if w in d.writers then d
    else
      match d.temporary
      case Some(i) => d.(inodes := d.inodes[i := []], writers := d.writers[w := Writer(i, 0)])
      case None =>
        d.(inodes := d.inodes + [[]], temporary := Some(|d.inodes|), writers := d.writers[w := Writer(|d.inodes|, 0)])
  }

  function Writes(file: seq<Byte>, d: Disk, w: nat, bytes: nat): Disk
    requires Valid(d)
  {
    if w !in d.writers || d.writers[w].at > |file| then d
    else
      var Writer(i, at) := d.writers[w];
      var end := Min(at + bytes, |file|);
      d.(inodes := d.inodes[i := Overlaid(d.inodes[i], at, file[at..end])],
         writers := d.writers[w := Writer(i, end)])
  }

  /** Once all is written: the temporary name, if it is still there, becomes the entry's. */
  function Renames(file: seq<Byte>, d: Disk, w: nat): Disk {
    if w !in d.writers || d.writers[w].at != |file| then d
    else if d.temporary.None? then d.(writers := d.writers - {w})
    else d.(temporary := None, place := d.temporary, writers := d.writers - {w})
  }

  /** A write or the rename fails, and the temporary name is removed. */
  function Fails(d: Disk, w: nat): Disk {
    if w !in d.writers then d else d.(temporary := None, writers := d.writers - {w})
  }

  function After(file: seq<Byte>, d: Disk, step: Step): (out: Disk)
    requires Valid(d)
    ensures Valid(out)
  {
    match step
    case Open(w) => Opens(d, w)
    case Write(w, bytes) => Writes(file, d, w, bytes)
    case Rename(w) => Renames(file, d, w)
    case Fail(w) => Fails(d, w)
  }

  // ------------------------------------------------------------------ whole entries

  /** What has the entry's name is the whole entry. */
  predicate Whole(file: seq<Byte>, d: Disk)
    requires Valid(d)
  {
    d.place.Some? ==> d.inodes[d.place.value] == file
  }

  predicate AlwaysWhole(file: seq<Byte>, d: Disk, steps: seq<Step>)
    requires Valid(d)
    decreases |steps|
  {
    Whole(file, d) && (steps == [] || AlwaysWhole(file, After(file, d, steps[0]), steps[1..]))
  }

  /** At most `cap` writes of the entry are under way at once. */
  predicate Within(file: seq<Byte>, cap: nat, d: Disk, steps: seq<Step>)
    requires Valid(d)
    decreases |steps|
  {
    |d.writers| <= cap && (steps == [] || Within(file, cap, After(file, d, steps[0]), steps[1..]))
  }

  predicate Starts(file: seq<Byte>, d: Disk) {
    Valid(d) && Whole(file, d) && d.writers == map[]
  }

  /** The only write under way has the temporary to itself, and has put the entry's start there. */
  ghost predicate Alone(file: seq<Byte>, d: Disk) {
    && Valid(d) && Whole(file, d)
    && forall w | w in d.writers :: Ahead(file, d, d.writers[w])
  }

  predicate Ahead(file: seq<Byte>, d: Disk, w: Writer)
    requires w.inode < |d.inodes|
  {
    d.temporary == Some(w.inode) && w.at <= |file| && d.inodes[w.inode] == file[..w.at]
  }

  lemma OnlyOne(writers: map<nat, Writer>, w: nat)
    requires |writers| <= 1 && w in writers
    ensures forall v | v in writers :: v == w
  {
    var others := writers.Keys - {w};
    assert |others| == |writers.Keys| - 1 == 0;
    assert forall v | v in writers :: v != w ==> v in others;
  }

  lemma OpensAlone(file: seq<Byte>, d: Disk, w: nat)
    requires Alone(file, d) && w !in d.writers && |Opens(d, w).writers| <= 1
    ensures Alone(file, Opens(d, w))
  {
    OnlyOne(Opens(d, w).writers, w);
    assert Ahead(file, Opens(d, w), Opens(d, w).writers[w]);
  }

  lemma WritesOn(file: seq<Byte>, at: nat, end: nat)
    requires at <= end <= |file|
    ensures Overlaid(file[..at], at, file[at..end]) == file[..end]
  {
  }

  lemma WritesAlone(file: seq<Byte>, d: Disk, w: nat, bytes: nat)
    requires Alone(file, d) && |d.writers| <= 1 && w in d.writers
    ensures Alone(file, Writes(file, d, w, bytes))
  {
    var out := Writes(file, d, w, bytes);
    assert Ahead(file, d, d.writers[w]);
    OnlyOne(d.writers, w);
    WritesOn(file, d.writers[w].at, Min(d.writers[w].at + bytes, |file|));
    assert Ahead(file, out, out.writers[w]);
  }

  lemma EndsAlone(file: seq<Byte>, d: Disk, w: nat)
    requires Alone(file, d) && |d.writers| <= 1 && w in d.writers
    ensures Alone(file, Fails(d, w)) && Alone(file, Renames(file, d, w))
  {
    assert Ahead(file, d, d.writers[w]);
    OnlyOne(d.writers, w);
    assert file[..|file|] == file;
  }

  lemma StepAlone(file: seq<Byte>, d: Disk, step: Step)
    requires Alone(file, d) && |d.writers| <= 1 && |After(file, d, step).writers| <= 1
    ensures Alone(file, After(file, d, step))
  {
    if step.Open? && step.writer !in d.writers {
      OpensAlone(file, d, step.writer);
    } else if step.Write? && step.writer in d.writers {
      WritesAlone(file, d, step.writer, step.bytes);
    } else if !step.Open? && step.writer in d.writers {
      EndsAlone(file, d, step.writer);
    }
  }

  lemma {:induction false} OneAtATime(file: seq<Byte>, d: Disk, steps: seq<Step>)
    requires Alone(file, d) && Within(file, 1, d, steps)
    ensures AlwaysWhole(file, d, steps)
    decreases |steps|
  {
    if steps != [] {
      StepAlone(file, d, steps[0]);
      OneAtATime(file, After(file, d, steps[0]), steps[1..]);
    }
  }

  /** A write that ends is gone; one that fails leaves no temporary and the entry as it was; and one
      that nothing interferes with puts the whole entry in place. */
  lemma {:induction false} WritesEnd(file: seq<Byte>, d: Disk, w: nat)
    requires Valid(d)
    ensures var failed := After(file, d, Fail(w));
            w in d.writers ==> w !in failed.writers && failed.temporary == None && failed.place == d.place
    ensures w in d.writers && d.writers[w].at == |file| ==> w !in After(file, d, Rename(w)).writers
    ensures w !in d.writers ==>
              var renamed := After(file, After(file, After(file, d, Open(w)), Write(w, |file|)), Rename(w));
              renamed.place.Some? && Whole(file, renamed) && renamed.temporary == None && w !in renamed.writers
  {
    if w !in d.writers {
      var begun := After(file, d, Open(w));
      assert begun.inodes[begun.writers[w].inode] == [] && file[0..|file|] == file;
      assert Overlaid([], 0, file) == file;
    }
  }

  // ------------------------------------------------------------------ two at once

  const EMPTY: Disk := Disk([], None, None, map[])

  /** The first has written all of it, the second opens the same name, and the first's rename puts
      the emptied file in place. */
  function Overlap(file: seq<Byte>): seq<Step> {
    [Open(0), Write(0, |file|), Open(1), Rename(0)]
  }

  lemma {:induction false} NextStep(file: seq<Byte>, d: Disk, first: Step, rest: seq<Step>)
    requires Valid(d)
    ensures Within(file, 2, d, [first] + rest) <==>
            |d.writers| <= 2 && Within(file, 2, After(file, d, first), rest)
    ensures AlwaysWhole(file, d, [first] + rest) <==>
            Whole(file, d) && AlwaysWhole(file, After(file, d, first), rest)
  {
    assert ([first] + rest)[1..] == rest;
  }

  lemma OverlapSteps(file: seq<Byte>)
    ensures After(file, EMPTY, Open(0)) == Disk([[]], Some(0), None, map[0 := Writer(0, 0)])
    ensures After(file, Disk([[]], Some(0), None, map[0 := Writer(0, 0)]), Write(0, |file|)) ==
            Disk([file], Some(0), None, map[0 := Writer(0, |file|)])
    ensures After(file, Disk([file], Some(0), None, map[0 := Writer(0, |file|)]), Open(1)) ==
            Disk([[]], Some(0), None, map[0 := Writer(0, |file|), 1 := Writer(0, 0)])
    ensures After(file, Disk([[]], Some(0), None, map[0 := Writer(0, |file|), 1 := Writer(0, 0)]), Rename(0)) ==
            Disk([[]], None, Some(0), map[1 := Writer(0, 0)])
  {
    assert file[0..|file|] == file && Overlaid([], 0, file) == file;
  }

  lemma {:induction false} TwoAtOnce(file: seq<Byte>)
    requires file != []
    ensures Starts(file, EMPTY) && Within(file, 2, EMPTY, Overlap(file))
    ensures !AlwaysWhole(file, EMPTY, Overlap(file))
  {
    OverlapSteps(file);
    NextStep(file, Disk([[]], Some(0), None, map[0 := Writer(0, |file|), 1 := Writer(0, 0)]), Rename(0), []);
    NextStep(file, Disk([file], Some(0), None, map[0 := Writer(0, |file|)]), Open(1), [Rename(0)]);
    NextStep(file, Disk([[]], Some(0), None, map[0 := Writer(0, 0)]), Write(0, |file|), [Open(1), Rename(0)]);
    NextStep(file, EMPTY, Open(0), [Write(0, |file|), Open(1), Rename(0)]);
    assert [Rename(0)] == [Rename(0)] + [] && [Open(1), Rename(0)] == [Open(1)] + [Rename(0)];
    assert [Write(0, |file|), Open(1), Rename(0)] == [Write(0, |file|)] + [Open(1), Rename(0)];
    assert Overlap(file) == [Open(0)] + [Write(0, |file|), Open(1), Rename(0)];
  }

  lemma {:induction false} WithinMore(file: seq<Byte>, cap: nat, more: nat, d: Disk, steps: seq<Step>)
    requires Valid(d) && Within(file, cap, d, steps) && cap <= more
    ensures Within(file, more, d, steps)
    decreases |steps|
  {
    if steps != [] {
      WithinMore(file, cap, more, After(file, d, steps[0]), steps[1..]);
    }
  }

  /** A reader never sees a partial entry, whatever the writes' interleaving, exactly when writes of
      one entry are made one at a time. */
  lemma {:induction false} WholeExactly(file: seq<Byte>, cap: nat)
    requires file != []
    ensures (forall d, steps | Starts(file, d) && Within(file, cap, d, steps) :: AlwaysWhole(file, d, steps)) <==>
            cap <= 1
  {
    if cap <= 1 {
      forall d, steps | Starts(file, d) && Within(file, cap, d, steps) ensures AlwaysWhole(file, d, steps) {
        WithinMore(file, cap, 1, d, steps);
        OneAtATime(file, d, steps);
      }
    } else {
      TwoAtOnce(file);
      WithinMore(file, 2, cap, EMPTY, Overlap(file));
    }
  }
}
