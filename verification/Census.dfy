/**
The census of reported lines: driver/ps5vk_census.c's open-addressing table of line hashes. A line
is fresh the first time its hash is seen, while there is room.
*/
module Census {
  const SLOTS: nat := 8192

  // ------------------------------------------------------------------ hashing a line

  function HashStep(hash: bv64, c: bv64): bv64 {
    (hash ^ c) * 0x100000001b3
  }

  /** FNV-1a over the bytes of a line. */
  function HashBytes(line: seq<bv64>): bv64 {
    if line == [] then 0xcbf29ce484222325
    else HashStep(HashBytes(line[..|line| - 1]), line[|line| - 1])
  }

  /** Never 0, which marks an empty slot. */
  function LineHash(line: seq<bv64>): bv64 {
    if HashBytes(line) == 0 then 1 else HashBytes(line)
  }

  method HashLine(line: seq<bv64>) returns (hash: bv64)
    ensures hash == LineHash(line) && hash != 0
  {
    hash := 0xcbf29ce484222325;
    for i := 0 to |line|
      invariant hash == HashBytes(line[..i])
    {
      assert line[..i + 1][..i] == line[..i];
      hash := HashStep(hash, line[i]);
    }
    assert line[..|line|] == line;
    if hash == 0 {
      hash := 1;
    }
  }

  lemma {:induction false} HashNext(line: seq<bv64>, c: bv64)
    ensures HashBytes(line + [c]) == HashStep(HashBytes(line), c)
  {
    assert (line + [c])[..|line|] == line;
  }

  /** The published 64-bit FNV-1a hashes of no bytes, "a" and "fo". */
  lemma KnownHashes()
    ensures HashBytes([]) == 0xcbf29ce484222325
    ensures HashBytes([0x61]) == 0xaf63dc4c8601ec8c
    ensures HashBytes([0x66, 0x6f]) == 0x08985907b541d342
  {
    HashNext([], 0x61);
    HashNext([], 0x66);
    HashNext([0x66], 0x6f);
    var none: seq<bv64> := [];
    assert none + [0x61] == [0x61] && none + [0x66] == [0x66];
    var f: seq<bv64> := [0x66];
    assert f + [0x6f] == [0x66, 0x6f];
  }

  // ------------------------------------------------------------------ the table

  /** The slot a hash's probe number p looks at. */
  function Probe(hash: nat, p: nat): nat {
    (hash % SLOTS + p) % SLOTS
  }

  /** How many probes a slot is from a hash's first. */
  function Distance(hash: nat, slot: nat): nat
    requires slot < SLOTS
  {
    (slot + SLOTS - hash % SLOTS) % SLOTS
  }

  lemma ProbeOfDistance(hash: nat, slot: nat)
    requires slot < SLOTS
    ensures Distance(hash, slot) < SLOTS && Probe(hash, Distance(hash, slot)) == slot
  {
  }

  lemma DistanceOfProbe(hash: nat, p: nat)
    requires p < SLOTS
    ensures Probe(hash, p) < SLOTS && Distance(hash, Probe(hash, p)) == p
  {
  }

  /** The hashes in the table. */
  function Members(seen: seq<nat>): set<nat> {
    set i | 0 <= i < |seen| && seen[i] != 0 :: seen[i]
  }

  function Occupied(seen: seq<nat>): nat {
    if seen == [] then 0 else Occupied(seen[..|seen| - 1]) + if seen[|seen| - 1] != 0 then 1 else 0
  }

  /** Every slot a hash was probed past is taken. */
  ghost predicate Chained(seen: seq<nat>, hash: nat, distance: nat)
    requires |seen| == SLOTS
  {
    forall p | 0 <= p < distance :: Taken(seen, hash, p)
  }

  predicate Taken(seen: seq<nat>, hash: nat, p: nat)
    requires |seen| == SLOTS
  {
    seen[Probe(hash, p)] != 0
  }

  /** Hashes are where their probes find them, each once. */
  ghost predicate Findable(seen: seq<nat>) {
    && |seen| == SLOTS
    && (forall i | 0 <= i < SLOTS && seen[i] != 0 :: Chained(seen, seen[i], Distance(seen[i], i)))
    && (forall i, j | 0 <= i < j < SLOTS :: seen[i] != 0 ==> seen[i] != seen[j])
  }

  lemma MemberAt(seen: seq<nat>, i: nat)
    requires i < |seen| && seen[i] != 0
    ensures seen[i] in Members(seen)
  {
  }

  /** The slots before a hash's own are taken. */
  lemma TakenBefore(seen: seq<nat>, i: nat, p: nat)
    requires Findable(seen) && i < SLOTS && seen[i] != 0 && p < Distance(seen[i], i)
    ensures seen[Probe(seen[i], p)] != 0
  {
    assert Chained(seen, seen[i], Distance(seen[i], i));
    assert Taken(seen, seen[i], p);
  }

  /** An empty slot on the way says the hash is not there. */
  lemma NotThere(seen: seq<nat>, hash: nat, p: nat)
    requires Findable(seen) && hash != 0 && p < SLOTS && seen[Probe(hash, p)] == 0
    requires forall q | 0 <= q < p :: seen[Probe(hash, q)] != hash
    ensures hash !in Members(seen)
  {
    if i :| 0 <= i < SLOTS && seen[i] == hash {
      ProbeOfDistance(hash, i);
      if p < Distance(hash, i) {
        TakenBefore(seen, i, p);
      }
    }
  }

  /** A hash written into the first empty slot on its way can be found there. */
  lemma StillFindable(seen: seq<nat>, hash: nat, p: nat)
    requires Findable(seen) && hash != 0 && p < SLOTS && seen[Probe(hash, p)] == 0 && hash !in Members(seen)
    requires Chained(seen, hash, p)
    ensures Findable(seen[Probe(hash, p) := hash])
    ensures Members(seen[Probe(hash, p) := hash]) == Members(seen) + {hash}
  {
    var at := Probe(hash, p);
    var out := seen[at := hash];
    DistanceOfProbe(hash, p);
    forall i | 0 <= i < SLOTS && out[i] != 0 ensures Chained(out, out[i], Distance(out[i], i)) {
      var h, distance := out[i], Distance(out[i], i);
      forall q | 0 <= q < distance ensures Taken(out, h, q) {
        if i == at {
          assert Taken(seen, hash, q);
        } else {
          assert Chained(seen, seen[i], distance);
          assert Taken(seen, h, q);
        }
      }
    }
    forall i | 0 <= i < SLOTS && i != at ensures out[i] == seen[i] && out[i] != hash {
      if seen[i] != 0 {
        MemberAt(seen, i);
      }
    }
    MembersWith(seen, at, hash);
  }

  lemma MembersWith(seen: seq<nat>, at: nat, hash: nat)
    requires at < |seen| && seen[at] == 0 && hash != 0
    ensures Members(seen[at := hash]) == Members(seen) + {hash}
  {
    var out := seen[at := hash];
    forall x | x in Members(seen) + {hash} ensures x in Members(out) {
      if x == hash {
        assert out[at] == x;
      } else {
        var i :| 0 <= i < |seen| && seen[i] != 0 && seen[i] == x;
        assert out[i] == x;
      }
    }
  }

  lemma {:induction false} OneMoreOccupied(seen: seq<nat>, at: nat, hash: nat)
    requires at < |seen| && seen[at] == 0 && hash != 0
    ensures Occupied(seen[at := hash]) == Occupied(seen) + 1
  {
    var n := |seen| - 1;
    if at == n {
      assert seen[at := hash][..n] == seen[..n];
    } else {
      OneMoreOccupied(seen[..n], at, hash);
      assert seen[at := hash][..n] == seen[..n][at := hash];
    }
  }

  /** Fewer occupied slots than slots leave one empty. */
  lemma {:induction false} SomeEmpty(seen: seq<nat>)
    requires Occupied(seen) < |seen|
    ensures exists i | 0 <= i < |seen| :: seen[i] == 0
  {
    var n := |seen| - 1;
    if seen[n] != 0 {
      SomeEmpty(seen[..n]);
      var i :| 0 <= i < n && seen[..n][i] == 0;
      assert seen[i] == 0;
    }
  }

  class Table {
    var seen: array<nat>
    var count: nat

    /** The table is a set of hashes: findable, counted, and never full. */
    ghost predicate Valid()
      reads this, seen
    {
      && seen.Length == SLOTS && Findable(seen[..]) && count == |Members(seen[..])| == Occupied(seen[..])
      && count < SLOTS
    }

    ghost function Hashes(): set<nat>
      reads this, seen
    {
      Members(seen[..])
    }

    constructor ()
      ensures Valid() && Hashes() == {} && fresh(seen)
    {
      seen := new nat[SLOTS](_ => 0);
      count := 0;
      new;
      NoneOccupied(seen[..]);
    }

    /** ps5vk_census's insert: fresh exactly when the hash is new and there is room. */
    method Insert(hash: nat) returns (isFresh: bool)
      requires Valid() && hash != 0
      modifies seen, this`count
      ensures Valid() && seen == old(seen)
      ensures isFresh <==> hash !in old(Hashes()) && |old(Hashes())| + 1 < SLOTS
      ensures Hashes() == if isFresh then old(Hashes()) + {hash} else old(Hashes())
      ensures exists i | 0 <= i < SLOTS :: seen[i] == 0
    {
      ghost var was := seen[..];
      SomeEmpty(was);
      isFresh := false;
      var probe, at := 0, Probe(hash, 0);
      while probe < SLOTS && seen[at] != hash && seen[at] != 0
        invariant probe <= SLOTS && at == Probe(hash, probe)
        invariant forall q | 0 <= q < probe :: Taken(was, hash, q) && was[Probe(hash, q)] != hash
      {
        probe := probe + 1;
        at := Probe(hash, probe);
      }
      if probe == SLOTS {
        AllTaken(was, hash);
        assert false;
      } else if seen[at] == hash {
        MemberAt(was, at);
      } else {
        NotThere(was, hash, probe);
        if count + 1 < SLOTS {
          StillFindable(was, hash, probe);
          OneMoreOccupied(was, at, hash);
          seen[at] := hash;
          assert seen[..] == was[at := hash];
          count := count + 1;
          isFresh := true;
          SomeEmpty(seen[..]);
        }
      }
    }
  }

  lemma {:induction false} NoneOccupied(seen: seq<nat>)
    requires forall i | 0 <= i < |seen| :: seen[i] == 0
    ensures Occupied(seen) == 0 && Members(seen) == {}
  {
    if seen != [] {
      NoneOccupied(seen[..|seen| - 1]);
    }
  }

  /** A probe of every slot finds the empty one. */
  lemma {:induction false} AllTaken(seen: seq<nat>, hash: nat)
    requires |seen| == SLOTS && Occupied(seen) < SLOTS
    ensures exists p | 0 <= p < SLOTS :: !Taken(seen, hash, p)
  {
    SomeEmpty(seen);
    var i :| 0 <= i < SLOTS && seen[i] == 0;
    ProbeOfDistance(hash, i);
    assert !Taken(seen, hash, Distance(hash, i));
  }

  // ------------------------------------------------------------------ every sequence of lines

  predicate IsNew(hashes: set<nat>, hash: nat) {
    hash !in hashes && |hashes| + 1 < SLOTS
  }

  /** The set of hashes after a sequence of reports. */
  function SetAfter(reports: seq<nat>): set<nat> {
    if reports == [] then {}
    else
      var before, last := SetAfter(reports[..|reports| - 1]), reports[|reports| - 1];
      if IsNew(before, last) then before + {last} else before
  }

  /** Of each report, whether the set did not have it and had room. */
  function Flags(reports: seq<nat>): seq<bool> {
    if reports == [] then []
    else
      var before := reports[..|reports| - 1];
      Flags(before) + [IsNew(SetAfter(before), reports[|reports| - 1])]
  }

  lemma {:induction false} ReportNext(reports: seq<nat>, hash: nat)
    ensures Flags(reports + [hash]) == Flags(reports) + [IsNew(SetAfter(reports), hash)]
    ensures SetAfter(reports + [hash]) ==
            if IsNew(SetAfter(reports), hash) then SetAfter(reports) + {hash} else SetAfter(reports)
  {
    assert (reports + [hash])[..|reports|] == reports;
  }

  /** Reporting a sequence of hashes, one after the other. */
  method ReportAll(table: Table, reports: seq<nat>) returns (flags: seq<bool>)
    requires table.Valid() && table.Hashes() == {} && forall i | 0 <= i < |reports| :: reports[i] != 0
    modifies table, table.seen
    ensures table.Valid() && table.seen == old(table.seen)
    ensures table.Hashes() == SetAfter(reports) && flags == Flags(reports)
    decreases |reports|
  {
    if |reports| == 0 {
      return [];
    }
    var n := |reports| - 1;
    flags := ReportAll(table, reports[..n]);
    ReportNext(reports[..n], reports[n]);
    assert reports == reports[..n] + [reports[n]];
    var isFresh := table.Insert(reports[n]);
    flags := flags + [isFresh];
  }

  function Elements(reports: seq<nat>): set<nat> {
    set i | 0 <= i < |reports| :: reports[i]
  }

  lemma {:induction false} ElementsNext(reports: seq<nat>)
    requires reports != []
    ensures Elements(reports) == Elements(reports[..|reports| - 1]) + {reports[|reports| - 1]}
  {
    var n := |reports| - 1;
    assert forall i | 0 <= i < n :: reports[..n][i] == reports[i];
    assert forall x | x in Elements(reports[..n]) :: exists i | 0 <= i < |reports| :: reports[i] == x;
  }

  lemma {:induction false} NeverFull(reports: seq<nat>)
    ensures |SetAfter(reports)| < SLOTS
  {
    if reports != [] {
      var n := |reports| - 1;
      NeverFull(reports[..n]);
      Smaller(SetAfter(reports[..n]), reports[n]);
    }
  }

  /** The table holds exactly the hashes reported if and only if they are fewer than its slots. */
  lemma {:induction false} HoldsAllReported(reports: seq<nat>)
    ensures SetAfter(reports) == Elements(reports) <==> |Elements(reports)| < SLOTS
  {
    if |Elements(reports)| < SLOTS {
      HoldsFew(reports);
    } else {
      NeverFull(reports);
    }
  }

  lemma {:induction false} HoldsFew(reports: seq<nat>)
    requires |Elements(reports)| < SLOTS
    ensures SetAfter(reports) == Elements(reports)
  {
    if reports != [] {
      var n := |reports| - 1;
      ElementsNext(reports);
      Smaller(Elements(reports[..n]), reports[n]);
      HoldsFew(reports[..n]);
    }
  }

  lemma Smaller(hashes: set<nat>, hash: nat)
    ensures |hashes| <= |hashes + {hash}|
    ensures hash !in hashes ==> |hashes + {hash}| == |hashes| + 1
  {
    if hash in hashes {
      assert hashes + {hash} == hashes;
    }
  }

  // ------------------------------------------------------------------ lines

  /** The hash as the table's number. */
  function LineNumber(line: seq<bv64>): nat {
    LineHash(line) as nat
  }

  function HashesOf(lines: seq<seq<bv64>>): seq<nat> {
    seq(|lines|, i requires 0 <= i < |lines| => LineNumber(lines[i]))
  }

  lemma NextLine(lines: seq<seq<bv64>>, i: nat)
    requires i < |lines|
    ensures HashesOf(lines[..i + 1]) == HashesOf(lines[..i]) + [LineNumber(lines[i])]
  {
  }

  method NumberLine(line: seq<bv64>) returns (number: nat)
    ensures number == LineNumber(line) && number != 0
  {
    var hash := HashLine(line);
    number := hash as nat;
  }

  /** ps5vk_census over a sequence of lines: each is hashed and written out if its hash is new. */
  method ReportLines(table: Table, lines: seq<seq<bv64>>) returns (written: seq<bool>)
    requires table.Valid() && table.Hashes() == {}
    modifies table, table.seen
    ensures table.Valid() && table.seen == old(table.seen)
    ensures table.Hashes() == SetAfter(HashesOf(lines)) && written == Flags(HashesOf(lines))
  {
    written := [];
    for i := 0 to |lines|
      invariant table.Valid() && table.seen == old(table.seen)
      invariant table.Hashes() == SetAfter(HashesOf(lines[..i])) && written == Flags(HashesOf(lines[..i]))
    {
      var number := NumberLine(lines[i]);
      NextLine(lines, i);
      ReportNext(HashesOf(lines[..i]), number);
      var isFresh := table.Insert(number);
      written := written + [isFresh];
    }
    assert lines[..|lines|] == lines;
  }

  lemma {:induction false} FlagIs(reports: seq<nat>, i: nat)
    requires i < |reports|
    ensures |Flags(reports)| == |reports| && (Flags(reports)[i] <==> IsNew(SetAfter(reports[..i]), reports[i]))
  {
    var n := |reports| - 1;
    if n > 0 {
      FlagIs(reports[..n], if i < n then i else 0);
    }
    if i < n {
      assert reports[..n][..i] == reports[..i];
    }
  }

  lemma {:induction false} FewerBefore(reports: seq<nat>, i: nat)
    requires i <= |reports|
    ensures |Elements(reports[..i])| <= |Elements(reports)|
    decreases |reports|
  {
    if i < |reports| {
      var n := |reports| - 1;
      FewerBefore(reports[..n], i);
      assert reports[..n][..i] == reports[..i];
      ElementsNext(reports);
      Smaller(Elements(reports[..n]), reports[n]);
    } else {
      assert reports[..i] == reports;
    }
  }

  lemma {:induction false} FreshIsFirst(reports: seq<nat>, i: nat)
    requires i < |reports| && |Elements(reports)| < SLOTS
    ensures |Flags(reports)| == |reports| && (Flags(reports)[i] <==> reports[i] !in Elements(reports[..i]))
  {
    FlagIs(reports, i);
    FewerBefore(reports, i + 1);
    assert reports[..i + 1][..i] == reports[..i];
    ElementsNext(reports[..i + 1]);
    Smaller(Elements(reports[..i]), reports[i]);
    HoldsFew(reports[..i]);
  }

  /** With fewer distinct hashes than slots, a line is written out exactly when no earlier line has
      its hash. */
  lemma {:induction false} WrittenOnce(lines: seq<seq<bv64>>, i: nat)
    requires i < |lines| && |Elements(HashesOf(lines))| < SLOTS
    ensures |Flags(HashesOf(lines))| == |lines|
    ensures Flags(HashesOf(lines))[i] <==> forall j | 0 <= j < i :: LineNumber(lines[j]) != LineNumber(lines[i])
  {
    var reports := HashesOf(lines);
    FreshIsFirst(reports, i);
    assert forall j | 0 <= j < i :: reports[..i][j] == LineNumber(lines[j]);
  }
}
