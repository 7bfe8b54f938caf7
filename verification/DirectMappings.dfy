/**
Direct memory: driver/ps5vk_direct_memory.c's mappings, created and destroyed over a region bitmap
and live counters, whatever the kernel answers on the way.
*/
module DirectMappings {
  import opened Options
  import opened Arithmetic
  import opened Regions

  const REGION: nat := 0x40_0000_0000
  const GRANULE: nat := 0x20_0000
  const REGION_WORDS: nat := 2048
  const KINDS: nat := 7
  const DEVICE_MEMORY: nat := 0
  const OUTSIDE_WINDOW: int := -1
  const WINDOW: nat := 0x2_0000_0000
  const WINDOW_BYTES: nat := 0x1_0000_0000
  const GPU_LIMIT: nat := 0x8000_0000_0000

  /** struct ps5vk_direct_mapping: start is -1 before it is allocated, address 0 before it is
      mapped, granules 0 while it holds none of the region. */
  datatype Mapping = Mapping(start: int, bytes: nat, address: nat, kind: nat, granule: nat, granules: nat)

  /** The driver's state: the region, the counters, and the test switch's base and next address. */
  datatype Memory = Memory(
    region: seq<bool>, liveCount: int, liveBytes: int, kindCount: seq<int>, kindBytes: seq<int>,
    base: nat, next: nat, outside: nat)

  predicate ValidMemory(s: Memory) {
    |s.region| == 64 * REGION_WORDS && |s.kindCount| == KINDS && |s.kindBytes| == KINDS
  }

  /** One answer of sceKernelMapDirectMemory. */
  datatype Mapped = Mapped(result: int, address: nat)

  /** The kernel's answers to one create: the allocation, the map at the hint, and the map where
      the kernel chooses. */
  datatype Answers = Answers(allocation: int, start: nat, hinted: Mapped, chosen: Mapped)

  /** ps5vk_address_range_valid and ps5vk_gpu_range_valid. */
  predicate InWindow(address: nat, bytes: nat) {
    bytes != 0 && WINDOW <= address < WINDOW + WINDOW_BYTES && bytes <= WINDOW_BYTES - (address - WINDOW)
  }

  predicate InGpuReach(address: nat, bytes: nat) {
    bytes != 0 && address != 0 && address < GPU_LIMIT && bytes <= GPU_LIMIT - address
  }

  predicate Reachable(kind: nat, address: nat, bytes: nat) {
    InWindow(address, bytes) || (kind == DEVICE_MEMORY && InGpuReach(address, bytes))
  }

  /** The window is the 4 GiB from 8 GiB on, and the GPU reaches what lies below 128 TiB. */
  lemma ReachMeans(address: nat, bytes: nat)
    ensures InWindow(address, bytes) <==>
            bytes > 0 && 0x2_0000_0000 <= address && address + bytes <= 0x3_0000_0000
    ensures InGpuReach(address, bytes) <==> bytes > 0 && address > 0 && address + bytes <= 0x8000_0000_0000
  {
  }

  // ------------------------------------------------------------------ the steps

  /** The lowest free run from `first` on. */
  ghost function FitFrom(region: seq<bool>, count: nat, first: nat): Option<nat>
    decreases |region| - first
  {
    if first + count > |region| then None
    else if FreeRun(region, first, count) then Some(first)
    else if first == |region| then None
    else FitFrom(region, count, first + 1)
  }

  ghost function Fit(region: seq<bool>, count: nat): Option<nat> {
    if count == 0 then None else FitFrom(region, count, 0)
  }

  lemma {:induction false} FitFromFits(region: seq<bool>, count: nat, first: nat)
    requires count > 0 && first <= |region| && forall h: nat | h < first :: !FreeRun(region, h, count)
    ensures FirstFit(region, count, FitFrom(region, count, first))
    decreases |region| - first
  {
    if first + count <= |region| && !FreeRun(region, first, count) {
      FitFromFits(region, count, first + 1);
    }
  }

  lemma FitFits(region: seq<bool>, count: nat)
    ensures FirstFit(region, count, Fit(region, count))
  {
    if count > 0 {
      FitFromFits(region, count, 0);
    }
  }

  function Counted(s: Memory, kind: nat, count: int, bytes: int): Memory
    requires ValidMemory(s) && kind < KINDS
  {
    s.(liveCount := s.liveCount + count, liveBytes := s.liveBytes + bytes,
       kindCount := s.kindCount[kind := s.kindCount[kind] + count],
       kindBytes := s.kindBytes[kind := s.kindBytes[kind] + bytes])
  }

  predicate ValidMapping(s: Memory, m: Mapping) {
    m.kind < KINDS && m.granule + m.granules <= |s.region|
  }

  /** ps5vk_region_give. */
  function Give(s: Memory, m: Mapping): (Memory, Mapping)
    requires ValidMapping(s, m)
  {
    if m.granules == 0 then (s, m)
    else (s.(region := Marked(s.region, m.granule, m.granules, false)), m.(granules := 0))
  }

  /** The granules a mapping of so many bytes asks for. */
  function GranulesOf(bytes: nat): nat {
    DivRoundUp(bytes, GRANULE)
  }

  function GranuleAddress(granule: nat): nat {
    REGION + granule * GRANULE
  }

  /** ps5vk_direct_mapping_hint: the hint, 0 where there is none. */
  ghost function Hint(s: Memory, m: Mapping): (Memory, Mapping, nat) {
    if m.kind != DEVICE_MEMORY then (s, m, 0)
    else if s.base != 0 then (s.(next := s.next + AlignUp(m.bytes, GRANULE)), m, s.base + s.next)
    else
      var count := GranulesOf(m.bytes);
      match Fit(s.region, count)
      case None => (s, m, 0)
      case Some(first) =>
        FitFits(s.region, count);
        (s.(region := Marked(s.region, first, count, true)), m.(granule := first, granules := count),
         GranuleAddress(first))
  }

  /** ps5vk_direct_mapping_destroy. */
  function Destroy(s: Memory, m: Mapping): (Memory, Mapping)
    requires ValidMemory(s) && ValidMapping(s, m)
  {
    var counted := if m.start >= 0 && m.bytes != 0 then Counted(s, m.kind, -1, -(m.bytes as int)) else s;
    var (given, out) := Give(counted, m);
    (given, out.(start := -1, address := 0))
  }

  /** What a create comes to once its memory is mapped, or is not. */
  function Finish(s: Memory, m: Mapping, hint: nat, answer: Mapped): (Memory, Mapping, int)
    requires ValidMemory(s) && ValidMapping(s, m)
  {
    var placed := answer.result == 0 && answer.address != 0;
    var at := if placed then m.(address := answer.address) else m;
    var (given, kept) := if placed && answer.address != hint then Give(s, at) else (s, at);
    if placed && InWindow(answer.address, m.bytes) then (given, kept, 0)
    else if placed && m.kind == DEVICE_MEMORY && InGpuReach(answer.address, m.bytes) then
      (given.(outside := given.outside + 1), kept, 0)
    else
      var (gone, dead) := Destroy(given, kept);
      (gone, dead, if answer.result == 0 then OUTSIDE_WINDOW else answer.result)
  }

  /** The mapping once the kernel has answered, at the hint or where it chose. */
  function Map(s: Memory, m: Mapping, hint: nat, answers: Answers): (Memory, Mapping, int)
    requires ValidMemory(s) && ValidMapping(s, m)
  {
    if answers.hinted.result != 0 && hint != 0 then
      var (given, out) := Give(s, m);
      Finish(given, out, hint, answers.chosen)
    else Finish(s, m, hint, answers.hinted)
  }

  lemma HintValid(s: Memory, m: Mapping)
    requires ValidMemory(s) && m.kind < KINDS && m.granules == 0 && m.granule == 0
    ensures ValidMemory(Hint(s, m).0) && ValidMapping(Hint(s, m).0, Hint(s, m).1)
  {
    FitFits(s.region, GranulesOf(m.bytes));
  }

  /** ps5vk_direct_mapping_create. */
  ghost function Create(s: Memory, bytes: nat, kind: nat, answers: Answers): (Memory, Mapping, int)
    requires ValidMemory(s) && kind < KINDS
  {
    var m := Mapping(-1, bytes, 0, kind, 0, 0);
    if answers.allocation != 0 then (s, m, answers.allocation)
    else
      var counted := Counted(s, kind, 1, bytes);
      HintValid(counted, m.(start := answers.start));
      var (hinted, at, hint) := Hint(counted, m.(start := answers.start));
      Map(hinted, at, hint, answers)
  }

  // ------------------------------------------------------------------ the driver's state in place

  class DirectMemory {
    var region: array<bv64>
    var liveCount: int
    var liveBytes: int
    var kindCount: seq<int>
    var kindBytes: seq<int>
    var base: nat
    var next: nat
    var outside: nat

    ghost predicate Valid()
      reads this
    {
      region.Length == REGION_WORDS && |kindCount| == KINDS && |kindBytes| == KINDS
    }

    ghost function View(): (s: Memory)
      reads this, region
    {
      Memory(Granules(region[..]), liveCount, liveBytes, kindCount, kindBytes, base, next, outside)
    }

    /** Zeroed static storage. */
    constructor ()
      ensures Valid() && View() == Zeroed(0, 0, 0) && fresh(region)
    {
      region := new bv64[REGION_WORDS](_ => 0);
      liveCount, liveBytes := 0, 0;
      kindCount, kindBytes := [0, 0, 0, 0, 0, 0, 0], [0, 0, 0, 0, 0, 0, 0];
      base, next, outside := 0, 0, 0;
      new;
      AllFree(region[..]);
    }

    method GiveBack(m: Mapping) returns (out: Mapping)
      requires Valid() && ValidMapping(View(), m)
      modifies region
      ensures Valid() && (View(), out) == Give(old(View()), m)
    {
      out := m;
      if m.granules == 0 {
        return;
      }
      Mark(region, m.granule, m.granules, false);
      out := m.(granules := 0);
    }

    method Count(kind: nat, count: int, bytes: int)
      requires Valid() && kind < KINDS
      modifies this`liveCount, this`liveBytes, this`kindCount, this`kindBytes
      ensures Valid() && View() == Counted(old(View()), kind, count, bytes)
    {
      liveCount := liveCount + count;
      liveBytes := liveBytes + bytes;
      kindCount := kindCount[kind := kindCount[kind] + count];
      kindBytes := kindBytes[kind := kindBytes[kind] + bytes];
    }

    method DestroyMapping(m: Mapping) returns (out: Mapping)
      requires Valid() && ValidMapping(View(), m)
      modifies this, region
      ensures Valid() && region == old(region) && (View(), out) == Destroy(old(View()), m)
    {
      if m.start >= 0 && m.bytes != 0 {
        Count(m.kind, -1, -(m.bytes as int));
      }
      out := GiveBack(m);
      out := out.(start := -1, address := 0);
    }

    method TakeHint(m: Mapping) returns (out: Mapping, hint: nat)
      requires Valid() && m.kind < KINDS && m.granules == 0 && m.granule == 0
      modifies this`next, region
      ensures Valid() && (View(), out, hint) == Hint(old(View()), m)
    {
      out, hint := m, 0;
      if m.kind != DEVICE_MEMORY {
        return;
      }
      var step := AlignUp(m.bytes, GRANULE);
      if base != 0 {
        hint := base + next;
        next := next + step;
        return;
      }
      var count := GranulesOf(m.bytes);
      FitFits(View().region, count);
      ghost var before := View().region;
      var first := Take(region, count);
      FirstFitUnique(before, count, first, Fit(before, count));
      if first.Some? {
        out := m.(granule := first.value, granules := count);
        hint := GranuleAddress(first.value);
      }
    }

    method FinishMapping(m: Mapping, hint: nat, answer: Mapped) returns (out: Mapping, result: int)
      requires Valid() && ValidMapping(View(), m)
      modifies this, region
      ensures Valid() && region == old(region) && (View(), out, result) == Finish(old(View()), m, hint, answer)
    {
      out := m;
      if answer.result == 0 && answer.address != 0 {
        out := out.(address := answer.address);
        if answer.address != hint {
          out := GiveBack(out);
        }
        if InWindow(answer.address, m.bytes) {
          return out, 0;
        }
        if m.kind == DEVICE_MEMORY && InGpuReach(answer.address, m.bytes) {
          outside := outside + 1;
          return out, 0;
        }
      }
      result := if answer.result == 0 then OUTSIDE_WINDOW else answer.result;
      out := DestroyMapping(out);
    }

    method CreateMapping(bytes: nat, kind: nat, answers: Answers) returns (out: Mapping, result: int)
      requires Valid() && kind < KINDS
      modifies this, region
      ensures Valid() && region == old(region) && (View(), out, result) == Create(old(View()), bytes, kind, answers)
    {
      out := Mapping(-1, bytes, 0, kind, 0, 0);
      if answers.allocation != 0 {
        return out, answers.allocation;
      }
      out := out.(start := answers.start);
      Count(kind, 1, bytes);
      HintValid(View(), out);
      var hint: nat;
      out, hint := TakeHint(out);
      if answers.hinted.result != 0 && hint != 0 {
        out := GiveBack(out);
        out, result := FinishMapping(out, hint, answers.chosen);
      } else {
        out, result := FinishMapping(out, hint, answers.hinted);
      }
    }
  }

  // ------------------------------------------------------------------ what every run keeps

  /** A sum over the live mappings. */
  function Sum(live: seq<Mapping>, weight: Mapping -> int): int {
    if live == [] then 0 else Sum(live[..|live| - 1], weight) + weight(live[|live| - 1])
  }

  lemma {:induction false} SumAdd(live: seq<Mapping>, m: Mapping, weight: Mapping -> int)
    ensures Sum(live + [m], weight) == Sum(live, weight) + weight(m)
  {
    assert (live + [m])[..|live|] == live;
  }

  function Removed(live: seq<Mapping>, i: nat): seq<Mapping>
    requires i < |live|
  {
    live[..i] + live[i + 1..]
  }

  lemma {:induction false} SumRemove(live: seq<Mapping>, i: nat, weight: Mapping -> int)
    requires i < |live|
    ensures Sum(Removed(live, i), weight) == Sum(live, weight) - weight(live[i])
    decreases |live|
  {
    var last := |live| - 1;
    if i < last {
      SumRemove(live[..last], i, weight);
      assert Removed(live, i) == Removed(live[..last], i) + [live[last]];
      SumAdd(Removed(live[..last], i), live[last], weight);
    } else {
      assert Removed(live, i) == live[..last];
    }
  }

  function One(m: Mapping): int { 1 }

  function Bytes(m: Mapping): int { m.bytes }

  function OfKind(kind: nat): Mapping -> int {
    (m: Mapping) => if m.kind == kind then 1 else 0
  }

  function BytesOfKind(kind: nat): Mapping -> int {
    (m: Mapping) => if m.kind == kind then m.bytes else 0
  }

  predicate Holds(m: Mapping, g: nat) {
    m.granule <= g < m.granule + m.granules
  }

  function Holding(g: nat): Mapping -> int {
    (m: Mapping) => if Holds(m, g) then 1 else 0
  }

  /** A live mapping: allocated, mapped where its kind can be reached, and at its granules' address
      when it holds any. */
  predicate Alive(s: Memory, m: Mapping) {
    && ValidMapping(s, m) && m.start >= 0 && m.bytes != 0 && m.address != 0
    && Reachable(m.kind, m.address, m.bytes)
    && (m.granules != 0 ==>
          m.kind == DEVICE_MEMORY && m.address == GranuleAddress(m.granule) && m.granules == GranulesOf(m.bytes))
  }

  /** The counters are the live mappings' sums. */
  ghost predicate Accounted(s: Memory, live: seq<Mapping>)
    requires ValidMemory(s)
  {
    && s.liveCount == Sum(live, One) && s.liveBytes == Sum(live, Bytes)
    && (forall kind | 0 <= kind < KINDS :: s.kindCount[kind] == Sum(live, OfKind(kind)))
    && (forall kind | 0 <= kind < KINDS :: s.kindBytes[kind] == Sum(live, BytesOfKind(kind)))
  }

  /** Each granule is held by exactly one live mapping, or by none: the region is their disjoint
      union. */
  ghost predicate Partitioned(s: Memory, live: seq<Mapping>) {
    forall g | 0 <= g < |s.region| :: Sum(live, Holding(g)) == if s.region[g] then 1 else 0
  }

  /** The counters and the region, without asking the mappings to be alive. */
  ghost predicate Balanced(s: Memory, live: seq<Mapping>) {
    ValidMemory(s) && Accounted(s, live) && Partitioned(s, live)
  }

  /** What every run keeps. */
  ghost predicate Consistent(s: Memory, live: seq<Mapping>) {
    Balanced(s, live) && forall i | 0 <= i < |live| :: Alive(s, live[i])
  }

  lemma {:induction false} SumReplace(live: seq<Mapping>, i: nat, m: Mapping, weight: Mapping -> int)
    requires i < |live|
    ensures Sum(live[i := m], weight) == Sum(live, weight) - weight(live[i]) + weight(m)
    decreases |live|
  {
    var last := |live| - 1;
    if i < last {
      SumReplace(live[..last], i, m, weight);
      assert live[i := m][..last] == live[..last][i := m];
    } else {
      assert live[i := m][..last] == live[..last];
    }
  }

  lemma {:induction false} SumNonNegative(live: seq<Mapping>, g: nat)
    ensures Sum(live, Holding(g)) >= 0
  {
    if live != [] {
      SumNonNegative(live[..|live| - 1], g);
    }
  }

  lemma {:induction false} HolderCounts(live: seq<Mapping>, i: nat, g: nat)
    requires i < |live| && Holds(live[i], g)
    ensures Sum(live, Holding(g)) >= 1
  {
    SumRemove(live, i, Holding(g));
    SumNonNegative(Removed(live, i), g);
  }

  /** Two live mappings never hold the same granule. */
  lemma HoldersApart(s: Memory, live: seq<Mapping>, i: nat, j: nat, g: nat)
    requires Balanced(s, live) && i < j < |live| && g < |s.region|
    ensures !(Holds(live[i], g) && Holds(live[j], g))
  {
    if Holds(live[i], g) && Holds(live[j], g) {
      SumRemove(live, j, Holding(g));
      HolderCounts(Removed(live, j), i, g);
    }
  }

  /** A mapping that gives its granules back leaves the rest as it was. */
  lemma GiveKeeps(s: Memory, live: seq<Mapping>, i: nat)
    requires Balanced(s, live) && i < |live| && ValidMapping(s, live[i])
    ensures var (out, m) := Give(s, live[i]); Balanced(out, live[i := m])
  {
    var (out, m) := Give(s, live[i]);
    GiveAccounts(s, live, i);
    forall g | 0 <= g < |s.region| ensures Sum(live[i := m], Holding(g)) == if out.region[g] then 1 else 0 {
      SumReplace(live, i, m, Holding(g));
      if Holds(live[i], g) {
        HolderCounts(live, i, g);
      }
    }
  }

  lemma GiveAccounts(s: Memory, live: seq<Mapping>, i: nat)
    requires Balanced(s, live) && i < |live| && ValidMapping(s, live[i])
    ensures var (out, m) := Give(s, live[i]); ValidMemory(out) && Accounted(out, live[i := m])
  {
    var (out, m) := Give(s, live[i]);
    SumReplace(live, i, m, One);
    SumReplace(live, i, m, Bytes);
    forall kind | 0 <= kind < KINDS ensures out.kindCount[kind] == Sum(live[i := m], OfKind(kind)) {
      SumReplace(live, i, m, OfKind(kind));
    }
    forall kind | 0 <= kind < KINDS ensures out.kindBytes[kind] == Sum(live[i := m], BytesOfKind(kind)) {
      SumReplace(live, i, m, BytesOfKind(kind));
    }
  }

  lemma UncountKeeps(s: Memory, live: seq<Mapping>, i: nat)
    requires Balanced(s, live) && i < |live| && live[i].kind < KINDS
    ensures Accounted(Counted(s, live[i].kind, -1, -(live[i].bytes as int)), Removed(live, i))
  {
    var m := live[i];
    var out := Counted(s, m.kind, -1, -(m.bytes as int));
    SumRemove(live, i, One);
    SumRemove(live, i, Bytes);
    forall kind | 0 <= kind < KINDS ensures out.kindCount[kind] == Sum(Removed(live, i), OfKind(kind)) {
      SumRemove(live, i, OfKind(kind));
    }
    forall kind | 0 <= kind < KINDS ensures out.kindBytes[kind] == Sum(Removed(live, i), BytesOfKind(kind)) {
      SumRemove(live, i, BytesOfKind(kind));
    }
  }

  /** Destroying a live mapping takes it, and nothing else, out of the counters and the region. */
  lemma DestroyKeeps(s: Memory, live: seq<Mapping>, i: nat)
    requires Balanced(s, live) && i < |live| && ValidMapping(s, live[i])
    requires live[i].start >= 0 && live[i].bytes != 0
    ensures Balanced(Destroy(s, live[i]).0, Removed(live, i))
  {
    var m := live[i];
    var out := Destroy(s, m).0;
    UncountKeeps(s, live, i);
    forall g | 0 <= g < |s.region| ensures Sum(Removed(live, i), Holding(g)) == if out.region[g] then 1 else 0 {
      SumRemove(live, i, Holding(g));
      if Holds(m, g) {
        HolderCounts(live, i, g);
      }
    }
  }

  /** A new mapping is counted before it holds anything. */
  lemma CountKeeps(s: Memory, live: seq<Mapping>, m: Mapping)
    requires Balanced(s, live) && m.kind < KINDS && m.granules == 0
    ensures Balanced(Counted(s, m.kind, 1, m.bytes), live + [m])
  {
    var out := Counted(s, m.kind, 1, m.bytes);
    SumAdd(live, m, One);
    SumAdd(live, m, Bytes);
    forall kind | 0 <= kind < KINDS ensures out.kindCount[kind] == Sum(live + [m], OfKind(kind)) {
      SumAdd(live, m, OfKind(kind));
    }
    forall kind | 0 <= kind < KINDS ensures out.kindBytes[kind] == Sum(live + [m], BytesOfKind(kind)) {
      SumAdd(live, m, BytesOfKind(kind));
    }
    forall g | 0 <= g < |s.region| ensures Sum(live + [m], Holding(g)) == if out.region[g] then 1 else 0 {
      SumAdd(live, m, Holding(g));
    }
  }

  /** What a hint promises of the granules a mapping holds. */
  predicate AtHint(m: Mapping, hint: nat) {
    m.granules != 0 ==>
      m.kind == DEVICE_MEMORY && hint == GranuleAddress(m.granule) && m.granules == GranulesOf(m.bytes)
  }

  lemma HintAccounts(s: Memory, live: seq<Mapping>, m: Mapping, m': Mapping)
    requires Balanced(s, live + [m]) && m' == m.(granule := m'.granule, granules := m'.granules)
    ensures Accounted(s, live + [m'])
  {
    SumAdd(live, m, One);
    SumAdd(live, m', One);
    SumAdd(live, m, Bytes);
    SumAdd(live, m', Bytes);
    forall kind | 0 <= kind < KINDS ensures s.kindCount[kind] == Sum(live + [m'], OfKind(kind)) {
      SumAdd(live, m, OfKind(kind));
      SumAdd(live, m', OfKind(kind));
    }
    forall kind | 0 <= kind < KINDS ensures s.kindBytes[kind] == Sum(live + [m'], BytesOfKind(kind)) {
      SumAdd(live, m, BytesOfKind(kind));
      SumAdd(live, m', BytesOfKind(kind));
    }
  }

  /** The granules a hint takes were nobody's. */
  lemma HintKeeps(s: Memory, live: seq<Mapping>, m: Mapping)
    requires Balanced(s, live + [m]) && m.kind < KINDS && m.granules == 0 && m.granule == 0
    ensures var (out, m', hint) := Hint(s, m);
            && Balanced(out, live + [m']) && ValidMapping(out, m') && AtHint(m', hint)
            && m' == m.(granule := m'.granule, granules := m'.granules)
  {
    var (out, m', hint) := Hint(s, m);
    FitFits(s.region, GranulesOf(m.bytes));
    HintAccounts(s, live, m, m');
    forall g | 0 <= g < |s.region| ensures Sum(live + [m'], Holding(g)) == if out.region[g] then 1 else 0 {
      SumAdd(live, m, Holding(g));
      SumAdd(live, m', Holding(g));
    }
  }

  // ------------------------------------------------------------------ creating

  /** What a finished create leaves: one more live mapping, or what there was. */
  ghost predicate Settled(s: Memory, live: seq<Mapping>, m: Mapping, result: int) {
    if result == 0 then Balanced(s, live + [m]) && Alive(s, m) else Balanced(s, live)
  }

  lemma LastRemoved(live: seq<Mapping>, m: Mapping)
    ensures Removed(live + [m], |live|) == live
  {
  }

  lemma LastReplaced(live: seq<Mapping>, m: Mapping, m': Mapping)
    ensures (live + [m])[|live| := m'] == live + [m']
  {
  }

  /** Accounted and partitioned regardless of where the last mapping lies. */
  lemma AddressIrrelevant(s: Memory, live: seq<Mapping>, m: Mapping, address: nat)
    requires Balanced(s, live + [m])
    ensures Balanced(s, live + [m.(address := address)])
  {
    var m' := m.(address := address);
    HintAccounts(s, live, m, m.(granule := m.granule));
    SumAdd(live, m, One);
    SumAdd(live, m', One);
    SumAdd(live, m, Bytes);
    SumAdd(live, m', Bytes);
    forall kind | 0 <= kind < KINDS ensures s.kindCount[kind] == Sum(live + [m'], OfKind(kind)) {
      SumAdd(live, m, OfKind(kind));
      SumAdd(live, m', OfKind(kind));
    }
    forall kind | 0 <= kind < KINDS ensures s.kindBytes[kind] == Sum(live + [m'], BytesOfKind(kind)) {
      SumAdd(live, m, BytesOfKind(kind));
      SumAdd(live, m', BytesOfKind(kind));
    }
    forall g | 0 <= g < |s.region| ensures Sum(live + [m'], Holding(g)) == if s.region[g] then 1 else 0 {
      SumAdd(live, m, Holding(g));
      SumAdd(live, m', Holding(g));
    }
  }

  lemma GiveLast(s: Memory, live: seq<Mapping>, m: Mapping)
    requires Balanced(s, live + [m]) && ValidMapping(s, m)
    ensures Balanced(Give(s, m).0, live + [Give(s, m).1])
  {
    GiveKeeps(s, live + [m], |live|);
    LastReplaced(live, m, Give(s, m).1);
  }

  lemma DestroyLast(s: Memory, live: seq<Mapping>, m: Mapping)
    requires Balanced(s, live + [m]) && ValidMapping(s, m) && m.start >= 0 && m.bytes != 0
    ensures Balanced(Destroy(s, m).0, live)
  {
    DestroyKeeps(s, live + [m], |live|);
    LastRemoved(live, m);
  }

  lemma FinishKeeps(s: Memory, live: seq<Mapping>, m: Mapping, hint: nat, answer: Mapped)
    requires Balanced(s, live + [m]) && ValidMapping(s, m) && AtHint(m, hint)
    requires m.start >= 0 && m.bytes != 0 && m.address == 0
    ensures var (out, m', result) := Finish(s, m, hint, answer); Settled(out, live, m', result)
  {
    if answer.result == 0 && answer.address != 0 {
      var at := m.(address := answer.address);
      AddressIrrelevant(s, live, m, answer.address);
      if answer.address != hint {
        GiveLast(s, live, at);
        PlacedKeeps(Give(s, at).0, live, Give(s, at).1);
      } else {
        PlacedKeeps(s, live, at);
      }
    } else {
      DestroyLast(s, live, m);
    }
  }

  /** A mapping the kernel placed stays if its kind can be reached there, and goes otherwise. */
  lemma PlacedKeeps(s: Memory, live: seq<Mapping>, m: Mapping)
    requires Balanced(s, live + [m]) && ValidMapping(s, m) && m.start >= 0 && m.bytes != 0 && m.address != 0
    requires AtHint(m, m.address)
    ensures Reachable(m.kind, m.address, m.bytes) ==>
              Alive(s, m) && Balanced(s.(outside := s.outside + 1), live + [m])
    ensures !Reachable(m.kind, m.address, m.bytes) ==> Balanced(Destroy(s, m).0, live)
  {
    if !Reachable(m.kind, m.address, m.bytes) {
      DestroyLast(s, live, m);
    }
  }

  lemma MapKeeps(s: Memory, live: seq<Mapping>, m: Mapping, hint: nat, answers: Answers)
    requires Balanced(s, live + [m]) && ValidMapping(s, m) && AtHint(m, hint)
    requires m.start >= 0 && m.bytes != 0 && m.address == 0
    ensures var (out, m', result) := Map(s, m, hint, answers); Settled(out, live, m', result)
  {
    if answers.hinted.result != 0 && hint != 0 {
      GiveLast(s, live, m);
      FinishKeeps(Give(s, m).0, live, Give(s, m).1, hint, answers.chosen);
    } else {
      FinishKeeps(s, live, m, hint, answers.hinted);
    }
  }

  /** A create leaves one more live mapping or, if it fails, the mappings there were. */
  lemma CreateKeeps(s: Memory, live: seq<Mapping>, bytes: nat, kind: nat, answers: Answers)
    requires Balanced(s, live) && kind < KINDS && bytes != 0
    ensures var (out, m, result) := Create(s, bytes, kind, answers); Settled(out, live, m, result)
  {
    if answers.allocation == 0 {
      var m := Mapping(answers.start, bytes, 0, kind, 0, 0);
      var counted := Counted(s, kind, 1, bytes);
      CountKeeps(s, live, m);
      HintKeeps(counted, live, m);
      var (hinted, at, hint) := Hint(counted, m);
      MapKeeps(hinted, live, at, hint, answers);
    }
  }

  // ------------------------------------------------------------------ failing

  /** A state but for the test switch's next address. */
  function ButNext(s: Memory): Memory {
    s.(next := 0)
  }

  lemma MarkThenUnmark(region: seq<bool>, first: nat, count: nat)
    requires FreeRun(region, first, count)
    ensures Marked(Marked(region, first, count, true), first, count, false) == region
  {
  }

  lemma CountThenUncount(s: Memory, kind: nat, bytes: nat)
    requires ValidMemory(s) && kind < KINDS
    ensures Counted(Counted(s, kind, 1, bytes), kind, -1, -(bytes as int)) == s
  {
    assert s.kindCount[kind := s.kindCount[kind] + 1][kind := s.kindCount[kind]] == s.kindCount;
    assert s.kindBytes[kind := s.kindBytes[kind] + bytes][kind := s.kindBytes[kind]] == s.kindBytes;
  }

  /** Counted and hinted, but for what is undone by a destroy. */
  ghost predicate Undoes(was: Memory, s: Memory, m: Mapping) {
    && ValidMemory(was) && ValidMapping(was, m) && m.start >= 0 && m.bytes != 0
    && ButNext(s) == ButNext(Counted(was, m.kind, 1, m.bytes)
                               .(region := if m.granules == 0 then was.region
                                           else Marked(was.region, m.granule, m.granules, true)))
    && (m.granules != 0 ==> FreeRun(was.region, m.granule, m.granules))
  }

  lemma GiveUndoes(was: Memory, s: Memory, m: Mapping)
    requires Undoes(was, s, m)
    ensures ValidMapping(s, m) && Undoes(was, Give(s, m).0, Give(s, m).1)
    ensures Give(s, m).1.granules == 0 && Give(s, m).0.next == s.next
  {
    if m.granules != 0 {
      MarkThenUnmark(was.region, m.granule, m.granules);
    }
  }

  lemma DestroyUndoes(was: Memory, s: Memory, m: Mapping)
    requires Undoes(was, s, m)
    ensures ValidMemory(s) && ValidMapping(s, m) && ButNext(Destroy(s, m).0) == ButNext(was)
    ensures Destroy(s, m).0.next == s.next
  {
    CountThenUncount(was, m.kind, m.bytes);
    if m.granules != 0 {
      MarkThenUnmark(was.region, m.granule, m.granules);
    }
  }

  lemma FinishUndoes(was: Memory, s: Memory, m: Mapping, hint: nat, answer: Mapped)
    requires Undoes(was, s, m)
    ensures ValidMemory(s) && ValidMapping(s, m)
    ensures Finish(s, m, hint, answer).2 != 0 ==>
              ButNext(Finish(s, m, hint, answer).0) == ButNext(was) && Finish(s, m, hint, answer).0.next == s.next
  {
    var placed := answer.result == 0 && answer.address != 0;
    var at := if placed then m.(address := answer.address) else m;
    assert Undoes(was, s, at);
    GiveUndoes(was, s, at);
    DestroyUndoes(was, s, at);
    DestroyUndoes(was, Give(s, at).0, Give(s, at).1);
  }

  lemma MapUndoes(was: Memory, s: Memory, m: Mapping, hint: nat, answers: Answers)
    requires Undoes(was, s, m)
    ensures ValidMemory(s) && ValidMapping(s, m)
    ensures Map(s, m, hint, answers).2 != 0 ==>
              ButNext(Map(s, m, hint, answers).0) == ButNext(was) && Map(s, m, hint, answers).0.next == s.next
  {
    if answers.hinted.result != 0 && hint != 0 {
      GiveUndoes(was, s, m);
      FinishUndoes(was, Give(s, m).0, Give(s, m).1, hint, answers.chosen);
    } else {
      FinishUndoes(was, s, m, hint, answers.hinted);
    }
  }

  lemma HintUndoes(was: Memory, m: Mapping)
    requires ValidMemory(was) && m.kind < KINDS && m.granules == 0 && m.granule == 0
    requires m.start >= 0 && m.bytes != 0
    ensures var (s, m', hint) := Hint(Counted(was, m.kind, 1, m.bytes), m);
            && Undoes(was, s, m')
            && (s.next == was.next <==> m.kind != DEVICE_MEMORY || was.base == 0)
  {
    FitFits(was.region, GranulesOf(m.bytes));
    AlignUpBounds(m.bytes, GRANULE);
  }

  /** A create that fails restores everything; only the test switch's next address moves on, and
      exactly when the failure came after it was asked for. */
  lemma FailedCreateRestores(s: Memory, bytes: nat, kind: nat, answers: Answers)
    requires ValidMemory(s) && kind < KINDS && bytes != 0 && Create(s, bytes, kind, answers).2 != 0
    ensures ButNext(Create(s, bytes, kind, answers).0) == ButNext(s)
    ensures Create(s, bytes, kind, answers).0 == s <==>
            answers.allocation != 0 || kind != DEVICE_MEMORY || s.base == 0
  {
    if answers.allocation == 0 {
      var m := Mapping(answers.start, bytes, 0, kind, 0, 0);
      HintUndoes(s, m);
      var (hinted, at, hint) := Hint(Counted(s, kind, 1, bytes), m);
      MapUndoes(s, hinted, at, hint, answers);
      var out := Create(s, bytes, kind, answers).0;
      assert out == ButNext(out).(next := out.next) && s == ButNext(s).(next := s.next);
    }
  }

  /** Destroying a mapping again changes nothing. */
  lemma DestroyTwice(s: Memory, m: Mapping)
    requires ValidMemory(s) && ValidMapping(s, m)
    ensures var (once, dead) := Destroy(s, m);
            ValidMapping(once, dead) && Destroy(once, dead) == (once, dead)
  {
  }

  // ------------------------------------------------------------------ when a create succeeds

  /** Some run of so many of the region's granules is free. */
  ghost predicate HasRoom(region: seq<bool>, count: nat) {
    exists first: nat :: FreeRun(region, first, count)
  }

  /** A create asks for an address of its own choice. */
  ghost predicate Asks(s: Memory, bytes: nat, kind: nat) {
    kind == DEVICE_MEMORY && (s.base != 0 || HasRoom(s.region, (bytes + GRANULE - 1) / GRANULE))
  }

  /** The map answer a create goes by: the one at its hint, or where the kernel chooses once a hint
      has been refused. */
  ghost function Counting(s: Memory, bytes: nat, kind: nat, answers: Answers): Mapped {
    if answers.hinted.result != 0 && Asks(s, bytes, kind) then answers.chosen else answers.hinted
  }

  predicate Good(answer: Mapped, bytes: nat, kind: nat) {
    answer.result == 0 && answer.address != 0 && Reachable(kind, answer.address, bytes)
  }

  /** The hint is nonzero exactly when one is asked for; it leaves all but granules and the test
      switch's next address alone. */
  lemma HintAsks(s: Memory, m: Mapping)
    requires ValidMemory(s) && m.kind < KINDS && m.granules == 0 && m.granule == 0 && m.bytes != 0
    ensures var (out, at, hint) := Hint(s, m);
            && (hint != 0 <==> Asks(s, m.bytes, m.kind)) && out.outside == s.outside
            && at == m.(granule := at.granule, granules := at.granules)
  {
    var count := GranulesOf(m.bytes);
    IsDivision(m.bytes + GRANULE - 1, GRANULE);
    FitFits(s.region, count);
  }

  lemma FinishExact(s: Memory, m: Mapping, hint: nat, answer: Mapped)
    requires ValidMemory(s) && ValidMapping(s, m) && m.bytes != 0
    ensures var (out, at, result) := Finish(s, m, hint, answer);
            && (result == 0 <==> Good(answer, m.bytes, m.kind))
            && (result == 0 ==>
                  && at == m.(address := answer.address, granules := at.granules)
                  && at.granules == (if answer.address == hint then m.granules else 0)
                  && out.outside == s.outside + if InWindow(answer.address, m.bytes) then 0 else 1)
            && (result != 0 ==>
                  && result == (if answer.result == 0 then OUTSIDE_WINDOW else answer.result)
                  && at.start == -1 && at.address == 0 && at.granules == 0 && out.outside == s.outside)
  {
  }

  lemma MapExact(s: Memory, m: Mapping, hint: nat, answers: Answers)
    requires ValidMemory(s) && ValidMapping(s, m) && m.bytes != 0
    ensures var answer := if answers.hinted.result != 0 && hint != 0 then answers.chosen else answers.hinted;
            var (out, at, result) := Map(s, m, hint, answers);
            && (result == 0 <==> Good(answer, m.bytes, m.kind))
            && (result == 0 ==>
                  && at == m.(address := answer.address, granules := at.granules)
                  && out.outside == s.outside + if InWindow(answer.address, m.bytes) then 0 else 1)
            && (result != 0 ==>
                  && result == (if answer.result == 0 then OUTSIDE_WINDOW else answer.result)
                  && at.start == -1 && at.address == 0 && at.granules == 0 && out.outside == s.outside)
  {
    if answers.hinted.result != 0 && hint != 0 {
      FinishExact(Give(s, m).0, Give(s, m).1, hint, answers.chosen);
    } else {
      FinishExact(s, m, hint, answers.hinted);
    }
  }

  /** A create succeeds exactly when the memory is allocated and the map answer it goes by is a good
      one. Then the mapping is where that answer says, and is counted outside the window exactly when
      it is. Otherwise it returns the kernel's own error, or says that there was none but the address
      was of no use, and holds nothing. */
  lemma CreateExact(s: Memory, bytes: nat, kind: nat, answers: Answers)
    requires ValidMemory(s) && kind < KINDS && bytes != 0
    ensures var (out, m, result) := Create(s, bytes, kind, answers);
            var answer := Counting(s, bytes, kind, answers);
            && (result == 0 <==> answers.allocation == 0 && Good(answer, bytes, kind))
            && (result == 0 ==>
                  && m.start == answers.start && m.bytes == bytes && m.kind == kind && m.address == answer.address
                  && out.outside == s.outside + if InWindow(answer.address, bytes) then 0 else 1)
            && (result != 0 ==>
                  && result == (if answers.allocation != 0 then answers.allocation
                                else if answer.result == 0 then OUTSIDE_WINDOW else answer.result)
                  && m.start == -1 && m.address == 0 && m.granules == 0 && out.outside == s.outside)
  {
    if answers.allocation == 0 {
      var m := Mapping(answers.start, bytes, 0, kind, 0, 0);
      var counted := Counted(s, kind, 1, bytes);
      HintValid(counted, m);
      HintAsks(counted, m);
      var (hinted, at, hint) := Hint(counted, m);
      MapExact(hinted, at, hint, answers);
    }
  }

  /** Under the test switch each create asks for a range of its own: within what its `next` moves
      over, on the granules from the base. */
  lemma HintsAdvance(s: Memory, m: Mapping)
    requires ValidMemory(s) && m.kind == DEVICE_MEMORY && s.base != 0 && m.bytes != 0
    ensures var (out, at, hint) := Hint(s, m);
            && out == s.(next := out.next) && at == m && hint == s.base + s.next
            && s.next + m.bytes <= out.next < s.next + m.bytes + GRANULE
            && Remainder(out.next - s.next, GRANULE) == 0
  {
    AlignUpBounds(m.bytes, GRANULE);
    QuotientOfMultiple(DivRoundUp(m.bytes, GRANULE), 0, GRANULE);
  }

  /** Otherwise it asks for the lowest free run of granules that covers it. */
  lemma HintIsFirstFit(s: Memory, m: Mapping)
    requires ValidMemory(s) && m.kind == DEVICE_MEMORY && s.base == 0 && m.bytes != 0
    requires HasRoom(s.region, (m.bytes + GRANULE - 1) / GRANULE)
    ensures var (out, at, hint) := Hint(s, m);
            && m.bytes <= at.granules * GRANULE < m.bytes + GRANULE
            && FreeRun(s.region, at.granule, at.granules) && hint == REGION + at.granule * GRANULE
            && (forall lower: nat | lower < at.granule :: !FreeRun(s.region, lower, at.granules))
            && out.region == Marked(s.region, at.granule, at.granules, true)
  {
    var count := GranulesOf(m.bytes);
    IsDivision(m.bytes + GRANULE - 1, GRANULE);
    AlignUpBounds(m.bytes, GRANULE);
    FitFits(s.region, count);
  }

  // ------------------------------------------------------------------ every run

  datatype Step =
    | Creating(bytes: nat, kind: nat, answers: Answers)
    | Destroying(which: nat)
    | SettingBase(base: nat)

  /** Valid use: creates ask for bytes of a kind, destroys name a live mapping. */
  predicate Usable(live: seq<Mapping>, step: Step) {
    match step
    case Creating(bytes, kind, _) => bytes != 0 && kind < KINDS
    case Destroying(which) => which < |live|
    case SettingBase(_) => true
  }

  ghost function After(s: Memory, live: seq<Mapping>, step: Step): (Memory, seq<Mapping>)
    requires Consistent(s, live) && Usable(live, step)
  {
    match step
    case Creating(bytes, kind, answers) =>
      var (out, m, result) := Create(s, bytes, kind, answers);
      (out, if result == 0 then live + [m] else live)
    case Destroying(which) => (Destroy(s, live[which]).0, Removed(live, which))
    case SettingBase(base) => (s.(base := base, next := 0, outside := 0), live)
  }

  lemma BaseKeeps(s: Memory, live: seq<Mapping>, base: nat)
    requires Consistent(s, live)
    ensures Consistent(s.(base := base, next := 0, outside := 0), live)
  {
  }

  /** The live mappings are alive in any state with a region of the same size. */
  lemma AliveAfter(s: Memory, live: seq<Mapping>, step: Step)
    requires Consistent(s, live) && Usable(live, step)
    requires step.Creating? ==>
               var (out, m, result) := Create(s, step.bytes, step.kind, step.answers); Settled(out, live, m, result)
    requires step.Destroying? ==> ValidMemory(Destroy(s, live[step.which]).0)
    ensures var (out, now) := After(s, live, step); forall i | 0 <= i < |now| :: Alive(out, now[i])
  {
  }

  lemma AfterKeeps(s: Memory, live: seq<Mapping>, step: Step)
    requires Consistent(s, live) && Usable(live, step)
    ensures var (out, now) := After(s, live, step); Consistent(out, now)
  {
    match step
    case Creating(bytes, kind, answers) =>
      CreateKeeps(s, live, bytes, kind, answers);
      AliveAfter(s, live, step);
    case Destroying(which) =>
      DestroyKeeps(s, live, which);
      AliveAfter(s, live, step);
    case SettingBase(base) => BaseKeeps(s, live, base);
  }

  ghost predicate UsableRun(s: Memory, live: seq<Mapping>, steps: seq<Step>)
    requires Consistent(s, live)
    decreases |steps|
  {
    steps == [] ||
    (Usable(live, steps[0]) &&
     (AfterKeeps(s, live, steps[0]);
      UsableRun(After(s, live, steps[0]).0, After(s, live, steps[0]).1, steps[1..])))
  }

  ghost function Run(s: Memory, live: seq<Mapping>, steps: seq<Step>): (Memory, seq<Mapping>)
    requires Consistent(s, live) && UsableRun(s, live, steps)
    decreases |steps|
  {
    if steps == [] then (s, live)
    else
      AfterKeeps(s, live, steps[0]);
      Run(After(s, live, steps[0]).0, After(s, live, steps[0]).1, steps[1..])
  }

  /** The driver's state when it starts: nothing held, nothing counted. */
  function Zeroed(base: nat, next: nat, outside: nat): Memory {
    var none := [0, 0, 0, 0, 0, 0, 0];
    Memory(seq(64 * REGION_WORDS, _ => false), 0, 0, none, none, base, next, outside)
  }

  /** Where it does not: a create of device memory, under the test switch, that the kernel refuses
      to map. */
  lemma FailedCreateMovesNext()
    ensures var s := Zeroed(0x10_0000_0000, 0, 0);
            var answers := Answers(0, 0, Mapped(-1, 0), Mapped(-1, 0));
            ValidMemory(s) && Create(s, 0x4000, DEVICE_MEMORY, answers).2 != 0 &&
            Create(s, 0x4000, DEVICE_MEMORY, answers).0 != s
  {
    var s := Zeroed(0x10_0000_0000, 0, 0);
    FailedCreateRestores(s, 0x4000, DEVICE_MEMORY, Answers(0, 0, Mapped(-1, 0), Mapped(-1, 0)));
  }

  lemma ZeroedConsistent(base: nat, next: nat, outside: nat)
    ensures Consistent(Zeroed(base, next, outside), [])
  {
  }

  /** Over every run of creates and destroys with any kernel answers: the counters are the live
      mappings' counts and bytes, per kind and in all, and the region is the disjoint union of the
      granules they hold, each lying at its granules' address. */
  lemma {:induction false} RunKeeps(s: Memory, live: seq<Mapping>, steps: seq<Step>)
    requires Consistent(s, live) && UsableRun(s, live, steps)
    ensures var (out, now) := Run(s, live, steps); Consistent(out, now)
    decreases |steps|
  {
    if steps != [] {
      AfterKeeps(s, live, steps[0]);
      RunKeeps(After(s, live, steps[0]).0, After(s, live, steps[0]).1, steps[1..]);
    }
  }

  /** Setting the test switch's base starts over: nothing is counted outside the window, the next
      device memory is asked for at the base itself, and all else is as it was. */
  lemma BaseStartsOver(s: Memory, live: seq<Mapping>, base: nat, m: Mapping)
    requires Consistent(s, live) && m.kind == DEVICE_MEMORY && m.bytes != 0
    ensures var (out, now) := After(s, live, SettingBase(base));
            && now == live && out.outside == 0 && out == s.(base := base, next := out.next, outside := 0)
            && (base != 0 ==> Hint(out, m).2 == base)
  {
  }

  /** The creates of a run that succeed outside the window, since the base was last set. */
  ghost function OutsideSince(s: Memory, live: seq<Mapping>, steps: seq<Step>, before: nat): nat
    requires Consistent(s, live) && UsableRun(s, live, steps)
    decreases |steps|
  {
    if steps == [] then before
    else
      AfterKeeps(s, live, steps[0]);
      var now := match steps[0] {
        case Creating(bytes, kind, answers) =>
          var (_, m, result) := Create(s, bytes, kind, answers);
          before + if result == 0 && !InWindow(m.address, bytes) then 1 else 0
        case Destroying(_) => before
        case SettingBase(_) => 0
      };
      OutsideSince(After(s, live, steps[0]).0, After(s, live, steps[0]).1, steps[1..], now)
  }

  /** Over every run the counter of mappings outside the window is their number. */
  lemma {:induction false} OutsideCounted(s: Memory, live: seq<Mapping>, steps: seq<Step>)
    requires Consistent(s, live) && UsableRun(s, live, steps)
    ensures Run(s, live, steps).0.outside == OutsideSince(s, live, steps, s.outside)
    decreases |steps|
  {
    if steps != [] {
      AfterKeeps(s, live, steps[0]);
      OutsideCounted(After(s, live, steps[0]).0, After(s, live, steps[0]).1, steps[1..]);
      if steps[0].Creating? {
        CreateExact(s, steps[0].bytes, steps[0].kind, steps[0].answers);
      }
    }
  }

  /** Mappings in the region never share an address. */
  lemma RegionMappingsApart(s: Memory, live: seq<Mapping>, i: nat, j: nat)
    requires Consistent(s, live) && i < j < |live| && live[i].granules != 0 && live[j].granules != 0
    ensures var a, b := live[i], live[j];
            a.address + a.bytes <= b.address || b.address + b.bytes <= a.address
  {
    var a, b := live[i], live[j];
    AlignUpBounds(a.bytes, GRANULE);
    AlignUpBounds(b.bytes, GRANULE);
    HoldersApart(s, live, i, j, a.granule);
    HoldersApart(s, live, i, j, b.granule);
  }
}
