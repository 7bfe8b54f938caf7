/**
What a command buffer records and what the hardware makes of it. GPU packets and CPU records are
kept in two arrays, each record naming how much of the first was there before it; the queue runs
a stream by merging them. The driver counts dwords where this counts packets: records fall only
between packets.
*/
module Streams {
  /** A recorded draw: the restart it needs, the depth state it runs with (0 outside a depth
      rendering), the images its rendering writes and the images it samples. */
  datatype Draw = Draw(id: nat, restart: bool, depth: nat, writes: set<nat>, samples: set<nat>)

  datatype Packet =
    | Event
    | SetRestart(on: bool)
    | SetDepthControl(value: nat)
    | Barrier
    | DrawPacket(draw: Draw)
    | DispatchPacket(samples: set<nat>)

  /** What a CPU record does: nothing but split the stream, or one copy, fill, update, clear or
      event action. */
  datatype Work = Split | Copy(id: nat)

  /** A CPU record and the packets recorded before it. */
  datatype Record = Record(after: nat, what: Work)

  /** One thing a submission does: a packet for the GPU, or a record for the CPU. */
  datatype Item = Gpu(packet: Packet) | Cpu(what: Work)

  // ------------------------------------------------------------------ merging

  /** The records name nondecreasing packet counts, none past n. */
  predicate Ordered(n: nat, records: seq<Record>) {
    records == [] ||
    var last := |records| - 1;
    records[last].after <= n && Ordered(records[last].after, records[..last])
  }

  lemma {:induction false} OrderedMeans(n: nat, records: seq<Record>, i: nat, j: nat)
    requires Ordered(n, records) && i <= j < |records|
    ensures records[i].after <= records[j].after <= n
    decreases |records|
  {
    var last := |records| - 1;
    if i < last {
      OrderedMeans(records[last].after, records[..last], i, if j < last then j else i);
    }
  }

  lemma {:induction false} OrderedWiden(n: nat, m: nat, records: seq<Record>)
    requires Ordered(n, records) && n <= m
    ensures Ordered(m, records)
  {
  }

  /** Packets and records in submission order: each record right after the packets it names. */
  function Merged(packets: seq<Packet>, records: seq<Record>): seq<Item>
    decreases |packets| + |records|
  {
    if records != [] && records[|records| - 1].after >= |packets| then
      Merged(packets, records[..|records| - 1]) + [Cpu(records[|records| - 1].what)]
    else if packets != [] then
      Merged(packets[..|packets| - 1], records) + [Gpu(packets[|packets| - 1])]
    else []
  }

  lemma {:induction false} MergedPacket(packets: seq<Packet>, records: seq<Record>, packet: Packet)
    requires Ordered(|packets|, records)
    ensures Merged(packets + [packet], records) == Merged(packets, records) + [Gpu(packet)]
  {
    assert (packets + [packet])[..|packets|] == packets;
  }

  lemma {:induction false} MergedRecord(packets: seq<Packet>, records: seq<Record>, what: Work)
    requires Ordered(|packets|, records)
    ensures Ordered(|packets|, records + [Record(|packets|, what)])
    ensures Merged(packets, records + [Record(|packets|, what)]) == Merged(packets, records) + [Cpu(what)]
  {
    assert (records + [Record(|packets|, what)])[..|records|] == records;
  }

  function Items(packets: seq<Packet>): seq<Item> {
    seq(|packets|, i requires 0 <= i < |packets| => Gpu(packets[i]))
  }

  lemma LastItem(packets: seq<Packet>, more: seq<Packet>)
    requires more != []
    ensures var rest, last := more[..|more| - 1], more[|more| - 1];
            packets + more == (packets + rest) + [last] && Items(more) == Items(rest) + [Gpu(last)]
  {
  }

  lemma {:induction false} MergedPackets(packets: seq<Packet>, more: seq<Packet>, records: seq<Record>)
    requires Ordered(|packets|, records)
    ensures Merged(packets + more, records) == Merged(packets, records) + Items(more)
    decreases |more|
  {
    if more == [] {
      assert packets + more == packets;
    } else {
      var rest, last := more[..|more| - 1], more[|more| - 1];
      LastItem(packets, more);
      calc {
        Merged(packets + more, records);
        Merged((packets + rest) + [last], records);
        { OrderedWiden(|packets|, |packets + rest|, records); MergedPacket(packets + rest, records, last); }
        Merged(packets + rest, records) + [Gpu(last)];
        { MergedPackets(packets, rest, records); }
        Merged(packets, records) + Items(rest) + [Gpu(last)];
        Merged(packets, records) + Items(more);
      }
    }
  }

  // ------------------------------------------------------------------ recording a stream

  /** What was recorded, in the order it was. */
  datatype Trace = Nothing | Then(before: Trace, item: Item)

  function Listed(t: Trace): seq<Item> {
    match t
    case Nothing => []
    case Then(before, item) => Listed(before) + [item]
  }

  /** The two arrays a command buffer keeps of it (cmd_buffer->words and ->copies). */
  function Packets(t: Trace): seq<Packet> {
    match t
    case Nothing => []
    case Then(before, Gpu(packet)) => Packets(before) + [packet]
    case Then(before, Cpu(_)) => Packets(before)
  }

  function Records(t: Trace): seq<Record> {
    match t
    case Nothing => []
    case Then(before, Gpu(_)) => Records(before)
    case Then(before, Cpu(what)) => Records(before) + [Record(|Packets(before)|, what)]
  }

  function Splits(t: Trace): (n: nat)
    ensures n == |Records(t)|
  {
    match t
    case Nothing => 0
    case Then(before, Gpu(_)) => Splits(before)
    case Then(before, Cpu(_)) => Splits(before) + 1
  }

  /** The arrays lose nothing: the records name nondecreasing counts within the packets, and
      merging at those points gives back the order things were recorded in. */
  lemma {:induction false} MergeRestoresOrder(t: Trace)
    ensures Ordered(|Packets(t)|, Records(t))
    ensures Merged(Packets(t), Records(t)) == Listed(t)
  {
    match t
    case Nothing =>
    case Then(before, Gpu(packet)) =>
      MergeRestoresOrder(before);
      OrderedWiden(|Packets(before)|, |Packets(t)|, Records(before));
      MergedPacket(Packets(before), Records(before), packet);
    case Then(before, Cpu(what)) =>
      MergeRestoresOrder(before);
      MergedRecord(Packets(before), Records(before), what);
  }

  // ------------------------------------------------------------------ running a stream

  function Works(records: seq<Record>): seq<Item> {
    seq(|records|, i requires 0 <= i < |records| => Cpu(records[i].what))
  }

  /** Records that fall after all the packets come after them. */
  lemma {:induction false} MergedRecords(packets: seq<Packet>, records: seq<Record>, more: seq<Record>)
    requires Ordered(|packets|, records) && forall k | 0 <= k < |more| :: more[k].after == |packets|
    ensures Ordered(|packets|, records + more)
    ensures Merged(packets, records + more) == Merged(packets, records) + Works(more)
    decreases |more|
  {
    if more == [] {
      assert records + more == records;
    } else {
      var rest, last := more[..|more| - 1], more[|more| - 1];
      MergedRecords(packets, records, rest);
      MergedRecord(packets, records + rest, last.what);
      assert records + more == (records + rest) + [last];
      assert Works(more) == Works(rest) + [Cpu(last.what)];
    }
  }

  /** The run of records that fall at `end`, in record order. */
  method RunRecords(records: seq<Record>, end: nat, first: nat) returns (ran: seq<Item>, at: nat)
    requires first <= |records|
    ensures first <= at <= |records| && (at < |records| ==> records[at].after != end)
    ensures forall k | first <= k < at :: records[k].after == end
    ensures ran == Works(records[first..at])
  {
    ran, at := [], first;
    while at < |records| && records[at].after == end
      invariant first <= at <= |records| && ran == Works(records[first..at])
      invariant forall k | first <= k < at :: records[k].after == end
    {
      ran := ran + [Cpu(records[at].what)];
      at := at + 1;
    }
  }

  /** ps5vk_queue_run_copy_steps: submit the packets up to the next record, wait, run the records
      that fall there, and go on. The steps taken are the merged stream. */
  method RunSteps(packets: seq<Packet>, records: seq<Record>) returns (ran: seq<Item>)
    requires Ordered(|packets|, records)
    ensures ran == Merged(packets, records)
  {
    var start, at := 0, 0;
    ran := [];
    while at < |records| || start < |packets|
      invariant 0 <= start <= |packets| && 0 <= at <= |records|
      invariant at < |records| ==> start <= records[at].after
      invariant Ordered(start, records[..at])
      invariant ran == Merged(packets[..start], records[..at])
      decreases |records| - at, |packets| - start
    {
      var end := if at < |records| then records[at].after else |packets|;
      var first := at;
      var works;
      works, at := RunRecords(records, end, first);
      OneStep(packets, records, start, end, first, at);
      ran := ran + Items(packets[start..end]) + works;
      start := end;
    }
    assert packets[..start] == packets && records[..at] == records;
  }

  /** The packets up to the next record, then the records that fall there, carry the merge on. */
  lemma {:induction false} OneStep(
    packets: seq<Packet>, records: seq<Record>, start: nat, end: nat, first: nat, at: nat)
    requires Ordered(|packets|, records) && first <= at <= |records| && start <= end
    requires Ordered(start, records[..first])
    requires end == if first < |records| then records[first].after else |packets|
    requires forall k | first <= k < at :: records[k].after == end
    requires at < |records| ==> records[at].after != end
    ensures end <= |packets| && Ordered(end, records[..at]) && (at < |records| ==> end < records[at].after)
    ensures Merged(packets[..end], records[..at]) ==
            Merged(packets[..start], records[..first]) + Items(packets[start..end]) + Works(records[first..at])
  {
    if first < |records| {
      OrderedMeans(|packets|, records, first, if at < |records| then at else first);
    }
    MergedPackets(packets[..start], packets[start..end], records[..first]);
    assert packets[..start] + packets[start..end] == packets[..end];
    OrderedWiden(start, end, records[..first]);
    MergedRecords(packets[..end], records[..first], records[first..at]);
    assert records[..first] + records[first..at] == records[..at];
  }

  /** A command buffer's arrays run in the order they were recorded. */
  method RunRecorded(packets: seq<Packet>, records: seq<Record>, ghost t: Trace) returns (ran: seq<Item>)
    requires packets == Packets(t) && records == Records(t)
    ensures ran == Listed(t)
  {
    MergeRestoresOrder(t);
    ran := RunSteps(packets, records);
  }

  // ------------------------------------------------------------------ the hardware's state

  /** Primitive restart, the values DB_DEPTH_CONTROL may hold, and the images whose rendered
      texels may not be in memory yet. */
  datatype GpuState = GpuState(restart: bool, depth: set<nat>, unflushed: set<nat>)

  const START: GpuState := GpuState(false, {0}, {})

  /** A record ends a submission: the GPU drains, and starts the next one with restart off and
      depth state kept or back to its default. */
  function After(g: GpuState, item: Item): GpuState {
    match item
    case Cpu(_) => GpuState(false, g.depth + {0}, {})
    case Gpu(SetRestart(on)) => g.(restart := on)
    case Gpu(SetDepthControl(value)) => g.(depth := {value})
    case Gpu(Barrier) => g.(unflushed := {})
    case Gpu(DrawPacket(draw)) => g.(unflushed := g.unflushed + draw.writes)
    case Gpu(_) => g
  }

  function GpuAfter(t: Trace): GpuState {
    match t
    case Nothing => START
    case Then(before, item) => After(GpuAfter(before), item)
  }

  /** A draw runs with the restart and depth state it was recorded for, and what a draw or
      dispatch samples is in memory. */
  predicate RunsRight(g: GpuState, item: Item) {
    match item
    case Gpu(DrawPacket(draw)) =>
      g.restart == draw.restart && g.depth == {draw.depth} && g.unflushed !! draw.samples
    case Gpu(DispatchPacket(samples)) => g.unflushed !! samples
    case _ => true
  }

  predicate AllRight(t: Trace) {
    match t
    case Nothing => true
    case Then(before, item) => AllRight(before) && RunsRight(GpuAfter(before), item)
  }

  // ------------------------------------------------------------------ what that says of a stream

  /** What was recorded up to item n. */
  function UpTo(t: Trace, n: nat): (u: Trace)
    requires n <= |Listed(t)|
    ensures Listed(u) == Listed(t)[..n]
  {
    if n == |Listed(t)| then t else UpTo(t.before, n)
  }

  lemma {:induction false} UpToNext(t: Trace, n: nat)
    requires n < |Listed(t)|
    ensures UpTo(t, n + 1) == Then(UpTo(t, n), Listed(t)[n])
  {
    if n + 1 < |Listed(t)| {
      UpToNext(t.before, n);
    }
  }

  lemma {:induction false} RightAt(t: Trace, n: nat)
    requires AllRight(t) && n < |Listed(t)|
    ensures RunsRight(GpuAfter(UpTo(t, n)), Listed(t)[n])
  {
    if n + 1 < |Listed(t)| {
      RightAt(t.before, n);
    }
  }

  predicate Separates(item: Item) {
    item.Cpu? || item == Gpu(Barrier)
  }

  predicate WritesImage(item: Item, image: nat) {
    item.Gpu? && item.packet.DrawPacket? && image in item.packet.draw.writes
  }

  predicate SamplesImage(item: Item, image: nat) {
    match item
    case Gpu(DrawPacket(draw)) => image in draw.samples
    case Gpu(DispatchPacket(samples)) => image in samples
    case _ => false
  }

  /** A write stays unflushed until something separates. */
  lemma {:induction false} WriteStays(t: Trace, i: nat, n: nat, image: nat)
    requires i < n <= |Listed(t)| && WritesImage(Listed(t)[i], image)
    requires forall k | i < k < n :: !Separates(Listed(t)[k])
    ensures image in GpuAfter(UpTo(t, n)).unflushed
    decreases n
  {
    UpToNext(t, n - 1);
    if i < n - 1 {
      WriteStays(t, i, n - 1, image);
    }
  }

  /** In a stream that runs right, a barrier or a split lies between every draw into an image and
      every later draw or dispatch that samples it. */
  lemma {:induction false} SeparatedBeforeSample(t: Trace, i: nat, j: nat, image: nat)
    requires AllRight(t) && i < j < |Listed(t)|
    requires WritesImage(Listed(t)[i], image) && SamplesImage(Listed(t)[j], image)
    ensures exists k | i < k < j :: Separates(Listed(t)[k])
  {
    RightAt(t, j);
    if forall k | i < k < j :: !Separates(Listed(t)[k]) {
      WriteStays(t, i, j, image);
    }
  }
}
