/**
A submission of several command buffers: driver/ps5vk_queue.c's stream. The buffers' packets run
as one stream with their records' places shifted, and a GPU barrier is put between two buffers
where the first registered targets and the second samples before a barrier of its own. Restart
and depth state are right in every such stream; sampling is, exactly when no image is left
pending across a buffer without targets.
*/
module Submissions {
  import opened Arithmetic
  import opened Options
  import opened Streams
  import opened Recordings
  import opened RecordingRuns

  // ------------------------------------------------------------------ what a buffer samples early

  predicate Separated(t: Trace) {
    match t
    case Nothing => false
    case Then(before, item) => Separated(before) || Separates(item)
  }

  function SamplesOf(item: Item): set<nat> {
    match item
    case Gpu(DrawPacket(draw)) => draw.samples
    case Gpu(DispatchPacket(samples)) => samples
    case _ => {}
  }

  /** The images sampled before anything separates. */
  function Early(t: Trace): set<nat> {
    match t
    case Nothing => {}
    case Then(before, item) => Early(before) + (if Separated(before) then {} else SamplesOf(item))
  }

  /** The recorder knows whether its buffer samples early. */
  predicate KnowsEarly(r: Recording) {
    && (Early(r.trace) != {} ==> r.samplesEarly)
    && (r.fencePatches > 0 ==> Separated(r.trace))
  }

  predicate EarlyInvariant(r: Recording) {
    !r.error ==> KnowsEarly(r)
  }

  /** Samples noted: if nothing separates yet, samplesEarly is set. */
  predicate NotedFor(r: Recording, samples: set<nat>) {
    KnowsEarly(r) && (samples != {} && !Separated(r.trace) ==> r.samplesEarly)
  }

  lemma NotingSuffices(r: Recording, samples: set<nat>)
    requires KnowsEarly(r)
    ensures NotedFor(NoteSamples(r, samples), samples)
  {
  }

  lemma BarrierKeepsNoted(r: Recording, samples: set<nat>, fence: bool)
    requires NotedFor(r, samples)
    ensures NotedFor(BarrierIfNeeded(r, samples, fence), samples)
  {
    if !(samples !! Dirty(r)) {
      if fence {
        FenceKeepsNoted(r, samples);
      } else {
        SplitKeepsNoted(r, samples);
      }
    }
  }

  lemma FenceKeepsNoted(r: Recording, samples: set<nat>)
    requires NotedFor(r, samples)
    ensures NotedFor(GpuBarrier(r, true), samples)
  {
  }

  lemma SplitKeepsNoted(r: Recording, samples: set<nat>)
    requires NotedFor(r, samples)
    ensures NotedFor(GpuBarrier(r, false), samples)
  {
  }

  lemma StateKeepsNoted(r: Recording, call: DrawCall)
    requires NotedFor(r, call.samples)
    ensures NotedFor(StateFor(r, call), call.samples)
  {
    TablesKeepNoted(r, call);
    SwitchKeepsNoted(EmitTables(r, call), RestartOf(call), call.samples);
  }

  lemma TablesKeepNoted(r: Recording, call: DrawCall)
    requires NotedFor(r, call.samples)
    ensures NotedFor(EmitTables(r, call), call.samples)
  {
  }

  lemma SwitchKeepsNoted(r: Recording, on: bool, samples: set<nat>)
    requires NotedFor(r, samples)
    ensures NotedFor(SwitchRestart(r, on), samples)
  {
  }

  lemma DrawnKnowsEarly(r: Recording, call: DrawCall)
    requires NotedFor(r, call.samples)
    ensures KnowsEarly(Drawn(r, call))
  {
    StateKeepsNoted(r, call);
  }

  lemma ReadyNoted(r: Recording, call: DrawCall)
    requires KnowsEarly(r)
    ensures NotedFor(ReadyFor(r, call), call.samples)
  {
    NotingSuffices(r, call.samples);
    BarrierKeepsNoted(NoteSamples(r, call.samples), call.samples, call.fence);
  }

  lemma DoneKeepsEarly(r: Recording, call: DrawCall)
    requires KnowsEarly(r)
    ensures KnowsEarly(Drawn(ReadyFor(r, call), call))
  {
    ReadyNoted(r, call);
    DrawnKnowsEarly(ReadyFor(r, call), call);
  }

  lemma DrawKeepsEarly(r: Recording, call: DrawCall)
    requires EarlyInvariant(r)
    ensures EarlyInvariant(RecordDraw(r, call))
  {
    var out := RecordDraw(r, call);
    if !r.error && call.outcome.Done? {
      assert out == Drawn(ReadyFor(r, call), call);
      DoneKeepsEarly(r, call);
      assert KnowsEarly(out);
    } else if !r.error && call.outcome.SkippedLate? {
      assert out == NoteSamples(r, call.samples);
      NotingSuffices(r, call.samples);
      assert KnowsEarly(out);
    } else {
      assert out == r || out.error;
    }
  }

  lemma DispatchKeepsEarly(r: Recording, samples: set<nat>, fence: bool, outcome: Outcome)
    requires EarlyInvariant(r)
    ensures EarlyInvariant(RecordDispatch(r, samples, fence, outcome))
  {
    if !r.error && (outcome.Done? || outcome.SkippedLate?) {
      NotingSuffices(r, samples);
      if outcome.Done? {
        BarrierKeepsNoted(NoteSamples(r, samples), samples, fence);
      }
    }
  }

  lemma {:induction false} RecordsKeepEarly(r: Recording, whats: seq<nat>)
    requires KnowsEarly(r)
    ensures KnowsEarly(AddRecords(r, whats))
    decreases |whats|
  {
    if whats != [] {
      RecordsKeepEarly(AddRecord(r, Copy(whats[0])), whats[1..]);
    }
  }

  lemma StepKeepsEarly(r: Recording, command: Command)
    requires EarlyInvariant(r)
    ensures EarlyInvariant(Step(r, command))
  {
    match command
    case CmdDraw(call) => DrawKeepsEarly(r, call);
    case CmdDispatch(samples, fence, outcome) => DispatchKeepsEarly(r, samples, fence, outcome);
    case CmdCopies(whats, _) =>
      if !r.error { RecordsKeepEarly(r, whats); }
    case _ =>
  }

  lemma {:induction false} RunKeepsEarly(r: Recording, commands: seq<Command>)
    requires EarlyInvariant(r)
    ensures EarlyInvariant(Run(r, commands))
    decreases |commands|
  {
    if commands != [] {
      StepKeepsEarly(r, commands[0]);
      RunKeepsEarly(Step(r, commands[0]), commands[1..]);
    }
  }

  // ------------------------------------------------------------------ finished buffers

  /** A command buffer recorded to its end, as vkQueueSubmit takes it. */
  predicate Complete(r: Recording) {
    && AllRight(r.trace) && KnowsEarly(r)
    && GpuAfter(r.trace).restart == START.restart && GpuAfter(r.trace).depth == START.depth
    && (GpuAfter(r.trace).unflushed != {} ==> r.targets != [])
  }

  lemma {:induction false} RecordedComplete(r: Recording, commands: seq<Command>, encoded: bool)
    requires Fresh(r) && UsableRun(r, commands) && !Run(r, commands).rendering
    requires !EndCommandBuffer(Run(r, commands), encoded).error
    ensures Complete(EndCommandBuffer(Run(r, commands), encoded))
  {
    FreshInvariant(r);
    RunKeeps(r, commands);
    RunKeepsEarly(r, commands);
    EndBufferKeeps(Run(r, commands), encoded);
    EndKnowsEarly(Run(r, commands), encoded);
  }

  lemma EndKnowsEarly(r: Recording, encoded: bool)
    requires KnowsEarly(r) && !r.error
    ensures KnowsEarly(EndCommandBuffer(r, encoded))
  {
    SwitchKeepsNoted(RestartAfterSplits(r), false, {});
  }

  // ------------------------------------------------------------------ the submission's stream

  function Join(t: Trace, u: Trace): Trace {
    match u
    case Nothing => t
    case Then(before, item) => Then(Join(t, before), item)
  }

  /** The queue puts a barrier after buffer i. */
  predicate BarrierAfter(buffers: seq<Recording>, i: nat, fence: bool) {
    fence && i + 1 < |buffers| && buffers[i + 1].samplesEarly && buffers[i].targets != []
  }

  /** What the first n buffers become. */
  function Joined(buffers: seq<Recording>, n: nat, fence: bool): Trace
    requires n <= |buffers|
  {
    if n == 0 then Nothing
    else
      var t := Join(Joined(buffers, n - 1, fence), buffers[n - 1].trace);
      if BarrierAfter(buffers, n - 1, fence) then Then(t, Gpu(Barrier)) else t
  }

  function Shifted(records: seq<Record>, offset: nat): seq<Record> {
    seq(|records|, i requires 0 <= i < |records| => Record(offset + records[i].after, records[i].what))
  }

  lemma {:induction false} JoinArrays(t: Trace, u: Trace)
    ensures Packets(Join(t, u)) == Packets(t) + Packets(u)
    ensures Records(Join(t, u)) == Records(t) + Shifted(Records(u), |Packets(t)|)
  {
    match u
    case Nothing =>
    case Then(before, Gpu(_)) => JoinArrays(t, before);
    case Then(before, Cpu(what)) =>
      JoinArrays(t, before);
      assert Shifted(Records(u), |Packets(t)|) ==
             Shifted(Records(before), |Packets(t)|) + [Record(|Packets(t)| + |Packets(before)|, what)];
  }

  /** The offsets of one buffer's records in the stream. */
  method CollectSplits(records: seq<Record>, count: nat, base: nat) returns (splits: seq<Record>)
    requires Ordered(count, records)
    ensures splits == Shifted(records, base)
  {
    splits := [];
    for i := 0 to |records|
      invariant splits == Shifted(records[..i], base)
    {
      OrderedMeans(count, records, i, i);
      splits := splits + [Record(base + Min(records[i].after, count), records[i].what)];
    }
    assert records[..|records|] == records;
  }

  /** ps5vk_queue_run's loop over the command buffers: the stream and the places of its records. */
  method Assemble(buffers: seq<Recording>, fence: bool) returns (packets: seq<Packet>, records: seq<Record>)
    ensures packets == Packets(Joined(buffers, |buffers|, fence))
    ensures records == Records(Joined(buffers, |buffers|, fence))
  {
    packets, records := [], [];
    for i := 0 to |buffers|
      invariant packets == Packets(Joined(buffers, i, fence))
      invariant records == Records(Joined(buffers, i, fence))
    {
      var words, copies := Packets(buffers[i].trace), Records(buffers[i].trace);
      MergeRestoresOrder(buffers[i].trace);
      var splits := CollectSplits(copies, |words|, |packets|);
      JoinArrays(Joined(buffers, i, fence), buffers[i].trace);
      packets, records := packets + words, records + splits;
      if BarrierAfter(buffers, i, fence) {
        packets := packets + [Barrier];
      }
    }
  }

  /** A submission runs its buffers' items in the order they were recorded, buffer by buffer. */
  method Submit(buffers: seq<Recording>, fence: bool) returns (ran: seq<Item>)
    ensures ran == Listed(Joined(buffers, |buffers|, fence))
  {
    var packets, records := Assemble(buffers, fence);
    ran := RunRecorded(packets, records, Joined(buffers, |buffers|, fence));
  }

  // ------------------------------------------------------------------ state across buffers

  predicate StateRight(g: GpuState, item: Item) {
    item.Gpu? && item.packet.DrawPacket? ==>
      g.restart == item.packet.draw.restart && g.depth == {item.packet.draw.depth}
  }

  predicate AllStateRight(t: Trace) {
    match t
    case Nothing => true
    case Then(before, item) => AllStateRight(before) && StateRight(GpuAfter(before), item)
  }

  lemma {:induction false} JoinState(t: Trace, u: Trace)
    requires AllStateRight(t) && AllRight(u)
    requires GpuAfter(t).restart == START.restart && GpuAfter(t).depth == START.depth
    ensures AllStateRight(Join(t, u))
    ensures GpuAfter(Join(t, u)).restart == GpuAfter(u).restart
    ensures GpuAfter(Join(t, u)).depth == GpuAfter(u).depth
  {
    match u
    case Nothing =>
    case Then(before, item) => JoinState(t, before);
  }

  ghost predicate AllComplete(buffers: seq<Recording>) {
    forall i | 0 <= i < |buffers| :: Complete(buffers[i])
  }

  /** In a submission of any command buffers, every draw runs with its own restart and depth
      state. */
  lemma {:induction false} SubmissionState(buffers: seq<Recording>, n: nat, fence: bool)
    requires AllComplete(buffers) && n <= |buffers|
    ensures var t := Joined(buffers, n, fence);
            AllStateRight(t) && GpuAfter(t).restart == START.restart && GpuAfter(t).depth == START.depth
  {
    if n > 0 {
      SubmissionState(buffers, n - 1, fence);
      JoinState(Joined(buffers, n - 1, fence), buffers[n - 1].trace);
    }
  }

  // ------------------------------------------------------------------ sampling across buffers

  predicate SamplesRight(g: GpuState, item: Item) {
    g.unflushed !! SamplesOf(item)
  }

  predicate AllSamplesRight(t: Trace) {
    match t
    case Nothing => true
    case Then(before, item) => AllSamplesRight(before) && SamplesRight(GpuAfter(before), item)
  }

  /** What is unflushed after a second stream, and when its samples are right. */
  lemma {:induction false} JoinSamples(t: Trace, u: Trace)
    requires AllRight(u)
    ensures GpuAfter(Join(t, u)).unflushed ==
            GpuAfter(u).unflushed + (if Separated(u) then {} else GpuAfter(t).unflushed)
    ensures AllSamplesRight(Join(t, u)) <==> AllSamplesRight(t) && GpuAfter(t).unflushed !! Early(u)
  {
    match u
    case Nothing =>
    case Then(before, item) => JoinSamples(t, before);
  }

  /** The images still to be flushed when buffer n starts, from each buffer's own end. */
  function Pending(buffers: seq<Recording>, n: nat, fence: bool): set<nat>
    requires n <= |buffers|
  {
    if n == 0 || BarrierAfter(buffers, n - 1, fence) then {}
    else
      GpuAfter(buffers[n - 1].trace).unflushed +
      (if Separated(buffers[n - 1].trace) then {} else Pending(buffers, n - 1, fence))
  }

  /** What buffer i samples early is in memory when it starts. */
  predicate EarlyFlushed(buffers: seq<Recording>, i: nat, fence: bool)
    requires i < |buffers|
  {
    Pending(buffers, i, fence) !! Early(buffers[i].trace)
  }

  /** No buffer samples early an image left pending across a buffer without targets. */
  ghost predicate NoneLeftPending(buffers: seq<Recording>, n: nat, fence: bool)
    requires n <= |buffers|
  {
    forall i | 0 < i < n :: buffers[i - 1].targets == [] || !fence ==> EarlyFlushed(buffers, i, fence)
  }

  lemma {:induction false} PendingIsUnflushed(buffers: seq<Recording>, n: nat, fence: bool)
    requires AllComplete(buffers) && n <= |buffers|
    ensures GpuAfter(Joined(buffers, n, fence)).unflushed == Pending(buffers, n, fence)
  {
    if n > 0 {
      PendingIsUnflushed(buffers, n - 1, fence);
      JoinSamples(Joined(buffers, n - 1, fence), buffers[n - 1].trace);
    }
  }

  /** After a buffer with targets, nothing an early sampler needs is pending. */
  lemma TargetsAreFlushed(buffers: seq<Recording>, i: nat)
    requires AllComplete(buffers) && 0 < i < |buffers| && buffers[i - 1].targets != []
    ensures EarlyFlushed(buffers, i, true)
  {
    assert Complete(buffers[i]);
  }

  lemma LastBuffer(buffers: seq<Recording>, n: nat, fence: bool)
    requires AllComplete(buffers) && n < |buffers|
    ensures AllSamplesRight(Joined(buffers, n + 1, fence)) <==>
            AllSamplesRight(Joined(buffers, n, fence)) && EarlyFlushed(buffers, n, fence)
  {
    PendingIsUnflushed(buffers, n, fence);
    JoinSamples(Joined(buffers, n, fence), buffers[n].trace);
  }

  lemma {:induction false} SamplesUpTo(buffers: seq<Recording>, n: nat, fence: bool)
    requires AllComplete(buffers) && n <= |buffers|
    ensures AllSamplesRight(Joined(buffers, n, fence)) <==>
            forall i | 0 <= i < n :: EarlyFlushed(buffers, i, fence)
  {
    if n > 0 {
      SamplesUpTo(buffers, n - 1, fence);
      LastBuffer(buffers, n - 1, fence);
    }
  }

  /** What a submission samples is in memory exactly when no image is left pending across a buffer
      without targets. */
  lemma {:induction false} SubmissionSamplesExact(buffers: seq<Recording>, fence: bool)
    requires AllComplete(buffers)
    ensures AllSamplesRight(Joined(buffers, |buffers|, fence)) <==> NoneLeftPending(buffers, |buffers|, fence)
  {
    SamplesUpTo(buffers, |buffers|, fence);
    forall i | 0 < i < |buffers| && buffers[i - 1].targets != [] && fence
      ensures EarlyFlushed(buffers, i, fence)
    {
      TargetsAreFlushed(buffers, i);
    }
  }

  /** Buffer k lets through what was pending before it. */
  predicate Passes(buffers: seq<Recording>, k: nat, fence: bool)
    requires k < |buffers|
  {
    !Separated(buffers[k].trace) && !BarrierAfter(buffers, k, fence)
  }

  /** Buffer j leaves the image unflushed, the queue puts no barrier after j, and nothing between j
      and i separates. */
  ghost predicate LeavesPending(buffers: seq<Recording>, j: nat, i: nat, image: nat, fence: bool)
    requires j < i <= |buffers|
  {
    && image in GpuAfter(buffers[j].trace).unflushed && !BarrierAfter(buffers, j, fence)
    && forall k | j < k < i :: Passes(buffers, k, fence)
  }

  lemma {:induction false} PendingUnrolled(buffers: seq<Recording>, i: nat, image: nat, fence: bool)
    requires i <= |buffers|
    ensures image in Pending(buffers, i, fence) <==>
            exists j | 0 <= j < i :: LeavesPending(buffers, j, i, image, fence)
  {
    if i > 0 {
      PendingUnrolled(buffers, i - 1, image, fence);
      if image in Pending(buffers, i, fence) {
        if image in GpuAfter(buffers[i - 1].trace).unflushed {
          assert LeavesPending(buffers, i - 1, i, image, fence);
        } else {
          var j :| 0 <= j < i - 1 && LeavesPending(buffers, j, i - 1, image, fence);
          assert Passes(buffers, i - 1, fence);
          assert LeavesPending(buffers, j, i, image, fence);
        }
      }
      if j :| 0 <= j < i && LeavesPending(buffers, j, i, image, fence) {
        if j < i - 1 {
          assert Passes(buffers, i - 1, fence);
          assert LeavesPending(buffers, j, i - 1, image, fence);
        }
      }
    }
  }

  /** The same, buffer by buffer: no buffer samples early what an earlier one leaves unflushed with
      no barrier after it and nothing between the two that separates. */
  lemma {:induction false} SubmissionSamplesUnrolled(buffers: seq<Recording>, fence: bool)
    requires AllComplete(buffers)
    ensures AllSamplesRight(Joined(buffers, |buffers|, fence)) <==>
            forall j, i, image | 0 <= j < i < |buffers| && LeavesPending(buffers, j, i, image, fence) ::
              image !in Early(buffers[i].trace)
  {
    SamplesUpTo(buffers, |buffers|, fence);
    if AllSamplesRight(Joined(buffers, |buffers|, fence)) {
      forall j, i, image | 0 <= j < i < |buffers| && LeavesPending(buffers, j, i, image, fence)
        ensures image !in Early(buffers[i].trace)
      {
        assert EarlyFlushed(buffers, i, fence);
        PendingUnrolled(buffers, i, image, fence);
      }
    } else {
      var i :| 0 <= i < |buffers| && !EarlyFlushed(buffers, i, fence);
      var image :| image in Pending(buffers, i, fence) && image in Early(buffers[i].trace);
      PendingUnrolled(buffers, i, image, fence);
    }
  }

  // ------------------------------------------------------------------ three buffers that do not

  const NEW: Recording :=
    Recording(Nothing, [], 0, NO_TARGET, false, false, 0, false, false, false, {}, 0, false, false, Blank)

  /** Renders image 1. */
  function RenderOne(): Recording {
    var began := BeginRendering(NEW, [1], None, false, false);
    var drawn := RecordDraw(began, DrawCall(0, false, false, 0, {}, true, Done));
    EndCommandBuffer(EndRendering(drawn, true), true)
  }

  /** Samples image 1. */
  function SampleOne(): Recording {
    EndCommandBuffer(RecordDispatch(NEW, {1}, true, Done), true)
  }

  lemma RendersOne()
    ensures Complete(RenderOne()) && RenderOne().targets == [1]
    ensures GpuAfter(RenderOne().trace).unflushed == {1}
  {
    var began := BeginRendering(NEW, [1], None, false, false);
    assert began.targets == [1] && began.attachments == {1};
    var call := DrawCall(0, false, false, 0, {}, true, Done);
    var drawn := RecordDraw(began, call);
    assert drawn.trace == Then(Nothing, Gpu(DrawPacket(Draw(0, false, 0, {1}, {}))));
  }

  lemma SamplesOne()
    ensures Complete(SampleOne()) && SampleOne().samplesEarly && Early(SampleOne().trace) == {1}
  {
    assert SampleOne().trace == Then(Nothing, Gpu(DispatchPacket({1})));
  }

  /** A buffer that records nothing between them, and the sample runs before the image is in
      memory. */
  lemma GapLosesBarrier()
    ensures !AllSamplesRight(Joined([RenderOne(), NEW, SampleOne()], 3, true))
  {
    RendersOne();
    SamplesOne();
    assert Complete(NEW);
    GapPending(RenderOne(), NEW, SampleOne());
  }

  lemma GapPending(a: Recording, b: Recording, c: Recording)
    requires Complete(a) && Complete(b) && Complete(c)
    requires GpuAfter(a.trace).unflushed == {1} && b.trace == Nothing && b.targets == [] && !b.samplesEarly
    requires Early(c.trace) == {1}
    ensures !AllSamplesRight(Joined([a, b, c], 3, true))
  {
    var buffers := [a, b, c];
    assert Pending(buffers, 1, true) == {1};
    assert Pending(buffers, 2, true) == {1};
    SamplesUpTo(buffers, 3, true);
    assert !EarlyFlushed(buffers, 2, true);
  }
}
