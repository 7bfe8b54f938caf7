/**
Every recording runs right. The invariant relates the recorder's fields to the state the GPU is
in after the stream so far; each command keeps it, so it holds of every run.
*/
module RecordingRuns {
  import opened Options
  import opened Streams
  import opened Recordings

  /** The recorder knows the GPU's state. */
  predicate KnowsGpu(r: Recording) {
    var g := GpuAfter(r.trace);
    && r.restartSplits <= Splits(r.trace) && g.restart == (r.restart && r.restartSplits == Splits(r.trace))
    && (!r.rendering || !r.depthBound ==> g.depth == {0})
    && g.unflushed <= Track(r.notes).dirty
  }

  predicate InPass(r: Recording) {
    r.rendering ==> r.attachments <= Track(r.notes).pass
  }

  predicate Invariant(r: Recording) {
    && AllRight(r.trace) && (r.stencilBound ==> r.depthBound)
    && (!r.error ==> KnowsGpu(r) && Tracks(r) && InPass(r))
  }

  // ------------------------------------------------------------------ pieces of a step

  lemma RecordKeeps(r: Recording, what: Work)
    requires Invariant(r) && !r.error
    ensures Invariant(AddRecord(r, what)) && GpuAfter(AddRecord(r, what).trace).unflushed == {}
  {
  }

  lemma {:induction false} RecordsKeep(r: Recording, whats: seq<nat>)
    requires Invariant(r) && !r.error
    ensures Invariant(AddRecords(r, whats))
    decreases |whats|
  {
    if whats != [] {
      RecordKeeps(r, Copy(whats[0]));
      RecordsKeep(AddRecord(r, Copy(whats[0])), whats[1..]);
    }
  }

  lemma BarrierKeeps(r: Recording, fence: bool)
    requires Invariant(r) && !r.error
    ensures Invariant(GpuBarrier(r, fence)) && GpuAfter(GpuBarrier(r, fence).trace).unflushed == {}
  {
    BarrierTracks(r, fence);
    if fence {
    } else {
      RecordKeeps(r, Split);
    }
  }

  /** After the barrier a draw asks for, what it samples is in memory. */
  lemma BarrierSuffices(r: Recording, samples: set<nat>, fence: bool)
    requires Invariant(r) && !r.error
    ensures var out := BarrierIfNeeded(r, samples, fence);
            Invariant(out) && !out.error && GpuAfter(out.trace).unflushed !! samples &&
            out.rendering == r.rendering
  {
    if !(samples !! Dirty(r)) {
      BarrierKeeps(r, fence);
    }
  }

  lemma SwitchKeeps(r: Recording, on: bool)
    requires AllRight(r.trace) && GpuAfter(r.trace).restart == r.restart
    ensures var out := SwitchRestart(r, on);
            AllRight(out.trace) && out.restart == on &&
            GpuAfter(out.trace) == GpuAfter(r.trace).(restart := on)
  {
    if r.restart != on {
    }
  }

  lemma TablesKeep(r: Recording, call: DrawCall)
    requires AllRight(r.trace) && (!r.depthBound ==> GpuAfter(r.trace).depth == {0})
    ensures var out := EmitTables(r, call);
            AllRight(out.trace) &&
            GpuAfter(out.trace) == GpuAfter(r.trace).(depth := {if r.depthBound then call.depthControl else 0})
  {
    if r.depthBound {
    }
  }

  // ------------------------------------------------------------------ the steps

  /** A recording about to draw: the recorder's restart is the GPU's, and the samples are in
      memory. */
  predicate Ready(r: Recording, samples: set<nat>) {
    && Invariant(r) && !r.error && r.rendering && r.restartSplits == Splits(r.trace)
    && GpuAfter(r.trace).unflushed !! samples
  }

  lemma GetsReady(r: Recording, call: DrawCall)
    requires Invariant(r) && !r.error && r.rendering
    ensures Ready(ReadyFor(r, call), call.samples)
  {
    BarrierSuffices(NoteSamples(r, call.samples), call.samples, call.fence);
    RestartReady(BarrierIfNeeded(NoteSamples(r, call.samples), call.samples, call.fence), call.samples);
  }

  lemma RestartReady(r: Recording, samples: set<nat>)
    requires Invariant(r) && !r.error && r.rendering && GpuAfter(r.trace).unflushed !! samples
    ensures Ready(RestartAfterSplits(r), samples)
  {
  }

  lemma StateSet(r: Recording, call: DrawCall)
    requires Ready(r, call.samples)
    ensures var state := StateFor(r, call);
            && AllRight(state.trace)
            && GpuAfter(state.trace) == GpuState(RestartOf(call), {DrawOf(r, call).depth}, GpuAfter(r.trace).unflushed)
            && state == r.(trace := state.trace, restart := RestartOf(call))
  {
    TablesKeep(r, call);
    SwitchKeeps(EmitTables(r, call), RestartOf(call));
  }

  lemma DrawKeeps(r: Recording, call: DrawCall)
    requires Invariant(r) && !r.error && r.rendering && call.outcome.Done?
    ensures Invariant(RecordDraw(r, call))
  {
    GetsReady(r, call);
    DrawOnReady(ReadyFor(r, call), call);
  }

  lemma DrawOnReady(r: Recording, call: DrawCall)
    requires Ready(r, call.samples)
    ensures Invariant(Drawn(r, call))
  {
    var state, draw := StateFor(r, call), DrawOf(r, call);
    StateSet(r, call);
    DrawTracks(Emit(state, DrawPacket(draw)));
  }

  lemma RecordDrawKeeps(r: Recording, call: DrawCall)
    requires Invariant(r) && (r.error || r.rendering)
    ensures Invariant(RecordDraw(r, call))
  {
    if !r.error && call.outcome.Done? {
      DrawKeeps(r, call);
    } else if !r.error && call.outcome.RefusedLate? {
      GetsReady(r, call);
    }
  }

  lemma RecordDispatchKeeps(r: Recording, samples: set<nat>, fence: bool, outcome: Outcome)
    requires Invariant(r)
    ensures Invariant(RecordDispatch(r, samples, fence, outcome))
  {
    if !r.error && (outcome.Done? || outcome.RefusedLate?) {
      BarrierSuffices(NoteSamples(r, samples), samples, fence);
      if outcome.Done? {
        DispatchKeeps(BarrierIfNeeded(NoteSamples(r, samples), samples, fence), samples);
      }
    }
  }

  lemma DispatchKeeps(r: Recording, samples: set<nat>)
    requires Invariant(r) && !r.error && GpuAfter(r.trace).unflushed !! samples
    ensures Invariant(Emit(r, DispatchPacket(samples)))
  {
  }

  lemma BeginKeeps(r: Recording, colours: seq<nat>, depth: Option<nat>, stencil: bool, refused: bool)
    requires Invariant(r) && (r.error || !r.rendering)
    ensures Invariant(BeginRendering(r, colours, depth, stencil, refused))
  {
    if !r.error && !refused {
      BeginTracks(r, colours, depth, stencil);
    }
  }

  lemma EndKeeps(r: Recording, encoded: bool)
    requires Invariant(r)
    ensures Invariant(EndRendering(r, encoded))
  {
    if !r.error {
      EndTracks(r, encoded);
      if r.depthBound && encoded {
      }
    }
  }

  lemma RegisterKeeps(r: Recording, pool: nat)
    requires Invariant(r) && !r.error
    ensures Invariant(Register(r, pool))
  {
    RegisterTracks(r, pool);
  }

  lemma EventKeeps(r: Recording)
    requires Invariant(r) && !r.error
    ensures Invariant(Emit(r, Event))
  {
  }

  lemma StepKeeps(r: Recording, command: Command)
    requires Invariant(r) && Usable(r, command)
    ensures Invariant(Step(r, command))
  {
    match command
    case CmdBeginRendering(colours, depth, stencil, refused) => BeginKeeps(r, colours, depth, stencil, refused);
    case CmdEndRendering(encoded) => EndKeeps(r, encoded);
    case CmdDraw(call) => RecordDrawKeeps(r, call);
    case CmdDispatch(samples, fence, outcome) =>
      RecordDispatchKeeps(r, samples, fence, outcome);
    case CmdQuery(pool) =>
      if !r.error { EventKeeps(r); RegisterKeeps(Emit(r, Event), pool); }
    case CmdQueryCopy(pool, what) =>
      if !r.error { RegisterKeeps(r, pool); RecordKeeps(Register(r, pool), Copy(what)); }
    case CmdCopies(whats, refused) =>
      if !r.error { RecordsKeep(r, whats); }
  }

  lemma {:induction false} RunKeeps(r: Recording, commands: seq<Command>)
    requires Invariant(r) && UsableRun(r, commands)
    ensures Invariant(Run(r, commands))
    decreases |commands|
  {
    if commands != [] {
      StepKeeps(r, commands[0]);
      RunKeeps(Step(r, commands[0]), commands[1..]);
    }
  }

  /** A new recording satisfies it, whatever was recorded before the reset. */
  lemma FreshInvariant(r: Recording)
    requires Fresh(r)
    ensures Invariant(r)
  {
  }

  /** Whatever was recorded, clearing it gives a fresh recording. */
  lemma {:induction false} ClearedFresh(r: Recording, commands: seq<Command>)
    requires Fresh(r) && UsableRun(r, commands)
    ensures Fresh(Cleared(Run(r, commands)))
  {
    FreshInvariant(r);
    RunKeeps(r, commands);
  }

  // ------------------------------------------------------------------ what follows for every recording

  /** A barrier or split lies between every draw into an image and every later draw or dispatch of
      the recording that samples it. */
  lemma {:induction false} RenderThenSample(r: Recording, commands: seq<Command>, i: nat, j: nat, image: nat)
    requires Fresh(r) && UsableRun(r, commands)
    requires var items := Listed(Run(r, commands).trace);
             i < j < |items| && WritesImage(items[i], image) && SamplesImage(items[j], image)
    ensures var items := Listed(Run(r, commands).trace);
            exists k | i < k < j :: Separates(items[k])
  {
    FreshInvariant(r);
    RunKeeps(r, commands);
    SeparatedBeforeSample(Run(r, commands).trace, i, j, image);
  }

  /** The barrier test is exact: at any point of a recording ps5vk_sampled_image finds an image
      rendered exactly when the simple tracker holds it dirty. */
  lemma {:induction false} BarrierTestExact(r: Recording, commands: seq<Command>, image: nat)
    requires Fresh(r) && UsableRun(r, commands) && !Run(r, commands).error
    ensures var end := Run(r, commands);
            (exists k | 0 <= k < |end.targets| :: Since(end, k) && end.targets[k] == image)
            <==> image in Track(end.notes).dirty
  {
    FreshInvariant(r);
    RunKeeps(r, commands);
    DirtyIsSince(Run(r, commands), image);
  }

  /** Stencil state is only ever bound with depth state. */
  lemma {:induction false} StencilNeedsDepth(r: Recording, commands: seq<Command>)
    requires Fresh(r) && UsableRun(r, commands)
    ensures Run(r, commands).stencilBound ==> Run(r, commands).depthBound
  {
    FreshInvariant(r);
    RunKeeps(r, commands);
  }

  // ------------------------------------------------------------------ the end of a command buffer

  lemma EndBufferKeeps(r: Recording, encoded: bool)
    requires Invariant(r) && !r.rendering && !EndCommandBuffer(r, encoded).error
    ensures Invariant(EndCommandBuffer(r, encoded))
    ensures GpuAfter(EndCommandBuffer(r, encoded).trace).restart == false
    ensures GpuAfter(EndCommandBuffer(r, encoded).trace).depth == {0}
  {
    SwitchKeeps(RestartAfterSplits(r), false);
  }

  /** Every command buffer that is recorded to its end leaves the GPU as it found it: restart off,
      depth state 0. */
  lemma {:induction false} EndsAsStarted(r: Recording, commands: seq<Command>, encoded: bool)
    requires Fresh(r) && UsableRun(r, commands) && !Run(r, commands).rendering
    requires !EndCommandBuffer(Run(r, commands), encoded).error
    ensures var end := EndCommandBuffer(Run(r, commands), encoded);
            && AllRight(end.trace)
            && GpuAfter(end.trace).restart == START.restart && GpuAfter(end.trace).depth == START.depth
  {
    FreshInvariant(r);
    RunKeeps(r, commands);
    EndBufferKeeps(Run(r, commands), encoded);
  }
}
