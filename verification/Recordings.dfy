/**
Recording a command buffer: driver/ps5vk_draw.c and driver/ps5vk_cmd_buffer.c as steps on a
value. The recorder tracks render targets to know when a draw needs a GPU barrier, writes the
primitive-restart enable only when it changes, and disables depth state when a depth rendering
ends. Every recording's stream is proved to run right.
*/
module Recordings {
  import opened Options
  import opened Streams

  /** UINT32_MAX: no rendering's targets. */
  const NO_TARGET: nat := 0xffffffff

  /** What the render-target bookkeeping is told, in order. */
  datatype Note = Registered(image: nat) | PassBegan | Drew | Flushed

  datatype Notes = Blank | Noted(before: Notes, note: Note)

  /** The recording: struct ps5vk_cmd_buffer's fields. Its words and copies are the packets and
      records of `trace`; `attachments` are the images the target and depth registers name;
      `notes` is a history the proofs speak of. */
  datatype Recording = Recording(
    trace: Trace, targets: seq<nat>, barrierTargets: nat,
    passFirstTarget: nat, passDrawn: bool, restart: bool, restartSplits: nat,
    depthBound: bool, stencilBound: bool, rendering: bool, attachments: set<nat>,
    fencePatches: nat, samplesEarly: bool, error: bool,
    notes: Notes)

  /** What ps5vk_cmd_buffer_clear_state leaves of a recording, finished or abandoned: it does not
      touch the depth and stencil flags or the registers, which the next rendering sets. */
  function Cleared(r: Recording): Recording {
    Recording(Nothing, [], 0, NO_TARGET, false, false, 0, r.depthBound, r.stencilBound, false, r.attachments,
              0, false, false, Blank)
  }

  /** A new command buffer, or one that was reset. */
  predicate Fresh(r: Recording) {
    r == Cleared(r) && (r.stencilBound ==> r.depthBound)
  }

  // ------------------------------------------------------------------ the recorder's steps

  function Emit(r: Recording, packet: Packet): Recording {
    r.(trace := Then(r.trace, Gpu(packet)))
  }

  function AddRecord(r: Recording, what: Work): Recording {
    r.(trace := Then(r.trace, Cpu(what)))
  }

  function AddRecords(r: Recording, whats: seq<nat>): (out: Recording)
    ensures out == r.(trace := out.trace)
    decreases |whats|
  {
    if whats == [] then r else AddRecords(AddRecord(r, Copy(whats[0])), whats[1..])
  }

  /** util_dynarray_grow(&cmd_buffer->targets). */
  function Register(r: Recording, image: nat): Recording {
    r.(targets := r.targets + [image], notes := Noted(r.notes, Registered(image)))
  }

  function RegisterAll(r: Recording, images: seq<nat>): (out: Recording)
    ensures out == r.(targets := r.targets + images, notes := out.notes)
    decreases |images|
  {
    if images == [] then r else RegisterAll(Register(r, images[0]), images[1..])
  }

  /** The images of targets k and later. */
  function From(targets: seq<nat>, k: nat): set<nat> {
    set i | k <= i < |targets| :: targets[i]
  }

  /** Whether target k was rendered since the last GPU barrier. */
  predicate Since(r: Recording, k: nat) {
    k >= r.barrierTargets || (r.passDrawn && k >= r.passFirstTarget)
  }

  /** The images ps5vk_sampled_image finds rendered since the last GPU barrier. */
  function Dirty(r: Recording): set<nat> {
    From(r.targets, r.barrierTargets) + if r.passDrawn then From(r.targets, r.passFirstTarget) else {}
  }

  lemma DirtyIsSince(r: Recording, image: nat)
    ensures image in Dirty(r) <==> exists k | 0 <= k < |r.targets| :: Since(r, k) && r.targets[k] == image
  {
  }

  /** ps5vk_cmd_buffer_gpu_barrier: without a fence it is a split. */
  function GpuBarrier(r: Recording, fence: bool): Recording {
    if !fence then AddRecord(r, Split)
    else
      Emit(r, Barrier)
        .(barrierTargets := |r.targets|, passDrawn := false, fencePatches := r.fencePatches + 1,
          notes := Noted(r.notes, Flushed))
  }

  function BarrierIfNeeded(r: Recording, samples: set<nat>, fence: bool): Recording {
    if samples !! Dirty(r) then r else GpuBarrier(r, fence)
  }

  /** ps5vk_cmd_buffer_restart_after_splits. */
  function RestartAfterSplits(r: Recording): Recording {
    r.(restart := r.restart && Splits(r.trace) == r.restartSplits, restartSplits := Splits(r.trace))
  }

  function SwitchRestart(r: Recording, on: bool): Recording {
    if r.restart == on then r else Emit(r, SetRestart(on)).(restart := on)
  }

  /** How a draw or dispatch ends: recorded; nothing to do, found before or after its resources
      were looked at; refused before anything was recorded, or once its barrier was. */
  datatype Outcome = Done | Skipped | SkippedLate | Refused | RefusedLate

  /** Sampling before the command buffer's first GPU barrier is noted for the queue. */
  function NoteSamples(r: Recording, samples: set<nat>): Recording {
    r.(samplesEarly := r.samplesEarly || (samples != {} && r.fencePatches == 0))
  }

  /** A draw as its call and bound pipeline give it. */
  datatype DrawCall = DrawCall(
    id: nat, indexed: bool, pipelineRestarts: bool, depthControl: nat, samples: set<nat>,
    fence: bool, outcome: Outcome)

  function RestartOf(call: DrawCall): bool {
    call.indexed && call.pipelineRestarts
  }

  function DrawOf(r: Recording, call: DrawCall): Draw {
    Draw(call.id, RestartOf(call), if r.depthBound then call.depthControl else 0, r.attachments, call.samples)
  }

  /** The register tables: DB_DEPTH_CONTROL is in them exactly in a depth rendering. */
  function EmitTables(r: Recording, call: DrawCall): Recording {
    if r.depthBound then Emit(r, SetDepthControl(call.depthControl)) else r
  }

  /** The barrier a draw needs, and restart as the splits so far left it. */
  function ReadyFor(r: Recording, call: DrawCall): Recording {
    RestartAfterSplits(BarrierIfNeeded(NoteSamples(r, call.samples), call.samples, call.fence))
  }

  /** The state a draw's packets set before the draw itself. */
  function StateFor(r: Recording, call: DrawCall): Recording {
    SwitchRestart(EmitTables(r, call), RestartOf(call))
  }

  function Drawn(r: Recording, call: DrawCall): Recording {
    Emit(StateFor(r, call), DrawPacket(DrawOf(r, call))).(passDrawn := true, notes := Noted(r.notes, Drew))
  }

  /** ps5vk_cmd_draw. */
  function RecordDraw(r: Recording, call: DrawCall): Recording {
    if r.error || call.outcome.Skipped? then r
    else if call.outcome.Refused? then r.(error := true)
    else if call.outcome.SkippedLate? then NoteSamples(r, call.samples)
    else if call.outcome.RefusedLate? then ReadyFor(r, call).(error := true)
    else Drawn(ReadyFor(r, call), call)
  }

  /** ps5vk_dispatch. */
  function RecordDispatch(r: Recording, samples: set<nat>, fence: bool, outcome: Outcome): Recording {
    if r.error || outcome.Skipped? then r
    else if outcome.Refused? then r.(error := true)
    else if outcome.SkippedLate? then NoteSamples(r, samples)
    else
      var ready := BarrierIfNeeded(NoteSamples(r, samples), samples, fence);
      if outcome.RefusedLate? then ready.(error := true)
      else Emit(ready, DispatchPacket(samples))
  }

  function OptionSeq(image: Option<nat>): seq<nat> {
    if image.Some? then [image.value] else []
  }

  /** ps5vk_CmdBeginRendering. A refused rendering may have registered some of its targets. */
  function BeginRendering(r: Recording, colours: seq<nat>, depth: Option<nat>, stencil: bool, refused: bool)
    : Recording
  {
    var out := r.(rendering := false);
    if r.error then out
    else if refused then RegisterAll(out, colours).(error := true)
    else
      var began := out.(notes := Noted(out.notes, PassBegan));
      var registered := RegisterAll(began, colours + OptionSeq(depth));
      registered.(depthBound := depth.Some?, stencilBound := depth.Some? && stencil, rendering := true,
                  passFirstTarget := |r.targets|, passDrawn := false,
                  attachments := Images(colours + OptionSeq(depth)))
  }

  function Images(images: seq<nat>): set<nat> {
    set image | image in images
  }

  /** The depth reset a depth rendering ends with. */
  function ResetDepth(r: Recording, encoded: bool): Recording {
    if !r.depthBound || r.error then r
    else if encoded then Emit(r, SetDepthControl(0))
    else r.(error := true)
  }

  /** ps5vk_CmdEndRendering. */
  function EndRendering(r: Recording, encoded: bool): Recording {
    var reset := ResetDepth(r, encoded);
    reset.(barrierTargets := if r.passDrawn && r.passFirstTarget < r.barrierTargets then r.passFirstTarget
                             else r.barrierTargets,
           passFirstTarget := NO_TARGET, passDrawn := false, depthBound := false, stencilBound := false,
           rendering := false)
  }

  /** ps5vk_EndCommandBuffer: primitive restart is put back to off. */
  function EndCommandBuffer(r: Recording, encoded: bool): Recording {
    if r.error then r
    else
      var ready := RestartAfterSplits(r);
      if ready.restart && !encoded then ready.(error := true) else SwitchRestart(ready, false)
  }

  datatype Command =
    | CmdBeginRendering(colours: seq<nat>, depth: Option<nat>, stencil: bool, refused: bool)
    | CmdEndRendering(encoded: bool)
    | CmdDraw(call: DrawCall)
    | CmdDispatch(samples: set<nat>, fence: bool, outcome: Outcome)
    | CmdQuery(pool: nat)
    | CmdQueryCopy(pool: nat, what: nat)
    | CmdCopies(whats: seq<nat>, refused: bool)

  function Step(r: Recording, command: Command): Recording {
    match command
    case CmdBeginRendering(colours, depth, stencil, refused) => BeginRendering(r, colours, depth, stencil, refused)
    case CmdEndRendering(encoded) => EndRendering(r, encoded)
    case CmdDraw(call) => RecordDraw(r, call)
    case CmdDispatch(samples, fence, outcome) => RecordDispatch(r, samples, fence, outcome)
    case CmdQuery(pool) => if r.error then r else Register(Emit(r, Event), pool)
    case CmdQueryCopy(pool, what) => if r.error then r else AddRecord(Register(r, pool), Copy(what))
    case CmdCopies(whats, refused) => if r.error then r else AddRecords(r, whats).(error := refused)
  }

  /** Valid usage: renderings do not nest, and draws are inside one. */
  predicate Usable(r: Recording, command: Command) {
    match command
    case CmdBeginRendering(_, _, _, _) => r.error || !r.rendering
    case CmdEndRendering(_) => r.error || r.rendering
    case CmdDraw(_) => r.error || r.rendering
    case _ => true
  }

  function Run(r: Recording, commands: seq<Command>): Recording
    decreases |commands|
  {
    if commands == [] then r else Run(Step(r, commands[0]), commands[1..])
  }

  predicate UsableRun(r: Recording, commands: seq<Command>)
    decreases |commands|
  {
    commands == [] || (Usable(r, commands[0]) && UsableRun(Step(r, commands[0]), commands[1..]))
  }

  // ------------------------------------------------------------------ a simple tracker

  /** Render-target tracking without indices: the images to flush, and the current rendering's. */
  datatype Tracker = Tracker(dirty: set<nat>, pass: set<nat>)

  function Track(notes: Notes): Tracker {
    match notes
    case Blank => Tracker({}, {})
    case Noted(before, Registered(image)) =>
      Tracker(Track(before).dirty + {image}, Track(before).pass + {image})
    case Noted(before, PassBegan) => Track(before).(pass := {})
    case Noted(before, Drew) => Track(before).(dirty := Track(before).dirty + Track(before).pass)
    case Noted(before, Flushed) => Track(before).(dirty := {})
  }

  /** The index bookkeeping agrees with the simple tracker. */
  predicate Tracks(r: Recording) {
    && r.barrierTargets <= |r.targets| && Dirty(r) == Track(r.notes).dirty
    && (r.rendering ==>
          r.passFirstTarget <= |r.targets| && From(r.targets, r.passFirstTarget) == Track(r.notes).pass)
    && (!r.rendering ==> !r.passDrawn)
  }

  lemma FromGrows(targets: seq<nat>, k: nat, image: nat)
    requires k <= |targets|
    ensures From(targets + [image], k) == From(targets, k) + {image}
  {
    var all := targets + [image];
    forall x | x in From(targets, k) + {image} ensures x in From(all, k) {
      if x == image {
        assert all[|targets|] == x;
      } else {
        var i :| k <= i < |targets| && targets[i] == x;
        assert all[i] == x;
      }
    }
  }

  lemma FromNone(targets: seq<nat>)
    ensures From(targets, |targets|) == {}
  {
  }

  lemma FromAll(targets: seq<nat>, more: seq<nat>)
    ensures From(targets + more, |targets|) == Images(more)
  {
    var all := targets + more;
    forall x | x in Images(more) ensures x in From(all, |targets|) {
      var i :| 0 <= i < |more| && more[i] == x;
      assert all[|targets| + i] == x;
    }
  }

  // ------------------------------------------------------------------ the tracking is exact

  lemma RegisterTracks(r: Recording, image: nat)
    requires Tracks(r)
    ensures Tracks(Register(r, image))
  {
    FromGrows(r.targets, r.barrierTargets, image);
    if r.rendering {
      FromGrows(r.targets, r.passFirstTarget, image);
    }
  }

  /** A rendering's targets, registered from index `first` on. */
  predicate Registering(r: Recording, first: nat) {
    && r.barrierTargets <= first <= |r.targets| && !r.passDrawn
    && Dirty(r) == Track(r.notes).dirty && From(r.targets, first) == Track(r.notes).pass
  }

  lemma {:induction false} RegisterAllTracks(r: Recording, images: seq<nat>, first: nat)
    requires Registering(r, first)
    ensures Registering(RegisterAll(r, images), first)
    decreases |images|
  {
    if images != [] {
      FromGrows(r.targets, r.barrierTargets, images[0]);
      FromGrows(r.targets, first, images[0]);
      RegisterAllTracks(Register(r, images[0]), images[1..], first);
    }
  }

  lemma BeginTracks(r: Recording, colours: seq<nat>, depth: Option<nat>, stencil: bool)
    requires Tracks(r) && !r.rendering && !r.error
    ensures Tracks(BeginRendering(r, colours, depth, stencil, false))
    ensures Track(BeginRendering(r, colours, depth, stencil, false).notes).pass == Images(colours + OptionSeq(depth))
    ensures Track(r.notes).dirty <= Track(BeginRendering(r, colours, depth, stencil, false).notes).dirty
  {
    var images := colours + OptionSeq(depth);
    var began := r.(rendering := false, notes := Noted(r.notes, PassBegan));
    FromNone(r.targets);
    RegisterAllTracks(began, images, |r.targets|);
    FromAll(r.targets, images);
    FromWider(r.targets, images, r.barrierTargets);
  }

  lemma FromWider(targets: seq<nat>, more: seq<nat>, k: nat)
    ensures From(targets, k) <= From(targets + more, k)
  {
    forall x | x in From(targets, k) ensures x in From(targets + more, k) {
      var i :| k <= i < |targets| && targets[i] == x;
      assert (targets + more)[i] == x;
    }
  }

  lemma FromLower(targets: seq<nat>, k: nat, l: nat)
    requires k <= l
    ensures From(targets, l) <= From(targets, k)
  {
  }

  lemma EndTracks(r: Recording, encoded: bool)
    requires Tracks(r)
    ensures Tracks(EndRendering(r, encoded))
  {
    if r.passDrawn {
      if r.passFirstTarget < r.barrierTargets {
        FromLower(r.targets, r.passFirstTarget, r.barrierTargets);
      } else {
        FromLower(r.targets, r.barrierTargets, r.passFirstTarget);
      }
    }
  }

  lemma BarrierTracks(r: Recording, fence: bool)
    requires Tracks(r)
    ensures Tracks(GpuBarrier(r, fence))
    ensures fence ==> Track(GpuBarrier(r, fence).notes).dirty == {}
    ensures !fence ==> GpuBarrier(r, fence).notes == r.notes
    ensures Track(GpuBarrier(r, fence).notes).pass == Track(r.notes).pass
  {
    FromNone(r.targets);
  }

  lemma DrawTracks(r: Recording)
    requires Tracks(r) && r.rendering
    ensures Tracks(r.(passDrawn := true, notes := Noted(r.notes, Drew)))
  {
  }
}
