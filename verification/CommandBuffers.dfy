/**
struct ps5vk_cmd_buffer: the recorder itself, its fields updated in place as the commands of
driver/ps5vk_draw.c and driver/ps5vk_cmd_buffer.c update them. Each method is the step of the
same name on the value the fields hold.
*/
module CommandBuffers {
  import opened Options
  import opened Streams
  import Spec = Recordings

  /** Which targets the last GPU barrier covers, and the active rendering's. */
  datatype Tracking = Tracking(barrierTargets: nat, passFirstTarget: nat, passDrawn: bool)

  /** The restart enable last written, and the records made by then. */
  datatype Restart = Restart(on: bool, splits: nat)

  /** The active rendering's attachments. */
  datatype Pass = Pass(rendering: bool, depthBound: bool, stencilBound: bool, attachments: set<nat>)

  /** The GPU barriers recorded, and whether an image was sampled before the first. */
  datatype Fences = Fences(patches: nat, samplesEarly: bool)

  class CommandBuffer {
    var words: seq<Packet>
    var copies: seq<Record>
    var targets: seq<nat>
    var tracking: Tracking
    var restart: Restart
    var pass: Pass
    var fences: Fences
    var error: bool
    ghost var trace: Trace
    ghost var notes: Spec.Notes

    /** The arrays are those of what was recorded. */
    ghost predicate Valid()
      reads this
    {
      words == Packets(trace) && copies == Records(trace)
    }

    ghost function View(): Spec.Recording
      reads this
    {
      Spec.Recording(trace, targets, tracking.barrierTargets, tracking.passFirstTarget, tracking.passDrawn,
                     restart.on, restart.splits, pass.depthBound, pass.stencilBound, pass.rendering,
                     pass.attachments, fences.patches, fences.samplesEarly, error, notes)
    }

    /** ps5vk_cmd_buffer_create. */
    constructor ()
      ensures Valid() && Spec.Fresh(View())
    {
      words, copies, targets := [], [], [];
      tracking := Tracking(0, Spec.NO_TARGET, false);
      restart, fences := Restart(false, 0), Fences(0, false);
      pass := Pass(false, false, false, {});
      error := false;
      trace, notes := Nothing, Spec.Blank;
    }

    /** ps5vk_cmd_buffer_reset's clear_state. */
    method Reset()
      modifies this
      ensures Valid() && View() == Spec.Cleared(old(View()))
    {
      words, copies, targets := [], [], [];
      tracking := Tracking(0, Spec.NO_TARGET, false);
      restart, fences := Restart(false, 0), Fences(0, false);
      pass := pass.(rendering := false);
      error := false;
      trace, notes := Nothing, Spec.Blank;
    }

    /** util_dynarray_grow(&cmd_buffer->words) and the copy of a packet into it. */
    method Encode(packet: Packet)
      requires Valid()
      modifies this`words, this`trace
      ensures Valid() && View() == Spec.Emit(old(View()), packet)
    {
      words := words + [packet];
      trace := Then(trace, Gpu(packet));
    }

    /** A record falls where the words have reached (ps5vk_cmd_buffer_split and every copy,
        fill, update, clear and event). */
    method AddRecord(what: Work)
      requires Valid()
      modifies this`copies, this`trace
      ensures Valid() && View() == Spec.AddRecord(old(View()), what)
    {
      copies := copies + [Record(|words|, what)];
      trace := Then(trace, Cpu(what));
    }

    /** The same, at a place taken earlier. */
    method AddRecordAt(place: nat, what: Work)
      requires Valid() && place == |words|
      modifies this`copies, this`trace
      ensures Valid() && View() == Spec.AddRecord(old(View()), what)
    {
      copies := copies + [Record(place, what)];
      trace := Then(trace, Cpu(what));
    }

    /** The records of one copy command: the place is taken once, before the loop over its
        regions. */
    method AddRecords(whats: seq<nat>)
      requires Valid()
      modifies this`copies, this`trace
      ensures Valid() && View() == Spec.AddRecords(old(View()), whats)
    {
      var afterWords := |words|;
      for i := 0 to |whats|
        invariant Valid() && View() == old(View()).(trace := trace)
        invariant Spec.AddRecords(View(), whats[i..]) == Spec.AddRecords(old(View()), whats)
      {
        AddRecordAt(afterWords, Copy(whats[i]));
        assert whats[i..][0] == whats[i] && whats[i..][1..] == whats[i + 1..];
      }
      assert whats[|whats|..] == [];
    }

    method CmdCopies(whats: seq<nat>, refused: bool)
      requires Valid()
      modifies this`copies, this`trace, this`error
      ensures Valid() && View() == Spec.Step(old(View()), Spec.CmdCopies(whats, refused))
    {
      if error {
        return;
      }
      AddRecords(whats);
      error := refused;
    }

    method RegisterTarget(image: nat)
      requires Valid()
      modifies this`targets, this`notes
      ensures Valid() && View() == Spec.Register(old(View()), image)
    {
      targets := targets + [image];
      notes := Spec.Noted(notes, Spec.Registered(image));
    }

    /** The images rendered since the last GPU barrier. */
    ghost function Dirty(): (dirty: set<nat>)
      reads this`targets, this`tracking
    {
      Spec.From(targets, tracking.barrierTargets) +
      if tracking.passDrawn then Spec.From(targets, tracking.passFirstTarget) else {}
    }

    /** ps5vk_sampled_image's test: whether the image was rendered since the last GPU barrier. */
    method RenderedHere(image: nat) returns (found: bool)
      ensures found <==> image in Dirty()
    {
      found := false;
      for index := 0 to |targets|
        invariant found <==> exists k | 0 <= k < index :: Spec.Since(View(), k) && targets[k] == image
      {
        var since := index >= tracking.barrierTargets || (tracking.passDrawn && index >= tracking.passFirstTarget);
        if since && targets[index] == image {
          found := true;
        }
      }
      Spec.DirtyIsSince(View(), image);
    }

    /** The sampled images of a draw or dispatch, one after the other. */
    method SampleImages(images: seq<nat>) returns (barrier: bool)
      modifies this`fences
      ensures fences.patches == old(fences).patches
      ensures fences.samplesEarly == (old(fences).samplesEarly || (images != [] && fences.patches == 0))
      ensures barrier <==> exists k | 0 <= k < |images| :: images[k] in Dirty()
    {
      barrier := false;
      for i := 0 to |images|
        invariant fences.patches == old(fences).patches
        invariant fences.samplesEarly == (old(fences).samplesEarly || (i > 0 && fences.patches == 0))
        invariant barrier <==> exists k | 0 <= k < i :: images[k] in Dirty()
      {
        if fences.patches == 0 {
          fences := fences.(samplesEarly := true);
        }
        var found := RenderedHere(images[i]);
        barrier := barrier || found;
      }
    }

    /** Which is the recorder's note, and its barrier test. */
    method TestBarrier(images: seq<nat>) returns (barrier: bool)
      requires Valid()
      modifies this`fences
      ensures Valid() && View() == Spec.NoteSamples(old(View()), Spec.Images(images))
      ensures barrier <==> !(Spec.Images(images) !! Spec.Dirty(View()))
    {
      barrier := SampleImages(images);
      SomeDirty(images, Dirty());
      NoImages(images);
    }

    /** ps5vk_cmd_buffer_gpu_barrier. */
    method GpuBarrier(fence: bool)
      requires Valid()
      modifies this
      ensures Valid() && View() == Spec.GpuBarrier(old(View()), fence)
    {
      if !fence {
        AddRecord(Split);
        return;
      }
      Encode(Barrier);
      fences := fences.(patches := fences.patches + 1);
      tracking := tracking.(barrierTargets := |targets|, passDrawn := false);
      notes := Spec.Noted(notes, Spec.Flushed);
    }

    /** ps5vk_cmd_buffer_restart_after_splits. */
    method RestartAfterSplits()
      requires Valid()
      modifies this`restart
      ensures Valid() && View() == Spec.RestartAfterSplits(old(View()))
    {
      var splits := |copies|;
      if splits != restart.splits {
        restart := Restart(false, splits);
      }
    }

    /** The restart enable, written only when it changes. */
    method SwitchRestart(on: bool)
      requires Valid()
      modifies this`words, this`trace, this`restart
      ensures Valid() && View() == Spec.SwitchRestart(old(View()), on)
    {
      if restart.on != on {
        Encode(SetRestart(on));
        restart := restart.(on := on);
      }
    }

    /** ps5vk_cmd_draw, from the sampled images on. */
    method PrepareDraw(call: Spec.DrawCall, images: seq<nat>)
      requires Valid() && Spec.Images(images) == call.samples
      modifies this
      ensures Valid() && View() == Spec.ReadyFor(old(View()), call)
    {
      var colourBarrier := TestBarrier(images);
      if colourBarrier {
        GpuBarrier(call.fence);
      }
      RestartAfterSplits();
    }

    /** The state a draw's packets set before the draw. */
    method EncodeState(call: Spec.DrawCall, restarts: bool)
      requires Valid() && restarts == Spec.RestartOf(call)
      modifies this`words, this`trace, this`restart
      ensures Valid() && View() == Spec.StateFor(old(View()), call)
    {
      if pass.depthBound {
        Encode(SetDepthControl(call.depthControl));
      }
      SwitchRestart(restarts);
    }

    /** The draw's packet, and what it notes. */
    method EncodeDrawPacket(draw: Draw)
      requires Valid()
      modifies this`words, this`trace, this`tracking, this`notes
      ensures Valid()
      ensures View() == Spec.Emit(old(View()), DrawPacket(draw))
                            .(passDrawn := true, notes := Spec.Noted(old(notes), Spec.Drew))
    {
      Encode(DrawPacket(draw));
      tracking := tracking.(passDrawn := true);
      notes := Spec.Noted(notes, Spec.Drew);
    }

    method EncodeDraw(call: Spec.DrawCall)
      requires Valid()
      modifies this`words, this`trace, this`restart, this`tracking, this`notes
      ensures Valid() && View() == Spec.Drawn(old(View()), call)
    {
      var restarts := call.indexed && call.pipelineRestarts;
      var depth := if pass.depthBound then call.depthControl else 0;
      EncodeState(call, restarts);
      EncodeDrawPacket(Draw(call.id, restarts, depth, pass.attachments, call.samples));
    }

    /** ps5vk_cmd_draw. */
    method CmdDraw(call: Spec.DrawCall, images: seq<nat>)
      requires Valid() && Spec.Images(images) == call.samples
      modifies this
      ensures Valid() && View() == Spec.RecordDraw(old(View()), call)
    {
      if error || call.outcome.Skipped? {
        return;
      }
      if call.outcome.Refused? {
        error := true;
        return;
      }
      if call.outcome.SkippedLate? {
        var _ := TestBarrier(images);
        return;
      }
      PrepareDraw(call, images);
      if call.outcome.RefusedLate? {
        error := true;
        return;
      }
      EncodeDraw(call);
    }

    /** ps5vk_dispatch. */
    method CmdDispatch(samples: set<nat>, fence: bool, outcome: Spec.Outcome, images: seq<nat>)
      requires Valid() && Spec.Images(images) == samples
      modifies this
      ensures Valid() && View() == Spec.RecordDispatch(old(View()), samples, fence, outcome)
    {
      if error || outcome.Skipped? {
        return;
      }
      if outcome.Refused? {
        error := true;
        return;
      }
      var colourBarrier := TestBarrier(images);
      if outcome.SkippedLate? {
        return;
      }
      if colourBarrier {
        GpuBarrier(fence);
      }
      if outcome.RefusedLate? {
        error := true;
        return;
      }
      Encode(DispatchPacket(samples));
    }

    /** An occlusion or timestamp sample: its event, and its pool as a target. */
    method CmdQuery(pool: nat)
      requires Valid()
      modifies this`words, this`trace, this`targets, this`notes
      ensures Valid() && View() == Spec.Step(old(View()), Spec.CmdQuery(pool))
    {
      if !error {
        Encode(Event);
        RegisterTarget(pool);
      }
    }

    /** ps5vk_CmdCopyQueryPoolResults. */
    method CmdQueryCopy(pool: nat, what: nat)
      requires Valid()
      modifies this`copies, this`trace, this`targets, this`notes
      ensures Valid() && View() == Spec.Step(old(View()), Spec.CmdQueryCopy(pool, what))
    {
      if !error {
        RegisterTarget(pool);
        AddRecord(Copy(what));
      }
    }

    method RegisterTargets(images: seq<nat>)
      requires Valid()
      modifies this`targets, this`notes
      ensures Valid() && View() == Spec.RegisterAll(old(View()), images)
    {
      for i := 0 to |images|
        invariant Valid() && View() == old(View()).(targets := targets, notes := notes)
        invariant Spec.RegisterAll(View(), images[i..]) == Spec.RegisterAll(old(View()), images)
      {
        RegisterTarget(images[i]);
        assert images[i..][0] == images[i] && images[i..][1..] == images[i + 1..];
      }
      assert images[|images|..] == [];
    }

    /** The attachments of a rendering the driver takes, registered and bound. */
    method BindAttachments(colours: seq<nat>, depth: Option<nat>, stencil: bool)
      requires Valid() && !error && !pass.rendering
      modifies this`targets, this`notes, this`pass, this`tracking
      ensures Valid() && View() == Spec.BeginRendering(old(View()), colours, depth, stencil, false)
    {
      var firstTarget := |targets|;
      notes := Spec.Noted(notes, Spec.PassBegan);
      RegisterTargets(colours + Spec.OptionSeq(depth));
      pass := Pass(true, depth.Some?, depth.Some? && stencil, Spec.Images(colours + Spec.OptionSeq(depth)));
      tracking := tracking.(passFirstTarget := firstTarget, passDrawn := false);
    }

    /** ps5vk_CmdBeginRendering. */
    method CmdBeginRendering(colours: seq<nat>, depth: Option<nat>, stencil: bool, refused: bool)
      requires Valid()
      modifies this
      ensures Valid() && View() == Spec.BeginRendering(old(View()), colours, depth, stencil, refused)
    {
      pass := pass.(rendering := false);
      if error {
        return;
      }
      if refused {
        RegisterTargets(colours);
        error := true;
      } else {
        BindAttachments(colours, depth, stencil);
      }
    }

    /** ps5vk_CmdEndRendering. */
    method CmdEndRendering(encoded: bool)
      requires Valid()
      modifies this
      ensures Valid() && View() == Spec.EndRendering(old(View()), encoded)
    {
      if pass.depthBound && !error {
        if encoded {
          Encode(SetDepthControl(0));
        } else {
          error := true;
        }
      }
      if tracking.passDrawn && tracking.passFirstTarget < tracking.barrierTargets {
        tracking := tracking.(barrierTargets := tracking.passFirstTarget);
      }
      tracking := tracking.(passFirstTarget := Spec.NO_TARGET, passDrawn := false);
      pass := Pass(false, false, false, pass.attachments);
    }

    /** ps5vk_EndCommandBuffer. */
    method EndCommandBuffer(encoded: bool)
      requires Valid()
      modifies this
      ensures Valid() && View() == Spec.EndCommandBuffer(old(View()), encoded)
    {
      if error {
        return;
      }
      RestartAfterSplits();
      if restart.on && !encoded {
        error := true;
        return;
      }
      SwitchRestart(false);
    }

    /** The queue's run of this buffer's arrays does what was recorded, in order. */
    method Replay() returns (ran: seq<Item>)
      requires Valid()
      ensures ran == Listed(trace)
    {
      ran := RunRecorded(words, copies, trace);
    }
  }

  lemma NoImages(images: seq<nat>)
    ensures Spec.Images(images) == {} <==> images == []
  {
    if images != [] {
      assert images[0] in Spec.Images(images);
    }
  }

  lemma SomeDirty(images: seq<nat>, dirty: set<nat>)
    ensures (exists k | 0 <= k < |images| :: images[k] in dirty) <==> !(Spec.Images(images) !! dirty)
  {
    if x :| x in Spec.Images(images) && x in dirty {
      var k :| 0 <= k < |images| && images[k] == x;
    }
    if k :| 0 <= k < |images| && images[k] in dirty {
      assert images[k] in Spec.Images(images);
    }
  }
}
