/**
Whole recordings made by the command buffer itself: a sequence of commands, each the call of the
method that records it, then the queue's run of the buffer's arrays. What is run is what the
commands asked for.
*/
module RecordedSessions {
  import opened Options
  import opened Streams
  import opened Recordings
  import opened SimpleRecorder
  import opened CommandBuffers

  /** The images a command's resources name, in any order. */
  predicate Names(images: seq<nat>, command: Command) {
    match command
    case CmdDraw(call) => Images(images) == call.samples
    case CmdDispatch(samples, _, _) => Images(images) == samples
    case _ => true
  }

  method Record(buffer: CommandBuffer, command: Command, images: seq<nat>)
    requires buffer.Valid() && Names(images, command)
    modifies buffer
    ensures buffer.Valid() && buffer.View() == Step(old(buffer.View()), command)
  {
    match command
    case CmdBeginRendering(colours, depth, stencil, refused) =>
      buffer.CmdBeginRendering(colours, depth, stencil, refused);
    case CmdEndRendering(encoded) => buffer.CmdEndRendering(encoded);
    case CmdDraw(call) => buffer.CmdDraw(call, images);
    case CmdDispatch(samples, fence, outcome) => buffer.CmdDispatch(samples, fence, outcome, images);
    case CmdQuery(pool) => buffer.CmdQuery(pool);
    case CmdQueryCopy(pool, what) => buffer.CmdQueryCopy(pool, what);
    case CmdCopies(whats, refused) => buffer.CmdCopies(whats, refused);
  }

  method RecordAll(buffer: CommandBuffer, commands: seq<Command>, images: seq<seq<nat>>)
    requires buffer.Valid() && |images| == |commands|
    requires forall i | 0 <= i < |commands| :: Names(images[i], commands[i])
    modifies buffer
    ensures buffer.Valid() && buffer.View() == Run(old(buffer.View()), commands)
  {
    for i := 0 to |commands|
      invariant buffer.Valid() && Run(buffer.View(), commands[i..]) == Run(old(buffer.View()), commands)
    {
      assert commands[i..][0] == commands[i] && commands[i..][1..] == commands[i + 1..];
      Record(buffer, commands[i], images[i]);
    }
    assert commands[|commands|..] == [];
  }

  /** Any commands recorded into a new or reset buffer, and its arrays run. */
  method RecordAndReplay(buffer: CommandBuffer, commands: seq<Command>, images: seq<seq<nat>>)
    returns (ran: seq<Item>)
    requires buffer.Valid() && Fresh(buffer.View()) && UsableRun(buffer.View(), commands)
    requires |images| == |commands| && forall i | 0 <= i < |commands| :: Names(images[i], commands[i])
    modifies buffer
    ensures Visibles(ran) == AsksAll(NEW_APP, commands)
  {
    ghost var start := buffer.View();
    RecordAll(buffer, commands, images);
    ran := buffer.Replay();
    RecordedAsAsked(start, commands);
  }
}
