/**
Lazy state refines eager state. The recorder writes primitive restart only when it changes and
leaves depth state out of colour-only draws; the GPU still performs exactly the draws the
application asked for, in order, each with the restart and depth state a recorder that always
wrote both would have given it.
*/
module DrawsSeen {
  import opened Streams
  import opened Recordings
  import opened RecordingRuns

  /** A draw as it is performed. */
  datatype Seen = Seen(id: nat, restart: bool, depth: set<nat>)

  /** The draws the GPU performs, with the state it is in at each. */
  function Performed(t: Trace): seq<Seen> {
    match t
    case Nothing => []
    case Then(before, Gpu(DrawPacket(draw))) =>
      Performed(before) + [Seen(draw.id, GpuAfter(before).restart, GpuAfter(before).depth)]
    case Then(before, _) => Performed(before)
  }

  // ------------------------------------------------------------------ what the application asked for

  /** The application's view: whether a depth rendering is active, and whether the recording was
      refused. */
  datatype App = App(depth: bool, refused: bool)

  function Unless(a: App, refused: bool): App {
    a.(refused := a.refused || refused)
  }

  function Follow(a: App, command: Command): App {
    match command
    case CmdBeginRendering(_, depth, _, refused) => if refused then Unless(a, true) else a.(depth := depth.Some?)
    case CmdEndRendering(encoded) => Unless(a, a.depth && !encoded).(depth := false)
    case CmdDraw(call) => Unless(a, call.outcome.Refused? || call.outcome.RefusedLate?)
    case CmdDispatch(_, _, outcome) => Unless(a, outcome.Refused? || outcome.RefusedLate?)
    case CmdCopies(_, refused) => Unless(a, refused)
    case _ => a
  }

  function Shown(a: App, command: Command): seq<Seen> {
    if !a.refused && command.CmdDraw? && command.call.outcome.Done? then
      [Seen(command.call.id, RestartOf(command.call), {if a.depth then command.call.depthControl else 0})]
    else []
  }

  /** The draws of a run, each with its own state. */
  function Asked(a: App, commands: seq<Command>): seq<Seen>
    decreases |commands|
  {
    if commands == [] then [] else Shown(a, commands[0]) + Asked(Follow(a, commands[0]), commands[1..])
  }

  // ------------------------------------------------------------------ the two agree

  lemma {:induction false} RecordsPerformNothing(r: Recording, whats: seq<nat>)
    ensures Performed(AddRecords(r, whats).trace) == Performed(r.trace)
    decreases |whats|
  {
    if whats != [] {
      RecordsPerformNothing(AddRecord(r, Copy(whats[0])), whats[1..]);
    }
  }

  lemma BarrierPerformsNothing(r: Recording, samples: set<nat>, fence: bool)
    ensures Performed(BarrierIfNeeded(r, samples, fence).trace) == Performed(r.trace)
  {
  }

  lemma SwitchPerformsNothing(r: Recording, on: bool)
    ensures Performed(SwitchRestart(r, on).trace) == Performed(r.trace)
  {
  }

  lemma StatePerformsNothing(r: Recording, call: DrawCall)
    ensures Performed(StateFor(r, call).trace) == Performed(r.trace)
  {
    SwitchPerformsNothing(EmitTables(r, call), RestartOf(call));
  }

  lemma DrawPerforms(r: Recording, call: DrawCall)
    requires Ready(r, call.samples)
    ensures Performed(Drawn(r, call).trace) ==
            Performed(r.trace) + [Seen(call.id, RestartOf(call), {if r.depthBound then call.depthControl else 0})]
  {
    StatePerformsNothing(r, call);
    StateSet(r, call);
  }

  predicate Agrees(a: App, r: Recording) {
    a.refused == r.error && (!a.refused && r.rendering ==> a.depth == r.depthBound)
  }

  lemma RecordDrawPerforms(a: App, r: Recording, call: DrawCall)
    requires Invariant(r) && Agrees(a, r) && (r.error || r.rendering)
    ensures Performed(RecordDraw(r, call).trace) == Performed(r.trace) + Shown(a, CmdDraw(call))
  {
    if !r.error && call.outcome.Done? {
      GetsReady(r, call);
      ReadyFrame(r, call);
      DrawPerforms(ReadyFor(r, call), call);
    } else if !r.error && call.outcome.RefusedLate? {
      ReadyFrame(r, call);
    }
  }

  lemma ReadyFrame(r: Recording, call: DrawCall)
    ensures var ready := ReadyFor(r, call);
            && Performed(ready.trace) == Performed(r.trace)
            && ready.error == r.error && ready.depthBound == r.depthBound && ready.rendering == r.rendering
  {
    var noted := NoteSamples(r, call.samples);
    BarrierPerformsNothing(noted, call.samples, call.fence);
    BarrierFrame(noted, call.samples, call.fence);
  }

  lemma BarrierFrame(r: Recording, samples: set<nat>, fence: bool)
    ensures var out := BarrierIfNeeded(r, samples, fence);
            out.error == r.error && out.depthBound == r.depthBound && out.rendering == r.rendering
  {
  }

  lemma DrawnFrame(r: Recording, call: DrawCall)
    ensures Drawn(r, call).error == r.error && Drawn(r, call).depthBound == r.depthBound
    ensures Drawn(r, call).rendering == r.rendering
  {
    SwitchFrame(EmitTables(r, call), RestartOf(call));
  }

  lemma SwitchFrame(r: Recording, on: bool)
    ensures var out := SwitchRestart(r, on);
            out.error == r.error && out.depthBound == r.depthBound && out.rendering == r.rendering
  {
  }

  lemma DrawAgrees(a: App, r: Recording, call: DrawCall)
    requires Agrees(a, r)
    ensures Agrees(Follow(a, CmdDraw(call)), RecordDraw(r, call))
  {
    if !r.error && call.outcome.RefusedLate? {
      ReadyFrame(r, call);
    } else if !r.error && call.outcome.Done? {
      DoneFrame(r, call);
    }
  }

  lemma DoneFrame(r: Recording, call: DrawCall)
    requires !r.error && call.outcome.Done?
    ensures var out := RecordDraw(r, call);
            out.error == r.error && out.depthBound == r.depthBound && out.rendering == r.rendering
  {
    ReadyFrame(r, call);
    DrawnFrame(ReadyFor(r, call), call);
  }

  lemma DispatchAgrees(a: App, r: Recording, samples: set<nat>, fence: bool, outcome: Outcome)
    requires Agrees(a, r)
    ensures Agrees(Follow(a, CmdDispatch(samples, fence, outcome)),
                   RecordDispatch(r, samples, fence, outcome))
  {
    var ready := BarrierIfNeeded(NoteSamples(r, samples), samples, fence);
    BarrierFrame(NoteSamples(r, samples), samples, fence);
  }

  lemma EmitsNoDraw(r: Recording, packet: Packet)
    requires !packet.DrawPacket?
    ensures Performed(Emit(r, packet).trace) == Performed(r.trace)
  {
  }

  lemma DispatchPerforms(r: Recording, samples: set<nat>, fence: bool, outcome: Outcome)
    ensures Performed(RecordDispatch(r, samples, fence, outcome).trace) == Performed(r.trace)
  {
    if !r.error && (outcome.Done? || outcome.RefusedLate?) {
      var noted := NoteSamples(r, samples);
      BarrierPerformsNothing(noted, samples, fence);
      EmitsNoDraw(BarrierIfNeeded(noted, samples, fence), DispatchPacket(samples));
    }
  }

  lemma StepAgrees(a: App, r: Recording, command: Command)
    requires Agrees(a, r) && Usable(r, command)
    ensures Agrees(Follow(a, command), Step(r, command))
  {
    match command
    case CmdDraw(call) => DrawAgrees(a, r, call);
    case CmdDispatch(samples, fence, outcome) =>
      DispatchAgrees(a, r, samples, fence, outcome);
    case _ =>
  }

  lemma StepPerforms(a: App, r: Recording, command: Command)
    requires Invariant(r) && Agrees(a, r) && Usable(r, command)
    ensures Performed(Step(r, command).trace) == Performed(r.trace) + Shown(a, command)
  {
    match command
    case CmdBeginRendering(_, _, _, _) =>
    case CmdEndRendering(_) =>
    case CmdDraw(call) => RecordDrawPerforms(a, r, call);
    case CmdDispatch(samples, fence, outcome) =>
      DispatchPerforms(r, samples, fence, outcome);
    case CmdQuery(_) =>
    case CmdQueryCopy(_, what) =>
    case CmdCopies(whats, _) => RecordsPerformNothing(r, whats);
  }

  lemma {:induction false} RunPerforms(a: App, r: Recording, commands: seq<Command>)
    requires Invariant(r) && Agrees(a, r) && UsableRun(r, commands)
    ensures Performed(Run(r, commands).trace) == Performed(r.trace) + Asked(a, commands)
    decreases |commands|
  {
    if commands != [] {
      StepKeeps(r, commands[0]);
      StepAgrees(a, r, commands[0]);
      StepPerforms(a, r, commands[0]);
      RunPerforms(Follow(a, commands[0]), Step(r, commands[0]), commands[1..]);
      Regroup(Performed(r.trace), Shown(a, commands[0]), Asked(Follow(a, commands[0]), commands[1..]));
    }
  }

  lemma Regroup(a: seq<Seen>, b: seq<Seen>, c: seq<Seen>)
    ensures (a + b) + c == a + (b + c)
  {
  }

  /** The GPU performs exactly the draws of a recording, each with the restart its call and
      pipeline ask for and the depth state of its rendering. */
  lemma {:induction false} PerformedAsAsked(r: Recording, commands: seq<Command>)
    requires Fresh(r) && UsableRun(r, commands)
    ensures Performed(Run(r, commands).trace) == Asked(App(false, false), commands)
  {
    FreshInvariant(r);
    RunPerforms(App(false, false), r, commands);
  }
}
