/**
The recorder against a simple one. The driver's recorder tracks render targets by indices into a
list, and the restart enable by what it last wrote and the records since. The simple recorder keeps
sets of images and asks the GPU's own state instead. Both record the same stream, item for item, in
every recording; and of that stream the draws, dispatches, events and copies are exactly those the
commands ask for, in order.
*/
module SimpleRecorder {
  import opened Options
  import opened Streams
  import opened Recordings
  import opened RecordingRuns
  import opened Submissions

  /** The stream so far, the targets registered, the images to flush before they are sampled, the
      rendering's images to flush after its next draw, the rendering itself, whether a barrier was
      recorded and an image sampled before the first, and whether the recording was refused. */
  datatype Simple = Simple(
    trace: Trace, targets: seq<nat>, dirty: set<nat>, pass: set<nat>, depth: bool, images: set<nat>,
    barred: bool, early: bool, refused: bool)

  const BLANK: Simple := Simple(Nothing, [], {}, {}, false, {}, false, false, false)

  // ------------------------------------------------------------------ the simple recorder

  function Puts(a: Simple, item: Item): Simple {
    a.(trace := Then(a.trace, item))
  }

  function Sees(a: Simple, samples: set<nat>): Simple {
    a.(early := a.early || (samples != {} && !a.barred))
  }

  /** A barrier, or without a fence a split, exactly when something sampled is to be flushed. */
  function Flushes(a: Simple, samples: set<nat>, fence: bool): Simple {
    if samples !! a.dirty then a
    else if fence then Puts(a, Gpu(Barrier)).(dirty := {}, barred := true)
    else Puts(a, Cpu(Split))
  }

  /** The enable is written exactly when the GPU's differs. */
  function Restarts(a: Simple, on: bool): Simple {
    if GpuAfter(a.trace).restart == on then a else Puts(a, Gpu(SetRestart(on)))
  }

  function Sets(a: Simple, control: nat): Simple {
    if a.depth then Puts(a, Gpu(SetDepthControl(control))) else a
  }

  function Draws(a: Simple, call: DrawCall): Simple {
    var on := call.indexed && call.pipelineRestarts;
    var draw := Draw(call.id, on, if a.depth then call.depthControl else 0, a.images, call.samples);
    Puts(Restarts(Sets(a, call.depthControl), on), Gpu(DrawPacket(draw))).(dirty := a.dirty + a.pass)
  }

  function Registers(a: Simple, images: seq<nat>): Simple {
    a.(targets := a.targets + images, dirty := a.dirty + Images(images), pass := a.pass + Images(images))
  }

  function CopiesAll(a: Simple, whats: seq<nat>): Simple
    decreases |whats|
  {
    if whats == [] then a else CopiesAll(Puts(a, Cpu(Copy(whats[0]))), whats[1..])
  }

  function Taken(a: Simple, command: Command): Simple {
    match command
    case CmdBeginRendering(colours, depth, _, refused) =>
      if refused then Registers(a, colours).(refused := true)
      else
        var images := colours + if depth.Some? then [depth.value] else [];
        Registers(a.(pass := {}), images).(depth := depth.Some?, images := Images(images))
    case CmdEndRendering(encoded) =>
      if a.depth && !encoded then a.(refused := true)
      else Sets(a, 0).(depth := false)
    case CmdDraw(call) =>
      match call.outcome {
        case Done => Draws(Flushes(Sees(a, call.samples), call.samples, call.fence), call)
        case Skipped => a
        case SkippedLate => Sees(a, call.samples)
        case Refused => a.(refused := true)
        case RefusedLate => Flushes(Sees(a, call.samples), call.samples, call.fence).(refused := true)
      }
    case CmdDispatch(samples, fence, outcome) =>
      match outcome {
        case Done => Puts(Flushes(Sees(a, samples), samples, fence), Gpu(DispatchPacket(samples)))
        case Skipped => a
        case SkippedLate => Sees(a, samples)
        case Refused => a.(refused := true)
        case RefusedLate => Flushes(Sees(a, samples), samples, fence).(refused := true)
      }
    case CmdQuery(pool) => Registers(Puts(a, Gpu(Event)), [pool])
    case CmdQueryCopy(pool, what) => Puts(Registers(a, [pool]), Cpu(Copy(what)))
    case CmdCopies(whats, refused) => CopiesAll(a, whats).(refused := refused)
  }

  /** A refused recording records nothing more. */
  function SimpleStep(a: Simple, command: Command): Simple {
    if a.refused then a else Taken(a, command)
  }

  function SimpleRun(a: Simple, commands: seq<Command>): Simple
    decreases |commands|
  {
    if commands == [] then a else SimpleRun(SimpleStep(a, commands[0]), commands[1..])
  }

  // ------------------------------------------------------------------ they record the same

  predicate SameStream(a: Simple, r: Recording) {
    a.trace == r.trace && a.targets == r.targets && a.refused == r.error && a.early == r.samplesEarly
  }

  predicate SameState(a: Simple, r: Recording) {
    && a.dirty == Track(r.notes).dirty && a.pass == Track(r.notes).pass && a.barred == (r.fencePatches != 0)
    && (r.rendering ==> a.depth == r.depthBound && a.images == r.attachments)
  }

  predicate Same(a: Simple, r: Recording) {
    SameStream(a, r) && (!r.error ==> SameState(a, r))
  }

  lemma SeesSame(a: Simple, r: Recording, samples: set<nat>)
    requires Same(a, r) && Invariant(r) && !r.error
    ensures Same(Sees(a, samples), NoteSamples(r, samples)) && Dirty(NoteSamples(r, samples)) == a.dirty
  {
  }

  lemma BarrierSame(a: Simple, r: Recording, samples: set<nat>, fence: bool)
    requires Same(a, r) && !r.error && Dirty(r) == a.dirty
    ensures Same(Flushes(a, samples, fence), BarrierIfNeeded(r, samples, fence))
  {
    if !(samples !! Dirty(r)) {
      if fence {
        FencedSame(a, r);
      } else {
        SplitSame(a, r);
      }
    }
  }

  lemma FencedSame(a: Simple, r: Recording)
    requires Same(a, r) && !r.error
    ensures Same(Puts(a, Gpu(Barrier)).(dirty := {}, barred := true), GpuBarrier(r, true))
  {
  }

  lemma SplitSame(a: Simple, r: Recording)
    requires Same(a, r) && !r.error
    ensures Same(Puts(a, Cpu(Split)), GpuBarrier(r, false))
  {
  }

  lemma FlushSame(a: Simple, r: Recording, samples: set<nat>, fence: bool)
    requires Same(a, r) && Invariant(r) && !r.error
    ensures Same(Flushes(Sees(a, samples), samples, fence), BarrierIfNeeded(NoteSamples(r, samples), samples, fence))
  {
    SeesSame(a, r, samples);
    BarrierSame(Sees(a, samples), NoteSamples(r, samples), samples, fence);
  }

  lemma ReadySame(a: Simple, r: Recording, call: DrawCall)
    requires Same(a, r) && Invariant(r) && !r.error && r.rendering
    ensures var ready := ReadyFor(r, call);
            Same(Flushes(Sees(a, call.samples), call.samples, call.fence), ready) && ready.rendering
  {
    FlushSame(a, r, call.samples, call.fence);
  }

  lemma DrawnSame(a: Simple, r: Recording, call: DrawCall)
    requires Same(a, r) && Ready(r, call.samples)
    ensures Same(Draws(a, call), Drawn(r, call))
  {
    TablesKeep(r, call);
    StateSet(r, call);
  }

  lemma DoneSame(a: Simple, r: Recording, call: DrawCall)
    requires Same(a, r) && Invariant(r) && !r.error && r.rendering
    ensures Same(Draws(Flushes(Sees(a, call.samples), call.samples, call.fence), call), Drawn(ReadyFor(r, call), call))
  {
    ReadySame(a, r, call);
    GetsReady(r, call);
    DrawnSame(Flushes(Sees(a, call.samples), call.samples, call.fence), ReadyFor(r, call), call);
  }

  lemma DrawSame(a: Simple, r: Recording, call: DrawCall)
    requires Same(a, r) && Invariant(r) && !r.error && r.rendering
    ensures Same(SimpleStep(a, CmdDraw(call)), RecordDraw(r, call))
  {
    if call.outcome.Done? {
      DoneSame(a, r, call);
      DoneTaken(a, r, call);
    } else {
      UndrawnSame(a, r, call);
    }
  }

  lemma DoneTaken(a: Simple, r: Recording, call: DrawCall)
    requires !a.refused && !r.error && call.outcome.Done?
    ensures SimpleStep(a, CmdDraw(call)) == Draws(Flushes(Sees(a, call.samples), call.samples, call.fence), call)
    ensures RecordDraw(r, call) == Drawn(ReadyFor(r, call), call)
  {
  }

  lemma UndrawnSame(a: Simple, r: Recording, call: DrawCall)
    requires Same(a, r) && Invariant(r) && !r.error && r.rendering && !call.outcome.Done?
    ensures Same(SimpleStep(a, CmdDraw(call)), RecordDraw(r, call))
  {
    if call.outcome.RefusedLate? {
      ReadySame(a, r, call);
    } else if call.outcome.SkippedLate? {
      SeesSame(a, r, call.samples);
    }
  }

  lemma DispatchSame(a: Simple, r: Recording, samples: set<nat>, fence: bool, outcome: Outcome)
    requires Same(a, r) && Invariant(r) && !r.error
    ensures Same(SimpleStep(a, CmdDispatch(samples, fence, outcome)), RecordDispatch(r, samples, fence, outcome))
  {
    if outcome.Done? {
      DispatchedSame(a, r, samples, fence);
    } else if outcome.RefusedLate? {
      FlushSame(a, r, samples, fence);
    } else if outcome.SkippedLate? {
      SeesSame(a, r, samples);
    }
  }

  lemma DispatchedSame(a: Simple, r: Recording, samples: set<nat>, fence: bool)
    requires Same(a, r) && Invariant(r) && !r.error
    ensures Same(Puts(Flushes(Sees(a, samples), samples, fence), Gpu(DispatchPacket(samples))),
                 Emit(BarrierIfNeeded(NoteSamples(r, samples), samples, fence), DispatchPacket(samples)))
  {
    FlushSame(a, r, samples, fence);
  }

  lemma {:induction false} RegisterAllSame(a: Simple, r: Recording, images: seq<nat>)
    requires Same(a, r) && !r.error
    ensures Same(Registers(a, images), RegisterAll(r, images))
    decreases |images|
  {
    if images == [] {
      assert Images(images) == {} && a.targets + images == a.targets;
    } else {
      RegistersNext(a, images);
      RegisterOne(a, r, images[0]);
      RegisterAllSame(Registers(a, [images[0]]), Register(r, images[0]), images[1..]);
    }
  }

  lemma RegisterOne(a: Simple, r: Recording, image: nat)
    requires Same(a, r) && !r.error
    ensures Same(Registers(a, [image]), Register(r, image))
  {
    assert Images([image]) == {image};
  }

  lemma RegistersNext(a: Simple, images: seq<nat>)
    requires images != []
    ensures Registers(Registers(a, [images[0]]), images[1..]) == Registers(a, images)
  {
    ImagesNext(images);
    assert a.targets + [images[0]] + images[1..] == a.targets + images;
  }

  lemma ImagesNext(images: seq<nat>)
    requires images != []
    ensures Images(images) == {images[0]} + Images(images[1..]) && Images([images[0]]) == {images[0]}
  {
    assert images == [images[0]] + images[1..];
  }

  lemma BeginSame(a: Simple, r: Recording, colours: seq<nat>, depth: Option<nat>, stencil: bool, refused: bool)
    requires Same(a, r) && !r.error && !r.rendering
    ensures Same(SimpleStep(a, CmdBeginRendering(colours, depth, stencil, refused)),
                 BeginRendering(r, colours, depth, stencil, refused))
  {
    if refused {
      RegisterAllSame(a, r.(rendering := false), colours);
    } else {
      BegunSame(a, r, colours + OptionSeq(depth), depth.Some?, stencil);
    }
  }

  lemma {:induction false} BegunSame(a: Simple, r: Recording, images: seq<nat>, depth: bool, stencil: bool)
    requires Same(a, r) && !r.error
    ensures var registered := RegisterAll(r.(rendering := false, notes := Noted(r.notes, PassBegan)), images);
            Same(Registers(a.(pass := {}), images).(depth := depth, images := Images(images)),
                 registered.(depthBound := depth, stencilBound := depth && stencil, rendering := true,
                             passFirstTarget := |r.targets|, passDrawn := false, attachments := Images(images)))
  {
    var began := r.(rendering := false, notes := Noted(r.notes, PassBegan));
    RegisterAllSame(a.(pass := {}), began, images);
  }

  lemma {:induction false} CopiesSame(a: Simple, r: Recording, whats: seq<nat>)
    requires Same(a, r) && !r.error
    ensures Same(CopiesAll(a, whats), AddRecords(r, whats))
    decreases |whats|
  {
    if whats != [] {
      CopiesSame(Puts(a, Cpu(Copy(whats[0]))), AddRecord(r, Copy(whats[0])), whats[1..]);
    }
  }

  lemma StepSame(a: Simple, r: Recording, command: Command)
    requires Same(a, r) && Invariant(r) && !r.error && Usable(r, command)
    ensures Same(SimpleStep(a, command), Step(r, command))
  {
    match command
    case CmdBeginRendering(colours, depth, stencil, refused) => BeginSame(a, r, colours, depth, stencil, refused);
    case CmdEndRendering(encoded) => EndSame(a, r, encoded);
    case CmdDraw(call) => DrawSame(a, r, call);
    case CmdDispatch(samples, fence, outcome) =>
      DispatchSame(a, r, samples, fence, outcome);
    case CmdQuery(pool) => QuerySame(a, r, pool);
    case CmdQueryCopy(pool, what) => QueryCopySame(a, r, pool, what);
    case CmdCopies(whats, _) => CopiesSame(a, r, whats);
  }

  lemma EndSame(a: Simple, r: Recording, encoded: bool)
    requires Same(a, r) && !r.error && r.rendering
    ensures Same(SimpleStep(a, CmdEndRendering(encoded)), EndRendering(r, encoded))
  {
  }

  lemma QuerySame(a: Simple, r: Recording, pool: nat)
    requires Same(a, r) && !r.error
    ensures Same(SimpleStep(a, CmdQuery(pool)), Step(r, CmdQuery(pool)))
  {
    RegisterOne(Puts(a, Gpu(Event)), Emit(r, Event), pool);
  }

  lemma QueryCopySame(a: Simple, r: Recording, pool: nat, what: nat)
    requires Same(a, r) && !r.error
    ensures Same(SimpleStep(a, CmdQueryCopy(pool, what)), Step(r, CmdQueryCopy(pool, what)))
  {
    RegisterOne(a, r, pool);
  }

  /** Nothing is recorded after a refusal. */
  lemma RefusedSame(a: Simple, r: Recording, command: Command)
    requires Same(a, r) && r.error
    ensures Same(SimpleStep(a, command), Step(r, command))
  {
  }

  lemma {:induction false} RunSame(a: Simple, r: Recording, commands: seq<Command>)
    requires Same(a, r) && Invariant(r) && UsableRun(r, commands)
    ensures Same(SimpleRun(a, commands), Run(r, commands))
    decreases |commands|
  {
    if commands != [] {
      StepKeeps(r, commands[0]);
      if r.error {
        RefusedSame(a, r, commands[0]);
      } else {
        StepSame(a, r, commands[0]);
      }
      RunSame(SimpleStep(a, commands[0]), Step(r, commands[0]), commands[1..]);
    }
  }

  /** In every recording the two record the same stream and the same targets, are refused together,
      and know alike whether an image is sampled before the first barrier. */
  lemma {:induction false} RecordsAsSimple(r: Recording, commands: seq<Command>)
    requires Fresh(r) && UsableRun(r, commands)
    ensures SameStream(SimpleRun(BLANK, commands), Run(r, commands))
  {
    FreshInvariant(r);
    RunSame(BLANK, r, commands);
  }

  // ------------------------------------------------------------------ what the commands ask for

  /** What an application asks for by name: a draw, a dispatch, an event, a copy. */
  predicate Visible(item: Item) {
    match item
    case Gpu(DrawPacket(_)) => true
    case Gpu(DispatchPacket(_)) => true
    case Gpu(Event) => true
    case Gpu(_) => false
    case Cpu(Copy(_)) => true
    case Cpu(Split) => false
  }

  function Visibles(items: seq<Item>): seq<Item> {
    if items == [] then []
    else Visibles(items[..|items| - 1]) + if Visible(items[|items| - 1]) then [items[|items| - 1]] else []
  }

  /** The same of a trace. */
  function Shown(t: Trace): seq<Item> {
    match t
    case Nothing => []
    case Then(before, item) => Shown(before) + if Visible(item) then [item] else []
  }

  lemma {:induction false} ShownIsListed(t: Trace)
    ensures Shown(t) == Visibles(Listed(t))
  {
    match t
    case Nothing =>
    case Then(before, item) =>
      ShownIsListed(before);
      assert Listed(t)[..|Listed(t)| - 1] == Listed(before);
  }

  /** The application's own view: its rendering's images and depth, and whether it was refused. */
  datatype App = App(depth: bool, images: set<nat>, refused: bool)

  const NEW_APP: App := App(false, {}, false)

  function Follow(p: App, command: Command): App {
    if p.refused then p
    else
      match command
      case CmdBeginRendering(colours, depth, _, refused) =>
        if refused then p.(refused := true)
        else App(depth.Some?, Images(colours + if depth.Some? then [depth.value] else []), false)
      case CmdEndRendering(encoded) => if p.depth && !encoded then p.(refused := true) else p.(depth := false)
      case CmdDraw(call) => p.(refused := call.outcome.Refused? || call.outcome.RefusedLate?)
      case CmdDispatch(_, _, outcome) => p.(refused := outcome.Refused? || outcome.RefusedLate?)
      case CmdCopies(_, refused) => p.(refused := refused)
      case _ => p
  }

  function Copies(whats: seq<nat>): seq<Item> {
    seq(|whats|, i requires 0 <= i < |whats| => Cpu(Copy(whats[i])))
  }

  /** What one command asks for. */
  function Asks(p: App, command: Command): seq<Item> {
    if p.refused then []
    else
      match command
      case CmdDraw(call) =>
        if !call.outcome.Done? then []
        else
          [Gpu(DrawPacket(Draw(call.id, call.indexed && call.pipelineRestarts,
                               if p.depth then call.depthControl else 0, p.images, call.samples)))]
      case CmdDispatch(samples, _, outcome) => if outcome.Done? then [Gpu(DispatchPacket(samples))] else []
      case CmdQuery(_) => [Gpu(Event)]
      case CmdQueryCopy(_, what) => [Cpu(Copy(what))]
      case CmdCopies(whats, _) => Copies(whats)
      case _ => []
  }

  function AsksAll(p: App, commands: seq<Command>): seq<Item>
    decreases |commands|
  {
    if commands == [] then [] else Asks(p, commands[0]) + AsksAll(Follow(p, commands[0]), commands[1..])
  }

  function AppOf(a: Simple): App {
    App(a.depth, a.images, a.refused)
  }

  lemma {:induction false} CopiesShown(a: Simple, whats: seq<nat>)
    ensures Shown(CopiesAll(a, whats).trace) == Shown(a.trace) + Copies(whats)
    ensures CopiesAll(a, whats) == a.(trace := CopiesAll(a, whats).trace)
    decreases |whats|
  {
    if whats == [] {
      assert Copies(whats) == [];
    } else {
      CopiesShown(Puts(a, Cpu(Copy(whats[0]))), whats[1..]);
      assert Copies(whats) == [Cpu(Copy(whats[0]))] + Copies(whats[1..]);
    }
  }

  lemma FlushShown(a: Simple, samples: set<nat>, fence: bool)
    ensures var out := Flushes(Sees(a, samples), samples, fence);
            Shown(out.trace) == Shown(a.trace) && AppOf(out) == AppOf(a)
  {
  }

  lemma DrawsShown(a: Simple, call: DrawCall)
    requires !a.refused && call.outcome.Done?
    ensures Shown(Draws(a, call).trace) == Shown(a.trace) + Asks(AppOf(a), CmdDraw(call))
    ensures AppOf(Draws(a, call)) == AppOf(a)
  {
    var on := call.indexed && call.pipelineRestarts;
    assert Shown(Sets(a, call.depthControl).trace) == Shown(a.trace);
    assert Shown(Restarts(Sets(a, call.depthControl), on).trace) == Shown(a.trace);
  }

  lemma StepShown(a: Simple, command: Command)
    ensures Shown(SimpleStep(a, command).trace) == Shown(a.trace) + Asks(AppOf(a), command)
    ensures AppOf(SimpleStep(a, command)) == Follow(AppOf(a), command)
  {
    if !a.refused {
      match command
      case CmdDraw(call) => DrawShown(a, call);
      case CmdDispatch(samples, fence, outcome) =>
        DispatchShown(a, samples, fence, outcome);
      case CmdCopies(whats, _) => CopiesShown(a, whats);
      case _ => OtherShown(a, command);
    }
  }

  lemma DrawShown(a: Simple, call: DrawCall)
    requires !a.refused
    ensures Shown(Taken(a, CmdDraw(call)).trace) == Shown(a.trace) + Asks(AppOf(a), CmdDraw(call))
    ensures AppOf(Taken(a, CmdDraw(call))) == Follow(AppOf(a), CmdDraw(call))
  {
    FlushShown(a, call.samples, call.fence);
    if call.outcome.Done? {
      DrawsShown(Flushes(Sees(a, call.samples), call.samples, call.fence), call);
    }
  }

  lemma DispatchShown(a: Simple, samples: set<nat>, fence: bool, outcome: Outcome)
    requires !a.refused
    ensures var command := CmdDispatch(samples, fence, outcome);
            && Shown(Taken(a, command).trace) == Shown(a.trace) + Asks(AppOf(a), command)
            && AppOf(Taken(a, command)) == Follow(AppOf(a), command)
  {
    FlushShown(a, samples, fence);
  }

  lemma OtherShown(a: Simple, command: Command)
    requires !a.refused && !command.CmdDraw? && !command.CmdDispatch? && !command.CmdCopies?
    ensures Shown(Taken(a, command).trace) == Shown(a.trace) + Asks(AppOf(a), command)
    ensures AppOf(Taken(a, command)) == Follow(AppOf(a), command)
  {
  }

  lemma {:induction false} RunShown(a: Simple, commands: seq<Command>)
    ensures Shown(SimpleRun(a, commands).trace) == Shown(a.trace) + AsksAll(AppOf(a), commands)
    decreases |commands|
  {
    if commands != [] {
      var next := SimpleStep(a, commands[0]);
      StepShown(a, commands[0]);
      RunShown(next, commands[1..]);
      Regroup(Shown(a.trace), Asks(AppOf(a), commands[0]), AsksAll(AppOf(next), commands[1..]));
    }
  }

  lemma Regroup(a: seq<Item>, b: seq<Item>, c: seq<Item>)
    ensures (a + b) + c == a + (b + c)
  {
  }

  /** In every recording the draws, dispatches, events and copies recorded are exactly those its
      commands ask for, in order, each once. */
  lemma {:induction false} RecordedAsAsked(r: Recording, commands: seq<Command>)
    requires Fresh(r) && UsableRun(r, commands)
    ensures Visibles(Listed(Run(r, commands).trace)) == AsksAll(NEW_APP, commands)
  {
    RecordsAsSimple(r, commands);
    RunShown(BLANK, commands);
    ShownIsListed(Run(r, commands).trace);
  }

  // ------------------------------------------------------------------ a submission

  /** A recording and how it ended. */
  datatype Session = Session(start: Recording, commands: seq<Command>, encoded: bool)

  predicate ValidSession(s: Session) {
    Fresh(s.start) && UsableRun(s.start, s.commands)
  }

  function Buffer(s: Session): Recording {
    EndCommandBuffer(Run(s.start, s.commands), s.encoded)
  }

  lemma EndShown(r: Recording, encoded: bool)
    ensures Shown(EndCommandBuffer(r, encoded).trace) == Shown(r.trace)
  {
  }

  lemma SessionShown(s: Session)
    requires ValidSession(s)
    ensures Shown(Buffer(s).trace) == AsksAll(NEW_APP, s.commands)
  {
    RecordedAsAsked(s.start, s.commands);
    ShownIsListed(Run(s.start, s.commands).trace);
    EndShown(Run(s.start, s.commands), s.encoded);
  }

  function Buffers(sessions: seq<Session>): seq<Recording> {
    seq(|sessions|, i requires 0 <= i < |sessions| => Buffer(sessions[i]))
  }

  /** What each recording asks for, and what the first n do together. */
  function AskedLists(sessions: seq<Session>): seq<seq<Item>> {
    seq(|sessions|, i requires 0 <= i < |sessions| => AsksAll(NEW_APP, sessions[i].commands))
  }

  function Together(asked: seq<seq<Item>>, n: nat): seq<Item>
    requires n <= |asked|
  {
    if n == 0 then [] else Together(asked, n - 1) + asked[n - 1]
  }

  lemma {:induction false} JoinShown(t: Trace, u: Trace)
    ensures Shown(Join(t, u)) == Shown(t) + Shown(u)
  {
    match u
    case Nothing =>
    case Then(before, _) => JoinShown(t, before);
  }

  lemma {:induction false} NextShown(buffers: seq<Recording>, n: nat, fence: bool)
    requires 0 < n <= |buffers|
    ensures Shown(Joined(buffers, n, fence)) == Shown(Joined(buffers, n - 1, fence)) + Shown(buffers[n - 1].trace)
  {
    JoinShown(Joined(buffers, n - 1, fence), buffers[n - 1].trace);
  }

  lemma {:induction false} JoinedShown(buffers: seq<Recording>, asked: seq<seq<Item>>, n: nat, fence: bool)
    requires n <= |buffers| == |asked| && forall i | 0 <= i < |buffers| :: Shown(buffers[i].trace) == asked[i]
    ensures Shown(Joined(buffers, n, fence)) == Together(asked, n)
  {
    if n > 0 {
      JoinedShown(buffers, asked, n - 1, fence);
      NextShown(buffers, n, fence);
    }
  }

  // ------------------------------------------------------------------ its whole stream

  /** The end of a recording: restart is off for the next buffer. */
  function SimpleEnd(a: Simple, encoded: bool): Simple {
    if a.refused then a
    else if GpuAfter(a.trace).restart && !encoded then a.(refused := true)
    else Restarts(a, false)
  }

  function SimpleBuffer(s: Session): Simple {
    SimpleEnd(SimpleRun(BLANK, s.commands), s.encoded)
  }

  function SimpleBuffers(sessions: seq<Session>): seq<Simple> {
    seq(|sessions|, i requires 0 <= i < |sessions| => SimpleBuffer(sessions[i]))
  }

  /** The first n buffers' streams, with a barrier between two where the first registered targets
      and the second samples before a barrier of its own. */
  function SimpleStream(buffers: seq<Simple>, n: nat, fence: bool): seq<Item>
    requires n <= |buffers|
  {
    if n == 0 then []
    else
      SimpleStream(buffers, n - 1, fence) + Listed(buffers[n - 1].trace) +
      if fence && n < |buffers| && buffers[n].early && buffers[n - 1].targets != [] then [Gpu(Barrier)] else []
  }

  lemma EndsSame(a: Simple, r: Recording, encoded: bool)
    requires Same(a, r) && Invariant(r)
    ensures SameStream(SimpleEnd(a, encoded), EndCommandBuffer(r, encoded))
  {
    if !r.error {
      RestartKnown(r);
    }
  }

  lemma RestartKnown(r: Recording)
    requires KnowsGpu(r)
    ensures RestartAfterSplits(r).restart == GpuAfter(r.trace).restart
  {
  }

  lemma BufferSame(s: Session)
    requires ValidSession(s)
    ensures SameStream(SimpleBuffer(s), Buffer(s))
  {
    FreshInvariant(s.start);
    RunSame(BLANK, s.start, s.commands);
    RunKeeps(s.start, s.commands);
    EndsSame(SimpleRun(BLANK, s.commands), Run(s.start, s.commands), s.encoded);
  }

  lemma {:induction false} JoinListed(t: Trace, u: Trace)
    ensures Listed(Join(t, u)) == Listed(t) + Listed(u)
  {
    match u
    case Nothing =>
    case Then(before, _) => JoinListed(t, before);
  }

  lemma {:induction false} JoinedSame(buffers: seq<Recording>, simple: seq<Simple>, n: nat, fence: bool)
    requires n <= |buffers| == |simple| && forall i | 0 <= i < |buffers| :: SameStream(simple[i], buffers[i])
    ensures Listed(Joined(buffers, n, fence)) == SimpleStream(simple, n, fence)
  {
    if n > 0 {
      JoinedSame(buffers, simple, n - 1, fence);
      JoinListed(Joined(buffers, n - 1, fence), buffers[n - 1].trace);
      assert SameStream(simple[n - 1], buffers[n - 1]);
      assert n < |buffers| ==> SameStream(simple[n], buffers[n]);
    }
  }

  /** A submission of any recordings runs exactly the simple recorder's stream; of it, the draws,
      dispatches, events and copies are those the commands ask for, buffer by buffer and in order. */
  method SubmitSessions(sessions: seq<Session>, fence: bool) returns (ran: seq<Item>)
    requires forall i | 0 <= i < |sessions| :: ValidSession(sessions[i])
    ensures ran == SimpleStream(SimpleBuffers(sessions), |sessions|, fence)
    ensures Visibles(ran) == Together(AskedLists(sessions), |sessions|)
  {
    var buffers := Buffers(sessions);
    ran := Submit(buffers, fence);
    forall i | 0 <= i < |buffers|
      ensures Shown(buffers[i].trace) == AskedLists(sessions)[i] && SameStream(SimpleBuffers(sessions)[i], buffers[i])
    {
      SessionShown(sessions[i]);
      BufferSame(sessions[i]);
    }
    JoinedSame(buffers, SimpleBuffers(sessions), |sessions|, fence);
    JoinedShown(buffers, AskedLists(sessions), |sessions|, fence);
    ShownIsListed(Joined(buffers, |sessions|, fence));
  }
}
