/**
Signals are not lost. Over every interleaving a signal stays held, by a sync or by a thread that is
moving it, until a step overwrites the sync that holds it; a move brings to its destination exactly
what its source held; and a wait sees the last signal or reset of its sync.
*/
module SyncMoves {
  import opened Options
  import opened Syncs

  // ------------------------------------------------------------------ where a signal goes

  /** What is held at a place. */
  function SyncAt(w: World, place: Place): Option<Sync> {
    match place
    case InSync(sync) => if sync in w.syncs then Some(w.syncs[sync]) else None
    case InMove(thread) =>
      match ThreadOf(w, thread)
      case Moving(carried, _) => Some(carried)
      case _ => None
  }

  predicate Holds(w: World, place: Place) {
    SyncAt(w, place).Some? && SyncAt(w, place).value.signaled
  }

  /** The sync a step sets, if it sets one: outright, or as the destination of a move. */
  function Overwritten(w: World, step: Step): Option<nat> {
    match step
    case Init(sync, _) => Some(sync)
    case SignalPending(sync, _) => Some(sync)
    case SignalCpu(sync) => Some(sync)
    case Reset(sync) => Some(sync)
    case MoveIn(thread) => if ThreadOf(w, thread).Moving? then Some(ThreadOf(w, thread).to) else None
    case _ => None
  }

  /** Where a step takes what is held at a place; none if it is overwritten. */
  function PlaceAfter(w: World, step: Step, place: Place): Option<Place> {
    match step
    case MoveIn(thread) =>
      if ThreadOf(w, thread).Moving? && place == InMove(thread) then Some(InSync(ThreadOf(w, thread).to))
      else if place.InSync? && Overwritten(w, step) == Some(place.sync) then None
      else Some(place)
    case MoveOut(thread, source, _) =>
      if place == InSync(source) && Free(ThreadOf(w, thread)) then Some(InMove(thread)) else Some(place)
    case _ => if place.InSync? && Overwritten(w, step) == Some(place.sync) then None else Some(place)
  }

  /** The same flag and signal with the same marker value, still pending on the same queue or, if it
      is done, on none. */
  predicate SameSignal(w: World, s: Sync, later: Sync) {
    && later.signaled == s.signaled && later.signal == s.signal && later.value == s.value
    && (later.queue == s.queue || (later.queue == None && IsDone(w, s.signal)))
  }

  lemma OutConserves(w: World, thread: nat, source: nat, to: nat, place: Place)
    requires Holds(w, place)
    ensures var after := PlaceAfter(w, MoveOut(thread, source, to), place);
            after.Some? && SyncAt(MovesOut(w, thread, source, to), after.value) == SyncAt(w, place)
  {
  }

  lemma InConserves(w: World, thread: nat, place: Place)
    requires Invariant(w) && Holds(w, place) && PlaceAfter(w, MoveIn(thread), place).Some?
    ensures SyncAt(MovesIn(w, thread), PlaceAfter(w, MoveIn(thread), place).value) == SyncAt(w, place)
  {
  }

  lemma ClearConserves(w: World, thread: nat, place: Place)
    requires Invariant(w) && Holds(w, place)
    ensures var later := ClearsMarker(w, thread);
            Holds(later, place) && SameSignal(w, SyncAt(w, place).value, SyncAt(later, place).value)
  {
    assert Honest(w, ThreadOf(w, thread));
    if place.InSync? {
      assert Truthful(w, w.syncs[place.sync]);
    }
  }

  lemma OtherConserves(w: World, step: Step, place: Place)
    requires Holds(w, place) && !step.MoveOut? && !step.MoveIn? && !step.ClearMarker?
    requires PlaceAfter(w, step, place).Some?
    ensures SyncAt(After(w, step), place) == SyncAt(w, place)
  {
  }

  /** A step that does not overwrite the sync a signal is in leaves it held, where PlaceAfter says. */
  lemma StepConserves(w: World, step: Step, place: Place)
    requires Invariant(w) && Holds(w, place) && PlaceAfter(w, step, place).Some?
    ensures var later, at := After(w, step), PlaceAfter(w, step, place).value;
            Holds(later, at) && SameSignal(w, SyncAt(w, place).value, SyncAt(later, at).value)
  {
    match step
    case MoveOut(thread, source, to) => OutConserves(w, thread, source, to, place);
    case MoveIn(thread) => InConserves(w, thread, place);
    case ClearMarker(thread) => ClearConserves(w, thread, place);
    case _ => OtherConserves(w, step, place);
  }

  /** Where a run takes what is held at a place; none if some step overwrites it. */
  function PlaceAfterAll(w: World, steps: seq<Step>, place: Place): Option<Place>
    decreases |steps|
  {
    if steps == [] then Some(place)
    else
      match PlaceAfter(w, steps[0], place)
      case None => None
      case Some(next) => PlaceAfterAll(After(w, steps[0]), steps[1..], next)
  }

  lemma {:induction false} RunConserves(w: World, steps: seq<Step>, place: Place)
    requires Invariant(w) && Holds(w, place) && PlaceAfterAll(w, steps, place).Some?
    ensures var end, at := Run(w, steps), PlaceAfterAll(w, steps, place).value;
            Holds(end, at) && SameSignal(end, SyncAt(w, place).value, SyncAt(end, at).value)
    decreases |steps|
  {
    if steps != [] {
      var next, at := After(w, steps[0]), PlaceAfter(w, steps[0], place).value;
      StepConserves(w, steps[0], place);
      AfterKeeps(w, steps[0]);
      RunConserves(next, steps[1..], at);
      RunKeeps(next, steps[1..]);
      AfterAdvances(w, steps[0]);
    }
  }

  /** Over every interleaving a signal held anywhere is held until it is overwritten: it ends where
      its moves took it, with its marker, which goes only once it is done. */
  lemma {:induction false} SignalsKept(steps: seq<Step>, more: seq<Step>, place: Place)
    requires Holds(Run(BEGINNING, steps), place)
    requires PlaceAfterAll(Run(BEGINNING, steps), more, place).Some?
    ensures var w := Run(BEGINNING, steps);
            var end, at := Run(w, more), PlaceAfterAll(w, more, place).value;
            Holds(end, at) && SameSignal(end, SyncAt(w, place).value, SyncAt(end, at).value)
  {
    RunKeeps(BEGINNING, steps);
    RunConserves(Run(BEGINNING, steps), more, place);
  }

  // ------------------------------------------------------------------ a whole move

  /** The thread that takes a step. */
  function Actor(step: Step): Option<nat> {
    match step
    case MoveOut(thread, _, _) => Some(thread)
    case MoveIn(thread) => Some(thread)
    case BeginWait(thread, _) => Some(thread)
    case CheckFlag(thread) => Some(thread)
    case CheckGpu(thread) => Some(thread)
    case ClearMarker(thread) => Some(thread)
    case GiveUp(thread) => Some(thread)
    case _ => None
  }

  predicate ByOthers(steps: seq<Step>, thread: nat) {
    forall i | 0 <= i < |steps| :: Actor(steps[i]) != Some(thread)
  }

  lemma OtherThread(w: World, step: Step, thread: nat)
    requires Actor(step) != Some(thread)
    ensures ThreadOf(After(w, step), thread) == ThreadOf(w, thread)
  {
  }

  lemma {:induction false} OthersLeave(w: World, steps: seq<Step>, thread: nat)
    requires ByOthers(steps, thread)
    ensures ThreadOf(Run(w, steps), thread) == ThreadOf(w, thread)
    decreases |steps|
  {
    if steps != [] {
      OtherThread(w, steps[0], thread);
      OthersLeave(After(w, steps[0]), steps[1..], thread);
    }
  }

  /** A move, whatever other threads and the GPU do between its two sections: its destination ends
      with the flag, queue, value and signal the source had, and the source was emptied. */
  lemma {:induction false} MoveCarries(steps: seq<Step>, thread: nat, source: nat, to: nat, between: seq<Step>)
    requires var w := Run(BEGINNING, steps); source in w.syncs && Free(ThreadOf(w, thread))
    requires ByOthers(between, thread)
    ensures var w := Run(BEGINNING, steps);
            var out := After(w, MoveOut(thread, source, to));
            var end := After(Run(out, between), MoveIn(thread));
            && !out.syncs[source].signaled && out.syncs[source].queue == None
            && to in end.syncs && end.syncs[to] == w.syncs[source] && ThreadOf(end, thread) == Idle
  {
    var w := Run(BEGINNING, steps);
    RunKeeps(BEGINNING, steps);
    assert Truthful(w, w.syncs[source]);
    OthersLeave(After(w, MoveOut(thread, source, to)), between, thread);
  }

  // ------------------------------------------------------------------ what a wait sees

  /** A run in which nothing sets the sync or moves from it. */
  predicate Undisturbed(w: World, steps: seq<Step>, sync: nat)
    decreases |steps|
  {
    steps == [] ||
    (Overwritten(w, steps[0]) != Some(sync) && !(steps[0].MoveOut? && steps[0].source == sync) &&
     Undisturbed(After(w, steps[0]), steps[1..], sync))
  }

  lemma StepLeaves(w: World, step: Step, sync: nat)
    requires Invariant(w) && sync in w.syncs
    requires Overwritten(w, step) != Some(sync) && !(step.MoveOut? && step.source == sync)
    ensures sync in After(w, step).syncs && SameSignal(w, w.syncs[sync], After(w, step).syncs[sync])
  {
    if step.ClearMarker? {
      assert Honest(w, ThreadOf(w, step.thread));
      assert Truthful(w, w.syncs[sync]);
    }
  }

  lemma {:induction false} RunLeaves(w: World, steps: seq<Step>, sync: nat)
    requires Invariant(w) && sync in w.syncs && Undisturbed(w, steps, sync)
    ensures sync in Run(w, steps).syncs && SameSignal(Run(w, steps), w.syncs[sync], Run(w, steps).syncs[sync])
    decreases |steps|
  {
    if steps != [] {
      StepLeaves(w, steps[0], sync);
      AfterKeeps(w, steps[0]);
      RunLeaves(After(w, steps[0]), steps[1..], sync);
      RunKeeps(After(w, steps[0]), steps[1..]);
      AfterAdvances(w, steps[0]);
    }
  }

  /** After the CPU's signal, until something else sets the sync, a wait succeeds at once for it. */
  lemma {:induction false} CpuSignalSeen(steps: seq<Step>, sync: nat, more: seq<Step>, thread: nat)
    requires Undisturbed(After(Run(BEGINNING, steps), SignalCpu(sync)), more, sync)
    requires ThreadOf(Run(After(Run(BEGINNING, steps), SignalCpu(sync)), more), thread) == Waiting(sync)
    ensures var w := Run(BEGINNING, steps);
            var end := Run(After(w, SignalCpu(sync)), more);
            ThreadOf(After(end, CheckFlag(thread)), thread) == Succeeded(ByCpu(w.signals))
  {
    var w := Run(BEGINNING, steps);
    RunKeeps(BEGINNING, steps);
    AfterKeeps(w, SignalCpu(sync));
    RunLeaves(After(w, SignalCpu(sync)), more, sync);
  }

  /** After a submission's signal a wait goes to the GPU for that queue's value as submitted then,
      or succeeds at once if another wait has found it reached. */
  lemma {:induction false} PendingSignalSeen(steps: seq<Step>, sync: nat, queue: nat, more: seq<Step>, thread: nat)
    requires Undisturbed(After(Run(BEGINNING, steps), SignalPending(sync, queue)), more, sync)
    requires ThreadOf(Run(After(Run(BEGINNING, steps), SignalPending(sync, queue)), more), thread) == Waiting(sync)
    ensures var w := Run(BEGINNING, steps);
            var value := At(w.submitted, queue);
            var signal := BySubmission(w.signals, queue, value);
            var end := Run(After(w, SignalPending(sync, queue)), more);
            var seen := ThreadOf(After(end, CheckFlag(thread)), thread);
            || seen == OnGpu(sync, queue, value, signal)
            || (seen == Succeeded(signal) && At(end.completed, queue) >= value)
  {
    var w := Run(BEGINNING, steps);
    RunKeeps(BEGINNING, steps);
    AfterKeeps(w, SignalPending(sync, queue));
    RunLeaves(After(w, SignalPending(sync, queue)), more, sync);
  }

  /** After a reset, until something sets the sync, a wait goes on waiting. */
  lemma {:induction false} ResetSeen(steps: seq<Step>, sync: nat, more: seq<Step>, thread: nat)
    requires Undisturbed(After(Run(BEGINNING, steps), Reset(sync)), more, sync)
    requires ThreadOf(Run(After(Run(BEGINNING, steps), Reset(sync)), more), thread) == Waiting(sync)
    ensures var end := Run(After(Run(BEGINNING, steps), Reset(sync)), more);
            After(end, CheckFlag(thread)) == end
  {
    var w := Run(BEGINNING, steps);
    RunKeeps(BEGINNING, steps);
    AfterKeeps(w, Reset(sync));
    RunLeaves(After(w, Reset(sync)), more, sync);
  }

  /** A new sync is as it was asked for. */
  lemma {:induction false} InitSeen(steps: seq<Step>, sync: nat, signaled: bool, more: seq<Step>, thread: nat)
    requires Undisturbed(After(Run(BEGINNING, steps), Init(sync, signaled)), more, sync)
    requires ThreadOf(Run(After(Run(BEGINNING, steps), Init(sync, signaled)), more), thread) == Waiting(sync)
    ensures var w := Run(BEGINNING, steps);
            var end := Run(After(w, Init(sync, signaled)), more);
            ThreadOf(After(end, CheckFlag(thread)), thread) ==
            if signaled then Succeeded(ByCpu(w.signals)) else Waiting(sync)
  {
    var w := Run(BEGINNING, steps);
    RunKeeps(BEGINNING, steps);
    AfterKeeps(w, Init(sync, signaled));
    RunLeaves(After(w, Init(sync, signaled)), more, sync);
  }

  /** A wait on the GPU goes on exactly when the marker has reached its value, whatever others did
      meanwhile; it then succeeds, and the sync's marker is gone if it was still that one. */
  lemma {:induction false} GpuWaitEnds(w: World, thread: nat, between: seq<Step>)
    requires ThreadOf(w, thread).OnGpu? && ByOthers(between, thread)
    ensures var t := ThreadOf(w, thread);
            var now := After(w, CheckGpu(thread));
            var end := After(Run(now, between), ClearMarker(thread));
            && (ThreadOf(now, thread).Back? <==> At(w.completed, t.queue) >= t.value)
            && (!ThreadOf(now, thread).Back? ==> now == w)
            && (ThreadOf(now, thread).Back? ==>
                  && ThreadOf(end, thread) == Succeeded(t.signal)
                  && (t.sync in end.syncs && end.syncs[t.sync].value == t.value ==>
                        end.syncs[t.sync].queue != Some(t.queue)))
  {
    var now := After(w, CheckGpu(thread));
    OthersLeave(now, between, thread);
    if ThreadOf(now, thread).Back? {
      ClearEnds(Run(now, between), thread);
    }
  }

  lemma ClearEnds(w: World, thread: nat)
    requires ThreadOf(w, thread).Back?
    ensures var t := ThreadOf(w, thread);
            var end := After(w, ClearMarker(thread));
            && ThreadOf(end, thread) == Succeeded(t.signal)
            && (t.sync in end.syncs && end.syncs[t.sync].value == t.value ==> end.syncs[t.sync].queue != Some(t.queue))
  {
  }

  /** A wait starts from any thread that is in no move or wait, and may give up while it waits. */
  lemma WaitStartsAndStops(w: World, thread: nat, sync: nat)
    ensures Free(ThreadOf(w, thread)) ==> After(w, BeginWait(thread, sync)) == Goes(w, thread, Waiting(sync))
    ensures ThreadOf(w, thread).Waiting? || ThreadOf(w, thread).OnGpu? ==>
              After(w, GiveUp(thread)) == Goes(w, thread, TimedOut)
  {
  }

  /** Queues count their submissions from none, and complete no more than those, one by one. */
  lemma QueuesCount(w: World, queue: nat, other: nat)
    ensures At(BEGINNING.submitted, queue) == 0 && At(BEGINNING.completed, queue) == 0
    ensures At(After(w, Submit(queue)).submitted, other) == At(w.submitted, other) + if other == queue then 1 else 0
    ensures At(w.completed, queue) < At(w.submitted, queue) ==>
              At(After(w, Complete(queue)).completed, other) == At(w.completed, other) + if other == queue then 1 else 0
  {
  }
}
