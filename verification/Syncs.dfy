/**
Sync objects: driver/ps5vk_sync.c's flag with a pending GPU marker. Threads signal, reset, move and
wait, each of their locked sections one step, while the GPU advances; a waiter lets go of the lock
while it waits for the GPU and clears the pending marker late.
*/
module Syncs {
  import opened Options

  /** A signal: which one it is, and whether a submission's, done once the queue's marker reaches
      its value, or the CPU's. */
  datatype Signal = ByCpu(id: nat) | BySubmission(id: nat, queue: nat, value: nat)

  /** struct ps5vk_sync, and the signal its flag stands for. `queue` is the one the signal is still
      pending on. */
  datatype Sync = Sync(signaled: bool, queue: Option<nat>, value: nat, signal: Signal)

  /** Where a thread is: between ps5vk_sync_move's two locked sections; waiting for a flag; waiting
      for the GPU without the lock; back from it, about to clear the marker; or returned. */
  datatype Thread =
    | Idle
    | Moving(carried: Sync, to: nat)
    | Waiting(sync: nat)
    | OnGpu(sync: nat, queue: nat, value: nat, signal: Signal)
    | Back(sync: nat, queue: nat, value: nat, signal: Signal)
    | Succeeded(signal: Signal)
    | TimedOut

  /** The syncs, the threads, how far each queue has been submitted and completed, and the number
      of signals so far. */
  datatype World = World(
    syncs: map<nat, Sync>, threads: map<nat, Thread>, submitted: map<nat, nat>, completed: map<nat, nat>,
    signals: nat)

  function At(values: map<nat, nat>, queue: nat): nat {
    if queue in values then values[queue] else 0
  }

  /** A thread that is in none of a move's or a wait's sections. */
  predicate Free(thread: Thread) {
    thread.Idle? || thread.Succeeded? || thread.TimedOut?
  }

  function ThreadOf(w: World, thread: nat): Thread {
    if thread in w.threads then w.threads[thread] else Idle
  }

  // ------------------------------------------------------------------ the steps

  /** ps5vk_sync_set. */
  function Set(w: World, sync: nat, signaled: bool, queue: Option<nat>, value: nat, signal: Signal): World {
    w.(syncs := w.syncs[sync := Sync(signaled, if signaled then queue else None, value, signal)])
  }

  function Goes(w: World, thread: nat, to: Thread): World {
    w.(threads := w.threads[thread := to])
  }

  datatype Step =
    | Init(sync: nat, signaled: bool)
    | Submit(queue: nat)
    | Complete(queue: nat)
    | SignalPending(sync: nat, queue: nat)
    | SignalCpu(sync: nat)
    | Reset(sync: nat)
    | MoveOut(thread: nat, source: nat, to: nat)
    | MoveIn(thread: nat)
    | BeginWait(thread: nat, sync: nat)
    | CheckFlag(thread: nat)
    | CheckGpu(thread: nat)
    | ClearMarker(thread: nat)
    | GiveUp(thread: nat)

  /** The first locked section of a move empties the source. */
  function MovesOut(w: World, thread: nat, source: nat, to: nat): World {
    if source !in w.syncs || !Free(ThreadOf(w, thread)) then w
    else
      var s := w.syncs[source];
      Goes(w.(syncs := w.syncs[source := s.(signaled := false, queue := None)]), thread, Moving(s, to))
  }

  function MovesIn(w: World, thread: nat): World {
    match ThreadOf(w, thread)
    case Moving(s, to) => Goes(Set(w, to, s.signaled, s.queue, s.value, s.signal), thread, Idle)
    case _ => w
  }

  /** The wait's first locked section, once it finds the flag set. */
  function ChecksFlag(w: World, thread: nat): World {
    match ThreadOf(w, thread)
    case Waiting(sync) =>
      if sync !in w.syncs || !w.syncs[sync].signaled then w
      else
        var s := w.syncs[sync];
        Goes(w, thread,
             match s.queue { case None => Succeeded(s.signal) case Some(q) => OnGpu(sync, q, s.value, s.signal) })
    case _ => w
  }

  /** ps5vk_queue_wait_value finds the marker at the value. */
  function ChecksGpu(w: World, thread: nat): World {
    match ThreadOf(w, thread)
    case OnGpu(sync, queue, value, signal) =>
      if At(w.completed, queue) >= value then Goes(w, thread, Back(sync, queue, value, signal)) else w
    case _ => w
  }

  /** The wait's last locked section: the pending marker goes, if it is still the one waited for. */
  function ClearsMarker(w: World, thread: nat): World {
    match ThreadOf(w, thread)
    case Back(sync, queue, value, signal) =>
      var done := Goes(w, thread, Succeeded(signal));
      if sync in w.syncs && w.syncs[sync].queue == Some(queue) && w.syncs[sync].value == value then
        done.(syncs := w.syncs[sync := w.syncs[sync].(queue := None)])
      else done
    case _ => w
  }

  function After(w: World, step: Step): World {
    match step
    case Init(sync, signaled) => Set(w, sync, signaled, None, 0, ByCpu(w.signals)).(signals := w.signals + 1)
    case Submit(queue) => w.(submitted := w.submitted[queue := At(w.submitted, queue) + 1])
    case Complete(queue) =>
      if At(w.completed, queue) < At(w.submitted, queue)
      then w.(completed := w.completed[queue := At(w.completed, queue) + 1]) else w
    case SignalPending(sync, queue) =>
      var value := At(w.submitted, queue);
      Set(w, sync, true, Some(queue), value, BySubmission(w.signals, queue, value)).(signals := w.signals + 1)
    case SignalCpu(sync) => Set(w, sync, true, None, 0, ByCpu(w.signals)).(signals := w.signals + 1)
    case Reset(sync) => Set(w, sync, false, None, 0, ByCpu(w.signals)).(signals := w.signals + 1)
    case MoveOut(thread, source, to) => MovesOut(w, thread, source, to)
    case MoveIn(thread) => MovesIn(w, thread)
    case BeginWait(thread, sync) => if Free(ThreadOf(w, thread)) then Goes(w, thread, Waiting(sync)) else w
    case CheckFlag(thread) => ChecksFlag(w, thread)
    case CheckGpu(thread) => ChecksGpu(w, thread)
    case ClearMarker(thread) => ClearsMarker(w, thread)
    case GiveUp(thread) =>
      if ThreadOf(w, thread).Waiting? || ThreadOf(w, thread).OnGpu? then Goes(w, thread, TimedOut) else w
  }

  function Run(w: World, steps: seq<Step>): World
    decreases |steps|
  {
    if steps == [] then w else Run(After(w, steps[0]), steps[1..])
  }

  // ------------------------------------------------------------------ what every step keeps

  /** A signal that is done: the CPU's, or its marker value has been reached. */
  predicate IsDone(w: World, signal: Signal) {
    signal.BySubmission? ==> At(w.completed, signal.queue) >= signal.value
  }

  /** A flag without a pending marker stands for a signal that is done, and one with a marker for
      the submission it names. */
  predicate Truthful(w: World, s: Sync) {
    && (s.signaled && s.queue.None? ==> IsDone(w, s.signal))
    && (s.signaled && s.queue.Some? ==>
          && s.signal.BySubmission? && s.signal.queue == s.queue.value && s.signal.value == s.value
          && s.value <= At(w.submitted, s.queue.value))
    && (!s.signaled ==> s.queue.None?)
  }

  predicate Honest(w: World, thread: Thread) {
    match thread
    case Moving(carried, _) => Truthful(w, carried)
    case OnGpu(_, queue, value, signal) => signal.BySubmission? && signal.queue == queue && signal.value == value
    case Back(_, queue, value, signal) =>
      signal.BySubmission? && signal.queue == queue && signal.value == value && IsDone(w, signal)
    case Succeeded(signal) => IsDone(w, signal)
    case _ => true
  }

  ghost predicate Invariant(w: World) {
    && (forall sync | sync in w.syncs :: Truthful(w, w.syncs[sync]))
    && (forall thread | thread in w.threads :: Honest(w, w.threads[thread]))
  }

  /** Markers and submissions only advance. */
  ghost predicate Advances(w: World, later: World) {
    && (forall queue :: At(w.completed, queue) <= At(later.completed, queue))
    && (forall queue :: At(w.submitted, queue) <= At(later.submitted, queue))
  }

  lemma AfterAdvances(w: World, step: Step)
    ensures Advances(w, After(w, step))
  {
  }

  lemma TruthfulStays(w: World, later: World, s: Sync)
    requires Truthful(w, s) && Advances(w, later)
    ensures Truthful(later, s)
  {
  }

  lemma HonestStays(w: World, later: World, thread: Thread)
    requires Honest(w, thread) && Advances(w, later)
    ensures Honest(later, thread)
  {
  }

  lemma MovedTruthful(w: World, thread: nat, sync: nat)
    requires Invariant(w) && sync in MovesIn(w, thread).syncs
    ensures Truthful(w, MovesIn(w, thread).syncs[sync])
  {
    assert Honest(w, ThreadOf(w, thread));
  }

  lemma ClearedTruthful(w: World, thread: nat, sync: nat)
    requires Invariant(w) && sync in ClearsMarker(w, thread).syncs
    ensures Truthful(w, ClearsMarker(w, thread).syncs[sync])
  {
    assert Honest(w, ThreadOf(w, thread));
    assert sync in w.syncs && Truthful(w, w.syncs[sync]);
  }

  lemma EmptiedTruthful(w: World, thread: nat, source: nat, to: nat, sync: nat)
    requires Invariant(w) && sync in MovesOut(w, thread, source, to).syncs
    ensures Truthful(w, MovesOut(w, thread, source, to).syncs[sync])
  {
  }

  lemma SetTruthful(w: World, step: Step, sync: nat)
    requires Invariant(w) && sync in After(w, step).syncs
    requires !step.MoveOut? && !step.MoveIn? && !step.ClearMarker?
    ensures Truthful(w, After(w, step).syncs[sync])
  {
  }

  /** Every sync stays truthful. */
  lemma SyncsTruthful(w: World, step: Step, sync: nat)
    requires Invariant(w) && sync in After(w, step).syncs
    ensures Truthful(After(w, step), After(w, step).syncs[sync])
  {
    match step {
      case MoveIn(thread) => MovedTruthful(w, thread, sync);
      case MoveOut(thread, source, to) => EmptiedTruthful(w, thread, source, to, sync);
      case ClearMarker(thread) => ClearedTruthful(w, thread, sync);
      case _ => SetTruthful(w, step, sync);
    }
    AfterAdvances(w, step);
    TruthfulStays(w, After(w, step), After(w, step).syncs[sync]);
  }

  /** Where a step leaves the thread that takes it. */
  lemma SteppedHonest(w: World, step: Step, thread: nat)
    requires Invariant(w) && thread in After(w, step).threads
    ensures Honest(w, After(w, step).threads[thread])
  {
    assert thread in w.threads ==> Honest(w, w.threads[thread]);
    assert forall sync | sync in w.syncs :: Truthful(w, w.syncs[sync]);
  }

  lemma ThreadsHonest(w: World, step: Step, thread: nat)
    requires Invariant(w) && thread in After(w, step).threads
    ensures Honest(After(w, step), After(w, step).threads[thread])
  {
    SteppedHonest(w, step, thread);
    AfterAdvances(w, step);
    HonestStays(w, After(w, step), After(w, step).threads[thread]);
  }

  lemma AfterKeeps(w: World, step: Step)
    requires Invariant(w)
    ensures Invariant(After(w, step))
  {
    forall sync | sync in After(w, step).syncs ensures Truthful(After(w, step), After(w, step).syncs[sync]) {
      SyncsTruthful(w, step, sync);
    }
    forall thread | thread in After(w, step).threads ensures Honest(After(w, step), After(w, step).threads[thread]) {
      ThreadsHonest(w, step, thread);
    }
  }

  lemma {:induction false} RunKeeps(w: World, steps: seq<Step>)
    requires Invariant(w)
    ensures Invariant(Run(w, steps)) && Advances(w, Run(w, steps))
    decreases |steps|
  {
    if steps != [] {
      AfterKeeps(w, steps[0]);
      AfterAdvances(w, steps[0]);
      RunKeeps(After(w, steps[0]), steps[1..]);
    }
  }

  const BEGINNING: World := World(map[], map[], map[], map[], 0)

  // ------------------------------------------------------------------ what follows for every interleaving

  /** A sync that is signaled with no queue was signaled by the CPU, or its marker value has been
      reached. */
  lemma {:induction false} SignaledIsDone(steps: seq<Step>, sync: nat)
    requires sync in Run(BEGINNING, steps).syncs
    ensures var w := Run(BEGINNING, steps);
            w.syncs[sync].signaled && w.syncs[sync].queue.None? ==> IsDone(w, w.syncs[sync].signal)
  {
    RunKeeps(BEGINNING, steps);
  }

  /** A wait that succeeds does so for a signal that is done, then and ever after. */
  lemma {:induction false} WaitSucceedsWhenDone(steps: seq<Step>, more: seq<Step>, thread: nat)
    requires thread in Run(BEGINNING, steps).threads && Run(BEGINNING, steps).threads[thread].Succeeded?
    ensures var w := Run(BEGINNING, steps);
            IsDone(w, w.threads[thread].signal) && IsDone(Run(w, more), w.threads[thread].signal)
  {
    RunKeeps(BEGINNING, steps);
    RunKeeps(Run(BEGINNING, steps), more);
  }

  /** The late clear never touches a flag or a signal, nor the marker of a signal that is not done:
      a newer pending signal stays pending. */
  lemma {:induction false} LateClearHarmless(steps: seq<Step>, thread: nat, sync: nat)
    requires sync in Run(BEGINNING, steps).syncs
    ensures var w := Run(BEGINNING, steps);
            var later := After(w, ClearMarker(thread));
            && sync in later.syncs
            && later.syncs[sync].signaled == w.syncs[sync].signaled
            && later.syncs[sync].signal == w.syncs[sync].signal
            && (!IsDone(w, w.syncs[sync].signal) ==> later.syncs[sync] == w.syncs[sync])
  {
    var w := Run(BEGINNING, steps);
    RunKeeps(BEGINNING, steps);
    assert Truthful(w, w.syncs[sync]);
    assert Honest(w, ThreadOf(w, thread));
  }

  /** Waiting never takes a signal: no step of a wait changes a flag. */
  lemma WaitsTakeNothing(w: World, step: Step, sync: nat)
    requires step.BeginWait? || step.CheckFlag? || step.CheckGpu? || step.ClearMarker? || step.GiveUp?
    requires sync in w.syncs
    ensures var later := After(w, step);
            sync in later.syncs && later.syncs[sync].signaled == w.syncs[sync].signaled &&
            later.syncs[sync].signal == w.syncs[sync].signal
  {
  }

  /** ps5vk_sync_pending_on. */
  predicate PendingOn(w: World, sync: nat, queue: nat) {
    sync in w.syncs && w.syncs[sync].signaled && w.syncs[sync].queue == Some(queue)
  }

  /** A submission may skip the wait on a signal pending on its own queue: once the GPU has reached
      any later submission's value, the signal is done. */
  lemma {:induction false} PendingOnIsOrdered(steps: seq<Step>, more: seq<Step>, sync: nat, queue: nat)
    requires PendingOn(Run(BEGINNING, steps), sync, queue)
    ensures var w := Run(BEGINNING, steps);
            At(Run(w, more).completed, queue) > At(w.submitted, queue) ==>
              IsDone(Run(w, more), w.syncs[sync].signal)
  {
    RunKeeps(BEGINNING, steps);
  }

  // ------------------------------------------------------------------ moves keep signals single

  /** Where a signal can be: a sync, or a thread between a move's two sections. */
  datatype Place = InSync(sync: nat) | InMove(thread: nat)

  function HeldAt(w: World, place: Place): Option<nat> {
    match place
    case InSync(sync) => if sync in w.syncs && w.syncs[sync].signaled then Some(w.syncs[sync].signal.id) else None
    case InMove(thread) =>
      match ThreadOf(w, thread)
      case Moving(carried, _) => if carried.signaled then Some(carried.signal.id) else None
      case _ => None
  }

  /** No signal is in two places. */
  ghost predicate Single(w: World) {
    && (forall place :: HeldAt(w, place).Some? ==> HeldAt(w, place).value < w.signals)
    && (forall p, q :: p != q && HeldAt(w, p).Some? && HeldAt(w, q).Some? ==> HeldAt(w, p) != HeldAt(w, q))
  }

  /** A step leaves every place as it was, but for a new signal or one moved over. */
  lemma AfterSingle(w: World, step: Step)
    requires Single(w)
    ensures Single(After(w, step))
  {
    match step
    case MoveOut(thread, source, to) => MoveOutSingle(w, thread, source, to);
    case MoveIn(thread) => MoveInSingle(w, thread);
    case _ => OthersSingle(w, step);
  }

  lemma MoveOutSingle(w: World, thread: nat, source: nat, to: nat)
    requires Single(w)
    ensures Single(MovesOut(w, thread, source, to))
  {
    var later := MovesOut(w, thread, source, to);
    if source in w.syncs && Free(ThreadOf(w, thread)) {
      assert HeldAt(later, InMove(thread)) == HeldAt(w, InSync(source));
      assert forall p | p != InMove(thread) && p != InSync(source) :: HeldAt(later, p) == HeldAt(w, p);
    }
  }

  lemma MoveInSingle(w: World, thread: nat)
    requires Single(w)
    ensures Single(MovesIn(w, thread))
  {
    var later := MovesIn(w, thread);
    if ThreadOf(w, thread).Moving? {
      var to := ThreadOf(w, thread).to;
      assert HeldAt(later, InSync(to)) == HeldAt(w, InMove(thread));
      assert forall p | p != InMove(thread) && p != InSync(to) :: HeldAt(later, p) == HeldAt(w, p);
    }
  }

  lemma OthersSingle(w: World, step: Step)
    requires Single(w) && !step.MoveOut? && !step.MoveIn?
    ensures Single(After(w, step))
  {
    var later := After(w, step);
    forall p ensures HeldAt(later, p) == HeldAt(w, p) || HeldAt(later, p) == None ||
                     (HeldAt(later, p) == Some(w.signals) && later.signals == w.signals + 1 && Written(step) == Some(p))
    {
    }
  }

  /** The sync a step sets outright. */
  function Written(step: Step): Option<Place> {
    match step
    case Init(sync, _) => Some(InSync(sync))
    case SignalPending(sync, _) => Some(InSync(sync))
    case SignalCpu(sync) => Some(InSync(sync))
    case Reset(sync) => Some(InSync(sync))
    case _ => None
  }

  /** In every interleaving a signal is in one place: moves neither copy it nor leave it behind. */
  lemma {:induction false} SignalsSingle(w: World, steps: seq<Step>)
    requires Single(w)
    ensures Single(Run(w, steps))
    decreases |steps|
  {
    if steps != [] {
      AfterSingle(w, steps[0]);
      SignalsSingle(After(w, steps[0]), steps[1..]);
    }
  }

  // ------------------------------------------------------------------ the 32-bit marker

  const WORD: int := 0x1_0000_0000
  const HALF: int := 0x8000_0000

  /** ps5vk_marker_reached on the 32-bit values: the sign of the wrapped difference. */
  predicate MarkerReached(current: nat, value: nat) {
    (current % WORD - value % WORD) % WORD < HALF
  }

  /** A number has one quotient and remainder by WORD. */
  lemma WordParts(x: int, q: int, r: int)
    requires x == WORD * q + r && 0 <= r < WORD
    ensures x % WORD == r
  {
    assert WORD * (x / WORD - q) == r - x % WORD;
  }

  lemma WrappedDifference(current: nat, value: nat)
    ensures (current % WORD - value % WORD) % WORD == (current - value) % WORD
  {
    var x := current - value;
    var wrapped := current % WORD - value % WORD;
    assert wrapped == WORD * (x / WORD - current / WORD + value / WORD) + x % WORD;
    WordParts(wrapped, x / WORD - current / WORD + value / WORD, x % WORD);
  }

  lemma EvenHalf(x: int)
    ensures x % WORD < HALF <==> x / HALF % 2 == 0
  {
    var q, r := x / HALF, x % HALF;
    assert x == WORD * (q / 2) + (HALF * (q % 2) + r);
    WordParts(x, q / 2, HALF * (q % 2) + r);
  }

  /** What the test says of the unwrapped values, however far apart: that their difference lies in
      an even half of the 32-bit range. */
  lemma MarkerTestExact(current: nat, value: nat)
    ensures MarkerReached(current, value) <==> (current - value) / HALF % 2 == 0
  {
    WrappedDifference(current, value);
    EvenHalf(current - value);
  }

  /** So it is their comparison if they are less than 2^31 apart, and is not at the next difference
      on either side. */
  lemma MarkerTestCompares(current: nat, value: nat)
    ensures -HALF <= current - value < HALF ==> (MarkerReached(current, value) <==> current >= value)
    ensures !MarkerReached(value + HALF, value)
    ensures value > HALF ==> MarkerReached(value - HALF - 1, value)
  {
    MarkerTestExact(current, value);
    MarkerTestExact(value + HALF, value);
    if value > HALF {
      MarkerTestExact(value - HALF - 1, value);
    }
  }
}
