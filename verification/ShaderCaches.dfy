/**
The shader cache's protocol: driver/ps5vk_shader_cache.c's stores, loads, writer thread and
flushes, as the steps their locked sections and file operations make. A store queues its output; the
writer writes it to a temporary name, renames it into place and only then takes it off the queue.
*/
module ShaderCaches {
  import opened Arithmetic
  import opened Options
  import opened ShaderFiles

  type Key = digest: seq<Byte> | |digest| == DIGEST_BYTES witness seq(DIGEST_BYTES, _ => 0)

  /** The build, and its compiler: one output for a key. */
  datatype Compiler = Compiler(build: Build, compile: Key -> Output)

  /** Its outputs' metadata is within what a load checks. */
  ghost predicate ValidCompiler(c: Compiler) {
    && ValidBuild(c.build)
    && forall key :: ValidMetadata(c.build, c.compile(key).metadata) && Plausible(c.build, c.compile(key).metadata)
  }

  datatype Job = Job(key: Key, output: Output)

  /** Where the writer is with the job at the head: not started, writing its temporary, or done with
      its file. */
  datatype Writer = Resting | Writing | Finished

  /** Where a load is. */
  datatype Load = Asking(key: Key) | Opening(key: Key) | Answered(key: Key, answer: Option<Output>)

  /** Where a flush is. */
  datatype Flush = Draining | Drained

  /** The cache: its queue, writer, files and temporaries, and the loads and flushes under way. */
  datatype Cache = Cache(
    queue: seq<Job>, writer: Writer, files: map<Key, seq<Byte>>, temporaries: map<Key, seq<Byte>>,
    loads: map<nat, Load>, flushes: map<nat, Flush>)

  // ------------------------------------------------------------------ the steps

  /** The first queued output for a key (cache_pending). */
  function Pending(queue: seq<Job>, key: Key): Option<Output> {
    if queue == [] then None
    else if queue[0].key == key then Some(queue[0].output)
    else Pending(queue[1..], key)
  }

  method FindPending(queue: seq<Job>, key: Key) returns (output: Option<Output>)
    ensures output == Pending(queue, key)
  {
    for i := 0 to |queue|
      invariant Pending(queue, key) == Pending(queue[i..], key)
    {
      if queue[i].key == key {
        return Some(queue[i].output);
      }
      assert queue[i..][1..] == queue[i + 1..];
    }
    return None;
  }

  function File(c: Compiler, job: Job): seq<Byte> {
    Encode(c.build, job.key, job.output)
  }

  datatype Step =
    | Store(key: Key)
    | BeginWrite
    | WriteMore(bytes: nat)
    | Rename
    | FailWrite
    | Dequeue
    | BeginLoad(load: nat, key: Key)
    | LookInQueue(load: nat)
    | LookInFiles(load: nat)
    | BeginFlush(flush: nat)
    | EndFlush(flush: nat)

  function Stores(c: Compiler, s: Cache, key: Key): Cache {
    var output := c.compile(key);
    if !Storable(output) then s else s.(queue := s.queue + [Job(key, output)])
  }

  function BeginsWrite(s: Cache): Cache {
    if s.writer.Resting? && s.queue != [] then
      s.(writer := Writing, temporaries := s.temporaries[s.queue[0].key := []])
    else s
  }

  /** The temporary grows towards the job's file. */
  function WritesMore(c: Compiler, s: Cache, bytes: nat): Cache {
    if !s.writer.Writing? || s.queue == [] || s.queue[0].key !in s.temporaries then s
    else
      var job := s.queue[0];
      var now := Min(|s.temporaries[job.key]| + bytes, |File(c, job)|);
      s.(temporaries := s.temporaries[job.key := File(c, job)[..now]])
  }

  function Renames(c: Compiler, s: Cache): Cache {
    if !s.writer.Writing? || s.queue == [] || s.queue[0].key !in s.temporaries then s
    else
      var key := s.queue[0].key;
      if |s.temporaries[key]| < |File(c, s.queue[0])| then s
      else
        s.(writer := Finished, files := s.files[key := s.temporaries[key]],
           temporaries := s.temporaries - {key})
  }

  /** The write or the rename fails: the temporary is removed. */
  function FailsWrite(s: Cache): Cache {
    if !s.writer.Writing? || s.queue == [] then s
    else s.(writer := Finished, temporaries := s.temporaries - {s.queue[0].key})
  }

  function Dequeues(s: Cache): Cache {
    if s.writer.Finished? && s.queue != [] then s.(writer := Resting, queue := s.queue[1..]) else s
  }

  function LooksInQueue(s: Cache, load: nat): Cache {
    if load !in s.loads || !s.loads[load].Asking? then s
    else
      var key := s.loads[load].key;
      var found := Pending(s.queue, key);
      s.(loads := s.loads[load := if found.Some? then Answered(key, found) else Opening(key)])
  }

  function LooksInFiles(c: Compiler, s: Cache, load: nat): Cache {
    if load !in s.loads || !s.loads[load].Opening? then s
    else
      var key := s.loads[load].key;
      var answer := if key in s.files then Parse(c.build, key, s.files[key]) else None;
      s.(loads := s.loads[load := Answered(key, answer)])
  }

  function EndsFlush(s: Cache, flush: nat): Cache {
    if flush in s.flushes && s.queue == [] then s.(flushes := s.flushes[flush := Drained]) else s
  }

  function After(c: Compiler, s: Cache, step: Step): Cache {
    match step
    case Store(key) => Stores(c, s, key)
    case BeginWrite => BeginsWrite(s)
    case WriteMore(bytes) => WritesMore(c, s, bytes)
    case Rename => Renames(c, s)
    case FailWrite => FailsWrite(s)
    case Dequeue => Dequeues(s)
    case BeginLoad(load, key) => s.(loads := s.loads[load := Asking(key)])
    case LookInQueue(load) => LooksInQueue(s, load)
    case LookInFiles(load) => LooksInFiles(c, s, load)
    case BeginFlush(flush) => s.(flushes := s.flushes[flush := Draining])
    case EndFlush(flush) => EndsFlush(s, flush)
  }

  /** The cache once the first k of a run's steps are taken. */
  function At(c: Compiler, s: Cache, steps: seq<Step>, k: nat): Cache
    requires k <= |steps|
  {
    if k == 0 then s else After(c, At(c, s, steps, k - 1), steps[k - 1])
  }

  function Run(c: Compiler, s: Cache, steps: seq<Step>): Cache {
    At(c, s, steps, |steps|)
  }

  // ------------------------------------------------------------------ what every step keeps

  /** The key's file holds its output. */
  predicate InPlace(c: Compiler, s: Cache, key: Key) {
    key in s.files && s.files[key] == Encode(c.build, key, c.compile(key))
  }

  predicate GoodJob(c: Compiler, job: Job) {
    job.output == c.compile(job.key) && Storable(job.output)
  }

  /** A file is one its key's load refuses, or its key's own output. */
  predicate GoodFile(c: Compiler, key: Key, file: seq<Byte>) {
    var found := Parse(c.build, key, file);
    found.None? || found.value == c.compile(key)
  }

  predicate GoodLoad(c: Compiler, load: Load) {
    load.Answered? && load.answer.Some? ==> load.answer.value == c.compile(load.key)
  }

  /** The writer's place: it rests when there is nothing to write, and a temporary is the start of
      the head job's file. */
  predicate GoodWriter(c: Compiler, s: Cache) {
    && (!s.writer.Resting? ==> s.queue != [])
    && (s.writer.Writing? ==>
          s.queue[0].key in s.temporaries && s.temporaries[s.queue[0].key] <= File(c, s.queue[0]))
  }

  ghost predicate Invariant(c: Compiler, s: Cache) {
    && (forall i | 0 <= i < |s.queue| :: GoodJob(c, s.queue[i]))
    && (forall key | key in s.files :: GoodFile(c, key, s.files[key]))
    && (forall load | load in s.loads :: GoodLoad(c, s.loads[load]))
    && GoodWriter(c, s)
  }

  /** A whole temporary is the job's file. */
  lemma WholeTemporary(c: Compiler, s: Cache)
    requires Invariant(c, s) && s.writer.Writing?
    requires |s.temporaries[s.queue[0].key]| >= |File(c, s.queue[0])|
    ensures s.temporaries[s.queue[0].key] == Encode(c.build, s.queue[0].key, c.compile(s.queue[0].key))
  {
    assert GoodJob(c, s.queue[0]);
  }

  lemma RenameKeeps(c: Compiler, s: Cache)
    requires ValidCompiler(c) && Invariant(c, s)
    ensures Invariant(c, Renames(c, s))
  {
    if Renames(c, s) != s {
      var key := s.queue[0].key;
      WholeTemporary(c, s);
      assert GoodJob(c, s.queue[0]);
      LoadsWhatWasStored(c.build, key, c.compile(key));
    }
  }

  lemma {:induction false} PendingIsQueued(c: Compiler, queue: seq<Job>, key: Key)
    requires forall i | 0 <= i < |queue| :: GoodJob(c, queue[i])
    ensures Pending(queue, key).Some? <==> exists i | 0 <= i < |queue| :: queue[i].key == key
    ensures Pending(queue, key).Some? ==> Pending(queue, key).value == c.compile(key)
  {
    if queue != [] {
      PendingIsQueued(c, queue[1..], key);
      if exists i | 0 <= i < |queue| :: queue[i].key == key {
        var i :| 0 <= i < |queue| && queue[i].key == key;
        assert i > 0 ==> queue[1..][i - 1].key == key;
      }
      if i :| 0 <= i < |queue[1..]| && queue[1..][i].key == key {
        assert queue[i + 1].key == key;
      }
    }
  }

  lemma LookInQueueKeeps(c: Compiler, s: Cache, load: nat)
    requires Invariant(c, s)
    ensures Invariant(c, LooksInQueue(s, load))
  {
    if load in s.loads {
      PendingIsQueued(c, s.queue, s.loads[load].key);
    }
  }

  lemma AfterKeeps(c: Compiler, s: Cache, step: Step)
    requires ValidCompiler(c) && Invariant(c, s)
    ensures Invariant(c, After(c, s, step))
  {
    match step
    case Rename => RenameKeeps(c, s);
    case LookInQueue(load) => LookInQueueKeeps(c, s, load);
    case LookInFiles(load) => LookInFilesKeeps(c, s, load);
    case Store(key) => StoreKeeps(c, s, key);
    case WriteMore(bytes) => WriteMoreKeeps(c, s, bytes);
    case Dequeue => DequeueKeeps(c, s);
    case _ => OtherKeeps(c, s, step);
  }

  lemma WriteMoreKeeps(c: Compiler, s: Cache, bytes: nat)
    requires Invariant(c, s)
    ensures Invariant(c, WritesMore(c, s, bytes))
  {
  }

  lemma DequeueKeeps(c: Compiler, s: Cache)
    requires Invariant(c, s)
    ensures Invariant(c, Dequeues(s))
  {
  }

  lemma LookInFilesKeeps(c: Compiler, s: Cache, load: nat)
    requires Invariant(c, s)
    ensures Invariant(c, LooksInFiles(c, s, load))
  {
  }

  lemma StoreKeeps(c: Compiler, s: Cache, key: Key)
    requires Invariant(c, s)
    ensures Invariant(c, Stores(c, s, key))
  {
  }

  lemma OtherKeeps(c: Compiler, s: Cache, step: Step)
    requires Invariant(c, s) && !step.Rename? && !step.LookInQueue? && !step.LookInFiles? && !step.Store?
    requires !step.WriteMore? && !step.Dequeue?
    ensures Invariant(c, After(c, s, step))
  {
  }

  lemma {:induction false} RunKeeps(c: Compiler, s: Cache, steps: seq<Step>, k: nat)
    requires ValidCompiler(c) && Invariant(c, s) && k <= |steps|
    ensures Invariant(c, At(c, s, steps, k))
  {
    if k > 0 {
      RunKeeps(c, s, steps, k - 1);
      AfterKeeps(c, At(c, s, steps, k - 1), steps[k - 1]);
    }
  }

  /** A cache that starts over files an earlier run, or the title, left: any bytes, as long as those
      a load would believe are the key's own output. */
  ghost predicate Fresh(c: Compiler, s: Cache) {
    && s.queue == [] && s.writer.Resting? && s.loads == map[] && s.flushes == map[]
    && forall key | key in s.files :: GoodFile(c, key, s.files[key])
  }

  // ------------------------------------------------------------------ files

  /** A reader never sees a partial entry: in every interleaving each file a load can open is its
      key's whole entry, or was there at the start. */
  lemma {:induction false} FilesAreWhole(c: Compiler, s: Cache, steps: seq<Step>, k: nat, key: Key)
    requires ValidCompiler(c) && Invariant(c, s) && k <= |steps| && key in At(c, s, steps, k).files
    ensures var now := At(c, s, steps, k);
            (key in s.files && now.files[key] == s.files[key]) ||
            now.files[key] == Encode(c.build, key, c.compile(key))
  {
    if k > 0 {
      RunKeeps(c, s, steps, k - 1);
      StepWritesWhole(c, At(c, s, steps, k - 1), steps[k - 1], key);
      if key in At(c, s, steps, k - 1).files {
        FilesAreWhole(c, s, steps, k - 1, key);
      }
    }
  }

  lemma StepWritesWhole(c: Compiler, s: Cache, step: Step, key: Key)
    requires Invariant(c, s)
    ensures var later := After(c, s, step);
            && (key in later.files ==>
                  (key in s.files && later.files[key] == s.files[key]) ||
                  later.files[key] == Encode(c.build, key, c.compile(key)))
            && (InPlace(c, s, key) ==> InPlace(c, later, key))
  {
    if step.Rename? {
      RenameWritesWhole(c, s, key);
    } else {
      OnlyRenames(c, s, step);
    }
  }

  lemma RenameWritesWhole(c: Compiler, s: Cache, key: Key)
    requires Invariant(c, s)
    ensures var later := Renames(c, s);
            || later.files == s.files
            || (s.queue != [] &&
                var head := s.queue[0].key; later.files == s.files[head := Encode(c.build, head, c.compile(head))])
  {
    if Renames(c, s) != s {
      WholeTemporary(c, s);
    }
  }

  lemma OnlyRenames(c: Compiler, s: Cache, step: Step)
    requires !step.Rename?
    ensures After(c, s, step).files == s.files
  {
  }

  lemma {:induction false} NextInPlace(c: Compiler, s: Cache, steps: seq<Step>, k: nat, key: Key)
    requires k < |steps| && Invariant(c, At(c, s, steps, k)) && InPlace(c, At(c, s, steps, k), key)
    ensures InPlace(c, At(c, s, steps, k + 1), key)
  {
    StepWritesWhole(c, At(c, s, steps, k), steps[k], key);
  }

  /** A file in place stays. */
  lemma {:induction false} StaysInPlace(c: Compiler, s: Cache, steps: seq<Step>, j: nat, k: nat, key: Key)
    requires ValidCompiler(c) && Invariant(c, s) && j <= k <= |steps| && InPlace(c, At(c, s, steps, j), key)
    ensures InPlace(c, At(c, s, steps, k), key)
    decreases k - j
  {
    if j < k {
      RunKeeps(c, s, steps, j);
      NextInPlace(c, s, steps, j, key);
      StaysInPlace(c, s, steps, j + 1, k, key);
    }
  }

  // ------------------------------------------------------------------ what becomes of a store

  /** A job of the key is in the queue, and the writer is not done with it. */
  ghost predicate Underway(s: Cache, key: Key) {
    exists i | 0 <= i < |s.queue| :: s.queue[i].key == key && (i > 0 || !s.writer.Finished?)
  }

  /** Step f of a run is the failure of a write of the key. */
  predicate FailsAt(c: Compiler, s: Cache, steps: seq<Step>, f: nat, key: Key) {
    && f < |steps| && steps[f].FailWrite?
    && var before := At(c, s, steps, f);
       before.writer.Writing? && before.queue != [] && before.queue[0].key == key
  }

  /** Between steps i and k a write of the key fails. */
  ghost predicate FailsBetween(c: Compiler, s: Cache, steps: seq<Step>, i: nat, k: nat, key: Key) {
    exists f | i < f < k :: FailsAt(c, s, steps, f, key)
  }

  predicate Fails(s: Cache, step: Step, key: Key) {
    step.FailWrite? && s.writer.Writing? && s.queue != [] && s.queue[0].key == key
  }

  lemma StoreUnderway(c: Compiler, s: Cache, key: Key)
    requires Invariant(c, s) && Storable(c.compile(key))
    ensures Underway(After(c, s, Store(key)), key)
  {
    assert After(c, s, Store(key)).queue[|s.queue|].key == key;
  }

  /** A step leaves a job under way, puts its file in place, or fails its write. */
  lemma StepUnderway(c: Compiler, s: Cache, step: Step, key: Key)
    requires Invariant(c, s) && Underway(s, key)
    ensures Underway(After(c, s, step), key) || InPlace(c, After(c, s, step), key) || Fails(s, step, key)
  {
    var i :| 0 <= i < |s.queue| && s.queue[i].key == key && (i > 0 || !s.writer.Finished?);
    var later := After(c, s, step);
    if step.Dequeue? && later != s {
      assert later.queue[i - 1].key == key;
    } else {
      QueueStays(c, s, step);
      assert i < |later.queue| && later.queue[i].key == key;
      if i == 0 && step.Rename? && later != s {
        WholeTemporary(c, s);
      }
    }
  }

  /** Only the end of a job takes it off the queue, and only a rename or a failure ends it. */
  lemma QueueStays(c: Compiler, s: Cache, step: Step)
    ensures step.Dequeue? || s.queue <= After(c, s, step).queue
    ensures s.queue != [] && After(c, s, step).writer.Finished? ==>
              s.writer.Finished? || step.FailWrite? || step.Rename?
  {
  }

  ghost predicate Kept(c: Compiler, s: Cache, steps: seq<Step>, i: nat, k: nat, key: Key)
    requires k <= |steps|
  {
    var now := At(c, s, steps, k);
    Underway(now, key) || InPlace(c, now, key) || FailsBetween(c, s, steps, i, k, key)
  }

  lemma {:induction false} JustStored(c: Compiler, s: Cache, steps: seq<Step>, i: nat, key: Key)
    requires ValidCompiler(c) && Invariant(c, s)
    requires i < |steps| && steps[i] == Store(key) && Storable(c.compile(key))
    ensures Kept(c, s, steps, i, i + 1, key)
  {
    RunKeeps(c, s, steps, i);
    StoreUnderway(c, At(c, s, steps, i), key);
  }

  lemma {:induction false} NextKept(c: Compiler, s: Cache, steps: seq<Step>, i: nat, k: nat, key: Key)
    requires ValidCompiler(c) && Invariant(c, s) && i < k < |steps| && Kept(c, s, steps, i, k, key)
    ensures Kept(c, s, steps, i, k + 1, key)
  {
    RunKeeps(c, s, steps, k);
    if FailsBetween(c, s, steps, i, k, key) {
      LaterFails(c, s, steps, i, k, key);
    } else if InPlace(c, At(c, s, steps, k), key) {
      NextInPlace(c, s, steps, k, key);
    } else {
      NextUnderway(c, s, steps, i, k, key);
    }
  }

  /** At every point of every interleaving after a store, its job is under way, its file is in place,
      or a write of its key has failed since. */
  lemma {:induction false} StoreKept(c: Compiler, s: Cache, steps: seq<Step>, i: nat, k: nat, key: Key)
    requires ValidCompiler(c) && Invariant(c, s) && i < k <= |steps|
    requires steps[i] == Store(key) && Storable(c.compile(key))
    ensures Kept(c, s, steps, i, k, key)
    decreases k
  {
    if k == i + 1 {
      JustStored(c, s, steps, i, key);
    } else {
      StoreKept(c, s, steps, i, k - 1, key);
      NextKept(c, s, steps, i, k - 1, key);
    }
  }

  lemma LaterFails(c: Compiler, s: Cache, steps: seq<Step>, i: nat, k: nat, key: Key)
    requires FailsBetween(c, s, steps, i, k, key)
    ensures FailsBetween(c, s, steps, i, k + 1, key)
  {
    var f :| i < f < k && FailsAt(c, s, steps, f, key);
    assert i < f < k + 1;
  }

  lemma {:induction false} NextUnderway(c: Compiler, s: Cache, steps: seq<Step>, i: nat, k: nat, key: Key)
    requires i < k < |steps| && Invariant(c, At(c, s, steps, k)) && Underway(At(c, s, steps, k), key)
    ensures var now := At(c, s, steps, k + 1);
            Underway(now, key) || InPlace(c, now, key) || FailsBetween(c, s, steps, i, k + 1, key)
  {
    StepUnderway(c, At(c, s, steps, k), steps[k], key);
    if Fails(At(c, s, steps, k), steps[k], key) {
      assert FailsAt(c, s, steps, k, key);
    }
  }

  // ------------------------------------------------------------------ loads

  /** Step j of a run begins the load, and no later one does. */
  predicate BeginsLoadAt(steps: seq<Step>, j: nat, load: nat, key: Key) {
    && j < |steps| && steps[j] == BeginLoad(load, key)
    && forall k | j < k < |steps| :: !(steps[k].BeginLoad? && steps[k].load == load)
  }

  /** The load looks in the queue after a write of the key has failed since the store, and its file
      is not in place. */
  ghost predicate Misses(c: Compiler, s: Cache, steps: seq<Step>, i: nat, j: nat, q: nat, load: nat, key: Key) {
    && j < q < |steps| && steps[q] == LookInQueue(load) && FailsBetween(c, s, steps, i, q, key)
    && !InPlace(c, At(c, s, steps, q), key)
  }

  ghost predicate Missed(c: Compiler, s: Cache, steps: seq<Step>, i: nat, j: nat, k: nat, load: nat, key: Key) {
    exists q | j < q < k :: Misses(c, s, steps, i, j, q, load, key)
  }

  /** Where a load stands: once it has looked in the queue, its answer is there or its file is. */
  ghost predicate OnItsWay(c: Compiler, s: Cache, load: nat, key: Key) {
    load in s.loads &&
    match s.loads[load]
    case Asking(k) => k == key
    case Opening(k) => k == key && InPlace(c, s, key)
    case Answered(k, answer) => k == key && answer == Some(c.compile(key))
  }

  lemma LooksAndFinds(c: Compiler, s: Cache, load: nat, key: Key)
    requires ValidCompiler(c) && Invariant(c, s) && OnItsWay(c, s, load, key) && Storable(c.compile(key))
    requires Underway(s, key) || InPlace(c, s, key)
    ensures OnItsWay(c, LooksInQueue(s, load), load, key)
  {
    PendingIsQueued(c, s.queue, key);
  }

  lemma OpensAndFinds(c: Compiler, s: Cache, load: nat, key: Key)
    requires ValidCompiler(c) && Invariant(c, s) && OnItsWay(c, s, load, key) && Storable(c.compile(key))
    ensures OnItsWay(c, LooksInFiles(c, s, load), load, key)
  {
    LoadsWhatWasStored(c.build, key, c.compile(key));
  }

  lemma OthersLeaveLoad(c: Compiler, s: Cache, step: Step, load: nat, key: Key)
    requires ValidCompiler(c) && Invariant(c, s) && OnItsWay(c, s, load, key)
    requires !(step.BeginLoad? && step.load == load) && step != LookInQueue(load) && step != LookInFiles(load)
    ensures OnItsWay(c, After(c, s, step), load, key)
  {
    StepWritesWhole(c, s, step, key);
  }

  lemma {:induction false} LoadOnItsWay(c: Compiler, s: Cache, steps: seq<Step>, i: nat, j: nat, k: nat, load: nat,
                                        key: Key)
    requires ValidCompiler(c) && Invariant(c, s) && i < j < k <= |steps|
    requires steps[i] == Store(key) && Storable(c.compile(key)) && BeginsLoadAt(steps, j, load, key)
    ensures OnItsWay(c, At(c, s, steps, k), load, key) || Missed(c, s, steps, i, j, k, load, key)
    decreases k
  {
    if k > j + 1 {
      LoadOnItsWay(c, s, steps, i, j, k - 1, load, key);
      if Missed(c, s, steps, i, j, k - 1, load, key) {
        var q :| j < q < k - 1 && Misses(c, s, steps, i, j, q, load, key);
        assert Missed(c, s, steps, i, j, k, load, key);
      } else {
        LoadStep(c, s, steps, i, j, k - 1, load, key);
      }
    }
  }

  lemma {:induction false} LoadStep(c: Compiler, s: Cache, steps: seq<Step>, i: nat, j: nat, k: nat, load: nat,
                                    key: Key)
    requires ValidCompiler(c) && Invariant(c, s) && i < j < k < |steps|
    requires steps[i] == Store(key) && Storable(c.compile(key)) && BeginsLoadAt(steps, j, load, key)
    requires OnItsWay(c, At(c, s, steps, k), load, key)
    ensures OnItsWay(c, At(c, s, steps, k + 1), load, key) || Missed(c, s, steps, i, j, k + 1, load, key)
  {
    var now := At(c, s, steps, k);
    RunKeeps(c, s, steps, k);
    if steps[k] == LookInQueue(load) {
      StoreKept(c, s, steps, i, k, key);
      if Underway(now, key) || InPlace(c, now, key) {
        LooksAndFinds(c, now, load, key);
      } else {
        assert Misses(c, s, steps, i, j, k, load, key);
      }
    } else if steps[k] == LookInFiles(load) {
      OpensAndFinds(c, now, load, key);
    } else {
      OthersLeaveLoad(c, now, steps[k], load, key);
    }
  }

  /** A load begun after a store of its key hits with exactly what was stored, whatever happens
      between, unless a write of the key fails between the store and the load's look into the queue
      with no file in place by then. */
  lemma {:induction false} LoadsHit(c: Compiler, s: Cache, steps: seq<Step>, i: nat, j: nat, load: nat, key: Key)
    requires ValidCompiler(c) && Fresh(c, s) && i < j
    requires BeginsLoadAt(steps, j, load, key) && steps[i] == Store(key) && Storable(c.compile(key))
    ensures var end := Run(c, s, steps);
            && load in end.loads && end.loads[load].key == key
            && (end.loads[load].Answered? ==>
                  || end.loads[load].answer == Some(c.compile(key))
                  || Missed(c, s, steps, i, j, |steps|, load, key))
  {
    LoadThere(c, s, steps, j, |steps|, load, key);
    LoadOnItsWay(c, s, steps, i, j, |steps|, load, key);
  }

  lemma {:induction false} LoadThere(c: Compiler, s: Cache, steps: seq<Step>, j: nat, k: nat, load: nat, key: Key)
    requires BeginsLoadAt(steps, j, load, key) && j < k <= |steps|
    ensures var now := At(c, s, steps, k); load in now.loads && now.loads[load].key == key
    decreases k
  {
    if k > j + 1 {
      LoadThere(c, s, steps, j, k - 1, load, key);
      NextLoad(c, s, steps, k - 1, load);
    }
  }

  lemma {:induction false} NextLoad(c: Compiler, s: Cache, steps: seq<Step>, k: nat, load: nat)
    requires k < |steps| && load in At(c, s, steps, k).loads && !(steps[k].BeginLoad? && steps[k].load == load)
    ensures var now, later := At(c, s, steps, k), At(c, s, steps, k + 1);
            && load in later.loads && later.loads[load].key == now.loads[load].key
            && (!now.loads[load].Asking? ==> !later.loads[load].Asking?)
            && (now.loads[load].Answered? ==> later.loads[load].Answered?)
  {
    LoadGoesOn(c, At(c, s, steps, k), steps[k], load);
  }

  /** A load keeps its key and only goes forward. */
  lemma LoadGoesOn(c: Compiler, s: Cache, step: Step, load: nat)
    requires load in s.loads && !(step.BeginLoad? && step.load == load)
    ensures var later := After(c, s, step);
            && load in later.loads && later.loads[load].key == s.loads[load].key
            && (!s.loads[load].Asking? ==> !later.loads[load].Asking?)
            && (s.loads[load].Answered? ==> later.loads[load].Answered?)
  {
  }

  /** No load ever answers anything but its key's own output. */
  lemma {:induction false} LoadsAnswerRight(c: Compiler, s: Cache, steps: seq<Step>, load: nat)
    requires ValidCompiler(c) && Fresh(c, s)
    requires load in Run(c, s, steps).loads && Run(c, s, steps).loads[load].Answered?
    ensures var l := Run(c, s, steps).loads[load]; l.answer.Some? ==> l.answer.value == c.compile(l.key)
  {
    RunKeeps(c, s, steps, |steps|);
  }

  /** A load answers: at the latest once it has looked in the queue and then in the files. */
  lemma {:induction false} LoadsAnswer(c: Compiler, s: Cache, steps: seq<Step>, j: nat, q: nat, r: nat, load: nat,
                                       key: Key)
    requires BeginsLoadAt(steps, j, load, key) && j < q < r < |steps|
    requires steps[q] == LookInQueue(load) && steps[r] == LookInFiles(load)
    ensures var end := Run(c, s, steps); load in end.loads && end.loads[load].Answered?
  {
    LoadThere(c, s, steps, j, q, load, key);
    NotAsking(c, s, steps, j, q + 1, r, load, key);
    StaysAnswered(c, s, steps, j, r + 1, |steps|, load, key);
  }

  lemma {:induction false} NotAsking(c: Compiler, s: Cache, steps: seq<Step>, j: nat, m: nat, k: nat, load: nat,
                                     key: Key)
    requires BeginsLoadAt(steps, j, load, key) && j < m <= k <= |steps|
    requires load in At(c, s, steps, m).loads && !At(c, s, steps, m).loads[load].Asking?
    ensures load in At(c, s, steps, k).loads && !At(c, s, steps, k).loads[load].Asking?
    decreases k - m
  {
    if m < k {
      NextLoad(c, s, steps, m, load);
      NotAsking(c, s, steps, j, m + 1, k, load, key);
    }
  }

  lemma {:induction false} StaysAnswered(c: Compiler, s: Cache, steps: seq<Step>, j: nat, m: nat, k: nat, load: nat,
                                         key: Key)
    requires BeginsLoadAt(steps, j, load, key) && j < m <= k <= |steps|
    requires load in At(c, s, steps, m).loads && At(c, s, steps, m).loads[load].Answered?
    ensures load in At(c, s, steps, k).loads && At(c, s, steps, k).loads[load].Answered?
    decreases k - m
  {
    if m < k {
      NextLoad(c, s, steps, m, load);
      StaysAnswered(c, s, steps, j, m + 1, k, load, key);
    }
  }

  // ------------------------------------------------------------------ flushes

  /** Step j of a run begins the flush, and no later one does. */
  predicate BeginsFlushAt(steps: seq<Step>, j: nat, flush: nat) {
    j < |steps| && steps[j] == BeginFlush(flush) && forall k | j < k < |steps| :: steps[k] != BeginFlush(flush)
  }

  predicate Returned(s: Cache, flush: nat) {
    flush in s.flushes && s.flushes[flush].Drained?
  }

  /** At step e the flush finds the queue empty. */
  predicate DrainsAt(c: Compiler, s: Cache, steps: seq<Step>, e: nat, flush: nat) {
    e < |steps| && steps[e] == EndFlush(flush) && At(c, s, steps, e).queue == []
  }

  lemma {:induction false} ReturnedBy(c: Compiler, s: Cache, steps: seq<Step>, j: nat, k: nat, flush: nat)
    requires BeginsFlushAt(steps, j, flush) && j < k <= |steps|
    ensures flush in At(c, s, steps, k).flushes
    ensures Returned(At(c, s, steps, k), flush) <==> exists e | j < e < k :: DrainsAt(c, s, steps, e, flush)
    decreases k
  {
    if k > j + 1 {
      var before := At(c, s, steps, k - 1);
      ReturnedBy(c, s, steps, j, k - 1, flush);
      if Returned(before, flush) {
        var e :| j < e < k - 1 && DrainsAt(c, s, steps, e, flush);
        assert j < e < k;
      } else if steps[k - 1] == EndFlush(flush) && before.queue == [] {
        assert DrainsAt(c, s, steps, k - 1, flush);
      }
    }
  }

  /** A flush has returned exactly when it found the queue empty at some point since it began. */
  lemma {:induction false} FlushReturnsWhenDrained(c: Compiler, s: Cache, steps: seq<Step>, j: nat, flush: nat)
    requires BeginsFlushAt(steps, j, flush)
    ensures Returned(Run(c, s, steps), flush) <==>
            exists e | j < e < |steps| :: DrainsAt(c, s, steps, e, flush)
  {
    ReturnedBy(c, s, steps, j, |steps|, flush);
  }

  /** A flush returns only once the file of every store before it is in place, unless a write of its
      key has failed between the store and the queue's being found empty. */
  lemma {:induction false} FlushWaits(c: Compiler, s: Cache, steps: seq<Step>, i: nat, j: nat, flush: nat, key: Key)
    requires ValidCompiler(c) && Fresh(c, s) && i < j
    requires BeginsFlushAt(steps, j, flush) && steps[i] == Store(key) && Storable(c.compile(key))
    requires Returned(Run(c, s, steps), flush)
    ensures InPlace(c, Run(c, s, steps), key) ||
            exists e | j < e < |steps| :: DrainsAt(c, s, steps, e, flush) && FailsBetween(c, s, steps, i, e, key)
  {
    FlushReturnsWhenDrained(c, s, steps, j, flush);
    var e :| j < e < |steps| && DrainsAt(c, s, steps, e, flush);
    StoreKept(c, s, steps, i, e, key);
    if InPlace(c, At(c, s, steps, e), key) {
      StaysInPlace(c, s, steps, e, |steps|, key);
    }
  }

  /** A write that fails ends its job too: no file changes, its temporary is gone, and the job leaves
      the queue. */
  lemma FailedWriteEnds(c: Compiler, s: Cache)
    requires Invariant(c, s) && s.writer.Writing?
    ensures var failed := After(c, s, FailWrite);
            && failed.files == s.files && s.queue[0].key !in failed.temporaries
            && After(c, failed, Dequeue) == failed.(writer := Resting, queue := s.queue[1..])
  {
  }

  // ------------------------------------------------------------------ the writer gets there

  /** The writer's own steps to the end of the job at the head, if nothing fails. */
  function HeadSteps(c: Compiler, s: Cache): seq<Step>
    requires s.queue != []
  {
    match s.writer
    case Resting => [BeginWrite, WriteMore(|File(c, s.queue[0])|), Rename, Dequeue]
    case Writing => [WriteMore(|File(c, s.queue[0])|), Rename, Dequeue]
    case Finished => [Dequeue]
  }

  function Does(c: Compiler, s: Cache, steps: seq<Step>): Cache
    decreases |steps|
  {
    if steps == [] then s else Does(c, After(c, s, steps[0]), steps[1..])
  }

  lemma WritesHead(c: Compiler, s: Cache)
    requires Invariant(c, s) && s.writer.Writing?
    ensures var done := Renames(c, WritesMore(c, s, |File(c, s.queue[0])|));
            InPlace(c, done, s.queue[0].key) && done.writer.Finished? && done.queue == s.queue
  {
    assert GoodJob(c, s.queue[0]);
    assert File(c, s.queue[0])[..|File(c, s.queue[0])|] == File(c, s.queue[0]);
  }

  /** They end the job, with its file in place unless its write had failed already. */
  lemma {:induction false} WriterFinishes(c: Compiler, s: Cache)
    requires Invariant(c, s) && s.queue != []
    ensures var done := Does(c, s, HeadSteps(c, s));
            && done.queue == s.queue[1..] && done.writer.Resting?
            && (!s.writer.Finished? ==> InPlace(c, done, s.queue[0].key))
  {
    var write := WriteMore(|File(c, s.queue[0])|);
    if s.writer.Writing? {
      WritesHead(c, s);
      ThreeSteps(c, s, write, Rename, Dequeue);
    } else if s.writer.Resting? {
      var begun := BeginsWrite(s);
      WritesHead(c, begun);
      ThreeSteps(c, begun, write, Rename, Dequeue);
      assert HeadSteps(c, s)[1..] == [write, Rename, Dequeue];
    } else {
      OneStep(c, s, Dequeue);
    }
  }

  lemma {:induction false} OneStep(c: Compiler, s: Cache, step: Step)
    ensures Does(c, s, [step]) == After(c, s, step)
  {
    assert Does(c, After(c, s, step), [step][1..]) == After(c, s, step);
  }

  lemma {:induction false} ThreeSteps(c: Compiler, s: Cache, first: Step, second: Step, third: Step)
    ensures Does(c, s, [first, second, third]) == After(c, After(c, After(c, s, first), second), third)
  {
    var one := After(c, s, first);
    OneStep(c, After(c, one, second), third);
    assert [first, second, third][1..] == [second, third];
    assert [second, third][1..] == [third];
    assert Does(c, one, [second, third]) == Does(c, After(c, one, second), [third]);
  }
}
