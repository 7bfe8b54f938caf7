/**
Descriptor pools: driver/ps5vk_descriptor_set.c's counters and list of live sets. Counters are
32-bit and wrap. An allocation of several sets is all or nothing.
*/
module DescriptorPools {
  import opened Options
  import opened DescriptorLayouts

  const WORD: nat := 0x1_0000_0000

  /** A live set: its handle and the bindings it was allocated for. */
  datatype PoolSet = PoolSet(handle: nat, bindings: seq<Binding>)

  /** struct ps5vk_descriptor_pool: the sizes' types and what remains of each, and the live sets,
      newest first. */
  datatype Pool = Pool(
    kinds: seq<DescriptorType>, remaining: seq<nat>, maxSets: nat, setCount: nat, sets: seq<PoolSet>)

  // ------------------------------------------------------------------ finding, having, taking, giving

  /** The first entry of a type (ps5vk_descriptor_pool_find). */
  function Find(kinds: seq<DescriptorType>, kind: DescriptorType): (k: Option<nat>)
    ensures k.Some? ==> k.value < |kinds| && kinds[k.value] == kind
  {
    if kinds == [] then None
    else if kinds[0] == kind then Some(0)
    else
      match Find(kinds[1..], kind)
      case None => None
      case Some(k) => Some(k + 1)
  }

  method FindEntry(kinds: seq<DescriptorType>, kind: DescriptorType) returns (found: Option<nat>)
    ensures found == Find(kinds, kind)
  {
    for i := 0 to |kinds|
      invariant Find(kinds, kind) == match Find(kinds[i..], kind) { case None => None case Some(k) => Some(k + i) }
    {
      if kinds[i] == kind {
        return Some(i);
      }
      assert kinds[i..][1..] == kinds[i + 1..];
    }
    return None;
  }

  /** Binding b's descriptors are there. */
  predicate HasOne(kinds: seq<DescriptorType>, remaining: seq<nat>, b: Binding)
    requires |kinds| == |remaining|
  {
    b.count == 0 || (Find(kinds, b.kind).Some? && remaining[Find(kinds, b.kind).value] >= b.count)
  }

  ghost predicate Has(kinds: seq<DescriptorType>, remaining: seq<nat>, bindings: seq<Binding>)
    requires |kinds| == |remaining|
  {
    forall i | 0 <= i < |bindings| :: HasOne(kinds, remaining, bindings[i])
  }

  /** The entry binding b's descriptors come from. */
  predicate From(kinds: seq<DescriptorType>, b: Binding, k: nat) {
    b.count != 0 && Find(kinds, b.kind) == Some(k)
  }

  function TakeOne(kinds: seq<DescriptorType>, remaining: seq<nat>, b: Binding): (out: seq<nat>)
    requires |kinds| == |remaining|
    ensures |out| == |remaining|
  {
    if b.count == 0 || Find(kinds, b.kind).None? then remaining
    else
      var k := Find(kinds, b.kind).value;
      remaining[k := (remaining[k] - b.count) % WORD]
  }

  function GiveOne(kinds: seq<DescriptorType>, remaining: seq<nat>, b: Binding): (out: seq<nat>)
    requires |kinds| == |remaining|
    ensures |out| == |remaining|
  {
    if b.count == 0 || Find(kinds, b.kind).None? then remaining
    else
      var k := Find(kinds, b.kind).value;
      remaining[k := (remaining[k] + b.count) % WORD]
  }

  /** What the first n bindings take from entry k. */
  function Need(kinds: seq<DescriptorType>, bindings: seq<Binding>, n: nat, k: nat): nat
    requires n <= |bindings|
  {
    if n == 0 then 0
    else Need(kinds, bindings, n - 1, k) + if From(kinds, bindings[n - 1], k) then bindings[n - 1].count else 0
  }

  function Needed(kinds: seq<DescriptorType>, bindings: seq<Binding>, k: nat): nat {
    Need(kinds, bindings, |bindings|, k)
  }

  /** Entry by entry, what a layout's descriptors leave. */
  function Taken(kinds: seq<DescriptorType>, remaining: seq<nat>, bindings: seq<Binding>, n: nat): seq<nat>
    requires |kinds| == |remaining| && n <= |bindings|
  {
    seq(|remaining|, k requires 0 <= k < |remaining| => (remaining[k] - Need(kinds, bindings, n, k)) % WORD)
  }

  function Given(kinds: seq<DescriptorType>, remaining: seq<nat>, bindings: seq<Binding>, n: nat): seq<nat>
    requires |kinds| == |remaining| && n <= |bindings|
  {
    seq(|remaining|, k requires 0 <= k < |remaining| => (remaining[k] + Need(kinds, bindings, n, k)) % WORD)
  }

  ghost predicate Words(remaining: seq<nat>) {
    forall k | 0 <= k < |remaining| :: remaining[k] < WORD
  }

  lemma WrapTwice(a: int, b: int)
    ensures (a % WORD - b) % WORD == (a - b) % WORD && (a % WORD + b) % WORD == (a + b) % WORD
  {
  }

  lemma TakenNext(kinds: seq<DescriptorType>, remaining: seq<nat>, bindings: seq<Binding>, n: nat)
    requires |kinds| == |remaining| && n < |bindings|
    ensures TakeOne(kinds, Taken(kinds, remaining, bindings, n), bindings[n]) ==
            Taken(kinds, remaining, bindings, n + 1)
  {
    var b, now := bindings[n], Taken(kinds, remaining, bindings, n);
    forall k | 0 <= k < |remaining|
      ensures TakeOne(kinds, now, b)[k] == Taken(kinds, remaining, bindings, n + 1)[k]
    {
      WrapTwice(remaining[k] - Need(kinds, bindings, n, k), b.count);
    }
  }

  lemma GivenNext(kinds: seq<DescriptorType>, remaining: seq<nat>, bindings: seq<Binding>, n: nat)
    requires |kinds| == |remaining| && n < |bindings|
    ensures GiveOne(kinds, Given(kinds, remaining, bindings, n), bindings[n]) ==
            Given(kinds, remaining, bindings, n + 1)
  {
    var b, now := bindings[n], Given(kinds, remaining, bindings, n);
    forall k | 0 <= k < |remaining|
      ensures GiveOne(kinds, now, b)[k] == Given(kinds, remaining, bindings, n + 1)[k]
    {
      WrapTwice(remaining[k] + Need(kinds, bindings, n, k), b.count);
    }
  }

  lemma NothingTaken(kinds: seq<DescriptorType>, remaining: seq<nat>, bindings: seq<Binding>)
    requires |kinds| == |remaining| && Words(remaining)
    ensures Taken(kinds, remaining, bindings, 0) == remaining && Given(kinds, remaining, bindings, 0) == remaining
  {
  }

  /** What a layout takes, giving it back restores exactly. */
  lemma GiveRestores(kinds: seq<DescriptorType>, remaining: seq<nat>, bindings: seq<Binding>)
    requires |kinds| == |remaining| && Words(remaining)
    ensures Given(kinds, Taken(kinds, remaining, bindings, |bindings|), bindings, |bindings|) == remaining
  {
    forall k | 0 <= k < |remaining|
      ensures ((remaining[k] - Needed(kinds, bindings, k)) % WORD + Needed(kinds, bindings, k)) % WORD == remaining[k]
    {
      WrapTwice(remaining[k] - Needed(kinds, bindings, k), Needed(kinds, bindings, k));
    }
  }

  // ------------------------------------------------------------------ one set, and several

  predicate ValidPool(p: Pool) {
    |p.kinds| == |p.remaining| && (forall k | 0 <= k < |p.remaining| :: p.remaining[k] < WORD)
  }

  /** One set taken from the pool, at the head of its list. */
  function Added(p: Pool, bindings: seq<Binding>, handle: nat): (q: Pool)
    requires ValidPool(p)
    ensures ValidPool(q)
  {
    p.(remaining := Taken(p.kinds, p.remaining, bindings, |bindings|), setCount := p.setCount + 1,
       sets := [PoolSet(handle, bindings)] + p.sets)
  }

  /** The place of a set in the list. */
  function Place(sets: seq<PoolSet>, handle: nat): (i: Option<nat>)
    ensures i.Some? ==> i.value < |sets| && sets[i.value].handle == handle
  {
    if sets == [] then None
    else if sets[0].handle == handle then Some(0)
    else
      match Place(sets[1..], handle)
      case None => None
      case Some(i) => Some(i + 1)
  }

  method FindSet(sets: seq<PoolSet>, handle: nat) returns (place: Option<nat>)
    ensures place == Place(sets, handle)
  {
    var at := 0;
    while at < |sets| && sets[at].handle != handle
      invariant at <= |sets|
      invariant Place(sets, handle) ==
                match Place(sets[at..], handle) { case None => None case Some(i) => Some(i + at) }
    {
      assert sets[at..][1..] == sets[at + 1..];
      at := at + 1;
    }
    return if at == |sets| then None else Some(at);
  }

  /** ps5vk_descriptor_pool_unlink and the set's release: nothing for a set the pool does not hold. */
  function Released(p: Pool, handle: nat): (q: Pool)
    requires ValidPool(p) && p.setCount >= |p.sets|
    ensures ValidPool(q) && q.setCount - |q.sets| == p.setCount - |p.sets|
  {
    match Place(p.sets, handle)
    case None => p
    case Some(i) =>
      var bindings := p.sets[i].bindings;
      p.(remaining := Given(p.kinds, p.remaining, bindings, |bindings|), setCount := p.setCount - 1,
         sets := p.sets[..i] + p.sets[i + 1..])
  }

  /** The pool with the first n of an allocation's sets. */
  function AddedAll(p: Pool, layouts: seq<seq<Binding>>, handles: seq<nat>, n: nat): (q: Pool)
    requires ValidPool(p) && n <= |layouts| && |handles| == |layouts|
    ensures ValidPool(q) && q.kinds == p.kinds && q.maxSets == p.maxSets
    ensures q.setCount == p.setCount + n && |q.sets| == |p.sets| + n
  {
    if n == 0 then p else Added(AddedAll(p, layouts, handles, n - 1), layouts[n - 1], handles[n - 1])
  }

  /** Releasing the set just added restores the pool. */
  lemma ReleaseRestores(p: Pool, bindings: seq<Binding>, handle: nat)
    requires ValidPool(p) && p.setCount >= |p.sets|
    ensures Released(Added(p, bindings, handle), handle) == p
  {
    var q := Added(p, bindings, handle);
    assert Place(q.sets, handle) == Some(0);
    assert q.sets[..0] + q.sets[1..] == p.sets;
    GiveRestores(p.kinds, p.remaining, bindings);
  }

  /** An allocation the pool and the host have room for. `hostFails` is the set the host has no
      memory for, past the last when it has. */
  ghost predicate Allocatable(p: Pool, layouts: seq<seq<Binding>>, handles: seq<nat>, hostFails: nat)
    requires ValidPool(p) && |handles| == |layouts|
  {
    && p.setCount + |layouts| <= p.maxSets && hostFails >= |layouts|
    && forall i | 0 <= i < |layouts| :: HasSet(p, layouts, handles, i)
  }

  /** The i-th set's descriptors are there once the sets before it have theirs. */
  ghost predicate HasSet(p: Pool, layouts: seq<seq<Binding>>, handles: seq<nat>, i: nat)
    requires ValidPool(p) && |handles| == |layouts| && i < |layouts|
  {
    Has(p.kinds, AddedAll(p, layouts, handles, i).remaining, layouts[i])
  }

  // ------------------------------------------------------------------ the pool in place

  class DescriptorPool {
    var kinds: seq<DescriptorType>
    var remaining: seq<nat>
    var maxSets: nat
    var setCount: nat
    var sets: seq<PoolSet>

    ghost function View(): Pool
      reads this
    {
      Pool(kinds, remaining, maxSets, setCount, sets)
    }

    ghost predicate Valid()
      reads this
    {
      ValidPool(View()) && setCount == |sets|
    }

    /** ps5vk_CreateDescriptorPool. */
    constructor (types: seq<DescriptorType>, counts: seq<nat>, max: nat)
      requires |types| == |counts| && Words(counts)
      ensures Valid() && View() == Pool(types, counts, max, 0, [])
    {
      kinds, remaining, maxSets, setCount, sets := types, counts, max, 0, [];
    }

    method CheckHas(bindings: seq<Binding>) returns (has: bool)
      requires Valid()
      ensures has <==> Has(kinds, remaining, bindings)
    {
      for b := 0 to |bindings|
        invariant forall i | 0 <= i < b :: HasOne(kinds, remaining, bindings[i])
      {
        var binding := bindings[b];
        if binding.count != 0 {
          var k := FindEntry(kinds, binding.kind);
          if k.None? || remaining[k.value] < binding.count {
            assert !HasOne(kinds, remaining, bindings[b]);
            return false;
          }
        }
      }
      return true;
    }

    method TakeDescriptors(bindings: seq<Binding>)
      requires Valid()
      modifies this`remaining
      ensures Valid() && remaining == Taken(kinds, old(remaining), bindings, |bindings|)
    {
      NothingTaken(kinds, remaining, bindings);
      for b := 0 to |bindings|
        invariant Valid() && remaining == Taken(kinds, old(remaining), bindings, b)
      {
        TakenNext(kinds, old(remaining), bindings, b);
        var binding := bindings[b];
        var k := FindEntry(kinds, binding.kind);
        if binding.count != 0 && k.Some? {
          remaining := remaining[k.value := (remaining[k.value] - binding.count) % WORD];
        }
      }
    }

    method GiveDescriptors(bindings: seq<Binding>)
      requires Valid()
      modifies this`remaining
      ensures Valid() && remaining == Given(kinds, old(remaining), bindings, |bindings|)
    {
      NothingTaken(kinds, remaining, bindings);
      for b := 0 to |bindings|
        invariant Valid() && remaining == Given(kinds, old(remaining), bindings, b)
      {
        GivenNext(kinds, old(remaining), bindings, b);
        var binding := bindings[b];
        var k := FindEntry(kinds, binding.kind);
        if binding.count != 0 && k.Some? {
          remaining := remaining[k.value := (remaining[k.value] + binding.count) % WORD];
        }
      }
    }

    /** ps5vk_descriptor_pool_unlink walks the list; the set's descriptors go back. */
    method Release(handle: nat)
      requires Valid()
      modifies this
      ensures Valid() && View() == Released(old(View()), handle)
    {
      var place := FindSet(sets, handle);
      if place.None? {
        return;
      }
      var at := place.value;
      var bindings := sets[at].bindings;
      sets := sets[..at] + sets[at + 1..];
      setCount := setCount - 1;
      GiveDescriptors(bindings);
    }

    /** One turn of the allocation loop: false, and nothing changed, when the pool or the host runs
        out. */
    method AllocateOne(bindings: seq<Binding>, handle: nat, hostFails: bool) returns (ok: bool)
      requires Valid()
      modifies this
      ensures Valid() && (ok <==> Has(old(kinds), old(remaining), bindings) && !hostFails)
      ensures View() == if ok then Added(old(View()), bindings, handle) else old(View())
    {
      var has := CheckHas(bindings);
      if !has {
        return false;
      }
      TakeDescriptors(bindings);
      if hostFails {
        GiveRestores(kinds, old(remaining), bindings);
        GiveDescriptors(bindings);
        return false;
      }
      sets := [PoolSet(handle, bindings)] + sets;
      setCount := setCount + 1;
      return true;
    }

    /** The rollback: the sets allocated so far go back, newest first. */
    method RollBack(layouts: seq<seq<Binding>>, handles: seq<nat>, count: nat, ghost before: Pool)
      requires Valid() && |handles| == |layouts| && count <= |layouts|
      requires ValidPool(before) && before.setCount == |before.sets|
      requires View() == AddedAll(before, layouts, handles, count)
      modifies this
      ensures Valid() && View() == before
    {
      var left: nat := count;
      while left > 0
        invariant Valid() && left <= count && View() == AddedAll(before, layouts, handles, left)
      {
        left := left - 1;
        ghost var rest := AddedAll(before, layouts, handles, left);
        assert View() == Added(rest, layouts[left], handles[left]);
        ReleaseRestores(rest, layouts[left], handles[left]);
        Release(handles[left]);
      }
    }

    /** ps5vk_AllocateDescriptorSets: every set, or the pool exactly as it was. */
    method Allocate(layouts: seq<seq<Binding>>, handles: seq<nat>, hostFails: nat) returns (ok: bool)
      requires Valid() && |handles| == |layouts|
      modifies this
      ensures Valid() && (ok <==> Allocatable(old(View()), layouts, handles, hostFails))
      ensures View() == if ok then AddedAll(old(View()), layouts, handles, |layouts|) else old(View())
    {
      if setCount + |layouts| > maxSets {
        return false;
      }
      ghost var before := View();
      for i := 0 to |layouts|
        invariant Valid() && View() == AddedAll(before, layouts, handles, i) && hostFails >= i
        invariant forall k | 0 <= k < i :: HasSet(before, layouts, handles, k)
      {
        var one := AllocateOne(layouts[i], handles[i], hostFails == i);
        if !one {
          assert hostFails == i || !HasSet(before, layouts, handles, i);
          RollBack(layouts, handles, i, before);
          return false;
        }
        assert HasSet(before, layouts, handles, i);
      }
      return true;
    }

    /** ps5vk_FreeDescriptorSets. */
    method Free(handles: seq<nat>)
      requires Valid()
      modifies this
      ensures Valid() && View() == ReleasedAll(old(View()), handles, |handles|)
    {
      ghost var before := View();
      for i := 0 to |handles|
        invariant Valid() && View() == ReleasedAll(before, handles, i)
      {
        Release(handles[i]);
      }
    }

    /** ps5vk_descriptor_pool_clear: reset and destroy. */
    method Clear()
      requires Valid()
      modifies this
      ensures Valid() && View() == ClearedPool(old(View())) && sets == []
    {
      ghost var before := View();
      while |sets| > 0
        invariant Valid() && ClearedPool(View()) == ClearedPool(before)
        decreases |sets|
      {
        Release(sets[0].handle);
      }
    }
  }

  function ReleasedAll(p: Pool, handles: seq<nat>, n: nat): (q: Pool)
    requires ValidPool(p) && p.setCount == |p.sets| && n <= |handles|
    ensures ValidPool(q) && q.setCount == |q.sets|
  {
    if n == 0 then p else Released(ReleasedAll(p, handles, n - 1), handles[n - 1])
  }

  function ClearedPool(p: Pool): (q: Pool)
    requires ValidPool(p) && p.setCount == |p.sets|
    ensures ValidPool(q) && q.setCount == |q.sets| == 0
    decreases |p.sets|
  {
    if p.sets == [] then p
    else
      assert Place(p.sets, p.sets[0].handle) == Some(0);
      ClearedPool(Released(p, p.sets[0].handle))
  }

  // ------------------------------------------------------------------ conservation

  /** What the live sets hold of entry k. */
  function Held(kinds: seq<DescriptorType>, sets: seq<PoolSet>, k: nat): nat {
    if sets == [] then 0 else Needed(kinds, sets[0].bindings, k) + Held(kinds, sets[1..], k)
  }

  /** What remains of each entry and what the live sets hold of it make up what the pool was created
      with, in 32 bits. */
  ghost predicate Conserved(p: Pool, created: seq<nat>) {
    && ValidPool(p) && |created| == |p.remaining|
    && forall k | 0 <= k < |created| :: (p.remaining[k] + Held(p.kinds, p.sets, k)) % WORD == created[k] % WORD
  }

  /** And exactly: no counter has wrapped. */
  ghost predicate Exact(p: Pool, created: seq<nat>) {
    && ValidPool(p) && |created| == |p.remaining|
    && forall k | 0 <= k < |created| :: p.remaining[k] + Held(p.kinds, p.sets, k) == created[k]
  }

  ghost predicate Sound(p: Pool, created: seq<nat>) {
    Conserved(p, created) && p.setCount == |p.sets| <= p.maxSets
  }

  lemma AddedConserves(p: Pool, created: seq<nat>, bindings: seq<Binding>, handle: nat)
    requires Conserved(p, created)
    ensures Conserved(Added(p, bindings, handle), created)
  {
    var q := Added(p, bindings, handle);
    forall k | 0 <= k < |created| ensures (q.remaining[k] + Held(q.kinds, q.sets, k)) % WORD == created[k] % WORD {
      assert q.sets[1..] == p.sets;
      WrapTwice(p.remaining[k] - Needed(p.kinds, bindings, k), Held(q.kinds, q.sets, k));
    }
  }

  lemma {:induction false} HeldWithout(kinds: seq<DescriptorType>, sets: seq<PoolSet>, i: nat, k: nat)
    requires i < |sets|
    ensures Held(kinds, sets, k) == Held(kinds, sets[..i] + sets[i + 1..], k) + Needed(kinds, sets[i].bindings, k)
    decreases i
  {
    if i == 0 {
      assert sets[..0] + sets[1..] == sets[1..];
    } else {
      HeldWithout(kinds, sets[1..], i - 1, k);
      var rest := sets[..i] + sets[i + 1..];
      assert rest[1..] == sets[1..][..i - 1] + sets[1..][i..];
    }
  }

  lemma ReleasedConserves(p: Pool, created: seq<nat>, handle: nat)
    requires Conserved(p, created) && p.setCount >= |p.sets|
    ensures Conserved(Released(p, handle), created)
  {
    var place, q := Place(p.sets, handle), Released(p, handle);
    if place.Some? {
      var i := place.value;
      forall k | 0 <= k < |created| ensures (q.remaining[k] + Held(q.kinds, q.sets, k)) % WORD == created[k] % WORD {
        HeldWithout(p.kinds, p.sets, i, k);
        WrapTwice(p.remaining[k] + Needed(p.kinds, p.sets[i].bindings, k), Held(q.kinds, q.sets, k));
      }
    }
  }

  lemma {:induction false} AddedAllSound(p: Pool, created: seq<nat>, layouts: seq<seq<Binding>>,
                                         handles: seq<nat>, n: nat)
    requires Sound(p, created) && |handles| == |layouts| && n <= |layouts| && p.setCount + |layouts| <= p.maxSets
    ensures Sound(AddedAll(p, layouts, handles, n), created)
  {
    if n > 0 {
      AddedAllSound(p, created, layouts, handles, n - 1);
      AddedConserves(AddedAll(p, layouts, handles, n - 1), created, layouts[n - 1], handles[n - 1]);
    }
  }

  lemma {:induction false} ReleasedAllSound(p: Pool, created: seq<nat>, handles: seq<nat>, n: nat)
    requires Sound(p, created) && n <= |handles|
    ensures Sound(ReleasedAll(p, handles, n), created)
  {
    if n > 0 {
      ReleasedAllSound(p, created, handles, n - 1);
      ReleasedConserves(ReleasedAll(p, handles, n - 1), created, handles[n - 1]);
    }
  }

  lemma {:induction false} ClearedSound(p: Pool, created: seq<nat>)
    requires Sound(p, created)
    ensures Sound(ClearedPool(p), created)
    decreases |p.sets|
  {
    if p.sets != [] {
      assert Place(p.sets, p.sets[0].handle) == Some(0);
      ReleasedConserves(p, created, p.sets[0].handle);
      ClearedSound(Released(p, p.sets[0].handle), created);
    }
  }

  // ------------------------------------------------------------------ every run

  datatype Step =
    | Allocating(layouts: seq<seq<Binding>>, handles: seq<nat>, hostFails: nat)
    | Freeing(handles: seq<nat>)
    | Clearing

  predicate Usable(step: Step) {
    step.Allocating? ==> |step.handles| == |step.layouts|
  }

  ghost function After(p: Pool, step: Step): (q: Pool)
    requires ValidPool(p) && p.setCount == |p.sets| && Usable(step)
    ensures ValidPool(q) && q.setCount == |q.sets|
  {
    match step
    case Allocating(layouts, handles, hostFails) =>
      if Allocatable(p, layouts, handles, hostFails) then AddedAll(p, layouts, handles, |layouts|) else p
    case Freeing(handles) => ReleasedAll(p, handles, |handles|)
    case Clearing => ClearedPool(p)
  }

  ghost function Run(p: Pool, steps: seq<Step>): (q: Pool)
    requires ValidPool(p) && p.setCount == |p.sets| && forall i | 0 <= i < |steps| :: Usable(steps[i])
    ensures ValidPool(q) && q.setCount == |q.sets|
    decreases |steps|
  {
    if steps == [] then p else Run(After(p, steps[0]), steps[1..])
  }

  lemma AfterSound(p: Pool, created: seq<nat>, step: Step)
    requires Sound(p, created) && Usable(step)
    ensures Sound(After(p, step), created)
  {
    match step
    case Allocating(layouts, handles, hostFails) =>
      if Allocatable(p, layouts, handles, hostFails) {
        AddedAllSound(p, created, layouts, handles, |layouts|);
      }
    case Freeing(handles) => ReleasedAllSound(p, created, handles, |handles|);
    case Clearing => ClearedSound(p, created);
  }

  /** Over every run of allocations, frees and resets: what remains and what the live sets hold make
      up what the pool was created with, and the set count is the list's length and at most the
      pool's maximum. */
  lemma {:induction false} RunSound(p: Pool, created: seq<nat>, steps: seq<Step>)
    requires Sound(p, created) && forall i | 0 <= i < |steps| :: Usable(steps[i])
    ensures Sound(Run(p, steps), created)
    decreases |steps|
  {
    if steps != [] {
      AfterSound(p, created, steps[0]);
      RunSound(After(p, steps[0]), created, steps[1..]);
    }
  }

  // ------------------------------------------------------------------ when the counters are exact

  /** A set's descriptors leave no counter wrapped exactly when no type's bindings need more, all
      together, than remains. */
  lemma AddedExactly(p: Pool, created: seq<nat>, bindings: seq<Binding>, handle: nat)
    requires Exact(p, created)
    ensures Exact(Added(p, bindings, handle), created) <==>
            forall k | 0 <= k < |p.remaining| :: Needed(p.kinds, bindings, k) <= p.remaining[k]
  {
    var q := Added(p, bindings, handle);
    assert q.sets[1..] == p.sets;
    forall k | 0 <= k < |created|
      ensures q.remaining[k] + Held(q.kinds, q.sets, k) == created[k] <==>
              Needed(p.kinds, bindings, k) <= p.remaining[k]
    {
      assert q.remaining[k] == (p.remaining[k] - Needed(p.kinds, bindings, k)) % WORD;
      WrapsOrNot(p.remaining[k], Needed(p.kinds, bindings, k));
    }
  }

  lemma WrapsOrNot(a: nat, b: nat)
    requires a < WORD
    ensures (a - b) % WORD == a - b <==> b <= a
  {
  }

  /** At most one binding of each type has descriptors. */
  ghost predicate OnePerType(bindings: seq<Binding>) {
    forall i, j | 0 <= i < j < |bindings| ::
      bindings[i].count == 0 || bindings[j].count == 0 || bindings[i].kind != bindings[j].kind
  }

  lemma {:induction false} OneNeed(kinds: seq<DescriptorType>, bindings: seq<Binding>, n: nat, k: nat)
    requires OnePerType(bindings) && n <= |bindings|
    ensures Need(kinds, bindings, n, k) == 0 ||
            exists i | 0 <= i < n :: From(kinds, bindings[i], k) && Need(kinds, bindings, n, k) == bindings[i].count
  {
    if n > 0 {
      OneNeed(kinds, bindings, n - 1, k);
    }
  }

  /** Then the driver's check, binding by binding, is enough: no counter ever wraps. */
  lemma HasIsEnough(p: Pool, created: seq<nat>, bindings: seq<Binding>, handle: nat)
    requires Exact(p, created) && OnePerType(bindings) && Has(p.kinds, p.remaining, bindings)
    ensures Exact(Added(p, bindings, handle), created)
  {
    forall k | 0 <= k < |p.remaining| ensures Needed(p.kinds, bindings, k) <= p.remaining[k] {
      OneNeed(p.kinds, bindings, |bindings|, k);
      if Needed(p.kinds, bindings, k) != 0 {
        var i :| 0 <= i < |bindings| && From(p.kinds, bindings[i], k) &&
                 Needed(p.kinds, bindings, k) == bindings[i].count;
        assert HasOne(p.kinds, p.remaining, bindings[i]);
      }
    }
    AddedExactly(p, created, bindings, handle);
  }

  lemma {:induction false} AddedAllExact(p: Pool, created: seq<nat>, layouts: seq<seq<Binding>>,
                                         handles: seq<nat>, n: nat)
    requires Exact(p, created) && |handles| == |layouts| && n <= |layouts|
    requires forall i | 0 <= i < |layouts| :: OnePerType(layouts[i])
    requires forall i | 0 <= i < |layouts| :: HasSet(p, layouts, handles, i)
    ensures Exact(AddedAll(p, layouts, handles, n), created)
  {
    if n > 0 {
      AddedAllExact(p, created, layouts, handles, n - 1);
      var before := AddedAll(p, layouts, handles, n - 1);
      assert HasSet(p, layouts, handles, n - 1);
      HasIsEnough(before, created, layouts[n - 1], handles[n - 1]);
    }
  }

  lemma ReleasedExact(p: Pool, created: seq<nat>, handle: nat)
    requires Exact(p, created) && Words(created) && p.setCount >= |p.sets|
    ensures Exact(Released(p, handle), created)
  {
    var place, q := Place(p.sets, handle), Released(p, handle);
    if place.Some? {
      var i := place.value;
      forall k | 0 <= k < |created| ensures q.remaining[k] + Held(q.kinds, q.sets, k) == created[k] {
        HeldWithout(p.kinds, p.sets, i, k);
      }
    }
  }

  lemma {:induction false} ReleasedAllExact(p: Pool, created: seq<nat>, handles: seq<nat>, n: nat)
    requires Exact(p, created) && Words(created) && p.setCount == |p.sets| && n <= |handles|
    ensures Exact(ReleasedAll(p, handles, n), created)
  {
    if n > 0 {
      ReleasedAllExact(p, created, handles, n - 1);
      ReleasedExact(ReleasedAll(p, handles, n - 1), created, handles[n - 1]);
    }
  }

  lemma {:induction false} ClearedExact(p: Pool, created: seq<nat>)
    requires Exact(p, created) && Words(created) && p.setCount == |p.sets|
    ensures Exact(ClearedPool(p), created)
    decreases |p.sets|
  {
    if p.sets != [] {
      assert Place(p.sets, p.sets[0].handle) == Some(0);
      ReleasedExact(p, created, p.sets[0].handle);
      ClearedExact(Released(p, p.sets[0].handle), created);
    }
  }

  ghost predicate OnePerTypeStep(step: Step) {
    step.Allocating? ==> forall i | 0 <= i < |step.layouts| :: OnePerType(step.layouts[i])
  }

  lemma AfterExact(p: Pool, created: seq<nat>, step: Step)
    requires Exact(p, created) && Words(created) && p.setCount == |p.sets| && Usable(step) && OnePerTypeStep(step)
    ensures Exact(After(p, step), created)
  {
    match step
    case Allocating(layouts, handles, hostFails) =>
      if Allocatable(p, layouts, handles, hostFails) {
        AddedAllExact(p, created, layouts, handles, |layouts|);
      }
    case Freeing(handles) => ReleasedAllExact(p, created, handles, |handles|);
    case Clearing => ClearedExact(p, created);
  }

  /** Over every run whose layouts have at most one binding of each type, no counter wraps: what
      remains and what the live sets hold add up to what was created, exactly. */
  lemma {:induction false} RunExact(p: Pool, created: seq<nat>, steps: seq<Step>)
    requires Exact(p, created) && Words(created) && p.setCount == |p.sets|
    requires forall i | 0 <= i < |steps| :: Usable(steps[i])
    requires forall i | 0 <= i < |steps| :: OnePerTypeStep(steps[i])
    ensures Exact(Run(p, steps), created)
    decreases |steps|
  {
    if steps != [] {
      AfterExact(p, created, steps[0]);
      RunExact(After(p, steps[0]), created, steps[1..]);
    }
  }

  /** Two uniform buffers of one descriptor each, from a pool with one: the check passes and the
      counter wraps. */
  lemma TwoBindingsWrap()
    ensures var one := Binding(UniformBuffer, 1, 16, 0, 0, 0);
            var p := Pool([UniformBuffer], [1], 1, 0, []);
            Has(p.kinds, p.remaining, [one, one]) && Added(p, [one, one], 0).remaining == [WORD - 1]
  {
    var one := Binding(UniformBuffer, 1, 16, 0, 0, 0);
    var kinds := [UniformBuffer];
    assert Find(kinds, UniformBuffer) == Some(0);
    assert Need(kinds, [one, one], 1, 0) == 1;
    assert Need(kinds, [one, one], 2, 0) == 2;
  }
}
