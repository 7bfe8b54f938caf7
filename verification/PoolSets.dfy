/**
Which sets a descriptor pool holds, and when an allocation succeeds. An allocation's sets go to the
head of the list with their own handles and layouts; freeing takes out exactly the sets named; and
with at most one binding of each type in a layout an allocation succeeds exactly when the pool has
the sets and, type by type, the descriptors for all of it.
*/
module PoolSets {
  import opened Options
  import opened DescriptorLayouts
  import opened DescriptorPools

  // ------------------------------------------------------------------ the live sets

  /** The first n sets of an allocation, newest first. */
  function Newest(layouts: seq<seq<Binding>>, handles: seq<nat>, n: nat): seq<PoolSet>
    requires n <= |layouts| == |handles|
  {
    if n == 0 then [] else [PoolSet(handles[n - 1], layouts[n - 1])] + Newest(layouts, handles, n - 1)
  }

  /** An allocation adds its sets, each with its own layout, before the ones there were. */
  lemma {:induction false} AllocatedSets(p: Pool, layouts: seq<seq<Binding>>, handles: seq<nat>, n: nat)
    requires ValidPool(p) && n <= |layouts| == |handles|
    ensures AddedAll(p, layouts, handles, n).sets == Newest(layouts, handles, n) + p.sets
  {
    if n > 0 {
      AllocatedSets(p, layouts, handles, n - 1);
    }
  }

  /** No handle is live twice. */
  predicate Distinct(sets: seq<PoolSet>) {
    forall i, j | 0 <= i < j < |sets| :: sets[i].handle != sets[j].handle
  }

  lemma {:induction false} PlaceFinds(sets: seq<PoolSet>, handle: nat)
    ensures Place(sets, handle).Some? <==> exists i | 0 <= i < |sets| :: sets[i].handle == handle
  {
    if sets != [] {
      PlaceFinds(sets[1..], handle);
      if i :| 0 <= i < |sets| && sets[i].handle == handle {
        assert i > 0 ==> sets[1..][i - 1].handle == handle;
      }
      if i :| 0 <= i < |sets[1..]| && sets[1..][i].handle == handle {
        assert sets[i + 1].handle == handle;
      }
    }
  }

  lemma RemovedAt(sets: seq<PoolSet>, i: nat, x: PoolSet)
    requires i < |sets| && Distinct(sets)
    ensures var rest := sets[..i] + sets[i + 1..];
            Distinct(rest) && (x in rest <==> x in sets && x.handle != sets[i].handle)
  {
    var rest := sets[..i] + sets[i + 1..];
    assert forall j | 0 <= j < |rest| :: rest[j] == sets[if j < i then j else j + 1];
    if x in sets && x.handle != sets[i].handle {
      var j :| 0 <= j < |sets| && sets[j] == x;
      assert rest[if j < i then j else j - 1] == x;
    }
  }

  lemma ReleasedSets(p: Pool, handle: nat, x: PoolSet)
    requires ValidPool(p) && p.setCount >= |p.sets| && Distinct(p.sets)
    ensures var q := Released(p, handle);
            Distinct(q.sets) && (x in q.sets <==> x in p.sets && x.handle != handle)
  {
    PlaceFinds(p.sets, handle);
    if Place(p.sets, handle).Some? {
      RemovedAt(p.sets, Place(p.sets, handle).value, x);
    } else if x in p.sets {
      var i :| 0 <= i < |p.sets| && p.sets[i] == x;
    }
  }

  /** Freeing takes out exactly the sets named, and leaves the others as they were. */
  lemma {:induction false} FreedSets(p: Pool, handles: seq<nat>, n: nat, x: PoolSet)
    requires ValidPool(p) && p.setCount == |p.sets| && Distinct(p.sets) && n <= |handles|
    ensures var q := ReleasedAll(p, handles, n);
            Distinct(q.sets) && (x in q.sets <==> x in p.sets && x.handle !in handles[..n])
  {
    if n > 0 {
      FreedSets(p, handles, n - 1, x);
      ReleasedSets(ReleasedAll(p, handles, n - 1), handles[n - 1], x);
      assert handles[..n] == handles[..n - 1] + [handles[n - 1]];
    }
  }

  // ------------------------------------------------------------------ when an allocation succeeds

  /** The pool has an entry for every type a layout needs. */
  predicate Known(kinds: seq<DescriptorType>, bindings: seq<Binding>) {
    forall i | 0 <= i < |bindings| :: bindings[i].count != 0 ==> bindings[i].kind in kinds
  }

  lemma {:induction false} FindKnown(kinds: seq<DescriptorType>, kind: DescriptorType)
    ensures Find(kinds, kind).Some? <==> kind in kinds
  {
    if kinds != [] {
      FindKnown(kinds[1..], kind);
      assert kinds == [kinds[0]] + kinds[1..];
    }
  }

  lemma {:induction false} NeedCovers(kinds: seq<DescriptorType>, bindings: seq<Binding>, n: nat, i: nat, k: nat)
    requires i < n <= |bindings| && From(kinds, bindings[i], k)
    ensures bindings[i].count <= Need(kinds, bindings, n, k)
  {
    if i < n - 1 {
      NeedCovers(kinds, bindings, n - 1, i, k);
    }
  }

  lemma NeedsHad(kinds: seq<DescriptorType>, remaining: seq<nat>, bindings: seq<Binding>, k: nat)
    requires |kinds| == |remaining| && OnePerType(bindings) && Has(kinds, remaining, bindings) && k < |remaining|
    ensures Needed(kinds, bindings, k) <= remaining[k]
  {
    OneNeed(kinds, bindings, |bindings|, k);
    if Needed(kinds, bindings, k) != 0 {
      var i :| 0 <= i < |bindings| && From(kinds, bindings[i], k) && Needed(kinds, bindings, k) == bindings[i].count;
      assert HasOne(kinds, remaining, bindings[i]);
    }
  }

  ghost predicate Enough(kinds: seq<DescriptorType>, remaining: seq<nat>, bindings: seq<Binding>)
    requires |kinds| == |remaining|
  {
    forall k | 0 <= k < |remaining| :: Needed(kinds, bindings, k) <= remaining[k]
  }

  /** With one binding a type, the check passes exactly when every type is there with enough left. */
  lemma HasExactly(kinds: seq<DescriptorType>, remaining: seq<nat>, bindings: seq<Binding>)
    requires |kinds| == |remaining| && OnePerType(bindings)
    ensures Has(kinds, remaining, bindings) <==> Known(kinds, bindings) && Enough(kinds, remaining, bindings)
  {
    if Has(kinds, remaining, bindings) {
      forall k | 0 <= k < |remaining| ensures Needed(kinds, bindings, k) <= remaining[k] {
        NeedsHad(kinds, remaining, bindings, k);
      }
      forall i | 0 <= i < |bindings| ensures bindings[i].count != 0 ==> bindings[i].kind in kinds {
        assert HasOne(kinds, remaining, bindings[i]);
      }
    }
    if Known(kinds, bindings) && Enough(kinds, remaining, bindings) {
      forall i | 0 <= i < |bindings| ensures HasOne(kinds, remaining, bindings[i]) {
        FindKnown(kinds, bindings[i].kind);
        if bindings[i].count != 0 {
          NeedCovers(kinds, bindings, |bindings|, i, Find(kinds, bindings[i].kind).value);
        }
      }
    }
  }

  /** What the first n layouts need of entry k. */
  function Total(kinds: seq<DescriptorType>, layouts: seq<seq<Binding>>, n: nat, k: nat): nat
    requires n <= |layouts|
  {
    if n == 0 then 0 else Total(kinds, layouts, n - 1, k) + Needed(kinds, layouts[n - 1], k)
  }

  lemma {:induction false} LeftAfter(p: Pool, layouts: seq<seq<Binding>>, handles: seq<nat>, n: nat, k: nat)
    requires ValidPool(p) && n <= |layouts| == |handles| && k < |p.remaining|
    ensures |AddedAll(p, layouts, handles, n).remaining| == |p.remaining|
    ensures AddedAll(p, layouts, handles, n).remaining[k] == (p.remaining[k] - Total(p.kinds, layouts, n, k)) % WORD
  {
    if n > 0 {
      LeftAfter(p, layouts, handles, n - 1, k);
      WrapTwice(p.remaining[k] - Total(p.kinds, layouts, n - 1, k), Needed(p.kinds, layouts[n - 1], k));
    }
  }

  ghost predicate AllKnown(kinds: seq<DescriptorType>, layouts: seq<seq<Binding>>, n: nat)
    requires n <= |layouts|
  {
    forall i | 0 <= i < n :: Known(kinds, layouts[i])
  }

  ghost predicate AllEnough(p: Pool, layouts: seq<seq<Binding>>, n: nat)
    requires n <= |layouts|
  {
    forall k | 0 <= k < |p.remaining| :: Total(p.kinds, layouts, n, k) <= p.remaining[k]
  }

  lemma {:induction false} TotalsNext(p: Pool, layouts: seq<seq<Binding>>, handles: seq<nat>, n: nat)
    requires ValidPool(p) && n < |layouts| == |handles| && AllEnough(p, layouts, n)
    ensures var now := AddedAll(p, layouts, handles, n);
            |now.kinds| == |now.remaining| &&
            (Enough(now.kinds, now.remaining, layouts[n]) <==> AllEnough(p, layouts, n + 1))
  {
    var now := AddedAll(p, layouts, handles, n);
    forall k | 0 <= k < |p.remaining|
      ensures |now.remaining| == |p.remaining| && now.remaining[k] == p.remaining[k] - Total(p.kinds, layouts, n, k)
    {
      LeftAfter(p, layouts, handles, n, k);
      WrapsOrNot(p.remaining[k], Total(p.kinds, layouts, n, k));
    }
    LeftSame(p, layouts, handles, n);
    forall k | 0 <= k < |p.remaining|
      ensures Needed(p.kinds, layouts[n], k) <= now.remaining[k] <==>
              Total(p.kinds, layouts, n + 1, k) <= p.remaining[k]
    {
    }
  }

  lemma {:induction false} LeftSame(p: Pool, layouts: seq<seq<Binding>>, handles: seq<nat>, n: nat)
    requires ValidPool(p) && n <= |layouts| == |handles|
    ensures |AddedAll(p, layouts, handles, n).remaining| == |p.remaining|
  {
  }

  ghost predicate HasFirst(p: Pool, layouts: seq<seq<Binding>>, handles: seq<nat>, n: nat)
    requires ValidPool(p) && n <= |layouts| == |handles|
  {
    forall i | 0 <= i < n :: HasSet(p, layouts, handles, i)
  }

  lemma {:induction false} HaveNext(p: Pool, layouts: seq<seq<Binding>>, handles: seq<nat>, n: nat)
    requires ValidPool(p) && n < |layouts| == |handles| && OnePerType(layouts[n]) && AllEnough(p, layouts, n)
    ensures HasSet(p, layouts, handles, n) <==> Known(p.kinds, layouts[n]) && AllEnough(p, layouts, n + 1)
  {
    var now := AddedAll(p, layouts, handles, n);
    LeftSame(p, layouts, handles, n);
    HasExactly(now.kinds, now.remaining, layouts[n]);
    TotalsNext(p, layouts, handles, n);
  }

  lemma {:induction false} EnoughBefore(p: Pool, layouts: seq<seq<Binding>>, n: nat)
    requires n < |layouts| && AllEnough(p, layouts, n + 1)
    ensures AllEnough(p, layouts, n)
  {
    forall k | 0 <= k < |p.remaining| ensures Total(p.kinds, layouts, n, k) <= p.remaining[k] {
      assert Total(p.kinds, layouts, n + 1, k) <= p.remaining[k];
    }
  }

  lemma {:induction false} HaveAll(p: Pool, layouts: seq<seq<Binding>>, handles: seq<nat>, n: nat)
    requires ValidPool(p) && n <= |layouts| == |handles|
    requires forall i | 0 <= i < |layouts| :: OnePerType(layouts[i])
    ensures HasFirst(p, layouts, handles, n) <==> AllKnown(p.kinds, layouts, n) && AllEnough(p, layouts, n)
  {
    if n > 0 {
      HaveAll(p, layouts, handles, n - 1);
      assert AllKnown(p.kinds, layouts, n) <==> AllKnown(p.kinds, layouts, n - 1) && Known(p.kinds, layouts[n - 1]);
      if AllEnough(p, layouts, n) {
        EnoughBefore(p, layouts, n - 1);
      }
      if AllEnough(p, layouts, n - 1) {
        HaveNext(p, layouts, handles, n - 1);
      }
    }
  }

  /** An allocation of layouts with at most one binding of each type succeeds exactly when the pool
      has room for the sets, the host for their records, an entry for every type they need, and of
      each entry as many descriptors as all of them need together. */
  lemma AllocatesExactly(p: Pool, layouts: seq<seq<Binding>>, handles: seq<nat>, hostFails: nat)
    requires ValidPool(p) && |layouts| == |handles|
    requires forall i | 0 <= i < |layouts| :: OnePerType(layouts[i])
    ensures Allocatable(p, layouts, handles, hostFails) <==>
            && p.setCount + |layouts| <= p.maxSets && hostFails >= |layouts|
            && AllKnown(p.kinds, layouts, |layouts|) && AllEnough(p, layouts, |layouts|)
  {
    HaveAll(p, layouts, handles, |layouts|);
    assert HasFirst(p, layouts, handles, |layouts|) <==>
           forall i | 0 <= i < |layouts| :: HasSet(p, layouts, handles, i);
  }
}
