/**
Descriptor sets: driver/ps5vk_descriptor_set.c's writes, copies and binds. A write or copy of n
descriptors is a run of n records, which is Vulkan's walk through consecutive bindings; a bind
hands out its dynamic offsets by set, binding and element.
*/
module DescriptorSets {
  import opened Options
  import opened DescriptorLayouts

  // ------------------------------------------------------------------ consecutive bindings

  /** The first binding from b on that has descriptors. */
  function FirstFrom(bindings: seq<Binding>, b: nat): (first: Option<nat>)
    requires b <= |bindings|
    ensures first.Some? ==> b <= first.value < |bindings| && bindings[first.value].count > 0
    decreases |bindings| - b
  {
    if b == |bindings| then None else if bindings[b].count > 0 then Some(b) else FirstFrom(bindings, b + 1)
  }

  /** The Vulkan specification's next descriptor, "Descriptor Set Updates": the next element, or the
      first of the next binding that has any. */
  function Next(layout: Layout, d: Descriptor): Option<Descriptor>
    requires InLayout(layout, d)
  {
    if d.element + 1 < layout.bindings[d.binding].count then Some(Descriptor(d.binding, d.element + 1))
    else
      match FirstFrom(layout.bindings, d.binding + 1)
      case None => None
      case Some(b) => Some(Descriptor(b, 0))
  }

  /** The n descriptors from d on, none when there are fewer. */
  function Walk(layout: Layout, d: Descriptor, n: nat): Option<seq<Descriptor>>
    requires InLayout(layout, d)
    decreases n
  {
    if n == 0 then Some([])
    else if n == 1 then Some([d])
    else
      var next := Next(layout, d);
      if next.None? then None
      else
        var rest := Walk(layout, next.value, n - 1);
        if rest.None? then None else Some([d] + rest.value)
  }

  /** Bindings without descriptors add nothing to the count. */
  lemma {:induction false} EmptyBindings(bindings: seq<Binding>, b: nat)
    requires b <= |bindings|
    ensures var first := FirstFrom(bindings, b);
            CountBefore(bindings, b) == CountBefore(bindings, if first.Some? then first.value else |bindings|)
    decreases |bindings| - b
  {
    if b < |bindings| && bindings[b].count == 0 {
      EmptyBindings(bindings, b + 1);
    }
  }

  /** The next descriptor has the next record; after the last there is none. */
  lemma NextRecord(layout: Layout, d: Descriptor)
    requires Numbered(layout) && InLayout(layout, d)
    ensures match Next(layout, d)
            case None => RecordOf(layout, d) + 1 == layout.descriptorCount
            case Some(e) => InLayout(layout, e) && RecordOf(layout, e) == RecordOf(layout, d) + 1
  {
    var b := layout.bindings;
    assert Placed(b, b, d.binding);
    if d.element + 1 == b[d.binding].count {
      EmptyBindings(b, d.binding + 1);
      var first := FirstFrom(b, d.binding + 1);
      if first.Some? {
        assert Placed(b, b, first.value);
      }
    }
  }

  /** The records a walk visits. */
  ghost predicate Consecutive(layout: Layout, walk: seq<Descriptor>, first: nat) {
    forall i | 0 <= i < |walk| :: InLayout(layout, walk[i]) && RecordOf(layout, walk[i]) == first + i
  }

  /** A walk of n descriptors visits n consecutive records, and exists exactly when the set has that
      many from its start. */
  lemma {:induction false} WalkIsRange(layout: Layout, d: Descriptor, n: nat)
    requires Numbered(layout) && InLayout(layout, d)
    ensures Walk(layout, d, n).Some? <==> n <= layout.descriptorCount - RecordOf(layout, d)
    ensures Walk(layout, d, n).Some? ==>
              |Walk(layout, d, n).value| == n && Consecutive(layout, Walk(layout, d, n).value, RecordOf(layout, d))
    decreases n
  {
    RecordsDistinct(layout, d, d);
    if n > 1 {
      NextRecord(layout, d);
      var next := Next(layout, d);
      if next.Some? {
        WalkIsRange(layout, next.value, n - 1);
      }
    }
  }

  /** ps5vk_descriptor_range: the first record of a run of n. */
  function Range(layout: Layout, d: Descriptor, n: nat): Option<nat> {
    if !InLayout(layout, d) then None
    else if n <= layout.descriptorCount - RecordOf(layout, d) then Some(RecordOf(layout, d))
    else None
  }

  /** A range is given exactly where Vulkan's walk exists, from its first record. */
  lemma {:induction false} RangeIsWalk(layout: Layout, d: Descriptor, n: nat)
    requires Numbered(layout)
    ensures !InLayout(layout, d) ==> Range(layout, d, n) == None
    ensures InLayout(layout, d) ==>
              Range(layout, d, n) == if Walk(layout, d, n).Some? then Some(RecordOf(layout, d)) else None
  {
    if InLayout(layout, d) {
      WalkIsRange(layout, d, n);
    }
  }

  // ------------------------------------------------------------------ writes and copies

  /** What a record holds: nothing written yet, or a descriptor's resource. */
  datatype Slot = Unwritten | Holding(resource: nat)

  function Spliced(records: seq<Slot>, first: nat, values: seq<Slot>): seq<Slot>
    requires first + |values| <= |records|
  {
    records[..first] + values + records[first + |values|..]
  }

  /** A splice at a walk's start writes the walk's descriptors and no other. */
  lemma {:induction false} SplicedIsWalk(layout: Layout, records: seq<Slot>, d: Descriptor, values: seq<Slot>,
                                         e: Descriptor)
    requires Numbered(layout) && |records| == layout.descriptorCount && InLayout(layout, e)
    requires InLayout(layout, d) && |values| <= layout.descriptorCount - RecordOf(layout, d)
    ensures Walk(layout, d, |values|).Some? && RecordOf(layout, e) < |records|
    ensures var walk := Walk(layout, d, |values|).value;
            var out := Spliced(records, RecordOf(layout, d), values);
            && |walk| == |values|
            && (forall i | 0 <= i < |walk| :: walk[i] == e ==> out[RecordOf(layout, e)] == values[i])
            && (e !in walk ==> out[RecordOf(layout, e)] == records[RecordOf(layout, e)])
  {
    WalkIsRange(layout, d, |values|);
    RecordsDistinct(layout, e, e);
    var walk, first := Walk(layout, d, |values|).value, RecordOf(layout, d);
    var r := RecordOf(layout, e);
    if first <= r < first + |values| {
      RecordsDistinct(layout, walk[r - first], e);
    }
  }

  /** A copy leaves each descriptor of the destination's walk with what the one at the same place of
      the source's walk held. */
  lemma {:induction false} CopiedIsWalk(source: Layout, layout: Layout, from: Descriptor, to: Descriptor,
                                        held: seq<Slot>, records: seq<Slot>, n: nat, i: nat)
    requires Numbered(source) && Numbered(layout) && InLayout(source, from) && InLayout(layout, to) && i < n
    requires |held| == source.descriptorCount && |records| == layout.descriptorCount
    requires Range(source, from, n).Some? && Range(layout, to, n).Some?
    ensures var src := Range(source, from, n).value;
            var walk, into := Walk(source, from, n), Walk(layout, to, n);
            && walk.Some? && into.Some? && |walk.value| == n && |into.value| == n
            && InLayout(source, walk.value[i]) && InLayout(layout, into.value[i])
            && src + n <= |held| && RecordOf(source, walk.value[i]) < |held|
            && Range(layout, to, n).value + n <= |records| && RecordOf(layout, into.value[i]) < |records|
            && Spliced(records, Range(layout, to, n).value, held[src..src + n])[RecordOf(layout, into.value[i])] ==
               held[RecordOf(source, walk.value[i])]
  {
    WalkIsRange(source, from, n);
    WalkIsRange(layout, to, n);
    RecordsDistinct(source, from, from);
    RecordsDistinct(layout, to, to);
  }

  /** Records [first, first + |values|) take the values, in place. */
  method Fill(records: array<Slot>, first: nat, values: seq<Slot>)
    requires first + |values| <= records.Length
    modifies records
    ensures records[..] == Spliced(old(records[..]), first, values)
  {
    for i := 0 to |values|
      invariant records[..first] == old(records[..first])
      invariant records[first..first + i] == values[..i]
      invariant records[first + i..] == old(records[first + i..])
    {
      records[first + i] := values[i];
    }
    assert values[..|values|] == values;
    Rejoin(records[..], old(records[..]), first, values);
  }

  lemma Rejoin(now: seq<Slot>, was: seq<Slot>, first: nat, values: seq<Slot>)
    requires |now| == |was| && first + |values| <= |was|
    requires now[..first] == was[..first] && now[first..first + |values|] == values
    requires now[first + |values|..] == was[first + |values|..]
    ensures now == Spliced(was, first, values)
  {
    assert now == now[..first] + now[first..first + |values|] + now[first + |values|..];
  }

  class DescriptorSet {
    const layout: Layout
    var records: array<Slot>

    ghost predicate Valid()
      reads this
    {
      Numbered(layout) && records.Length == layout.descriptorCount
    }

    /** A new set's records hold nothing. */
    constructor (l: Layout)
      requires Numbered(l)
      ensures Valid() && layout == l && fresh(records)
      ensures forall i | 0 <= i < records.Length :: records[i] == Unwritten
    {
      layout := l;
      records := new Slot[l.descriptorCount](_ => Unwritten);
    }

    /** ps5vk_descriptor_set_write. */
    method Write(d: Descriptor, values: seq<Slot>) returns (ok: bool)
      requires Valid()
      modifies records
      ensures ok <==> Range(layout, d, |values|).Some?
      ensures records[..] == if ok then Spliced(old(records[..]), RecordOf(layout, d), values) else old(records[..])
    {
      var range := Range(layout, d, |values|);
      if range.None? {
        return false;
      }
      ok := true;
      Fill(records, range.value, values);
    }

    /** ps5vk_descriptor_set_copy: the records move as memmove moves them, within one set too. */
    method CopyFrom(source: DescriptorSet, from: Descriptor, to: Descriptor, n: nat) returns (ok: bool)
      requires Valid() && source.Valid()
      modifies records
      ensures ok <==> Range(source.layout, from, n).Some? && Range(layout, to, n).Some?
      ensures ok ==>
                var src := Range(source.layout, from, n).value;
                records[..] == Spliced(old(records[..]), Range(layout, to, n).value, old(source.records[src..src + n]))
      ensures !ok ==> records[..] == old(records[..])
    {
      var src, dst := Range(source.layout, from, n), Range(layout, to, n);
      if src.None? || dst.None? {
        return false;
      }
      ok := true;
      var moved := source.records[src.value..src.value + n];
      Fill(records, dst.value, moved);
    }
  }

  // ------------------------------------------------------------------ dynamic offsets

  const MAX_SETS: nat := 4
  const MAX_DYNAMIC: nat := 8

  function DynamicCount(set_: Option<Layout>): nat {
    if set_.None? then 0 else DynamicBefore(set_.value.bindings, |set_.value.bindings|)
  }

  /** The dynamic descriptors of the first i sets of a bind. */
  function TotalBefore(sets: seq<Option<Layout>>, i: nat): nat
    requires i <= |sets|
  {
    if i == 0 then 0 else TotalBefore(sets, i - 1) + DynamicCount(sets[i - 1])
  }

  /** A dynamic descriptor's place among a bind's: RankOrders and AtRank say it is its rank by
      set, binding and element. */
  function Rank(sets: seq<Option<Layout>>, i: nat, d: Descriptor): nat
    requires i < |sets| && sets[i].Some? && InLayout(sets[i].value, d)
  {
    TotalBefore(sets, i) + DynamicBefore(sets[i].value.bindings, d.binding) + d.element
  }

  /** One set's offsets: its share of the bind's, then zeros. */
  function Row(offsets: seq<nat>, first: nat, count: nat): seq<nat>
    requires first + count <= |offsets| && count <= MAX_DYNAMIC
  {
    offsets[first..first + count] + seq(MAX_DYNAMIC - count, _ => 0)
  }

  /** The binds the driver takes. */
  ghost predicate Bindable(firstSet: nat, sets: seq<Option<Layout>>, offsets: seq<nat>) {
    && (sets != [] ==> firstSet + |sets| <= MAX_SETS)
    && (forall i | 0 <= i < |sets| :: DynamicCount(sets[i]) <= MAX_DYNAMIC)
    && TotalBefore(sets, |sets|) == |offsets|
  }

  /** The offsets of one set's dynamic bindings, in binding order: where the row stops short, the
      bind is refused. */
  method TakeOffsets(layout: Layout, offsets: seq<nat>, first: nat) returns (ok: bool, row: seq<nat>, next: nat)
    requires Numbered(layout) && first <= |offsets|
    ensures ok <==> DynamicCount(Some(layout)) <= MAX_DYNAMIC && DynamicCount(Some(layout)) <= |offsets| - first
    ensures ok ==> next == first + DynamicCount(Some(layout)) && row == Row(offsets, first, DynamicCount(Some(layout)))
  {
    var bindings := layout.bindings;
    row, next, ok := seq(MAX_DYNAMIC, _ => 0), first, true;
    for b := 0 to |bindings|
      invariant DynamicBefore(bindings, b) <= MAX_DYNAMIC && first + DynamicBefore(bindings, b) <= |offsets|
      invariant next == first + DynamicBefore(bindings, b)
      invariant row == Row(offsets, first, DynamicBefore(bindings, b))
    {
      var binding := bindings[b];
      assert Placed(bindings, bindings, b);
      if binding.count != 0 && Dynamic(binding) {
        if binding.dynamicIndex > MAX_DYNAMIC || binding.count > MAX_DYNAMIC - binding.dynamicIndex ||
           binding.count > |offsets| - next {
          CountsGrow(bindings, b + 1, |bindings|);
          return false, row, next;
        }
        ghost var taken := DynamicBefore(bindings, b);
        for element := 0 to binding.count
          invariant next == first + taken + element
          invariant row == Row(offsets, first, taken + element)
        {
          row := row[binding.dynamicIndex + element := offsets[next]];
          next := next + 1;
        }
      }
    }
  }

  lemma {:induction false} TotalsGrow(sets: seq<Option<Layout>>, i: nat, n: nat)
    requires i <= n <= |sets|
    ensures TotalBefore(sets, i) <= TotalBefore(sets, n)
    decreases n
  {
    if i < n {
      TotalsGrow(sets, i, n - 1);
    }
  }

  /** Set i of a bind has its share of the offsets. */
  predicate HasShare(bound: seq<Option<Layout>>, dynamicOffsets: seq<nat>, i: nat, row: seq<nat>)
    requires i < |bound|
  {
    && TotalBefore(bound, i) + DynamicCount(bound[i]) <= |dynamicOffsets| && DynamicCount(bound[i]) <= MAX_DYNAMIC
    && row == Row(dynamicOffsets, TotalBefore(bound, i), DynamicCount(bound[i]))
  }

  /** Set i of a bind is bound where it was asked for. */
  predicate BoundAt(bound: seq<Option<Layout>>, dynamicOffsets: seq<nat>, firstSet: nat, i: nat,
                    sets: seq<Option<Layout>>, offsets: seq<seq<nat>>)
    requires i < |bound|
  {
    && firstSet + i < |sets| && firstSet + i < |offsets| && sets[firstSet + i] == bound[i]
    && HasShare(bound, dynamicOffsets, i, offsets[firstSet + i])
  }

  /** One set's row, or the refusal of the bind. */
  method TakeRow(bound: seq<Option<Layout>>, i: nat, dynamicOffsets: seq<nat>, first: nat)
    returns (ok: bool, row: seq<nat>, next: nat)
    requires i < |bound| && (bound[i].Some? ==> Numbered(bound[i].value))
    requires first == TotalBefore(bound, i) <= |dynamicOffsets|
    ensures ok ==> HasShare(bound, dynamicOffsets, i, row) && next == TotalBefore(bound, i + 1)
    ensures !ok ==> DynamicCount(bound[i]) > MAX_DYNAMIC || TotalBefore(bound, i + 1) > |dynamicOffsets|
  {
    if bound[i].None? {
      return true, seq(MAX_DYNAMIC, _ => 0), first;
    }
    ok, row, next := TakeOffsets(bound[i].value, dynamicOffsets, first);
  }

  /** Binding the next set leaves the sets bound before it. */
  lemma BoundStays(bound: seq<Option<Layout>>, dynamicOffsets: seq<nat>, firstSet: nat, k: nat, i: nat,
                   sets: seq<Option<Layout>>, offsets: seq<seq<nat>>, row: seq<nat>)
    requires k < i < |bound| && BoundAt(bound, dynamicOffsets, firstSet, k, sets, offsets)
    requires firstSet + i < |sets| && firstSet + i < |offsets|
    ensures BoundAt(bound, dynamicOffsets, firstSet, k, sets[firstSet + i := bound[i]], offsets[firstSet + i := row])
  {
  }

  /** A command buffer's bound sets and their dynamic offsets. */
  class BoundSets {
    var sets: seq<Option<Layout>>
    var offsets: seq<seq<nat>>

    ghost predicate Valid()
      reads this
    {
      |sets| == MAX_SETS && |offsets| == MAX_SETS
    }

    constructor ()
      ensures Valid() && forall i | 0 <= i < MAX_SETS :: sets[i] == None
    {
      sets := seq(MAX_SETS, _ => None);
      offsets := seq(MAX_SETS, _ => seq(MAX_DYNAMIC, _ => 0));
    }

    /** One set of a bind. */
    method BindOne(firstSet: nat, bound: seq<Option<Layout>>, i: nat, dynamicOffsets: seq<nat>, first: nat)
      returns (ok: bool, next: nat)
      requires Valid() && i < |bound| && (bound[i].Some? ==> Numbered(bound[i].value))
      requires first == TotalBefore(bound, i) <= |dynamicOffsets|
      requires forall k | 0 <= k < i :: BoundAt(bound, dynamicOffsets, firstSet, k, sets, offsets)
      modifies this
      ensures Valid()
      ensures ok ==> next == TotalBefore(bound, i + 1) && firstSet + i < MAX_SETS
      ensures ok ==> forall k | 0 <= k <= i :: BoundAt(bound, dynamicOffsets, firstSet, k, sets, offsets)
      ensures !ok ==> firstSet + i >= MAX_SETS || DynamicCount(bound[i]) > MAX_DYNAMIC ||
                      TotalBefore(bound, i + 1) > |dynamicOffsets|
      ensures forall k | 0 <= k < MAX_SETS :: k != firstSet + i ==>
                sets[k] == old(sets)[k] && offsets[k] == old(offsets)[k]
    {
      var index := firstSet + i;
      if index >= MAX_SETS {
        return false, first;
      }
      var row;
      ok, row, next := TakeRow(bound, i, dynamicOffsets, first);
      ghost var s, o := sets, offsets;
      sets := sets[index := bound[i]];
      offsets := offsets[index := if ok then row else seq(MAX_DYNAMIC, _ => 0)];
      if ok {
        forall k | 0 <= k < i ensures BoundAt(bound, dynamicOffsets, firstSet, k, sets, offsets) {
          BoundStays(bound, dynamicOffsets, firstSet, k, i, s, o, row);
        }
      }
    }

    /** ps5vk_CmdBindDescriptorSets2KHR. */
    method Bind(firstSet: nat, bound: seq<Option<Layout>>, dynamicOffsets: seq<nat>) returns (ok: bool)
      requires Valid() && forall i | 0 <= i < |bound| :: bound[i].Some? ==> Numbered(bound[i].value)
      modifies this
      ensures Valid() && (ok <==> Bindable(firstSet, bound, dynamicOffsets))
      ensures ok ==> forall i | 0 <= i < |bound| :: BoundAt(bound, dynamicOffsets, firstSet, i, sets, offsets)
      ensures forall k | 0 <= k < MAX_SETS :: !(firstSet <= k < firstSet + |bound|) ==>
                sets[k] == old(sets)[k] && offsets[k] == old(offsets)[k]
    {
      var next := 0;
      for i := 0 to |bound|
        invariant Valid() && (i > 0 ==> firstSet + i <= MAX_SETS)
        invariant next == TotalBefore(bound, i) <= |dynamicOffsets|
        invariant forall k | 0 <= k < i :: BoundAt(bound, dynamicOffsets, firstSet, k, sets, offsets)
        invariant forall k | 0 <= k < MAX_SETS :: !(firstSet <= k < firstSet + i) ==>
                    sets[k] == old(sets)[k] && offsets[k] == old(offsets)[k]
      {
        TotalsGrow(bound, i + 1, |bound|);
        var taken;
        taken, next := BindOne(firstSet, bound, i, dynamicOffsets, next);
        if !taken {
          return false;
        }
        assert BoundAt(bound, dynamicOffsets, firstSet, i, sets, offsets);
      }
      ok := next == |dynamicOffsets|;
      forall i | 0 <= i < |bound| ensures DynamicCount(bound[i]) <= MAX_DYNAMIC {
        assert BoundAt(bound, dynamicOffsets, firstSet, i, sets, offsets);
      }
    }
  }

  lemma RowReadsRank(bound: seq<Option<Layout>>, dynamicOffsets: seq<nat>, i: nat, d: Descriptor)
    requires i < |bound| && bound[i].Some? && Numbered(bound[i].value) && InLayout(bound[i].value, d)
    requires Dynamic(bound[i].value.bindings[d.binding]) && DynamicCount(bound[i]) <= MAX_DYNAMIC
    requires TotalBefore(bound, i) + DynamicCount(bound[i]) <= |dynamicOffsets|
    ensures var row := Row(dynamicOffsets, TotalBefore(bound, i), DynamicCount(bound[i]));
            var at := bound[i].value.bindings[d.binding].dynamicIndex + d.element;
            at < |row| && Rank(bound, i, d) < |dynamicOffsets| && row[at] == dynamicOffsets[Rank(bound, i, d)]
  {
    var b := bound[i].value.bindings;
    assert Placed(b, b, d.binding);
    CountsGrow(b, d.binding + 1, |b|);
  }

  /** The draw reads, for a dynamic descriptor of a set as a bind left it, the offset at its rank in
      the bind. */
  lemma DrawReadsRank(bound: seq<Option<Layout>>, dynamicOffsets: seq<nat>, firstSet: nat, i: nat,
                      sets: seq<Option<Layout>>, offsets: seq<seq<nat>>, d: Descriptor)
    requires i < |bound| && BoundAt(bound, dynamicOffsets, firstSet, i, sets, offsets)
    requires sets[firstSet + i].Some? && Numbered(sets[firstSet + i].value) && InLayout(sets[firstSet + i].value, d)
    requires Dynamic(sets[firstSet + i].value.bindings[d.binding])
    ensures var at := sets[firstSet + i].value.bindings[d.binding].dynamicIndex + d.element;
            && bound[i].Some? && InLayout(bound[i].value, d)
            && at < |offsets[firstSet + i]| && Rank(bound, i, d) < |dynamicOffsets|
            && offsets[firstSet + i][at] == dynamicOffsets[Rank(bound, i, d)]
  {
    RowReadsRank(bound, dynamicOffsets, i, d);
  }

  // ------------------------------------------------------------------ rank

  /** A descriptor of a set of a bind. */
  datatype Bound = Bound(index: nat, descriptor: Descriptor)

  predicate IsDynamic(sets: seq<Option<Layout>>, a: Bound) {
    && a.index < |sets| && sets[a.index].Some? && InLayout(sets[a.index].value, a.descriptor)
    && Dynamic(sets[a.index].value.bindings[a.descriptor.binding])
  }

  /** By set, then binding, then element. */
  predicate Precedes(a: Bound, b: Bound) {
    || a.index < b.index
    || (a.index == b.index && a.descriptor.binding < b.descriptor.binding)
    || (a.index == b.index && a.descriptor.binding == b.descriptor.binding &&
        a.descriptor.element < b.descriptor.element)
  }

  function RankOf(sets: seq<Option<Layout>>, a: Bound): nat
    requires IsDynamic(sets, a)
  {
    Rank(sets, a.index, a.descriptor)
  }

  lemma {:induction false} RankBelow(sets: seq<Option<Layout>>, a: Bound)
    requires IsDynamic(sets, a)
    ensures RankOf(sets, a) < TotalBefore(sets, a.index + 1) <= TotalBefore(sets, |sets|)
  {
    var b := sets[a.index].value.bindings;
    CountsGrow(b, a.descriptor.binding + 1, |b|);
    TotalsGrow(sets, a.index + 1, |sets|);
  }

  lemma EarlierIsLess(sets: seq<Option<Layout>>, a: Bound, b: Bound)
    requires IsDynamic(sets, a) && IsDynamic(sets, b) && Precedes(a, b)
    ensures RankOf(sets, a) < RankOf(sets, b)
  {
    if a.index < b.index {
      RankBelow(sets, a);
      TotalsGrow(sets, a.index + 1, b.index);
    } else {
      CountsGrow(sets[a.index].value.bindings, a.descriptor.binding,
                 b.descriptor.binding);
      if a.descriptor.binding < b.descriptor.binding {
        CountsGrow(sets[a.index].value.bindings, a.descriptor.binding + 1, b.descriptor.binding);
      }
    }
  }

  /** Ranks order a bind's dynamic descriptors by set, binding and element, and all are below the
      number of its offsets. */
  lemma {:induction false} RankOrders(sets: seq<Option<Layout>>, a: Bound, b: Bound)
    requires IsDynamic(sets, a) && IsDynamic(sets, b)
    ensures RankOf(sets, a) < RankOf(sets, b) <==> Precedes(a, b)
    ensures RankOf(sets, a) < TotalBefore(sets, |sets|)
  {
    RankBelow(sets, a);
    if Precedes(a, b) {
      EarlierIsLess(sets, a, b);
    } else if a != b {
      EarlierIsLess(sets, b, a);
    }
  }

  /** The set whose dynamic descriptors hold rank k, among the first n. */
  function SetAt(sets: seq<Option<Layout>>, k: nat, n: nat): (i: nat)
    requires n <= |sets| && k < TotalBefore(sets, n)
    ensures i < n && TotalBefore(sets, i) <= k < TotalBefore(sets, i) + DynamicCount(sets[i])
  {
    if k >= TotalBefore(sets, n - 1) then n - 1 else SetAt(sets, k, n - 1)
  }

  function DynamicBindingAt(bindings: seq<Binding>, k: nat, n: nat): (b: nat)
    requires n <= |bindings| && k < DynamicBefore(bindings, n)
    ensures b < n && Dynamic(bindings[b])
    ensures DynamicBefore(bindings, b) <= k < DynamicBefore(bindings, b) + bindings[b].count
  {
    if k >= DynamicBefore(bindings, n - 1) then n - 1 else DynamicBindingAt(bindings, k, n - 1)
  }

  /** A bind is taken exactly when its sets fit the four slots, none has more than eight dynamic
      descriptors, and it brings one offset for each. */
  lemma {:induction false} BindNeeds(firstSet: nat, sets: seq<Option<Layout>>, offsets: seq<nat>)
    ensures Bindable(firstSet, sets, offsets) <==>
            && (sets == [] || firstSet + |sets| <= 4)
            && (forall i | 0 <= i < |sets| :: DynamicCount(sets[i]) <= 8)
            && (forall k | 0 <= k < |offsets| :: HasRank(sets, k)) && !HasRank(sets, |offsets|)
  {
    forall k ensures HasRank(sets, k) <==> 0 <= k < TotalBefore(sets, |sets|) {
      if 0 <= k < TotalBefore(sets, |sets|) {
        assert RankOf(sets, AtRank(sets, k)) == k;
      }
      if HasRank(sets, k) {
        var a :| IsDynamic(sets, a) && RankOf(sets, a) == k;
        RankBelow(sets, a);
      }
    }
    if Bindable(firstSet, sets, offsets) || TotalBefore(sets, |sets|) <= |offsets| {
    } else {
      assert HasRank(sets, |offsets|);
    }
    if TotalBefore(sets, |sets|) < |offsets| {
      assert !HasRank(sets, TotalBefore(sets, |sets|));
    }
  }

  /** Some dynamic descriptor of the sets has this rank. */
  ghost predicate HasRank(sets: seq<Option<Layout>>, k: int) {
    exists a :: IsDynamic(sets, a) && RankOf(sets, a) == k
  }

  /** Every offset of a bind is one dynamic descriptor's: with RankOrders, offsets and dynamic
      descriptors correspond one to one, in order. */
  function AtRank(sets: seq<Option<Layout>>, k: nat): (a: Bound)
    requires k < TotalBefore(sets, |sets|)
    ensures IsDynamic(sets, a) && RankOf(sets, a) == k
  {
    var i := SetAt(sets, k, |sets|);
    var bindings := sets[i].value.bindings;
    var b := DynamicBindingAt(bindings, k - TotalBefore(sets, i), |bindings|);
    Bound(i, Descriptor(b, k - TotalBefore(sets, i) - DynamicBefore(bindings, b)))
  }
}
