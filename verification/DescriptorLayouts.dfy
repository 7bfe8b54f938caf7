/**
Descriptor set layouts: driver/ps5vk_descriptor_set_layout.c's running offsets. A layout numbers
its descriptors' records and table bytes in binding order; driver/ps5vk_descriptor_set.c writes
and copies runs of records where Vulkan speaks of consecutive bindings.
*/
module DescriptorLayouts {
  datatype DescriptorType =
    | Sampler | CombinedImageSampler | SampledImage | StorageImage | UniformTexelBuffer | StorageTexelBuffer
    | UniformBuffer | StorageBuffer | UniformBufferDynamic | StorageBufferDynamic | InputAttachment | OtherType

  /** ps5vk_descriptor_stride: the bytes of one table entry, 0 for a type the driver cannot fill. */
  function Stride(kind: DescriptorType): nat {
    match kind
    case UniformBuffer => 16
    case UniformBufferDynamic => 16
    case CombinedImageSampler => 48
    case StorageBuffer => 16
    case UniformTexelBuffer => 16
    case StorageTexelBuffer => 16
    case StorageImage => 32
    case InputAttachment => 32
    case Sampler => 48
    case SampledImage => 48
    case _ => 0
  }

  /** Buffers and texel buffers are 16 bytes, images read alone 32, and everything with a sampler,
      or the half of such a pair, 48; dynamic storage buffers have no entry. */
  lemma Strides(kind: DescriptorType)
    ensures Stride(kind) == 16 <==>
            kind in {UniformBuffer, UniformBufferDynamic, StorageBuffer, UniformTexelBuffer, StorageTexelBuffer}
    ensures Stride(kind) == 32 <==> kind == StorageImage || kind == InputAttachment
    ensures Stride(kind) == 48 <==> kind == CombinedImageSampler || kind == Sampler || kind == SampledImage
    ensures Stride(kind) == 0 <==> kind == StorageBufferDynamic || kind == OtherType
  {
  }

  /** A binding as the application declares it. */
  datatype Declared = Declared(binding: nat, kind: DescriptorType, count: nat)

  /** A binding of a layout: struct ps5vk_descriptor_binding. One nothing declares has no
      descriptors. */
  datatype Binding = Binding(
    kind: DescriptorType, count: nat, stride: nat, offset: nat, dynamicIndex: nat, recordIndex: nat)

  datatype Layout = Layout(bindings: seq<Binding>, descriptorCount: nat, tableBytes: nat)

  const NOTHING: Binding := Binding(Sampler, 0, 0, 0, 0, 0)

  // ------------------------------------------------------------------ running sums

  function CountBefore(bindings: seq<Binding>, n: nat): nat
    requires n <= |bindings|
  {
    if n == 0 then 0 else CountBefore(bindings, n - 1) + bindings[n - 1].count
  }

  function Times(count: nat, stride: nat): nat {
    Sign(count, stride);
    count * stride
  }

  lemma Sign(count: nat, stride: nat)
    ensures count * stride >= 0
  {
  }

  function BytesBefore(bindings: seq<Binding>, n: nat): nat
    requires n <= |bindings|
  {
    if n == 0 then 0
    else BytesBefore(bindings, n - 1) + Times(bindings[n - 1].count, bindings[n - 1].stride)
  }

  predicate Dynamic(b: Binding) {
    b.kind == UniformBufferDynamic
  }

  function DynamicBefore(bindings: seq<Binding>, n: nat): nat
    requires n <= |bindings|
  {
    if n == 0 then 0
    else DynamicBefore(bindings, n - 1) + if Dynamic(bindings[n - 1]) then bindings[n - 1].count else 0
  }

  /** Binding i's places are the sums of the bindings before it. */
  predicate Placed(bindings: seq<Binding>, sums: seq<Binding>, i: nat)
    requires i < |bindings| && i <= |sums|
  {
    && bindings[i].recordIndex == CountBefore(sums, i) && bindings[i].offset == BytesBefore(sums, i)
    && (Dynamic(bindings[i]) ==> bindings[i].dynamicIndex == DynamicBefore(sums, i))
  }

  ghost predicate Numbered(layout: Layout) {
    var b := layout.bindings;
    && (forall i | 0 <= i < |b| :: Placed(b, b, i))
    && layout.descriptorCount == CountBefore(b, |b|) && layout.tableBytes == BytesBefore(b, |b|)
  }

  // ------------------------------------------------------------------ creating a layout

  /** Valid usage: binding numbers are unique. */
  predicate Unique(declared: seq<Declared>) {
    forall i, j | 0 <= i < j < |declared| :: declared[i].binding != declared[j].binding
  }

  /** A layout has the declared bindings, and only them. */
  ghost predicate Declares(bindings: seq<Binding>, declared: seq<Declared>) {
    && (forall i | 0 <= i < |declared| ::
          var d := declared[i];
          && d.binding < |bindings| && bindings[d.binding].kind == d.kind
          && bindings[d.binding].count == d.count && bindings[d.binding].stride == Stride(d.kind))
    && (forall b | 0 <= b < |bindings| ::
          (forall i | 0 <= i < |declared| :: declared[i].binding != b) ==> bindings[b].count == 0)
  }

  /** One more than the greatest declared binding number, or 0 where there is none. */
  ghost predicate Tops(count: nat, declared: seq<Declared>) {
    && (forall i | 0 <= i < |declared| :: declared[i].binding < count)
    && (count > 0 ==> exists i | 0 <= i < |declared| :: declared[i].binding + 1 == count)
  }

  method MaxBinding(declared: seq<Declared>) returns (count: nat)
    ensures Tops(count, declared)
  {
    count := 0;
    for i := 0 to |declared|
      invariant forall k | 0 <= k < i :: declared[k].binding < count
      invariant count > 0 ==> exists k | 0 <= k < i :: declared[k].binding + 1 == count
    {
      if declared[i].binding + 1 > count {
        count := declared[i].binding + 1;
      }
    }
  }

  method PlaceDeclared(declared: seq<Declared>, count: nat) returns (bindings: seq<Binding>)
    requires Unique(declared) && forall i | 0 <= i < |declared| :: declared[i].binding < count
    ensures |bindings| == count && Declares(bindings, declared)
  {
    bindings := seq(count, _ => NOTHING);
    for i := 0 to |declared|
      invariant |bindings| == count && Declares(bindings, declared[..i])
    {
      var d := declared[i];
      bindings := bindings[d.binding := Binding(d.kind, d.count, Stride(d.kind), 0, 0, 0)];
      assert declared[..i + 1] == declared[..i] + [d];
    }
    assert declared[..|declared|] == declared;
  }

  predicate SameShape(a: Binding, b: Binding) {
    a.kind == b.kind && a.count == b.count && a.stride == b.stride
  }

  ghost predicate SameShapes(a: seq<Binding>, b: seq<Binding>) {
    |a| == |b| && forall i | 0 <= i < |a| :: SameShape(a[i], b[i])
  }

  /** The sums read only what numbering does not write. */
  lemma {:induction false} SameSums(a: seq<Binding>, b: seq<Binding>, n: nat)
    requires SameShapes(a, b) && n <= |a|
    ensures CountBefore(a, n) == CountBefore(b, n) && BytesBefore(a, n) == BytesBefore(b, n)
    ensures DynamicBefore(a, n) == DynamicBefore(b, n)
  {
    if n > 0 {
      SameSums(a, b, n - 1);
    }
  }

  /** One binding's turn in the numbering loop. */
  function Number(binding: Binding, offset: nat, descriptors: nat, dynamic: nat): Binding {
    binding.(offset := offset, recordIndex := descriptors,
             dynamicIndex := if Dynamic(binding) then dynamic else binding.dynamicIndex)
  }

  method NumberBindings(placed: seq<Binding>) returns (bindings: seq<Binding>, descriptors: nat, offset: nat)
    ensures SameShapes(bindings, placed)
    ensures forall i | 0 <= i < |placed| :: Placed(bindings, placed, i)
    ensures descriptors == CountBefore(placed, |placed|) && offset == BytesBefore(placed, |placed|)
  {
    bindings := placed;
    offset, descriptors := 0, 0;
    var dynamic := 0;
    for index := 0 to |placed|
      invariant SameShapes(bindings, placed) && bindings[index..] == placed[index..]
      invariant descriptors == CountBefore(placed, index) && offset == BytesBefore(placed, index)
      invariant dynamic == DynamicBefore(placed, index)
      invariant forall i | 0 <= i < index :: Placed(bindings, placed, i)
    {
      var binding := bindings[index];
      assert binding == placed[index];
      ghost var before := bindings;
      bindings := bindings[index := Number(binding, offset, descriptors, dynamic)];
      forall i | 0 <= i < index ensures Placed(bindings, placed, i) {
        assert Placed(before, placed, i);
      }
      descriptors := descriptors + binding.count;
      if Dynamic(binding) {
        dynamic := dynamic + binding.count;
      }
      offset := offset + Times(binding.count, binding.stride);
    }
  }

  lemma StillDeclares(a: seq<Binding>, b: seq<Binding>, declared: seq<Declared>)
    requires Declares(a, declared) && SameShapes(b, a)
    ensures Declares(b, declared)
  {
    forall i | 0 <= i < |declared|
      ensures var d := declared[i];
              && d.binding < |b| && b[d.binding].kind == d.kind
              && b[d.binding].count == d.count && b[d.binding].stride == Stride(d.kind)
    {
      assert SameShape(b[declared[i].binding], a[declared[i].binding]);
    }
    forall k | 0 <= k < |b| && (forall i | 0 <= i < |declared| :: declared[i].binding != k)
      ensures b[k].count == 0
    {
      assert SameShape(b[k], a[k]);
    }
  }

  /** ps5vk_CreateDescriptorSetLayout. */
  method CreateLayout(declared: seq<Declared>) returns (layout: Layout)
    requires Unique(declared)
    ensures Tops(|layout.bindings|, declared) && Declares(layout.bindings, declared) && Numbered(layout)
  {
    var count := MaxBinding(declared);
    var placed := PlaceDeclared(declared, count);
    var bindings, descriptors, offset := NumberBindings(placed);
    layout := Layout(bindings, descriptors, offset);
    StillDeclares(placed, bindings, declared);
    forall i | 0 <= i < count ensures Placed(bindings, bindings, i) {
      assert Placed(bindings, placed, i);
      SameSums(bindings, placed, i);
    }
    SameSums(bindings, placed, count);
  }

  // ------------------------------------------------------------------ records

  /** One descriptor of a set. */
  datatype Descriptor = Descriptor(binding: nat, element: nat)

  predicate InLayout(layout: Layout, d: Descriptor) {
    d.binding < |layout.bindings| && d.element < layout.bindings[d.binding].count
  }

  /** Its record in the set. */
  function RecordOf(layout: Layout, d: Descriptor): nat
    requires InLayout(layout, d)
  {
    layout.bindings[d.binding].recordIndex + d.element
  }

  lemma {:induction false} CountsGrow(bindings: seq<Binding>, m: nat, n: nat)
    requires m <= n <= |bindings|
    ensures CountBefore(bindings, m) <= CountBefore(bindings, n)
    ensures BytesBefore(bindings, m) <= BytesBefore(bindings, n)
    ensures DynamicBefore(bindings, m) <= DynamicBefore(bindings, n)
    decreases n
  {
    if m < n {
      CountsGrow(bindings, m, n - 1);
    }
  }

  /** Different descriptors have different records, all of them the set's. */
  lemma RecordsDistinct(layout: Layout, d: Descriptor, e: Descriptor)
    requires Numbered(layout) && InLayout(layout, d) && InLayout(layout, e)
    ensures RecordOf(layout, d) < layout.descriptorCount
    ensures RecordOf(layout, d) == RecordOf(layout, e) ==> d == e
  {
    var b := layout.bindings;
    assert Placed(b, b, d.binding) && Placed(b, b, e.binding);
    CountsGrow(b, d.binding + 1, |b|);
    if d.binding < e.binding {
      CountsGrow(b, d.binding + 1, e.binding);
    } else if e.binding < d.binding {
      CountsGrow(b, e.binding + 1, d.binding);
    }
  }

  /** The binding whose records hold record r, among the first n. */
  function BindingAt(bindings: seq<Binding>, r: nat, n: nat): (b: nat)
    requires n <= |bindings| && r < CountBefore(bindings, n)
    ensures b < n && CountBefore(bindings, b) <= r < CountBefore(bindings, b) + bindings[b].count
  {
    if r >= CountBefore(bindings, n - 1) then n - 1 else BindingAt(bindings, r, n - 1)
  }

  /** The descriptor a record is. */
  function DescriptorAt(layout: Layout, r: nat): (d: Descriptor)
    requires Numbered(layout) && r < layout.descriptorCount
    ensures InLayout(layout, d) && RecordOf(layout, d) == r
  {
    var b := BindingAt(layout.bindings, r, |layout.bindings|);
    assert Placed(layout.bindings, layout.bindings, b);
    Descriptor(b, r - CountBefore(layout.bindings, b))
  }

  /** Where a descriptor's entry starts in the set's table. */
  function EntryOf(layout: Layout, d: Descriptor): nat
    requires InLayout(layout, d)
  {
    layout.bindings[d.binding].offset + Times(d.element, layout.bindings[d.binding].stride)
  }

  lemma NextEntry(e: nat, count: nat, stride: nat)
    requires e < count
    ensures Times(e, stride) + stride <= Times(count, stride)
  {
    assert (e + 1) * stride <= count * stride;
  }

  /** Different descriptors' table entries share no byte, and all lie in the table. */
  lemma EntriesApart(layout: Layout, d: Descriptor, e: Descriptor)
    requires Numbered(layout) && InLayout(layout, d) && InLayout(layout, e)
    ensures EntryOf(layout, d) + layout.bindings[d.binding].stride <= layout.tableBytes
    ensures d != e ==>
              EntryOf(layout, d) + layout.bindings[d.binding].stride <= EntryOf(layout, e) ||
              EntryOf(layout, e) + layout.bindings[e.binding].stride <= EntryOf(layout, d)
  {
    var b := layout.bindings;
    assert Placed(b, b, d.binding) && Placed(b, b, e.binding);
    NextEntry(d.element, b[d.binding].count, b[d.binding].stride);
    NextEntry(e.element, b[e.binding].count, b[e.binding].stride);
    CountsGrow(b, d.binding + 1, |b|);
    if d.binding < e.binding {
      CountsGrow(b, d.binding + 1, e.binding);
    } else if e.binding < d.binding {
      CountsGrow(b, e.binding + 1, d.binding);
    } else if d.element < e.element {
      NextEntry(d.element, e.element, b[d.binding].stride);
    } else if e.element < d.element {
      NextEntry(e.element, d.element, b[d.binding].stride);
    }
  }
}
