/**
The context-register table of a draw: driver/ps5vk_draw.c reserves one table for all the state a
draw records and fills its sections in place, each at an offset summed from the sections before
it. A slot nothing writes keeps what the memory held.
*/
module RegisterTables {
  import opened Options
  import opened Recordings
  import opened RecordingRuns

  datatype Register = Register(offset: nat, value: nat)

  /** One record of the table's memory. */
  datatype Slot = Unset | Written(register: Register)

  const TARGET_REGISTERS: nat := 16
  const MULTISAMPLE_REGISTERS: nat := 15
  const DEPTH_REGISTERS: nat := 16
  const STENCIL_REGISTERS: nat := 3
  const VIEWPORT_REGISTERS: nat := 15
  const CONTEXT_RECORDS: nat := 34
  const BLEND_CONSTANTS: nat := 4
  const POLY_OFFSET_WORDS: nat := 6

  const DEPTH_CONTROL: nat := 0x200
  const TARGET_MASK: nat := 0x08e
  const SHADER_MASK: nat := 0x08f
  const BLEND_CONTROL: nat := 0x1e0
  const COLOR_CONTROL: nat := 0x202
  const COLOR_CONTROL_WORD: nat := 0x00cc0011
  const BLEND_CONSTANT: nat := 0x105
  const RASTERIZER: nat := 0x205
  const VERTEX_CONTROL: nat := 0x2f9
  const VERTEX_CONTROL_WORD: nat := 0x2d
  const CLIP_CONTROL: nat := 0x204
  const CLIP_DISCARD: nat := 0x400000
  const POLY_OFFSET: nat := 0x2de
  const POLY_OFFSET_D32F: nat := 0x1e9
  const LINE_WORDS: seq<Register> := [Register(0x29b, 1), Register(0x282, 8), Register(0x2f7, 0)]

  /** The state a draw records: the command buffer's rows, the stages' own records and the
      pipeline's and the dynamic state's words. */
  datatype DrawState = DrawState(
    targets: seq<Register>, multisample: seq<Register>,
    depthBound: bool, depth: seq<Register>, depthControl: nat,
    stencilBound: bool, stencilTested: bool, stencil: seq<Register>,
    viewport: seq<Register>, context: seq<Register>, vertex: seq<Register>, pixel: seq<Register>,
    writeMask: nat, fullMask: bool, blend: nat, usesConstants: bool, constants: seq<nat>,
    rasterizer: nat, vertexControl: bool, discards: bool,
    depthBias: bool, biasClamp: nat, biasScale: nat, biasOffset: nat, lines: bool)

  predicate ValidState(s: DrawState) {
    && |s.targets| % TARGET_REGISTERS == 0 && |s.multisample| <= MULTISAMPLE_REGISTERS
    && |s.depth| == DEPTH_REGISTERS && |s.stencil| == STENCIL_REGISTERS
    && |s.viewport| == VIEWPORT_REGISTERS && |s.context| == CONTEXT_RECORDS
    && |s.constants| == BLEND_CONSTANTS
  }

  // ------------------------------------------------------------------ the reserved counts

  function DepthCount(s: DrawState): nat {
    if s.depthBound then DEPTH_REGISTERS + 1 else 0
  }

  function StencilCount(s: DrawState): nat {
    if s.stencilBound && s.stencilTested then STENCIL_REGISTERS else 0
  }

  function MaskCount(s: DrawState): nat {
    if s.writeMask == 0 then 2 else 1
  }

  function BlendCount(s: DrawState): nat {
    2 + if s.usesConstants then BLEND_CONSTANTS else 0
  }

  function RasterCount(s: DrawState): nat {
    1 + (if s.vertexControl then 1 else 0) + 1 +
    (if s.depthBias && s.depthBound then POLY_OFFSET_WORDS else 0) + (if s.lines then 3 else 0)
  }

  /** `fixed` in ps5vk_cmd_draw. */
  function FixedCount(s: DrawState): nat {
    |s.targets| + |s.multisample| + DepthCount(s) + StencilCount(s) + VIEWPORT_REGISTERS
  }

  function TableCount(s: DrawState): nat {
    FixedCount(s) + CONTEXT_RECORDS + |s.vertex| + |s.pixel| + MaskCount(s) + BlendCount(s) + RasterCount(s)
  }

  // ------------------------------------------------------------------ what the table holds

  function AllWritten(registers: seq<Register>): seq<Slot> {
    seq(|registers|, i requires 0 <= i < |registers| => Written(registers[i]))
  }

  function Masks(s: DrawState): seq<Register> {
    [Register(TARGET_MASK, if s.fullMask && s.writeMask != 0 then 0xf else s.writeMask)] +
    if s.writeMask == 0 then [Register(SHADER_MASK, 0)] else []
  }

  function Numbered(first: nat, values: seq<nat>): seq<Register> {
    seq(|values|, i requires 0 <= i < |values| => Register(first + i, values[i]))
  }

  function Blends(s: DrawState): seq<Register> {
    [Register(BLEND_CONTROL, s.blend), Register(COLOR_CONTROL, COLOR_CONTROL_WORD)] +
    if s.usesConstants then Numbered(BLEND_CONSTANT, s.constants) else []
  }

  /** The bias is the front face's and the back face's alike. */
  function BiasWords(s: DrawState): seq<nat> {
    [POLY_OFFSET_D32F, s.biasClamp, s.biasScale, s.biasOffset, s.biasScale, s.biasOffset]
  }

  function Rasters(s: DrawState): seq<Register> {
    [Register(RASTERIZER, s.rasterizer)] +
    (if s.vertexControl then [Register(VERTEX_CONTROL, VERTEX_CONTROL_WORD)] else []) +
    [Register(CLIP_CONTROL, if s.discards then CLIP_DISCARD else 0)] +
    (if s.depthBias && s.depthBound then Numbered(POLY_OFFSET, BiasWords(s)) else []) +
    (if s.lines then LINE_WORDS else [])
  }

  /** The depth section, and the stencil records that are written only inside it. */
  function DepthSlots(s: DrawState): seq<Slot> {
    if s.depthBound then
      AllWritten(s.depth + [Register(DEPTH_CONTROL, s.depthControl)]) +
      if StencilCount(s) != 0 then AllWritten(s.stencil) else []
    else seq(StencilCount(s), _ => Unset)
  }

  function TailRegisters(s: DrawState): seq<Register> {
    s.viewport + s.context + s.vertex + s.pixel + Masks(s) + Blends(s) + Rasters(s)
  }

  /** The table's sections, one after the other. */
  function Table(s: DrawState): seq<Slot> {
    AllWritten(s.targets + s.multisample) + DepthSlots(s) + AllWritten(TailRegisters(s))
  }

  lemma TableLength(s: DrawState)
    requires ValidState(s)
    ensures |Table(s)| == TableCount(s)
  {
  }

  // ------------------------------------------------------------------ filling it in place

  /** The first |done| slots are done; the rest are as the memory was. */
  ghost predicate Filled(cx: array<Slot>, done: seq<Slot>)
    reads cx
  {
    |done| <= cx.Length && cx[..|done|] == done && forall i | |done| <= i < cx.Length :: cx[i] == Unset
  }

  /** memcpy(cx + at, registers, ...). */
  method Copy(cx: array<Slot>, at: nat, registers: seq<Register>, ghost done: seq<Slot>)
    requires Filled(cx, done) && at == |done| && at + |registers| <= cx.Length
    modifies cx
    ensures Filled(cx, done + AllWritten(registers))
  {
    for i := 0 to |registers|
      invariant cx[..at] == done
      invariant forall k | 0 <= k < i :: cx[at + k] == Written(registers[k])
      invariant forall k | at + i <= k < cx.Length :: cx[k] == Unset
    {
      cx[at + i] := Written(registers[i]);
    }
    ghost var all := done + AllWritten(registers);
    assert cx[..|all|] == all;
  }

  /** The stencil section is only written inside the depth section's branch. */
  method CopyDepth(cx: array<Slot>, at: nat, s: DrawState, ghost done: seq<Slot>)
    requires ValidState(s) && Filled(cx, done) && at == |done|
    requires at + DepthCount(s) + StencilCount(s) <= cx.Length
    modifies cx
    ensures Filled(cx, done + DepthSlots(s))
  {
    if s.depthBound {
      var section := s.depth + [Register(DEPTH_CONTROL, s.depthControl)];
      Copy(cx, at, section, done);
      if StencilCount(s) != 0 {
        Copy(cx, at + DepthCount(s), s.stencil, done + AllWritten(section));
        assert done + AllWritten(section) + AllWritten(s.stencil) == done + DepthSlots(s);
      }
    } else {
      ghost var all := done + DepthSlots(s);
      assert cx[..|all|] == all;
    }
  }

  /** ps5vk_cmd_draw's table: the sections land exactly in the records reserved for them. */
  method FillTable(s: DrawState) returns (cx: array<Slot>)
    requires ValidState(s)
    ensures fresh(cx) && cx.Length == TableCount(s) && cx[..] == Table(s)
  {
    cx := new Slot[TableCount(s)](_ => Unset);
    ghost var done := [];
    Copy(cx, 0, s.targets, done);
    Copy(cx, |s.targets|, s.multisample, done + AllWritten(s.targets));
    done := AllWritten(s.targets + s.multisample);
    assert [] + AllWritten(s.targets) + AllWritten(s.multisample) == done;
    CopyDepth(cx, |s.targets| + |s.multisample|, s, done);
    CopyTail(cx, s, done + DepthSlots(s));
    TableLength(s);
    assert cx[..|Table(s)|] == cx[..];
  }

  /** The stages' records, then what every draw records of its own. */
  method CopyTail(cx: array<Slot>, s: DrawState, ghost done: seq<Slot>)
    requires ValidState(s) && Filled(cx, done) && cx.Length == TableCount(s)
    requires |done| == FixedCount(s) - VIEWPORT_REGISTERS
    modifies cx
    ensures Filled(cx, done + AllWritten(TailRegisters(s)))
  {
    CopyStages(cx, s, done);
    var masks := FixedCount(s) + CONTEXT_RECORDS + |s.vertex| + |s.pixel|;
    ghost var registers := s.viewport + s.context + s.vertex + s.pixel;
    Continue(done, registers, Masks(s));
    Copy(cx, masks, Masks(s), done + AllWritten(registers));
    registers := registers + Masks(s);
    Continue(done, registers, Blends(s));
    Copy(cx, masks + MaskCount(s), Blends(s), done + AllWritten(registers));
    registers := registers + Blends(s);
    Continue(done, registers, Rasters(s));
    Copy(cx, masks + MaskCount(s) + BlendCount(s), Rasters(s), done + AllWritten(registers));
  }

  method CopyStages(cx: array<Slot>, s: DrawState, ghost done: seq<Slot>)
    requires ValidState(s) && Filled(cx, done) && cx.Length == TableCount(s)
    requires |done| == FixedCount(s) - VIEWPORT_REGISTERS
    modifies cx
    ensures Filled(cx, done + AllWritten(s.viewport + s.context + s.vertex + s.pixel))
  {
    var fixed := FixedCount(s);
    Copy(cx, fixed - VIEWPORT_REGISTERS, s.viewport, done);
    ghost var registers := s.viewport;
    Continue(done, registers, s.context);
    Copy(cx, fixed, s.context, done + AllWritten(registers));
    registers := registers + s.context;
    Continue(done, registers, s.vertex);
    Copy(cx, fixed + CONTEXT_RECORDS, s.vertex, done + AllWritten(registers));
    registers := registers + s.vertex;
    Continue(done, registers, s.pixel);
    Copy(cx, fixed + CONTEXT_RECORDS + |s.vertex|, s.pixel, done + AllWritten(registers));
  }

  lemma Continue(done: seq<Slot>, registers: seq<Register>, more: seq<Register>)
    ensures done + AllWritten(registers) + AllWritten(more) == done + AllWritten(registers + more)
  {
  }

  // ------------------------------------------------------------------ exactly filled

  /** Every reserved record is written exactly when stencil state is recorded only with depth
      state. */
  lemma TableFilledExactly(s: DrawState)
    requires ValidState(s)
    ensures Unset !in Table(s) <==> (StencilCount(s) != 0 ==> s.depthBound)
  {
    if StencilCount(s) != 0 && !s.depthBound {
      assert Table(s)[|s.targets| + |s.multisample|] == Unset;
    }
  }

  /** In every recording it is: the draws of any run leave no record unwritten. */
  lemma {:induction false} RecordedTableFilled(r: Recording, commands: seq<Command>, s: DrawState)
    requires Fresh(r) && UsableRun(r, commands) && ValidState(s)
    requires s.depthBound == Run(r, commands).depthBound && s.stencilBound == Run(r, commands).stencilBound
    ensures Unset !in Table(s)
  {
    StencilNeedsDepth(r, commands);
    TableFilledExactly(s);
  }

  // ------------------------------------------------------------------ what the GPU reads

  /** The value a table leaves in a register, if it sets it. */
  function LastValue(table: seq<Slot>, offset: nat): Option<nat> {
    if table == [] then None
    else
      match table[|table| - 1]
      case Written(register) =>
        if register.offset == offset then Some(register.value) else LastValue(table[..|table| - 1], offset)
      case Unset => LastValue(table[..|table| - 1], offset)
  }

  // ------------------------------------------------------------------ what each register is left with

  function Or(first: Option<nat>, second: Option<nat>): Option<nat> {
    if first.Some? then first else second
  }

  /** The value the last of these records for a register has. */
  function ValueIn(registers: seq<Register>, offset: nat): Option<nat> {
    if registers == [] then None
    else if registers[|registers| - 1].offset == offset then Some(registers[|registers| - 1].value)
    else ValueIn(registers[..|registers| - 1], offset)
  }

  lemma {:induction false} ValueInJoined(a: seq<Register>, b: seq<Register>, offset: nat)
    ensures ValueIn(a + b, offset) == Or(ValueIn(b, offset), ValueIn(a, offset))
    decreases |b|
  {
    if b == [] {
      assert a + b == a;
    } else {
      assert (a + b)[..|a + b| - 1] == a + b[..|b| - 1];
      ValueInJoined(a, b[..|b| - 1], offset);
    }
  }

  lemma {:induction false} LastJoined(table: seq<Slot>, registers: seq<Register>, offset: nat)
    ensures LastValue(table + AllWritten(registers), offset) == Or(ValueIn(registers, offset), LastValue(table, offset))
    decreases |registers|
  {
    var all := table + AllWritten(registers);
    if registers == [] {
      assert all == table;
    } else {
      var n := |registers| - 1;
      assert all[..|all| - 1] == table + AllWritten(registers[..n]);
      LastJoined(table, registers[..n], offset);
    }
  }

  lemma {:induction false} ValueInNumbered(first: nat, values: seq<nat>, offset: nat)
    ensures ValueIn(Numbered(first, values), offset) ==
            if first <= offset < first + |values| then Some(values[offset - first]) else None
    decreases |values|
  {
    if values != [] {
      var n := |values| - 1;
      assert Numbered(first, values)[..n] == Numbered(first, values[..n]);
      ValueInNumbered(first, values[..n], offset);
    }
  }

  lemma {:induction false} ValueInOne(register: Register, offset: nat)
    ensures ValueIn([register], offset) == if register.offset == offset then Some(register.value) else None
  {
    assert ValueIn([register][..0], offset) == None;
  }

  /** What a draw's own words make of a register: its write mask, blend state and constants,
      rasterizer, clip and vertex words, depth bias and line state. */
  function Owned(s: DrawState, offset: nat): Option<nat>
    requires ValidState(s)
  {
    if offset == 0x08e then Some(if s.writeMask != 0 && s.fullMask then 15 else s.writeMask)
    else if offset == 0x08f then if s.writeMask == 0 then Some(0) else None
    else if offset == 0x1e0 then Some(s.blend)
    else if offset == 0x202 then Some(0x00cc0011)
    else if 0x105 <= offset < 0x109 then if s.usesConstants then Some(s.constants[offset - 0x105]) else None
    else if offset == 0x205 then Some(s.rasterizer)
    else if offset == 0x2f9 then if s.vertexControl then Some(0x2d) else None
    else if offset == 0x204 then Some(if s.discards then 0x400000 else 0)
    else if 0x2de <= offset < 0x2e4 then if s.depthBias && s.depthBound then Some(Bias(s, offset - 0x2de)) else None
    else if offset == 0x29b then if s.lines then Some(1) else None
    else if offset == 0x282 then if s.lines then Some(8) else None
    else if offset == 0x2f7 then if s.lines then Some(0) else None
    else None
  }

  /** The bias block: its format, its clamp, then scale and offset for front and back. */
  function Bias(s: DrawState, index: nat): nat {
    if index == 0 then 0x1e9 else if index == 1 then s.biasClamp
    else if index == 2 || index == 4 then s.biasScale else s.biasOffset
  }

  lemma {:induction false} MasksMean(s: DrawState, offset: nat)
    requires ValidState(s)
    ensures ValueIn(Masks(s), offset) == if offset == 0x08e || offset == 0x08f then Owned(s, offset) else None
  {
    var mask := Register(TARGET_MASK, if s.fullMask && s.writeMask != 0 then 0xf else s.writeMask);
    ValueInOne(mask, offset);
    ValueInOne(Register(SHADER_MASK, 0), offset);
    ValueInJoined([mask], if s.writeMask == 0 then [Register(SHADER_MASK, 0)] else [], offset);
  }

  predicate OfBlend(offset: nat) {
    offset == 0x1e0 || offset == 0x202 || 0x105 <= offset < 0x109
  }

  lemma {:induction false} BlendsMean(s: DrawState, offset: nat)
    requires ValidState(s)
    ensures ValueIn(Blends(s), offset) == if OfBlend(offset) then Owned(s, offset) else None
  {
    var control, colour := Register(BLEND_CONTROL, s.blend), Register(COLOR_CONTROL, COLOR_CONTROL_WORD);
    ValueInOne(control, offset);
    ValueInOne(colour, offset);
    ValueInJoined([control], [colour], offset);
    assert [control] + [colour] == [control, colour];
    ValueInNumbered(BLEND_CONSTANT, s.constants, offset);
    ValueInJoined([control, colour], if s.usesConstants then Numbered(BLEND_CONSTANT, s.constants) else [], offset);
  }

  predicate OfRaster(offset: nat) {
    || offset == 0x205 || offset == 0x2f9 || offset == 0x204 || 0x2de <= offset < 0x2e4
    || offset == 0x29b || offset == 0x282 || offset == 0x2f7
  }

  lemma {:induction false} LinesMean(offset: nat)
    ensures ValueIn(LINE_WORDS, offset) ==
            if offset == 0x29b then Some(1) else if offset == 0x282 then Some(8)
            else if offset == 0x2f7 then Some(0) else None
  {
    var a, b, c := Register(0x29b, 1), Register(0x282, 8), Register(0x2f7, 0);
    ValueInOne(a, offset);
    ValueInOne(b, offset);
    ValueInOne(c, offset);
    ValueInJoined([a], [b], offset);
    ValueInJoined([a] + [b], [c], offset);
    assert LINE_WORDS == [a] + [b] + [c];
  }

  lemma {:induction false} RastersMean(s: DrawState, offset: nat)
    requires ValidState(s)
    ensures ValueIn(Rasters(s), offset) == if OfRaster(offset) then Owned(s, offset) else None
  {
    var raster := [Register(RASTERIZER, s.rasterizer)];
    var vertex := if s.vertexControl then [Register(VERTEX_CONTROL, VERTEX_CONTROL_WORD)] else [];
    var clip := [Register(CLIP_CONTROL, if s.discards then CLIP_DISCARD else 0)];
    var bias := if s.depthBias && s.depthBound then Numbered(POLY_OFFSET, BiasWords(s)) else [];
    var lines := if s.lines then LINE_WORDS else [];
    ValueInOne(raster[0], offset);
    ValueInOne(Register(VERTEX_CONTROL, VERTEX_CONTROL_WORD), offset);
    ValueInOne(clip[0], offset);
    ValueInNumbered(POLY_OFFSET, BiasWords(s), offset);
    LinesMean(offset);
    ValueInJoined(raster, vertex, offset);
    ValueInJoined(raster + vertex, clip, offset);
    ValueInJoined(raster + vertex + clip, bias, offset);
    ValueInJoined(raster + vertex + clip + bias, lines, offset);
  }

  /** What the rows of a rendering make of it: the stencil's, the depth control and the depth rows in
      a depth rendering, then the multisample and target rows. */
  function OfRendering(s: DrawState, offset: nat): Option<nat> {
    var depth :=
      if !s.depthBound then None
      else
        Or(if s.stencilBound && s.stencilTested then ValueIn(s.stencil, offset) else None,
           if offset == 0x200 then Some(s.depthControl) else ValueIn(s.depth, offset));
    Or(depth, Or(ValueIn(s.multisample, offset), ValueIn(s.targets, offset)))
  }

  lemma {:induction false} UnsetLast(before: seq<Slot>, n: nat, offset: nat)
    ensures LastValue(before + seq(n, _ => Unset), offset) == LastValue(before, offset)
  {
    var all := before + seq(n, _ => Unset);
    if n == 0 {
      assert all == before;
    } else {
      assert all[..|all| - 1] == before + seq(n - 1, _ => Unset);
      UnsetLast(before, n - 1, offset);
    }
  }

  lemma {:induction false} DepthMeans(s: DrawState, before: seq<Slot>, offset: nat)
    ensures LastValue(before + DepthSlots(s), offset) ==
            if !s.depthBound then LastValue(before, offset)
            else
              Or(Or(if s.stencilBound && s.stencilTested then ValueIn(s.stencil, offset) else None,
                    if offset == 0x200 then Some(s.depthControl) else ValueIn(s.depth, offset)),
                 LastValue(before, offset))
  {
    if s.depthBound {
      var control := Register(DEPTH_CONTROL, s.depthControl);
      var stencil := if StencilCount(s) != 0 then s.stencil else [];
      ValueInOne(control, offset);
      ValueInJoined(s.depth, [control], offset);
      LastJoined(before, s.depth + [control], offset);
      LastJoined(before + AllWritten(s.depth + [control]), stencil, offset);
      assert before + DepthSlots(s) == before + AllWritten(s.depth + [control]) + AllWritten(stencil);
    } else {
      UnsetLast(before, StencilCount(s), offset);
    }
  }

  lemma {:induction false} RenderingMeans(s: DrawState, offset: nat)
    ensures LastValue(AllWritten(s.targets + s.multisample) + DepthSlots(s), offset) == OfRendering(s, offset)
  {
    var rows := AllWritten(s.targets + s.multisample);
    DepthMeans(s, rows, offset);
    LastJoined([], s.targets + s.multisample, offset);
    assert [] + rows == rows;
    ValueInJoined(s.targets, s.multisample, offset);
  }

  lemma {:induction false} TailMeans(s: DrawState, offset: nat)
    requires ValidState(s)
    ensures ValueIn(TailRegisters(s), offset) ==
            Or(Owned(s, offset),
               Or(ValueIn(s.pixel, offset),
                  Or(ValueIn(s.vertex, offset), Or(ValueIn(s.context, offset), ValueIn(s.viewport, offset)))))
  {
    var stages := s.viewport + s.context + s.vertex + s.pixel;
    ValueInJoined(s.viewport, s.context, offset);
    ValueInJoined(s.viewport + s.context, s.vertex, offset);
    ValueInJoined(s.viewport + s.context + s.vertex, s.pixel, offset);
    MasksMean(s, offset);
    BlendsMean(s, offset);
    RastersMean(s, offset);
    ValueInJoined(stages, Masks(s), offset);
    ValueInJoined(stages + Masks(s), Blends(s), offset);
    ValueInJoined(stages + Masks(s) + Blends(s), Rasters(s), offset);
  }

  /** What a draw's table leaves in any register: the draw's own word for it, or else the pixel
      stage's, the vertex stage's, the shaders' context's, the viewport's, or the rendering's. */
  lemma {:induction false} TableMeans(s: DrawState, offset: nat)
    requires ValidState(s)
    ensures LastValue(Table(s), offset) ==
            Or(Owned(s, offset),
               Or(ValueIn(s.pixel, offset),
                  Or(ValueIn(s.vertex, offset),
                     Or(ValueIn(s.context, offset), Or(ValueIn(s.viewport, offset), OfRendering(s, offset))))))
  {
    TailMeans(s, offset);
    RenderingMeans(s, offset);
    LastJoined(AllWritten(s.targets + s.multisample) + DepthSlots(s), TailRegisters(s), offset);
  }

  predicate SetsNot(registers: seq<Register>, offset: nat) {
    forall i | 0 <= i < |registers| :: registers[i].offset != offset
  }

  lemma {:induction false} NoValueIn(registers: seq<Register>, offset: nat)
    requires SetsNot(registers, offset)
    ensures ValueIn(registers, offset) == None
  {
    if registers != [] {
      NoValueIn(registers[..|registers| - 1], offset);
    }
  }

  /** A draw's table sets the depth control exactly in a depth rendering, and to its own state's:
      no section after the depth one sets it again. */
  lemma {:induction false} DepthControlRecorded(s: DrawState)
    requires ValidState(s) && SetsNot(s.targets, DEPTH_CONTROL) && SetsNot(s.multisample, DEPTH_CONTROL)
    requires SetsNot(s.stencil, DEPTH_CONTROL) && SetsNot(s.viewport, DEPTH_CONTROL)
    requires SetsNot(s.context, DEPTH_CONTROL) && SetsNot(s.vertex, DEPTH_CONTROL) && SetsNot(s.pixel, DEPTH_CONTROL)
    ensures LastValue(Table(s), DEPTH_CONTROL) == if s.depthBound then Some(s.depthControl) else None
  {
    TableMeans(s, DEPTH_CONTROL);
    NoValueIn(s.targets, DEPTH_CONTROL);
    NoValueIn(s.multisample, DEPTH_CONTROL);
    NoValueIn(s.stencil, DEPTH_CONTROL);
    NoValueIn(s.viewport, DEPTH_CONTROL);
    NoValueIn(s.context, DEPTH_CONTROL);
    NoValueIn(s.vertex, DEPTH_CONTROL);
    NoValueIn(s.pixel, DEPTH_CONTROL);
  }
}
