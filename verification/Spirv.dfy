/**
SPIR-V scans: driver/ps5vk_pipeline.c's entry-point check, its scan for the bindings a module
declares, and the narrowing of a stage's metadata to those. Section 2.3 of the SPIR-V
specification: after a five-word header come instructions, each starting with its word count in
the high half of its first word and its opcode in the low half.
*/
module Spirv {
  import opened Options

  const MAGIC: nat := 0x07230203
  const HEADER_WORDS: nat := 5
  const OP_ENTRY_POINT: nat := 15
  const OP_DECORATE: nat := 71
  const BINDING: nat := 33
  const DESCRIPTOR_SET: nat := 34
  const MAX_SLOTS: nat := 32

  function WordCount(first: nat): nat {
    first / 0x1_0000
  }

  function Opcode(first: nat): nat {
    first % 0x1_0000
  }

  // ------------------------------------------------------------------ splitting a stream

  /** An instruction's words say how many they are. */
  predicate Sized(instruction: seq<nat>) {
    instruction != [] && WordCount(instruction[0]) == |instruction|
  }

  function Flatten(instructions: seq<seq<nat>>): seq<nat> {
    if instructions == [] then [] else instructions[0] + Flatten(instructions[1..])
  }

  /** An instruction starts at the head of these words. */
  predicate StartsInstruction(words: seq<nat>) {
    words != [] && 0 < WordCount(words[0]) <= |words|
  }

  /** The instructions words start with, up to the first that does not fit. */
  function Prefix(words: seq<nat>): seq<seq<nat>> {
    if !StartsInstruction(words) then []
    else [words[..WordCount(words[0])]] + Prefix(words[WordCount(words[0])..])
  }

  /** What is left after them: nothing of a well-formed stream. */
  function Leftover(words: seq<nat>): seq<nat> {
    if !StartsInstruction(words) then words else Leftover(words[WordCount(words[0])..])
  }

  predicate WellFormed(words: seq<nat>) {
    Leftover(words) == []
  }

  /** The prefix is made of whole instructions, and with the leftover it is the stream. */
  lemma {:induction false} PrefixSplits(words: seq<nat>)
    ensures Flatten(Prefix(words)) + Leftover(words) == words
    ensures forall i | 0 <= i < |Prefix(words)| :: Sized(Prefix(words)[i])
  {
    if StartsInstruction(words) {
      var n := WordCount(words[0]);
      PrefixSplits(words[n..]);
      assert Prefix(words)[1..] == Prefix(words[n..]);
      assert words == words[..n] + words[n..];
    }
  }

  /** A stream splits into instructions in one way at most: the prefix is that way. */
  lemma {:induction false} SplitUnique(instructions: seq<seq<nat>>)
    requires forall i | 0 <= i < |instructions| :: Sized(instructions[i])
    ensures Prefix(Flatten(instructions)) == instructions && WellFormed(Flatten(instructions))
  {
    if instructions != [] {
      var first, rest := instructions[0], instructions[1..];
      SplitUnique(rest);
      var words := Flatten(instructions);
      assert words[0] == first[0] && words[..|first|] == first && words[|first|..] == Flatten(rest);
    }
  }

  /** A stream is well formed exactly when it is some sequence of sized instructions. */
  lemma WellFormedSplits(words: seq<nat>)
    ensures WellFormed(words) <==>
            exists instructions: seq<seq<nat>> ::
              Flatten(instructions) == words && forall i | 0 <= i < |instructions| :: Sized(instructions[i])
  {
    PrefixSplits(words);
    if exists instructions: seq<seq<nat>> ::
         Flatten(instructions) == words && forall i | 0 <= i < |instructions| :: Sized(instructions[i]) {
      var instructions: seq<seq<nat>> :|
        Flatten(instructions) == words && forall i | 0 <= i < |instructions| :: Sized(instructions[i]);
      SplitUnique(instructions);
    }
    if WellFormed(words) {
      assert Flatten(Prefix(words)) == words;
    }
  }

  // ------------------------------------------------------------------ the entry point

  /** A word's bytes in host order, lowest first. */
  function Bytes(word: nat): seq<nat> {
    [word % 256, word / 256 % 256, word / 0x1_0000 % 256, word / 0x100_0000 % 256]
  }

  function AllBytes(words: seq<nat>): seq<nat> {
    if words == [] then [] else Bytes(words[0]) + AllBytes(words[1..])
  }

  /** The string before the first zero byte, if there is one. */
  function UpToNul(bytes: seq<nat>): Option<seq<nat>> {
    if bytes == [] then None
    else if bytes[0] == 0 then Some([])
    else
      match UpToNul(bytes[1..])
      case None => None
      case Some(rest) => Some([bytes[0]] + rest)
  }

  /** OpEntryPoint for the execution model, with the name. */
  predicate IsEntryPoint(instruction: seq<nat>, model: nat, name: seq<nat>) {
    && |instruction| >= 4 && Opcode(instruction[0]) == OP_ENTRY_POINT && instruction[1] == model
    && UpToNul(AllBytes(instruction[3..])) == Some(name)
  }

  /** Four bytes as a word, lowest first. */
  function WordOf(a: nat, b: nat, c: nat, d: nat): nat {
    a + 256 * (b + 256 * (c + 256 * d))
  }

  lemma ByteAndRest(a: nat, k: nat)
    requires a < 256
    ensures (a + 256 * k) % 256 == a && (a + 256 * k) / 256 == k
  {
  }

  lemma DividedAgain(n: nat)
    ensures n / 0x1_0000 == n / 256 / 256 && n / 0x100_0000 == n / 256 / 256 / 256
  {
  }

  lemma BytesOfWord(a: nat, b: nat, c: nat, d: nat)
    requires a < 256 && b < 256 && c < 256 && d < 256
    ensures Bytes(WordOf(a, b, c, d)) == [a, b, c, d]
  {
    DividedAgain(WordOf(a, b, c, d));
    ByteAndRest(a, b + 256 * (c + 256 * d));
    ByteAndRest(b, c + 256 * d);
    ByteAndRest(c, d);
  }

  /** A string's words, lowest byte first and padded with zeros, at least one. */
  function StringWords(name: seq<nat>): seq<nat> {
    if |name| < 4 then [LastWord(name)]
    else [WordOf(name[0], name[1], name[2], name[3])] + StringWords(name[4..])
  }

  function LastWord(name: seq<nat>): nat
    requires |name| < 4
  {
    WordOf(if |name| > 0 then name[0] else 0, if |name| > 1 then name[1] else 0, if |name| > 2 then name[2] else 0, 0)
  }

  /** A string of bytes other than zero. */
  predicate Plain(name: seq<nat>) {
    forall i | 0 <= i < |name| :: 0 < name[i] < 256
  }

  lemma {:induction false} NulAfter(name: seq<nat>, rest: seq<nat>)
    requires Plain(name) && |rest| > 0 && rest[0] == 0
    ensures UpToNul(name + rest) == Some(name)
    decreases |name|
  {
    if name == [] {
      assert name + rest == rest;
    } else {
      assert (name + rest)[1..] == name[1..] + rest;
      NulAfter(name[1..], rest);
      assert [name[0]] + name[1..] == name;
    }
  }

  /** The bytes of a string's words are the string, a zero and something. */
  lemma {:induction false} StringThenNul(name: seq<nat>, after: seq<nat>) returns (rest: seq<nat>)
    requires Plain(name)
    ensures AllBytes(StringWords(name) + after) == name + rest && |rest| > 0 && rest[0] == 0
    decreases |name|
  {
    if |name| < 4 {
      var zeros := LastBytes(name);
      rest := zeros + AllBytes(after);
      BytesFirst(LastWord(name), after);
    } else {
      rest := StringThenNul(name[4..], after);
      FourFirst(name, StringWords(name[4..]) + after);
      FourThenRest(name, rest);
      WordsFirst(name, after);
    }
  }

  lemma {:induction false} WordsFirst(name: seq<nat>, after: seq<nat>)
    requires |name| >= 4
    ensures StringWords(name) + after ==
            [WordOf(name[0], name[1], name[2], name[3])] + (StringWords(name[4..]) + after)
  {
  }

  lemma {:induction false} FourFirst(name: seq<nat>, words: seq<nat>)
    requires Plain(name) && |name| >= 4
    ensures AllBytes([WordOf(name[0], name[1], name[2], name[3])] + words) ==
            [name[0], name[1], name[2], name[3]] + AllBytes(words)
  {
    BytesOfWord(name[0], name[1], name[2], name[3]);
    BytesFirst(WordOf(name[0], name[1], name[2], name[3]), words);
  }

  lemma {:induction false} BytesFirst(word: nat, words: seq<nat>)
    ensures AllBytes([word] + words) == Bytes(word) + AllBytes(words)
  {
    assert ([word] + words)[1..] == words;
  }

  lemma FourThenRest(name: seq<nat>, rest: seq<nat>)
    requires |name| >= 4
    ensures [name[0], name[1], name[2], name[3]] + (name[4..] + rest) == name + rest
  {
  }

  lemma LastBytes(name: seq<nat>) returns (zeros: seq<nat>)
    requires Plain(name) && |name| < 4
    ensures Bytes(LastWord(name)) == name + zeros && |zeros| > 0 && zeros[0] == 0
  {
    var bytes := [if |name| > 0 then name[0] else 0, if |name| > 1 then name[1] else 0,
                  if |name| > 2 then name[2] else 0, 0];
    BytesOfWord(bytes[0], bytes[1], bytes[2], 0);
    zeros := bytes[|name|..];
    assert bytes == name + zeros;
  }

  /** The entry point of a model and a name, whatever its id and interface, is recognised as that and
      no other. */
  lemma {:induction false} EntryPointKnown(model: nat, id: nat, name: seq<nat>, interface: seq<nat>,
                                           other: nat, called: seq<nat>)
    requires Plain(name)
    ensures var words := StringWords(name) + interface;
            var first := (3 + |words|) * 0x1_0000 + 15;
            IsEntryPoint([first, model, id] + words, other, called) <==> other == model && called == name
  {
    var words := StringWords(name) + interface;
    var instruction := [(3 + |words|) * 0x1_0000 + 15, model, id] + words;
    var rest := StringThenNul(name, interface);
    NulAfter(name, rest);
    assert instruction[3..] == words;
    OpcodeOf(3 + |words|, 15);
  }

  lemma OpcodeOf(count: nat, opcode: nat)
    requires opcode < 0x1_0000
    ensures Opcode(count * 0x1_0000 + opcode) == opcode && WordCount(count * 0x1_0000 + opcode) == count
  {
  }

  predicate HasHeader(words: seq<nat>) {
    |words| >= HEADER_WORDS && words[0] == MAGIC
  }

  predicate AnyEntryPoint(instructions: seq<seq<nat>>, model: nat, name: seq<nat>) {
    exists i | 0 <= i < |instructions| :: IsEntryPoint(instructions[i], model, name)
  }

  lemma AnyWithOneMore(instructions: seq<seq<nat>>, instruction: seq<nat>, model: nat, name: seq<nat>)
    ensures AnyEntryPoint(instructions + [instruction], model, name) <==>
            AnyEntryPoint(instructions, model, name) || IsEntryPoint(instruction, model, name)
  {
    var all := instructions + [instruction];
    assert all[|instructions|] == instruction;
    if i :| 0 <= i < |instructions| && IsEntryPoint(instructions[i], model, name) {
      assert all[i] == instructions[i];
    }
  }

  /** The module is well formed and one of its instructions is the entry point. */
  predicate DeclaresEntryPoint(words: seq<nat>, model: nat, name: seq<nat>) {
    && HasHeader(words) && WellFormed(words[HEADER_WORDS..])
    && AnyEntryPoint(Prefix(words[HEADER_WORDS..]), model, name)
  }

  lemma NextInstruction(words: seq<nat>, at: nat)
    requires at <= |words| && StartsInstruction(words[at..])
    ensures var n := WordCount(words[at]);
            && words[at..][n..] == words[at + n..] && words[at..][..n] == words[at..at + n]
            && Prefix(words[at..]) == [words[at..at + n]] + Prefix(words[at + n..])
            && Leftover(words[at..]) == Leftover(words[at + n..])
  {
    var n := WordCount(words[at]);
    assert words[at..][n..] == words[at + n..];
    assert words[at..][..n] == words[at..at + n];
  }

  /** The scan has gone through the instructions `done` and stands at `at`. */
  ghost predicate Scanned(words: seq<nat>, done: seq<seq<nat>>, at: nat) {
    && HEADER_WORDS <= at <= |words|
    && Prefix(words[HEADER_WORDS..]) == done + Prefix(words[at..])
    && Leftover(words[HEADER_WORDS..]) == Leftover(words[at..])
  }

  lemma ScansOn(words: seq<nat>, done: seq<seq<nat>>, at: nat)
    requires Scanned(words, done, at) && StartsInstruction(words[at..])
    ensures var n := WordCount(words[at]);
            at + n <= |words| && Scanned(words, done + [words[at..at + n]], at + n)
  {
    var n := WordCount(words[at]);
    NextInstruction(words, at);
    Regrouped(done, words[at..at + n], Prefix(words[at + n..]));
  }

  lemma Regrouped(done: seq<seq<nat>>, instruction: seq<nat>, rest: seq<seq<nat>>)
    ensures done + ([instruction] + rest) == (done + [instruction]) + rest
  {
  }

  /** ps5vk_spirv_has_entry_point. */
  method HasEntryPoint(words: seq<nat>, model: nat, name: seq<nat>) returns (has: bool)
    ensures has <==> DeclaresEntryPoint(words, model, name)
  {
    if |words| < HEADER_WORDS || words[0] != MAGIC {
      return false;
    }
    ghost var done: seq<seq<nat>> := [];
    var found, at := false, HEADER_WORDS;
    while at < |words|
      invariant Scanned(words, done, at)
      invariant found <==> AnyEntryPoint(done, model, name)
    {
      var wordCount := WordCount(words[at]);
      if wordCount == 0 || wordCount > |words| - at {
        assert !StartsInstruction(words[at..]);
        return false;
      }
      ScansOn(words, done, at);
      var instruction := words[at..at + wordCount];
      AnyWithOneMore(done, instruction, model, name);
      found := found || IsEntryPoint(instruction, model, name);
      done := done + [instruction];
      at := at + wordCount;
    }
    assert Prefix(words[HEADER_WORDS..]) == done;
    return found;
  }

  // ------------------------------------------------------------------ decorations

  /** A Binding or DescriptorSet decoration of an id. */
  datatype Decoration = Decoration(id: nat, kind: nat, value: nat)

  predicate Decorates(instruction: seq<nat>) {
    |instruction| >= 4 && Opcode(instruction[0]) == OP_DECORATE &&
    (instruction[2] == DESCRIPTOR_SET || instruction[2] == BINDING)
  }

  function DecorationOf(instruction: seq<nat>): Decoration
    requires Decorates(instruction)
  {
    Decoration(instruction[1], instruction[2], instruction[3])
  }

  /** The decorations of a sequence of instructions, in order. */
  function Decorations(instructions: seq<seq<nat>>): seq<Decoration> {
    if instructions == [] then []
    else
      Decorations(instructions[..|instructions| - 1]) +
      var last := instructions[|instructions| - 1];
      if Decorates(last) then [DecorationOf(last)] else []
  }

  /** The value an id is decorated with, the last if more than once. */
  function ValueOf(decorations: seq<Decoration>, id: nat, kind: nat): Option<nat> {
    if decorations == [] then None
    else
      var last := decorations[|decorations| - 1];
      if last.id == id && last.kind == kind then Some(last.value)
      else ValueOf(decorations[..|decorations| - 1], id, kind)
  }

  function Ids(decorations: seq<Decoration>): set<nat> {
    set i | 0 <= i < |decorations| :: decorations[i].id
  }

  // ------------------------------------------------------------------ the slots

  /** One decorated id and what it is decorated with so far. */
  datatype Slot = Slot(id: nat, descriptorSet: Option<nat>, binding: Option<nat>)

  predicate SlotTells(slot: Slot, decorations: seq<Decoration>) {
    && slot.descriptorSet == ValueOf(decorations, slot.id, DESCRIPTOR_SET)
    && slot.binding == ValueOf(decorations, slot.id, BINDING)
  }

  /** The slots are the decorated ids, each once, and tell what they are decorated with. */
  ghost predicate Tells(slots: seq<Slot>, decorations: seq<Decoration>) {
    && (forall i | 0 <= i < |slots| :: SlotTells(slots[i], decorations))
    && (forall i, j | 0 <= i < j < |slots| :: slots[i].id != slots[j].id)
    && (forall id :: id in Ids(decorations) <==> exists i | 0 <= i < |slots| :: slots[i].id == id)
  }

  function Decorated(slot: Slot, d: Decoration): Slot {
    if d.kind == DESCRIPTOR_SET then slot.(descriptorSet := Some(d.value)) else slot.(binding := Some(d.value))
  }

  method FindSlot(slots: seq<Slot>, id: nat) returns (slot: nat)
    ensures slot <= |slots| && (slot < |slots| ==> slots[slot].id == id)
    ensures forall i | 0 <= i < slot :: slots[i].id != id
  {
    slot := 0;
    while slot < |slots| && slots[slot].id != id
      invariant slot <= |slots| && forall i | 0 <= i < slot :: slots[i].id != id
    {
      slot := slot + 1;
    }
  }

  lemma {:induction false} OneMore(decorations: seq<Decoration>, d: Decoration, id: nat, kind: nat)
    ensures ValueOf(decorations + [d], id, kind) ==
            if d.id == id && d.kind == kind then Some(d.value) else ValueOf(decorations, id, kind)
    ensures Ids(decorations + [d]) == Ids(decorations) + {d.id}
  {
    var all := decorations + [d];
    assert all[..|decorations|] == decorations;
    forall x | x in Ids(decorations) + {d.id} ensures x in Ids(all) {
      if x == d.id {
        assert all[|decorations|].id == x;
      } else {
        var i :| 0 <= i < |decorations| && decorations[i].id == x;
        assert all[i].id == x;
      }
    }
  }

  /** An id nothing decorates has no value. */
  lemma {:induction false} Undecorated(decorations: seq<Decoration>, id: nat, kind: nat)
    requires id !in Ids(decorations)
    ensures ValueOf(decorations, id, kind) == None
  {
    if decorations != [] {
      var n := |decorations| - 1;
      assert decorations[n].id in Ids(decorations);
      assert forall i | 0 <= i < n :: decorations[..n][i].id in Ids(decorations) by {
        assert forall i | 0 <= i < n :: decorations[..n][i] == decorations[i];
      }
      Undecorated(decorations[..n], id, kind);
    }
  }

  lemma SlotUpdated(slot: Slot, decorations: seq<Decoration>, d: Decoration)
    requires SlotTells(slot, decorations) && (d.kind == DESCRIPTOR_SET || d.kind == BINDING)
    ensures SlotTells(if slot.id == d.id then Decorated(slot, d) else slot, decorations + [d])
  {
    OneMore(decorations, d, slot.id, DESCRIPTOR_SET);
    OneMore(decorations, d, slot.id, BINDING);
  }

  /** A decoration of an id that has a slot. */
  lemma KnownId(slots: seq<Slot>, decorations: seq<Decoration>, d: Decoration, slot: nat)
    requires Tells(slots, decorations) && slot < |slots| && slots[slot].id == d.id
    requires d.kind == DESCRIPTOR_SET || d.kind == BINDING
    ensures Tells(slots[slot := Decorated(slots[slot], d)], decorations + [d])
  {
    var out := slots[slot := Decorated(slots[slot], d)];
    forall i | 0 <= i < |out| ensures SlotTells(out[i], decorations + [d]) {
      SlotUpdated(slots[i], decorations, d);
      assert i != slot ==> slots[i].id != d.id;
    }
    OneMore(decorations, d, d.id, d.kind);
    forall id ensures id in Ids(decorations + [d]) <==> exists i | 0 <= i < |out| :: out[i].id == id {
      if i :| 0 <= i < |slots| && slots[i].id == id {
        assert out[i].id == id;
      }
      if i :| 0 <= i < |out| && out[i].id == id {
        assert slots[i].id == id;
      }
    }
  }

  /** A decoration of a new id. */
  lemma NewId(slots: seq<Slot>, decorations: seq<Decoration>, d: Decoration)
    requires Tells(slots, decorations) && forall i | 0 <= i < |slots| :: slots[i].id != d.id
    requires d.kind == DESCRIPTOR_SET || d.kind == BINDING
    ensures Tells(slots + [Decorated(Slot(d.id, None, None), d)], decorations + [d])
  {
    var blank := Slot(d.id, None, None);
    var out := slots + [Decorated(blank, d)];
    Undecorated(decorations, d.id, DESCRIPTOR_SET);
    Undecorated(decorations, d.id, BINDING);
    SlotUpdated(blank, decorations, d);
    forall i | 0 <= i < |slots| ensures SlotTells(out[i], decorations + [d]) {
      SlotUpdated(slots[i], decorations, d);
    }
    OneMore(decorations, d, d.id, d.kind);
    forall id ensures id in Ids(decorations + [d]) <==> exists i | 0 <= i < |out| :: out[i].id == id {
      if i :| 0 <= i < |slots| && slots[i].id == id {
        assert out[i].id == id;
      }
      if id == d.id {
        assert out[|slots|].id == id;
      }
    }
  }

  // ------------------------------------------------------------------ scanning for slots

  lemma {:induction false} DecorationsJoin(a: seq<seq<nat>>, b: seq<seq<nat>>)
    ensures Decorations(a + b) == Decorations(a) + Decorations(b)
    decreases |b|
  {
    if b == [] {
      assert a + b == a;
    } else {
      var rest, last := b[..|b| - 1], b[|b| - 1];
      DecorationsJoin(a, rest);
      assert (a + b)[..|a + b| - 1] == a + rest;
    }
  }

  lemma {:induction false} DecorationsNext(done: seq<seq<nat>>, instruction: seq<nat>)
    ensures Decorations(done + [instruction]) ==
            if Decorates(instruction) then Decorations(done) + [DecorationOf(instruction)] else Decorations(done)
  {
    assert (done + [instruction])[..|done|] == done;
  }

  /** Slots with different ids are as many as their ids. */
  lemma {:induction false} SlotIds(slots: seq<Slot>)
    requires forall i, j | 0 <= i < j < |slots| :: slots[i].id != slots[j].id
    ensures |set i | 0 <= i < |slots| :: slots[i].id| == |slots|
  {
    var ids := set i | 0 <= i < |slots| :: slots[i].id;
    if slots != [] {
      var n := |slots| - 1;
      var before := slots[..n];
      SlotIds(before);
      var those := set i | 0 <= i < |before| :: before[i].id;
      assert ids == those + {slots[n].id} by {
        assert forall i | 0 <= i < n :: before[i] == slots[i];
        assert forall x | x in those :: exists i | 0 <= i < |slots| :: slots[i].id == x;
      }
    }
  }

  lemma TellsCount(slots: seq<Slot>, decorations: seq<Decoration>)
    requires Tells(slots, decorations)
    ensures |Ids(decorations)| == |slots|
  {
    SlotIds(slots);
    assert Ids(decorations) == set i | 0 <= i < |slots| :: slots[i].id;
  }

  /** The first n decorations are the longest run from the start that decorates at most as many ids
      as there are slots. */
  ghost predicate LongestFit(decorations: seq<Decoration>, n: nat) {
    && n <= |decorations| && |Ids(decorations[..n])| <= MAX_SLOTS
    && (n < |decorations| ==> |Ids(decorations[..n + 1])| > MAX_SLOTS)
  }

  /** One decoration into the slots; false, and no change, when it needs one too many. */
  method Note(slots: seq<Slot>, d: Decoration, ghost decorations: seq<Decoration>) returns (out: seq<Slot>, ok: bool)
    requires Tells(slots, decorations) && |slots| <= MAX_SLOTS && (d.kind == DESCRIPTOR_SET || d.kind == BINDING)
    ensures ok ==> Tells(out, decorations + [d]) && |out| <= MAX_SLOTS
    ensures !ok ==> out == slots && |Ids(decorations + [d])| > MAX_SLOTS
  {
    var slot := FindSlot(slots, d.id);
    if slot == |slots| {
      NewId(slots, decorations, d);
      if |slots| == MAX_SLOTS {
        TellsCount(slots + [Decorated(Slot(d.id, None, None), d)], decorations + [d]);
        return slots, false;
      }
      return slots + [Decorated(Slot(d.id, None, None), d)], true;
    }
    KnownId(slots, decorations, d, slot);
    return slots[slot := Decorated(slots[slot], d)], true;
  }

  ghost predicate Scanning(words: seq<nat>, done: seq<seq<nat>>, at: nat, slots: seq<Slot>) {
    Scanned(words, done, at) && Tells(slots, Decorations(done)) && |slots| <= MAX_SLOTS
  }

  /** Everything is scanned, or the next instruction decorates one id too many. */
  ghost predicate Ended(words: seq<nat>, done: seq<seq<nat>>, at: nat)
    requires at <= |words|
  {
    Prefix(words[at..]) != [] ==>
      var instruction := Prefix(words[at..])[0];
      Decorates(instruction) && |Ids(Decorations(done) + [DecorationOf(instruction)])| > MAX_SLOTS
  }

  lemma {:induction false} Longest(words: seq<nat>, done: seq<seq<nat>>, at: nat, slots: seq<Slot>)
    requires Scanning(words, done, at, slots) && Ended(words, done, at)
    ensures LongestFit(Decorations(Prefix(words[HEADER_WORDS..])), |Decorations(done)|)
    ensures Decorations(Prefix(words[HEADER_WORDS..]))[..|Decorations(done)|] == Decorations(done)
  {
    var rest := Prefix(words[at..]);
    var all := Decorations(Prefix(words[HEADER_WORDS..]));
    DecorationsJoin(done, rest);
    assert all == Decorations(done) + Decorations(rest);
    TellsCount(slots, Decorations(done));
    var n := |Decorations(done)|;
    if rest != [] {
      DecorationsJoin([rest[0]], rest[1..]);
      assert rest == [rest[0]] + rest[1..];
      assert Decorations([rest[0]]) == [DecorationOf(rest[0])] by { DecorationsNext([], rest[0]); }
      assert all[..n + 1] == Decorations(done) + [DecorationOf(rest[0])];
    }
  }

  /** One instruction's turn: its decoration is noted, or the scan is over. */
  method ScanOne(words: seq<nat>, at: nat, slots: seq<Slot>, ghost done: seq<seq<nat>>)
    returns (next: nat, out: seq<Slot>, over: bool)
    requires Scanning(words, done, at, slots) && StartsInstruction(words[at..])
    ensures over ==> next == at && out == slots && Ended(words, done, at)
    ensures !over ==> next == at + WordCount(words[at]) <= |words|
    ensures !over ==> Scanning(words, done + [words[at..next]], next, out)
  {
    var wordCount := WordCount(words[at]);
    NextInstruction(words, at);
    ScansOn(words, done, at);
    var ok;
    out, ok := NoteInstruction(slots, words[at..at + wordCount], done);
    if !ok {
      return at, slots, true;
    }
    return at + wordCount, out, false;
  }

  /** An instruction into the slots, if it decorates. */
  method NoteInstruction(slots: seq<Slot>, instruction: seq<nat>, ghost done: seq<seq<nat>>)
    returns (out: seq<Slot>, ok: bool)
    requires Sized(instruction) && Tells(slots, Decorations(done)) && |slots| <= MAX_SLOTS
    ensures ok ==> Tells(out, Decorations(done + [instruction])) && |out| <= MAX_SLOTS
    ensures !ok ==> out == slots && Decorates(instruction) &&
                    |Ids(Decorations(done) + [DecorationOf(instruction)])| > MAX_SLOTS
  {
    DecorationsNext(done, instruction);
    if !Decorates(instruction) {
      return slots, true;
    }
    out, ok := Note(slots, DecorationOf(instruction), Decorations(done));
  }

  /** The first loop of ps5vk_spirv_bindings. */
  method ScanSlots(words: seq<nat>) returns (slots: seq<Slot>, ghost n: nat)
    requires HasHeader(words)
    ensures LongestFit(Decorations(Prefix(words[HEADER_WORDS..])), n)
    ensures Tells(slots, Decorations(Prefix(words[HEADER_WORDS..]))[..n]) && |slots| <= MAX_SLOTS
  {
    ghost var done: seq<seq<nat>> := [];
    var at, over := HEADER_WORDS, false;
    slots := [];
    while at < |words| && !over
      invariant Scanning(words, done, at, slots) && (over ==> Ended(words, done, at))
      decreases |words| - at, !over
    {
      var wordCount := WordCount(words[at]);
      if wordCount == 0 || wordCount > |words| - at {
        assert !StartsInstruction(words[at..]);
        over := true;
      } else {
        var next;
        next, slots, over := ScanOne(words, at, slots, done);
        done := if over then done else done + [words[at..next]];
        at := next;
      }
    }
    Longest(words, done, at, slots);
    n := |Decorations(done)|;
  }

  // ------------------------------------------------------------------ the declared pairs

  /** A set and binding as ps5vk_spirv_bindings reports them: a byte each. */
  datatype Pair = Pair(descriptorSet: nat, binding: nat)

  predicate Whole(slot: Slot) {
    slot.descriptorSet.Some? && slot.binding.Some?
  }

  function PairOf(slot: Slot): Pair
    requires Whole(slot)
  {
    Pair(slot.descriptorSet.value % 256, slot.binding.value % 256)
  }

  /** The slots that carry both decorations. */
  method CollectPairs(slots: seq<Slot>) returns (pairs: seq<Pair>)
    ensures forall p :: p in pairs <==> exists i | 0 <= i < |slots| :: Whole(slots[i]) && PairOf(slots[i]) == p
  {
    pairs := [];
    for slot := 0 to |slots|
      invariant forall p :: p in pairs <==> exists i | 0 <= i < slot :: Whole(slots[i]) && PairOf(slots[i]) == p
    {
      if Whole(slots[slot]) {
        pairs := pairs + [PairOf(slots[slot])];
      }
    }
  }

  /** An id carries both decorations, and this is what it is reported as. */
  predicate Carries(decorations: seq<Decoration>, id: nat, p: Pair) {
    var s, b := ValueOf(decorations, id, DESCRIPTOR_SET), ValueOf(decorations, id, BINDING);
    s.Some? && b.Some? && p == Pair(s.value % 256, b.value % 256)
  }

  lemma SlotsCarry(slots: seq<Slot>, decorations: seq<Decoration>, p: Pair)
    requires Tells(slots, decorations)
    ensures (exists i | 0 <= i < |slots| :: Whole(slots[i]) && PairOf(slots[i]) == p) <==>
            exists id :: Carries(decorations, id, p)
  {
    if i :| 0 <= i < |slots| && Whole(slots[i]) && PairOf(slots[i]) == p {
      assert SlotTells(slots[i], decorations);
      assert Carries(decorations, slots[i].id, p);
    }
    if id :| Carries(decorations, id, p) {
      if id !in Ids(decorations) {
        Undecorated(decorations, id, DESCRIPTOR_SET);
      }
      var i :| 0 <= i < |slots| && slots[i].id == id;
      assert SlotTells(slots[i], decorations);
    }
  }

  /** ps5vk_spirv_bindings: the pairs of the ids that carry both decorations, whichever came first,
      among the longest run of decorations the slots hold. */
  method DeclaredBindings(words: seq<nat>) returns (pairs: seq<Pair>, ghost n: nat)
    ensures !HasHeader(words) ==> pairs == []
    ensures HasHeader(words) ==>
              var decorations := Decorations(Prefix(words[HEADER_WORDS..]));
              LongestFit(decorations, n) &&
              forall p :: p in pairs <==> exists id :: Carries(decorations[..n], id, p)
  {
    pairs, n := [], 0;
    if |words| < HEADER_WORDS || words[0] != MAGIC {
      return;
    }
    var slots;
    slots, n := ScanSlots(words);
    pairs := CollectPairs(slots);
    ghost var decorations := Decorations(Prefix(words[HEADER_WORDS..]));
    forall p ensures p in pairs <==> exists id :: Carries(decorations[..n], id, p) {
      SlotsCarry(slots, decorations[..n], p);
    }
  }

  /** With no more decorated ids than slots, all of them are looked at; with values below 256, they
      are reported as they are. */
  lemma {:induction false} FewAreExact(decorations: seq<Decoration>, n: nat, id: nat, p: Pair)
    requires |Ids(decorations)| <= MAX_SLOTS && LongestFit(decorations, n)
    requires forall i | 0 <= i < |decorations| :: decorations[i].value < 256
    ensures n == |decorations|
    ensures Carries(decorations[..n], id, p) <==>
            ValueOf(decorations, id, DESCRIPTOR_SET) == Some(p.descriptorSet) &&
            ValueOf(decorations, id, BINDING) == Some(p.binding)
  {
    if n < |decorations| {
      PrefixIds(decorations, n + 1);
    }
    assert decorations[..n] == decorations;
    SmallValues(decorations, id, DESCRIPTOR_SET);
    SmallValues(decorations, id, BINDING);
  }

  lemma PrefixIds(decorations: seq<Decoration>, n: nat)
    requires n <= |decorations|
    ensures |Ids(decorations[..n])| <= |Ids(decorations)|
  {
    forall id | id in Ids(decorations[..n]) ensures id in Ids(decorations) {
      var i :| 0 <= i < n && decorations[..n][i].id == id;
      assert decorations[i].id == id;
    }
    Subset(Ids(decorations[..n]), Ids(decorations));
  }

  lemma {:induction false} Subset(a: set<nat>, b: set<nat>)
    requires a <= b
    ensures |a| <= |b|
    decreases a
  {
    if a != {} {
      var x :| x in a;
      Subset(a - {x}, b - {x});
    }
  }

  lemma {:induction false} SmallValues(decorations: seq<Decoration>, id: nat, kind: nat)
    requires forall i | 0 <= i < |decorations| :: decorations[i].value < 256
    ensures ValueOf(decorations, id, kind).Some? ==> ValueOf(decorations, id, kind).value < 256
  {
    if decorations != [] {
      assert forall i | 0 <= i < |decorations| - 1 :: decorations[..|decorations| - 1][i] == decorations[i];
      SmallValues(decorations[..|decorations| - 1], id, kind);
    }
  }

  // ------------------------------------------------------------------ narrowing the metadata

  /** A binding of a stage's metadata. */
  datatype MetaBinding = MetaBinding(descriptorSet: nat, binding: nat, rest: nat)

  predicate DeclaredIn(b: MetaBinding, declared: seq<Pair>) {
    Pair(b.descriptorSet, b.binding) in declared
  }

  /** The declared ones, in order. */
  function Kept(bindings: seq<MetaBinding>, declared: seq<Pair>): seq<MetaBinding> {
    if bindings == [] then []
    else
      Kept(bindings[..|bindings| - 1], declared) +
      if DeclaredIn(bindings[|bindings| - 1], declared) then [bindings[|bindings| - 1]] else []
  }

  method IsDeclared(b: MetaBinding, declared: seq<Pair>) returns (used: bool)
    ensures used <==> DeclaredIn(b, declared)
  {
    used := false;
    var d := 0;
    while d < |declared| && !used
      invariant d <= |declared|
      invariant used <==> exists i | 0 <= i < d :: declared[i] == Pair(b.descriptorSet, b.binding)
    {
      used := declared[d].descriptorSet == b.descriptorSet && declared[d].binding == b.binding;
      d := d + 1;
    }
  }

  lemma {:induction false} KeptNext(bindings: seq<MetaBinding>, b: nat, declared: seq<Pair>)
    requires b < |bindings|
    ensures Kept(bindings[..b + 1], declared) ==
            Kept(bindings[..b], declared) + if DeclaredIn(bindings[b], declared) then [bindings[b]] else []
  {
    assert bindings[..b + 1][..b] == bindings[..b];
  }

  /** The narrowing: the kept bindings move to the front, in place. */
  method Narrow(bindings: array<MetaBinding>, count: nat, declared: seq<Pair>) returns (kept: nat)
    requires count <= bindings.Length
    modifies bindings
    ensures kept <= count && bindings[..kept] == Kept(old(bindings[..count]), declared)
    ensures bindings[kept..] == old(bindings[kept..])
  {
    kept := 0;
    for b := 0 to count
      invariant kept <= b
      invariant bindings[..kept] == Kept(old(bindings[..])[..b], declared)
      invariant bindings[kept..] == old(bindings[kept..])
    {
      assert bindings[b] == old(bindings[b]);
      KeptNext(old(bindings[..]), b, declared);
      var used := IsDeclared(bindings[b], declared);
      if used {
        ghost var front := bindings[..kept];
        bindings[kept] := bindings[b];
        assert bindings[..kept] == front;
        kept := kept + 1;
        assert bindings[..kept] == front + [bindings[kept - 1]];
      }
    }
    assert old(bindings[..])[..count] == old(bindings[..count]);
  }

  /** Exactly the declared bindings are kept, and they stay in order. */
  lemma {:induction false} KeptAreDeclared(bindings: seq<MetaBinding>, declared: seq<Pair>, b: MetaBinding)
    ensures b in Kept(bindings, declared) <==> b in bindings && DeclaredIn(b, declared)
  {
    if bindings != [] {
      var n := |bindings| - 1;
      KeptAreDeclared(bindings[..n], declared, b);
      assert bindings == bindings[..n] + [bindings[n]];
    }
  }

  /** Some id of the module carries this set and binding. */
  ghost predicate ModuleDeclares(decorations: seq<Decoration>, b: MetaBinding) {
    exists id :: Carries(decorations, id, Pair(b.descriptorSet, b.binding))
  }

  /** The same, with the values as the module has them. */
  ghost predicate ModuleHas(decorations: seq<Decoration>, b: MetaBinding) {
    exists id ::
      ValueOf(decorations, id, DESCRIPTOR_SET) == Some(b.descriptorSet) &&
      ValueOf(decorations, id, BINDING) == Some(b.binding)
  }

  lemma {:induction false} FewDeclare(decorations: seq<Decoration>, n: nat, b: MetaBinding)
    requires |Ids(decorations)| <= MAX_SLOTS && LongestFit(decorations, n)
    requires forall i | 0 <= i < |decorations| :: decorations[i].value < 256
    ensures ModuleDeclares(decorations[..n], b) <==> ModuleHas(decorations, b)
  {
    var p := Pair(b.descriptorSet, b.binding);
    forall id
      ensures Carries(decorations[..n], id, p) <==>
              ValueOf(decorations, id, DESCRIPTOR_SET) == Some(b.descriptorSet) &&
              ValueOf(decorations, id, BINDING) == Some(b.binding)
    {
      FewAreExact(decorations, n, id, p);
    }
  }

  /** One stage of a pipeline: its module's declared bindings are looked up and its metadata
      narrowed to them. A binding is kept exactly when some id among the decorations the slots hold
      carries its set and binding; with at most 32 decorated ids and values below 256, exactly when
      some id of the module does. */
  method NarrowStage(words: seq<nat>, bindings: array<MetaBinding>, count: nat) returns (kept: nat, ghost n: nat)
    requires HasHeader(words) && count <= bindings.Length
    modifies bindings
    ensures kept <= count && bindings[kept..] == old(bindings[kept..])
    ensures var decorations := Decorations(Prefix(words[HEADER_WORDS..]));
            && LongestFit(decorations, n)
            && (forall b :: b in bindings[..kept] <==>
                  b in old(bindings[..count]) && ModuleDeclares(decorations[..n], b))
            && (|Ids(decorations)| <= MAX_SLOTS &&
                (forall i | 0 <= i < |decorations| :: decorations[i].value < 256) ==>
                  forall b :: b in bindings[..kept] <==>
                    b in old(bindings[..count]) && ModuleHas(decorations, b))
  {
    var declared;
    declared, n := DeclaredBindings(words);
    kept := Narrow(bindings, count, declared);
    ghost var decorations, was := Decorations(Prefix(words[HEADER_WORDS..])), old(bindings[..count]);
    forall b ensures b in bindings[..kept] <==> b in was && ModuleDeclares(decorations[..n], b) {
      KeptAreDeclared(was, declared, b);
    }
    if |Ids(decorations)| <= MAX_SLOTS && forall i | 0 <= i < |decorations| :: decorations[i].value < 256 {
      forall b ensures ModuleDeclares(decorations[..n], b) <==> ModuleHas(decorations, b) {
        FewDeclare(decorations, n, b);
      }
    }
  }

  // ------------------------------------------------------------------ more ids than slots

  /** Every decorated id carries both decorations, its values are bytes, and no two ids carry the
      same pair. */
  ghost predicate Distinctly(decorations: seq<Decoration>) {
    && (forall i | 0 <= i < |decorations| :: decorations[i].value < 256)
    && (forall id | id in Ids(decorations) :: Both(decorations, id))
    && (forall id, other | id in Ids(decorations) && other in Ids(decorations) && id != other ::
          PairFor(decorations, id) != PairFor(decorations, other))
  }

  predicate Both(decorations: seq<Decoration>, id: nat) {
    ValueOf(decorations, id, DESCRIPTOR_SET).Some? && ValueOf(decorations, id, BINDING).Some?
  }

  /** What an id that carries both is reported as; a pair no id is, otherwise. */
  function PairFor(decorations: seq<Decoration>, id: nat): Pair {
    var s, b := ValueOf(decorations, id, DESCRIPTOR_SET), ValueOf(decorations, id, BINDING);
    if s.Some? && b.Some? then Pair(s.value % 256, b.value % 256) else Pair(256, 256)
  }

  function PairsFor(decorations: seq<Decoration>, ids: set<nat>): set<Pair> {
    set id | id in ids :: PairFor(decorations, id)
  }

  /** Ids are reported as no more pairs than they are, and as exactly so many when all differ. */
  lemma {:induction false} CountPairs(decorations: seq<Decoration>, ids: set<nat>)
    ensures |PairsFor(decorations, ids)| <= |ids|
    ensures (forall id, other | id in ids && other in ids && id != other ::
               PairFor(decorations, id) != PairFor(decorations, other)) ==>
              |PairsFor(decorations, ids)| == |ids|
    decreases ids
  {
    if ids != {} {
      var id :| id in ids;
      CountPairs(decorations, ids - {id});
      assert PairsFor(decorations, ids) == PairsFor(decorations, ids - {id}) + {PairFor(decorations, id)};
    }
  }

  lemma {:induction false} SubsetPairs(a: set<Pair>, b: set<Pair>)
    requires a <= b
    ensures |a| <= |b|
    decreases a
  {
    if a != {} {
      var x :| x in a;
      SubsetPairs(a - {x}, b - {x});
    }
  }

  /** Every pair of the module is among those reported. */
  ghost predicate AllReported(decorations: seq<Decoration>, n: nat)
    requires n <= |decorations|
  {
    forall id | id in Ids(decorations) :: Reported(decorations[..n], PairFor(decorations, id))
  }

  ghost predicate Reported(looked: seq<Decoration>, p: Pair) {
    exists id :: Carries(looked, id, p)
  }

  lemma ReportedIsPair(looked: seq<Decoration>, p: Pair)
    requires Reported(looked, p)
    ensures p in PairsFor(looked, Ids(looked))
  {
    var id :| Carries(looked, id, p);
    if id !in Ids(looked) {
      Undecorated(looked, id, DESCRIPTOR_SET);
    }
  }

  /** A module whose ids carry distinct pairs of bytes has all of them reported exactly when it
      decorates no more ids than there are slots. */
  lemma {:induction false} ReportedExactly(decorations: seq<Decoration>, n: nat)
    requires Distinctly(decorations) && LongestFit(decorations, n)
    ensures AllReported(decorations, n) <==> |Ids(decorations)| <= MAX_SLOTS
  {
    if |Ids(decorations)| <= MAX_SLOTS {
      forall id | id in Ids(decorations) ensures Reported(decorations[..n], PairFor(decorations, id)) {
        FewAreExact(decorations, n, id, PairFor(decorations, id));
        assert decorations[..n] == decorations;
        assert Carries(decorations[..n], id, PairFor(decorations, id));
      }
    } else if AllReported(decorations, n) {
      var looked := decorations[..n];
      var all, some := PairsFor(decorations, Ids(decorations)), PairsFor(looked, Ids(looked));
      forall p | p in all ensures p in some {
        ReportedIsPair(looked, p);
      }
      SubsetPairs(all, some);
      CountPairs(decorations, Ids(decorations));
      CountPairs(looked, Ids(looked));
    }
  }

  /** With more, some binding of the module is left out. */
  lemma {:induction false} LeavesOneOut(decorations: seq<Decoration>, n: nat)
    requires Distinctly(decorations) && LongestFit(decorations, n) && |Ids(decorations)| > MAX_SLOTS
    ensures exists b :: ModuleHas(decorations, b) && !ModuleDeclares(decorations[..n], b)
  {
    ReportedExactly(decorations, n);
    var id :| id in Ids(decorations) && !Reported(decorations[..n], PairFor(decorations, id));
    assert Both(decorations, id);
    SmallValues(decorations, id, DESCRIPTOR_SET);
    SmallValues(decorations, id, BINDING);
    var p := PairFor(decorations, id);
    var b := MetaBinding(p.descriptorSet, p.binding, 0);
    assert ModuleHas(decorations, b);
    assert !ModuleDeclares(decorations[..n], b);
  }

  /** OpDecorate, four words. */
  function Decorating(id: nat, kind: nat, value: nat): seq<nat> {
    [0x4_0000 + OP_DECORATE, id, kind, value]
  }

  /** Ids below k, each at a binding of its own in set 0. */
  function ManyInstructions(k: nat): seq<seq<nat>> {
    if k == 0 then []
    else ManyInstructions(k - 1) + [Decorating(k - 1, DESCRIPTOR_SET, 0)] + [Decorating(k - 1, BINDING, k - 1)]
  }

  function ManyModule(k: nat): seq<nat> {
    [MAGIC, 0, 0, 0, 0] + Flatten(ManyInstructions(k))
  }

  function ManyDecorations(k: nat): seq<Decoration> {
    if k == 0 then []
    else
      ManyDecorations(k - 1) + [Decoration(k - 1, DESCRIPTOR_SET, 0)] + [Decoration(k - 1, BINDING, k - 1)]
  }

  lemma {:induction false} ManySized(k: nat)
    ensures forall i | 0 <= i < |ManyInstructions(k)| :: Sized(ManyInstructions(k)[i])
  {
    if k > 0 {
      ManySized(k - 1);
      assert Sized(Decorating(k - 1, DESCRIPTOR_SET, 0)) && Sized(Decorating(k - 1, BINDING, k - 1));
    }
  }

  lemma DecoratingIs(id: nat, kind: nat, value: nat)
    requires kind == DESCRIPTOR_SET || kind == BINDING
    ensures Decorates(Decorating(id, kind, value))
    ensures DecorationOf(Decorating(id, kind, value)) == Decoration(id, kind, value)
  {
  }

  lemma {:induction false} TwoMore(before: seq<seq<nat>>, s: seq<nat>, b: seq<nat>)
    requires Decorates(s) && Decorates(b)
    ensures Decorations(before + [s] + [b]) == Decorations(before) + [DecorationOf(s)] + [DecorationOf(b)]
  {
    DecorationsNext(before, s);
    DecorationsNext(before + [s], b);
  }

  lemma {:induction false} ManyDecorate(k: nat)
    ensures Decorations(ManyInstructions(k)) == ManyDecorations(k)
  {
    if k > 0 {
      ManyDecorate(k - 1);
      DecoratingIs(k - 1, DESCRIPTOR_SET, 0);
      DecoratingIs(k - 1, BINDING, k - 1);
      TwoMore(ManyInstructions(k - 1), Decorating(k - 1, DESCRIPTOR_SET, 0), Decorating(k - 1, BINDING, k - 1));
    }
  }

  lemma {:induction false} ManyAre(k: nat, id: nat)
    ensures id in Ids(ManyDecorations(k)) <==> id < k
    ensures id < k ==> ValueOf(ManyDecorations(k), id, DESCRIPTOR_SET) == Some(0)
    ensures id < k ==> ValueOf(ManyDecorations(k), id, BINDING) == Some(id)
    ensures forall i | 0 <= i < |ManyDecorations(k)| :: ManyDecorations(k)[i].value <= k
  {
    if k > 0 {
      ManyAre(k - 1, id);
      var before, s := ManyDecorations(k - 1), Decoration(k - 1, DESCRIPTOR_SET, 0);
      var b := Decoration(k - 1, BINDING, k - 1);
      OneMore(before, s, id, DESCRIPTOR_SET);
      OneMore(before, s, id, BINDING);
      OneMore(before + [s], b, id, DESCRIPTOR_SET);
      OneMore(before + [s], b, id, BINDING);
    }
  }

  lemma {:induction false} ManyIds(k: nat)
    ensures |Ids(ManyDecorations(k))| == k
  {
    if k > 0 {
      ManyIds(k - 1);
      ManyAre(k - 1, k - 1);
      ManyNextId(k);
    }
  }

  lemma {:induction false} ManyNextId(k: nat)
    requires k > 0
    ensures Ids(ManyDecorations(k)) == Ids(ManyDecorations(k - 1)) + {k - 1}
  {
    var before, s := ManyDecorations(k - 1), Decoration(k - 1, DESCRIPTOR_SET, 0);
    OneMore(before, s, 0, 0);
    OneMore(before + [s], Decoration(k - 1, BINDING, k - 1), 0, 0);
  }

  lemma {:induction false} ManyDistinctly(k: nat)
    requires k < 256
    ensures Distinctly(ManyDecorations(k))
  {
    ManyAre(k, 0);
    forall id | id in Ids(ManyDecorations(k))
      ensures Both(ManyDecorations(k), id) && PairFor(ManyDecorations(k), id) == Pair(0, id)
    {
      ManyAre(k, id);
    }
  }

  lemma {:induction false} ManyModuleIs(k: nat)
    ensures HasHeader(ManyModule(k)) && Decorations(Prefix(ManyModule(k)[HEADER_WORDS..])) == ManyDecorations(k)
  {
    ManySized(k);
    SplitUnique(ManyInstructions(k));
    assert ManyModule(k)[HEADER_WORDS..] == Flatten(ManyInstructions(k));
    ManyDecorate(k);
  }

  /** The modules of 33 such ids and more: what is looked at leaves one of their bindings out, so a
      stage's metadata loses it. */
  lemma {:induction false} OneTooMany(k: nat, n: nat)
    requires MAX_SLOTS < k < 256 && LongestFit(Decorations(Prefix(ManyModule(k)[HEADER_WORDS..])), n)
    ensures var decorations := Decorations(Prefix(ManyModule(k)[HEADER_WORDS..]));
            HasHeader(ManyModule(k)) &&
            exists b :: ModuleHas(decorations, b) && !ModuleDeclares(decorations[..n], b)
  {
    ManyModuleIs(k);
    ManyDistinctly(k);
    ManyIds(k);
    LeavesOneOut(ManyDecorations(k), n);
  }

  /** An id at binding 256 is reported at binding 0, which the module does not have. */
  lemma WideValueAliases()
    ensures var decorations := [Decoration(0, DESCRIPTOR_SET, 0), Decoration(0, BINDING, 256)];
            ModuleDeclares(decorations, MetaBinding(0, 0, 0)) && !ModuleHas(decorations, MetaBinding(0, 0, 0))
  {
    var s, b := Decoration(0, DESCRIPTOR_SET, 0), Decoration(0, BINDING, 256);
    var decorations := [s, b];
    assert decorations == ([] + [s]) + [b];
    forall id
      ensures ValueOf(decorations, id, BINDING) == if id == 0 then Some(256) else None
      ensures ValueOf(decorations, id, DESCRIPTOR_SET) == if id == 0 then Some(0) else None
    {
      OneMore([], s, id, BINDING);
      OneMore([], s, id, DESCRIPTOR_SET);
      OneMore([] + [s], b, id, BINDING);
      OneMore([] + [s], b, id, DESCRIPTOR_SET);
    }
    assert Carries(decorations, 0, Pair(0, 0));
  }
}
