/**
A shader cache entry's file: driver/ps5vk_shader_cache.c's header, checksum and buffers, and the
checks a load makes before it believes one.
*/
module ShaderFiles {
  import opened Options

  newtype Byte = x: int | 0 <= x < 256

  const MAX_BYTES: nat := 16 * 1024 * 1024
  const DIGEST_BYTES: nat := 32

  /** The compiler's metadata: the six counters a load checks, and the rest. */
  datatype Metadata = Metadata(
    version: nat, contextRegisters: nat, shaderRegisters: nat, inputs: nat, outputs: nat, bindings: nat,
    rest: seq<Byte>)

  /** What the compiler produced. */
  datatype Output = Output(data: seq<Byte>, code: seq<Byte>, metadata: Metadata)

  /** The build: its digest function, its metadata's version, size and limits. */
  datatype Build = Build(
    hash: seq<Byte> -> seq<Byte>, version: nat, restBytes: nat, maxContextRegisters: nat,
    maxShaderRegisters: nat, maxSemantics: nat, maxBindings: nat)

  ghost predicate ValidBuild(b: Build) {
    forall bytes :: |b.hash(bytes)| == DIGEST_BYTES
  }

  predicate Counter(n: nat) {
    n < 0x1_0000_0000
  }

  predicate ValidMetadata(b: Build, m: Metadata) {
    && Counter(m.version) && Counter(m.contextRegisters) && Counter(m.shaderRegisters)
    && Counter(m.inputs) && Counter(m.outputs) && Counter(m.bindings) && |m.rest| == b.restBytes
  }

  /** What ps5vk_shader_cache_store accepts. */
  predicate Storable(o: Output) {
    0 < |o.code| <= MAX_BYTES && |o.data| <= MAX_BYTES
  }

  /** The metadata checks of ps5vk_shader_cache_load. */
  predicate Plausible(b: Build, m: Metadata) {
    && m.version == b.version && m.contextRegisters <= b.maxContextRegisters
    && m.shaderRegisters <= b.maxShaderRegisters && m.inputs <= b.maxSemantics
    && m.outputs <= b.maxSemantics && m.bindings <= b.maxBindings
  }

  // ------------------------------------------------------------------ numbers as bytes

  /** The n low bytes of a number, lowest first. */
  function ToBytes(value: nat, n: nat): (bytes: seq<Byte>)
    ensures |bytes| == n
  {
    if n == 0 then [] else [(value % 256) as Byte] + ToBytes(value / 256, n - 1)
  }

  function Number(bytes: seq<Byte>): nat {
    if bytes == [] then 0 else bytes[0] as nat + 256 * Number(bytes[1..])
  }

  function Power(n: nat): nat {
    if n == 0 then 1 else 256 * Power(n - 1)
  }

  lemma {:induction false} NumberOfBytes(value: nat, n: nat)
    requires value < Power(n)
    ensures Number(ToBytes(value, n)) == value
  {
    if n > 0 {
      NumberOfBytes(value / 256, n - 1);
      assert ToBytes(value, n)[1..] == ToBytes(value / 256, n - 1);
    }
  }

  lemma LowByte(low: nat, rest: nat)
    requires low < 256
    ensures (low + 256 * rest) % 256 == low && (low + 256 * rest) / 256 == rest
  {
  }

  lemma {:induction false} BytesOfNumber(bytes: seq<Byte>)
    ensures ToBytes(Number(bytes), |bytes|) == bytes
  {
    if bytes != [] {
      BytesOfNumber(bytes[1..]);
      LowByte(bytes[0] as nat, Number(bytes[1..]));
      assert bytes == [bytes[0]] + bytes[1..];
    }
  }

  lemma Widths()
    ensures Power(4) == 0x1_0000_0000 && Power(8) == 0x1_0000_0000_0000_0000
  {
    assert Power(2) == 0x1_0000;
    assert Power(3) == 0x100_0000;
    assert Power(5) == 0x100_0000_0000;
    assert Power(6) == 0x1_0000_0000_0000;
    assert Power(7) == 0x100_0000_0000_0000;
  }

  // ------------------------------------------------------------------ the file

  function Counters(m: Metadata): seq<Byte> {
    ToBytes(m.version, 4) + ToBytes(m.contextRegisters, 4) + ToBytes(m.shaderRegisters, 4) +
    ToBytes(m.inputs, 4) + ToBytes(m.outputs, 4) + ToBytes(m.bindings, 4)
  }

  function MetadataBytes(m: Metadata): seq<Byte> {
    Counters(m) + m.rest
  }

  function Sizes(o: Output): seq<Byte> {
    ToBytes(|o.data|, 8) + ToBytes(|o.code|, 8)
  }

  /** checksum: over the sizes, the metadata and both buffers. */
  function Checksum(b: Build, o: Output): seq<Byte> {
    b.hash(Sizes(o) + MetadataBytes(o.metadata) + o.data + o.code)
  }

  function Header(b: Build, key: seq<Byte>, o: Output): seq<Byte> {
    key + Checksum(b, o) + Sizes(o) + MetadataBytes(o.metadata)
  }

  /** What cache_write writes. */
  function Encode(b: Build, key: seq<Byte>, o: Output): seq<Byte> {
    Header(b, key, o) + o.data + o.code
  }

  function HeaderBytes(b: Build): nat {
    2 * DIGEST_BYTES + 16 + 24 + b.restBytes
  }

  function ReadCounter(header: seq<Byte>, at: nat): nat
    requires at + 4 <= |header|
  {
    Number(header[at..at + 4])
  }

  /** The metadata of a header read from a file. */
  function ReadMetadata(b: Build, header: seq<Byte>): Metadata
    requires |header| == HeaderBytes(b)
  {
    Metadata(ReadCounter(header, 80), ReadCounter(header, 84), ReadCounter(header, 88), ReadCounter(header, 92),
             ReadCounter(header, 96), ReadCounter(header, 100), header[104..])
  }

  /** ps5vk_shader_cache_load's reading of a file: none when any check fails. */
  function Parse(b: Build, key: seq<Byte>, file: seq<Byte>): Option<Output> {
    if |file| < HeaderBytes(b) then None
    else
      var header, body := file[..HeaderBytes(b)], file[HeaderBytes(b)..];
      var dataBytes, codeBytes := Number(header[64..72]), Number(header[72..80]);
      var metadata := ReadMetadata(b, header);
      if header[..32] != key || dataBytes > MAX_BYTES || codeBytes == 0 || codeBytes > MAX_BYTES ||
         !Plausible(b, metadata) || |body| != dataBytes + codeBytes then None
      else
        var o := Output(body[..dataBytes], body[dataBytes..], metadata);
        if header[32..64] == Checksum(b, o) then Some(o) else None
  }

  // ------------------------------------------------------------------ reading back what was written

  lemma {:induction false} CounterBack(n: nat)
    requires Counter(n)
    ensures Number(ToBytes(n, 4)) == n
  {
    Widths();
    NumberOfBytes(n, 4);
  }

  /** Six fields of four bytes, one after the other. */
  lemma SixFields(a: seq<Byte>, b: seq<Byte>, c: seq<Byte>, d: seq<Byte>, e: seq<Byte>, f: seq<Byte>)
    requires |a| == |b| == |c| == |d| == |e| == |f| == 4
    ensures var all := a + b + c + d + e + f;
            && |all| == 24 && all[0..4] == a && all[4..8] == b && all[8..12] == c
            && all[12..16] == d && all[16..20] == e && all[20..24] == f
  {
  }

  lemma CountersBack(m: Metadata, b: Build)
    requires ValidMetadata(b, m)
    ensures var c := Counters(m);
            && |c| == 24 && Number(c[0..4]) == m.version && Number(c[4..8]) == m.contextRegisters
            && Number(c[8..12]) == m.shaderRegisters && Number(c[12..16]) == m.inputs
            && Number(c[16..20]) == m.outputs && Number(c[20..24]) == m.bindings
  {
    SixFields(ToBytes(m.version, 4), ToBytes(m.contextRegisters, 4), ToBytes(m.shaderRegisters, 4),
              ToBytes(m.inputs, 4), ToBytes(m.outputs, 4), ToBytes(m.bindings, 4));
    CounterBack(m.version);
    CounterBack(m.contextRegisters);
    CounterBack(m.shaderRegisters);
    CounterBack(m.inputs);
    CounterBack(m.outputs);
    CounterBack(m.bindings);
  }

  lemma MetadataBack(b: Build, key: seq<Byte>, o: Output)
    requires ValidBuild(b) && |key| == DIGEST_BYTES && ValidMetadata(b, o.metadata)
    ensures |Header(b, key, o)| == HeaderBytes(b) && ReadMetadata(b, Header(b, key, o)) == o.metadata
  {
    var header, c := Header(b, key, o), Counters(o.metadata);
    CountersBack(o.metadata, b);
    assert header[80..104] == c;
    assert header[80..84] == c[0..4] && header[84..88] == c[4..8] && header[88..92] == c[8..12];
    assert header[92..96] == c[12..16] && header[96..100] == c[16..20] && header[100..104] == c[20..24];
    assert header[104..] == o.metadata.rest;
  }

  lemma {:induction false} SizeBack(n: nat)
    requires n <= MAX_BYTES
    ensures Number(ToBytes(n, 8)) == n
  {
    Widths();
    NumberOfBytes(n, 8);
  }

  /** Where a header's first four fields are. */
  lemma FourFields(key: seq<Byte>, sum: seq<Byte>, a: seq<Byte>, b: seq<Byte>, rest: seq<Byte>)
    requires |key| == 32 && |sum| == 32 && |a| == 8 && |b| == 8
    ensures var all := key + sum + (a + b) + rest;
            |all| == 80 + |rest| && all[..32] == key && all[32..64] == sum && all[64..72] == a && all[72..80] == b
  {
  }

  lemma SizesBack(b: Build, key: seq<Byte>, o: Output)
    requires ValidBuild(b) && |key| == DIGEST_BYTES && ValidMetadata(b, o.metadata) && Storable(o)
    ensures var header := Header(b, key, o);
            && |header| == HeaderBytes(b) && header[..32] == key && header[32..64] == Checksum(b, o)
            && Number(header[64..72]) == |o.data| && Number(header[72..80]) == |o.code|
  {
    FourFields(key, Checksum(b, o), ToBytes(|o.data|, 8), ToBytes(|o.code|, 8), MetadataBytes(o.metadata));
    CountersBack(o.metadata, b);
    SizeBack(|o.data|);
    SizeBack(|o.code|);
  }

  /** A load of what a store wrote gives back exactly what was stored, when its metadata passes the
      load's checks, and nothing otherwise. */
  lemma LoadsWhatWasStored(b: Build, key: seq<Byte>, o: Output)
    requires ValidBuild(b) && |key| == DIGEST_BYTES && ValidMetadata(b, o.metadata) && Storable(o)
    ensures Parse(b, key, Encode(b, key, o)) == if Plausible(b, o.metadata) then Some(o) else None
  {
    var file, n := Encode(b, key, o), HeaderBytes(b);
    SizesBack(b, key, o);
    MetadataBack(b, key, o);
    assert file[..n] == Header(b, key, o);
    assert file[n..] == o.data + o.code;
    assert (o.data + o.code)[..|o.data|] == o.data && (o.data + o.code)[|o.data|..] == o.code;
  }

  /** A torn entry, any proper part of one from its start, is never believed. */
  lemma TornIsRefused(b: Build, key: seq<Byte>, o: Output, n: nat, other: seq<Byte>)
    requires ValidBuild(b) && |key| == DIGEST_BYTES && ValidMetadata(b, o.metadata) && Storable(o)
    requires n < |Encode(b, key, o)|
    ensures Parse(b, other, Encode(b, key, o)[..n]) == None
  {
    var file, h := Encode(b, key, o), HeaderBytes(b);
    SizesBack(b, key, o);
    if n >= h {
      assert file[..n][..h] == Header(b, key, o);
    }
  }

  // ------------------------------------------------------------------ only what was written

  lemma CountersForth(c: seq<Byte>)
    requires |c| == 24
    ensures forall rest ::
              Counters(Metadata(Number(c[0..4]), Number(c[4..8]), Number(c[8..12]), Number(c[12..16]),
                                Number(c[16..20]), Number(c[20..24]), rest)) == c
  {
    BytesOfNumber(c[0..4]);
    BytesOfNumber(c[4..8]);
    BytesOfNumber(c[8..12]);
    BytesOfNumber(c[12..16]);
    BytesOfNumber(c[16..20]);
    BytesOfNumber(c[20..24]);
    assert c == c[0..4] + c[4..8] + c[8..12] + c[12..16] + c[16..20] + c[20..24];
  }

  lemma MetadataForth(b: Build, header: seq<Byte>)
    requires |header| == HeaderBytes(b)
    ensures MetadataBytes(ReadMetadata(b, header)) == header[80..]
  {
    var c := header[80..104];
    CountersForth(c);
    assert header[80..84] == c[0..4] && header[84..88] == c[4..8] && header[88..92] == c[8..12];
    assert header[92..96] == c[12..16] && header[96..100] == c[16..20] && header[100..104] == c[20..24];
    assert header[80..] == c + header[104..];
  }

  lemma Halves(s: seq<Byte>, n: nat)
    requires n <= |s|
    ensures s == s[..n] + s[n..]
  {
  }

  /** A header of five parts. */
  lemma HeaderParts(header: seq<Byte>)
    requires |header| >= 80
    ensures header == header[..32] + header[32..64] + (header[64..72] + header[72..80]) + header[80..]
  {
  }

  lemma SizesForth(o: Output, header: seq<Byte>)
    requires |header| >= 80 && |o.data| == Number(header[64..72]) && |o.code| == Number(header[72..80])
    ensures Sizes(o) == header[64..72] + header[72..80]
  {
    BytesOfNumber(header[64..72]);
    BytesOfNumber(header[72..80]);
  }

  /** A load believes a file only if it is, byte for byte, what storing its output under the key
      would have written. */
  lemma BelievesOnlyEntries(b: Build, key: seq<Byte>, file: seq<Byte>)
    requires Parse(b, key, file).Some?
    ensures file == Encode(b, key, Parse(b, key, file).value)
  {
    var o, h := Parse(b, key, file).value, HeaderBytes(b);
    var header, body := file[..h], file[h..];
    MetadataForth(b, header);
    SizesForth(o, header);
    HeaderParts(header);
    assert header == Header(b, key, o);
    Halves(body, |o.data|);
    Halves(file, h);
    assert file == header + (o.data + o.code);
  }

  lemma {:induction false} NumberBelow(bytes: seq<Byte>)
    ensures Number(bytes) < Power(|bytes|)
  {
    if bytes != [] {
      NumberBelow(bytes[1..]);
    }
  }

  lemma ReadValid(b: Build, header: seq<Byte>)
    requires |header| == HeaderBytes(b)
    ensures ValidMetadata(b, ReadMetadata(b, header))
  {
    Widths();
    NumberBelow(header[80..84]);
    NumberBelow(header[84..88]);
    NumberBelow(header[88..92]);
    NumberBelow(header[92..96]);
    NumberBelow(header[96..100]);
    NumberBelow(header[100..104]);
  }

  /** A load believes exactly the entries a store of its key could have written: the output fits, and
      its metadata is of this build's version and within its limits. */
  lemma LoadsExactly(b: Build, key: seq<Byte>, file: seq<Byte>, o: Output)
    requires ValidBuild(b) && |key| == DIGEST_BYTES
    ensures Parse(b, key, file) == Some(o) <==>
            && file == Encode(b, key, o) && 0 < |o.code| <= 0x100_0000 && |o.data| <= 0x100_0000
            && ValidMetadata(b, o.metadata) && o.metadata.version == b.version
            && o.metadata.contextRegisters <= b.maxContextRegisters
            && o.metadata.shaderRegisters <= b.maxShaderRegisters && o.metadata.inputs <= b.maxSemantics
            && o.metadata.outputs <= b.maxSemantics && o.metadata.bindings <= b.maxBindings
  {
    if Parse(b, key, file) == Some(o) {
      BelievesOnlyEntries(b, key, file);
      ReadValid(b, file[..HeaderBytes(b)]);
    }
    if file == Encode(b, key, o) && Storable(o) && ValidMetadata(b, o.metadata) && Plausible(b, o.metadata) {
      LoadsWhatWasStored(b, key, o);
    }
  }

  /** What it believes carries the key, and the digest of every byte that follows it: a changed byte
      is believed only if the digests are the same. */
  lemma DigestCoversAll(b: Build, key: seq<Byte>, file: seq<Byte>)
    requires ValidBuild(b) && |key| == DIGEST_BYTES && Parse(b, key, file).Some?
    ensures |file| >= 64 && file[..32] == key && file[32..64] == b.hash(file[64..])
  {
    var o := Parse(b, key, file).value;
    BelievesOnlyEntries(b, key, file);
    AfterDigest(key, Checksum(b, o), Sizes(o), MetadataBytes(o.metadata), o.data, o.code);
  }

  lemma AfterDigest(key: seq<Byte>, sum: seq<Byte>, sizes: seq<Byte>, metadata: seq<Byte>, data: seq<Byte>,
                    code: seq<Byte>)
    requires |key| == 32 && |sum| == 32
    ensures var file := key + sum + sizes + metadata + data + code;
            |file| >= 64 && file[..32] == key && file[32..64] == sum && file[64..] == sizes + metadata + data + code
  {
  }
}
