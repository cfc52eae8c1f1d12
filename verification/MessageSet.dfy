/** Message sets, versions 0 and 1: the encoder that back-patches sizes and
    checksums, and the parser. The CRC-32 and the unpacking of compressed messages
    belong to other crates and are parameters. */
module MessageSet {
  import opened Wire

  type u32 = x: int | 0 <= x < 0x1_0000_0000

  type Checksum = Bytes -> u32

  datatype Compression = Uncompressed | Gzip | Snappy | Lz4

  datatype MessageTimestamp = CreateTime(at: int) | LogAppendTime(at: int)

  datatype Message = Message(
    offset: int, timestamp: Option<MessageTimestamp>, compression: Compression, key: Option<Bytes>, value: Option<Bytes>)

  const RECORD_HEADER_SIZE := 8 + 4 + 4 + 1 + 1
  const TIMESTAMP_SIZE := 8
  const BYTES_LEN_SIZE := 4

  // ----- sizes -----

  function RecordSize(version: int, key: Option<Bytes>, value: Option<Bytes>): (n: nat) {
    RECORD_HEADER_SIZE + (if version > 0 then TIMESTAMP_SIZE else 0)
    + (BYTES_LEN_SIZE + OptLen(key)) + (BYTES_LEN_SIZE + OptLen(value))
  }

  function MessageSize(version: int, m: Message): (n: nat) {
    RecordSize(version, m.key, m.value)
  }

  function SetSize(version: int, ms: seq<Message>): (n: nat) {
    if ms == [] then 0 else SetSize(version, ms[..|ms| - 1]) + MessageSize(version, ms[|ms| - 1])
  }

  lemma {:induction false} SetSizeCons(version: int, m: Message, ms: seq<Message>)
    ensures SetSize(version, [m] + ms) == MessageSize(version, m) + SetSize(version, ms)
  {
    if ms == [] {
      assert [m] + ms == [m] && [m][..0] == [];
    } else {
      SetSizeCons(version, m, ms[..|ms| - 1]);
      assert ([m] + ms)[..|ms|] == [m] + ms[..|ms| - 1];
    }
  }

  // ----- encoding -----

  function CodecBits(c: Compression): (b: int) {
    match c
    case Uncompressed => 0
    case Gzip => 1
    case Snappy => 2
    case Lz4 => 3
  }

  /** The encoder's codec overrides the message's own. */
  function Codec(codec: Option<Compression>, m: Message): (c: Compression) {
    if codec.Some? then codec.value else m.compression
  }

  function Attributes(codec: Option<Compression>, m: Message): (a: int) {
    CodecBits(Codec(codec, m)) + (if m.timestamp.Some? && m.timestamp.value.LogAppendTime? then 0x08 else 0)
  }

  function TimestampBytes(version: int, m: Message): (b: Bytes) {
    if version > 0 then I64Bytes(if m.timestamp.Some? then m.timestamp.value.at else 0) else []
  }

  /** Key and value fit their length fields. */
  predicate Encodable(m: Message) {
    OptLen(m.key) <= I32_MAX && OptLen(m.value) <= I32_MAX
  }

  /** What the checksum covers. */
  function Body(version: int, codec: Option<Compression>, m: Message): (b: Bytes)
    requires Encodable(m)
  {
    I8Bytes(version) + (I8Bytes(Attributes(codec, m)) +
                        (TimestampBytes(version, m) + (BlobBytes(m.key).value + BlobBytes(m.value).value)))
  }

  function EncodeMessage(crc: Checksum, version: int, codec: Option<Compression>, m: Message, offset: int): (b: Bytes)
    requires Encodable(m)
  {
    Framed(crc, Body(version, codec, m), offset)
  }

  function Framed(crc: Checksum, body: Bytes, offset: int): (b: Bytes) {
    I64Bytes(offset) + (I32Bytes(4 + |body|) + (I32Bytes(crc(body)) + body))
  }

  predicate AllEncodable(ms: seq<Message>) {
    forall i :: 0 <= i < |ms| ==> Encodable(ms[i])
  }

  /** Messages in a compressed set are numbered from `next`; others keep their offset. */
  function EncodeSet(crc: Checksum, version: int, codec: Option<Compression>, ms: seq<Message>, next: int): (b: Bytes)
    requires AllEncodable(ms)
  {
    if ms == [] then []
    else if Codec(codec, ms[0]).Uncompressed? then
      EncodeMessage(crc, version, codec, ms[0], ms[0].offset) + EncodeSet(crc, version, codec, ms[1..], next)
    else
      EncodeMessage(crc, version, codec, ms[0], next) + EncodeSet(crc, version, codec, ms[1..], next + 1)
  }

  lemma EncodedMessageSize(crc: Checksum, version: int, codec: Option<Compression>, m: Message, offset: int)
    requires Encodable(m)
    ensures |EncodeMessage(crc, version, codec, m, offset)| == MessageSize(version, m)
  {
  }

  /** The encoder writes exactly `size` bytes. */
  lemma {:induction false} EncodedSetSize(
    crc: Checksum, version: int, codec: Option<Compression>, ms: seq<Message>, next: int)
    requires AllEncodable(ms)
    ensures |EncodeSet(crc, version, codec, ms, next)| == SetSize(version, ms)
  {
    if ms != [] {
      var plain := Codec(codec, ms[0]).Uncompressed?;
      EncodedMessageSize(crc, version, codec, ms[0], if plain then ms[0].offset else next);
      EncodedSetSize(crc, version, codec, ms[1..], if plain then next else next + 1);
      SetSizeCons(version, ms[0], ms[1..]);
      assert [ms[0]] + ms[1..] == ms;
    }
  }

  // ----- parsing -----

  function CodecOf(bits: int): (c: Option<Compression>) {
    match bits
    case 0 => Some(Uncompressed)
    case 1 => Some(Gzip)
    case 2 => Some(Snappy)
    case 3 => Some(Lz4)
    case _ => None
  }

  /** What follows the checksum. */
  function ParseBody(input: Bytes, offset: int): (r: Parsed<Message>) {
    match ParseI8(input)
    case Incomplete => Incomplete
    case Error => Error
    case Done(rest, magic) =>
      match ParseI8(rest)
      case Incomplete => Incomplete
      case Error => Error
      case Done(rest', attrs) => ParseDated(rest', offset, magic, attrs)
  }

  function ParseDated(input: Bytes, offset: int, magic: int, attrs: int): (r: Parsed<Message>) {
    if magic > 0 then
      match ParseI64(input)
      case Incomplete => Incomplete
      case Error => Error
      case Done(rest, at) => ParseContent(rest, offset, attrs, Some(Dated(attrs, at)))
    else ParseContent(input, offset, attrs, None)
  }

  function Dated(attrs: int, at: int): (t: MessageTimestamp) {
    if (attrs / 0x08) % 2 == 0 then CreateTime(at) else LogAppendTime(at)
  }

  function ParseContent(input: Bytes, offset: int, attrs: int, timestamp: Option<MessageTimestamp>): (r: Parsed<Message>)
  {
    match ParseOptBytes(input)
    case Incomplete => Incomplete
    case Error => Error
    case Done(rest, key) =>
      match ParseOptBytes(rest)
      case Incomplete => Incomplete
      case Error => Error
      case Done(rest', value) =>
        if CodecOf(attrs % 8).None? then Error
        else Done(rest', Message(offset, timestamp, CodecOf(attrs % 8).value, key, value))
  }

  /** The checksum is verified against the bytes that the size field announces,
      which are only peeked at: the fields are parsed from the whole input. */
  function ParseChecked(crc: Checksum, input: Bytes, offset: int, size: int): (r: Parsed<Message>) {
    if !(0 <= size <= |input|) then Incomplete
    else
      match ParseI32(input)
      case Incomplete => Incomplete
      case Error => Error
      case Done(rest, checksum) =>
        if size < 4 || crc(input[4..size]) != checksum % 0x1_0000_0000 then Error
        else ParseBody(rest, offset)
  }

  function ParseMessageOuter(crc: Checksum, input: Bytes): (r: Parsed<Message>) {
    match ParseI64(input)
    case Incomplete => Incomplete
    case Error => Error
    case Done(rest, offset) =>
      match ParseI32(rest)
      case Incomplete => Incomplete
      case Error => Error
      case Done(rest', size) => ParseChecked(crc, rest', offset, size)
  }

  /** A compressed message stands for the messages inside it. */
  type Unpacker = Message -> Option<seq<Message>>

  function ParseMessage(crc: Checksum, unpack: Unpacker, input: Bytes): (r: Parsed<seq<Message>>) {
    match ParseMessageOuter(crc, input)
    case Incomplete => Incomplete
    case Error => Error
    case Done(rest, m) =>
      if m.compression.Uncompressed? || m.value.None? then Done(rest, [m])
      else if unpack(m).None? then Error
      else Done(rest, unpack(m).value)
  }

  /** `many0!`: stops at the end, at an error, or where nothing is consumed. */
  function ParseSet(crc: Checksum, unpack: Unpacker, input: Bytes): (r: Parsed<seq<Message>>)
    decreases |input|
  {
    if input == [] then Done(input, [])
    else
      match ParseMessage(crc, unpack, input)
      case Incomplete => Incomplete
      case Error => Done(input, [])
      case Done(rest, ms) =>
        if |rest| >= |input| then Done(input, [])
        else
          match ParseSet(crc, unpack, rest)
          case Incomplete => Incomplete
          case Error => Error
          case Done(rest', ms') => Done(rest', ms + ms')
  }

  // ----- round trip -----

  /** Version 0 carries no timestamp, and in version 1 an absent one reads as creation
      time 0. */
  function Stamped(version: int, m: Message): (t: Option<MessageTimestamp>) {
    if version <= 0 then None else if m.timestamp.None? then Some(CreateTime(0)) else m.timestamp
  }

  /** What a reader can recover of a message written uncompressed. */
  function Recovered(version: int, m: Message): (r: Message) {
    m.(compression := Uncompressed, timestamp := Stamped(version, m))
  }

  /** What a reader that does not unpack recovers of any message, written at an offset:
      the codec is the encoder's, or else its own. */
  function Outer(version: int, codec: Option<Compression>, m: Message, offset: int): (r: Message) {
    Message(offset, Stamped(version, m), Codec(codec, m), m.key, m.value)
  }

  function OuterAll(version: int, codec: Option<Compression>, ms: seq<Message>, next: int): (r: seq<Message>)
    ensures |r| == |ms|
  {
    if ms == [] then []
    else if Codec(codec, ms[0]).Uncompressed? then
      [Outer(version, codec, ms[0], ms[0].offset)] + OuterAll(version, codec, ms[1..], next)
    else [Outer(version, codec, ms[0], next)] + OuterAll(version, codec, ms[1..], next + 1)
  }

  /** How many of the first k messages are written compressed. */
  function CompressedAmong(codec: Option<Compression>, ms: seq<Message>, k: nat): (n: nat)
    requires k <= |ms|
    ensures n <= k
  {
    if k == 0 then 0
    else CompressedAmong(codec, ms, k - 1) + if Codec(codec, ms[k - 1]).Uncompressed? then 0 else 1
  }

  /** The offset at which the k-th message is written. */
  function WrittenAt(codec: Option<Compression>, ms: seq<Message>, next: int, k: nat): (offset: int)
    requires k < |ms|
  {
    if Codec(codec, ms[k]).Uncompressed? then ms[k].offset else next + CompressedAmong(codec, ms, k)
  }

  lemma {:induction false} CompressedTail(codec: Option<Compression>, ms: seq<Message>, k: nat)
    requires 0 < k <= |ms|
    ensures CompressedAmong(codec, ms, k)
         == (if Codec(codec, ms[0]).Uncompressed? then 0 else 1) + CompressedAmong(codec, ms[1..], k - 1)
  {
    if k > 1 {
      CompressedTail(codec, ms, k - 1);
      assert ms[1..][k - 2] == ms[k - 1];
    }
  }

  /** Uncompressed messages keep their offset; compressed ones are numbered in their
      order. */
  lemma {:induction false} OuterAt(version: int, codec: Option<Compression>, ms: seq<Message>, next: int, k: nat)
    requires k < |ms|
    ensures OuterAll(version, codec, ms, next)[k] == Outer(version, codec, ms[k], WrittenAt(codec, ms, next, k))
  {
    if k > 0 {
      OuterAt(version, codec, ms[1..], if Codec(codec, ms[0]).Uncompressed? then next else next + 1, k - 1);
      CompressedTail(codec, ms, k);
    }
  }

  /** The same, for a whole set. */
  function RecoveredAll(version: int, ms: seq<Message>): (r: seq<Message>)
    ensures |r| == |ms| && forall i :: 0 <= i < |ms| ==> r[i] == Recovered(version, ms[i])
  {
    if ms == [] then [] else [Recovered(version, ms[0])] + RecoveredAll(version, ms[1..])
  }

  /** The magic byte is the version cut to eight bits; the layout follows the sign
      of the version when writing and that of the byte when reading. */
  predicate LayoutAgrees(version: int) {
    version > 0 <==> AsI8(version) > 0
  }

  /** What the encoder accepts, with 64-bit numbers. */
  predicate Sendable(m: Message) {
    Encodable(m) && IsI64(m.offset) && (m.timestamp.Some? ==> IsI64(m.timestamp.value.at))
  }

  /** The size is written without a check. A reader gets past it and the checksum when
      it fits 31 bits, or when it wraps around to a small number and the checksum of
      so much of the body happens to be that of all of it. */
  predicate SizeHolds(crc: Checksum, body: Bytes) {
    || 4 + |body| <= I32_MAX
    || (|body| >= 0x1_0000_0000 && crc(body[..|body| - 0x1_0000_0000]) == crc(body))
  }

  predicate Readable(crc: Checksum, version: int, codec: Option<Compression>, m: Message) {
    Encodable(m) && SizeHolds(crc, Body(version, codec, m))
  }

  lemma ContentRoundTrip(
    m: Message, c: Compression, offset: int, attrs: int, timestamp: Option<MessageTimestamp>, rest: Bytes)
    requires Encodable(m) && CodecOf(attrs % 8) == Some(c)
    ensures ParseContent(BlobBytes(m.key).value + BlobBytes(m.value).value + rest, offset, attrs, timestamp)
         == Done(rest, Message(offset, timestamp, c, m.key, m.value))
  {
    var k, v := BlobBytes(m.key).value, BlobBytes(m.value).value;
    assert k + v + rest == k + (v + rest);
    BlobRoundTrip(m.key, v + rest);
    BlobRoundTrip(m.value, rest);
  }

  lemma HeadRoundTrip(version: int, attrs: int, tail: Bytes, offset: int)
    ensures ParseBody(I8Bytes(version) + (I8Bytes(attrs) + tail), offset)
         == ParseDated(tail, offset, AsI8(version), AsI8(attrs))
  {
    I8RoundTrip(version, I8Bytes(attrs) + tail);
    I8RoundTrip(attrs, tail);
  }

  lemma DatedRoundTrip(
    version: int, magic: int, attrs: int, m: Message, c: Compression, offset: int, rest: Bytes)
    requires Sendable(m) && (version > 0 <==> magic > 0) && CodecOf(attrs % 8) == Some(c)
    requires m.timestamp.Some? ==> Dated(attrs, m.timestamp.value.at) == m.timestamp.value
    requires m.timestamp.None? ==> Dated(attrs, 0) == CreateTime(0)
    ensures ParseDated(TimestampBytes(version, m) + (BlobBytes(m.key).value + BlobBytes(m.value).value + rest), offset, magic, attrs)
         == Done(rest, Message(offset, Stamped(version, m), c, m.key, m.value))
  {
    var tail := BlobBytes(m.key).value + BlobBytes(m.value).value + rest;
    if version > 0 {
      var at := if m.timestamp.Some? then m.timestamp.value.at else 0;
      I64RoundTrip(at, tail);
      ContentRoundTrip(m, c, offset, attrs, Some(Dated(attrs, at)), rest);
    } else {
      assert TimestampBytes(version, m) + tail == tail;
      ContentRoundTrip(m, c, offset, attrs, None, rest);
    }
  }

  lemma BodySplit(version: int, codec: Option<Compression>, m: Message, rest: Bytes)
    requires Encodable(m)
    ensures Body(version, codec, m) + rest
         == I8Bytes(version) + (I8Bytes(Attributes(codec, m)) +
            (TimestampBytes(version, m) + (BlobBytes(m.key).value + BlobBytes(m.value).value + rest)))
  {
  }

  lemma AttributesAreRead(codec: Option<Compression>, m: Message)
    ensures var attrs := Attributes(codec, m);
            && AsI8(attrs) == attrs && CodecOf(attrs % 8) == Some(Codec(codec, m))
            && (m.timestamp.Some? ==> Dated(attrs, m.timestamp.value.at) == m.timestamp.value)
            && (m.timestamp.None? ==> Dated(attrs, 0) == CreateTime(0))
  {
    var bits, late := CodecBits(Codec(codec, m)), m.timestamp.Some? && m.timestamp.value.LogAppendTime?;
    assert 0 <= bits <= 3 && CodecOf(bits) == Some(Codec(codec, m));
    BitsApart(bits, late);
  }

  lemma BitsApart(bits: int, late: bool)
    requires 0 <= bits <= 3
    ensures var attrs := bits + if late then 0x08 else 0;
            AsI8(attrs) == attrs && attrs % 8 == bits && (attrs / 0x08) % 2 == if late then 1 else 0
  {
  }

  lemma BodyRoundTrip(version: int, codec: Option<Compression>, m: Message, offset: int, rest: Bytes)
    requires LayoutAgrees(version) && Sendable(m)
    ensures ParseBody(Body(version, codec, m) + rest, offset) == Done(rest, Outer(version, codec, m, offset))
  {
    var attrs := Attributes(codec, m);
    var tail := TimestampBytes(version, m) + (BlobBytes(m.key).value + BlobBytes(m.value).value + rest);
    AttributesAreRead(codec, m);
    BodySplit(version, codec, m, rest);
    HeadRoundTrip(version, attrs, tail, offset);
    DatedRoundTrip(version, AsI8(version), attrs, m, Codec(codec, m), offset, rest);
  }

  lemma FrameRead(crc: Checksum, body: Bytes, offset: int, rest: Bytes)
    requires IsI64(offset)
    ensures ParseMessageOuter(crc, Framed(crc, body, offset) + rest)
         == ParseChecked(crc, I32Bytes(crc(body)) + (body + rest), offset, AsI32(4 + |body|))
  {
    var summed := I32Bytes(crc(body)) + (body + rest);
    FrameSplit(I64Bytes(offset), I32Bytes(4 + |body|), I32Bytes(crc(body)), body, rest);
    I64RoundTrip(offset, I32Bytes(4 + |body|) + summed);
    I32RoundTrip(4 + |body|, summed);
  }

  lemma FrameSplit(a: Bytes, b: Bytes, c: Bytes, d: Bytes, rest: Bytes)
    ensures a + (b + (c + d)) + rest == a + (b + (c + (d + rest)))
  {
  }

  lemma CheckedRoundTrip(crc: Checksum, body: Bytes, rest: Bytes, offset: int)
    ensures ParseChecked(crc, I32Bytes(crc(body)) + (body + rest), offset, 4 + |body|) == ParseBody(body + rest, offset)
  {
    CheckedPart(crc, body, rest, offset, |body|);
    assert body[..|body|] == body;
  }

  /** The checksum is compared with that of as much of the body as the size says. */
  lemma CheckedPart(crc: Checksum, body: Bytes, rest: Bytes, offset: int, n: nat)
    requires n <= |body|
    ensures ParseChecked(crc, I32Bytes(crc(body)) + (body + rest), offset, 4 + n)
         == if crc(body[..n]) == crc(body) then ParseBody(body + rest, offset) else Error
  {
    var summed := I32Bytes(crc(body)) + (body + rest);
    I32RoundTrip(crc(body), body + rest);
    assert summed[4..4 + n] == body[..n];
    assert AsI32(crc(body)) % 0x1_0000_0000 == crc(body);
  }

  lemma WrapsNegative(n: int)
    requires I32_MAX < n < 0x1_0000_0000
    ensures AsI32(n) < 0
  {
    assert (n + 0x8000_0000) % 0x1_0000_0000 == n - 0x8000_0000;
  }

  lemma WrapsAround(n: int)
    requires 0x1_0000_0000 <= n < 0x1_8000_0000
    ensures AsI32(n) == n - 0x1_0000_0000
  {
    assert (n + 0x8000_0000) % 0x1_0000_0000 == n - 0x8000_0000;
  }

  lemma FrameOutcome(crc: Checksum, body: Bytes, offset: int, rest: Bytes)
    requires IsI64(offset) && 4 + |body| < 0x1_8000_0000
    ensures var r := ParseMessageOuter(crc, Framed(crc, body, offset) + rest);
            if SizeHolds(crc, body) then r == ParseBody(body + rest, offset)
            else r == if 4 + |body| < 0x1_0000_0000 then Incomplete else Error
  {
    var n := 4 + |body|;
    FrameRead(crc, body, offset, rest);
    if n <= I32_MAX {
      CheckedRoundTrip(crc, body, rest, offset);
    } else if n < 0x1_0000_0000 {
      WrapsNegative(n);
    } else {
      WrapsAround(n);
      if |body| >= 0x1_0000_0000 {
        CheckedPart(crc, body, rest, offset, |body| - 0x1_0000_0000);
      } else {
        ShortSize(crc, I32Bytes(crc(body)) + (body + rest), offset, n - 0x1_0000_0000);
      }
    }
  }

  lemma ShortSize(crc: Checksum, input: Bytes, offset: int, size: int)
    requires 0 <= size < 4 <= |input|
    ensures ParseChecked(crc, input, offset, size) == Error
  {
  }

  /** The back-patched size and checksum verify, and parsing goes on to the body,
      exactly for the readable messages. */
  lemma ChecksumVerifies(
    crc: Checksum, version: int, codec: Option<Compression>, m: Message, offset: int, rest: Bytes)
    requires Encodable(m) && IsI64(offset)
    ensures var r := ParseMessageOuter(crc, EncodeMessage(crc, version, codec, m, offset) + rest);
            if Readable(crc, version, codec, m) then r == ParseBody(Body(version, codec, m) + rest, offset)
            else r == if MessageSize(version, m) - 12 < 0x1_0000_0000 then Incomplete else Error
    ensures MessageSize(version, m) - 12 <= I32_MAX ==> Readable(crc, version, codec, m)
    ensures I32_MAX < MessageSize(version, m) - 12 < 0x1_0000_0000 ==> !Readable(crc, version, codec, m)
  {
    EncodedMessageSize(crc, version, codec, m, offset);
    FrameOutcome(crc, Body(version, codec, m), offset, rest);
  }

  /** Any frame whose size fits 31 bits: its checksum is verified against all of the
      body, and a wrong one is refused. */
  lemma FrameExact(crc: Checksum, body: Bytes, sum: int, offset: int, rest: Bytes)
    requires IsI64(offset) && 4 + |body| <= I32_MAX && 0 <= sum < 0x1_0000_0000
    ensures ParseMessageOuter(crc, I64Bytes(offset) + (I32Bytes(4 + |body|) + (I32Bytes(sum) + (body + rest))))
         == if sum == crc(body) then ParseBody(body + rest, offset) else Error
  {
    var summed := I32Bytes(sum) + (body + rest);
    I64RoundTrip(offset, I32Bytes(4 + |body|) + summed);
    I32RoundTrip(4 + |body|, summed);
    I32RoundTrip(sum, body + rest);
    assert summed[4..4 + |body|] == body;
    UnsignedAgain(sum);
  }

  lemma UnsignedAgain(u: int)
    requires 0 <= u < 0x1_0000_0000
    ensures AsI32(u) % 0x1_0000_0000 == u
  {
  }

  /** What a message stands for: itself, or the messages packed in its value. */
  function Expanded(unpack: Unpacker, m: Message): (r: Option<seq<Message>>) {
    if m.compression.Uncompressed? || m.value.None? then Some([m]) else unpack(m)
  }

  /** Any message the encoder accepts is read back, and unpacked if it is compressed,
      exactly when its size field holds and the unpacking succeeds. */
  lemma MessageExpands(
    crc: Checksum, unpack: Unpacker, version: int, codec: Option<Compression>, m: Message, offset: int, rest: Bytes)
    requires LayoutAgrees(version) && Sendable(m) && IsI64(offset)
    ensures var r := ParseMessage(crc, unpack, EncodeMessage(crc, version, codec, m, offset) + rest);
            var x := Expanded(unpack, Outer(version, codec, m, offset));
            if !Readable(crc, version, codec, m) then !r.Done?
            else if x.None? then r == Error
            else r == Done(rest, x.value)
  {
    ChecksumVerifies(crc, version, codec, m, offset, rest);
    BodyRoundTrip(version, codec, m, offset, rest);
  }

  predicate AllExpand(unpack: Unpacker, ms: seq<Message>) {
    forall i :: 0 <= i < |ms| ==> Expanded(unpack, ms[i]).Some?
  }

  /** All that the messages stand for, in their order. */
  function ExpandedAll(unpack: Unpacker, ms: seq<Message>): (r: seq<Message>)
    requires AllExpand(unpack, ms)
  {
    if ms == [] then []
    else
      assert Expanded(unpack, ms[0]).Some?;
      Expanded(unpack, ms[0]).value + ExpandedAll(unpack, ms[1..])
  }

  /** What was parsed, behind what was parsed before. */
  function Behind(before: seq<Message>, r: Parsed<seq<Message>>): (r': Parsed<seq<Message>>) {
    match r
    case Done(rest, ms) => Done(rest, before + ms)
    case Incomplete => Incomplete
    case Error => Error
  }

  lemma StepParsed(crc: Checksum, unpack: Unpacker, input: Bytes, rest: Bytes, xs: seq<Message>)
    requires input != [] && |rest| < |input| && ParseMessage(crc, unpack, input) == Done(rest, xs)
    ensures ParseSet(crc, unpack, input) == Behind(xs, ParseSet(crc, unpack, rest))
  {
  }

  lemma BehindTwice(a: seq<Message>, b: seq<Message>, r: Parsed<seq<Message>>)
    ensures Behind(a, Behind(b, r)) == Behind(a + b, r)
  {
    if r.Done? {
      assert a + (b + r.value) == (a + b) + r.value;
    }
  }

  /** Readable messages with 64-bit numbers, all of which unpack. */
  ghost predicate Legible(
    crc: Checksum, unpack: Unpacker, version: int, codec: Option<Compression>, ms: seq<Message>, next: int)
  {
    && (forall i :: 0 <= i < |ms| ==> Sendable(ms[i]) && IsI64(WrittenAt(codec, ms, next, i)))
    && AllReadable(crc, version, codec, ms) && AllExpand(unpack, OuterAll(version, codec, ms, next))
  }

  lemma NumbersRest(codec: Option<Compression>, ms: seq<Message>, next: int, i: nat)
    requires i + 1 < |ms| && IsI64(WrittenAt(codec, ms, next, i + 1))
    ensures IsI64(WrittenAt(codec, ms[1..], After(codec, ms[0], next), i))
  {
    CompressedTail(codec, ms, i + 1);
  }

  lemma ExpandRest(unpack: Unpacker, xs: seq<Message>)
    requires xs != [] && AllExpand(unpack, xs)
    ensures Expanded(unpack, xs[0]).Some? && AllExpand(unpack, xs[1..])
  {
    forall i | 0 <= i < |xs[1..]|
      ensures Expanded(unpack, xs[1..][i]).Some?
    {
      assert Expanded(unpack, xs[i + 1]).Some?;
    }
  }

  lemma LegibleRest(
    crc: Checksum, unpack: Unpacker, version: int, codec: Option<Compression>, ms: seq<Message>, next: int)
    requires ms != [] && Legible(crc, unpack, version, codec, ms, next)
    ensures Sendable(ms[0]) && IsI64(WrittenAt(codec, ms, next, 0)) && Readable(crc, version, codec, ms[0])
    ensures Legible(crc, unpack, version, codec, ms[1..], After(codec, ms[0], next))
  {
    var xs, t := OuterAll(version, codec, ms, next), ms[1..];
    OuterSplits(version, codec, ms, next);
    assert xs[1..] == OuterAll(version, codec, t, After(codec, ms[0], next));
    ExpandRest(unpack, xs);
    ReadableCons(crc, version, codec, ms);
    forall i | 0 <= i < |t|
      ensures Sendable(t[i]) && IsI64(WrittenAt(codec, t, After(codec, ms[0], next), i))
    {
      assert Sendable(ms[i + 1]) && IsI64(WrittenAt(codec, ms, next, i + 1));
      NumbersRest(codec, ms, next, i);
    }
  }

  /** A set in front of any bytes, its messages compressed or not: parsing gives what
      they stand for, and goes on with those bytes. */
  lemma {:induction false} SetThenRest(crc: Checksum, unpack: Unpacker, version: int, codec: Option<Compression>,
                                       ms: seq<Message>, next: int, tail: Bytes)
    requires LayoutAgrees(version) && Legible(crc, unpack, version, codec, ms, next) && AllEncodable(ms)
    ensures ParseSet(crc, unpack, EncodeSet(crc, version, codec, ms, next) + tail)
         == Behind(ExpandedAll(unpack, OuterAll(version, codec, ms, next)), ParseSet(crc, unpack, tail))
  {
    if ms == [] {
      assert [] + tail == tail;
      BehindNothing(ParseSet(crc, unpack, tail));
    } else {
      var offset, next' := WrittenAt(codec, ms, next, 0), After(codec, ms[0], next);
      LegibleRest(crc, unpack, version, codec, ms, next);
      var rest := EncodeSet(crc, version, codec, ms[1..], next') + tail;
      SetThenRest(crc, unpack, version, codec, ms[1..], next', tail);
      SetSplits(crc, version, codec, ms, next);
      OuterSplits(version, codec, ms, next);
      FirstThenRest(crc, unpack, version, codec, ms[0], offset, rest, OuterAll(version, codec, ms[1..], next'),
                    ParseSet(crc, unpack, tail));
      Assoc(EncodeMessage(crc, version, codec, ms[0], offset), EncodeSet(crc, version, codec, ms[1..], next'), tail);
    }
  }

  lemma BehindNothing(r: Parsed<seq<Message>>)
    ensures Behind([], r) == r
  {
    if r.Done? {
      assert [] + r.value == r.value;
    }
  }

  lemma FirstThenRest(crc: Checksum, unpack: Unpacker, version: int, codec: Option<Compression>, m: Message, offset: int,
                      rest: Bytes, xs: seq<Message>, r: Parsed<seq<Message>>)
    requires LayoutAgrees(version) && Sendable(m) && IsI64(offset) && Readable(crc, version, codec, m)
    requires AllExpand(unpack, [Outer(version, codec, m, offset)] + xs) && AllExpand(unpack, xs)
    requires ParseSet(crc, unpack, rest) == Behind(ExpandedAll(unpack, xs), r)
    ensures ParseSet(crc, unpack, EncodeMessage(crc, version, codec, m, offset) + rest)
         == Behind(ExpandedAll(unpack, [Outer(version, codec, m, offset)] + xs), r)
  {
    var all := [Outer(version, codec, m, offset)] + xs;
    assert Expanded(unpack, all[0]).Some? && all[1..] == xs;
    MessageExpands(crc, unpack, version, codec, m, offset, rest);
    EncodedMessageSize(crc, version, codec, m, offset);
    StepParsed(crc, unpack, EncodeMessage(crc, version, codec, m, offset) + rest, rest, Expanded(unpack, all[0]).value);
    BehindTwice(Expanded(unpack, all[0]).value, ExpandedAll(unpack, xs), r);
  }

  /** A set followed by a message whose checksum is wrong: parsing gives the set and
      leaves the message. */
  lemma CorruptionEndsSet(crc: Checksum, unpack: Unpacker, version: int, codec: Option<Compression>, ms: seq<Message>,
                          next: int, body: Bytes, sum: int, offset: int, rest: Bytes)
    requires LayoutAgrees(version) && Legible(crc, unpack, version, codec, ms, next) && AllEncodable(ms)
    requires IsI64(offset) && 4 + |body| <= I32_MAX && 0 <= sum < 0x1_0000_0000 && sum != crc(body)
    ensures var bad := I64Bytes(offset) + (I32Bytes(4 + |body|) + (I32Bytes(sum) + (body + rest)));
            ParseSet(crc, unpack, EncodeSet(crc, version, codec, ms, next) + bad)
            == Done(bad, ExpandedAll(unpack, OuterAll(version, codec, ms, next)))
  {
    var bad := I64Bytes(offset) + (I32Bytes(4 + |body|) + (I32Bytes(sum) + (body + rest)));
    FrameExact(crc, body, sum, offset, rest);
    SetThenRest(crc, unpack, version, codec, ms, next, bad);
    var all := ExpandedAll(unpack, OuterAll(version, codec, ms, next));
    assert all + [] == all;
  }

  /** Unpacking that leaves every message as it is. */
  ghost predicate Keeps(unpack: Unpacker) {
    forall m :: unpack(m) == Some([m])
  }

  /** Parsing does not unpack the message. */
  ghost predicate Whole(unpack: Unpacker, codec: Option<Compression>, m: Message) {
    Codec(codec, m).Uncompressed? || Keeps(unpack)
  }

  lemma MessageRoundTrip(
    crc: Checksum, unpack: Unpacker, version: int, codec: Option<Compression>, m: Message, offset: int, rest: Bytes)
    requires LayoutAgrees(version) && Sendable(m) && IsI64(offset) && Whole(unpack, codec, m)
    ensures var r := ParseMessage(crc, unpack, EncodeMessage(crc, version, codec, m, offset) + rest);
            if Readable(crc, version, codec, m) then r == Done(rest, [Outer(version, codec, m, offset)]) else !r.Done?
  {
    ChecksumVerifies(crc, version, codec, m, offset, rest);
    BodyRoundTrip(version, codec, m, offset, rest);
  }

  /** A set of messages that are written uncompressed. */
  predicate Plain(codec: Option<Compression>, ms: seq<Message>) {
    forall i :: 0 <= i < |ms| ==> Sendable(ms[i]) && Codec(codec, ms[i]).Uncompressed?
  }

  /** Messages with 64-bit numbers, of which parsing unpacks none. */
  ghost predicate WholeSet(unpack: Unpacker, codec: Option<Compression>, ms: seq<Message>, next: int) {
    forall i :: 0 <= i < |ms| ==>
      Sendable(ms[i]) && Whole(unpack, codec, ms[i]) && IsI64(WrittenAt(codec, ms, next, i))
  }

  /** What the numbering goes on with after a message. */
  function After(codec: Option<Compression>, m: Message, next: int): (n: int) {
    if Codec(codec, m).Uncompressed? then next else next + 1
  }

  lemma WholeRest(unpack: Unpacker, codec: Option<Compression>, ms: seq<Message>, next: int)
    requires ms != [] && WholeSet(unpack, codec, ms, next)
    ensures Sendable(ms[0]) && Whole(unpack, codec, ms[0]) && IsI64(WrittenAt(codec, ms, next, 0))
    ensures WholeSet(unpack, codec, ms[1..], After(codec, ms[0], next))
  {
    forall i | 0 <= i < |ms[1..]|
      ensures Sendable(ms[1..][i]) && Whole(unpack, codec, ms[1..][i])
      ensures IsI64(WrittenAt(codec, ms[1..], After(codec, ms[0], next), i))
    {
      assert ms[1..][i] == ms[i + 1];
      assert IsI64(WrittenAt(codec, ms, next, i + 1));
      CompressedTail(codec, ms, i + 1);
    }
  }

  predicate AllReadable(crc: Checksum, version: int, codec: Option<Compression>, ms: seq<Message>) {
    forall i :: 0 <= i < |ms| ==> Readable(crc, version, codec, ms[i])
  }

  lemma ReadableCons(crc: Checksum, version: int, codec: Option<Compression>, ms: seq<Message>)
    requires ms != []
    ensures AllReadable(crc, version, codec, ms) <==>
              Readable(crc, version, codec, ms[0]) && AllReadable(crc, version, codec, ms[1..])
  {
    if Readable(crc, version, codec, ms[0]) && AllReadable(crc, version, codec, ms[1..]) {
      forall i | 0 <= i < |ms|
        ensures Readable(crc, version, codec, ms[i])
      {
        if i > 0 {
          assert Readable(crc, version, codec, ms[1..][i - 1]);
        }
      }
    } else if AllReadable(crc, version, codec, ms) {
      forall i | 0 <= i < |ms[1..]|
        ensures Readable(crc, version, codec, ms[1..][i])
      {
        assert Readable(crc, version, codec, ms[i + 1]);
      }
    }
  }

  /** What the first message contributes to the parse of a set. */
  lemma SetStep(crc: Checksum, unpack: Unpacker, input: Bytes, m: Message, rest: Bytes, expected: seq<Message>)
    requires input != [] && |rest| < |input|
    ensures ParseMessage(crc, unpack, input) == Done(rest, [m]) ==>
              (ParseSet(crc, unpack, input) == Done([], [m] + expected)
               <==> ParseSet(crc, unpack, rest) == Done([], expected))
    ensures !ParseMessage(crc, unpack, input).Done? ==> ParseSet(crc, unpack, input) != Done([], [m] + expected)
  {
    if ParseMessage(crc, unpack, input) == Done(rest, [m]) && ParseSet(crc, unpack, rest).Done? {
      var ms := ParseSet(crc, unpack, rest).value;
      assert ([m] + ms)[1..] == ms && ([m] + expected)[1..] == expected;
    }
  }

  /** The first message of a set and the others. */
  lemma SetSplits(crc: Checksum, version: int, codec: Option<Compression>, ms: seq<Message>, next: int)
    requires ms != [] && AllEncodable(ms)
    ensures var offset, next' := WrittenAt(codec, ms, next, 0), After(codec, ms[0], next);
            EncodeSet(crc, version, codec, ms, next)
            == EncodeMessage(crc, version, codec, ms[0], offset) + EncodeSet(crc, version, codec, ms[1..], next')
  {
  }

  lemma OuterSplits(version: int, codec: Option<Compression>, ms: seq<Message>, next: int)
    requires ms != []
    ensures OuterAll(version, codec, ms, next)
         == [Outer(version, codec, ms[0], WrittenAt(codec, ms, next, 0))]
            + OuterAll(version, codec, ms[1..], After(codec, ms[0], next))
  {
  }

  lemma MessageThenSet(crc: Checksum, unpack: Unpacker, version: int, codec: Option<Compression>, m: Message,
                       offset: int, rest: Bytes, expected: seq<Message>)
    requires LayoutAgrees(version) && Sendable(m) && IsI64(offset) && Whole(unpack, codec, m)
    ensures ParseSet(crc, unpack, EncodeMessage(crc, version, codec, m, offset) + rest)
            == Done([], [Outer(version, codec, m, offset)] + expected)
       <==> Readable(crc, version, codec, m) && ParseSet(crc, unpack, rest) == Done([], expected)
  {
    var input := EncodeMessage(crc, version, codec, m, offset) + rest;
    MessageRoundTrip(crc, unpack, version, codec, m, offset, rest);
    EncodedMessageSize(crc, version, codec, m, offset);
    SetStep(crc, unpack, input, Outer(version, codec, m, offset), rest, expected);
  }

  lemma SendableEncodes(unpack: Unpacker, codec: Option<Compression>, ms: seq<Message>, next: int)
    requires WholeSet(unpack, codec, ms, next)
    ensures AllEncodable(ms)
  {
  }

  lemma {:induction false} SetRoundTrip(
    crc: Checksum, unpack: Unpacker, version: int, codec: Option<Compression>, ms: seq<Message>, next: int)
    requires LayoutAgrees(version) && WholeSet(unpack, codec, ms, next) && AllEncodable(ms)
    ensures ParseSet(crc, unpack, EncodeSet(crc, version, codec, ms, next)) == Done([], OuterAll(version, codec, ms, next))
       <==> AllReadable(crc, version, codec, ms)
  {
    if ms != [] {
      var offset, next' := WrittenAt(codec, ms, next, 0), After(codec, ms[0], next);
      WholeRest(unpack, codec, ms, next);
      SendableEncodes(unpack, codec, ms[1..], next');
      SetRoundTrip(crc, unpack, version, codec, ms[1..], next');
      SetSplits(crc, version, codec, ms, next);
      OuterSplits(version, codec, ms, next);
      MessageThenSet(crc, unpack, version, codec, ms[0], offset, EncodeSet(crc, version, codec, ms[1..], next'),
                     OuterAll(version, codec, ms[1..], next'));
      ReadableCons(crc, version, codec, ms);
    }
  }

  lemma PlainIsWhole(unpack: Unpacker, codec: Option<Compression>, ms: seq<Message>, next: int)
    requires Plain(codec, ms)
    ensures WholeSet(unpack, codec, ms, next) && AllEncodable(ms)
  {
  }

  lemma PlainIsRecovered(version: int, codec: Option<Compression>, ms: seq<Message>, next: int)
    requires Plain(codec, ms)
    ensures OuterAll(version, codec, ms, next) == RecoveredAll(version, ms)
  {
    forall k | 0 <= k < |ms|
      ensures OuterAll(version, codec, ms, next)[k] == RecoveredAll(version, ms)[k]
    {
      OuterAt(version, codec, ms, next, k);
    }
  }

  /** For all messages the encoder accepts, under any codecs: a reader that does not
      unpack consumes every byte and finds the same keys and values, the codecs, the
      timestamps the version carries, uncompressed messages at their offsets and
      compressed ones numbered in order, exactly when the magic byte has the sign of the
      version and every message is readable. */
  lemma NumberedSetRoundTrip(
    crc: Checksum, unpack: Unpacker, version: int, codec: Option<Compression>, ms: seq<Message>, next: int)
    requires WholeSet(unpack, codec, ms, next) && AllEncodable(ms)
    ensures ParseSet(crc, unpack, EncodeSet(crc, version, codec, ms, next)) == Done([], OuterAll(version, codec, ms, next))
       <==> (ms == [] || (LayoutAgrees(version) && AllReadable(crc, version, codec, ms)))
  {
    if ms == [] || LayoutAgrees(version) {
      if LayoutAgrees(version) {
        SetRoundTrip(crc, unpack, version, codec, ms, next);
      }
    } else {
      LayoutDisagrees(crc, unpack, version, codec, ms, next);
    }
  }

  /** For all messages the encoder accepts and writes uncompressed: parsing what was
      encoded consumes every byte and returns the same offsets, keys and values, with the
      timestamps the version carries, exactly when the magic byte has the sign of the
      version, as versions 0 and 1 do, and every message is readable. */
  lemma MessageSetRoundTrip(
    crc: Checksum, unpack: Unpacker, version: int, codec: Option<Compression>, ms: seq<Message>, next: int)
    requires Plain(codec, ms)
    ensures ParseSet(crc, unpack, EncodeSet(crc, version, codec, ms, next)) == Done([], RecoveredAll(version, ms))
       <==> (ms == [] || (LayoutAgrees(version) && AllReadable(crc, version, codec, ms)))
    ensures 0 <= version <= 1 ==> LayoutAgrees(version)
  {
    PlainIsWhole(unpack, codec, ms, next);
    NumberedSetRoundTrip(crc, unpack, version, codec, ms, next);
    PlainIsRecovered(version, codec, ms, next);
  }

  lemma LayoutDisagrees(
    crc: Checksum, unpack: Unpacker, version: int, codec: Option<Compression>, ms: seq<Message>, next: int)
    requires WholeSet(unpack, codec, ms, next) && AllEncodable(ms) && ms != [] && !LayoutAgrees(version)
    ensures ParseSet(crc, unpack, EncodeSet(crc, version, codec, ms, next)) != Done([], OuterAll(version, codec, ms, next))
  {
    var offset, next' := WrittenAt(codec, ms, next, 0), After(codec, ms[0], next);
    WholeRest(unpack, codec, ms, next);
    SetSplits(crc, version, codec, ms, next);
    OuterSplits(version, codec, ms, next);
    MisreadFirst(crc, unpack, version, codec, ms[0], offset, EncodeSet(crc, version, codec, ms[1..], next'),
                 OuterAll(version, codec, ms[1..], next'));
  }

  lemma MisreadFirst(crc: Checksum, unpack: Unpacker, version: int, codec: Option<Compression>, m: Message,
                     offset: int, rest: Bytes, expected: seq<Message>)
    requires !LayoutAgrees(version) && Sendable(m) && IsI64(offset) && Whole(unpack, codec, m)
    ensures ParseSet(crc, unpack, EncodeMessage(crc, version, codec, m, offset) + rest)
         != Done([], [Outer(version, codec, m, offset)] + expected)
  {
    FirstDate(crc, unpack, version, codec, m, offset, rest);
    EncodedMessageSize(crc, version, codec, m, offset);
    FirstParsed(crc, unpack, EncodeMessage(crc, version, codec, m, offset) + rest, AsI8(version) > 0);
  }

  lemma DatedByMagic(input: Bytes, offset: int, magic: int, attrs: int, c: Compression)
    requires CodecOf(attrs % 8) == Some(c)
    ensures var r := ParseDated(input, offset, magic, attrs);
            r.Done? ==> r.value.compression == c && (r.value.timestamp.Some? <==> magic > 0)
  {
  }

  /** The layout read is the one of the magic byte. */
  lemma WrongDate(version: int, codec: Option<Compression>, m: Message, offset: int, rest: Bytes)
    requires Encodable(m)
    ensures var r := ParseBody(Body(version, codec, m) + rest, offset);
            r.Done? ==> r.value.compression == Codec(codec, m) && (r.value.timestamp.Some? <==> AsI8(version) > 0)
  {
    var attrs := Attributes(codec, m);
    var tail := TimestampBytes(version, m) + (BlobBytes(m.key).value + BlobBytes(m.value).value + rest);
    BodySplit(version, codec, m, rest);
    HeadRoundTrip(version, attrs, tail, offset);
    AttributesAreRead(codec, m);
    DatedByMagic(tail, offset, AsI8(version), attrs, Codec(codec, m));
  }

  lemma FirstDate(
    crc: Checksum, unpack: Unpacker, version: int, codec: Option<Compression>, m: Message, offset: int, rest: Bytes)
    requires Sendable(m) && IsI64(offset) && Whole(unpack, codec, m)
    ensures var r := ParseMessage(crc, unpack, EncodeMessage(crc, version, codec, m, offset) + rest);
            r.Done? ==> |r.value| == 1 && (r.value[0].timestamp.Some? <==> AsI8(version) > 0)
  {
    ChecksumVerifies(crc, version, codec, m, offset, rest);
    WrongDate(version, codec, m, offset, rest);
  }

  lemma FirstParsed(crc: Checksum, unpack: Unpacker, input: Bytes, dated: bool)
    requires input != []
    requires var r := ParseMessage(crc, unpack, input);
             r.Done? ==> |r.value| == 1 && (r.value[0].timestamp.Some? <==> dated)
    ensures var r := ParseSet(crc, unpack, input);
            r.Done? && r.value != [] ==> (r.value[0].timestamp.Some? <==> dated)
  {
  }

  // ----- the encoder -----

  /** Writes a message with placeholders for its size and checksum, then patches
      them. A key or value over 2^31 - 1 bytes is refused part of the way. */
  method PutMessage(crc: Checksum, version: int, codec: Option<Compression>, m: Message, offset: int, buf: ByteBuf)
    returns (ok: bool)
    modifies buf
    ensures ok <==> Encodable(m)
    ensures ok ==> buf.data == old(buf.data) + EncodeMessage(crc, version, codec, m, offset)
    ensures old(buf.data) <= buf.data
  {
    buf.Put(I64Bytes(offset));
    var sizeOff := |buf.data|;
    buf.Put(I32Bytes(0));
    var crcOff := |buf.data|;
    buf.Put(I32Bytes(0));
    var dataOff := |buf.data|;
    ok := PutBody(version, codec, m, buf);
    if ok {
      PatchFrame(crc, sizeOff, crcOff, dataOff, old(buf.data), offset, Body(version, codec, m), buf);
    }
  }

  /** Fills in the size and the checksum once the body is there. */
  method PatchFrame(crc: Checksum, sizeOff: nat, crcOff: nat, dataOff: nat,
                    ghost before: Bytes, ghost offset: int, ghost body: Bytes, buf: ByteBuf)
    requires sizeOff == |before| + 8 && crcOff == sizeOff + 4 && dataOff == crcOff + 4
    requires buf.data == before + I64Bytes(offset) + I32Bytes(0) + I32Bytes(0) + body
    modifies buf
    ensures buf.data == before + Framed(crc, body, offset)
  {
    assert buf.data[dataOff..] == body;
    var size := |buf.data| - crcOff;
    var sum := crc(buf.data[dataOff..]);
    Patch(before, I64Bytes(offset), I32Bytes(size), I32Bytes(sum), body);
    buf.WriteI32(sizeOff, size);
    buf.WriteI32(crcOff, sum);
  }

  method PutBody(version: int, codec: Option<Compression>, m: Message, buf: ByteBuf) returns (ok: bool)
    modifies buf
    ensures ok <==> Encodable(m)
    ensures ok ==> buf.data == old(buf.data) + Body(version, codec, m)
    ensures old(buf.data) <= buf.data
  {
    ghost var before := buf.data;
    var magic := I8Bytes(version);
    var attrs := I8Bytes(CodecBits(Codec(codec, m))
                         + if m.timestamp.Some? && m.timestamp.value.LogAppendTime? then 0x08 else 0);
    buf.Put(magic);
    buf.Put(attrs);
    if version > 0 {
      buf.Put(I64Bytes(if m.timestamp.Some? then m.timestamp.value.at else 0));
    }
    ghost var t := TimestampBytes(version, m);
    assert buf.data == before + magic + attrs + t;
    ok := buf.PutBytes(m.key);
    if ok {
      ok := buf.PutBytes(m.value);
      if ok {
        FlatBody(before, magic, attrs, t, BlobBytes(m.key).value, BlobBytes(m.value).value);
      }
    }
  }

  lemma FlatBody(before: Bytes, magic: Bytes, attrs: Bytes, t: Bytes, key: Bytes, value: Bytes)
    ensures before + magic + attrs + t + key + value == before + (magic + (attrs + (t + (key + value))))
  {
    Assoc(before + magic + attrs + t, key, value);
    Assoc(before + magic + attrs, t, key + value);
    Assoc(before + magic, attrs, t + (key + value));
    Assoc(before, magic, attrs + (t + (key + value)));
  }

  /** Overwriting the two placeholders. */
  lemma Patch(before: Bytes, offset: Bytes, size: Bytes, sum: Bytes, body: Bytes)
    requires |offset| == 8 && |size| == 4 && |sum| == 4
    ensures var data := before + offset + I32Bytes(0) + I32Bytes(0) + body;
            var n := |before| + 8;
            var sized := data[..n] + size + data[n + 4..];
            sized[..n + 4] + sum + sized[n + 8..] == before + (offset + (size + (sum + body)))
  {
    var data := before + offset + I32Bytes(0) + I32Bytes(0) + body;
    var n := |before| + 8;
    assert data[..n] == before + offset;
    assert data[n + 4..] == I32Bytes(0) + body;
    var sized := before + offset + size + (I32Bytes(0) + body);
    assert sized[..n + 4] == before + offset + size;
    assert sized[n + 8..] == body;
  }

  function OffsetFor(codec: Option<Compression>, m: Message, next: int): (o: int) {
    if Codec(codec, m).Uncompressed? then m.offset else next
  }

  function NextAfter(codec: Option<Compression>, m: Message, next: int): (n: int) {
    if Codec(codec, m).Uncompressed? then next else next + 1
  }

  lemma EncodeFrom(
    crc: Checksum, version: int, codec: Option<Compression>, ms: seq<Message>, i: nat, next: int, before: Bytes)
    requires i < |ms| && AllEncodable(ms)
    ensures before + EncodeSet(crc, version, codec, ms[i..], next)
         == before + EncodeMessage(crc, version, codec, ms[i], OffsetFor(codec, ms[i], next))
            + EncodeSet(crc, version, codec, ms[i + 1..], NextAfter(codec, ms[i], next))
  {
    assert ms[i..][1..] == ms[i + 1..];
    Assoc(before, EncodeMessage(crc, version, codec, ms[i], OffsetFor(codec, ms[i], next)),
          EncodeSet(crc, version, codec, ms[i + 1..], NextAfter(codec, ms[i], next)));
  }

  /** What the buffer will hold once the rest of the set is written. */
  ghost function Goal(
    crc: Checksum, version: int, codec: Option<Compression>, ms: seq<Message>, i: nat, next: int, before: Bytes): (b: Bytes)
    requires i <= |ms|
  {
    if AllEncodable(ms) then before + EncodeSet(crc, version, codec, ms[i..], next) else []
  }

  method PutNext(crc: Checksum, version: int, codec: Option<Compression>, ms: seq<Message>, i: nat, next: int, buf: ByteBuf)
    returns (ok: bool, next': int)
    requires i < |ms|
    modifies buf
    ensures ok <==> Encodable(ms[i])
    ensures old(buf.data) <= buf.data
    ensures ok ==>
              (Goal(crc, version, codec, ms, i + 1, next', buf.data)
               == Goal(crc, version, codec, ms, i, next, old(buf.data)))
  {
    var offset := ms[i].offset;
    next' := next;
    if !Codec(codec, ms[i]).Uncompressed? {
      next' := next + 1;
      offset := next' - 1;
    }
    if AllEncodable(ms) {
      EncodeFrom(crc, version, codec, ms, i, next, buf.data);
    }
    ok := PutMessage(crc, version, codec, ms[i], offset, buf);
  }

  method PutSet(crc: Checksum, version: int, codec: Option<Compression>, ms: seq<Message>, buf: ByteBuf)
    returns (ok: bool)
    modifies buf
    ensures ok <==> AllEncodable(ms)
    ensures ok ==> buf.data == old(buf.data) + EncodeSet(crc, version, codec, ms, 0)
    ensures old(buf.data) <= buf.data
  {
    var next := 0;
    for i := 0 to |ms|
      invariant forall j :: 0 <= j < i ==> Encodable(ms[j])
      invariant old(buf.data) <= buf.data
      invariant Goal(crc, version, codec, ms, i, next, buf.data) == Goal(crc, version, codec, ms, 0, 0, old(buf.data))
    {
      ok, next := PutNext(crc, version, codec, ms, i, next, buf);
      if !ok {
        return;
      }
    }
    assert ms[0..] == ms;
    ok := true;
  }
}
