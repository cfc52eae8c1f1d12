/** The LZ4 frame format as the writer produces it and the reader consumes it. The
    block compressor and the xxHash-32 belong to other crates and are parameters. */
module Lz4 {
  import opened Wire
  import opened MessageSet

  /** The foreign functions. */
  datatype Library = Library(compress: Bytes -> Bytes, uncompress: Bytes -> Option<Bytes>, hash: Bytes -> u32)

  /** Up to the limit, compressing data that is not empty gives a non-empty block of
      less than 2^31 bytes that uncompresses to it. */
  ghost predicate Faithful(lib: Library, limit: nat) {
    forall x {:trigger lib.compress(x)} :: 0 < |x| <= limit ==>
                  0 < |lib.compress(x)| < 0x8000_0000 && lib.uncompress(lib.compress(x)) == Some(x)
  }

  /** There are such libraries for every limit below 2^31, far above the largest
      block: one of them compresses nothing. */
  lemma FaithfulExists(limit: nat) returns (lib: Library)
    requires limit < 0x8000_0000
    ensures Faithful(lib, limit)
  {
    lib := Library((x: Bytes) => x, (x: Bytes) => Some(x), (x: Bytes) => 0);
  }

  const MAGIC: int := 0x184D_2204

  // ----- little-endian integers -----

  function LittleEndian(u: int, n: nat): (r: Bytes)
    requires 0 <= u
    ensures |r| == n
    decreases u, n
  {
    if n == 0 then [] else [u % 0x100] + LittleEndian(u / 0x100, n - 1)
  }

  function FromLittleEndian(b: Bytes): (u: int)
    ensures 0 <= u
  {
    if b == [] then 0 else b[0] + 0x100 * FromLittleEndian(b[1..])
  }

  lemma {:induction false} LittleEndianRoundTrip(u: int, n: nat)
    requires 0 <= u < Power(n)
    ensures FromLittleEndian(LittleEndian(u, n)) == u
  {
    if n > 0 {
      LittleEndianRoundTrip(u / 0x100, n - 1);
      assert LittleEndian(u, n)[1..] == LittleEndian(u / 0x100, n - 1);
    }
  }

  lemma {:induction false} LittleEndianOf(b: Bytes)
    ensures LittleEndian(FromLittleEndian(b), |b|) == b
  {
    if b != [] {
      LittleEndianOf(b[1..]);
      assert b == [b[0]] + b[1..];
    }
  }

  function ReadInt(input: Bytes, n: nat): (r: Parsed<int>) {
    if |input| < n then Error else Done(input[n..], FromLittleEndian(input[..n]))
  }

  lemma ReadIntBack(u: int, n: nat, rest: Bytes)
    requires 0 <= u < Power(n)
    ensures ReadInt(LittleEndian(u, n) + rest, n) == Done(rest, u)
  {
    LittleEndianRoundTrip(u, n);
    assert (LittleEndian(u, n) + rest)[..n] == LittleEndian(u, n);
    assert (LittleEndian(u, n) + rest)[n..] == rest;
  }

  // ----- the frame descriptor -----

  datatype Frame = Frame(flag: byte, bd: byte, size: Option<int>)

  predicate BlockChecksum(f: Frame) { (f.flag / 16) % 2 == 1 }

  predicate HasSize(flag: int) { (flag / 8) % 2 == 1 }

  predicate ContentChecksum(f: Frame) { (f.flag / 4) % 2 == 1 }

  function BlockMaxSize(f: Frame): (m: Option<nat>)
    ensures m.Some? ==> m.value > 0
  {
    match (f.bd / 16) % 8
    case 4 => Some(64 * 1024)
    case 5 => Some(256 * 1024)
    case 6 => Some(1024 * 1024)
    case 7 => Some(4 * 1024 * 1024)
    case _ => None
  }

  function FourTo(n: nat): (p: nat) {
    if n == 0 then 1 else 4 * FourTo(n - 1)
  }

  lemma MaxSizes()
    ensures FourTo(8) == 64 * 1024 && FourTo(9) == 256 * 1024
    ensures FourTo(10) == 1024 * 1024 && FourTo(11) == 4 * 1024 * 1024
  {
    assert FourTo(4) == 256;
    assert FourTo(6) == 4096;
    assert FourTo(8) == 64 * 1024;
  }

  /** The frame a writer is created with: version 1, independent blocks; the largest
      block of size n is 4 to the power of 4 + n. */
  function NewFrame(blockMaxSize: int, blockChecksum: bool, contentChecksum: bool): (f: Frame)
    ensures BlockChecksum(f) == blockChecksum && ContentChecksum(f) == contentChecksum && !HasSize(f.flag)
    ensures f.flag / 64 == 1 && (f.flag / 32) % 2 == 1 && f.flag % 4 == 0
    ensures BlockMaxSize(f).Some? <==> 4 <= blockMaxSize % 8
    ensures BlockMaxSize(f).Some? ==> BlockMaxSize(f).value == FourTo(4 + blockMaxSize % 8)
  {
    MaxSizes();
    Frame(1 * 64 + 1 * 32 + (if blockChecksum then 16 else 0) + (if contentChecksum then 4 else 0),
          (blockMaxSize % 8) * 16, None)
  }

  function Descriptor(f: Frame): (b: Bytes)
    requires f.size.Some? ==> 0 <= f.size.value
  {
    [f.flag, f.bd] + if f.size.Some? then LittleEndian(f.size.value, 8) else []
  }

  function HeaderChecksum(lib: Library, f: Frame, includeMagic: bool): (c: byte)
    requires f.size.Some? ==> 0 <= f.size.value
  {
    (lib.hash((if includeMagic then LittleEndian(MAGIC, 4) else []) + Descriptor(f)) / 0x100) % 0x100
  }

  function HeaderBytes(lib: Library, f: Frame, includeMagic: bool): (b: Bytes)
    requires f.size.Some? ==> 0 <= f.size.value
  {
    LittleEndian(MAGIC, 4) + (Descriptor(f) + [HeaderChecksum(lib, f, includeMagic)])
  }

  /** `read_header`. Errors stand for every way of refusing the input. */
  function ReadHeader(lib: Library, input: Bytes, verify: bool, includeMagic: bool): (r: Parsed<Frame>) {
    match ReadInt(input, 4)
    case Incomplete => Incomplete
    case Error => Error
    case Done(rest, magic) =>
      if magic != MAGIC || |rest| < 2 then Error
      else if HasSize(rest[0]) then
        match ReadInt(rest[2..], 8)
        case Incomplete => Incomplete
        case Error => Error
        case Done(rest', size) => ReadHeaderEnd(lib, rest', Frame(rest[0], rest[1], Some(size)), verify, includeMagic)
      else ReadHeaderEnd(lib, rest[2..], Frame(rest[0], rest[1], None), verify, includeMagic)
  }

  function ReadHeaderEnd(lib: Library, input: Bytes, f: Frame, verify: bool, includeMagic: bool): (r: Parsed<Frame>)
    requires f.size.Some? ==> 0 <= f.size.value
  {
    if input == [] || (verify && HeaderChecksum(lib, f, includeMagic) != input[0]) then Error else Done(input[1..], f)
  }

  /** The size is present exactly when its flag is. */
  predicate SizeFlagged(f: Frame) {
    (f.size.Some? <==> HasSize(f.flag)) && (f.size.Some? ==> 0 <= f.size.value < 0x1_0000_0000_0000_0000)
  }

  lemma MagicRead(rest: Bytes)
    ensures ReadInt(LittleEndian(MAGIC, 4) + rest, 4) == Done(rest, MAGIC)
  {
    Powers();
    ReadIntBack(MAGIC, 4, rest);
  }

  /** A header is accepted, and gives the frame back, exactly when its checksum is
      not verified or the reader sums the bytes the writer summed (or others with
      the same checksum). */
  lemma HeaderRoundTrip(lib: Library, f: Frame, includeMagic: bool, verify: bool, readerIncludes: bool, rest: Bytes)
    requires SizeFlagged(f)
    ensures ReadHeader(lib, HeaderBytes(lib, f, includeMagic) + rest, verify, readerIncludes)
         == if verify && HeaderChecksum(lib, f, readerIncludes) != HeaderChecksum(lib, f, includeMagic) then Error
            else Done(rest, f)
  {
    var sum := [HeaderChecksum(lib, f, includeMagic)];
    var tail := Descriptor(f) + sum + rest;
    Assoc(LittleEndian(MAGIC, 4), Descriptor(f) + sum, rest);
    MagicRead(tail);
    DescriptorRead(f, sum + rest);
    Assoc(Descriptor(f), sum, rest);
    assert (sum + rest)[1..] == rest;
  }

  /** No header is accepted without the magic number. */
  lemma MagicNeeded(lib: Library, input: Bytes, verify: bool, includeMagic: bool)
    requires ReadHeader(lib, input, verify, includeMagic).Done?
    ensures LittleEndian(MAGIC, 4) <= input
  {
    LittleEndianOf(input[..4]);
  }

  lemma DescriptorRead(f: Frame, rest: Bytes)
    requires SizeFlagged(f)
    ensures var b := Descriptor(f) + rest;
            && |b| >= 2 && b[0] == f.flag && b[1] == f.bd
            && (f.size.None? ==> b[2..] == rest)
            && (f.size.Some? ==> ReadInt(b[2..], 8) == Done(rest, f.size.value))
  {
    var b := Descriptor(f) + rest;
    if f.size.Some? {
      Powers();
      assert b[2..] == LittleEndian(f.size.value, 8) + rest;
      ReadIntBack(f.size.value, 8, rest);
    } else {
      assert b[2..] == rest;
    }
  }

  // ----- blocks -----

  /** What `write_block` appends for data that is not empty. */
  function BlockBytes(lib: Library, f: Frame, data: Bytes): (b: Bytes) {
    var c := lib.compress(data);
    LittleEndian(|c| % 0x1_0000_0000, 4) + (c + if BlockChecksum(f) then LittleEndian(lib.hash(c), 4) else [])
  }

  /** The end mark; the content checksum follows if the frame has one. */
  function EndMark(lib: Library, f: Frame, content: Bytes): (b: Bytes) {
    LittleEndian(0, 4) + if ContentChecksum(f) then LittleEndian(lib.hash(content), 4) else []
  }

  /** Reads into a zeroed buffer of n bytes; a short read leaves zeros. */
  function Fill(input: Bytes, n: nat): (r: (Bytes, Bytes))
    ensures |r.1| == n
  {
    if n <= |input| then (input[n..], input[..n]) else ([], input + Zeros(n - |input|))
  }

  function Zeros(n: nat): (b: Bytes)
    ensures |b| == n
  {
    if n == 0 then [] else [0] + Zeros(n - 1)
  }

  /** `read_block`: the data appended to the reader's block, and the count it
      returns. The high bit of the length marks an uncompressed block; the content
      checksum is read and not compared. */
  function ReadBlock(lib: Library, f: Frame, input: Bytes): (r: Parsed<(Bytes, nat)>) {
    match ReadInt(input, 4)
    case Incomplete => Incomplete
    case Error => Error
    case Done(rest, n) =>
      var size := if n >= 0x8000_0000 then n - 0x8000_0000 else n;
      if size == 0 then
        if !ContentChecksum(f) then Done(rest, ([], 0))
        else
          match ReadInt(rest, 4)
          case Incomplete => Incomplete
          case Error => Error
          case Done(rest', _) => Done(rest', ([], 0))
      else ReadData(lib, f, rest, size, n < 0x8000_0000)
  }

  function ReadData(lib: Library, f: Frame, input: Bytes, size: nat, compressed: bool): (r: Parsed<(Bytes, nat)>) {
    var (rest, data) := Fill(input, size);
    if !BlockChecksum(f) then Unpacked(lib, rest, data, compressed)
    else
      match ReadInt(rest, 4)
      case Incomplete => Incomplete
      case Error => Error
      case Done(rest', sum) => if sum != lib.hash(data) then Error else Unpacked(lib, rest', data, compressed)
  }

  function Unpacked(lib: Library, rest: Bytes, data: Bytes, compressed: bool): (r: Parsed<(Bytes, nat)>) {
    if !compressed then Done(rest, (data, |data|))
    else if lib.uncompress(data).None? then Error
    else Done(rest, (lib.uncompress(data).value, |lib.uncompress(data).value|))
  }

  lemma ReadU32(u: int, rest: Bytes)
    requires 0 <= u < 0x1_0000_0000
    ensures ReadInt(LittleEndian(u, 4) + rest, 4) == Done(rest, u)
  {
    Powers();
    ReadIntBack(u, 4, rest);
  }

  lemma CompressedRead(lib: Library, f: Frame, c: Bytes, sum: Bytes, rest: Bytes)
    requires 0 < |c| < 0x8000_0000 && sum == if BlockChecksum(f) then LittleEndian(lib.hash(c), 4) else []
    ensures ReadBlock(lib, f, LittleEndian(|c|, 4) + (c + sum) + rest) == Unpacked(lib, rest, c, true)
  {
    Assoc(LittleEndian(|c|, 4), c + sum, rest);
    ReadU32(|c|, c + sum + rest);
    Assoc(c, sum, rest);
    DataRead(lib, f, c, rest);
  }

  lemma BlockRead(lib: Library, limit: nat, f: Frame, data: Bytes, rest: Bytes)
    requires Faithful(lib, limit) && 0 < |data| <= limit
    ensures ReadBlock(lib, f, BlockBytes(lib, f, data) + rest) == Done(rest, (data, |data|))
  {
    var c := lib.compress(data);
    var sum := if BlockChecksum(f) then LittleEndian(lib.hash(c), 4) else [];
    CompressedRead(lib, f, c, sum, rest);
    ShortBlock(lib, f, data, sum);
  }

  lemma ShortBlock(lib: Library, f: Frame, data: Bytes, sum: Bytes)
    requires |lib.compress(data)| < 0x1_0000_0000
    requires sum == if BlockChecksum(f) then LittleEndian(lib.hash(lib.compress(data)), 4) else []
    ensures BlockBytes(lib, f, data)
         == LittleEndian(|lib.compress(data)|, 4) + (lib.compress(data) + sum)
  {
  }

  lemma DataRead(lib: Library, f: Frame, c: Bytes, rest: Bytes)
    ensures ReadData(lib, f, c + ((if BlockChecksum(f) then LittleEndian(lib.hash(c), 4) else []) + rest), |c|, true)
         == Unpacked(lib, rest, c, true)
  {
    var sum := if BlockChecksum(f) then LittleEndian(lib.hash(c), 4) else [];
    assert (c + (sum + rest))[..|c|] == c && (c + (sum + rest))[|c|..] == sum + rest;
    if BlockChecksum(f) {
      ReadU32(lib.hash(c), rest);
    } else {
      assert sum + rest == rest;
    }
  }

  /** Any block of less than 2^31 bytes, compressed or stored as it is: it is refused
      exactly when it carries a checksum that is not its own or does not uncompress, and
      otherwise gives its data. */
  lemma BlockExact(lib: Library, f: Frame, data: Bytes, stored: bool, sum: int, rest: Bytes)
    requires 0 < |data| < 0x8000_0000 && 0 <= sum < 0x1_0000_0000
    ensures var length := LittleEndian(|data| + (if stored then 0x8000_0000 else 0), 4);
            var r := ReadBlock(lib, f, length + (data + ((if BlockChecksum(f) then LittleEndian(sum, 4) else []) + rest)));
            if BlockChecksum(f) && sum != lib.hash(data) then r == Error
            else if stored then r == Done(rest, (data, |data|))
            else if lib.uncompress(data).None? then r == Error
            else r.Done? && r.rest == rest && r.value.0 == lib.uncompress(data).value
  {
    var tail := (if BlockChecksum(f) then LittleEndian(sum, 4) else []) + rest;
    ReadU32(|data| + (if stored then 0x8000_0000 else 0), data + tail);
    assert (data + tail)[..|data|] == data && (data + tail)[|data|..] == tail;
    if BlockChecksum(f) {
      ReadU32(sum, rest);
    } else {
      assert tail == rest;
    }
  }

  lemma EndRead(lib: Library, f: Frame, content: Bytes, rest: Bytes)
    ensures ReadBlock(lib, f, EndMark(lib, f, content) + rest) == Done(rest, ([], 0))
  {
    var sum := if ContentChecksum(f) then LittleEndian(lib.hash(content), 4) else [];
    Assoc(LittleEndian(0, 4), sum, rest);
    ReadU32(0, sum + rest);
    if ContentChecksum(f) {
      ReadU32(lib.hash(content), rest);
    } else {
      assert sum + rest == rest;
    }
  }

  // ----- cutting writes into blocks -----

  /** Full blocks and what is left over; a block holds what one write gave. */
  function Blocks(max: Option<nat>, data: Bytes): (bs: seq<Bytes>)
    requires max.Some? ==> max.value > 0
    decreases |data|
  {
    if data == [] then []
    else if max.Some? && |data| > max.value then [data[..max.value]] + Blocks(max, data[max.value..])
    else [data]
  }

  function AllBlocks(max: Option<nat>, writes: seq<Bytes>): (bs: seq<Bytes>)
    requires max.Some? ==> max.value > 0
  {
    if writes == [] then [] else AllBlocks(max, writes[..|writes| - 1]) + Blocks(max, writes[|writes| - 1])
  }

  function Join(bs: seq<Bytes>): (b: Bytes) {
    if bs == [] then [] else bs[0] + Join(bs[1..])
  }

  predicate BlocksOk(max: Option<nat>, bs: seq<Bytes>) {
    forall i :: 0 <= i < |bs| ==> bs[i] != [] && (max.Some? ==> |bs[i]| <= max.value)
  }

  lemma {:induction false} JoinConcat(p: seq<Bytes>, q: seq<Bytes>)
    ensures Join(p + q) == Join(p) + Join(q)
  {
    if p == [] {
      assert p + q == q;
    } else {
      JoinConcat(p[1..], q);
      assert (p + q)[1..] == p[1..] + q;
      Assoc(p[0], Join(p[1..]), Join(q));
    }
  }

  /** No block is empty or over the maximum, and together they are the data. */
  lemma {:induction false} BlocksCover(max: Option<nat>, data: Bytes)
    requires max.Some? ==> max.value > 0
    ensures Join(Blocks(max, data)) == data && BlocksOk(max, Blocks(max, data))
    decreases |data|
  {
    if data != [] {
      if max.Some? && |data| > max.value {
        var m := max.value;
        BlocksCover(max, data[m..]);
        assert ([data[..m]] + Blocks(max, data[m..]))[1..] == Blocks(max, data[m..]);
        assert data[..m] + data[m..] == data;
      } else {
        assert [data][1..] == [];
      }
    }
  }

  lemma {:induction false} AllBlocksCover(max: Option<nat>, writes: seq<Bytes>)
    requires max.Some? ==> max.value > 0
    ensures Join(AllBlocks(max, writes)) == Join(writes) && BlocksOk(max, AllBlocks(max, writes))
  {
    if writes != [] {
      var before := writes[..|writes| - 1];
      var last: Bytes := writes[|writes| - 1];
      AllBlocksCover(max, before);
      BlocksCover(max, last);
      JoinConcat(AllBlocks(max, before), Blocks(max, last));
      JoinConcat(before, [last]);
      assert before + [last] == writes;
      assert Join([last]) == last + Join([]);
    }
  }

  function BlocksBytes(lib: Library, f: Frame, bs: seq<Bytes>): (b: Bytes) {
    if bs == [] then [] else BlockBytes(lib, f, bs[0]) + BlocksBytes(lib, f, bs[1..])
  }

  lemma {:induction false} BlocksBytesConcat(lib: Library, f: Frame, p: seq<Bytes>, q: seq<Bytes>)
    ensures BlocksBytes(lib, f, p + q) == BlocksBytes(lib, f, p) + BlocksBytes(lib, f, q)
  {
    if p == [] {
      assert p + q == q;
    } else {
      BlocksBytesConcat(lib, f, p[1..], q);
      assert (p + q)[1..] == p[1..] + q;
      Assoc(BlockBytes(lib, f, p[0]), BlocksBytes(lib, f, p[1..]), BlocksBytes(lib, f, q));
    }
  }

  /** The body of a frame: its blocks and the end mark. */
  function FrameBody(lib: Library, f: Frame, bs: seq<Bytes>, content: Bytes): (b: Bytes) {
    BlocksBytes(lib, f, bs) + EndMark(lib, f, content)
  }

  // ----- reading -----

  datatype ReaderState = ReaderState(input: Bytes, block: Bytes, finished: bool)

  datatype ReadResult = Got(state: ReaderState, data: Bytes) | Failed

  function HandOut(s: ReaderState, n: nat): (r: ReadResult) {
    var k := if |s.block| < n then |s.block| else n;
    Got(s.(block := s.block[k..]), s.block[..k])
  }

  /** `read` into a buffer of n bytes. */
  function Read(lib: Library, f: Frame, s: ReaderState, n: nat): (r: ReadResult) {
    if s.finished then Got(s, [])
    else if s.block != [] then HandOut(s, n)
    else
      match ReadBlock(lib, f, s.input)
      case Incomplete => Failed
      case Error => Failed
      case Done(rest, (data, count)) =>
        if count == 0 then Got(ReaderState(rest, data, true), []) else HandOut(ReaderState(rest, data, false), n)
  }

  function Reads(lib: Library, f: Frame, s: ReaderState, sizes: seq<nat>): (r: ReadResult)
    decreases |sizes|
  {
    if sizes == [] then Got(s, [])
    else
      match Read(lib, f, s, sizes[0])
      case Failed => Failed
      case Got(s', data) =>
        match Reads(lib, f, s', sizes[1..])
        case Failed => Failed
        case Got(s'', data') => Got(s'', data + data')
  }

  /** Between reads the input holds the blocks still to come. */
  ghost predicate Reading(lib: Library, limit: nat, f: Frame, s: ReaderState, bs: seq<Bytes>, content: Bytes, tail: Bytes) {
    && BlocksOk(Some(limit), bs)
    && if s.finished then bs == [] && s.block == [] && s.input == tail
       else s.input == FrameBody(lib, f, bs, content) + tail
  }

  lemma FirstBlock(lib: Library, limit: nat, f: Frame, bs: seq<Bytes>, content: Bytes, tail: Bytes)
    requires Faithful(lib, limit) && bs != [] && 0 < |bs[0]| <= limit
    ensures ReadBlock(lib, f, FrameBody(lib, f, bs, content) + tail)
         == Done(FrameBody(lib, f, bs[1..], content) + tail, (bs[0], |bs[0]|))
  {
    var first, others, end := BlockBytes(lib, f, bs[0]), BlocksBytes(lib, f, bs[1..]), EndMark(lib, f, content);
    Assoc(first, others, end);
    Assoc(first, others + end, tail);
    BlockRead(lib, limit, f, bs[0], others + end + tail);
  }

  lemma LastBlock(lib: Library, f: Frame, content: Bytes, tail: Bytes)
    ensures ReadBlock(lib, f, FrameBody(lib, f, [], content) + tail) == Done(tail, ([], 0))
  {
    assert FrameBody(lib, f, [], content) == EndMark(lib, f, content);
    EndRead(lib, f, content, tail);
  }

  /** A read into a buffer that is not empty gives the next bytes, and none only
      at the end. */
  lemma ReadStep(lib: Library, limit: nat, f: Frame, s: ReaderState, bs: seq<Bytes>, content: Bytes, tail: Bytes, n: nat)
    returns (bs': seq<Bytes>)
    requires Faithful(lib, limit) && Reading(lib, limit, f, s, bs, content, tail) && n > 0
    ensures var r := Read(lib, f, s, n);
            && r.Got? && Reading(lib, limit, f, r.state, bs', content, tail)
            && s.block + Join(bs) == r.data + (r.state.block + Join(bs'))
            && (r.data == [] <==> s.block + Join(bs) == []) && |r.data| <= n
  {
    bs' := bs;
    if s.finished || s.block != [] {
      HandedOut(s.block, Join(bs), n);
    } else if bs == [] {
      LastBlock(lib, f, content, tail);
    } else {
      FirstBlock(lib, limit, f, bs, content, tail);
      bs' := bs[1..];
      HandedOut(bs[0], Join(bs[1..]), n);
    }
  }

  lemma HandedOut(block: Bytes, others: Bytes, n: nat)
    ensures var k := if |block| < n then |block| else n;
            block + others == block[..k] + (block[k..] + others)
  {
  }

  lemma {:induction false} ReadsAll(
    lib: Library, limit: nat, f: Frame, s: ReaderState, bs: seq<Bytes>, content: Bytes, tail: Bytes, sizes: seq<nat>)
    requires Faithful(lib, limit) && Reading(lib, limit, f, s, bs, content, tail)
    requires forall i :: 0 <= i < |sizes| ==> sizes[i] > 0
    ensures var r := Reads(lib, f, s, sizes);
            && r.Got? && r.data <= s.block + Join(bs)
            && (|r.data| >= |sizes| || (r.data == s.block + Join(bs) && r.state == ReaderState(tail, [], true)))
    decreases |sizes|
  {
    if sizes != [] {
      var bs' := ReadStep(lib, limit, f, s, bs, content, tail, sizes[0]);
      var r := Read(lib, f, s, sizes[0]);
      ReadsAll(lib, limit, f, r.state, bs', content, tail, sizes[1..]);
      if r.data == [] {
        AtEnd(lib, limit, f, s, bs, content, tail, sizes[0]);
        FinishedStays(lib, f, r.state, sizes[1..]);
      }
    }
  }

  lemma AtEnd(lib: Library, limit: nat, f: Frame, s: ReaderState, bs: seq<Bytes>, content: Bytes, tail: Bytes, n: nat)
    requires Faithful(lib, limit) && Reading(lib, limit, f, s, bs, content, tail) && s.block + Join(bs) == []
    ensures Read(lib, f, s, n) == Got(ReaderState(tail, [], true), [])
  {
    if bs == [] && !s.finished {
      LastBlock(lib, f, content, tail);
    }
  }

  lemma {:induction false} FinishedStays(lib: Library, f: Frame, s: ReaderState, sizes: seq<nat>)
    requires s.finished
    ensures Reads(lib, f, s, sizes) == Got(s, [])
    decreases |sizes|
  {
    if sizes != [] {
      FinishedStays(lib, f, s, sizes[1..]);
    }
  }

  // ----- the round trip -----

  /** The bytes of a frame for a sequence of writes and a close. */
  function Compressed(lib: Library, f: Frame, includeMagic: bool, writes: seq<Bytes>): (b: Bytes)
    requires SizeFlagged(f)
  {
    HeaderBytes(lib, f, includeMagic) + FrameBody(lib, f, AllBlocks(BlockMaxSize(f), writes), Join(writes))
  }

  /** A frame ends, behind its header and blocks, with four zeros and, if its flag says
      so, the checksum of all that was written. */
  lemma FrameEnds(lib: Library, f: Frame, includeMagic: bool, writes: seq<Bytes>)
    requires SizeFlagged(f)
    ensures Compressed(lib, f, includeMagic, writes)
         == HeaderBytes(lib, f, includeMagic) + BlocksBytes(lib, f, AllBlocks(BlockMaxSize(f), writes))
            + ([0, 0, 0, 0] + if ContentChecksum(f) then LittleEndian(lib.hash(Join(writes)), 4) else [])
  {
    assert LittleEndian(0, 4) == [0] + LittleEndian(0, 3) && LittleEndian(0, 2) == [0] + LittleEndian(0, 1);
    Assoc(HeaderBytes(lib, f, includeMagic), BlocksBytes(lib, f, AllBlocks(BlockMaxSize(f), writes)),
          EndMark(lib, f, Join(writes)));
  }

  /** No block can be longer than the limit: the frame's maximum is not, or no single
      write is. */
  predicate WithinLimit(f: Frame, writes: seq<Bytes>, limit: nat) {
    || (BlockMaxSize(f).Some? && BlockMaxSize(f).value <= limit)
    || forall i :: 0 <= i < |writes| ==> |writes[i]| <= limit
  }

  lemma {:induction false} BlocksWithin(max: Option<nat>, data: Bytes, limit: nat)
    requires max.Some? ==> max.value > 0
    requires |data| <= limit || (max.Some? && max.value <= limit)
    ensures BlocksOk(Some(limit), Blocks(max, data))
    decreases |data|
  {
    if data != [] && max.Some? && |data| > max.value {
      BlocksWithin(max, data[max.value..], limit);
    }
  }

  lemma {:induction false} AllBlocksWithin(f: Frame, writes: seq<Bytes>, limit: nat)
    requires WithinLimit(f, writes, limit)
    ensures BlocksOk(Some(limit), AllBlocks(BlockMaxSize(f), writes))
  {
    if writes != [] {
      AllBlocksWithin(f, writes[..|writes| - 1], limit);
      BlocksWithin(BlockMaxSize(f), writes[|writes| - 1], limit);
    }
  }

  /** Whatever was written, in whatever pieces, under any checksum flags and block
      size: a reader that agrees on the header checksum reads, with any positive
      buffer sizes, exactly the bytes written, and stops where the frame ends. */
  lemma Lz4RoundTrip(lib: Library, limit: nat, blockMaxSize: int, blockChecksum: bool, contentChecksum: bool, includeMagic: bool,
                     verify: bool, writes: seq<Bytes>, sizes: seq<nat>, tail: Bytes)
    requires Faithful(lib, limit) && forall i :: 0 <= i < |sizes| ==> sizes[i] > 0
    requires WithinLimit(NewFrame(blockMaxSize, blockChecksum, contentChecksum), writes, limit)
    ensures var f := NewFrame(blockMaxSize, blockChecksum, contentChecksum);
            var header := ReadHeader(lib, Compressed(lib, f, includeMagic, writes) + tail, verify, includeMagic);
            && header.Done? && header.value == f
            && var r := Reads(lib, f, ReaderState(header.rest, [], false), sizes);
               && r.Got? && r.data <= Join(writes)
               && (|r.data| >= |sizes| || (r.data == Join(writes) && r.state == ReaderState(tail, [], true)))
  {
    var f := NewFrame(blockMaxSize, blockChecksum, contentChecksum);
    var bs := AllBlocks(BlockMaxSize(f), writes);
    var body := FrameBody(lib, f, bs, Join(writes));
    Assoc(HeaderBytes(lib, f, includeMagic), body, tail);
    HeaderRoundTrip(lib, f, includeMagic, verify, includeMagic, body + tail);
    AllBlocksCover(BlockMaxSize(f), writes);
    AllBlocksWithin(f, writes, limit);
    ReadsAll(lib, limit, f, ReaderState(body + tail, [], false), bs, Join(writes), tail, sizes);
    assert [] + Join(bs) == Join(bs);
  }

  // ----- the writer and the reader -----

  class Lz4Writer {
    const lib: Library
    const frame: Frame
    var out: Bytes
    var buf: Bytes
    var content: Bytes

    /** Nothing is kept back between calls. */
    predicate Valid()
      reads this
    {
      buf == []
    }

    constructor (lib: Library, includeMagic: bool, blockMaxSize: int, blockChecksum: bool, contentChecksum: bool)
      ensures this.lib == lib && frame == NewFrame(blockMaxSize, blockChecksum, contentChecksum)
      ensures Valid() && out == HeaderBytes(lib, frame, includeMagic) && content == []
    {
      this.lib, frame := lib, NewFrame(blockMaxSize, blockChecksum, contentChecksum);
      out := HeaderBytes(lib, NewFrame(blockMaxSize, blockChecksum, contentChecksum), includeMagic);
      buf, content := [], [];
    }

    /** The block gathered so far, if any, goes out; the hasher sees its data. */
    method WriteBlock()
      modifies this
      ensures buf == []
      ensures out == old(out) + (if old(buf) == [] then [] else BlockBytes(lib, frame, old(buf)))
      ensures content == old(content) + (if ContentChecksum(frame) then old(buf) else [])
    {
      if buf != [] {
        var c := lib.compress(buf);
        out := out + (LittleEndian(|c| % 0x1_0000_0000, 4)
                      + (c + if BlockChecksum(frame) then LittleEndian(lib.hash(c), 4) else []));
        if ContentChecksum(frame) {
          content := content + buf;
        }
        buf := [];
      }
    }

    /** Cuts off full blocks one recursive call at a time. */
    method Write(data: Bytes) returns (n: nat)
      requires Valid()
      modifies this
      ensures Valid() && n == |data|
      ensures out == old(out) + BlocksBytes(lib, frame, Blocks(BlockMaxSize(frame), data))
      ensures content == old(content) + (if ContentChecksum(frame) then data else [])
      decreases |data|
    {
      var max := BlockMaxSize(frame);
      if max.Some? && |buf| + |data| > max.value {
        var size := max.value - |buf|;
        buf := buf + data[..size];
        assert buf == data[..size];
        CutBlock(lib, frame, data, out);
        Assoc(content, data[..size], data[size..]);
        WriteBlock();
        var _ := Write(data[size..]);
        assert data[..size] + data[size..] == data;
      } else {
        buf := buf + data;
        assert buf == data;
        OnlyBlock(lib, frame, data);
        WriteBlock();
      }
      n := |data|;
    }

    method Flush()
      requires Valid()
      modifies this
      ensures Valid() && out == old(out) && content == old(content)
    {
      WriteBlock();
    }

    method Close()
      requires Valid()
      modifies this
      ensures Valid() && content == old(content) && out == old(out) + EndMark(lib, frame, content)
    {
      WriteBlock();
      out := out + EndMark(lib, frame, content);
    }
  }

  lemma CutBlock(lib: Library, f: Frame, data: Bytes, before: Bytes)
    requires BlockMaxSize(f).Some? && |data| > BlockMaxSize(f).value
    ensures var max := BlockMaxSize(f);
            var m := max.value;
            before + BlocksBytes(lib, f, Blocks(max, data))
            == before + BlockBytes(lib, f, data[..m]) + BlocksBytes(lib, f, Blocks(max, data[m..]))
  {
    var max := BlockMaxSize(f);
    var block, bs := data[..max.value], Blocks(max, data[max.value..]);
    assert Blocks(max, data) == [block] + bs;
    assert ([block] + bs)[1..] == bs;
    Assoc(before, BlockBytes(lib, f, block), BlocksBytes(lib, f, bs));
  }

  lemma OnlyBlock(lib: Library, f: Frame, data: Bytes)
    requires BlockMaxSize(f).Some? ==> |data| <= BlockMaxSize(f).value
    ensures BlocksBytes(lib, f, Blocks(BlockMaxSize(f), data)) == if data == [] then [] else BlockBytes(lib, f, data)
  {
    if data != [] {
      assert Blocks(BlockMaxSize(f), data) == [data];
      assert BlocksBytes(lib, f, [data]) == BlockBytes(lib, f, data) + BlocksBytes(lib, f, []);
    }
  }

  lemma OneMoreWrite(lib: Library, f: Frame, writes: seq<Bytes>, i: nat, header: Bytes)
    requires i < |writes|
    ensures var max := BlockMaxSize(f);
            header + BlocksBytes(lib, f, AllBlocks(max, writes[..i + 1]))
            == header + BlocksBytes(lib, f, AllBlocks(max, writes[..i])) + BlocksBytes(lib, f, Blocks(max, writes[i]))
    ensures Join(writes[..i + 1]) == Join(writes[..i]) + writes[i]
  {
    var max := BlockMaxSize(f);
    assert writes[..i + 1][..i] == writes[..i] && writes[..i + 1] == writes[..i] + [writes[i]];
    BlocksBytesConcat(lib, f, AllBlocks(max, writes[..i]), Blocks(max, writes[i]));
    Assoc(header, BlocksBytes(lib, f, AllBlocks(max, writes[..i])), BlocksBytes(lib, f, Blocks(max, writes[i])));
    JoinSnoc(writes[..i], writes[i]);
  }

  /** Every write in turn. */
  method WriteEach(w: Lz4Writer, writes: seq<Bytes>)
    requires w.Valid() && w.content == []
    modifies w
    ensures w.Valid()
    ensures w.out == old(w.out) + BlocksBytes(w.lib, w.frame, AllBlocks(BlockMaxSize(w.frame), writes))
    ensures ContentChecksum(w.frame) ==> w.content == Join(writes)
  {
    for i := 0 to |writes|
      invariant w.Valid()
      invariant w.out == old(w.out) + BlocksBytes(w.lib, w.frame, AllBlocks(BlockMaxSize(w.frame), writes[..i]))
      invariant ContentChecksum(w.frame) ==> w.content == Join(writes[..i])
    {
      OneMoreWrite(w.lib, w.frame, writes, i, old(w.out));
      var _ := w.Write(writes[i]);
    }
    assert writes[..|writes|] == writes;
  }

  /** A whole stream: every write, then close. */
  method CompressWrites(lib: Library, includeMagic: bool, blockMaxSize: int, blockChecksum: bool, contentChecksum: bool,
                        writes: seq<Bytes>) returns (out: Bytes)
    ensures out == Compressed(lib, NewFrame(blockMaxSize, blockChecksum, contentChecksum), includeMagic, writes)
  {
    var w := new Lz4Writer(lib, includeMagic, blockMaxSize, blockChecksum, contentChecksum);
    ghost var f := w.frame;
    ghost var blocks := AllBlocks(BlockMaxSize(f), writes);
    WriteEach(w, writes);
    assert EndMark(lib, f, w.content) == EndMark(lib, f, Join(writes));
    Assoc(HeaderBytes(lib, f, includeMagic), BlocksBytes(lib, f, blocks), EndMark(lib, f, Join(writes)));
    w.Close();
    out := w.out;
  }

  lemma JoinSnoc(bs: seq<Bytes>, b: Bytes)
    ensures Join(bs + [b]) == Join(bs) + b
  {
    JoinConcat(bs, [b]);
    assert Join([b]) == b + Join([]);
  }

  class Lz4Reader {
    const lib: Library
    const frame: Frame
    var input: Bytes
    var block: Bytes
    var finished: bool

    constructor (lib: Library, frame: Frame, input: Bytes)
      ensures this.lib == lib && this.frame == frame && State() == ReaderState(input, [], false)
    {
      this.lib, this.frame, this.input, block, finished := lib, frame, input, [], false;
    }

    function State(): (s: ReaderState)
      reads this
    {
      ReaderState(input, block, finished)
    }

    method ReadInto(n: nat) returns (data: Option<Bytes>)
      modifies this
      ensures var r := Read(lib, frame, old(State()), n);
              if r.Got? then data == Some(r.data) && State() == r.state else data == None
    {
      if finished {
        return Some([]);
      }
      var remaining := |block|;
      if block == [] {
        match ReadBlock(lib, frame, input)
        case Done(rest, (bytes, count)) =>
          input, block, remaining := rest, bytes, count;
        case _ =>
          return None;
      }
      if remaining == 0 {
        finished := true;
        return Some([]);
      }
      var k := if |block| < n then |block| else n;
      data := Some(block[..k]);
      block := block[k..];
    }
  }
}
