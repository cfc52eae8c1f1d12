/** Streams of snappy chunks as the xerial library writes them, read in three ways:
    at once with an index, to the end through a reader, and piecewise. The block
    decompressor belongs to another crate and is a parameter. */
module Snappy {
  import opened Wire

  type Uncompress = Bytes -> Option<Bytes>

  const MAGIC: Bytes := [0x82, 83, 78, 65, 80, 80, 89, 0]

  // ----- streams -----

  function ChunkBytes(c: Bytes): (b: Bytes) {
    I32Bytes(|c|) + c
  }

  function ChunkStream(cs: seq<Bytes>): (b: Bytes) {
    if cs == [] then [] else ChunkBytes(cs[0]) + ChunkStream(cs[1..])
  }

  function Header(): (b: Bytes) {
    MAGIC + (I32Bytes(1) + I32Bytes(1))
  }

  /** Chunks that are not empty, fit their length and decompress. */
  predicate ValidChunk(un: Uncompress, c: Bytes) {
    0 < |c| <= I32_MAX && un(c).Some?
  }

  predicate ValidChunks(un: Uncompress, cs: seq<Bytes>) {
    forall i :: 0 <= i < |cs| ==> ValidChunk(un, cs[i])
  }

  function Content(un: Uncompress, cs: seq<Bytes>): (b: Bytes)
    requires ValidChunks(un, cs)
  {
    if cs == [] then [] else un(cs[0]).value + Content(un, cs[1..])
  }

  /** `validate_stream`: what follows the header. */
  function ValidateStream(src: Bytes): (r: Option<Bytes>) {
    if |src| < 16 || src[..8] != MAGIC then None
    else if ParseI32(src[8..]).value != 1 || ParseI32(src[12..]).value != 1 then None
    else Some(src[16..])
  }

  lemma HeaderIsValid(rest: Bytes)
    ensures ValidateStream(Header() + rest) == Some(rest)
  {
    var src := Header() + rest;
    assert src[8..] == I32Bytes(1) + (I32Bytes(1) + rest);
    assert src[12..] == I32Bytes(1) + rest;
    I32RoundTrip(1, I32Bytes(1) + rest);
    I32RoundTrip(1, rest);
    assert src[16..] == rest;
  }

  lemma OneIs(b: Bytes)
    requires |b| == 4 && FromBigEndian(b) == 1
    ensures b == I32Bytes(1)
  {
    var c := b[..3];
    assert FromBigEndian(b) == FromBigEndian(c) * 0x100 + b[3];
    assert FromBigEndian(c) == FromBigEndian(c[..2]) * 0x100 + c[2];
    var d := c[..2];
    assert FromBigEndian(d) == FromBigEndian(d[..1]) * 0x100 + d[1];
    assert FromBigEndian(d[..1]) == FromBigEndian(d[..1][..0]) * 0x100 + d[0];
    assert b == [0, 0, 0, 1];
    assert BigEndian(1, 4) == BigEndian(0, 3) + [1] && BigEndian(0, 3) == BigEndian(0, 2) + [0];
    assert BigEndian(0, 2) == BigEndian(0, 1) + [0] && BigEndian(0, 1) == BigEndian(0, 0) + [0];
  }

  /** A stream is accepted exactly when it begins with the header. */
  lemma HeaderExactly(src: Bytes)
    ensures ValidateStream(src).Some? <==> |src| >= 16 && src[..16] == Header()
    ensures ValidateStream(src).Some? ==> ValidateStream(src).value == src[16..]
  {
    if ValidateStream(src).Some? {
      Powers();
      FromBigEndianBound(src[8..][..4]);
      FromBigEndianBound(src[12..][..4]);
      OneIs(src[8..][..4]);
      OneIs(src[12..][..4]);
      assert src[..16] == src[..8] + (src[8..][..4] + src[12..][..4]);
    }
    if |src| >= 16 && src[..16] == Header() {
      assert src == Header() + src[16..];
      HeaderIsValid(src[16..]);
    }
  }

  /** The next chunk and the rest, when its length can be read, is at least `least`
      and fits what follows. The source slices without checking the last. */
  function SplitChunk(data: Bytes, least: int): (r: Option<(Bytes, Bytes)>) {
    if |data| < 4 then None
    else
      var n := ParseI32(data).value;
      if n < least || n < 0 || n > |data| - 4 then None else Some((data[4..4 + n], data[4 + n..]))
  }

  lemma ChunkSplits(c: Bytes, rest: Bytes, least: int)
    requires |c| <= I32_MAX && least <= |c|
    ensures SplitChunk(ChunkBytes(c) + rest, least) == Some((c, rest))
  {
    Assoc(I32Bytes(|c|), c, rest);
    I32RoundTrip(|c|, c + rest);
    var data := I32Bytes(|c|) + (c + rest);
    assert data[4..4 + |c|] == c && data[4 + |c|..] == rest;
  }

  // ----- at once -----

  function Framed(un: Uncompress, stream: Bytes): (r: Option<Bytes>)
    decreases |stream|
  {
    if stream == [] then Some([])
    else
      match SplitChunk(stream, 0)
      case None => None
      case Some((c, rest)) =>
        if un(c).None? then None
        else
          match Framed(un, rest)
          case None => None
          case Some(x) => Some(un(c).value + x)
  }

  lemma {:induction false} FramedContent(un: Uncompress, cs: seq<Bytes>)
    requires ValidChunks(un, cs)
    ensures Framed(un, ChunkStream(cs)) == Some(Content(un, cs))
  {
    if cs != [] {
      ChunkSplits(cs[0], ChunkStream(cs[1..]), 0);
      FramedContent(un, cs[1..]);
    }
  }

  /** Chunks of any kind are accepted exactly when each one decompresses. */
  lemma {:induction false} FramedExactly(un: Uncompress, cs: seq<Bytes>)
    requires forall i :: 0 <= i < |cs| ==> |cs[i]| <= I32_MAX
    ensures Framed(un, ChunkStream(cs)).Some? <==> forall i :: 0 <= i < |cs| ==> un(cs[i]).Some?
  {
    if cs != [] {
      ChunkSplits(cs[0], ChunkStream(cs[1..]), 0);
      FramedExactly(un, cs[1..]);
      assert forall i :: 0 < i < |cs| ==> cs[i] == cs[1..][i - 1];
    }
  }

  /** To the end, exactly when each one also is not empty. */
  lemma {:induction false} RestExactly(un: Uncompress, cs: seq<Bytes>)
    requires forall i :: 0 <= i < |cs| ==> |cs[i]| <= I32_MAX
    ensures DecompressRest(un, ChunkStream(cs)).Some? <==> ValidChunks(un, cs)
  {
    if cs != [] {
      if cs[0] != [] {
        ChunkSplits(cs[0], ChunkStream(cs[1..]), 1);
      } else {
        I32RoundTrip(0, ChunkStream(cs[1..]));
        assert ChunkBytes(cs[0]) == I32Bytes(0);
      }
      RestExactly(un, cs[1..]);
      assert forall i :: 0 < i < |cs| ==> cs[i] == cs[1..][i - 1];
    }
  }

  // ----- through the reader -----

  datatype ReaderState = ReaderState(data: Bytes, pos: nat, chunk: Bytes)

  function Unread(s: ReaderState): (b: Bytes) {
    if s.pos < |s.chunk| then s.chunk[s.pos..] else []
  }

  datatype ReadResult = Got(state: ReaderState, bytes: Bytes) | Failed

  /** `next_chunk`: at the end there is none. */
  function NextChunk(un: Uncompress, s: ReaderState): (r: Option<(ReaderState, bool)>) {
    if s.data == [] then Some((s, false))
    else
      match SplitChunk(s.data, 1)
      case None => None
      case Some((c, rest)) => if un(c).None? then None else Some((ReaderState(rest, 0, un(c).value), true))
  }

  function ServeUnread(s: ReaderState, n: nat): (r: ReadResult)
    requires s.pos <= |s.chunk|
  {
    var k := if |s.chunk| - s.pos < n then |s.chunk| - s.pos else n;
    Got(s.(pos := s.pos + k), s.chunk[s.pos..s.pos + k])
  }

  /** `_read` into a buffer of n bytes. */
  function Read(un: Uncompress, s: ReaderState, n: nat): (r: ReadResult) {
    if s.pos < |s.chunk| then ServeUnread(s, n)
    else
      match NextChunk(un, s)
      case None => Failed
      case Some((s', more)) => if more then ServeUnread(s', n) else Got(s', [])
  }

  function DecompressRest(un: Uncompress, data: Bytes): (r: Option<Bytes>)
    decreases |data|
  {
    if data == [] then Some([])
    else
      match SplitChunk(data, 1)
      case None => None
      case Some((c, rest)) =>
        if un(c).None? then None
        else
          match DecompressRest(un, rest)
          case None => None
          case Some(x) => Some(un(c).value + x)
  }

  /** `_read_to_end`: what it appends. */
  function ReadToEnd(un: Uncompress, s: ReaderState): (r: Option<Bytes>) {
    match DecompressRest(un, s.data)
    case None => None
    case Some(x) => Some(Unread(s) + x)
  }

  lemma {:induction false} RestContent(un: Uncompress, cs: seq<Bytes>)
    requires ValidChunks(un, cs)
    ensures DecompressRest(un, ChunkStream(cs)) == Some(Content(un, cs))
  {
    if cs != [] {
      ChunkSplits(cs[0], ChunkStream(cs[1..]), 1);
      RestContent(un, cs[1..]);
    }
  }

  /** Reads with the given buffer sizes, up to the first that returns nothing. */
  function ReadUntilEmpty(un: Uncompress, s: ReaderState, sizes: seq<nat>): (r: (Option<Bytes>, bool))
    decreases |sizes|
  {
    if sizes == [] then (Some([]), false)
    else
      match Read(un, s, sizes[0])
      case Failed => (None, true)
      case Got(s', bytes) =>
        if bytes == [] then (Some([]), true)
        else
          var (x, stopped) := ReadUntilEmpty(un, s', sizes[1..]);
          (if x.None? then None else Some(bytes + x.value), stopped)
  }

  /** What the chunks hold up to the first that decompresses to nothing. */
  function Served(un: Uncompress, cs: seq<Bytes>): (b: Bytes)
    requires ValidChunks(un, cs)
  {
    if cs == [] || un(cs[0]).value == [] then [] else un(cs[0]).value + Served(un, cs[1..])
  }

  /** Between reads: the chunks still compressed, and a position in the current one. */
  predicate Reading(un: Uncompress, s: ReaderState, cs: seq<Bytes>) {
    ValidChunks(un, cs) && s.data == ChunkStream(cs) && s.pos <= |s.chunk|
  }

  lemma ServedInOrder(chunk: Bytes, pos: nat, k: nat, others: Bytes)
    requires pos + k <= |chunk|
    ensures chunk[pos..] + others == chunk[pos..pos + k] + (chunk[pos + k..] + others)
  {
  }

  lemma NextChunkRead(un: Uncompress, s: ReaderState, cs: seq<Bytes>)
    requires Reading(un, s, cs)
    ensures NextChunk(un, s)
         == if cs == [] then Some((s, false)) else Some((ReaderState(ChunkStream(cs[1..]), 0, un(cs[0]).value), true))
  {
    if cs != [] {
      ChunkSplits(cs[0], ChunkStream(cs[1..]), 1);
      assert s.data != [];
    }
  }

  lemma ServeStep(s: ReaderState, n: nat, others: Bytes)
    requires s.pos <= |s.chunk| && n > 0
    ensures var r := ServeUnread(s, n);
            && r.state.data == s.data && r.state.chunk == s.chunk && r.state.pos <= |s.chunk|
            && (r.bytes == [] <==> Unread(s) == [])
            && Unread(s) + others == r.bytes + (Unread(r.state) + others)
  {
    var k := |ServeUnread(s, n).bytes|;
    ServedInOrder(s.chunk, s.pos, k, others);
  }

  /** One read: what it gives comes next in the content, and it gives nothing only
      at the end or at a chunk that decompresses to nothing. */
  lemma ReadStep(un: Uncompress, s: ReaderState, cs: seq<Bytes>, n: nat) returns (cs': seq<Bytes>)
    requires Reading(un, s, cs) && n > 0
    ensures var r := Read(un, s, n);
            && r.Got? && Reading(un, r.state, cs')
            && Unread(s) + Content(un, cs) == r.bytes + (Unread(r.state) + Content(un, cs'))
            && (r.bytes == [] <==> Unread(s) + Served(un, cs) == [])
            && (r.bytes != [] ==> Unread(s) + Served(un, cs) == r.bytes + (Unread(r.state) + Served(un, cs')))
  {
    cs' := cs;
    if s.pos < |s.chunk| {
      ServeStep(s, n, Content(un, cs));
      ServeStep(s, n, Served(un, cs));
    } else {
      NextChunkRead(un, s, cs);
      if cs != [] {
        cs' := cs[1..];
        FreshChunk(un, s, cs, n);
      }
    }
  }

  lemma FreshChunk(un: Uncompress, s: ReaderState, cs: seq<Bytes>, n: nat)
    requires ValidChunks(un, cs) && cs != [] && s.pos >= |s.chunk| && n > 0
    ensures var s' := ReaderState(ChunkStream(cs[1..]), 0, un(cs[0]).value);
            var r := ServeUnread(s', n);
            && Reading(un, r.state, cs[1..])
            && Unread(s) + Content(un, cs) == r.bytes + (Unread(r.state) + Content(un, cs[1..]))
            && (r.bytes == [] <==> Unread(s) + Served(un, cs) == [])
            && (r.bytes != [] ==> Unread(s) + Served(un, cs) == r.bytes + (Unread(r.state) + Served(un, cs[1..])))
  {
    var chunk := un(cs[0]).value;
    var s' := ReaderState(ChunkStream(cs[1..]), 0, chunk);
    assert Unread(s') == chunk;
    ServeStep(s', n, Content(un, cs[1..]));
    ServeStep(s', n, Served(un, cs[1..]));
    assert Unread(s) + Content(un, cs) == Content(un, cs) && Unread(s) + Served(un, cs) == Served(un, cs);
  }

  lemma {:induction false} ReadsServe(un: Uncompress, s: ReaderState, cs: seq<Bytes>, sizes: seq<nat>)
    requires Reading(un, s, cs) && forall i :: 0 <= i < |sizes| ==> sizes[i] > 0
    ensures var (x, stopped) := ReadUntilEmpty(un, s, sizes);
            && x.Some? && x.value <= Unread(s) + Served(un, cs)
            && (stopped ==> x.value == Unread(s) + Served(un, cs)) && (!stopped ==> |x.value| >= |sizes|)
    decreases |sizes|
  {
    if sizes != [] {
      var cs' := ReadStep(un, s, cs, sizes[0]);
      var r := Read(un, s, sizes[0]);
      if r.bytes != [] {
        ReadsServe(un, r.state, cs', sizes[1..]);
      }
    }
  }

  /** Behind a chunk that decompresses to nothing there is only nothing. */
  predicate EmptyChunksLast(un: Uncompress, cs: seq<Bytes>)
    requires ValidChunks(un, cs)
  {
    forall i, j :: 0 <= i < j < |cs| && un(cs[i]).value == [] ==> un(cs[j]).value == []
  }

  lemma {:induction false} AllEmpty(un: Uncompress, cs: seq<Bytes>)
    requires ValidChunks(un, cs)
    ensures Content(un, cs) == [] <==> forall i :: 0 <= i < |cs| ==> un(cs[i]).value == []
  {
    if cs != [] {
      AllEmpty(un, cs[1..]);
      if forall i :: 0 <= i < |cs[1..]| ==> un(cs[1..][i]).value == [] {
        assert forall i :: 0 < i < |cs| ==> cs[i] == cs[1..][i - 1];
      } else {
        var i :| 0 <= i < |cs[1..]| && un(cs[1..][i]).value != [];
        assert un(cs[i + 1]).value != [];
      }
    }
  }

  lemma {:induction false} ServedIsAll(un: Uncompress, cs: seq<Bytes>)
    requires ValidChunks(un, cs)
    ensures Served(un, cs) == Content(un, cs) <==> EmptyChunksLast(un, cs)
  {
    if cs != [] {
      if un(cs[0]).value == [] {
        AllEmpty(un, cs);
        if EmptyChunksLast(un, cs) {
          assert forall j :: 0 < j < |cs| ==> un(cs[j]).value == [];
        }
      } else {
        ServedIsAll(un, cs[1..]);
        TailEmptyLast(un, cs);
        SamePrefix(un(cs[0]).value, Served(un, cs[1..]), Content(un, cs[1..]));
      }
    }
  }

  lemma SamePrefix(x: Bytes, a: Bytes, b: Bytes)
    ensures x + a == x + b <==> a == b
  {
    assert (x + a)[|x|..] == a && (x + b)[|x|..] == b;
  }

  lemma TailEmptyLast(un: Uncompress, cs: seq<Bytes>)
    requires ValidChunks(un, cs) && cs != [] && un(cs[0]).value != []
    ensures EmptyChunksLast(un, cs) <==> EmptyChunksLast(un, cs[1..])
  {
    var t := cs[1..];
    if EmptyChunksLast(un, t) {
      forall i, j | 0 <= i < j < |cs| && un(cs[i]).value == [] ensures un(cs[j]).value == [] {
        assert cs[i] == t[i - 1] && cs[j] == t[j - 1];
      }
    } else {
      var i, j :| 0 <= i < j < |t| && un(t[i]).value == [] && un(t[j]).value != [];
      assert cs[i + 1] == t[i] && cs[j + 1] == t[j];
    }
  }

  lemma PiecewiseAgrees(un: Uncompress, cs: seq<Bytes>, sizes: seq<nat>)
    requires ValidChunks(un, cs) && forall i :: 0 <= i < |sizes| ==> sizes[i] > 0
    ensures var (x, stopped) := ReadUntilEmpty(un, ReaderState(ChunkStream(cs), 0, []), sizes);
            && (stopped ==> (x == Some(Content(un, cs)) <==> EmptyChunksLast(un, cs)))
            && (!stopped ==> x.Some? && |x.value| >= |sizes|)
  {
    ReadsServe(un, ReaderState(ChunkStream(cs), 0, []), cs, sizes);
    ServedIsAll(un, cs);
    assert [] + Served(un, cs) == Served(un, cs);
  }

  /** On every valid stream, reading at once and reading to the end give the whole
      content; reading piece by piece until a read gives nothing, with any positive
      buffer sizes, gives the same exactly when no chunk that decompresses to
      nothing stands before one that does not. */
  lemma ReadersAgree(un: Uncompress, cs: seq<Bytes>, sizes: seq<nat>)
    requires ValidChunks(un, cs) && forall i :: 0 <= i < |sizes| ==> sizes[i] > 0
    ensures ValidateStream(Header() + ChunkStream(cs)) == Some(ChunkStream(cs))
    ensures Framed(un, ChunkStream(cs)) == Some(Content(un, cs))
    ensures ReadToEnd(un, ReaderState(ChunkStream(cs), 0, [])) == Some(Content(un, cs))
    ensures var (x, stopped) := ReadUntilEmpty(un, ReaderState(ChunkStream(cs), 0, []), sizes);
            && (stopped ==> (x == Some(Content(un, cs)) <==> EmptyChunksLast(un, cs)))
            && (!stopped ==> x.Some? && |x.value| >= |sizes|)
  {
    HeaderIsValid(ChunkStream(cs));
    FramedContent(un, cs);
    RestContent(un, cs);
    PiecewiseAgrees(un, cs, sizes);
    assert [] + Content(un, cs) == Content(un, cs);
  }

  /** Snappy compresses nothing to the one byte 0. In front of any chunk such a chunk
      hides it from the reader that goes piece by piece. */
  lemma EmptyChunkHides(un: Uncompress, chunk: Bytes, n: nat)
    requires un([0]) == Some([]) && ValidChunk(un, chunk) && un(chunk).value != [] && n > 0
    ensures !EmptyChunksLast(un, [[0], chunk]) && Content(un, [[0], chunk]) == un(chunk).value
    ensures ReadUntilEmpty(un, ReaderState(ChunkStream([[0], chunk]), 0, []), [n]) == (Some([]), true)
  {
    var cs: seq<Bytes> := [[0], chunk];
    assert un(cs[0]).value == [] && un(cs[1]).value != [];
    assert cs[1..] == [chunk] && |[chunk][1..]| == 0;
    assert Content(un, [chunk]) == un(chunk).value + Content(un, []);
    ReadsServe(un, ReaderState(ChunkStream(cs), 0, []), cs, [n]);
    assert Served(un, cs) == [];
  }

  function ReadMany(un: Uncompress, s: ReaderState, sizes: seq<nat>): (r: ReadResult)
    decreases |sizes|
  {
    if sizes == [] then Got(s, [])
    else
      match Read(un, s, sizes[0])
      case Failed => Failed
      case Got(s', bytes) =>
        match ReadMany(un, s', sizes[1..])
        case Failed => Failed
        case Got(s'', more) => Got(s'', bytes + more)
  }

  /** After any reads, reading to the end appends exactly what was still missing. */
  lemma {:induction false} ReadToEndFromAnywhere(un: Uncompress, s: ReaderState, cs: seq<Bytes>, sizes: seq<nat>)
    requires Reading(un, s, cs) && forall i :: 0 <= i < |sizes| ==> sizes[i] > 0
    ensures var r := ReadMany(un, s, sizes);
            && r.Got? && ReadToEnd(un, r.state).Some?
            && r.bytes + ReadToEnd(un, r.state).value == Unread(s) + Content(un, cs)
    decreases |sizes|
  {
    if sizes == [] {
      RestContent(un, cs);
    } else {
      var cs' := ReadStep(un, s, cs, sizes[0]);
      var r := Read(un, s, sizes[0]);
      ReadToEndFromAnywhere(un, r.state, cs', sizes[1..]);
      var m := ReadMany(un, r.state, sizes[1..]);
      Assoc(r.bytes, m.bytes, ReadToEnd(un, m.state).value);
    }
  }

  /** A chunk of length zero is passed to the decompressor when reading at once and
      refused by the reader. */
  lemma ZeroChunk(un: Uncompress, cs: seq<Bytes>)
    requires ValidChunks(un, cs) && un([]).Some?
    ensures Framed(un, ChunkBytes([]) + ChunkStream(cs)) == Some(un([]).value + Content(un, cs))
    ensures ReadToEnd(un, ReaderState(ChunkBytes([]) + ChunkStream(cs), 0, [])) == None
  {
    ChunkSplits([], ChunkStream(cs), 0);
    FramedContent(un, cs);
    I32RoundTrip(0, ChunkStream(cs));
    assert ChunkBytes([]) == I32Bytes(0);
  }

  // ----- the loops -----

  /** What is still to come from position i, behind what was appended. */
  ghost predicate Ahead(un: Uncompress, stream: Bytes, i: nat, dst: Bytes, out: Bytes)
    requires i <= |stream|
  {
    && dst <= out
    && (Framed(un, stream).Some? <==> Framed(un, stream[i..]).Some?)
    && (Framed(un, stream).Some? ==> dst + Framed(un, stream).value == out + Framed(un, stream[i..]).value)
  }

  lemma SplitAt(stream: Bytes, i: nat)
    requires i < |stream|
    ensures var next := SplitChunk(stream[i..], 0);
            next.Some? ==> var j := i + 4 + |next.value.0|; j <= |stream| && next.value.1 == stream[j..]
  {
  }

  lemma AheadStep(un: Uncompress, stream: Bytes, i: nat, dst: Bytes, out: Bytes)
    requires i < |stream| && Ahead(un, stream, i, dst, out)
    ensures var next := SplitChunk(stream[i..], 0);
            if next.None? || un(next.value.0).None? then Framed(un, stream).None?
            else
              var j := i + 4 + |next.value.0|;
              j <= |stream| && Ahead(un, stream, j, dst, out + un(next.value.0).value)
  {
    var next := SplitChunk(stream[i..], 0);
    SplitAt(stream, i);
    if next.Some? && un(next.value.0).Some? {
      AheadChunk(un, stream, i, dst, out, next.value.0, next.value.1);
    }
  }

  lemma AheadChunk(un: Uncompress, stream: Bytes, i: nat, dst: Bytes, out: Bytes, c: Bytes, rest: Bytes)
    requires i < |stream| && Ahead(un, stream, i, dst, out)
    requires SplitChunk(stream[i..], 0) == Some((c, rest)) && un(c).Some?
    requires i + 4 + |c| <= |stream| && rest == stream[i + 4 + |c|..]
    ensures Ahead(un, stream, i + 4 + |c|, dst, out + un(c).value)
  {
    var here := Framed(un, stream[i..]);
    assert here == match Framed(un, rest) case None => None case Some(x) => Some(un(c).value + x);
    if here.Some? {
      Assoc(out, un(c).value, Framed(un, rest).value);
    }
  }

  method UncompressChunks(un: Uncompress, stream: Bytes, dst: Bytes) returns (ok: bool, out: Bytes)
    ensures dst <= out && (ok <==> Framed(un, stream).Some?) && (ok ==> out == dst + Framed(un, stream).value)
  {
    out := dst;
    var i := 0;
    assert stream[0..] == stream;
    while i < |stream|
      invariant i <= |stream| && Ahead(un, stream, i, dst, out)
    {
      AheadStep(un, stream, i, dst, out);
      var next := SplitChunk(stream[i..], 0);
      if next.None? {
        return false, out;
      }
      var data := un(next.value.0);
      if data.None? {
        return false, out;
      }
      out := out + data.value;
      i := i + 4 + |next.value.0|;
    }
    assert out + [] == out;
    return true, out;
  }

  /** `uncompress_framed_to`: appends to dst, or gives up part of the way. */
  method UncompressFramed(un: Uncompress, src: Bytes, dst: Bytes) returns (ok: bool, out: Bytes)
    ensures dst <= out
    ensures ok <==> ValidateStream(src).Some? && Framed(un, ValidateStream(src).value).Some?
    ensures ok ==> out == dst + Framed(un, ValidateStream(src).value).value
  {
    var stream := ValidateStream(src);
    if stream.None? {
      return false, dst;
    }
    ok, out := UncompressChunks(un, stream.value, dst);
  }

  class SnappyReader {
    const un: Uncompress
    var data: Bytes
    var pos: nat
    var chunk: Bytes

    constructor (un: Uncompress, stream: Bytes)
      ensures this.un == un && State() == ReaderState(stream, 0, [])
    {
      this.un, data, pos, chunk := un, stream, 0, [];
    }

    function State(): (s: ReaderState)
      reads this
    {
      ReaderState(data, pos, chunk)
    }

    method Advance() returns (more: Option<bool>)
      modifies this
      ensures var r := NextChunk(un, old(State()));
              if r.None? then more == None else more == Some(r.value.1) && State() == r.value.0
    {
      if data == [] {
        return Some(false);
      }
      pos := 0;
      var next := SplitChunk(data, 1);
      if next.None? {
        return None;
      }
      chunk := [];
      var bytes := un(next.value.0);
      if bytes.None? {
        return None;
      }
      chunk := bytes.value;
      data := next.value.1;
      return Some(true);
    }

    method ReadInto(n: nat) returns (bytes: Option<Bytes>)
      requires pos <= |chunk|
      modifies this
      ensures var r := Read(un, old(State()), n);
              if r.Failed? then bytes == None else bytes == Some(r.bytes) && State() == r.state
    {
      if pos >= |chunk| {
        var more := Advance();
        if more.None? {
          return None;
        }
        if !more.value {
          return Some([]);
        }
      }
      var k := if |chunk| - pos < n then |chunk| - pos else n;
      bytes := Some(chunk[pos..pos + k]);
      pos := pos + k;
    }

    /** Appends to buf the unread part of the chunk and all that is still compressed. */
    method ReadAll(buf: Bytes) returns (out: Option<Bytes>)
      modifies this
      ensures var r := ReadToEnd(un, old(State()));
              if r.None? then out == None else out == Some(buf + r.value) && data == [] && Unread(State()) == []
    {
      var acc := buf;
      if pos < |chunk| {
        acc := acc + chunk[pos..];
        pos := |chunk|;
      }
      ghost var all := DecompressRest(un, old(data));
      ghost var start := acc;
      while data != []
        invariant all.Some? <==> DecompressRest(un, data).Some?
        invariant all.Some? ==> start + all.value == acc + DecompressRest(un, data).value
        invariant pos >= |chunk| && start == buf + Unread(old(State()))
        decreases |data|
      {
        var next := SplitChunk(data, 1);
        if next.None? {
          return None;
        }
        var bytes := un(next.value.0);
        if bytes.None? {
          return None;
        }
        if all.Some? {
          Assoc(acc, bytes.value, DecompressRest(un, next.value.1).value);
        }
        acc := acc + bytes.value;
        data := next.value.1;
      }
      assert acc + [] == acc;
      if all.Some? {
        Assoc(buf, Unread(old(State())), all.value);
      }
      return Some(acc);
    }
  }
}
