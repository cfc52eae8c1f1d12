/** The message-set builder that fills one producer batch. */
module Builder {
  import opened Wire
  import opened MessageSet

  datatype Record = Record(timestamp: int, key: Option<Bytes>, value: Option<Bytes>)

  datatype BuilderState = BuilderState(
    version: int,
    compression: Compression,
    limit: nat,
    written: nat,
    baseOffset: int,
    lastOffset: Option<int>,
    baseTimestamp: Option<int>,
    messages: seq<Message>)

  datatype Rejection = OutOfOrder | NegativeTimestamp | Full

  datatype Push = Accepted(offset: int) | Rejected(reason: Rejection)

  function Fresh(version: int, compression: Compression, limit: nat, baseOffset: int): (b: BuilderState) {
    BuilderState(version, compression, limit, 0, baseOffset, None, None, [])
  }

  /** The expected size on the wire: 105 percent of what was written, or half that
      when it will be compressed. */
  function EstimatedBytes(b: BuilderState): (n: nat) {
    if b.compression.Uncompressed? then b.written * 105 / 100 else b.written * 105 / 200
  }

  predicate IsFull(b: BuilderState) {
    b.messages != [] && b.limit <= EstimatedBytes(b)
  }

  predicate HasRoomFor(b: BuilderState, r: Record) {
    b.messages == [] || b.limit >= EstimatedBytes(b) + RecordSize(b.version, r.key, r.value)
  }

  function NextOffset(b: BuilderState): (o: int) {
    if b.lastOffset.Some? then b.lastOffset.value + 1 else b.baseOffset
  }

  function PushAt(b: BuilderState, offset: int, r: Record): (p: (BuilderState, Push)) {
    if b.lastOffset.Some? && offset <= b.lastOffset.value then (b, Rejected(OutOfOrder))
    else if r.timestamp < 0 then (b, Rejected(NegativeTimestamp))
    else if !HasRoomFor(b, r) then (b, Rejected(Full))
    else
      var relative := offset - b.baseOffset;
      (b.(messages := b.messages + [Message(relative, Some(CreateTime(r.timestamp)), b.compression, r.key, r.value)],
          lastOffset := Some(offset),
          baseTimestamp := if b.baseTimestamp.None? then Some(r.timestamp) else b.baseTimestamp,
          written := b.written + RecordSize(b.version, r.key, r.value)),
       Accepted(relative))
  }

  // ----- what every push keeps -----

  /** The bytes counted are the bytes of the encoding, offsets increase from the
      base, and beyond one message an uncompressed set stays within the limit. */
  predicate Built(b: BuilderState) {
    && b.written == SetSize(b.version, b.messages)
    && (b.compression.Uncompressed? && |b.messages| > 1 ==> SetSize(b.version, b.messages) <= b.limit)
    && (b.lastOffset.None? <==> b.messages == [])
    && (b.messages != [] ==> b.messages[|b.messages| - 1].offset == b.lastOffset.value - b.baseOffset)
    && (forall i, j :: 0 <= i < j < |b.messages| ==> b.messages[i].offset < b.messages[j].offset)
    && (forall i :: 0 <= i < |b.messages| ==> Holds(b, b.messages[i]))
    && b.baseTimestamp == if b.messages == [] then None else Some(b.messages[0].timestamp.value.at)
  }

  predicate Holds(b: BuilderState, m: Message) {
    m.compression == b.compression && m.timestamp.Some? && m.timestamp.value.CreateTime? && m.timestamp.value.at >= 0
  }

  /** Relative offsets count from zero. */
  predicate Consecutive(b: BuilderState) {
    forall i :: 0 <= i < |b.messages| ==> b.messages[i].offset == i
  }

  lemma PushAtKeeps(b: BuilderState, offset: int, r: Record)
    requires Built(b)
    ensures Built(PushAt(b, offset, r).0)
  {
    var b' := PushAt(b, offset, r).0;
    if PushAt(b, offset, r).1.Accepted? {
      assert b'.messages[..|b.messages|] == b.messages;
      forall i | 0 <= i < |b'.messages| ensures Holds(b', b'.messages[i]) {
        if i < |b.messages| {
          assert Holds(b, b.messages[i]);
        }
      }
    }
  }

  lemma PushKeepsConsecutive(b: BuilderState, r: Record)
    requires Built(b) && Consecutive(b)
    ensures Consecutive(PushAt(b, NextOffset(b), r).0)
  {
  }

  /** One push: at the next offset, or at one the caller chose. */
  datatype PushOp = PushOp(at: Option<int>, record: Record)

  function PushOne(b: BuilderState, op: PushOp): (p: (BuilderState, Push)) {
    PushAt(b, if op.at.Some? then op.at.value else NextOffset(b), op.record)
  }

  function PushAll(b: BuilderState, ops: seq<PushOp>): (r: BuilderState) {
    if ops == [] then b else PushOne(PushAll(b, ops[..|ops| - 1]), ops[|ops| - 1]).0
  }

  lemma PushOneKeeps(b: BuilderState, op: PushOp)
    requires Built(b)
    ensures var r := PushOne(b, op).0;
            && Built(r) && r.version == b.version && r.limit == b.limit && r.compression == b.compression
            && (Consecutive(b) && op.at.None? ==> Consecutive(r))
  {
    PushAtKeeps(b, if op.at.Some? then op.at.value else NextOffset(b), op.record);
    if Consecutive(b) {
      PushKeepsConsecutive(b, op.record);
    }
  }

  predicate AllNext(ops: seq<PushOp>) {
    forall i :: 0 <= i < |ops| ==> ops[i].at.None?
  }

  lemma {:induction false} PushAllKeeps(b: BuilderState, ops: seq<PushOp>)
    requires Built(b) && Consecutive(b)
    ensures var r := PushAll(b, ops);
            && Built(r) && r.version == b.version && r.limit == b.limit && r.compression == b.compression
            && (AllNext(ops) ==> Consecutive(r))
  {
    if ops != [] {
      var n := |ops| - 1;
      PushAllKeeps(b, ops[..n]);
      PushOneKeeps(PushAll(b, ops[..n]), ops[n]);
      assert AllNext(ops) ==> AllNext(ops[..n]);
    }
  }

  /** After any pushes, refused ones included: the bytes counted are those that the
      encoder will write, plain pushes are numbered 0, 1, 2, and an uncompressed
      batch of more than one message fits its limit on the wire. */
  lemma BatchBound(crc: Checksum, version: int, compression: Compression, limit: nat, base: int, ops: seq<PushOp>)
    ensures var b := PushAll(Fresh(version, compression, limit, base), ops);
            && (AllEncodable(b.messages) ==> b.written == |EncodeSet(crc, version, None, b.messages, 0)|)
            && (AllNext(ops) ==> forall i :: 0 <= i < |b.messages| ==> b.messages[i].offset == i)
            && (compression.Uncompressed? && |b.messages| > 1 && AllEncodable(b.messages) ==>
                  |EncodeSet(crc, version, None, b.messages, 0)| <= limit)
  {
    var b := PushAll(Fresh(version, compression, limit, base), ops);
    PushAllKeeps(Fresh(version, compression, limit, base), ops);
    if AllEncodable(b.messages) {
      EncodedSetSize(crc, version, None, b.messages, 0);
    }
  }

  /** How much is written of a hundred bytes of estimate: all of it, or half when it
      will be compressed. */
  function Percent(b: BuilderState): (n: nat) {
    if b.compression.Uncompressed? then 100 else 200
  }

  lemma EstimateBounds(b: BuilderState, n: int)
    ensures EstimatedBytes(b) <= n <==> 105 * b.written < Percent(b) * (n + 1)
  {
  }

  /** A push at the next offset is refused exactly for a negative timestamp or for
      lack of room, that is if with the new record 105 percent of what is written, or
      half that, exceeds the limit; an empty builder has room for anything. */
  lemma PushRefused(b: BuilderState, r: Record)
    requires Built(b)
    ensures PushAt(b, NextOffset(b), r).1.Rejected? <==>
              || r.timestamp < 0
              || (b.messages != []
                  && 105 * SetSize(b.version, b.messages)
                     >= Percent(b) * (b.limit - RecordSize(b.version, r.key, r.value) + 1))
  {
    EstimateBounds(b, b.limit - RecordSize(b.version, r.key, r.value));
  }

  /** A builder is full exactly when it holds something and 105 percent of its encoded
      size, or half that, reaches the limit. */
  lemma FullExactly(b: BuilderState)
    requires Built(b)
    ensures IsFull(b) <==> b.messages != [] && 105 * SetSize(b.version, b.messages) >= Percent(b) * b.limit
  {
    EstimateBounds(b, b.limit - 1);
  }

  class MessageSetBuilder {
    const version: int
    const compression: Compression
    const limit: nat
    const baseOffset: int
    var written: nat
    var lastOffset: Option<int>
    var baseTimestamp: Option<int>
    var messages: seq<Message>

    constructor (version: int, compression: Compression, limit: nat, baseOffset: int)
      ensures State() == Fresh(version, compression, limit, baseOffset)
    {
      this.version, this.compression, this.limit, this.baseOffset := version, compression, limit, baseOffset;
      written, lastOffset, baseTimestamp, messages := 0, None, None, [];
    }

    function State(): (b: BuilderState)
      reads this
    {
      BuilderState(version, compression, limit, written, baseOffset, lastOffset, baseTimestamp, messages)
    }

    method PushWithOffset(offset: int, r: Record) returns (p: Push)
      modifies this
      ensures (State(), p) == PushAt(old(State()), offset, r)
    {
      if lastOffset.Some? {
        if offset <= lastOffset.value {
          return Rejected(OutOfOrder);
        }
      }
      if r.timestamp < 0 {
        return Rejected(NegativeTimestamp);
      }
      if !HasRoomFor(State(), r) {
        return Rejected(Full);
      }
      var size := RecordSize(version, r.key, r.value);
      var relative := offset - baseOffset;
      messages := messages + [Message(relative, Some(CreateTime(r.timestamp)), compression, r.key, r.value)];
      lastOffset := Some(offset);
      if baseTimestamp.None? {
        baseTimestamp := Some(r.timestamp);
      }
      written := written + size;
      return Accepted(relative);
    }

    method PushNext(r: Record) returns (p: Push)
      modifies this
      ensures (State(), p) == PushAt(old(State()), NextOffset(old(State())), r)
    {
      var offset := if lastOffset.Some? then lastOffset.value + 1 else baseOffset;
      p := PushWithOffset(offset, r);
    }
  }
}
