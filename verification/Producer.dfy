/** The producer: batches queued per partition, the accumulator that fills and
    drains them, and the sender that completes one thunk per record. Channels to
    the waiting callers are numbered; clocks and broker replies are parameters. */
module Producer {
  import opened Wire
  import opened Names
  import opened MessageSet
  import opened Builder
  import opened ClusterMetadata

  // ----- batches -----

  datatype Thunk = Thunk(channel: int, relativeOffset: int, timestamp: int, keySize: nat, valueSize: nat)

  datatype Batch = Batch(builder: BuilderState, thunks: seq<Thunk>, created: int, lastPush: int)

  function NewBatch(version: int, compression: Compression, limit: nat, now: int): (b: Batch) {
    Batch(Fresh(version, compression, limit, 0), [], now, now)
  }

  /** `ProducerBatch::push_record`: a record that is accepted gets a thunk. */
  function PushToBatch(b: Batch, r: Record, channel: int, now: int): (p: (Batch, bool)) {
    var (builder, push) := PushAt(b.builder, NextOffset(b.builder), r);
    if push.Rejected? then (b, false)
    else
      (Batch(builder, b.thunks + [Thunk(channel, push.offset, r.timestamp, OptLen(r.key), OptLen(r.value))],
             b.created, now), true)
  }

  /** The i-th thunk belongs to the i-th message, whose relative offset is i. */
  predicate Paired(t: Thunk, m: Message, i: int) {
    && t.relativeOffset == i && m.offset == i && t.keySize == OptLen(m.key) && t.valueSize == OptLen(m.value)
    && m.timestamp == Some(CreateTime(t.timestamp))
  }

  predicate AllPaired(ts: seq<Thunk>, ms: seq<Message>) {
    |ts| == |ms| && forall i :: 0 <= i < |ts| ==> Paired(ts[i], ms[i], i)
  }

  predicate BatchOk(b: Batch) {
    Built(b.builder) && b.builder.baseOffset == 0 && AllPaired(b.thunks, b.builder.messages)
  }

  /** An accepted record and the caller waiting for it. */
  datatype Item = Item(channel: int, record: Record)

  function ItemAt(t: Thunk, m: Message): (x: Item) {
    Item(t.channel, Record(t.timestamp, m.key, m.value))
  }

  function Items(ts: seq<Thunk>, ms: seq<Message>): (xs: seq<Item>)
    requires |ts| == |ms|
    ensures |xs| == |ts|
    ensures forall i :: 0 <= i < |xs| ==> xs[i] == ItemAt(ts[i], ms[i])
  {
    if ts == [] then [] else Items(ts[..|ts| - 1], ms[..|ms| - 1]) + [ItemAt(ts[|ts| - 1], ms[|ms| - 1])]
  }

  function Contents(b: Batch): (xs: seq<Item>) {
    if |b.thunks| == |b.builder.messages| then Items(b.thunks, b.builder.messages) else []
  }

  function Queued(q: seq<Batch>): (xs: seq<Item>) {
    if q == [] then [] else Queued(q[..|q| - 1]) + Contents(q[|q| - 1])
  }

  lemma PairedSnoc(ts: seq<Thunk>, ms: seq<Message>, t: Thunk, m: Message)
    requires AllPaired(ts, ms) && Paired(t, m, |ts|)
    ensures AllPaired(ts + [t], ms + [m])
    ensures Items(ts + [t], ms + [m]) == Items(ts, ms) + [ItemAt(t, m)]
  {
    assert (ts + [t])[..|ts|] == ts && (ms + [m])[..|ms|] == ms;
  }

  /** The next record's offset is the number of records so far. */
  lemma NextIsCount(b: Batch)
    requires BatchOk(b)
    ensures NextOffset(b.builder) == |b.thunks|
  {
    var n := |b.thunks|;
    if n > 0 {
      assert Paired(b.thunks[n - 1], b.builder.messages[n - 1], n - 1);
    }
  }

  lemma PushToBatchKeeps(b: Batch, r: Record, channel: int, now: int)
    requires BatchOk(b)
    ensures var (b', ok) := PushToBatch(b, r, channel, now);
            && BatchOk(b') && Contents(b') == Contents(b) + (if ok then [Item(channel, r)] else [])
  {
    var (b', ok) := PushToBatch(b, r, channel, now);
    if ok {
      var n := |b.thunks|;
      NextIsCount(b);
      PushAtKeeps(b.builder, n, r);
      PairedSnoc(b.thunks, b.builder.messages, b'.thunks[n], b'.builder.messages[n]);
    }
  }

  lemma NewBatchOk(version: int, compression: Compression, limit: nat, now: int)
    ensures BatchOk(NewBatch(version, compression, limit, now))
    ensures Contents(NewBatch(version, compression, limit, now)) == []
  {
  }

  /** A new batch refuses only a negative timestamp. */
  lemma NewBatchAccepts(version: int, compression: Compression, limit: nat, r: Record, channel: int, now: int)
    ensures PushToBatch(NewBatch(version, compression, limit, now), r, channel, now).1 <==> r.timestamp >= 0
  {
  }

  // ----- the accumulator -----

  datatype Accumulator = Accumulator(
    batchSize: nat, compression: Compression, linger: int, queues: map<TopicPartition, seq<Batch>>)

  function QueueOf(a: Accumulator, tp: TopicPartition): (q: seq<Batch>) {
    if tp in a.queues then a.queues[tp] else []
  }

  datatype Pushed = Pushed(accepted: bool, isFull: bool, newBatch: bool)

  /** Into the last batch if it takes the record, else into the new one. */
  function PushToQueue(q: seq<Batch>, empty: Batch, r: Record, channel: int, now: int): (p: (seq<Batch>, Pushed)) {
    if q != [] && PushToBatch(q[|q| - 1], r, channel, now).1 then
      var b := PushToBatch(q[|q| - 1], r, channel, now).0;
      (q[..|q| - 1] + [b], Pushed(true, IsFull(b.builder), false))
    else
      var (b, ok) := PushToBatch(empty, r, channel, now);
      if ok then (q + [b], Pushed(true, IsFull(b.builder), true)) else (q, Pushed(false, false, true))
  }

  /** `push_record`. A refused record still leaves a queue for its partition behind. */
  function PushRecord(a: Accumulator, tp: TopicPartition, r: Record, version: int, channel: int, now: int)
    : (p: (Accumulator, Pushed))
  {
    var (q, pushed) := PushToQueue(QueueOf(a, tp), NewBatch(version, a.compression, a.batchSize, now), r, channel, now);
    (a.(queues := a.queues[tp := q]), pushed)
  }

  function FlushedQueue(a: Accumulator, q: seq<Batch>, now: int): (r: seq<Batch>) {
    if q == [] then q else q + [NewBatch(q[|q| - 1].builder.version, a.compression, a.batchSize, now)]
  }

  /** `flush`: behind every queue that is not empty comes a new batch. */
  function Flush(a: Accumulator, now: int): (r: Accumulator) {
    a.(queues := map tp | tp in a.queues :: FlushedQueue(a, a.queues[tp], now))
  }

  /** A queue gives up its first batch when forced, or once its last is full or old. */
  predicate CanDrain(a: Accumulator, tp: TopicPartition, force: bool, now: int) {
    && tp in a.queues && a.queues[tp] != []
    && (force || var last := a.queues[tp][|a.queues[tp]| - 1]; IsFull(last.builder) || now - last.created >= a.linger)
  }

  function Drain(a: Accumulator, tp: TopicPartition): (r: (Accumulator, Batch))
    requires tp in a.queues && a.queues[tp] != []
  {
    (a.(queues := a.queues[tp := a.queues[tp][1..]]), a.queues[tp][0])
  }

  /** A queue is ready exactly when it is not empty and the drain is forced, or its last
      batch is as full as its limit allows or has existed for the linger time. */
  lemma ReadyExactly(a: Accumulator, tp: TopicPartition, force: bool, now: int)
    requires AccumulatorOk(a)
    ensures CanDrain(a, tp, force, now) <==>
              && QueueOf(a, tp) != []
              && var last := QueueOf(a, tp)[|QueueOf(a, tp)| - 1];
                 || force
                 || (last.builder.messages != []
                     && 105 * SetSize(last.builder.version, last.builder.messages)
                        >= Percent(last.builder) * last.builder.limit)
                 || last.created + a.linger <= now
  {
    if QueueOf(a, tp) != [] {
      var last := QueueOf(a, tp)[|QueueOf(a, tp)| - 1];
      assert BatchOk(last);
      FullExactly(last.builder);
    }
  }

  predicate QueueOk(q: seq<Batch>) {
    forall i :: 0 <= i < |q| ==> BatchOk(q[i])
  }

  predicate AccumulatorOk(a: Accumulator) {
    forall tp :: tp in a.queues ==> QueueOk(a.queues[tp])
  }

  lemma QueuedSnoc(q: seq<Batch>, b: Batch)
    ensures Queued(q + [b]) == Queued(q) + Contents(b)
  {
    assert (q + [b])[..|q|] == q;
  }

  lemma {:induction false} QueuedConcat(p: seq<Batch>, q: seq<Batch>)
    ensures Queued(p + q) == Queued(p) + Queued(q)
  {
    if q == [] {
      assert p + q == p;
    } else {
      var q', b := q[..|q| - 1], q[|q| - 1];
      assert (p + q)[..|p + q| - 1] == p + q';
      QueuedConcat(p, q');
      Assoc(Queued(p), Queued(q'), Contents(b));
    }
  }

  lemma SetQueue(a: Accumulator, tp: TopicPartition, q: seq<Batch>)
    requires AccumulatorOk(a) && QueueOk(q)
    ensures var a' := a.(queues := a.queues[tp := q]);
            && AccumulatorOk(a') && QueueOf(a', tp) == q
            && forall other :: other != tp ==> QueueOf(a', other) == QueueOf(a, other)
  {
  }

  lemma QueueOkParts(q: seq<Batch>, b: Batch)
    requires QueueOk(q)
    ensures BatchOk(b) ==> QueueOk(q + [b])
    ensures q != [] ==> QueueOk(q[..|q| - 1]) && BatchOk(q[0]) && QueueOk(q[1..])
  {
    if q != [] {
      assert forall i :: 0 <= i < |q[1..]| ==> q[1..][i] == q[i + 1];
    }
  }

  lemma ContentsIntoLast(q: seq<Batch>, b: Batch, xs: seq<Item>)
    requires q != [] && Contents(b) == Contents(q[|q| - 1]) + xs
    ensures Queued(q[..|q| - 1] + [b]) == Queued(q) + xs
  {
    var rest := q[..|q| - 1];
    QueuedSnoc(rest, b);
    Assoc(Queued(rest), Contents(q[|q| - 1]), xs);
  }

  lemma IntoLast(q: seq<Batch>, b: Batch, xs: seq<Item>)
    requires q != [] && QueueOk(q) && BatchOk(b) && Contents(b) == Contents(q[|q| - 1]) + xs
    ensures QueueOk(q[..|q| - 1] + [b]) && Queued(q[..|q| - 1] + [b]) == Queued(q) + xs
  {
    QueueOkParts(q, b);
    QueueOkParts(q[..|q| - 1], b);
    ContentsIntoLast(q, b, xs);
  }

  lemma IntoNew(q: seq<Batch>, b: Batch)
    requires QueueOk(q) && BatchOk(b)
    ensures QueueOk(q + [b]) && Queued(q + [b]) == Queued(q) + Contents(b)
  {
    QueueOkParts(q, b);
    QueuedSnoc(q, b);
  }

  lemma AcceptedIsDated(b: Batch, r: Record, channel: int, now: int)
    ensures PushToBatch(b, r, channel, now).1 ==> r.timestamp >= 0
  {
  }

  lemma PushToQueueKeeps(q: seq<Batch>, empty: Batch, r: Record, channel: int, now: int)
    requires QueueOk(q) && BatchOk(empty) && Contents(empty) == []
    requires PushToBatch(empty, r, channel, now).1 <==> r.timestamp >= 0
    ensures var (q', p) := PushToQueue(q, empty, r, channel, now);
            && (p.accepted <==> r.timestamp >= 0) && QueueOk(q')
            && Queued(q') == Queued(q) + (if p.accepted then [Item(channel, r)] else [])
  {
    if q != [] && PushToBatch(q[|q| - 1], r, channel, now).1 {
      AcceptedIsDated(q[|q| - 1], r, channel, now);
      PushToBatchKeeps(q[|q| - 1], r, channel, now);
      IntoLast(q, PushToBatch(q[|q| - 1], r, channel, now).0, [Item(channel, r)]);
    } else {
      PushToBatchKeeps(empty, r, channel, now);
      if r.timestamp >= 0 {
        IntoNew(q, PushToBatch(empty, r, channel, now).0);
      }
    }
  }

  /** A push adds its record behind everything queued for its partition, or, for a
      negative timestamp, adds and removes nothing; other partitions are untouched. */
  lemma PushRecordKeeps(a: Accumulator, tp: TopicPartition, r: Record, version: int, channel: int, now: int)
    requires AccumulatorOk(a)
    ensures var (a', p) := PushRecord(a, tp, r, version, channel, now);
            && AccumulatorOk(a') && (p.accepted <==> r.timestamp >= 0)
            && Queued(QueueOf(a', tp)) == Queued(QueueOf(a, tp)) + (if p.accepted then [Item(channel, r)] else [])
            && (forall other :: other != tp ==> QueueOf(a', other) == QueueOf(a, other))
  {
    var empty := NewBatch(version, a.compression, a.batchSize, now);
    NewBatchOk(version, a.compression, a.batchSize, now);
    NewBatchAccepts(version, a.compression, a.batchSize, r, channel, now);
    PushToQueueKeeps(QueueOf(a, tp), empty, r, channel, now);
    SetQueue(a, tp, PushToQueue(QueueOf(a, tp), empty, r, channel, now).0);
  }

  predicate OpenedBy(b: Batch, a: Accumulator, r: Record, version: int, channel: int, now: int) {
    && b.builder.version == version && b.builder.compression == a.compression && b.builder.limit == a.batchSize
    && b.created == now && Contents(b) == [Item(channel, r)]
  }

  predicate Extends(b: Batch, b': Batch, x: Item) {
    && b'.builder.version == b.builder.version && b'.builder.compression == b.builder.compression
    && b'.builder.limit == b.builder.limit && b'.created == b.created && Contents(b') == Contents(b) + [x]
  }

  lemma PushIntoLast(b: Batch, r: Record, channel: int, now: int)
    requires BatchOk(b)
    ensures var (b', ok) := PushToBatch(b, r, channel, now);
            && (ok <==> r.timestamp >= 0 && HasRoomFor(b.builder, r))
            && (ok ==> Extends(b, b', Item(channel, r)))
  {
    NextIsCount(b);
    PushToBatchKeeps(b, r, channel, now);
  }

  lemma PushIntoNew(a: Accumulator, r: Record, version: int, channel: int, now: int)
    ensures var (b, ok) := PushToBatch(NewBatch(version, a.compression, a.batchSize, now), r, channel, now);
            ok ==> OpenedBy(b, a, r, version, channel, now)
  {
    NewBatchOk(version, a.compression, a.batchSize, now);
    PushToBatchKeeps(NewBatch(version, a.compression, a.batchSize, now), r, channel, now);
    assert [] + [Item(channel, r)] == [Item(channel, r)];
  }

  /** An accepted record goes into the last batch, which stays what it was, or alone into
      a new one behind it, with the version given and the limits of the accumulator. A new
      batch is announced exactly when there is no last one or it refuses the record, for
      its timestamp or for lack of room; a full one exactly when the record filled it. */
  lemma PushOpens(a: Accumulator, tp: TopicPartition, r: Record, version: int, channel: int, now: int)
    requires AccumulatorOk(a)
    ensures var (a', p) := PushRecord(a, tp, r, version, channel, now);
            var q, q' := QueueOf(a, tp), QueueOf(a', tp);
            && (p.newBatch <==> q == [] || r.timestamp < 0 || !HasRoomFor(q[|q| - 1].builder, r))
            && (p.isFull <==> p.accepted && IsFull(q'[|q'| - 1].builder))
            && (p.accepted && p.newBatch ==>
                  |q'| == |q| + 1 && q'[..|q|] == q && OpenedBy(q'[|q|], a, r, version, channel, now))
            && (p.accepted && !p.newBatch ==>
                  && q != [] && |q'| == |q| && q'[..|q| - 1] == q[..|q| - 1]
                  && Extends(q[|q| - 1], q'[|q| - 1], Item(channel, r)))
            && (!p.accepted ==> q' == q)
  {
    var q := QueueOf(a, tp);
    PushIntoNew(a, r, version, channel, now);
    if q != [] {
      assert BatchOk(q[|q| - 1]);
      PushIntoLast(q[|q| - 1], r, channel, now);
    }
  }

  /** Behind a queue that is not empty comes an empty batch, with the version of the last
      and the limits of the accumulator. */
  predicate FlushedBehind(q: seq<Batch>, q': seq<Batch>, a: Accumulator, now: int) {
    if q == [] then q' == []
    else
      && |q'| == |q| + 1 && q'[..|q|] == q
      && var b := q'[|q|];
         && b.builder.version == q[|q| - 1].builder.version && b.builder.compression == a.compression
         && b.builder.limit == a.batchSize && b.created == now && Contents(b) == []
  }

  /** A flush moves no record, and lets later ones go into new batches. */
  lemma FlushKeeps(a: Accumulator, now: int)
    requires AccumulatorOk(a)
    ensures AccumulatorOk(Flush(a, now))
    ensures forall tp :: Queued(QueueOf(Flush(a, now), tp)) == Queued(QueueOf(a, tp))
    ensures forall tp :: FlushedBehind(QueueOf(a, tp), QueueOf(Flush(a, now), tp), a, now)
  {
    forall tp ensures Queued(QueueOf(Flush(a, now), tp)) == Queued(QueueOf(a, tp)) {
      if tp in a.queues && a.queues[tp] != [] {
        var q := a.queues[tp];
        var b := NewBatch(q[|q| - 1].builder.version, a.compression, a.batchSize, now);
        QueuedSnoc(q, b);
      }
    }
    forall tp | tp in Flush(a, now).queues ensures QueueOk(Flush(a, now).queues[tp]) {
      var q := a.queues[tp];
      if q != [] {
        NewBatchOk(q[|q| - 1].builder.version, a.compression, a.batchSize, now);
      }
    }
  }

  lemma QueuedCons(b: Batch, q: seq<Batch>)
    ensures Queued([b] + q) == Contents(b) + Queued(q)
  {
    QueuedConcat([b], q);
    assert Queued([b]) == Contents(b) by {
      assert [b][..0] == [];
    }
  }

  lemma DrainKeeps(a: Accumulator, tp: TopicPartition)
    requires AccumulatorOk(a) && tp in a.queues && a.queues[tp] != []
    ensures var (a', b) := Drain(a, tp);
            && AccumulatorOk(a') && BatchOk(b)
            && Queued(QueueOf(a, tp)) == Contents(b) + Queued(QueueOf(a', tp))
            && (forall other :: other != tp ==> QueueOf(a', other) == QueueOf(a, other))
  {
    var q := a.queues[tp];
    QueueOkParts(q, q[0]);
    SetQueue(a, tp, q[1..]);
    HeadFirst(q);
  }

  lemma HeadFirst(q: seq<Batch>)
    requires q != []
    ensures Queued(q) == Contents(q[0]) + Queued(q[1..])
  {
    assert [q[0]] + q[1..] == q;
    QueuedCons(q[0], q[1..]);
  }

  // ----- runs of the accumulator -----

  /** The accumulator with what was drained from it and accepted into it so far. */
  datatype System = System(
    acc: Accumulator, drained: map<TopicPartition, seq<Batch>>, accepted: map<TopicPartition, seq<Item>>)

  function DrainedOf(s: System, tp: TopicPartition): (q: seq<Batch>) {
    if tp in s.drained then s.drained[tp] else []
  }

  function AcceptedOf(s: System, tp: TopicPartition): (xs: seq<Item>) {
    if tp in s.accepted then s.accepted[tp] else []
  }

  datatype Step =
    | PushStep(tp: TopicPartition, r: Record, version: int, channel: int, now: int)
    | FlushStep(now: int)
    | DrainStep(tp: TopicPartition, force: bool, now: int)

  predicate Enabled(s: System, step: Step) {
    step.DrainStep? ==> CanDrain(s.acc, step.tp, step.force, step.now)
  }

  function AfterPush(s: System, acc: Accumulator, tp: TopicPartition, xs: seq<Item>): (s': System) {
    s.(acc := acc, accepted := s.accepted[tp := AcceptedOf(s, tp) + xs])
  }

  function AfterDrain(s: System, acc: Accumulator, tp: TopicPartition, b: Batch): (s': System) {
    s.(acc := acc, drained := s.drained[tp := DrainedOf(s, tp) + [b]])
  }

  function Apply(s: System, step: Step): (s': System)
    requires Enabled(s, step)
  {
    match step
    case PushStep(tp, r, version, channel, now) =>
      var (acc, p) := PushRecord(s.acc, tp, r, version, channel, now);
      AfterPush(s, acc, tp, if p.accepted then [Item(channel, r)] else [])
    case FlushStep(now) => s.(acc := Flush(s.acc, now))
    case DrainStep(tp, force, now) =>
      var (acc, b) := Drain(s.acc, tp);
      AfterDrain(s, acc, tp, b)
  }

  predicate Next(s: System, s': System, step: Step) {
    Enabled(s, step) && s' == Apply(s, step)
  }

  predicate IsRun(run: seq<System>, steps: seq<Step>) {
    && |run| == |steps| + 1
    && run[0].acc.queues == map[] && run[0].drained == map[] && run[0].accepted == map[]
    && forall i :: 0 <= i < |steps| ==> Next(run[i], run[i + 1], steps[i])
  }

  /** Drained batches followed by queued ones hold exactly the accepted records,
      in the order of their acceptance. */
  predicate Conserved(s: System, tp: TopicPartition) {
    Queued(DrainedOf(s, tp)) + Queued(QueueOf(s.acc, tp)) == AcceptedOf(s, tp)
  }

  ghost predicate Inv(s: System) {
    && AccumulatorOk(s.acc)
    && (forall tp :: Conserved(s, tp))
    && (forall tp :: tp in s.drained ==> QueueOk(s.drained[tp]))
  }

  lemma ConservedAfterPush(s: System, s': System, tp: TopicPartition, xs: seq<Item>)
    requires Conserved(s, tp) && DrainedOf(s', tp) == DrainedOf(s, tp)
    requires Queued(QueueOf(s'.acc, tp)) == Queued(QueueOf(s.acc, tp)) + xs
    requires AcceptedOf(s', tp) == AcceptedOf(s, tp) + xs
    ensures Conserved(s', tp)
  {
    Assoc(Queued(DrainedOf(s, tp)), Queued(QueueOf(s.acc, tp)), xs);
  }

  lemma ConservedAfterDrain(s: System, s': System, tp: TopicPartition, b: Batch)
    requires Conserved(s, tp) && DrainedOf(s', tp) == DrainedOf(s, tp) + [b]
    requires Queued(QueueOf(s.acc, tp)) == Contents(b) + Queued(QueueOf(s'.acc, tp))
    requires AcceptedOf(s', tp) == AcceptedOf(s, tp)
    ensures Conserved(s', tp)
  {
    QueuedSnoc(DrainedOf(s, tp), b);
    Assoc(Queued(DrainedOf(s, tp)), Contents(b), Queued(QueueOf(s'.acc, tp)));
  }

  lemma ConservedElsewhere(s: System, s': System, tp: TopicPartition)
    requires Conserved(s, tp) && DrainedOf(s', tp) == DrainedOf(s, tp) && AcceptedOf(s', tp) == AcceptedOf(s, tp)
    requires QueueOf(s'.acc, tp) == QueueOf(s.acc, tp)
    ensures Conserved(s', tp)
  {
  }

  lemma PushConserves(s: System, acc: Accumulator, tp: TopicPartition, xs: seq<Item>)
    requires Inv(s) && AccumulatorOk(acc)
    requires Queued(QueueOf(acc, tp)) == Queued(QueueOf(s.acc, tp)) + xs
    requires forall other :: other != tp ==> QueueOf(acc, other) == QueueOf(s.acc, other)
    ensures Inv(AfterPush(s, acc, tp, xs))
  {
    var s' := AfterPush(s, acc, tp, xs);
    forall other ensures Conserved(s', other) {
      assert Conserved(s, other);
      if other == tp {
        ConservedAfterPush(s, s', tp, xs);
      } else {
        ConservedElsewhere(s, s', other);
      }
    }
  }

  lemma PushStepKeeps(s: System, tp: TopicPartition, r: Record, version: int, channel: int, now: int)
    requires Inv(s)
    ensures Inv(Apply(s, PushStep(tp, r, version, channel, now)))
  {
    var (acc, p) := PushRecord(s.acc, tp, r, version, channel, now);
    PushRecordKeeps(s.acc, tp, r, version, channel, now);
    PushConserves(s, acc, tp, if p.accepted then [Item(channel, r)] else []);
  }

  lemma DrainConserves(s: System, acc: Accumulator, tp: TopicPartition, b: Batch)
    requires Inv(s) && AccumulatorOk(acc) && BatchOk(b)
    requires Queued(QueueOf(s.acc, tp)) == Contents(b) + Queued(QueueOf(acc, tp))
    requires forall other :: other != tp ==> QueueOf(acc, other) == QueueOf(s.acc, other)
    ensures Inv(AfterDrain(s, acc, tp, b))
  {
    var s' := AfterDrain(s, acc, tp, b);
    QueueOkParts(DrainedOf(s, tp), b);
    forall other ensures Conserved(s', other) {
      assert Conserved(s, other);
      if other == tp {
        ConservedAfterDrain(s, s', tp, b);
      } else {
        ConservedElsewhere(s, s', other);
      }
    }
  }

  lemma DrainStepKeeps(s: System, tp: TopicPartition, force: bool, now: int)
    requires Inv(s) && Enabled(s, DrainStep(tp, force, now))
    ensures Inv(Apply(s, DrainStep(tp, force, now)))
  {
    var (acc, b) := Drain(s.acc, tp);
    DrainKeeps(s.acc, tp);
    DrainConserves(s, acc, tp, b);
  }

  lemma FlushStepKeeps(s: System, now: int)
    requires Inv(s)
    ensures Inv(Apply(s, FlushStep(now)))
  {
    var s' := Apply(s, FlushStep(now));
    FlushKeeps(s.acc, now);
    forall tp ensures Conserved(s', tp) {
      assert Conserved(s, tp);
    }
  }

  lemma {:induction false} RunInv(run: seq<System>, steps: seq<Step>, i: nat)
    requires IsRun(run, steps) && i < |run|
    ensures Inv(run[i])
  {
    if i > 0 {
      RunInv(run, steps, i - 1);
      assert Next(run[i - 1], run[i], steps[i - 1]);
      match steps[i - 1]
      case PushStep(tp, r, version, channel, now) => PushStepKeeps(run[i - 1], tp, r, version, channel, now);
      case FlushStep(now) => FlushStepKeeps(run[i - 1], now);
      case DrainStep(tp, force, now) => DrainStepKeeps(run[i - 1], tp, force, now);
    }
  }

  /** For any interleaving of pushes, flushes and drains, each partition's drained
      batches followed by its queued ones hold exactly the accepted records in
      acceptance order, and every batch pairs its i-th record with offset i. */
  lemma ProducerConservation(run: seq<System>, steps: seq<Step>, i: nat, tp: TopicPartition)
    requires IsRun(run, steps) && i < |run|
    ensures Queued(DrainedOf(run[i], tp)) + Queued(QueueOf(run[i].acc, tp)) == AcceptedOf(run[i], tp)
    ensures QueueOk(DrainedOf(run[i], tp)) && QueueOk(QueueOf(run[i].acc, tp))
  {
    RunInv(run, steps, i);
    assert Conserved(run[i], tp);
  }

  /** A push is refused exactly for a negative timestamp, and then leaves every
      partition's records as they were. */
  lemma RejectedPush(run: seq<System>, steps: seq<Step>, i: nat, tp: TopicPartition)
    requires IsRun(run, steps) && i < |steps| && steps[i].PushStep?
    ensures steps[i].r.timestamp < 0 ==>
              AcceptedOf(run[i + 1], tp) == AcceptedOf(run[i], tp)
              && Queued(QueueOf(run[i + 1].acc, tp)) == Queued(QueueOf(run[i].acc, tp))
    ensures steps[i].r.timestamp >= 0 && tp == steps[i].tp ==>
              AcceptedOf(run[i + 1], tp) == AcceptedOf(run[i], tp) + [Item(steps[i].channel, steps[i].r)]
  {
    RunInv(run, steps, i);
    assert Next(run[i], run[i + 1], steps[i]);
    var st := steps[i];
    PushRecordKeeps(run[i].acc, st.tp, st.r, st.version, st.channel, st.now);
  }

  // ----- what batches are made with -----

  /** How batches are to be made: the settings, and the versions to choose from. */
  datatype Settings = Settings(compression: Compression, limit: nat, versions: set<int>)

  predicate Suits(b: Batch, x: Settings) {
    b.builder.compression == x.compression && b.builder.limit == x.limit && b.builder.version in x.versions
  }

  predicate AllSuit(q: seq<Batch>, x: Settings) {
    forall i :: 0 <= i < |q| ==> Suits(q[i], x)
  }

  lemma SuitSnoc(q: seq<Batch>, b: Batch, x: Settings, y: Settings)
    requires AllSuit(q, x) && x.compression == y.compression && x.limit == y.limit && x.versions <= y.versions
    ensures AllSuit(q, y) && (Suits(b, y) ==> AllSuit(q + [b], y))
  {
    forall i | 0 <= i < |q|
      ensures Suits(q[i], y)
    {
      assert Suits(q[i], x);
    }
  }

  /** The versions given with the pushes for a partition. */
  function VersionsFor(steps: seq<Step>, tp: TopicPartition): (vs: set<int>) {
    if steps == [] then {} else VersionsFor(steps[..|steps| - 1], tp) + VersionOf(steps[|steps| - 1], tp)
  }

  function VersionOf(step: Step, tp: TopicPartition): (vs: set<int>) {
    if step.PushStep? && step.tp == tp then {step.version} else {}
  }

  lemma PushSuits(a: Accumulator, st: Step, x: Settings, y: Settings)
    requires AccumulatorOk(a) && st.PushStep? && AllSuit(QueueOf(a, st.tp), x)
    requires x.compression == a.compression && x.limit == a.batchSize
    requires y == x.(versions := x.versions + {st.version})
    ensures AllSuit(QueueOf(PushRecord(a, st.tp, st.r, st.version, st.channel, st.now).0, st.tp), y)
  {
    var (a', p) := PushRecord(a, st.tp, st.r, st.version, st.channel, st.now);
    var q, q' := QueueOf(a, st.tp), QueueOf(a', st.tp);
    PushOpens(a, st.tp, st.r, st.version, st.channel, st.now);
    if !p.accepted {
      SuitSnoc(q, NewBatch(0, a.compression, 0, 0), x, y);
    } else if p.newBatch {
      assert q' == q + [q'[|q|]];
      SuitSnoc(q, q'[|q|], x, y);
    } else {
      var n := |q| - 1;
      assert Suits(q[n], x);
      assert q' == q[..n] + [q'[n]];
      SuitSnoc(q[..n], q'[n], x, y);
    }
  }

  lemma FlushSuits(a: Accumulator, now: int, tp: TopicPartition, x: Settings)
    requires AccumulatorOk(a) && AllSuit(QueueOf(a, tp), x)
    requires x.compression == a.compression && x.limit == a.batchSize
    ensures AllSuit(QueueOf(Flush(a, now), tp), x)
  {
    FlushKeeps(a, now);
    var q, q' := QueueOf(a, tp), QueueOf(Flush(a, now), tp);
    assert FlushedBehind(q, q', a, now);
    if q != [] {
      assert Suits(q[|q| - 1], x);
      assert q' == q + [q'[|q|]];
      SuitSnoc(q, q'[|q|], x, x);
    }
  }

  /** All batches of the partition, queued and drained, are made so. */
  predicate SystemSuits(s: System, tp: TopicPartition, x: Settings) {
    && s.acc.compression == x.compression && s.acc.batchSize == x.limit
    && AllSuit(QueueOf(s.acc, tp), x) && AllSuit(DrainedOf(s, tp), x)
  }

  lemma StepSuits(s: System, st: Step, tp: TopicPartition, x: Settings, y: Settings)
    requires Inv(s) && Enabled(s, st) && SystemSuits(s, tp, x)
    requires y == x.(versions := x.versions + VersionOf(st, tp))
    ensures SystemSuits(Apply(s, st), tp, y)
  {
    SuitSnoc(QueueOf(s.acc, tp), NewBatch(0, x.compression, 0, 0), x, y);
    SuitSnoc(DrainedOf(s, tp), NewBatch(0, x.compression, 0, 0), x, y);
    match st
    case PushStep(t, r, version, channel, now) =>
      if t == tp {
        PushSuits(s.acc, st, x, y);
      }
    case FlushStep(now) => FlushSuits(s.acc, now, tp, y);
    case DrainStep(t, _, _) =>
      if t == tp {
        DrainSuits(s, tp, y);
      }
  }

  lemma DrainSuits(s: System, tp: TopicPartition, x: Settings)
    requires tp in s.acc.queues && s.acc.queues[tp] != []
    requires AllSuit(QueueOf(s.acc, tp), x) && AllSuit(DrainedOf(s, tp), x)
    ensures var (acc, b) := Drain(s.acc, tp);
            AllSuit(QueueOf(acc, tp), x) && AllSuit(DrainedOf(s, tp) + [b], x)
  {
    var q := s.acc.queues[tp];
    assert Suits(q[0], x);
    assert forall i :: 0 <= i < |q[1..]| ==> q[1..][i] == q[i + 1];
    SuitSnoc(DrainedOf(s, tp), q[0], x, x);
  }

  /** In every run each batch of a partition, queued or drained, has the compression and
      the limit of the accumulator, and a version that was given with a push for it. */
  lemma {:induction false} BatchSettings(run: seq<System>, steps: seq<Step>, i: nat, tp: TopicPartition)
    requires IsRun(run, steps) && i < |run|
    ensures SystemSuits(run[i], tp,
                        Settings(run[0].acc.compression, run[0].acc.batchSize, VersionsFor(steps[..i], tp)))
  {
    if i > 0 {
      BatchSettings(run, steps, i - 1, tp);
      RunInv(run, steps, i - 1);
      assert Next(run[i - 1], run[i], steps[i - 1]);
      assert steps[..i][..i - 1] == steps[..i - 1];
      var x := Settings(run[0].acc.compression, run[0].acc.batchSize, VersionsFor(steps[..i - 1], tp));
      StepSuits(run[i - 1], steps[i - 1], tp, x, x.(versions := x.versions + VersionOf(steps[i - 1], tp)));
    }
  }

  // ----- on the wire -----

  /** What the k-th message of a batch reads as: the record, numbered k. */
  function ReadBack(version: int, r: Record, k: int): (m: Message) {
    Message(k, if version > 0 then Some(CreateTime(r.timestamp)) else None, Uncompressed, r.key, r.value)
  }

  /** An uncompressed batch the encoder accepts, with 64-bit numbers. */
  predicate PlainBatch(b: Batch) {
    && b.builder.compression.Uncompressed? && AllEncodable(b.builder.messages)
    && |b.builder.messages| <= I64_MAX && forall t :: t in b.thunks ==> IsI64(t.timestamp)
  }

  lemma BatchSendable(b: Batch)
    requires BatchOk(b) && PlainBatch(b)
    ensures Plain(None, b.builder.messages)
  {
    var ms := b.builder.messages;
    forall i | 0 <= i < |ms|
      ensures Sendable(ms[i]) && Codec(None, ms[i]).Uncompressed?
    {
      assert Paired(b.thunks[i], ms[i], i) && Holds(b.builder, ms[i]) && b.thunks[i] in b.thunks;
    }
  }

  lemma BatchReadBack(b: Batch, k: nat)
    requires BatchOk(b) && b.builder.compression.Uncompressed? && k < |b.thunks|
    ensures Recovered(b.builder.version, b.builder.messages[k]) == ReadBack(b.builder.version, Contents(b)[k].record, k)
  {
    assert Paired(b.thunks[k], b.builder.messages[k], k);
  }

  lemma DrainedSlice(q: seq<Batch>, n: nat)
    requires n < |q|
    ensures Queued(q) == Queued(q[..n]) + (Contents(q[n]) + Queued(q[n + 1..]))
  {
    assert q == q[..n] + q[n..];
    QueuedConcat(q[..n], q[n..]);
    HeadFirst(q[n..]);
    assert q[n..][1..] == q[n + 1..];
  }

  /** The part is what xs holds from start on. */
  predicate StandsAt(part: seq<Item>, xs: seq<Item>, start: nat) {
    start + |part| <= |xs| && forall k :: 0 <= k < |part| ==> part[k] == xs[start + k]
  }

  lemma MiddlePart(a: seq<Item>, b: seq<Item>, c: seq<Item>, d: seq<Item>)
    ensures StandsAt(b, a + (b + c) + d, |a|)
  {
  }

  lemma PlaceInQueue(q: seq<Batch>, behind: seq<Item>, n: nat)
    requires QueueOk(q) && n < |q|
    ensures BatchOk(q[n]) && StandsAt(Contents(q[n]), Queued(q) + behind, |Queued(q[..n])|)
  {
    assert BatchOk(q[n]);
    DrainedSlice(q, n);
    MiddlePart(Queued(q[..n]), Contents(q[n]), Queued(q[n + 1..]), behind);
  }

  /** The records of the n-th drained batch are accepted ones, in order. */
  lemma DrainedWereAccepted(run: seq<System>, steps: seq<Step>, i: nat, tp: TopicPartition, n: nat)
    requires IsRun(run, steps) && i < |run| && n < |DrainedOf(run[i], tp)|
    ensures var q := DrainedOf(run[i], tp);
            BatchOk(q[n]) && StandsAt(Contents(q[n]), AcceptedOf(run[i], tp), |Queued(q[..n])|)
  {
    ProducerConservation(run, steps, i, tp);
    PlaceInQueue(DrainedOf(run[i], tp), Queued(QueueOf(run[i].acc, tp)), n);
  }

  /** The parsed set is exactly the accepted records xs from start on that went into
      the batch, in order, at offsets 0 to n - 1. */
  predicate ReadAsAccepted(r: Parsed<seq<Message>>, b: Batch, xs: seq<Item>, start: nat) {
    && r.Done? && r.rest == [] && |r.value| == |b.thunks| && start + |r.value| <= |xs|
    && forall k :: 0 <= k < |r.value| ==> r.value[k] == ReadBack(b.builder.version, xs[start + k].record, k)
  }

  lemma ReadAsRecovered(r: Parsed<seq<Message>>, b: Batch, xs: seq<Item>, start: nat)
    requires BatchOk(b) && b.builder.compression.Uncompressed? && StandsAt(Contents(b), xs, start)
    ensures ReadAsAccepted(r, b, xs, start) <==>
              r == Done([], RecoveredAll(b.builder.version, b.builder.messages))
  {
    var all := RecoveredAll(b.builder.version, b.builder.messages);
    forall k | 0 <= k < |b.thunks|
      ensures all[k] == ReadBack(b.builder.version, xs[start + k].record, k)
    {
      BatchReadBack(b, k);
    }
    if ReadAsAccepted(r, b, xs, start) {
      assert r.value == all;
    }
  }

  /** What a reader makes of the batch's message set. */
  function ReadOnWire(crc: Checksum, unpack: Unpacker, b: Batch): (r: Parsed<seq<Message>>)
    requires PlainBatch(b)
  {
    ParseSet(crc, unpack, EncodeSet(crc, b.builder.version, None, b.builder.messages, 0))
  }

  predicate AllSizesHold(crc: Checksum, b: Batch) {
    || b.builder.messages == []
    || (LayoutAgrees(b.builder.version) && AllReadable(crc, b.builder.version, None, b.builder.messages))
  }

  lemma BatchArrives(b: Batch, xs: seq<Item>, start: nat, crc: Checksum, unpack: Unpacker)
    requires BatchOk(b) && PlainBatch(b) && StandsAt(Contents(b), xs, start)
    ensures ReadAsAccepted(ReadOnWire(crc, unpack, b), b, xs, start) <==> AllSizesHold(crc, b)
  {
    BatchSendable(b);
    MessageSetRoundTrip(crc, unpack, b.builder.version, None, b.builder.messages, 0);
    ReadAsRecovered(ReadOnWire(crc, unpack, b), b, xs, start);
  }

  lemma QueueArrives(q: seq<Batch>, behind: seq<Item>, n: nat, crc: Checksum, unpack: Unpacker)
    requires QueueOk(q) && n < |q| && PlainBatch(q[n])
    ensures ReadAsAccepted(ReadOnWire(crc, unpack, q[n]), q[n], Queued(q) + behind, |Queued(q[..n])|) <==>
              AllSizesHold(crc, q[n])
  {
    PlaceInQueue(q, behind, n);
    BatchArrives(q[n], Queued(q) + behind, |Queued(q[..n])|, crc, unpack);
  }

  /** From end to end: for any run and any uncompressed batch it drained that can be
      encoded, a reader of the encoded message set recovers exactly the accepted
      records that went into the batch, in order, at offsets 0 to n - 1, if and only if
      the batch is empty or the layout agrees and every size field holds. */
  lemma AcceptedArrive(run: seq<System>, steps: seq<Step>, i: nat, tp: TopicPartition, n: nat,
                       crc: Checksum, unpack: Unpacker)
    requires IsRun(run, steps) && i < |run| && n < |DrainedOf(run[i], tp)|
    requires PlainBatch(DrainedOf(run[i], tp)[n])
    ensures var q := DrainedOf(run[i], tp);
            ReadAsAccepted(ReadOnWire(crc, unpack, q[n]), q[n], AcceptedOf(run[i], tp), |Queued(q[..n])|) <==>
              AllSizesHold(crc, q[n])
  {
    ProducerConservation(run, steps, i, tp);
    QueueArrives(DrainedOf(run[i], tp), Queued(QueueOf(run[i].acc, tp)), n, crc, unpack);
  }

  // ----- sending -----

  datatype PartitionReply = PartitionReply(partition: int, baseOffset: int, errorCode: int)

  /** What became of one attempt to send: it failed, or the broker answered for
      some topics and partitions. */
  datatype Reply = Failed(reason: int) | Answered(topics: map<Name, seq<PartitionReply>>)

  datatype Outcome =
    | Delivered(tp: TopicPartition, offset: int, timestamp: int, keySize: nat, valueSize: nat)
    | Refused(errorCode: int)
    | Unsent(reason: int)

  datatype Completion = Completion(channel: int, outcome: Outcome)

  function FindReply(ps: seq<PartitionReply>, id: int): (r: Option<PartitionReply>)
    ensures r.Some? <==> exists i :: 0 <= i < |ps| && ps[i].partition == id
    ensures r.Some? ==> r.value in ps && r.value.partition == id
  {
    if ps == [] then None else if ps[0].partition == id then Some(ps[0]) else FindReply(ps[1..], id)
  }

  /** The part of a reply that concerns this batch, if any. */
  function Verdict(tp: TopicPartition, reply: Reply): (v: Option<Reply>)
    ensures v.Some? && v.value.Answered? ==>
              tp.topic in v.value.topics && |v.value.topics[tp.topic]| == 1
              && v.value.topics[tp.topic][0].partition == tp.partition
  {
    match reply
    case Failed(_) => Some(reply)
    case Answered(topics) =>
      if tp.topic !in topics then None
      else
        var found := FindReply(topics[tp.topic], tp.partition);
        if found.None? then None else Some(Answered(map[tp.topic := [found.value]]))
  }

  /** The i-th entry of the answer is the first for this partition. */
  predicate NamesAt(reply: Reply, tp: TopicPartition, i: nat) {
    && reply.Answered? && tp.topic in reply.topics && i < |reply.topics[tp.topic]|
    && reply.topics[tp.topic][i].partition == tp.partition
    && forall j :: 0 <= j < i ==> reply.topics[tp.topic][j].partition != tp.partition
  }

  /** The attempt failed, or the broker answered for this partition. */
  predicate Decides(reply: Reply, tp: TopicPartition) {
    || reply.Failed?
    || (tp.topic in reply.topics
        && exists i :: 0 <= i < |reply.topics[tp.topic]| && reply.topics[tp.topic][i].partition == tp.partition)
  }

  lemma {:induction false} FindsFirst(ps: seq<PartitionReply>, id: int, i: nat)
    requires i < |ps| && ps[i].partition == id && forall j :: 0 <= j < i ==> ps[j].partition != id
    ensures FindReply(ps, id) == Some(ps[i])
  {
    if i > 0 {
      assert ps[0].partition != id;
      FindsFirst(ps[1..], id, i - 1);
    }
  }

  /** There is a verdict exactly when the reply decides: the failure itself, or the first
      entry for the partition. */
  lemma VerdictIs(tp: TopicPartition, reply: Reply)
    ensures Verdict(tp, reply).Some? <==> Decides(reply, tp)
    ensures reply.Failed? ==> Verdict(tp, reply) == Some(reply)
    ensures forall i: nat :: NamesAt(reply, tp, i) ==>
                          Verdict(tp, reply) == Some(Answered(map[tp.topic := [reply.topics[tp.topic][i]]]))
  {
    forall i: nat | NamesAt(reply, tp, i)
      ensures Verdict(tp, reply) == Some(Answered(map[tp.topic := [reply.topics[tp.topic][i]]]))
    {
      FindsFirst(reply.topics[tp.topic], tp.partition, i);
    }
  }

  /** `Thunk::done` and `Thunk::fail`. */
  function Resolve(t: Thunk, tp: TopicPartition, v: Reply): (c: Completion)
    requires v.Answered? ==> tp.topic in v.topics && v.topics[tp.topic] != []
  {
    Completion(t.channel,
               match v
               case Failed(reason) => Unsent(reason)
               case Answered(topics) =>
                 var p := topics[tp.topic][0];
                 if p.errorCode == 0 then
                   Delivered(TopicPartition(tp.topic, p.partition), p.baseOffset + t.relativeOffset,
                             t.timestamp, t.keySize, t.valueSize)
                 else Refused(p.errorCode))
  }

  function ResolveAll(ts: seq<Thunk>, tp: TopicPartition, v: Reply): (cs: seq<Completion>)
    requires v.Answered? ==> tp.topic in v.topics && v.topics[tp.topic] != []
    ensures |cs| == |ts| && forall i :: 0 <= i < |ts| ==> cs[i] == Resolve(ts[i], tp, v)
  {
    if ts == [] then [] else ResolveAll(ts[..|ts| - 1], tp, v) + [Resolve(ts[|ts| - 1], tp, v)]
  }

  /** The sender's shared thunks, taken once, and what it told the callers. */
  datatype SenderState = SenderState(tp: TopicPartition, thunks: Option<seq<Thunk>>, completions: seq<Completion>)

  function Attempt(s: SenderState, reply: Reply): (s': SenderState) {
    var v := Verdict(s.tp, reply);
    if v.None? || s.thunks.None? then s
    else s.(thunks := None, completions := s.completions + ResolveAll(s.thunks.value, s.tp, v.value))
  }

  function Attempts(s: SenderState, replies: seq<Reply>): (s': SenderState)
    decreases |replies|
  {
    if replies == [] then s else Attempts(Attempt(s, replies[0]), replies[1..])
  }

  /** The first attempt that has a verdict for the batch. */
  function FirstVerdict(tp: TopicPartition, replies: seq<Reply>): (v: Option<Reply>)
    ensures v.Some? && v.value.Answered? ==>
              tp.topic in v.value.topics && |v.value.topics[tp.topic]| == 1
              && v.value.topics[tp.topic][0].partition == tp.partition
    ensures v.None? <==> forall i :: 0 <= i < |replies| ==> Verdict(tp, replies[i]).None?
  {
    if replies == [] then None
    else if Verdict(tp, replies[0]).Some? then Verdict(tp, replies[0])
    else FirstVerdict(tp, replies[1..])
  }

  lemma {:induction false} TakenStaysTaken(s: SenderState, replies: seq<Reply>)
    requires s.thunks.None?
    ensures Attempts(s, replies) == s
  {
    if replies != [] {
      TakenStaysTaken(s, replies[1..]);
    }
  }

  /** Across any number of attempts the thunks are completed by the first one with
      a verdict, all of them, once, in order; without one, none is. */
  lemma {:induction false} CompletedOnce(tp: TopicPartition, ts: seq<Thunk>, replies: seq<Reply>)
    ensures var s := Attempts(SenderState(tp, Some(ts), []), replies);
            var v := FirstVerdict(tp, replies);
            if v.None? then s == SenderState(tp, Some(ts), [])
            else s == SenderState(tp, None, ResolveAll(ts, tp, v.value))
  {
    if replies != [] {
      var s := SenderState(tp, Some(ts), []);
      if Verdict(tp, replies[0]).Some? {
        TakenStaysTaken(Attempt(s, replies[0]), replies[1..]);
      } else {
        CompletedOnce(tp, ts, replies[1..]);
      }
    }
  }

  lemma BatchVerdict(b: Batch, tp: TopicPartition, v: Reply)
    requires BatchOk(b)
    requires v.Answered? ==>
               tp.topic in v.topics && |v.topics[tp.topic]| == 1 && v.topics[tp.topic][0].partition == tp.partition
    ensures var cs := ResolveAll(b.thunks, tp, v);
            && |cs| == |Contents(b)|
            && (forall k :: 0 <= k < |cs| ==>
                  cs[k] == Completion(
                             Contents(b)[k].channel,
                             match v
                             case Failed(reason) => Unsent(reason)
                             case Answered(topics) =>
                               if topics[tp.topic][0].errorCode != 0 then Refused(topics[tp.topic][0].errorCode)
                               else
                                 var r := Contents(b)[k].record;
                                 Delivered(tp, topics[tp.topic][0].baseOffset + b.builder.messages[k].offset,
                                           r.timestamp, OptLen(r.key), OptLen(r.value)))
                  && b.builder.messages[k].offset == k)
  {
    var cs := ResolveAll(b.thunks, tp, v);
    forall k | 0 <= k < |cs| ensures Paired(b.thunks[k], b.builder.messages[k], k) {
    }
  }

  /** The first attempt that decides. */
  predicate FirstDecision(replies: seq<Reply>, tp: TopicPartition, j: nat) {
    j < |replies| && Decides(replies[j], tp) && forall n :: 0 <= n < j ==> !Decides(replies[n], tp)
  }

  lemma {:induction false} FirstVerdictIs(tp: TopicPartition, replies: seq<Reply>, j: nat)
    requires FirstDecision(replies, tp, j)
    ensures FirstVerdict(tp, replies) == Verdict(tp, replies[j]) && Verdict(tp, replies[j]).Some?
  {
    VerdictIs(tp, replies[0]);
    if j > 0 {
      assert !Decides(replies[0], tp);
      FirstVerdictIs(tp, replies[1..], j - 1);
    }
  }

  lemma NoVerdict(tp: TopicPartition, replies: seq<Reply>)
    requires forall j :: 0 <= j < |replies| ==> !Decides(replies[j], tp)
    ensures FirstVerdict(tp, replies).None?
  {
    forall j | 0 <= j < |replies|
      ensures Verdict(tp, replies[j]).None?
    {
      VerdictIs(tp, replies[j]);
    }
  }

  /** What the k-th record of a batch is to be told of a deciding reply: the failure, the
      error code of the first entry for its partition, or its offset behind the base. */
  ghost predicate Tells(o: Outcome, x: Item, k: int, tp: TopicPartition, reply: Reply) {
    if reply.Failed? then o == Unsent(reply.reason)
    else
      forall i: nat :: NamesAt(reply, tp, i) ==>
        var p := reply.topics[tp.topic][i];
        if p.errorCode != 0 then o == Refused(p.errorCode)
        else o == Delivered(tp, p.baseOffset + k, x.record.timestamp, OptLen(x.record.key), OptLen(x.record.value))
  }

  lemma TellsVerdict(b: Batch, tp: TopicPartition, reply: Reply, k: nat)
    requires BatchOk(b) && k < |b.thunks| && Decides(reply, tp) && Verdict(tp, reply).Some?
    ensures var c := ResolveAll(b.thunks, tp, Verdict(tp, reply).value)[k];
            && c.channel == Contents(b)[k].channel && b.builder.messages[k].offset == k
            && Tells(c.outcome, Contents(b)[k], k, tp, reply)
  {
    VerdictIs(tp, reply);
    assert Paired(b.thunks[k], b.builder.messages[k], k);
  }

  lemma SendsOfBatch(b: Batch, tp: TopicPartition, replies: seq<Reply>, j: nat)
    requires BatchOk(b) && FirstDecision(replies, tp, j)
    ensures var cs := Attempts(SenderState(tp, Some(b.thunks), []), replies).completions;
            && |cs| == |Contents(b)|
            && forall k :: 0 <= k < |cs| ==>
                 && cs[k].channel == Contents(b)[k].channel && b.builder.messages[k].offset == k
                 && Tells(cs[k].outcome, Contents(b)[k], k, tp, replies[j])
  {
    CompletedOnce(tp, b.thunks, replies);
    FirstVerdictIs(tp, replies, j);
    forall k | 0 <= k < |b.thunks|
      ensures var c := ResolveAll(b.thunks, tp, Verdict(tp, replies[j]).value)[k];
              && c.channel == Contents(b)[k].channel && b.builder.messages[k].offset == k
              && Tells(c.outcome, Contents(b)[k], k, tp, replies[j])
    {
      TellsVerdict(b, tp, replies[j], k);
    }
  }

  /** For a batch that any run drained, and any replies to any number of attempts: no
      record is completed if no reply decides; otherwise each is, once, all by the first
      reply that does: the k-th is told its failure, its error code or, when there is
      none, its base offset plus k, the k-th message's relative offset. A first failure
      is final: a later success cannot change what was reported. */
  lemma CompletionOfSends(
    run: seq<System>, steps: seq<Step>, i: nat, tp: TopicPartition, n: nat, replies: seq<Reply>)
    requires IsRun(run, steps) && i < |run| && n < |DrainedOf(run[i], tp)|
    ensures var b := DrainedOf(run[i], tp)[n];
            var cs := Attempts(SenderState(tp, Some(b.thunks), []), replies).completions;
            && ((forall j :: 0 <= j < |replies| ==> !Decides(replies[j], tp)) ==> cs == [])
            && forall j: nat :: FirstDecision(replies, tp, j) ==>
                 && |cs| == |Contents(b)|
                 && forall k :: 0 <= k < |cs| ==>
                      && cs[k].channel == Contents(b)[k].channel && b.builder.messages[k].offset == k
                      && Tells(cs[k].outcome, Contents(b)[k], k, tp, replies[j])
  {
    DrainedWereAccepted(run, steps, i, tp, n);
    var b := DrainedOf(run[i], tp)[n];
    if forall j :: 0 <= j < |replies| ==> !Decides(replies[j], tp) {
      NoVerdict(tp, replies);
      CompletedOnce(tp, b.thunks, replies);
    }
    forall j: nat | FirstDecision(replies, tp, j)
      ensures var cs := Attempts(SenderState(tp, Some(b.thunks), []), replies).completions;
              && |cs| == |Contents(b)|
              && forall k :: 0 <= k < |cs| ==>
                   && cs[k].channel == Contents(b)[k].channel && b.builder.messages[k].offset == k
                   && Tells(cs[k].outcome, Contents(b)[k], k, tp, replies[j])
    {
      SendsOfBatch(b, tp, replies, j);
    }
  }

  // ----- the objects -----

  class ProducerBatch {
    const builder: MessageSetBuilder
    var thunks: seq<Thunk>
    const created: int
    var lastPush: int

    constructor (version: int, compression: Compression, limit: nat, now: int)
      ensures fresh(builder) && State() == NewBatch(version, compression, limit, now)
    {
      builder := new MessageSetBuilder(version, compression, limit, 0);
      thunks, created, lastPush := [], now, now;
    }

    function State(): (b: Batch)
      reads this, builder
    {
      Batch(builder.State(), thunks, created, lastPush)
    }

    method PushRecord(r: Record, channel: int, now: int) returns (ok: bool)
      modifies this, builder
      ensures (State(), ok) == PushToBatch(old(State()), r, channel, now)
    {
      var push := builder.PushNext(r);
      if push.Rejected? {
        return false;
      }
      thunks := thunks + [Thunk(channel, push.offset, r.timestamp, OptLen(r.key), OptLen(r.value))];
      lastPush := now;
      return true;
    }
  }

  class RecordAccumulator {
    const batchSize: nat
    const compression: Compression
    const linger: int
    var queues: map<TopicPartition, seq<Batch>>

    constructor (batchSize: nat, compression: Compression, linger: int)
      ensures State() == Accumulator(batchSize, compression, linger, map[])
    {
      this.batchSize, this.compression, this.linger, queues := batchSize, compression, linger, map[];
    }

    function State(): (a: Accumulator)
      reads this
    {
      Accumulator(batchSize, compression, linger, queues)
    }

    method Push(tp: TopicPartition, r: Record, version: int, channel: int, now: int) returns (p: Pushed)
      modifies this
      ensures (State(), p) == PushRecord(old(State()), tp, r, version, channel, now)
    {
      if tp !in queues {
        queues := queues[tp := []];
      }
      var q := queues[tp];
      if q != [] {
        var (b, ok) := PushToBatch(q[|q| - 1], r, channel, now);
        if ok {
          queues := queues[tp := q[..|q| - 1] + [b]];
          assert queues == old(queues)[tp := q[..|q| - 1] + [b]];
          return Pushed(true, IsFull(b.builder), false);
        }
      }
      var (b, ok) := PushToBatch(NewBatch(version, compression, batchSize, now), r, channel, now);
      if ok {
        queues := queues[tp := q + [b]];
        assert queues == old(queues)[tp := q + [b]];
        return Pushed(true, IsFull(b.builder), true);
      }
      assert queues == old(queues)[tp := q];
      return Pushed(false, false, true);
    }

    method FlushAll(now: int)
      modifies this
      ensures State() == Flush(old(State()), now)
    {
      var todo := queues.Keys;
      while todo != {}
        invariant todo <= old(queues).Keys && queues.Keys == old(queues).Keys
        invariant forall tp :: tp in todo ==> queues[tp] == old(queues)[tp]
        invariant forall tp :: tp in queues && tp !in todo ==>
                                 queues[tp] == FlushedQueue(old(State()), old(queues)[tp], now)
        decreases |todo|
      {
        var tp :| tp in todo;
        var q := queues[tp];
        if q != [] {
          queues := queues[tp := q + [NewBatch(q[|q| - 1].builder.version, compression, batchSize, now)]];
        }
        todo := todo - {tp};
      }
    }

    /** Visits the queues in no particular order and takes the first batch of one
        that is ready; nothing is taken exactly when none is. */
    method PollBatches(force: bool, now: int) returns (r: Option<(TopicPartition, Batch)>)
      modifies this
      ensures r.None? ==> State() == old(State()) && forall tp :: !CanDrain(old(State()), tp, force, now)
      ensures r.Some? ==>
                CanDrain(old(State()), r.value.0, force, now)
                && (State(), r.value.1) == Drain(old(State()), r.value.0)
    {
      var todo := queues.Keys;
      while todo != {}
        invariant todo <= queues.Keys && queues == old(queues)
        invariant forall tp :: tp in queues && tp !in todo ==> !CanDrain(State(), tp, force, now)
        decreases |todo|
      {
        var tp :| tp in todo;
        var q := queues[tp];
        var ready := force
                     || (q != [] && (IsFull(q[|q| - 1].builder) || now - q[|q| - 1].created >= linger));
        if ready {
          if q != [] {
            queues := queues[tp := q[1..]];
            return Some((tp, q[0]));
          }
        }
        todo := todo - {tp};
      }
      return None;
    }
  }

  class Sender {
    const tp: TopicPartition
    var thunks: Option<seq<Thunk>>
    var completions: seq<Completion>

    constructor (tp: TopicPartition, b: Batch)
      ensures State() == SenderState(tp, Some(b.thunks), [])
    {
      this.tp, thunks, completions := tp, Some(b.thunks), [];
    }

    function State(): (s: SenderState)
      reads this
    {
      SenderState(tp, thunks, completions)
    }

    /** One attempt, when its reply arrives. */
    method SendBatch(reply: Reply)
      modifies this
      ensures State() == Attempt(old(State()), reply)
    {
      var v := Verdict(tp, reply);
      if v.Some? && thunks.Some? {
        var ts := thunks.value;
        thunks := None;
        for i := 0 to |ts|
          invariant thunks == None
          invariant completions == old(completions) + ResolveAll(ts[..i], tp, v.value)
        {
          assert ts[..i + 1][..i] == ts[..i];
          completions := completions + [Resolve(ts[i], tp, v.value)];
        }
        assert ts[..|ts|] == ts;
      }
    }
  }
}
