/** Requests whose layout depends on the version: their sizes as the codec reserves
    them, the fields they write, and the encoder of produce requests, which patches
    the length of each message set once it is written. */
module Requests {
  import opened Wire
  import opened Layout
  import opened MessageSet

  datatype Header = Header(apiKey: int, version: int, correlation: int, clientId: Option<Bytes>)

  /** A topic and what a request says about some of its partitions. */
  datatype Topic<P> = Topic(name: Bytes, partitions: seq<P>)

  datatype ProducePartition = ProducePartition(partition: int, messages: seq<Message>)

  datatype FetchPartition = FetchPartition(partition: int, offset: int, maxBytes: int)

  datatype ListPartition = ListPartition(partition: int, timestamp: int, maxOffsets: int)

  datatype CommitPartition = CommitPartition(partition: int, offset: int, timestamp: int, metadata: Option<Bytes>)

  /** A protocol offered on joining, or a member's share on syncing. */
  datatype Entry = Entry(name: Bytes, data: Bytes)

  datatype Request =
    | Produce(header: Header, acks: int, timeout: int, produce: seq<Topic<ProducePartition>>)
    | Fetch(header: Header, replica: int, maxWait: int, minBytes: int, maxBytes: int, fetch: seq<Topic<FetchPartition>>)
    | ListOffsets(header: Header, replica: int, list: seq<Topic<ListPartition>>)
    | OffsetCommit(header: Header, group: Option<Bytes>, generation: Option<int>, member: Option<Bytes>,
                   retention: Option<int>, commit: seq<Topic<CommitPartition>>)
    | JoinGroup(header: Header, groupId: Bytes, sessionTimeout: int, rebalanceTimeout: int, memberId: Bytes,
                protocolType: Bytes, protocols: seq<Entry>)
    | SyncGroup(header: Header, groupId: Bytes, generationId: int, memberId: Bytes, assignment: seq<Entry>)

  // ----- sizes -----

  function HeaderSize(h: Header): (n: nat) {
    2 + 2 + 4 + 2 + OptLen(h.clientId)
  }

  /** A topic's name and its partitions, each counted by `size`. */
  function TopicSize<P>(size: P -> nat): (f: Topic<P> -> nat) {
    (t: Topic<P>) => 2 + |t.name| + (4 + Sum(t.partitions, size))
  }

  function ProducePartitionSize(version: int): (f: ProducePartition -> nat) {
    (p: ProducePartition) => 4 + 4 + SetSize(version, p.messages)
  }

  function FetchPartitionSize(): (f: FetchPartition -> nat) {
    (p: FetchPartition) => 4 + 8 + 4
  }

  function ListPartitionSize(version: int): (f: ListPartition -> nat) {
    (p: ListPartition) => 4 + 8 + if version == 0 then 4 else 0
  }

  function CommitPartitionSize(version: int): (f: CommitPartition -> nat) {
    (p: CommitPartition) => 4 + 8 + (if version == 1 then 8 else 0) + 2 + OptLen(p.metadata)
  }

  function EntrySize(): (f: Entry -> nat) {
    (e: Entry) => 2 + |e.name| + (4 + |e.data|)
  }

  function RequestSize(r: Request, version: int): (n: nat) {
    HeaderSize(r.header) +
    match r
    case Produce(_, _, _, topics) => 2 + 4 + (4 + Sum(topics, TopicSize(ProducePartitionSize(version))))
    case Fetch(_, _, _, _, _, topics) =>
      4 + 4 + 4 + (if version > 2 then 4 else 0) + (4 + Sum(topics, TopicSize(FetchPartitionSize())))
    case ListOffsets(_, _, topics) => 4 + (4 + Sum(topics, TopicSize(ListPartitionSize(version))))
    case OffsetCommit(_, group, _, member, _, topics) =>
      2 + OptLen(group) + (if version > 0 then 4 + 2 + OptLen(member) else 0) + (if version > 1 then 8 else 0)
      + (4 + Sum(topics, TopicSize(CommitPartitionSize(version))))
    case JoinGroup(_, group, _, _, member, protocolType, protocols) =>
      2 + |group| + 4 + (if version > 0 then 4 else 0) + (2 + |member|) + (2 + |protocolType|)
      + (4 + Sum(protocols, EntrySize()))
    case SyncGroup(_, group, _, member, assignment) =>
      2 + |group| + 4 + (2 + |member|) + (4 + Sum(assignment, EntrySize()))
  }

  // ----- fields -----

  function HeaderFields(h: Header): (vs: seq<Value>) {
    [Int16(h.apiKey), Int16(h.version), Int32(h.correlation), Str(h.clientId)]
  }

  function TopicRow<P>(row: P -> seq<Value>): (f: Topic<P> -> seq<Value>) {
    (t: Topic<P>) => [Str(Some(t.name)), Array(RowsOf(t.partitions, row))]
  }

  /** The message set is length-prefixed, like a byte string. */
  function ProduceFields(crc: Checksum, version: int, p: ProducePartition): (vs: seq<Value>) {
    [Int32(p.partition),
     Blob(Some(if AllEncodable(p.messages) then EncodeSet(crc, version, None, p.messages, 0) else []))]
  }

  function ProduceRow(crc: Checksum, version: int): (f: ProducePartition -> seq<Value>) {
    (p: ProducePartition) => ProduceFields(crc, version, p)
  }

  function FetchRow(): (f: FetchPartition -> seq<Value>) {
    (p: FetchPartition) => [Int32(p.partition), Int64(p.offset), Int32(p.maxBytes)]
  }

  function ListRow(version: int): (f: ListPartition -> seq<Value>) {
    (p: ListPartition) =>
      if version == 0 then [Int32(p.partition), Int64(p.timestamp), Int32(p.maxOffsets)]
      else [Int32(p.partition), Int64(p.timestamp)]
  }

  function CommitRow(version: int): (f: CommitPartition -> seq<Value>) {
    (p: CommitPartition) =>
      if version == 1 then [Int32(p.partition), Int64(p.offset), Int64(p.timestamp), Str(p.metadata)]
      else [Int32(p.partition), Int64(p.offset), Str(p.metadata)]
  }

  function EntryRow(): (f: Entry -> seq<Value>) {
    (e: Entry) => [Str(Some(e.name)), Blob(Some(e.data))]
  }

  function Or(n: Option<int>, default: int): (v: int) {
    if n.Some? then n.value else default
  }

  /** Everything after the header. */
  function BodyFields(crc: Checksum, r: Request): (vs: seq<Value>) {
    var version := r.header.version;
    match r
    case Produce(_, acks, timeout, topics) =>
      [Int16(acks), Int32(timeout), Array(RowsOf(topics, TopicRow(ProduceRow(crc, version))))]
    case Fetch(_, replica, maxWait, minBytes, maxBytes, topics) =>
      [Int32(replica), Int32(maxWait), Int32(minBytes)]
      + (if version > 2 then [Int32(maxBytes)] else [])
      + [Array(RowsOf(topics, TopicRow(FetchRow())))]
    case ListOffsets(_, replica, topics) => [Int32(replica), Array(RowsOf(topics, TopicRow(ListRow(version))))]
    case OffsetCommit(_, group, generation, member, retention, topics) =>
      [Str(group)]
      + (if version > 0 then [Int32(Or(generation, 0)), Str(member)] else [])
      + (if version > 1 then [Int64(Or(retention, -1))] else [])
      + [Array(RowsOf(topics, TopicRow(CommitRow(version))))]
    case JoinGroup(_, group, session, rebalance, member, protocolType, protocols) =>
      [Str(Some(group)), Int32(session)]
      + (if version > 0 then [Int32(rebalance)] else [])
      + [Str(Some(member)), Str(Some(protocolType)), Array(RowsOf(protocols, EntryRow()))]
    case SyncGroup(_, group, generation, member, assignment) =>
      [Str(Some(group)), Int32(generation), Str(Some(member)), Array(RowsOf(assignment, EntryRow()))]
  }

  function Fields(crc: Checksum, r: Request): (vs: seq<Value>) {
    HeaderFields(r.header) + BodyFields(crc, r)
  }

  // ----- sizing agrees with encoding -----

  /** Produce requests are encoded only if every message is. */
  predicate SetsEncodable(r: Request) {
    r.Produce? ==>
      forall i, j :: 0 <= i < |r.produce| && 0 <= j < |r.produce[i].partitions| ==>
                       AllEncodable(r.produce[i].partitions[j].messages)
  }

  const NIL := Int16(0)

  lemma TopicRowsSize<P>(topics: seq<Topic<P>>, row: P -> seq<Value>, size: P -> nat)
    requires forall i, j :: 0 <= i < |topics| && 0 <= j < |topics[i].partitions| ==>
                              SizeOfAll(row(topics[i].partitions[j])) == size(topics[i].partitions[j])
    ensures SizeOfRows(RowsOf(topics, TopicRow(row))) == Sum(topics, TopicSize(size))
  {
    forall i | 0 <= i < |topics| ensures SizeOfAll(TopicRow(row)(topics[i])) == TopicSize(size)(topics[i]) {
      RowsOfSize(topics[i].partitions, row, size);
      SizeOfFew(Str(Some(topics[i].name)), Array(RowsOf(topics[i].partitions, row)), NIL, NIL);
    }
    RowsOfSize(topics, TopicRow(row), TopicSize(size));
  }

  lemma ProduceTopicsSize(crc: Checksum, version: int, topics: seq<Topic<ProducePartition>>)
    requires forall i, j :: 0 <= i < |topics| && 0 <= j < |topics[i].partitions| ==>
                              AllEncodable(topics[i].partitions[j].messages)
    ensures SizeOfRows(RowsOf(topics, TopicRow(ProduceRow(crc, version)))) == Sum(topics, TopicSize(ProducePartitionSize(version)))
  {
    forall i, j | 0 <= i < |topics| && 0 <= j < |topics[i].partitions|
      ensures SizeOfAll(ProduceRow(crc, version)(topics[i].partitions[j])) == ProducePartitionSize(version)(topics[i].partitions[j])
    {
      var p := topics[i].partitions[j];
      EncodedSetSize(crc, version, None, p.messages, 0);
      SizeOfFew(Int32(p.partition), Blob(Some(EncodeSet(crc, version, None, p.messages, 0))), NIL, NIL);
    }
    TopicRowsSize(topics, ProduceRow(crc, version), ProducePartitionSize(version));
  }

  lemma FetchTopicsSize(topics: seq<Topic<FetchPartition>>)
    ensures SizeOfRows(RowsOf(topics, TopicRow(FetchRow()))) == Sum(topics, TopicSize(FetchPartitionSize()))
  {
    forall p: FetchPartition ensures SizeOfAll(FetchRow()(p)) == FetchPartitionSize()(p) {
      SizeOfFew(Int32(p.partition), Int64(p.offset), Int32(p.maxBytes), NIL);
    }
    TopicRowsSize(topics, FetchRow(), FetchPartitionSize());
  }

  lemma ListTopicsSize(version: int, topics: seq<Topic<ListPartition>>)
    ensures SizeOfRows(RowsOf(topics, TopicRow(ListRow(version)))) == Sum(topics, TopicSize(ListPartitionSize(version)))
  {
    forall p: ListPartition ensures SizeOfAll(ListRow(version)(p)) == ListPartitionSize(version)(p) {
      SizeOfFew(Int32(p.partition), Int64(p.timestamp), Int32(p.maxOffsets), NIL);
    }
    TopicRowsSize(topics, ListRow(version), ListPartitionSize(version));
  }

  lemma CommitTopicsSize(version: int, topics: seq<Topic<CommitPartition>>)
    ensures SizeOfRows(RowsOf(topics, TopicRow(CommitRow(version)))) == Sum(topics, TopicSize(CommitPartitionSize(version)))
  {
    forall p: CommitPartition ensures SizeOfAll(CommitRow(version)(p)) == CommitPartitionSize(version)(p) {
      SizeOfFew(Int32(p.partition), Int64(p.offset), Int64(p.timestamp), Str(p.metadata));
      SizeOfFew(Int32(p.partition), Int64(p.offset), Str(p.metadata), NIL);
    }
    TopicRowsSize(topics, CommitRow(version), CommitPartitionSize(version));
  }

  lemma EntriesSize(entries: seq<Entry>)
    ensures SizeOfRows(RowsOf(entries, EntryRow())) == Sum(entries, EntrySize())
  {
    forall e: Entry ensures SizeOfAll(EntryRow()(e)) == EntrySize()(e) {
      SizeOfFew(Str(Some(e.name)), Blob(Some(e.data)), NIL, NIL);
    }
    RowsOfSize(entries, EntryRow(), EntrySize());
  }

  /** A field that only some versions have. */
  lemma OptionalSize(present: bool, v: Value, w: Value)
    ensures SizeOfAll(if present then [v] else []) == if present then Size(v) else 0
    ensures SizeOfAll(if present then [v, w] else []) == if present then Size(v) + Size(w) else 0
  {
    SizeOfFew(v, w, NIL, NIL);
  }

  lemma FetchFieldsSize(crc: Checksum, r: Request)
    requires r.Fetch?
    ensures SizeOfAll(BodyFields(crc, r)) == RequestSize(r, r.header.version) - HeaderSize(r.header)
  {
    var topics := Array(RowsOf(r.fetch, TopicRow(FetchRow())));
    assert Size(topics) == 4 + Sum(r.fetch, TopicSize(FetchPartitionSize())) by {
      FetchTopicsSize(r.fetch);
    }
    SizeOfFew(Int32(r.replica), Int32(r.maxWait), Int32(r.minBytes), NIL);
    SizeOfFew(topics, NIL, NIL, NIL);
    OptionalSize(r.header.version > 2, Int32(r.maxBytes), NIL);
    SizeOfParts([Int32(r.replica), Int32(r.maxWait), Int32(r.minBytes)],
                if r.header.version > 2 then [Int32(r.maxBytes)] else [], [topics], []);
  }

  lemma CommitFieldsSize(crc: Checksum, r: Request)
    requires r.OffsetCommit?
    ensures SizeOfAll(BodyFields(crc, r)) == RequestSize(r, r.header.version) - HeaderSize(r.header)
  {
    var version := r.header.version;
    var topics := Array(RowsOf(r.commit, TopicRow(CommitRow(version))));
    assert Size(topics) == 4 + Sum(r.commit, TopicSize(CommitPartitionSize(version))) by {
      CommitTopicsSize(version, r.commit);
    }
    SizeOfFew(Str(r.group), NIL, NIL, NIL);
    SizeOfFew(topics, NIL, NIL, NIL);
    OptionalSize(version > 0, Int32(Or(r.generation, 0)), Str(r.member));
    OptionalSize(version > 1, Int64(Or(r.retention, -1)), NIL);
    SizeOfParts([Str(r.group)],
                if version > 0 then [Int32(Or(r.generation, 0)), Str(r.member)] else [],
                if version > 1 then [Int64(Or(r.retention, -1))] else [],
                [topics]);
  }

  lemma JoinFieldsSize(crc: Checksum, r: Request)
    requires r.JoinGroup?
    ensures SizeOfAll(BodyFields(crc, r)) == RequestSize(r, r.header.version) - HeaderSize(r.header)
  {
    var protocols := Array(RowsOf(r.protocols, EntryRow()));
    assert Size(protocols) == 4 + Sum(r.protocols, EntrySize()) by {
      EntriesSize(r.protocols);
    }
    SizeOfFew(Str(Some(r.groupId)), Int32(r.sessionTimeout), NIL, NIL);
    SizeOfFew(Str(Some(r.memberId)), Str(Some(r.protocolType)), protocols, NIL);
    OptionalSize(r.header.version > 0, Int32(r.rebalanceTimeout), NIL);
    SizeOfParts([Str(Some(r.groupId)), Int32(r.sessionTimeout)],
                if r.header.version > 0 then [Int32(r.rebalanceTimeout)] else [],
                [Str(Some(r.memberId)), Str(Some(r.protocolType)), protocols], []);
  }

  lemma BodyFieldsSize(crc: Checksum, r: Request)
    requires SetsEncodable(r)
    ensures SizeOfAll(BodyFields(crc, r)) == RequestSize(r, r.header.version) - HeaderSize(r.header)
  {
    var version := r.header.version;
    match r
    case Produce(_, acks, timeout, topics) =>
      ProduceTopicsSize(crc, version, topics);
      SizeOfFew(Int16(acks), Int32(timeout), Array(RowsOf(topics, TopicRow(ProduceRow(crc, version)))), NIL);
    case Fetch(_, _, _, _, _, _) => FetchFieldsSize(crc, r);
    case ListOffsets(_, replica, topics) =>
      ListTopicsSize(version, topics);
      SizeOfFew(Int32(replica), Array(RowsOf(topics, TopicRow(ListRow(version)))), NIL, NIL);
    case OffsetCommit(_, _, _, _, _, _) => CommitFieldsSize(crc, r);
    case JoinGroup(_, _, _, _, _, _, _) => JoinFieldsSize(crc, r);
    case SyncGroup(_, group, generation, member, assignment) =>
      EntriesSize(assignment);
      SizeOfFew(Str(Some(group)), Int32(generation), Str(Some(member)), Array(RowsOf(assignment, EntryRow())));
  }

  /** For every request and version the encoding is exactly as long as `size` says. */
  lemma SizingAgrees(crc: Checksum, r: Request)
    requires SetsEncodable(r)
    ensures |EncodedAll(Fields(crc, r))| == RequestSize(r, r.header.version)
  {
    BodyFieldsSize(crc, r);
    var h := r.header;
    SizeOfFew(Int16(h.apiKey), Int16(h.version), Int32(h.correlation), Str(h.clientId));
    SizeOfAllConcat(HeaderFields(h), BodyFields(crc, r));
    EncodedAllSize(Fields(crc, r));
  }

  // ----- the layout is determined by the kind of request and its version -----

  datatype Kind = ProduceKind | FetchKind | ListKind | CommitKind | JoinKind | SyncKind

  function KindOf(r: Request): (k: Kind) {
    match r
    case Produce(_, _, _, _) => ProduceKind
    case Fetch(_, _, _, _, _, _) => FetchKind
    case ListOffsets(_, _, _) => ListKind
    case OffsetCommit(_, _, _, _, _, _) => CommitKind
    case JoinGroup(_, _, _, _, _, _, _) => JoinKind
    case SyncGroup(_, _, _, _, _) => SyncKind
  }

  function TopicShape(row: seq<Shape>): (s: Shape) {
    ArrayShape([StrShape, ArrayShape(row)])
  }

  function BodyShapes(k: Kind, version: int): (s: seq<Shape>) {
    match k
    case ProduceKind => [Int16Shape, Int32Shape, TopicShape([Int32Shape, BlobShape])]
    case FetchKind =>
      [Int32Shape, Int32Shape, Int32Shape] + (if version > 2 then [Int32Shape] else [])
      + [TopicShape([Int32Shape, Int64Shape, Int32Shape])]
    case ListKind =>
      [Int32Shape, TopicShape(if version == 0 then [Int32Shape, Int64Shape, Int32Shape] else [Int32Shape, Int64Shape])]
    case CommitKind =>
      [StrShape] + (if version > 0 then [Int32Shape, StrShape] else []) + (if version > 1 then [Int64Shape] else [])
      + [TopicShape(CommitShape(version))]
    case JoinKind =>
      [StrShape, Int32Shape] + (if version > 0 then [Int32Shape] else [])
      + [StrShape, StrShape, ArrayShape([StrShape, BlobShape])]
    case SyncKind => [StrShape, Int32Shape, StrShape, ArrayShape([StrShape, BlobShape])]
  }

  function HeaderShapes(): (s: seq<Shape>) {
    [Int16Shape, Int16Shape, Int32Shape, StrShape]
  }

  lemma TopicRowsTyped<P>(topics: seq<Topic<P>>, row: P -> seq<Value>, shapes: seq<Shape>)
    requires forall i, j :: 0 <= i < |topics| && 0 <= j < |topics[i].partitions| ==>
                              AllTyped(row(topics[i].partitions[j]), shapes)
    ensures Typed(Array(RowsOf(topics, TopicRow(row))), TopicShape(shapes))
  {
    forall i | 0 <= i < |topics| ensures AllTyped(TopicRow(row)(topics[i]), [StrShape, ArrayShape(shapes)]) {
      RowsOfTyped(topics[i].partitions, row, shapes);
      TypedFew(Str(Some(topics[i].name)), Array(RowsOf(topics[i].partitions, row)), NIL, NIL,
               StrShape, ArrayShape(shapes), Int16Shape, Int16Shape);
    }
    RowsOfTyped(topics, TopicRow(row), [StrShape, ArrayShape(shapes)]);
  }

  lemma EntriesTyped(entries: seq<Entry>)
    ensures Typed(Array(RowsOf(entries, EntryRow())), ArrayShape([StrShape, BlobShape]))
  {
    forall e: Entry ensures AllTyped(EntryRow()(e), [StrShape, BlobShape]) {
      TypedFew(Str(Some(e.name)), Blob(Some(e.data)), NIL, NIL, StrShape, BlobShape, Int16Shape, Int16Shape);
    }
    RowsOfTyped(entries, EntryRow(), [StrShape, BlobShape]);
  }

  lemma ProduceTyped(crc: Checksum, r: Request)
    requires r.Produce?
    ensures AllTyped(BodyFields(crc, r), BodyShapes(ProduceKind, r.header.version))
  {
    var row := ProduceRow(crc, r.header.version);
    forall p: ProducePartition ensures AllTyped(row(p), [Int32Shape, BlobShape]) {
      TypedFew(row(p)[0], row(p)[1], NIL, NIL, Int32Shape, BlobShape, Int16Shape, Int16Shape);
      assert row(p) == [row(p)[0], row(p)[1]];
    }
    TopicRowsTyped(r.produce, row, [Int32Shape, BlobShape]);
    TypedFew(Int16(r.acks), Int32(r.timeout), Array(RowsOf(r.produce, TopicRow(row))), NIL,
             Int16Shape, Int32Shape, TopicShape([Int32Shape, BlobShape]), Int16Shape);
  }

  lemma FetchTyped(crc: Checksum, r: Request)
    requires r.Fetch?
    ensures AllTyped(BodyFields(crc, r), BodyShapes(FetchKind, r.header.version))
  {
    var shapes := [Int32Shape, Int64Shape, Int32Shape];
    forall p: FetchPartition ensures AllTyped(FetchRow()(p), shapes) {
      TypedFew(Int32(p.partition), Int64(p.offset), Int32(p.maxBytes), NIL, Int32Shape, Int64Shape, Int32Shape, Int16Shape);
    }
    TopicRowsTyped(r.fetch, FetchRow(), shapes);
    var head := [Int32(r.replica), Int32(r.maxWait), Int32(r.minBytes)];
    var headShapes := [Int32Shape, Int32Shape, Int32Shape];
    var extra := if r.header.version > 2 then [Int32(r.maxBytes)] else [];
    var extraShapes := if r.header.version > 2 then [Int32Shape] else [];
    var topics := Array(RowsOf(r.fetch, TopicRow(FetchRow())));
    TypedFew(head[0], head[1], head[2], NIL, Int32Shape, Int32Shape, Int32Shape, Int16Shape);
    TypedOne(Int32(r.maxBytes), Int32Shape);
    TypedOne(topics, TopicShape(shapes));
    AllTypedParts(head, headShapes, extra, extraShapes, [topics], [TopicShape(shapes)], [], []);
  }

  lemma ListTyped(crc: Checksum, r: Request)
    requires r.ListOffsets?
    ensures AllTyped(BodyFields(crc, r), BodyShapes(ListKind, r.header.version))
  {
    var version := r.header.version;
    var shapes := if version == 0 then [Int32Shape, Int64Shape, Int32Shape] else [Int32Shape, Int64Shape];
    forall p: ListPartition ensures AllTyped(ListRow(version)(p), shapes) {
      TypedFew(Int32(p.partition), Int64(p.timestamp), Int32(p.maxOffsets), NIL, Int32Shape, Int64Shape, Int32Shape, Int16Shape);
    }
    TopicRowsTyped(r.list, ListRow(version), shapes);
    TypedFew(Int32(r.replica), Array(RowsOf(r.list, TopicRow(ListRow(version)))), NIL, NIL,
             Int32Shape, TopicShape(shapes), Int16Shape, Int16Shape);
  }

  function CommitShape(version: int): (s: seq<Shape>) {
    if version == 1 then [Int32Shape, Int64Shape, Int64Shape, StrShape] else [Int32Shape, Int64Shape, StrShape]
  }

  lemma CommitTopicsTyped(version: int, topics: seq<Topic<CommitPartition>>)
    ensures Typed(Array(RowsOf(topics, TopicRow(CommitRow(version)))), TopicShape(CommitShape(version)))
  {
    forall p: CommitPartition ensures AllTyped(CommitRow(version)(p), CommitShape(version)) {
      TypedFew(Int32(p.partition), Int64(p.offset), Int64(p.timestamp), Str(p.metadata),
               Int32Shape, Int64Shape, Int64Shape, StrShape);
      TypedFew(Int32(p.partition), Int64(p.offset), Str(p.metadata), NIL, Int32Shape, Int64Shape, StrShape, Int16Shape);
    }
    TopicRowsTyped(topics, CommitRow(version), CommitShape(version));
  }

  lemma CommitTyped(crc: Checksum, r: Request)
    requires r.OffsetCommit?
    ensures AllTyped(BodyFields(crc, r), BodyShapes(CommitKind, r.header.version))
  {
    var version := r.header.version;
    var one := if version > 0 then [Int32(Or(r.generation, 0)), Str(r.member)] else [];
    var oneShapes := if version > 0 then [Int32Shape, StrShape] else [];
    var two := if version > 1 then [Int64(Or(r.retention, -1))] else [];
    var twoShapes := if version > 1 then [Int64Shape] else [];
    var topics := Array(RowsOf(r.commit, TopicRow(CommitRow(version))));
    CommitTopicsTyped(version, r.commit);
    TypedOne(Str(r.group), StrShape);
    TypedFew(Int32(Or(r.generation, 0)), Str(r.member), NIL, NIL, Int32Shape, StrShape, Int16Shape, Int16Shape);
    TypedOne(Int64(Or(r.retention, -1)), Int64Shape);
    TypedOne(topics, TopicShape(CommitShape(version)));
    AllTypedParts([Str(r.group)], [StrShape], one, oneShapes, two, twoShapes, [topics], [TopicShape(CommitShape(version))]);
  }

  lemma JoinTyped(crc: Checksum, r: Request)
    requires r.JoinGroup?
    ensures AllTyped(BodyFields(crc, r), BodyShapes(JoinKind, r.header.version))
  {
    EntriesTyped(r.protocols);
    var head := [Str(Some(r.groupId)), Int32(r.sessionTimeout)];
    var extra := if r.header.version > 0 then [Int32(r.rebalanceTimeout)] else [];
    var extraShapes := if r.header.version > 0 then [Int32Shape] else [];
    var tail := [Str(Some(r.memberId)), Str(Some(r.protocolType)), Array(RowsOf(r.protocols, EntryRow()))];
    var tailShapes := [StrShape, StrShape, ArrayShape([StrShape, BlobShape])];
    TypedFew(head[0], head[1], NIL, NIL, StrShape, Int32Shape, Int16Shape, Int16Shape);
    TypedOne(Int32(r.rebalanceTimeout), Int32Shape);
    TypedFew(tail[0], tail[1], tail[2], NIL, StrShape, StrShape, ArrayShape([StrShape, BlobShape]), Int16Shape);
    AllTypedParts(head, [StrShape, Int32Shape], extra, extraShapes, tail, tailShapes, [], []);
  }

  lemma SyncTyped(crc: Checksum, r: Request)
    requires r.SyncGroup?
    ensures AllTyped(BodyFields(crc, r), BodyShapes(SyncKind, r.header.version))
  {
    EntriesTyped(r.assignment);
    TypedFew(Str(Some(r.groupId)), Int32(r.generationId), Str(Some(r.memberId)), Array(RowsOf(r.assignment, EntryRow())),
             StrShape, Int32Shape, StrShape, ArrayShape([StrShape, BlobShape]));
  }

  /** A reader that knows only the kind of request and its version recovers every
      field, in order, and finds where the request ends. */
  lemma RequestReadable(crc: Checksum, r: Request, rest: Bytes)
    requires AllFit(Fields(crc, r))
    ensures ParseAll(HeaderShapes() + BodyShapes(KindOf(r), r.header.version), EncodedAll(Fields(crc, r)) + rest)
         == Done(rest, Fields(crc, r))
  {
    match r {
      case Produce(_, _, _, _) => ProduceTyped(crc, r);
      case Fetch(_, _, _, _, _, _) => FetchTyped(crc, r);
      case ListOffsets(_, _, _) => ListTyped(crc, r);
      case OffsetCommit(_, _, _, _, _, _) => CommitTyped(crc, r);
      case JoinGroup(_, _, _, _, _, _, _) => JoinTyped(crc, r);
      case SyncGroup(_, _, _, _, _) => SyncTyped(crc, r);
    }
    var h := r.header;
    TypedFew(Int16(h.apiKey), Int16(h.version), Int32(h.correlation), Str(h.clientId),
             Int16Shape, Int16Shape, Int32Shape, StrShape);
    AllTypedConcat(HeaderFields(h), HeaderShapes(), BodyFields(crc, r), BodyShapes(KindOf(r), h.version));
    AllRoundTrip(Fields(crc, r), HeaderShapes() + BodyShapes(KindOf(r), h.version), rest);
  }

  // ----- the bytes, in the order of the calls that write them -----

  /** A string or null behind its 16-bit length. */
  function Text(s: Option<Bytes>): (b: Bytes)
    ensures StrBytes(s).Some? ==> b == StrBytes(s).value
  {
    if s.None? then I16Bytes(-1) else I16Bytes(|s.value|) + s.value
  }

  /** A byte string behind its 32-bit length. */
  function Data(d: Bytes): (b: Bytes)
    ensures BlobBytes(Some(d)).Some? ==> b == BlobBytes(Some(d)).value
  {
    I32Bytes(|d|) + d
  }

  function Each<P>(ps: seq<P>, bytes: P -> Bytes): (b: Bytes) {
    if ps == [] then [] else bytes(ps[0]) + Each(ps[1..], bytes)
  }

  /** An array: the count, then every item. */
  function Items<P>(ps: seq<P>, bytes: P -> Bytes): (b: Bytes) {
    I32Bytes(|ps|) + Each(ps, bytes)
  }

  function TopicBytes<P>(bytes: P -> Bytes): (f: Topic<P> -> Bytes) {
    (t: Topic<P>) => Text(Some(t.name)) + Items(t.partitions, bytes)
  }

  function ProduceBytes(crc: Checksum, version: int): (f: ProducePartition -> Bytes) {
    (p: ProducePartition) =>
      I32Bytes(p.partition) + Data(if AllEncodable(p.messages) then EncodeSet(crc, version, None, p.messages, 0) else [])
  }

  function FetchBytes(): (f: FetchPartition -> Bytes) {
    (p: FetchPartition) => I32Bytes(p.partition) + (I64Bytes(p.offset) + I32Bytes(p.maxBytes))
  }

  function ListBytes(version: int): (f: ListPartition -> Bytes) {
    (p: ListPartition) =>
      I32Bytes(p.partition) + (I64Bytes(p.timestamp) + if version == 0 then I32Bytes(p.maxOffsets) else [])
  }

  function CommitBytes(version: int): (f: CommitPartition -> Bytes) {
    (p: CommitPartition) =>
      I32Bytes(p.partition)
      + (I64Bytes(p.offset) + ((if version == 1 then I64Bytes(p.timestamp) else []) + Text(p.metadata)))
  }

  function EntryBytes(): (f: Entry -> Bytes) {
    (e: Entry) => Text(Some(e.name)) + Data(e.data)
  }

  function HeaderBytes(h: Header): (b: Bytes) {
    I16Bytes(h.apiKey) + (I16Bytes(h.version) + (I32Bytes(h.correlation) + Text(h.clientId)))
  }

  function BodyBytes(crc: Checksum, r: Request): (b: Bytes) {
    var version := r.header.version;
    match r
    case Produce(_, acks, timeout, topics) =>
      I16Bytes(acks) + (I32Bytes(timeout) + Items(topics, TopicBytes(ProduceBytes(crc, version))))
    case Fetch(_, replica, maxWait, minBytes, maxBytes, topics) =>
      I32Bytes(replica) + (I32Bytes(maxWait) + (I32Bytes(minBytes)
      + ((if version > 2 then I32Bytes(maxBytes) else []) + Items(topics, TopicBytes(FetchBytes())))))
    case ListOffsets(_, replica, topics) => I32Bytes(replica) + Items(topics, TopicBytes(ListBytes(version)))
    case OffsetCommit(_, group, generation, member, retention, topics) =>
      Text(group) + ((if version > 0 then I32Bytes(Or(generation, 0)) + Text(member) else [])
      + ((if version > 1 then I64Bytes(Or(retention, -1)) else []) + Items(topics, TopicBytes(CommitBytes(version)))))
    case JoinGroup(_, group, session, rebalance, member, protocolType, protocols) =>
      Text(Some(group)) + (I32Bytes(session) + ((if version > 0 then I32Bytes(rebalance) else [])
      + (Text(Some(member)) + (Text(Some(protocolType)) + Items(protocols, EntryBytes())))))
    case SyncGroup(_, group, generation, member, assignment) =>
      Text(Some(group)) + (I32Bytes(generation) + (Text(Some(member)) + Items(assignment, EntryBytes())))
  }

  lemma EncodedFour(a: Value, b: Value, c: Value, d: Value)
    ensures EncodedAll([a, b, c, d]) == Encoded(a) + (Encoded(b) + (Encoded(c) + Encoded(d)))
  {
    EncodedFew(b, c, d);
    assert [a, b, c, d][1..] == [b, c, d];
  }

  lemma {:induction false} EncodedEach<P>(ps: seq<P>, row: P -> seq<Value>, bytes: P -> Bytes)
    requires forall i :: 0 <= i < |ps| ==> EncodedAll(row(ps[i])) == bytes(ps[i])
    ensures EncodedRows(RowsOf(ps, row)) == Each(ps, bytes)
  {
    if ps != [] {
      EncodedEach(ps[1..], row, bytes);
      assert RowsOf(ps, row)[1..] == RowsOf(ps[1..], row);
    }
  }

  lemma EncodedTopics<P>(topics: seq<Topic<P>>, row: P -> seq<Value>, bytes: P -> Bytes)
    requires forall p :: EncodedAll(row(p)) == bytes(p)
    ensures Encoded(Array(RowsOf(topics, TopicRow(row)))) == Items(topics, TopicBytes(bytes))
  {
    forall i | 0 <= i < |topics|
      ensures EncodedAll(TopicRow(row)(topics[i])) == TopicBytes(bytes)(topics[i])
    {
      var t := topics[i];
      EncodedEach(t.partitions, row, bytes);
      EncodedFew(Str(Some(t.name)), Array(RowsOf(t.partitions, row)), NIL);
    }
    EncodedEach(topics, TopicRow(row), TopicBytes(bytes));
  }

  lemma EncodedEntries(entries: seq<Entry>)
    ensures Encoded(Array(RowsOf(entries, EntryRow()))) == Items(entries, EntryBytes())
  {
    forall e: Entry ensures EncodedAll(EntryRow()(e)) == EntryBytes()(e) {
      EncodedFew(Str(Some(e.name)), Blob(Some(e.data)), NIL);
    }
    EncodedEach(entries, EntryRow(), EntryBytes());
  }

  lemma EncodedParts(p: seq<Value>, q: seq<Value>, r: seq<Value>)
    ensures EncodedAll(p + q + r) == EncodedAll(p) + (EncodedAll(q) + EncodedAll(r))
  {
    EncodedAllConcat(p, q);
    EncodedAllConcat(p + q, r);
    Assoc(EncodedAll(p), EncodedAll(q), EncodedAll(r));
  }

  lemma Regroup3(a: Bytes, b: Bytes, c: Bytes, rest: Bytes)
    ensures (a + (b + c)) + rest == a + (b + (c + rest))
  {
    Assoc(a, b + c, rest);
    Assoc(b, c, rest);
  }

  /** Fields that only some versions have. */
  lemma OptionalLayout(present: bool, v: Value, w: Value)
    ensures EncodedAll(if present then [v] else []) == if present then Encoded(v) else []
    ensures EncodedAll(if present then [v, w] else []) == if present then Encoded(v) + Encoded(w) else []
  {
    EncodedFew(v, w, NIL);
  }

  lemma EncodedFourParts(v: Value, p: seq<Value>, q: seq<Value>, w: Value)
    ensures EncodedAll([v] + p + q + [w]) == Encoded(v) + (EncodedAll(p) + (EncodedAll(q) + Encoded(w)))
  {
    EncodedParts([v], p, q);
    EncodedAllConcat([v] + p + q, [w]);
    EncodedFew(v, NIL, NIL);
    EncodedFew(w, NIL, NIL);
    Assoc(Encoded(v), EncodedAll(p) + EncodedAll(q), Encoded(w));
    Assoc(EncodedAll(p), EncodedAll(q), Encoded(w));
  }

  lemma ProduceLayout(crc: Checksum, r: Request)
    requires r.Produce?
    ensures EncodedAll(BodyFields(crc, r)) == BodyBytes(crc, r)
  {
    var version := r.header.version;
    forall p: ProducePartition ensures EncodedAll(ProduceRow(crc, version)(p)) == ProduceBytes(crc, version)(p) {
      EncodedFew(ProduceFields(crc, version, p)[0], ProduceFields(crc, version, p)[1], NIL);
    }
    EncodedTopics(r.produce, ProduceRow(crc, version), ProduceBytes(crc, version));
    EncodedFew(Int16(r.acks), Int32(r.timeout), Array(RowsOf(r.produce, TopicRow(ProduceRow(crc, version)))));
  }

  lemma FetchLayout(crc: Checksum, r: Request)
    requires r.Fetch?
    ensures EncodedAll(BodyFields(crc, r)) == BodyBytes(crc, r)
  {
    forall p: FetchPartition ensures EncodedAll(FetchRow()(p)) == FetchBytes()(p) {
      EncodedFew(Int32(p.partition), Int64(p.offset), Int32(p.maxBytes));
    }
    EncodedTopics(r.fetch, FetchRow(), FetchBytes());
    var head := [Int32(r.replica), Int32(r.maxWait), Int32(r.minBytes)];
    var extra := if r.header.version > 2 then [Int32(r.maxBytes)] else [];
    var topics := Array(RowsOf(r.fetch, TopicRow(FetchRow())));
    EncodedFew(head[0], head[1], head[2]);
    OptionalLayout(r.header.version > 2, Int32(r.maxBytes), NIL);
    EncodedFew(topics, NIL, NIL);
    EncodedParts(head, extra, [topics]);
    Regroup3(Encoded(head[0]), Encoded(head[1]), Encoded(head[2]), EncodedAll(extra) + Encoded(topics));
  }

  lemma ListLayout(crc: Checksum, r: Request)
    requires r.ListOffsets?
    ensures EncodedAll(BodyFields(crc, r)) == BodyBytes(crc, r)
  {
    var version := r.header.version;
    forall p: ListPartition ensures EncodedAll(ListRow(version)(p)) == ListBytes(version)(p) {
      EncodedFew(Int32(p.partition), Int64(p.timestamp), Int32(p.maxOffsets));
      assert I64Bytes(p.timestamp) + [] == I64Bytes(p.timestamp);
    }
    EncodedTopics(r.list, ListRow(version), ListBytes(version));
    EncodedFew(Int32(r.replica), Array(RowsOf(r.list, TopicRow(ListRow(version)))), NIL);
  }

  lemma CommitRowLayout(version: int, p: CommitPartition)
    ensures EncodedAll(CommitRow(version)(p)) == CommitBytes(version)(p)
  {
    EncodedFour(Int32(p.partition), Int64(p.offset), Int64(p.timestamp), Str(p.metadata));
    EncodedFew(Int32(p.partition), Int64(p.offset), Str(p.metadata));
    assert [] + Text(p.metadata) == Text(p.metadata);
  }

  lemma CommitTopicsLayout(version: int, topics: seq<Topic<CommitPartition>>)
    ensures Encoded(Array(RowsOf(topics, TopicRow(CommitRow(version))))) == Items(topics, TopicBytes(CommitBytes(version)))
  {
    forall p: CommitPartition ensures EncodedAll(CommitRow(version)(p)) == CommitBytes(version)(p) {
      CommitRowLayout(version, p);
    }
    EncodedTopics(topics, CommitRow(version), CommitBytes(version));
  }

  lemma CommitLayout(crc: Checksum, r: Request)
    requires r.OffsetCommit?
    ensures EncodedAll(BodyFields(crc, r)) == BodyBytes(crc, r)
  {
    var version := r.header.version;
    CommitTopicsLayout(version, r.commit);
    OptionalLayout(version > 0, Int32(Or(r.generation, 0)), Str(r.member));
    OptionalLayout(version > 1, Int64(Or(r.retention, -1)), NIL);
    EncodedFourParts(Str(r.group),
                     if version > 0 then [Int32(Or(r.generation, 0)), Str(r.member)] else [],
                     if version > 1 then [Int64(Or(r.retention, -1))] else [],
                     Array(RowsOf(r.commit, TopicRow(CommitRow(version)))));
  }

  lemma JoinLayout(crc: Checksum, r: Request)
    requires r.JoinGroup?
    ensures EncodedAll(BodyFields(crc, r)) == BodyBytes(crc, r)
  {
    var head := [Str(Some(r.groupId)), Int32(r.sessionTimeout)];
    var extra := if r.header.version > 0 then [Int32(r.rebalanceTimeout)] else [];
    var tail := [Str(Some(r.memberId)), Str(Some(r.protocolType)), Array(RowsOf(r.protocols, EntryRow()))];
    EncodedEntries(r.protocols);
    EncodedFew(head[0], head[1], NIL);
    OptionalLayout(r.header.version > 0, Int32(r.rebalanceTimeout), NIL);
    EncodedFew(tail[0], tail[1], tail[2]);
    EncodedParts(head, extra, tail);
    Assoc(Encoded(head[0]), Encoded(head[1]), EncodedAll(extra) + EncodedAll(tail));
  }

  lemma SyncLayout(crc: Checksum, r: Request)
    requires r.SyncGroup?
    ensures EncodedAll(BodyFields(crc, r)) == BodyBytes(crc, r)
  {
    EncodedEntries(r.assignment);
    EncodedFour(Str(Some(r.groupId)), Int32(r.generationId), Str(Some(r.memberId)),
                Array(RowsOf(r.assignment, EntryRow())));
  }

  lemma BodyLayout(crc: Checksum, r: Request)
    ensures EncodedAll(BodyFields(crc, r)) == BodyBytes(crc, r)
  {
    match r
    case Produce(_, _, _, _) => ProduceLayout(crc, r);
    case Fetch(_, _, _, _, _, _) => FetchLayout(crc, r);
    case ListOffsets(_, _, _) => ListLayout(crc, r);
    case OffsetCommit(_, _, _, _, _, _) => CommitLayout(crc, r);
    case JoinGroup(_, _, _, _, _, _, _) => JoinLayout(crc, r);
    case SyncGroup(_, _, _, _, _) => SyncLayout(crc, r);
  }

  /** For every kind of request and every version: the header's api key, version,
      correlation id and client id, then the body, each part in its place. */
  lemma RequestLayout(crc: Checksum, r: Request)
    ensures EncodedAll(Fields(crc, r)) == HeaderBytes(r.header) + BodyBytes(crc, r)
  {
    BodyLayout(crc, r);
    var h := r.header;
    EncodedFour(Int16(h.apiKey), Int16(h.version), Int32(h.correlation), Str(h.clientId));
    EncodedAllConcat(HeaderFields(h), BodyFields(crc, r));
  }

  // ----- the encoders -----

  predicate PartitionAccepted(p: ProducePartition) {
    AllEncodable(p.messages)
  }

  /** One partition of a produce request: the length of its message set is filled
      in when the set has been written. */
  method PutPartition(crc: Checksum, version: int, p: ProducePartition, buf: ByteBuf) returns (ok: bool)
    modifies buf
    ensures ok <==> PartitionAccepted(p)
    ensures ok ==> buf.data == old(buf.data) + EncodedAll(ProduceFields(crc, version, p))
    ensures old(buf.data) <= buf.data
  {
    ghost var before := buf.data;
    buf.Put(I32Bytes(p.partition));
    var sizeOff := |buf.data|;
    buf.Put(I32Bytes(0));
    ok := PutSet(crc, version, None, p.messages, buf);
    if ok {
      var size := |buf.data| - sizeOff - 4;
      ghost var set_ := EncodeSet(crc, version, None, p.messages, 0);
      PatchLength(before, I32Bytes(p.partition), set_, I32Bytes(size));
      buf.WriteI32(sizeOff, size);
      ProduceRowBytes(crc, version, p);
    }
  }

  lemma PatchLength(before: Bytes, id: Bytes, body: Bytes, size: Bytes)
    requires |id| == 4 && |size| == 4
    ensures var data := before + id + I32Bytes(0) + body;
            var n := |before| + 4;
            data[..n] + size + data[n + 4..] == before + (id + (size + body))
  {
    var data := before + id + I32Bytes(0) + body;
    var n := |before| + 4;
    assert data[..n] == before + id;
    assert data[n + 4..] == body;
  }

  lemma ProduceRowBytes(crc: Checksum, version: int, p: ProducePartition)
    requires AllEncodable(p.messages)
    ensures var body := EncodeSet(crc, version, None, p.messages, 0);
            EncodedAll(ProduceFields(crc, version, p)) == I32Bytes(p.partition) + (I32Bytes(|body|) + body)
  {
    EncodedFew(Int32(p.partition), Blob(Some(EncodeSet(crc, version, None, p.messages, 0))), NIL);
  }

  /** The first n partitions are accepted. */
  predicate FirstAccepted(ps: seq<ProducePartition>, n: nat)
    requires n <= |ps|
  {
    n == 0 || (FirstAccepted(ps, n - 1) && PartitionAccepted(ps[n - 1]))
  }

  lemma {:induction false} RefusedStays(ps: seq<ProducePartition>, m: nat, n: nat)
    requires m <= n <= |ps| && !FirstAccepted(ps, m)
    ensures !FirstAccepted(ps, n)
  {
    if m < n {
      RefusedStays(ps, m, n - 1);
    }
  }

  method PutPartitions(crc: Checksum, version: int, ps: seq<ProducePartition>, buf: ByteBuf) returns (ok: bool)
    modifies buf
    ensures ok <==> FirstAccepted(ps, |ps|)
    ensures ok ==> buf.data == old(buf.data) + EncodedRows(RowsOf(ps, ProduceRow(crc, version)))
    ensures old(buf.data) <= buf.data
  {
    ghost var rows := RowsOf(ps, ProduceRow(crc, version));
    for i := 0 to |ps|
      invariant FirstAccepted(ps, i)
      invariant buf.data == old(buf.data) + EncodedRows(rows[..i])
    {
      RowsOfAt(ps, ProduceRow(crc, version), i);
      RowAppended(old(buf.data), rows, i);
      ok := PutPartition(crc, version, ps[i], buf);
      if !ok {
        RefusedStays(ps, i + 1, |ps|);
        return;
      }
    }
    assert rows[..|rows|] == rows;
    ok := true;
  }

  predicate TopicAccepted(t: Topic<ProducePartition>) {
    |t.name| <= I16_MAX && |t.partitions| <= I32_MAX && FirstAccepted(t.partitions, |t.partitions|)
  }

  function TopicFields(crc: Checksum, version: int, t: Topic<ProducePartition>): (vs: seq<Value>) {
    TopicRow(ProduceRow(crc, version))(t)
  }

  method PutTopic(crc: Checksum, version: int, t: Topic<ProducePartition>, buf: ByteBuf) returns (ok: bool)
    modifies buf
    ensures ok <==> TopicAccepted(t)
    ensures ok ==> buf.data == old(buf.data) + EncodedAll(TopicFields(crc, version, t))
    ensures old(buf.data) <= buf.data
  {
    ghost var rows := RowsOf(t.partitions, ProduceRow(crc, version));
    var name, count := Str(Some(t.name)), I32Bytes(|t.partitions|);
    EncodedFew(name, Array(rows), NIL);
    Assoc(buf.data + Encoded(name), count, EncodedRows(rows));
    Assoc(buf.data, Encoded(name), Encoded(Array(rows)));
    ok := buf.PutStr(Some(t.name));
    if ok {
      if |t.partitions| > I32_MAX {
        return false;
      }
      buf.Put(count);
      ok := PutPartitions(crc, version, t.partitions, buf);
    }
  }

  /** The first n topics are accepted. */
  predicate TopicsAccepted(topics: seq<Topic<ProducePartition>>, n: nat)
    requires n <= |topics|
  {
    n == 0 || (TopicsAccepted(topics, n - 1) && TopicAccepted(topics[n - 1]))
  }

  lemma {:induction false} TopicRefusedStays(topics: seq<Topic<ProducePartition>>, m: nat, n: nat)
    requires m <= n <= |topics| && !TopicsAccepted(topics, m)
    ensures !TopicsAccepted(topics, n)
  {
    if m < n {
      TopicRefusedStays(topics, m, n - 1);
    }
  }

  method PutTopics(crc: Checksum, version: int, topics: seq<Topic<ProducePartition>>, buf: ByteBuf) returns (ok: bool)
    modifies buf
    ensures ok <==> TopicsAccepted(topics, |topics|)
    ensures ok ==> buf.data == old(buf.data) + EncodedRows(RowsOf(topics, TopicRow(ProduceRow(crc, version))))
    ensures old(buf.data) <= buf.data
  {
    ghost var row := TopicRow(ProduceRow(crc, version));
    ghost var rows := RowsOf(topics, row);
    for i := 0 to |topics|
      invariant TopicsAccepted(topics, i)
      invariant buf.data == old(buf.data) + EncodedRows(rows[..i])
    {
      RowsOfAt(topics, row, i);
      RowAppended(old(buf.data), rows, i);
      ok := PutTopic(crc, version, topics[i], buf);
      if !ok {
        TopicRefusedStays(topics, i + 1, |topics|);
        return;
      }
    }
    assert rows[..|rows|] == rows;
    ok := true;
  }

  /** What an encoder refuses: a string, byte string or array too long for its
      length field. The length of a message set is not checked. */
  predicate Accepted(crc: Checksum, r: Request) {
    && AllWritable(HeaderFields(r.header))
    && if r.Produce? then |r.produce| <= I32_MAX && TopicsAccepted(r.produce, |r.produce|) else AllWritable(BodyFields(crc, r))
  }

  method PutProduce(crc: Checksum, r: Request, buf: ByteBuf) returns (ok: bool)
    requires r.Produce?
    modifies buf
    ensures ok <==> |r.produce| <= I32_MAX && TopicsAccepted(r.produce, |r.produce|)
    ensures ok ==> buf.data == old(buf.data) + EncodedAll(BodyFields(crc, r))
    ensures old(buf.data) <= buf.data
  {
    ghost var rows := RowsOf(r.produce, TopicRow(ProduceRow(crc, r.header.version)));
    var acks, timeout, count := I16Bytes(r.acks), I32Bytes(r.timeout), I32Bytes(|r.produce|);
    EncodedFew(Int16(r.acks), Int32(r.timeout), Array(rows));
    Assoc(buf.data + acks + timeout, count, EncodedRows(rows));
    Assoc(buf.data + acks, timeout, count + EncodedRows(rows));
    Assoc(buf.data, acks, timeout + (count + EncodedRows(rows)));
    buf.Put(acks);
    buf.Put(timeout);
    if |r.produce| > I32_MAX {
      return false;
    }
    buf.Put(count);
    ok := PutTopics(crc, r.header.version, r.produce, buf);
  }

  /** `KafkaRequest::encode`. */
  method PutRequest(crc: Checksum, r: Request, buf: ByteBuf) returns (ok: bool)
    modifies buf
    ensures ok <==> Accepted(crc, r)
    ensures ok ==> buf.data == old(buf.data) + EncodedAll(Fields(crc, r))
    ensures ok ==> buf.data == old(buf.data) + (HeaderBytes(r.header) + BodyBytes(crc, r))
    ensures old(buf.data) <= buf.data
  {
    RequestLayout(crc, r);
    ok := PutAll(HeaderFields(r.header), buf);
    if ok {
      if r.Produce? {
        ok := PutProduce(crc, r, buf);
      } else {
        ok := PutAll(BodyFields(crc, r), buf);
      }
      EncodedAllConcat(HeaderFields(r.header), BodyFields(crc, r));
      Assoc(old(buf.data), EncodedAll(HeaderFields(r.header)), EncodedAll(BodyFields(crc, r)));
    }
  }

  lemma {:induction false} AcceptedAt(ps: seq<ProducePartition>, n: nat, j: nat)
    requires j < n <= |ps| && FirstAccepted(ps, n)
    ensures AllEncodable(ps[j].messages)
  {
    if j < n - 1 {
      AcceptedAt(ps, n - 1, j);
    }
  }

  lemma {:induction false} TopicAcceptedAt(topics: seq<Topic<ProducePartition>>, n: nat, i: nat)
    requires i < n <= |topics| && TopicsAccepted(topics, n)
    ensures TopicAccepted(topics[i])
  {
    if i < n - 1 {
      TopicAcceptedAt(topics, n - 1, i);
    }
  }

  lemma AcceptedSets(crc: Checksum, r: Request)
    requires Accepted(crc, r)
    ensures SetsEncodable(r)
  {
    if r.Produce? {
      forall i, j | 0 <= i < |r.produce| && 0 <= j < |r.produce[i].partitions|
        ensures AllEncodable(r.produce[i].partitions[j].messages)
      {
        TopicAcceptedAt(r.produce, |r.produce|, i);
        AcceptedAt(r.produce[i].partitions, |r.produce[i].partitions|, j);
      }
    }
  }
}
