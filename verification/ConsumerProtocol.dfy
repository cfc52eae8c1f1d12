/** How subscriptions and assignments travel between the members of a group. */
module ConsumerProtocol {
  import opened Wire
  import opened Names
  import opened Schema
  import opened ClusterMetadata
  import opened Assignor

  const VERSION := 0

  datatype TopicAssignment = TopicAssignment(topic: Name, partitions: seq<int>)

  // ----- stable sorting by topic -----

  ghost function Topics(ps: seq<TopicPartition>): (ts: set<Name>) {
    set tp | tp in ps :: tp.topic
  }

  /** The partitions of the given topics, topic by topic, in the order given. */
  function Gather(ps: seq<TopicPartition>, ts: seq<Name>): (r: seq<TopicPartition>) {
    if ts == [] then [] else OfTopic(ps, ts[0]) + Gather(ps, ts[1..])
  }

  /** The stable sort of a vector of partitions by topic name. */
  ghost function ByTopic(ps: seq<TopicPartition>): (r: seq<TopicPartition>) {
    Gather(ps, Ascending(Topics(ps)))
  }

  lemma {:induction false} OfTopicHas(ps: seq<TopicPartition>, t: Name, tp: TopicPartition)
    ensures tp in OfTopic(ps, t) <==> tp in ps && tp.topic == t
  {
    if ps != [] {
      OfTopicHas(ps[..|ps| - 1], t, tp);
      assert ps == ps[..|ps| - 1] + [ps[|ps| - 1]];
    }
  }

  lemma OfTopicTwice(ps: seq<TopicPartition>, t: Name, u: Name)
    ensures OfTopic(OfTopic(ps, t), u) == if t == u then OfTopic(ps, t) else []
  {
    forall tp | tp in OfTopic(ps, t)
      ensures tp.topic == t
    {
      OfTopicHas(ps, t, tp);
    }
    if t == u {
      OfTopicAll(OfTopic(ps, t), u);
    } else {
      OfTopicNone(OfTopic(ps, t), u);
    }
  }

  lemma {:induction false} GatherOfTopic(ps: seq<TopicPartition>, ts: seq<Name>, t: Name)
    requires Distinct(ts)
    ensures OfTopic(Gather(ps, ts), t) == if t in ts then OfTopic(ps, t) else []
  {
    if ts != [] {
      GatherOfTopic(ps, ts[1..], t);
      OfTopicConcat(OfTopic(ps, ts[0]), Gather(ps, ts[1..]), t);
      OfTopicTwice(ps, ts[0], t);
      assert ts == [ts[0]] + ts[1..];
    }
  }

  lemma {:induction false} GatherHas(ps: seq<TopicPartition>, ts: seq<Name>, tp: TopicPartition)
    requires tp in Gather(ps, ts)
    ensures tp in ps && tp.topic in ts
  {
    if ts != [] {
      if tp in OfTopic(ps, ts[0]) {
        OfTopicHas(ps, ts[0], tp);
      } else {
        GatherHas(ps, ts[1..], tp);
      }
    }
  }

  lemma {:induction false} GatherSorted(ps: seq<TopicPartition>, ts: seq<Name>)
    requires Sorted(ts)
    ensures TopicSorted(Gather(ps, ts))
  {
    if ts != [] {
      var p, q := OfTopic(ps, ts[0]), Gather(ps, ts[1..]);
      GatherSorted(ps, ts[1..]);
      LeqTotal(ts[0], ts[0]);
      forall x | x in p
        ensures x.topic == ts[0]
      {
        OfTopicHas(ps, ts[0], x);
      }
      forall y | y in q
        ensures Leq(ts[0], y.topic)
      {
        GatherHas(ps, ts[1..], y);
        var i :| 0 <= i < |ts[1..]| && ts[1..][i] == y.topic;
        assert ts[i + 1] == y.topic;
      }
      SortedJoin(p, q);
    }
  }

  /** ByTopic is in topic order and keeps, for every topic, the partitions and
      their order: it is the stable sort, by StableSortUnique. */
  lemma ByTopicIsStableSort(ps: seq<TopicPartition>, t: Name)
    ensures TopicSorted(ByTopic(ps))
    ensures OfTopic(ByTopic(ps), t) == OfTopic(ps, t)
  {
    var ts := Ascending(Topics(ps));
    GatherSorted(ps, ts);
    GatherOfTopic(ps, ts, t);
    assert t in ts <==> t in Elements(ts);
    if t !in ts {
      OfTopicNone(ps, t);
    }
  }

  lemma LastOfTopic(ps: seq<TopicPartition>, t: Name)
    requires TopicSorted(ps) && OfTopic(ps, t) != []
    ensures ps != [] && Leq(t, ps[|ps| - 1].topic)
  {
    var tp := OfTopic(ps, t)[0];
    OfTopicHas(ps, t, tp);
    LeqTotal(t, t);
  }

  lemma EmptyUnlessTopic(q: seq<TopicPartition>)
    requires forall t :: OfTopic(q, t) == []
    ensures q == []
  {
    assert q != [] ==> OfTopic(q, q[|q| - 1].topic) != [];
  }

  /** Only one vector is in topic order and keeps every topic's partitions. */
  lemma {:induction false} StableSortUnique(p: seq<TopicPartition>, q: seq<TopicPartition>)
    requires TopicSorted(p) && TopicSorted(q) && forall t :: OfTopic(p, t) == OfTopic(q, t)
    ensures p == q
    decreases |p|
  {
    if p == [] {
      assert q == [] by { EmptyUnlessTopic(q); }
    } else {
      var x := p[|p| - 1];
      assert OfTopic(p, x.topic) == OfTopic(q, x.topic);
      LastOfTopic(q, x.topic);
      var y := q[|q| - 1];
      assert OfTopic(p, y.topic) == OfTopic(q, y.topic);
      LastOfTopic(p, y.topic);
      LeqAntisymmetric(x.topic, y.topic);
      var p', q' := p[..|p| - 1], q[..|q| - 1];
      assert OfTopic(p', x.topic) + [x] == OfTopic(q', x.topic) + [y];
      assert (OfTopic(p', x.topic) + [x])[|OfTopic(p', x.topic)|] == x;
      forall t
        ensures OfTopic(p', t) == OfTopic(q', t)
      {
        SameFront(p, q, t);
      }
      StableSortUnique(p', q');
      assert p == p' + [x] && q == q' + [y];
    }
  }

  lemma SameFront(p: seq<TopicPartition>, q: seq<TopicPartition>, t: Name)
    requires p != [] && q != [] && p[|p| - 1] == q[|q| - 1] && OfTopic(p, t) == OfTopic(q, t)
    ensures OfTopic(p[..|p| - 1], t) == OfTopic(q[..|q| - 1], t)
  {
    var a, b, x := OfTopic(p[..|p| - 1], t), OfTopic(q[..|q| - 1], t), p[|p| - 1];
    if x.topic == t {
      assert a + [x] == b + [x];
      assert a == (a + [x])[..|a + [x]| - 1] && b == (b + [x])[..|b + [x]| - 1];
    } else {
      assert a + [] == a && b + [] == b;
    }
  }

  /** A vector already in topic order is its own stable sort. */
  lemma SortedStays(ps: seq<TopicPartition>)
    requires TopicSorted(ps)
    ensures ByTopic(ps) == ps
  {
    forall t
      ensures TopicSorted(ByTopic(ps)) && OfTopic(ByTopic(ps), t) == OfTopic(ps, t)
    {
      ByTopicIsStableSort(ps, t);
    }
    assert TopicSorted(ByTopic(ps)) by { ByTopicIsStableSort(ps, Name([])); }
    StableSortUnique(ByTopic(ps), ps);
  }

  lemma ByTopicHas(ps: seq<TopicPartition>, tp: TopicPartition)
    ensures tp in ByTopic(ps) <==> tp in ps
  {
    ByTopicIsStableSort(ps, tp.topic);
    OfTopicHas(ps, tp.topic, tp);
    OfTopicHas(ByTopic(ps), tp.topic, tp);
  }

  // ----- grouping and flattening -----

  function Ids(ps: seq<TopicPartition>): (r: seq<int>)
    ensures |r| == |ps| && forall i :: 0 <= i < |r| ==> r[i] == ps[i].partition
  {
    seq(|ps|, i requires 0 <= i < |ps| => ps[i].partition)
  }

  function WithTopic(t: Name, ids: seq<int>): (r: seq<TopicPartition>)
    ensures |r| == |ids| && forall i :: 0 <= i < |r| ==> r[i] == TopicPartition(t, ids[i])
  {
    seq(|ids|, i requires 0 <= i < |ids| => TopicPartition(t, ids[i]))
  }

  function Groups(ps: seq<TopicPartition>, ts: seq<Name>): (r: seq<TopicAssignment>)
    ensures |r| == |ts|
  {
    if ts == [] then [] else [TopicAssignment(ts[0], Ids(OfTopic(ps, ts[0])))] + Groups(ps, ts[1..])
  }

  function Flatten(tas: seq<TopicAssignment>): (r: seq<TopicPartition>) {
    if tas == [] then [] else WithTopic(tas[0].topic, tas[0].partitions) + Flatten(tas[1..])
  }

  lemma {:induction false} FlattenGroups(ps: seq<TopicPartition>, ts: seq<Name>)
    ensures Flatten(Groups(ps, ts)) == Gather(ps, ts)
  {
    if ts != [] {
      var q := OfTopic(ps, ts[0]);
      FlattenGroups(ps, ts[1..]);
      assert Groups(ps, ts)[1..] == Groups(ps, ts[1..]);
      forall i | 0 <= i < |q|
        ensures q[i].topic == ts[0]
      {
        OfTopicHas(ps, ts[0], q[i]);
      }
      assert WithTopic(ts[0], Ids(q)) == q;
    }
  }

  // ----- bytes of an assignment -----

  function TopicBytes(ta: TopicAssignment): (r: Option<Bytes>) {
    match StrBytes(Some(ta.topic.text))
    case None => None
    case Some(s) =>
      if |ta.partitions| > I32_MAX then None else Some(s + I32Bytes(|ta.partitions|) + I32sBytes(ta.partitions))
  }

  function TopicsBytes(tas: seq<TopicAssignment>): (r: Option<Bytes>) {
    if tas == [] then Some([])
    else
      match (TopicBytes(tas[0]), TopicsBytes(tas[1..]))
      case (Some(x), Some(xs)) => Some(x + xs)
      case _ => None
  }

  /** The assignment schema: version, topics with their partitions, user data. */
  function SchemaBytes(tas: seq<TopicAssignment>, userData: Option<Bytes>): (r: Option<Bytes>) {
    match (TopicsBytes(tas), BlobBytes(userData))
    case (Some(xs), Some(d)) =>
      if |tas| > I32_MAX then None else Some(I16Bytes(VERSION) + (I32Bytes(|tas|) + (xs + d)))
    case _ => None
  }

  /** `Schema::serialize` of an assignment. */
  ghost function EncodeAssignment(a: Assignment): (r: Option<Bytes>) {
    SchemaBytes(Groups(a.partitions, Ascending(Topics(a.partitions))), a.userData)
  }

  function ReadTopic(input: Bytes): (r: Parsed<TopicAssignment>) {
    match ReadStr(input)
    case Done(rest, s) =>
      (match ParseI32(rest)
       case Done(rest', n) =>
         (match ReadI32s(rest', n)
          case Done(rest'', ids) => Done(rest'', TopicAssignment(Name(s), ids))
          case Incomplete => Error
          case Error => Error)
       case Incomplete => Error
       case Error => Error)
    case Incomplete => Error
    case Error => Error
  }

  function ReadTopics(input: Bytes, n: int): (r: Parsed<seq<TopicAssignment>>)
    decreases if n > 0 then n else 0
  {
    if n <= 0 then Done(input, [])
    else
      match ReadTopic(input)
      case Done(rest, x) =>
        (match ReadTopics(rest, n - 1)
         case Done(rest', xs) => Done(rest', [x] + xs)
         case Incomplete => Error
         case Error => Error)
      case Incomplete => Error
      case Error => Error
  }

  function ReadSchema(input: Bytes): (r: Parsed<(int, seq<TopicAssignment>, Option<Bytes>)>) {
    match ParseI16(input)
    case Done(rest, version) =>
      (match ParseI32(rest)
       case Done(rest', n) =>
         (match ReadTopics(rest', n)
          case Done(rest'', tas) =>
            (match ReadNullable(rest'')
             case Done(end, d) => Done(end, (version, tas, d))
             case Incomplete => Error
             case Error => Error)
          case Incomplete => Error
          case Error => Error)
       case Incomplete => Error
       case Error => Error)
    case Incomplete => Error
    case Error => Error
  }

  /** `Schema::deserialize` of an assignment; bytes after it are ignored. */
  function DecodeAssignment(input: Bytes): (r: Option<Assignment>) {
    match ReadSchema(input)
    case Done(_, (version, tas, d)) => if version < VERSION then None else Some(Assignment(Flatten(tas), d))
    case Incomplete => None
    case Error => None
  }

  // ----- round trip -----

  predicate Legal(ta: TopicAssignment) {
    forall x :: x in ta.partitions ==> IsI32(x)
  }

  lemma TopicRoundTrip(ta: TopicAssignment, rest: Bytes)
    requires TopicBytes(ta).Some? && Legal(ta)
    ensures ReadTopic(TopicBytes(ta).value + rest) == if Utf8(ta.topic.text) then Done(rest, ta) else Error
  {
    var s, n, v := StrBytes(Some(ta.topic.text)).value, |ta.partitions|, I32sBytes(ta.partitions);
    assert TopicBytes(ta).value + rest == s + (I32Bytes(n) + (v + rest));
    StrRoundTrip(ta.topic.text, I32Bytes(n) + (v + rest));
    I32RoundTrip(n, v + rest);
    I32sRoundTrip(ta.partitions, rest);
  }

  predicate Readable(tas: seq<TopicAssignment>) {
    forall ta :: ta in tas ==> Utf8(ta.topic.text)
  }

  lemma ReadableCons(tas: seq<TopicAssignment>)
    requires tas != []
    ensures tas == [tas[0]] + tas[1..]
    ensures Readable(tas) <==> Utf8(tas[0].topic.text) && Readable(tas[1..])
  {
  }

  lemma {:induction false} TopicsRoundTrip(tas: seq<TopicAssignment>, rest: Bytes)
    requires TopicsBytes(tas).Some? && forall ta :: ta in tas ==> Legal(ta)
    ensures ReadTopics(TopicsBytes(tas).value + rest, |tas|) == if Readable(tas) then Done(rest, tas) else Error
  {
    if tas == [] {
      assert TopicsBytes(tas).value + rest == rest;
    } else {
      var x, xs := TopicBytes(tas[0]).value, TopicsBytes(tas[1..]).value;
      Assoc(x, xs, rest);
      TopicRoundTrip(tas[0], xs + rest);
      TopicsRoundTrip(tas[1..], rest);
      ReadableCons(tas);
    }
  }

  lemma SchemaHead(n: nat, body: Bytes)
    requires n <= I32_MAX
    ensures ParseI16(I16Bytes(VERSION) + (I32Bytes(n) + body)) == Done(I32Bytes(n) + body, VERSION)
    ensures ParseI32(I32Bytes(n) + body) == Done(body, n)
  {
    I16RoundTrip(VERSION, I32Bytes(n) + body);
    I32RoundTrip(n, body);
  }

  lemma SchemaBody(tas: seq<TopicAssignment>, userData: Option<Bytes>)
    requires TopicsBytes(tas).Some? && BlobBytes(userData).Some? && forall ta :: ta in tas ==> Legal(ta)
    ensures ReadTopics(TopicsBytes(tas).value + BlobBytes(userData).value, |tas|)
         == if Readable(tas) then Done(BlobBytes(userData).value, tas) else Error
    ensures ReadNullable(BlobBytes(userData).value) == Done([], Normal(userData))
  {
    var d := BlobBytes(userData).value;
    TopicsRoundTrip(tas, d);
    NullableRoundTrip(userData, []);
    assert d == d + [];
  }

  lemma SchemaRoundTrip(tas: seq<TopicAssignment>, userData: Option<Bytes>)
    requires SchemaBytes(tas, userData).Some? && forall ta :: ta in tas ==> Legal(ta)
    ensures ReadSchema(SchemaBytes(tas, userData).value)
         == if Readable(tas) then Done([], (VERSION, tas, Normal(userData))) else Error
  {
    SchemaHead(|tas|, TopicsBytes(tas).value + BlobBytes(userData).value);
    SchemaBody(tas, userData);
  }

  predicate LegalIds(ps: seq<TopicPartition>) {
    forall tp :: tp in ps ==> IsI32(tp.partition)
  }

  lemma {:induction false} GroupsLegal(ps: seq<TopicPartition>, ts: seq<Name>)
    requires LegalIds(ps)
    ensures forall ta :: ta in Groups(ps, ts) ==> Legal(ta)
    ensures Readable(Groups(ps, ts)) <==> forall t :: t in ts ==> Utf8(t.text)
  {
    if ts != [] {
      var q := OfTopic(ps, ts[0]);
      GroupsLegal(ps, ts[1..]);
      forall i | 0 <= i < |q|
        ensures IsI32(q[i].partition)
      {
        OfTopicHas(ps, ts[0], q[i]);
      }
      var g := TopicAssignment(ts[0], Ids(q));
      assert Groups(ps, ts) == [g] + Groups(ps, ts[1..]);
      assert Legal(g);
      assert ts == [ts[0]] + ts[1..];
      assert g in Groups(ps, ts);
    }
  }

  /** Deserializing a serialized assignment gives the stable sort of its
      partitions by topic name, and the user data with empty turned into absent;
      it fails exactly when some topic name is not UTF-8. */
  lemma AssignmentRoundTrip(a: Assignment)
    requires EncodeAssignment(a).Some? && LegalIds(a.partitions)
    ensures DecodeAssignment(EncodeAssignment(a).value)
         == if forall tp :: tp in a.partitions ==> Utf8(tp.topic.text)
            then Some(Assignment(ByTopic(a.partitions), Normal(a.userData)))
            else None
  {
    var ps := a.partitions;
    var ts := Ascending(Topics(ps));
    GroupsLegal(ps, ts);
    SchemaRoundTrip(Groups(ps, ts), a.userData);
    FlattenGroups(ps, ts);
    assert forall t :: t in ts <==> t in Elements(ts);
    assert (forall t :: t in ts ==> Utf8(t.text)) <==> (forall tp :: tp in ps ==> Utf8(tp.topic.text)) by {
      assert forall tp :: tp in ps ==> tp.topic in Topics(ps);
    }
  }

  /** An assignment in topic order without empty user data, such as both
      assignors produce, arrives unchanged. */
  lemma SortedAssignmentArrives(a: Assignment)
    requires EncodeAssignment(a).Some? && LegalIds(a.partitions) && TopicSorted(a.partitions)
    requires a.userData != Some([]) && forall tp :: tp in a.partitions ==> Utf8(tp.topic.text)
    ensures DecodeAssignment(EncodeAssignment(a).value) == Some(a)
  {
    AssignmentRoundTrip(a);
    SortedStays(a.partitions);
  }

  lemma VersionHead(version: int, n: nat, body: Bytes)
    requires IsI16(version) && n <= I32_MAX
    ensures ParseI16(I16Bytes(version) + (I32Bytes(n) + body)) == Done(I32Bytes(n) + body, version)
    ensures ParseI32(I32Bytes(n) + body) == Done(body, n)
  {
    I16RoundTrip(version, I32Bytes(n) + body);
    I32RoundTrip(n, body);
  }

  /** Under any version, and with any bytes behind it, an assignment is read as under
      this client's own version, except that negative versions are refused. */
  lemma AnyVersionAssignment(version: int, tas: seq<TopicAssignment>, userData: Option<Bytes>, tail: Bytes)
    requires IsI16(version) && |tas| <= I32_MAX && TopicsBytes(tas).Some? && BlobBytes(userData).Some?
    requires forall ta :: ta in tas ==> Legal(ta)
    ensures DecodeAssignment(
              I16Bytes(version)
              + (I32Bytes(|tas|) + (TopicsBytes(tas).value + (BlobBytes(userData).value + tail))))
         == if version >= 0 && Readable(tas) then Some(Assignment(Flatten(tas), Normal(userData))) else None
  {
    var d := BlobBytes(userData).value + tail;
    VersionHead(version, |tas|, TopicsBytes(tas).value + d);
    TopicsRoundTrip(tas, d);
    NullableRoundTrip(userData, tail);
  }

  // ----- when serializing succeeds -----

  predicate Fits(ta: TopicAssignment) {
    |ta.topic.text| <= I16_MAX && |ta.partitions| <= I32_MAX
  }

  lemma {:induction false} TopicsFit(tas: seq<TopicAssignment>)
    ensures TopicsBytes(tas).Some? <==> forall ta :: ta in tas ==> Fits(ta)
  {
    if tas != [] {
      TopicsFit(tas[1..]);
      assert tas == [tas[0]] + tas[1..];
      assert TopicBytes(tas[0]).Some? <==> Fits(tas[0]);
    }
  }

  lemma {:induction false} GroupsFit(ps: seq<TopicPartition>, ts: seq<Name>)
    ensures (forall ta :: ta in Groups(ps, ts) ==> Fits(ta)) <==>
            (forall t :: t in ts ==> |t.text| <= I16_MAX && |OfTopic(ps, t)| <= I32_MAX)
  {
    if ts != [] {
      GroupsFit(ps, ts[1..]);
      var g := TopicAssignment(ts[0], Ids(OfTopic(ps, ts[0])));
      assert Groups(ps, ts) == [g] + Groups(ps, ts[1..]);
      assert ts == [ts[0]] + ts[1..];
      assert g in Groups(ps, ts) && ts[0] in ts;
    }
  }

  /** Serializing fails exactly when a topic name does not fit its 16-bit length,
      or a count or the user data its 32-bit length. */
  lemma EncodeAssignmentSucceeds(a: Assignment)
    ensures EncodeAssignment(a).Some? <==>
            && |Topics(a.partitions)| <= I32_MAX
            && OptLen(a.userData) <= I32_MAX
            && forall t :: t in Topics(a.partitions) ==> |t.text| <= I16_MAX && |OfTopic(a.partitions, t)| <= I32_MAX
  {
    var ts := Ascending(Topics(a.partitions));
    TopicsFit(Groups(a.partitions, ts));
    GroupsFit(a.partitions, ts);
    assert forall t :: t in ts <==> t in Elements(ts);
  }

  // ----- the serializer -----

  function Got(m: map<Name, seq<int>>, t: Name): (ids: seq<int>) {
    if t in m then m[t] else []
  }

  /** `entry(topic).or_insert_with(Vec::new).push(id)`. */
  function Push(m: map<Name, seq<int>>, tp: TopicPartition): (r: map<Name, seq<int>>) {
    m[tp.topic := Got(m, tp.topic) + [tp.partition]]
  }

  /** The partition ids of the partitions seen so far, by topic. */
  ghost predicate Filled(ps: seq<TopicPartition>, m: map<Name, seq<int>>) {
    m.Keys == Topics(ps) && forall t :: Got(m, t) == Ids(OfTopic(ps, t))
  }

  lemma TopicsSnoc(ps: seq<TopicPartition>, tp: TopicPartition)
    ensures Topics(ps + [tp]) == Topics(ps) + {tp.topic}
  {
    assert forall x :: x in ps + [tp] <==> x in ps || x == tp;
  }

  lemma PushGot(ps: seq<TopicPartition>, m: map<Name, seq<int>>, tp: TopicPartition, t: Name)
    requires Got(m, t) == Ids(OfTopic(ps, t))
    ensures Got(Push(m, tp), t) == Ids(OfTopic(ps + [tp], t))
  {
    assert (ps + [tp])[..|ps|] == ps;
  }

  lemma FilledOne(ps: seq<TopicPartition>, m: map<Name, seq<int>>, tp: TopicPartition)
    requires Filled(ps, m)
    ensures Filled(ps + [tp], Push(m, tp))
  {
    TopicsSnoc(ps, tp);
    forall t
      ensures Got(Push(m, tp), t) == Ids(OfTopic(ps + [tp], t))
    {
      PushGot(ps, m, tp, t);
    }
  }

  lemma FilledNone(ps: seq<TopicPartition>)
    requires ps == []
    ensures Filled(ps, map[])
  {
  }

  /** Group the partition ids by topic. */
  method Group(ps: seq<TopicPartition>) returns (m: map<Name, seq<int>>)
    ensures Filled(ps, m)
  {
    m := map[];
    FilledNone(ps[..0]);
    for k := 0 to |ps|
      invariant Filled(ps[..k], m)
    {
      FilledOne(ps[..k], m, ps[k]);
      assert ps[..k + 1] == ps[..k] + [ps[k]];
      m := Push(m, ps[k]);
    }
    assert ps[..|ps|] == ps;
  }

  /** `Serialize for Assignment`: group by topic in a hash map, sort the groups by
      topic name, write them out. The order of the hash map does not matter. */
  method SerializeAssignment(a: Assignment) returns (r: Option<Bytes>)
    ensures r == EncodeAssignment(a)
  {
    var m := Group(a.partitions);
    var ts := CollectSorted(m.Keys);
    assert forall t :: t in ts <==> t in Elements(ts);
    var tas := CollectGroups(a.partitions, m, ts);
    r := SerializeSchema(tas, a.userData);
  }

  method CollectGroups(ghost ps: seq<TopicPartition>, m: map<Name, seq<int>>, ts: seq<Name>)
    returns (tas: seq<TopicAssignment>)
    requires Filled(ps, m) && forall t :: t in ts ==> t in m
    ensures tas == Groups(ps, ts)
  {
    tas := [];
    for k := |ts| downto 0
      invariant tas == Groups(ps, ts[k..])
    {
      assert ts[k..][1..] == ts[k + 1..] && ts[k..][0] == ts[k];
      assert Got(m, ts[k]) == Ids(OfTopic(ps, ts[k]));
      tas := [TopicAssignment(ts[k], m[ts[k]])] + tas;
    }
    assert ts[0..] == ts;
  }

  lemma {:induction false} TopicsBytesConcat(p: seq<TopicAssignment>, ta: TopicAssignment)
    ensures TopicsBytes(p + [ta]) ==
            if TopicsBytes(p).Some? && TopicBytes(ta).Some?
            then Some(TopicsBytes(p).value + TopicBytes(ta).value) else None
  {
    if p == [] {
      assert p + [ta] == [ta];
      assert TopicsBytes([ta][1..]) == Some([]);
      if TopicBytes(ta).Some? {
        assert TopicBytes(ta).value + [] == TopicBytes(ta).value == [] + TopicBytes(ta).value;
      }
    } else {
      TopicsBytesConcat(p[1..], ta);
      assert (p + [ta])[1..] == p[1..] + [ta];
      if TopicsBytes(p + [ta]).Some? {
        Assoc(TopicBytes(p[0]).value, TopicsBytes(p[1..]).value, TopicBytes(ta).value);
      }
    }
  }

  lemma {:induction false} TopicsBytesPrefix(tas: seq<TopicAssignment>, k: nat)
    requires k <= |tas| && TopicsBytes(tas[..k]).None?
    ensures TopicsBytes(tas).None?
  {
    TopicsFit(tas);
    TopicsFit(tas[..k]);
  }

  method WriteTopic(buf: ByteBuf, ta: TopicAssignment) returns (ok: bool)
    modifies buf
    ensures ok <==> TopicBytes(ta).Some?
    ensures ok ==> buf.data == old(buf.data) + TopicBytes(ta).value
  {
    ok := buf.PutStr(Some(ta.topic.text));
    if !ok || |ta.partitions| > I32_MAX {
      return false;
    }
    buf.Put(I32Bytes(|ta.partitions|));
    WriteIds(buf, ta.partitions);
    assert buf.data == old(buf.data) + TopicBytes(ta).value;
  }

  method WriteTopics(buf: ByteBuf, tas: seq<TopicAssignment>) returns (ok: bool)
    modifies buf
    ensures ok <==> TopicsBytes(tas).Some?
    ensures ok ==> buf.data == old(buf.data) + TopicsBytes(tas).value
  {
    assert TopicsBytes(tas[..0]) == Some([]);
    for k := 0 to |tas|
      invariant TopicsBytes(tas[..k]).Some? && buf.data == old(buf.data) + TopicsBytes(tas[..k]).value
    {
      TopicsBytesConcat(tas[..k], tas[k]);
      assert tas[..k + 1] == tas[..k] + [tas[k]];
      ok := WriteTopic(buf, tas[k]);
      if !ok {
        TopicsBytesPrefix(tas, k + 1);
        return;
      }
      Assoc(old(buf.data), TopicsBytes(tas[..k]).value, TopicBytes(tas[k]).value);
    }
    assert tas[..|tas|] == tas;
    ok := true;
  }

  lemma FourParts(a: Bytes, b: Bytes, c: Bytes, d: Bytes)
    ensures [] + a + b + c + d == a + (b + (c + d))
  {
  }

  /** Write the schema to the serializer's buffer, field by field. */
  method SerializeSchema(tas: seq<TopicAssignment>, userData: Option<Bytes>) returns (r: Option<Bytes>)
    ensures r == SchemaBytes(tas, userData)
  {
    var buf := new ByteBuf();
    buf.Put(I16Bytes(VERSION));
    if |tas| > I32_MAX {
      return None;
    }
    buf.Put(I32Bytes(|tas|));
    var ok := WriteTopics(buf, tas);
    if !ok {
      return None;
    }
    ok := buf.PutBytes(userData);
    if !ok {
      return None;
    }
    r := Some(buf.data);
    FourParts(I16Bytes(VERSION), I32Bytes(|tas|), TopicsBytes(tas).value, BlobBytes(userData).value);
  }

  method WriteIds(buf: ByteBuf, v: seq<int>)
    modifies buf
    ensures buf.data == old(buf.data) + I32sBytes(v)
  {
    assert I32sBytes(v[..0]) == [];
    for k := 0 to |v|
      invariant buf.data == old(buf.data) + I32sBytes(v[..k])
    {
      I32sSnoc(v[..k], v[k]);
      assert v[..k + 1] == v[..k] + [v[k]];
      buf.Put(I32Bytes(v[k]));
    }
    assert v[..|v|] == v;
  }

  lemma {:induction false} I32sSnoc(v: seq<int>, x: int)
    ensures I32sBytes(v + [x]) == I32sBytes(v) + I32Bytes(x)
  {
    if v == [] {
      assert v + [x] == [x];
      assert I32sBytes([x][1..]) == [];
    } else {
      I32sSnoc(v[1..], x);
      assert (v + [x])[1..] == v[1..] + [x];
    }
  }

  // ----- the deserializer -----

  method DeserializeTopic(de: SchemaDeserializer) returns (r: Option<TopicAssignment>)
    modifies de
    ensures match ReadTopic(old(de.input))
            case Done(rest, ta) => r == Some(ta) && de.input == rest
            case Incomplete => false
            case Error => r == None
  {
    var s := de.Str();
    if s.None? {
      return None;
    }
    var ids := de.I32s();
    if ids.None? {
      return None;
    }
    r := Some(TopicAssignment(Name(s.value), ids.value));
  }

  method DeserializeTopics(de: SchemaDeserializer, n: int) returns (r: Option<seq<TopicAssignment>>)
    modifies de
    ensures match ReadTopics(old(de.input), n)
            case Done(rest, tas) => r == Some(tas) && de.input == rest
            case Incomplete => false
            case Error => r == None
  {
    var pos, acc := 0, [];
    ghost var start := de.input;
    PrependNoTopic(start, n);
    while pos < n
      invariant 0 <= pos && (pos <= n || pos == 0)
      invariant ReadTopics(start, n) == Prepend(acc, ReadTopics(de.input, n - pos))
    {
      pos := pos + 1;
      var ta := DeserializeTopic(de);
      if ta.None? {
        return None;
      }
      PrependOne(acc, ta.value, ReadTopics(de.input, n - pos));
      acc := acc + [ta.value];
    }
    assert acc + [] == acc;
    r := Some(acc);
  }

  lemma PrependNoTopic(input: Bytes, n: int)
    ensures ReadTopics(input, n) == Prepend([], ReadTopics(input, n))
  {
    match ReadTopics(input, n)
    case Done(_, v) => assert [] + v == v;
    case Incomplete =>
    case Error =>
  }

  /** `Deserialize for Assignment`. */
  method DeserializeAssignment(bytes: Bytes) returns (r: Option<Assignment>)
    ensures r == DecodeAssignment(bytes)
  {
    var de := new SchemaDeserializer(bytes);
    var version := de.I16();
    if version.None? {
      return None;
    }
    var n := de.I32();
    if n.None? {
      return None;
    }
    var tas := DeserializeTopics(de, n.value);
    if tas.None? {
      return None;
    }
    var userData := de.Nullable();
    if userData.None? || version.value < VERSION {
      return None;
    }
    r := Some(Assignment(Flatten(tas.value), userData.value));
  }

  // ----- subscriptions -----

  function NamesBytes(ns: seq<Name>): (r: Option<Bytes>) {
    if ns == [] then Some([])
    else
      match (StrBytes(Some(ns[0].text)), NamesBytes(ns[1..]))
      case (Some(x), Some(xs)) => Some(x + xs)
      case _ => None
  }

  /** The subscription schema: version, topics, user data. */
  function SubscriptionBytes(ts: seq<Name>, userData: Option<Bytes>): (r: Option<Bytes>) {
    match (NamesBytes(ts), BlobBytes(userData))
    case (Some(xs), Some(d)) =>
      if |ts| > I32_MAX then None else Some(I16Bytes(VERSION) + (I32Bytes(|ts|) + (xs + d)))
    case _ => None
  }

  /** `Schema::serialize` of a subscription: its topics are sorted first. */
  function EncodeSubscription(s: Subscription): (r: Option<Bytes>) {
    SubscriptionBytes(Sort(s.topics), s.userData)
  }

  function ReadNames(input: Bytes, n: int): (r: Parsed<seq<Name>>)
    decreases if n > 0 then n else 0
  {
    if n <= 0 then Done(input, [])
    else
      match ReadStr(input)
      case Done(rest, x) =>
        (match ReadNames(rest, n - 1)
         case Done(rest', xs) => Done(rest', [Name(x)] + xs)
         case Incomplete => Error
         case Error => Error)
      case Incomplete => Error
      case Error => Error
  }

  /** `Schema::deserialize` of a subscription. */
  function DecodeSubscription(input: Bytes): (r: Option<Subscription>) {
    match ParseI16(input)
    case Done(rest, version) =>
      (match ParseI32(rest)
       case Done(rest', n) =>
         (match ReadNames(rest', n)
          case Done(rest'', ts) =>
            (match ReadNullable(rest'')
             case Done(_, d) => if version < VERSION then None else Some(Subscription(ts, d))
             case Incomplete => None
             case Error => None)
          case Incomplete => None
          case Error => None)
       case Incomplete => None
       case Error => None)
    case Incomplete => None
    case Error => None
  }

  predicate AllUtf8(ns: seq<Name>) {
    forall n :: n in ns ==> Utf8(n.text)
  }

  lemma {:induction false} NamesRoundTrip(ns: seq<Name>, rest: Bytes)
    requires NamesBytes(ns).Some?
    ensures ReadNames(NamesBytes(ns).value + rest, |ns|) == if AllUtf8(ns) then Done(rest, ns) else Error
  {
    if ns == [] {
      assert NamesBytes(ns).value + rest == rest;
    } else {
      var x, xs := StrBytes(Some(ns[0].text)).value, NamesBytes(ns[1..]).value;
      assert NamesBytes(ns).value + rest == x + (xs + rest);
      StrRoundTrip(ns[0].text, xs + rest);
      NamesRoundTrip(ns[1..], rest);
      assert ns == [ns[0]] + ns[1..];
      assert AllUtf8(ns) <==> Utf8(ns[0].text) && AllUtf8(ns[1..]);
    }
  }

  lemma SubscriptionBody(ts: seq<Name>, userData: Option<Bytes>)
    requires NamesBytes(ts).Some? && BlobBytes(userData).Some? && AllUtf8(ts)
    ensures ReadNames(NamesBytes(ts).value + BlobBytes(userData).value, |ts|) == Done(BlobBytes(userData).value, ts)
    ensures ReadNullable(BlobBytes(userData).value) == Done([], Normal(userData))
  {
    var d := BlobBytes(userData).value;
    NamesRoundTrip(ts, d);
    NullableRoundTrip(userData, []);
    assert d == d + [];
  }

  lemma SubscriptionSchemaRoundTrip(ts: seq<Name>, userData: Option<Bytes>)
    requires SubscriptionBytes(ts, userData).Some? && AllUtf8(ts)
    ensures DecodeSubscription(SubscriptionBytes(ts, userData).value) == Some(Subscription(ts, Normal(userData)))
  {
    SchemaHead(|ts|, NamesBytes(ts).value + BlobBytes(userData).value);
    SubscriptionBody(ts, userData);
  }

  /** The same of a subscription. */
  lemma AnyVersionSubscription(version: int, ts: seq<Name>, userData: Option<Bytes>, tail: Bytes)
    requires IsI16(version) && |ts| <= I32_MAX && NamesBytes(ts).Some? && BlobBytes(userData).Some?
    ensures DecodeSubscription(
              I16Bytes(version)
              + (I32Bytes(|ts|) + (NamesBytes(ts).value + (BlobBytes(userData).value + tail))))
         == if version >= 0 && AllUtf8(ts) then Some(Subscription(ts, Normal(userData))) else None
  {
    var d := BlobBytes(userData).value + tail;
    VersionHead(version, |ts|, NamesBytes(ts).value + d);
    NamesRoundTrip(ts, d);
    NullableRoundTrip(userData, tail);
  }

  /** The leader decodes a member's subscription to the same topics, sorted. */
  lemma SubscriptionRoundTrip(s: Subscription)
    requires EncodeSubscription(s).Some? && AllUtf8(s.topics)
    ensures DecodeSubscription(EncodeSubscription(s).value) == Some(Subscription(Sort(s.topics), Normal(s.userData)))
    ensures forall t :: t in Sort(s.topics) <==> t in s.topics
  {
    SortPermutes(s.topics);
    SubscriptionSchemaRoundTrip(Sort(s.topics), s.userData);
  }

  lemma {:induction false} ReadNamesUtf8(input: Bytes, n: int)
    ensures ReadNames(input, n).Done? ==> AllUtf8(ReadNames(input, n).value)
    decreases if n > 0 then n else 0
  {
    if n > 0 && ReadStr(input).Done? {
      ReadNamesUtf8(ReadStr(input).rest, n - 1);
      ReadStrUtf8(input);
    }
  }

  lemma ReadStrUtf8(input: Bytes)
    ensures ReadStr(input).Done? ==> Utf8(ReadStr(input).value)
  {
  }

  /** The topics of a decoded subscription are UTF-8. */
  lemma DecodedTopicsUtf8(input: Bytes)
    ensures DecodeSubscription(input).Some? ==> AllUtf8(DecodeSubscription(input).value.topics)
  {
    match ParseI16(input)
    case Done(rest, _) =>
      match ParseI32(rest) {
        case Done(rest', n) => ReadNamesUtf8(rest', n);
        case Incomplete =>
        case Error =>
      }
    case Incomplete =>
    case Error =>
  }
}
