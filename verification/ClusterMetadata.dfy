/** Cluster metadata: which partitions a topic has and who leads them. */
module ClusterMetadata {
  import opened Wire
  import opened Names

  datatype TopicPartition = TopicPartition(topic: Name, partition: int)

  datatype Broker = Broker(id: int, host: Name, port: int)

  datatype PartitionInfo = PartitionInfo(partitionId: int, leader: Option<int>)

  datatype Metadata = Metadata(brokers: seq<Broker>, topics: map<Name, seq<PartitionInfo>>)

  /** `partitions_for_topic`: the ids are positions in the stored list. */
  function PartitionsForTopic(md: Metadata, t: Name): (r: Option<seq<TopicPartition>>)
    ensures r.Some? <==> t in md.topics
    ensures r.Some? ==> |r.value| == |md.topics[t]|
    ensures r.Some? ==> forall i :: 0 <= i < |r.value| ==> r.value[i] == TopicPartition(t, i)
  {
    if t in md.topics then
      Some(seq(|md.topics[t]|, i => TopicPartition(t, i)))
    else
      None
  }

  function FindPartition(md: Metadata, tp: TopicPartition): (r: Option<PartitionInfo>) {
    if tp.topic in md.topics && 0 <= tp.partition < |md.topics[tp.topic]| then
      Some(md.topics[tp.topic][tp.partition])
    else
      None
  }

  function FindBroker(brokers: seq<Broker>, id: int): (r: Option<Broker>)
    ensures r.Some? <==> exists b :: b in brokers && b.id == id
    ensures r.Some? ==> r.value in brokers && r.value.id == id
  {
    if brokers == [] then None
    else if brokers[0].id == id then Some(brokers[0])
    else FindBroker(brokers[1..], id)
  }

  function LeaderFor(md: Metadata, tp: TopicPartition): (r: Option<Broker>) {
    var info := FindPartition(md, tp);
    if info.Some? && info.value.leader.Some? then
      FindBroker(md.brokers, info.value.leader.value)
    else
      None
  }

  /** Every topic lists its partitions in the order 0, 1, 2, ... */
  predicate Numbered(md: Metadata) {
    forall t, i :: t in md.topics && 0 <= i < |md.topics[t]| ==> md.topics[t][i].partitionId == i
  }

  /** The entry stored under an id, wherever it stands. */
  function FindById(infos: seq<PartitionInfo>, id: int): (r: Option<PartitionInfo>)
    ensures r.Some? <==> exists i :: 0 <= i < |infos| && infos[i].partitionId == id
    ensures r.Some? ==> r.value in infos && r.value.partitionId == id
  {
    if infos == [] then None
    else if infos[0].partitionId == id then Some(infos[0])
    else FindById(infos[1..], id)
  }

  lemma {:induction false} FoundInPlace(infos: seq<PartitionInfo>, first: int, id: int)
    requires forall i :: 0 <= i < |infos| ==> infos[i].partitionId == first + i
    ensures FindById(infos, id) == if 0 <= id - first < |infos| then Some(infos[id - first]) else None
  {
    if infos != [] {
      assert infos[0].partitionId == first;
      forall i | 0 <= i < |infos[1..]|
        ensures infos[1..][i].partitionId == first + 1 + i
      {
        assert infos[1..][i] == infos[i + 1];
      }
      FoundInPlace(infos[1..], first + 1, id);
    }
  }

  /** The lookup goes by position and never reads the stored id: it finds what a search
      by id would, for every partition asked about, exactly when the broker listed the
      partitions of every topic in order. */
  lemma LookupByPosition(md: Metadata)
    ensures Numbered(md) <==>
            forall tp: TopicPartition :: tp.topic in md.topics ==>
                                           FindPartition(md, tp) == FindById(md.topics[tp.topic], tp.partition)
  {
    if Numbered(md) {
      forall tp: TopicPartition | tp.topic in md.topics
        ensures FindPartition(md, tp) == FindById(md.topics[tp.topic], tp.partition)
      {
        FoundInPlace(md.topics[tp.topic], 0, tp.partition);
      }
    } else {
      var t, i :| t in md.topics && 0 <= i < |md.topics[t]| && md.topics[t][i].partitionId != i;
      assert FindPartition(md, TopicPartition(t, i)) != FindById(md.topics[t], i);
    }
  }

  /** With partitions listed in order, a leader is found exactly when the entry
      stored under the partition's id names a broker that is listed. */
  lemma LeaderIsListed(md: Metadata, tp: TopicPartition)
    requires Numbered(md)
    ensures LeaderFor(md, tp).Some? <==>
              exists info, b :: tp.topic in md.topics && info in md.topics[tp.topic] && b in md.brokers
                                && info.partitionId == tp.partition && info.leader == Some(b.id)
  {
    if LeaderFor(md, tp).Some? {
      var info, b := FindPartition(md, tp).value, LeaderFor(md, tp).value;
      assert info in md.topics[tp.topic] && b in md.brokers && info.leader == Some(b.id);
    }
  }
}
