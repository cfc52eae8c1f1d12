/** What a consumer subscribes to, which partitions it is assigned and where it
    stands in each of them. */
module Subscriptions {
  import opened Wire
  import opened Names
  import opened ClusterMetadata

  datatype ResetStrategy = Latest | Earliest | NoReset

  datatype OffsetAndMetadata = OffsetAndMetadata(offset: int, metadata: Option<Bytes>)

  datatype PartitionState = PartitionState(
    paused: bool,
    position: Option<int>,
    highWatermark: int,
    committed: Option<OffsetAndMetadata>,
    reset: Option<ResetStrategy>)
  {
    predicate IsFetchable() {
      !paused && position.Some?
    }

    function Seek(offset: int): (r: PartitionState) {
      this.(position := Some(offset), reset := None)
    }

    function NeedOffsetReset(strategy: ResetStrategy): (r: PartitionState) {
      this.(reset := Some(strategy))
    }
  }

  const FRESH := PartitionState(false, None, 0, None, None)

  type Held = map<TopicPartition, PartitionState>

  datatype SeekTo = Beginning | Position(offset: int) | End

  /** The state of a partition, kept if it was held and fresh otherwise. */
  function StateIn(held: Held, tp: TopicPartition): (s: PartitionState) {
    if tp in held then held[tp] else FRESH
  }

  /** The assignment map after the coordinator assigned the given partitions. */
  function Reassigned(held: Held, ps: seq<TopicPartition>): (r: Held)
    ensures r.Keys == Elements(ps)
  {
    map tp | tp in Elements(ps) :: StateIn(held, tp)
  }

  /** The partition is assigned in every one of these rebalances. */
  predicate KeptAlways(tp: TopicPartition, rounds: seq<seq<TopicPartition>>) {
    forall i :: 0 <= i < |rounds| ==> tp in rounds[i]
  }

  function ReassignedAll(held: Held, rounds: seq<seq<TopicPartition>>): (r: Held) {
    if rounds == [] then held else Reassigned(ReassignedAll(held, rounds[..|rounds| - 1]), rounds[|rounds| - 1])
  }

  /** A partition kept through any number of rebalances keeps its position,
      committed offset, pause flag, high watermark and reset strategy; one that
      was given up and comes back starts afresh. */
  lemma {:induction false} KeptUntouched(held: Held, rounds: seq<seq<TopicPartition>>, tp: TopicPartition)
    requires rounds != [] && tp in rounds[|rounds| - 1]
    ensures tp in ReassignedAll(held, rounds)
    ensures KeptAlways(tp, rounds) && tp in held ==> ReassignedAll(held, rounds)[tp] == held[tp]
    ensures !KeptAlways(tp, rounds) || tp !in held ==> ReassignedAll(held, rounds)[tp] == FRESH
  {
    var front, last := rounds[..|rounds| - 1], rounds[|rounds| - 1];
    assert KeptAlways(tp, rounds) <==> KeptAlways(tp, front) && tp in last by {
      assert forall i :: 0 <= i < |front| ==> front[i] == rounds[i];
    }
    if front != [] {
      if tp in front[|front| - 1] {
        KeptUntouched(held, front, tp);
      } else {
        assert front[|front| - 1] == rounds[|front| - 1];
      }
    }
  }

  /** The shared subscription state of one consumer. */
  class SubscriptionState {
    const defaultReset: ResetStrategy
    var subscription: set<Name>
    var groupSubscription: set<Name>
    var assignment: Held

    constructor (topics: set<Name>, defaultReset: ResetStrategy)
      ensures subscription == topics && groupSubscription == topics && assignment == map[]
      ensures this.defaultReset == defaultReset
    {
      this.defaultReset := defaultReset;
      subscription, groupSubscription, assignment := topics, topics, map[];
    }

    method GroupSubscribe(topics: set<Name>)
      modifies this`groupSubscription
      ensures groupSubscription == old(groupSubscription) + topics
    {
      groupSubscription := groupSubscription + topics;
    }

    /** Adopt the partitions the coordinator assigned, unless one of them belongs
        to a topic that is not subscribed: then nothing changes. */
    method AssignFromSubscribed(ps: seq<TopicPartition>) returns (ok: bool)
      modifies this`assignment
      ensures ok <==> forall tp :: tp in ps ==> tp.topic in subscription
      ensures assignment == if ok then Reassigned(old(assignment), ps) else old(assignment)
    {
      for i := 0 to |ps|
        invariant forall j :: 0 <= j < i ==> ps[j].topic in subscription
      {
        if ps[i].topic !in subscription {
          return false;
        }
      }
      var next: Held := map[];
      for i := 0 to |ps|
        invariant next == Reassigned(old(assignment), ps[..i])
      {
        assert ps[..i + 1] == ps[..i] + [ps[i]];
        next := next[ps[i] := StateIn(assignment, ps[i])];
      }
      assert ps[..|ps|] == ps;
      assignment := next;
      ok := true;
    }

    /** Move one partition; every other partition keeps its state. */
    method Seek(tp: TopicPartition, pos: SeekTo) returns (ok: bool)
      modifies this`assignment
      ensures ok <==> tp in old(assignment)
      ensures !ok ==> assignment == old(assignment)
      ensures ok ==> assignment == old(assignment)[tp :=
                match pos
                case Beginning => old(assignment)[tp].NeedOffsetReset(Earliest)
                case Position(offset) => old(assignment)[tp].Seek(offset)
                case End => old(assignment)[tp].NeedOffsetReset(Latest)]
    {
      if tp !in assignment {
        return false;
      }
      var s := assignment[tp];
      match pos {
        case Beginning => s := s.NeedOffsetReset(Earliest);
        case Position(offset) => s := s.Seek(offset);
        case End => s := s.NeedOffsetReset(Latest);
      }
      assignment := assignment[tp := s];
      ok := true;
    }

    method Pause(tp: TopicPartition) returns (ok: bool)
      modifies this`assignment
      ensures ok <==> tp in old(assignment)
      ensures assignment == if ok then old(assignment)[tp := old(assignment)[tp].(paused := true)] else old(assignment)
    {
      ok := tp in assignment;
      if ok {
        assignment := assignment[tp := assignment[tp].(paused := true)];
      }
    }

    /** `resume` sets the flag that `pause` sets: a partition it is applied to is
        paused afterwards and cannot be fetched, whatever it was before. */
    method Resume(tp: TopicPartition) returns (ok: bool)
      modifies this`assignment
      ensures ok <==> tp in old(assignment)
      ensures assignment == if ok then old(assignment)[tp := old(assignment)[tp].(paused := true)] else old(assignment)
      ensures ok ==> !assignment[tp].IsFetchable()
    {
      ok := tp in assignment;
      if ok {
        assignment := assignment[tp := assignment[tp].(paused := true)];
      }
    }
  }
}
