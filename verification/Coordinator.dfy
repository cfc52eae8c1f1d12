/** One member's side of the group protocol. */
module Coordinator {
  import opened Wire
  import opened Names
  import opened ClusterMetadata
  import opened Assignor
  import opened ConsumerProtocol
  import opened Schema
  import opened Subscriptions
  import RangeAssignor
  import RoundRobinAssignor

  datatype Generation = Generation(groupId: Name, generationId: int, memberId: Name, protocol: Name)

  datatype State =
    | Unjoined
    | Rebalancing(coordinator: int, generation: Generation)
    | Stable(coordinator: int, generation: Generation)

  datatype Strategy = Range | RoundRobin | Sticky | Custom(name: Name)

  datatype GroupMember = GroupMember(memberId: Name, metadata: Bytes)

  const RANGE := Name([0x72, 0x61, 0x6E, 0x67, 0x65])
  const ROUND_ROBIN := Name([0x72, 0x6F, 0x75, 0x6E, 0x64, 0x72, 0x6F, 0x62, 0x69, 0x6E])
  const STICKY := Name([0x73, 0x74, 0x69, 0x63, 0x6B, 0x79])

  /** `AssignmentStrategy::from_str`: the three names, anything else is custom. */
  function ParseStrategy(s: Name): (r: Strategy) {
    if s == RANGE then Range else if s == ROUND_ROBIN then RoundRobin else if s == STICKY then Sticky else Custom(s)
  }

  /** Kafka partition ids are 32-bit. */
  predicate WellFormed(md: Metadata) {
    forall t :: t in md.topics ==> |md.topics[t]| <= I32_MAX + 1
  }

  // ----- what the leader computes -----

  /** The subscriptions of the members; a later entry for the same id replaces an
      earlier one, and one undecodable entry fails the whole assignment. */
  function DecodeMembers(ms: seq<GroupMember>): (r: Option<Subscribers>) {
    if ms == [] then Some(map[])
    else
      match (DecodeMembers(ms[..|ms| - 1]), DecodeSubscription(ms[|ms| - 1].metadata))
      case (Some(subs), Some(s)) => Some(subs[ms[|ms| - 1].memberId := s])
      case _ => None
  }

  /** All topics that some entry names, replaced ones included. */
  function TopicsNamed(ms: seq<GroupMember>): (ts: set<Name>) {
    if ms == [] then {}
    else
      TopicsNamed(ms[..|ms| - 1])
      + match DecodeSubscription(ms[|ms| - 1].metadata)
        case Some(s) => Elements(s.topics)
        case None => {}
  }

  /** No later entry has the id of the i-th. */
  predicate IsLast(ms: seq<GroupMember>, i: nat) {
    i < |ms| && forall j :: i < j < |ms| ==> ms[j].memberId != ms[i].memberId
  }

  /** The bytes are those of a subscription to the topic. */
  predicate Declares(metadata: Bytes, t: Name) {
    DecodeSubscription(metadata).Some? && t in DecodeSubscription(metadata).value.topics
  }

  lemma {:induction false} EntryDecodes(ms: seq<GroupMember>, i: nat)
    requires DecodeMembers(ms).Some? && i < |ms|
    ensures DecodeSubscription(ms[i].metadata).Some? && ms[i].memberId in DecodeMembers(ms).value
  {
    if i < |ms| - 1 {
      EntryDecodes(ms[..|ms| - 1], i);
    }
  }

  lemma {:induction false} SomeUndecodable(ms: seq<GroupMember>) returns (i: nat)
    requires DecodeMembers(ms).None?
    ensures i < |ms| && DecodeSubscription(ms[i].metadata).None?
  {
    i := |ms| - 1;
    if DecodeSubscription(ms[i].metadata).Some? {
      i := SomeUndecodable(ms[..|ms| - 1]);
    }
  }

  /** Each id has the subscription that its last entry declares. */
  lemma {:induction false} LastEntryCounts(ms: seq<GroupMember>, i: nat)
    requires DecodeMembers(ms).Some? && IsLast(ms, i)
    ensures ms[i].memberId in DecodeMembers(ms).value
    ensures DecodeSubscription(ms[i].metadata) == Some(DecodeMembers(ms).value[ms[i].memberId])
  {
    if i < |ms| - 1 {
      var front := ms[..|ms| - 1];
      assert front[i] == ms[i] && ms[|ms| - 1].memberId != ms[i].memberId;
      LastEntryCounts(front, i);
    }
  }

  lemma {:induction false} HasLast(ms: seq<GroupMember>, m: Name) returns (i: nat)
    requires DecodeMembers(ms).Some? && m in DecodeMembers(ms).value
    ensures IsLast(ms, i) && ms[i].memberId == m
  {
    var front := ms[..|ms| - 1];
    i := |ms| - 1;
    if ms[i].memberId != m {
      assert DecodeMembers(front).Some? && m in DecodeMembers(front).value;
      i := HasLast(front, m);
      assert forall j :: i < j < |front| ==> front[j].memberId == ms[j].memberId != m;
    }
  }

  predicate AllDecode(ms: seq<GroupMember>) {
    forall i :: 0 <= i < |ms| ==> DecodeSubscription(ms[i].metadata).Some?
  }

  /** The members decode exactly when each entry does, and then exactly the ids that
      have an entry are there, each with what its last entry declares. */
  lemma MembersDecoded(ms: seq<GroupMember>)
    ensures DecodeMembers(ms).Some? <==> AllDecode(ms)
    ensures DecodeMembers(ms).Some? ==>
              forall m :: m in DecodeMembers(ms).value <==> exists i :: 0 <= i < |ms| && ms[i].memberId == m
    ensures DecodeMembers(ms).Some? ==>
              forall i :: 0 <= i < |ms| && IsLast(ms, i) ==>
                            DecodeSubscription(ms[i].metadata) == Some(DecodeMembers(ms).value[ms[i].memberId])
  {
    if DecodeMembers(ms).None? {
      var i := SomeUndecodable(ms);
      assert !AllDecode(ms);
    } else {
      forall i | 0 <= i < |ms|
        ensures DecodeSubscription(ms[i].metadata).Some? && ms[i].memberId in DecodeMembers(ms).value
      {
        EntryDecodes(ms, i);
      }
      forall i | 0 <= i < |ms| && IsLast(ms, i)
        ensures DecodeSubscription(ms[i].metadata) == Some(DecodeMembers(ms).value[ms[i].memberId])
      {
        LastEntryCounts(ms, i);
      }
      forall m | m in DecodeMembers(ms).value
        ensures exists i :: 0 <= i < |ms| && ms[i].memberId == m
      {
        var i := HasLast(ms, m);
      }
    }
  }

  lemma {:induction false} DeclaredIsNamed(ms: seq<GroupMember>, t: Name, i: nat)
    requires i < |ms| && Declares(ms[i].metadata, t)
    ensures t in TopicsNamed(ms)
  {
    if i < |ms| - 1 {
      DeclaredIsNamed(ms[..|ms| - 1], t, i);
    }
  }

  lemma {:induction false} SomeDeclares(ms: seq<GroupMember>, t: Name) returns (i: nat)
    requires t in TopicsNamed(ms)
    ensures i < |ms| && Declares(ms[i].metadata, t)
  {
    i := |ms| - 1;
    if !Declares(ms[i].metadata, t) {
      i := SomeDeclares(ms[..|ms| - 1], t);
    }
  }

  /** The topics named are those that some entry declares. */
  lemma NamedIsDeclared(ms: seq<GroupMember>, t: Name)
    ensures t in TopicsNamed(ms) <==> exists i :: 0 <= i < |ms| && Declares(ms[i].metadata, t)
  {
    if i :| 0 <= i < |ms| && Declares(ms[i].metadata, t) {
      DeclaredIsNamed(ms, t, i);
    } else if t in TopicsNamed(ms) {
      var i := SomeDeclares(ms, t);
    }
  }

  /** The assignment under a strategy. The sticky assignor is unimplemented in the
      client, and custom strategies have no built-in assignor. */
  ghost function AssignmentUnder(strategy: Strategy, md: Metadata, subs: Subscribers): (r: Option<map<Name, Assignment>>) {
    match strategy
    case Range => Some(RangeAssignor.RangeAssignment(md, subs))
    case RoundRobin => Some(RoundRobinAssignor.RoundRobinAssignment(md, subs))
    case Sticky => None
    case Custom(_) => None
  }

  ghost predicate AllEncode(asg: map<Name, Assignment>) {
    forall m :: m in asg ==> EncodeAssignment(asg[m]).Some?
  }

  ghost function EncodeAll(asg: map<Name, Assignment>): (r: map<Name, Bytes>)
    requires AllEncode(asg)
    ensures r.Keys == asg.Keys
    ensures forall m :: m in r ==> EncodeAssignment(asg[m]) == Some(r[m])
  {
    map m | m in asg :: EncodeAssignment(asg[m]).value
  }

  ghost predicate EncodesInto(asg: map<Name, Assignment>, shares: map<Name, Bytes>) {
    forall m :: m in shares ==> m in asg && EncodeAssignment(asg[m]) == Some(shares[m])
  }

  lemma EncodedOne(asg: map<Name, Assignment>, shares: map<Name, Bytes>, m: Name, bytes: Bytes)
    requires EncodesInto(asg, shares) && m in asg && EncodeAssignment(asg[m]) == Some(bytes)
    ensures EncodesInto(asg, shares[m := bytes])
  {
  }

  lemma EncodedAll(asg: map<Name, Assignment>, shares: map<Name, Bytes>)
    requires shares.Keys == asg.Keys && EncodesInto(asg, shares)
    ensures AllEncode(asg) && shares == EncodeAll(asg)
  {
    forall m | m in asg
      ensures EncodeAssignment(asg[m]) == Some(shares[m])
    {
      assert m in shares;
    }
  }

  /** What `perform_assignment` returns, by member. */
  ghost function Performed(assignors: seq<Strategy>, md: Metadata, protocol: Name, ms: seq<GroupMember>)
    : (r: Option<map<Name, Bytes>>)
  {
    if ParseStrategy(protocol) !in assignors then None
    else
      match DecodeMembers(ms)
      case None => None
      case Some(subs) =>
        match AssignmentUnder(ParseStrategy(protocol), md, subs)
        case None => None
        case Some(asg) => if AllEncode(asg) then Some(EncodeAll(asg)) else None
  }

  // ----- no partition in two shares -----

  /** A member that decodes these bytes takes hold of tp. */
  ghost predicate Grants(bytes: Bytes, tp: TopicPartition) {
    DecodeAssignment(bytes).Some? && tp in DecodeAssignment(bytes).value.partitions
  }

  ghost predicate DisjointShares(shares: map<Name, Bytes>) {
    forall m, n, tp :: m in shares && n in shares && m != n && Grants(shares[m], tp) ==> !Grants(shares[n], tp)
  }

  lemma KnownAreLegal(md: Metadata, subs: Subscribers, asg: map<Name, Assignment>, m: Name)
    requires WellFormed(md) && WithinSubscriptions(md, subs, asg) && m in asg
    ensures LegalIds(asg[m].partitions)
  {
  }

  lemma AssignmentUnderCovers(strategy: Strategy, md: Metadata, subs: Subscribers)
    requires AssignmentUnder(strategy, md, subs).Some?
    ensures ExactCover(md, subs, AssignmentUnder(strategy, md, subs).value)
    ensures forall m :: m in AssignmentUnder(strategy, md, subs).value ==>
                          && TopicSorted(AssignmentUnder(strategy, md, subs).value[m].partitions)
                          && AssignmentUnder(strategy, md, subs).value[m].userData == None
  {
    RangeAssignor.RangeExactCover(md, subs);
    RoundRobinAssignor.RoundRobinExactCover(md, subs);
  }

  lemma GrantedIsAssigned(a: Assignment, bytes: Bytes, tp: TopicPartition)
    requires EncodeAssignment(a) == Some(bytes) && LegalIds(a.partitions)
    ensures Grants(bytes, tp) ==> tp in a.partitions
  {
    AssignmentRoundTrip(a);
    ByTopicHas(a.partitions, tp);
  }

  /** Whatever bytes the members sent as their metadata, the shares the leader
      hands back never grant one partition to two members. */
  lemma PerformedDisjoint(assignors: seq<Strategy>, md: Metadata, protocol: Name, ms: seq<GroupMember>)
    requires WellFormed(md) && Performed(assignors, md, protocol, ms).Some?
    ensures DisjointShares(Performed(assignors, md, protocol, ms).value)
  {
    var subs := DecodeMembers(ms).value;
    var asg := AssignmentUnder(ParseStrategy(protocol), md, subs).value;
    var shares := EncodeAll(asg);
    AssignmentUnderCovers(ParseStrategy(protocol), md, subs);
    forall m, n, tp | m in shares && n in shares && m != n && Grants(shares[m], tp)
      ensures !Grants(shares[n], tp)
    {
      KnownAreLegal(md, subs, asg, m);
      KnownAreLegal(md, subs, asg, n);
      GrantedIsAssigned(asg[m], shares[m], tp);
      GrantedIsAssigned(asg[n], shares[n], tp);
    }
  }

  /** The assignment the leader computed, before it was serialized. */
  ghost function Intended(md: Metadata, protocol: Name, ms: seq<GroupMember>): (r: Option<map<Name, Assignment>>) {
    match DecodeMembers(ms)
    case None => None
    case Some(subs) => AssignmentUnder(ParseStrategy(protocol), md, subs)
  }

  lemma {:induction false} MembersUtf8(ms: seq<GroupMember>, m: Name)
    requires DecodeMembers(ms).Some? && m in DecodeMembers(ms).value
    ensures AllUtf8(DecodeMembers(ms).value[m].topics)
  {
    if ms != [] {
      DecodedTopicsUtf8(ms[|ms| - 1].metadata);
      if m != ms[|ms| - 1].memberId {
        MembersUtf8(ms[..|ms| - 1], m);
      }
    }
  }

  lemma SharesUtf8(md: Metadata, subs: Subscribers, asg: map<Name, Assignment>, m: Name)
    requires WithinSubscriptions(md, subs, asg) && m in asg && AllUtf8(subs[m].topics)
    ensures forall tp :: tp in asg[m].partitions ==> Utf8(tp.topic.text)
  {
  }

  lemma IntendedIs(md: Metadata, protocol: Name, ms: seq<GroupMember>, m: Name)
    requires Intended(md, protocol, ms).Some? && m in Intended(md, protocol, ms).value && WellFormed(md)
    ensures var a := Intended(md, protocol, ms).value[m];
            && TopicSorted(a.partitions) && a.userData == None && LegalIds(a.partitions)
            && forall tp :: tp in a.partitions ==> Utf8(tp.topic.text)
  {
    var subs := DecodeMembers(ms).value;
    var asg := Intended(md, protocol, ms).value;
    AssignmentUnderCovers(ParseStrategy(protocol), md, subs);
    assert WithinSubscriptions(md, subs, asg);
    MembersUtf8(ms, m);
    SharesUtf8(md, subs, asg, m);
    KnownAreLegal(md, subs, asg, m);
  }

  /** A member that decodes its share gets back exactly what the assignor
      assigned it, and decoding never fails. */
  lemma ShareArrives(assignors: seq<Strategy>, md: Metadata, protocol: Name, ms: seq<GroupMember>, m: Name)
    requires WellFormed(md) && Performed(assignors, md, protocol, ms).Some?
    requires m in Performed(assignors, md, protocol, ms).value
    ensures Intended(md, protocol, ms).Some? && m in Intended(md, protocol, ms).value
    ensures DecodeAssignment(Performed(assignors, md, protocol, ms).value[m]) == Some(Intended(md, protocol, ms).value[m])
  {
    IntendedIs(md, protocol, ms, m);
    SortedAssignmentArrives(Intended(md, protocol, ms).value[m]);
  }

  /** The leader succeeds exactly when it offers the strategy, range or round robin,
      every member's bytes decode, and every share fits its length fields. */
  lemma PerformedExactly(assignors: seq<Strategy>, md: Metadata, protocol: Name, ms: seq<GroupMember>)
    ensures Performed(assignors, md, protocol, ms).Some? <==>
              && ((protocol == RANGE && Range in assignors) || (protocol == ROUND_ROBIN && RoundRobin in assignors))
              && AllDecode(ms)
              && Intended(md, protocol, ms).Some? && AllEncode(Intended(md, protocol, ms).value)
  {
    MembersDecoded(ms);
  }

  /** The partitions of a topic are one contiguous block, placed by the member's rank
      among the topic's subscribers. */
  ghost predicate OneBlock(md: Metadata, subs: Subscribers, t: Name, m: Name, ps: seq<TopicPartition>) {
    var cs, all := RangeAssignor.Consumers(subs, t), Assignor.Layout(md, t);
    var a := RangeAssignor.FirstIndex(cs, m);
    var b := a + RangeAssignor.Times(subs, t, m);
    && 0 < |cs| && b <= |cs|
    && OfTopic(ps, t) == RangeAssignor.Block(all, RangeAssignor.RangeCuts(|all|, |cs|), |cs|, a, b)
  }

  lemma RangeIsOneBlock(md: Metadata, subs: Subscribers, t: Name, m: Name)
    requires Subscribed(subs, t) && t in md.topics && m in RangeAssignor.RangeAssignment(md, subs)
    ensures OneBlock(md, subs, t, m, RangeAssignor.RangeAssignment(md, subs)[m].partitions)
  {
    RangeAssignor.RangeContiguous(md, subs, t, m);
  }

  /** Under "range" each member decodes, of each known topic that someone declared, one
      contiguous block, placed by its rank among the subscribers. */
  lemma RangePerformed(assignors: seq<Strategy>, md: Metadata, ms: seq<GroupMember>, t: Name, m: Name)
    requires WellFormed(md) && Performed(assignors, md, RANGE, ms).Some?
    requires m in Performed(assignors, md, RANGE, ms).value
    requires DecodeMembers(ms).Some? && Subscribed(DecodeMembers(ms).value, t) && t in md.topics
    ensures var share := DecodeAssignment(Performed(assignors, md, RANGE, ms).value[m]);
            share.Some? && OneBlock(md, DecodeMembers(ms).value, t, m, share.value.partitions)
  {
    ShareArrives(assignors, md, RANGE, ms, m);
    assert Intended(md, RANGE, ms) == Some(RangeAssignor.RangeAssignment(md, DecodeMembers(ms).value));
    RangeIsOneBlock(md, DecodeMembers(ms).value, t, m);
  }

  /** Under "roundrobin", when all members declare the same topics, any two that have a
      share decode numbers of partitions that differ by at most one. */
  lemma RoundRobinPerformed(assignors: seq<Strategy>, md: Metadata, ms: seq<GroupMember>, m: Name, n: Name)
    requires WellFormed(md) && Performed(assignors, md, ROUND_ROBIN, ms).Some?
    requires m in Performed(assignors, md, ROUND_ROBIN, ms).value && n in Performed(assignors, md, ROUND_ROBIN, ms).value
    requires DecodeMembers(ms).Some? && RoundRobinAssignor.SameSubscriptions(DecodeMembers(ms).value)
    ensures var shares := Performed(assignors, md, ROUND_ROBIN, ms).value;
            && DecodeAssignment(shares[m]).Some? && DecodeAssignment(shares[n]).Some?
            && |DecodeAssignment(shares[m]).value.partitions| <= |DecodeAssignment(shares[n]).value.partitions| + 1
  {
    var subs := DecodeMembers(ms).value;
    ShareArrives(assignors, md, ROUND_ROBIN, ms, m);
    ShareArrives(assignors, md, ROUND_ROBIN, ms, n);
    RoundRobinAssignor.RoundRobinExactCover(md, subs);
    RoundRobinAssignor.RoundRobinBalanced(md, subs, m, n);
  }

  // ----- one member -----

  datatype Consumer = Consumer(state: State, subscription: set<Name>, held: Held, assignors: seq<Strategy>)

  /** A heartbeat failed with a code that asks the member to rejoin under its id,
      to start over, or with anything else, which is only logged. */
  datatype HeartbeatError = InRebalance | Outdated | Unrelated

  /** The consumer after it received its share of a generation; none when the
      share cannot be decoded or names a topic the consumer did not subscribe to. */
  function Synced(c: Consumer, share: Bytes, coordinator: int, generation: Generation): (r: Option<Consumer>) {
    match DecodeAssignment(share)
    case None => None
    case Some(a) =>
      if forall tp :: tp in a.partitions ==> tp.topic in c.subscription then
        Some(c.(state := Stable(coordinator, generation), held := Reassigned(c.held, a.partitions)))
      else
        None
  }

  function AfterHeartbeat(s: State, err: HeartbeatError, coordinator: int, generation: Generation): (r: State) {
    match err
    case InRebalance => Rebalancing(coordinator, generation)
    case Outdated => Unjoined
    case Unrelated => s
  }

  class ConsumerCoordinator {
    const subs: SubscriptionState
    const assignors: seq<Strategy>
    var state: State

    constructor (subs: SubscriptionState, assignors: seq<Strategy>)
      ensures this.subs == subs && this.assignors == assignors && state == Unjoined
    {
      this.subs, this.assignors, state := subs, assignors, Unjoined;
    }

    ghost function Snapshot(): (c: Consumer)
      reads this, subs
    {
      Consumer(state, subs.subscription, subs.assignment, assignors)
    }

    /** `ensure_active_group`: the generation if the member is stable, otherwise the
        member id to rejoin with, which only an unjoined member lacks. */
    method EnsureActive() returns (active: Option<(int, Generation)>, memberId: Option<Name>)
      ensures active.Some? <==> state.Stable?
      ensures state.Stable? ==> active.value == (state.coordinator, state.generation)
      ensures state.Rebalancing? ==> memberId == Some(state.generation.memberId)
      ensures state.Unjoined? ==> memberId == None
    {
      match state {
        case Stable(c, g) => active, memberId := Some((c, g)), Some(g.memberId);
        case Rebalancing(_, g) => active, memberId := None, Some(g.memberId);
        case Unjoined => active, memberId := None, None;
      }
    }

    method Decode(ms: seq<GroupMember>) returns (r: Option<Subscribers>, topics: set<Name>)
      ensures r == DecodeMembers(ms)
      ensures r.Some? <==> AllDecode(ms)
      ensures r.Some? ==> topics == TopicsNamed(ms)
    {
      var subscribers: Subscribers := map[];
      topics := {};
      MembersDecoded(ms);
      assert ms[..0] == [];
      for i := 0 to |ms|
        invariant DecodeMembers(ms[..i]) == Some(subscribers) && topics == TopicsNamed(ms[..i])
      {
        assert ms[..i + 1][..i] == ms[..i];
        var s := DecodeSubscription(ms[i].metadata);
        if s.None? {
          UndecodablePrefix(ms, i + 1);
          return None, topics;
        }
        topics := topics + Elements(s.value.topics);
        subscribers := subscribers[ms[i].memberId := s.value];
      }
      assert ms[..|ms|] == ms;
      r := Some(subscribers);
    }

    /** Serialize every share, in the order of the hash map. */
    method Encode(asg: map<Name, Assignment>) returns (r: Option<map<Name, Bytes>>)
      ensures r.Some? <==> AllEncode(asg)
      ensures r.Some? ==> r.value == EncodeAll(asg)
    {
      var shares: map<Name, Bytes> := map[];
      var todo := asg.Keys;
      while todo != {}
        invariant todo <= asg.Keys && shares.Keys == asg.Keys - todo
        invariant EncodesInto(asg, shares)
        decreases |todo|
      {
        var m :| m in todo;
        var bytes := SerializeAssignment(asg[m]);
        if bytes.None? {
          return None;
        }
        EncodedOne(asg, shares, m, bytes.value);
        shares := shares[m := bytes.value];
        todo := todo - {m};
      }
      assert shares.Keys == asg.Keys;
      EncodedAll(asg, shares);
      r := Some(shares);
    }

    method RunAssignor(strategy: Strategy, md: Metadata, subscribers: Subscribers)
      returns (r: Option<map<Name, Assignment>>)
      ensures r == AssignmentUnder(strategy, md, subscribers)
    {
      match strategy {
        case Range =>
          var asg := RangeAssignor.Assign(md, subscribers);
          r := Some(asg);
        case RoundRobin =>
          var asg := RoundRobinAssignor.Assign(md, subscribers);
          r := Some(asg);
        case Sticky => r := None;
        case Custom(_) => r := None;
      }
    }

    /** `perform_assignment`, as the elected leader. */
    method PerformAssignment(md: Metadata, protocol: Name, ms: seq<GroupMember>) returns (r: Option<map<Name, Bytes>>)
      modifies subs`groupSubscription
      ensures r == Performed(assignors, md, protocol, ms)
      ensures subs.groupSubscription == old(subs.groupSubscription)
              + if ParseStrategy(protocol) in assignors && Intended(md, protocol, ms).Some? then TopicsNamed(ms) else {}
    {
      var strategy := ParseStrategy(protocol);
      if strategy !in assignors {
        return None;
      }
      var subscribers, topics := Decode(ms);
      if subscribers.None? {
        return None;
      }
      var asg := RunAssignor(strategy, md, subscribers.value);
      if asg.None? {
        return None;
      }
      subs.GroupSubscribe(topics);
      r := Encode(asg.value);
    }

    /** The sync response arrived: decode the share, adopt it, become stable. When
        the share cannot be adopted, neither the state nor the assignment changes. */
    method SyncedGroup(share: Bytes, coordinator: int, generation: Generation) returns (ok: bool)
      modifies this`state, subs`assignment
      ensures ok <==> Synced(old(Snapshot()), share, coordinator, generation).Some?
      ensures ok <==> DecodeAssignment(share).Some?
                      && forall tp :: tp in DecodeAssignment(share).value.partitions ==> tp.topic in old(subs.subscription)
      ensures ok ==> state == Stable(coordinator, generation)
                     && subs.assignment == Reassigned(old(subs.assignment), DecodeAssignment(share).value.partitions)
      ensures Snapshot() == if ok then Synced(old(Snapshot()), share, coordinator, generation).value else old(Snapshot())
    {
      var a := DeserializeAssignment(share);
      if a.None? {
        return false;
      }
      ok := subs.AssignFromSubscribed(a.value.partitions);
      if ok {
        state := Stable(coordinator, generation);
      }
    }

    /** The error handler of a heartbeat started for the given generation. It does
        not look at the state it overwrites. */
    method HeartbeatFailed(err: HeartbeatError, coordinator: int, generation: Generation)
      modifies this`state
      ensures state == AfterHeartbeat(old(state), err, coordinator, generation)
      ensures err.InRebalance? ==> state == Rebalancing(coordinator, generation)
      ensures err.Outdated? ==> state == Unjoined
      ensures err.Unrelated? ==> state == old(state)
    {
      match err {
        case InRebalance => state := Rebalancing(coordinator, generation);
        case Outdated => state := Unjoined;
        case Unrelated =>
      }
    }

    /** `leave_group`, and the failure path of `join_group`. The partitions stay
        assigned. */
    method Leaved() returns (previous: State)
      modifies this`state
      ensures previous == old(state) && state == Unjoined
    {
      previous := state;
      state := Unjoined;
    }
  }

  lemma {:induction false} UndecodablePrefix(ms: seq<GroupMember>, k: nat)
    requires k <= |ms| && DecodeMembers(ms[..k]).None?
    ensures DecodeMembers(ms).None?
    decreases |ms|
  {
    if k < |ms| {
      var front := ms[..|ms| - 1];
      assert front[..k] == ms[..k];
      UndecodablePrefix(front, k);
    } else {
      assert ms[..k] == ms;
    }
  }
}
