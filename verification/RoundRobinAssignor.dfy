/** The round-robin assignor: all partitions of all subscribed topics are dealt
    one by one to the members in ascending order, cyclically, skipping members
    that do not subscribe to the partition's topic. */
module RoundRobinAssignor {
  import opened Wire
  import opened Names
  import opened ClusterMetadata
  import opened Assignor

  predicate Wants(subs: Subscribers, m: Name, t: Name) {
    m in subs && t in subs[m].topics
  }

  /** The first position at or after `from` whose member wants the topic, or the
      length of the list. */
  function FirstWanting(subs: Subscribers, order: seq<Name>, t: Name, from: nat): (i: nat)
    requires from <= |order|
    ensures from <= i <= |order|
    ensures i < |order| ==> Wants(subs, order[i], t)
    ensures forall j :: from <= j < i ==> !Wants(subs, order[j], t)
    decreases |order| - from
  {
    if from == |order| || Wants(subs, order[from], t) then from else FirstWanting(subs, order, t, from + 1)
  }

  ghost predicate SomeoneWants(subs: Subscribers, order: seq<Name>, t: Name) {
    exists m :: m in order && Wants(subs, m, t)
  }

  /** Where the cyclic search that stands at position p ends. */
  function Next(subs: Subscribers, order: seq<Name>, t: Name, p: nat): (i: nat)
    requires p < |order| && SomeoneWants(subs, order, t)
    ensures i < |order| && Wants(subs, order[i], t)
    ensures forall j :: p <= j < i ==> !Wants(subs, order[j], t)
    ensures i < p ==> forall j :: 0 <= j < i || p <= j < |order| ==> !Wants(subs, order[j], t)
  {
    var i := FirstWanting(subs, order, t, p);
    if i < |order| then i else FirstWanting(subs, order, t, 0)
  }

  /** The position after p in the cycle. */
  function Succ(order: seq<Name>, p: nat): (r: nat)
    requires p < |order|
    ensures r < |order|
  {
    if p + 1 == |order| then 0 else p + 1
  }

  /** The hands dealt so far and the position of the cycling iterator. */
  datatype Table = Table(deal: Deal, pos: nat)

  ghost predicate AllWanted(subs: Subscribers, order: seq<Name>, ps: seq<TopicPartition>) {
    forall tp :: tp in ps ==> SomeoneWants(subs, order, tp.topic)
  }

  ghost function Play(subs: Subscribers, order: seq<Name>, ps: seq<TopicPartition>): (r: Table)
    requires AllWanted(subs, order, ps)
    ensures |order| > 0 ==> r.pos < |order|
  {
    if ps == [] then Table([], 0)
    else
      var tp := ps[|ps| - 1];
      assert SomeoneWants(subs, order, tp.topic);
      Turn(subs, order, Play(subs, order, ps[..|ps| - 1]), tp)
  }

  /** Deal one partition. */
  ghost function Turn(subs: Subscribers, order: seq<Name>, before: Table, tp: TopicPartition): (r: Table)
    requires SomeoneWants(subs, order, tp.topic) && before.pos < |order|
    ensures r.pos < |order|
  {
    var i := Next(subs, order, tp.topic, before.pos);
    Table(before.deal + [Hand(order[i], [tp])], Succ(order, i))
  }

  lemma PlaySnoc(subs: Subscribers, order: seq<Name>, ps: seq<TopicPartition>, tp: TopicPartition)
    requires AllWanted(subs, order, ps + [tp])
    ensures AllWanted(subs, order, ps) && SomeoneWants(subs, order, tp.topic)
    ensures |order| > 0
    ensures Play(subs, order, ps + [tp]) == Turn(subs, order, Play(subs, order, ps), tp)
  {
    assert tp in ps + [tp];
    assert forall x :: x in ps ==> x in ps + [tp];
    assert (ps + [tp])[..|ps|] == ps;
  }

  lemma TurnFair(subs: Subscribers, order: seq<Name>, before: Table, tp: TopicPartition)
    requires SomeoneWants(subs, order, tp.topic) && before.pos < |order|
    requires ToSubscribers(subs, before.deal)
    ensures Dealt(Turn(subs, order, before, tp).deal) == Dealt(before.deal) + [tp]
    ensures ToSubscribers(subs, Turn(subs, order, before, tp).deal)
  {
    var h := Hand(order[Next(subs, order, tp.topic, before.pos)], [tp]);
    DealSnoc(before.deal, h);
    assert ToSubscriber(subs, h);
  }

  lemma {:induction false} PlayFair(subs: Subscribers, order: seq<Name>, ps: seq<TopicPartition>)
    requires AllWanted(subs, order, ps)
    ensures Dealt(Play(subs, order, ps).deal) == ps
    ensures ToSubscribers(subs, Play(subs, order, ps).deal)
  {
    if ps != [] {
      var ps', tp := ps[..|ps| - 1], ps[|ps| - 1];
      assert ps == ps' + [tp];
      PlaySnoc(subs, order, ps', tp);
      PlayFair(subs, order, ps');
      TurnFair(subs, order, Play(subs, order, ps'), tp);
    }
  }

  // ----- the assignment -----

  lemma SubscribedIsWanted(subs: Subscribers, t: Name)
    requires Subscribed(subs, t)
    ensures SomeoneWants(subs, Ascending(subs.Keys), t)
  {
    var m :| m in subs && t in subs[m].topics;
    assert m in Elements(Ascending(subs.Keys));
  }

  lemma TopicsWanted(md: Metadata, subs: Subscribers, ts: seq<Name>)
    requires forall t :: t in ts ==> Subscribed(subs, t)
    ensures AllWanted(subs, Ascending(subs.Keys), AllPartitions(md, ts))
  {
    forall tp | tp in AllPartitions(md, ts)
      ensures SomeoneWants(subs, Ascending(subs.Keys), tp.topic)
    {
      AllPartitionsAre(md, ts, tp);
      SubscribedIsWanted(subs, tp.topic);
    }
  }

  ghost function RoundRobinDeal(md: Metadata, subs: Subscribers): (d: Deal) {
    TopicsWanted(md, subs, SubscribedTopics(subs));
    Play(subs, Ascending(subs.Keys), AllPartitions(md, SubscribedTopics(subs))).deal
  }

  ghost function RoundRobinAssignment(md: Metadata, subs: Subscribers): (asg: map<Name, Assignment>) {
    Collect(RoundRobinDeal(md, subs))
  }

  /** For every metadata and every subscription map, the round-robin assignor
      assigns each known partition of each subscribed topic to exactly one
      subscriber; in particular its unbounded search always ends. */
  lemma RoundRobinExactCover(md: Metadata, subs: Subscribers)
    ensures ExactCover(md, subs, RoundRobinAssignment(md, subs))
    ensures forall m :: m in RoundRobinAssignment(md, subs) ==>
                          TopicSorted(RoundRobinAssignment(md, subs)[m].partitions)
  {
    var ps := AllPartitions(md, SubscribedTopics(subs));
    TopicsWanted(md, subs, SubscribedTopics(subs));
    PlayFair(subs, Ascending(subs.Keys), ps);
    FairDealCovers(md, subs, RoundRobinDeal(md, subs));
  }

  // ----- who receives an entry -----

  lemma {:induction false} OneHandEach(subs: Subscribers, order: seq<Name>, ps: seq<TopicPartition>)
    requires AllWanted(subs, order, ps)
    ensures |Play(subs, order, ps).deal| == |ps|
  {
    if ps != [] {
      var ps', tp := ps[..|ps| - 1], ps[|ps| - 1];
      assert ps == ps' + [tp];
      PlaySnoc(subs, order, ps', tp);
      OneHandEach(subs, order, ps');
    }
  }

  /** With fewer partitions than members, some member receives no entry at all. */
  lemma RoundRobinLeavesOut(md: Metadata, subs: Subscribers) returns (m: Name)
    requires |AllPartitions(md, SubscribedTopics(subs))| < |subs|
    ensures m in subs && m !in RoundRobinAssignment(md, subs)
  {
    var d := RoundRobinDeal(md, subs);
    TopicsWanted(md, subs, SubscribedTopics(subs));
    OneHandEach(subs, Ascending(subs.Keys), AllPartitions(md, SubscribedTopics(subs)));
    FewPlayers(d);
    m := SomeoneOutside(subs.Keys, Players(d));
  }

  lemma SomeoneOutside(a: set<Name>, b: set<Name>) returns (m: Name)
    requires |b| < |a|
    ensures m in a && m !in b
  {
    if a - b == {} {
      forall x | x in a
        ensures x in b
      {
        assert x !in a - b;
      }
      SubsetSize(a, b);
    }
    m :| m in a - b;
  }

  lemma {:induction false} SubsetSize(a: set<Name>, b: set<Name>)
    requires a <= b
    ensures |a| <= |b|
  {
    if a != {} {
      var x :| x in a;
      SubsetSize(a - {x}, b - {x});
    }
  }

  // ----- whose turn it is -----

  lemma WantedSoFar(subs: Subscribers, order: seq<Name>, ps: seq<TopicPartition>, k: nat)
    requires AllWanted(subs, order, ps) && k <= |ps|
    ensures AllWanted(subs, order, ps[..k])
  {
    assert forall tp :: tp in ps[..k] ==> tp in ps;
  }

  /** The k-th hand is dealt from the position where the first k left off. */
  lemma {:induction false} HandAt(subs: Subscribers, order: seq<Name>, ps: seq<TopicPartition>, k: nat) returns (i: nat)
    requires AllWanted(subs, order, ps) && k < |ps|
    ensures AllWanted(subs, order, ps[..k]) && AllWanted(subs, order, ps[..k + 1]) && |order| > 0
    ensures SomeoneWants(subs, order, ps[k].topic)
    ensures i == Next(subs, order, ps[k].topic, Play(subs, order, ps[..k]).pos)
    ensures Play(subs, order, ps[..k + 1]).pos == Succ(order, i)
    ensures |Play(subs, order, ps).deal| == |ps| && Play(subs, order, ps).deal[k] == Hand(order[i], [ps[k]])
  {
    OneHandEach(subs, order, ps);
    WantedSoFar(subs, order, ps, k);
    WantedSoFar(subs, order, ps, k + 1);
    var front, last := ps[..|ps| - 1], ps[|ps| - 1];
    assert ps == front + [last];
    PlaySnoc(subs, order, front, last);
    if k < |ps| - 1 {
      OneHandEach(subs, order, front);
      assert front[..k] == ps[..k] && front[..k + 1] == ps[..k + 1] && front[k] == ps[k];
      i := HandAt(subs, order, front, k);
    } else {
      OneHandEach(subs, order, front);
      assert ps[..k] == front && ps[..k + 1] == ps;
      i := Next(subs, order, last.topic, Play(subs, order, front).pos);
    }
  }

  /** Going up from i and around, x comes before j. */
  predicate Between(i: nat, x: nat, j: nat) {
    if i < j then i < x < j else i < x || x < j
  }

  /** Position j is the first after i, going around, whose member wants the topic. */
  predicate FollowsInCycle(subs: Subscribers, order: seq<Name>, t: Name, i: nat, j: nat) {
    && i < |order| && j < |order| && Wants(subs, order[j], t)
    && forall x :: 0 <= x < |order| && Between(i, x, j) ==> !Wants(subs, order[x], t)
  }

  lemma NextFollows(subs: Subscribers, order: seq<Name>, t: Name, i: nat)
    requires i < |order| && SomeoneWants(subs, order, t)
    ensures FollowsInCycle(subs, order, t, i, Next(subs, order, t, Succ(order, i)))
  {
  }

  /** Hand k of a deal gives its partition to the member at position i. */
  predicate GivesTo(d: Deal, order: seq<Name>, ps: seq<TopicPartition>, k: nat, i: nat) {
    |d| == |ps| && k < |ps| && i < |order| && d[k] == Hand(order[i], [ps[k]])
  }

  lemma PlayTurns(subs: Subscribers, order: seq<Name>, ps: seq<TopicPartition>, k: nat) returns (i: nat, j: nat)
    requires AllWanted(subs, order, ps) && k + 1 < |ps|
    ensures GivesTo(Play(subs, order, ps).deal, order, ps, k, i)
    ensures GivesTo(Play(subs, order, ps).deal, order, ps, k + 1, j)
    ensures FollowsInCycle(subs, order, ps[k + 1].topic, i, j)
  {
    i := HandAt(subs, order, ps, k);
    j := HandAt(subs, order, ps, k + 1);
    NextFollows(subs, order, ps[k + 1].topic, i);
  }

  /** The first partition goes to the first member in ascending order that wants its
      topic. */
  lemma RoundRobinStarts(md: Metadata, subs: Subscribers) returns (i: nat)
    requires AllPartitions(md, SubscribedTopics(subs)) != []
    ensures var ps, order := AllPartitions(md, SubscribedTopics(subs)), Ascending(subs.Keys);
            && GivesTo(RoundRobinDeal(md, subs), order, ps, 0, i) && Wants(subs, order[i], ps[0].topic)
            && forall x :: 0 <= x < i ==> !Wants(subs, order[x], ps[0].topic)
  {
    var ps, order := AllPartitions(md, SubscribedTopics(subs)), Ascending(subs.Keys);
    TopicsWanted(md, subs, SubscribedTopics(subs));
    i := HandAt(subs, order, ps, 0);
    assert ps[..0] == [];
  }

  /** Each partition after it goes to the next member that wants its topic, behind the
      one that had the partition before, going around. */
  lemma RoundRobinTurns(md: Metadata, subs: Subscribers, k: nat) returns (i: nat, j: nat)
    requires k + 1 < |AllPartitions(md, SubscribedTopics(subs))|
    ensures var ps, order := AllPartitions(md, SubscribedTopics(subs)), Ascending(subs.Keys);
            && GivesTo(RoundRobinDeal(md, subs), order, ps, k, i)
            && GivesTo(RoundRobinDeal(md, subs), order, ps, k + 1, j)
            && FollowsInCycle(subs, order, ps[k + 1].topic, i, j)
  {
    TopicsWanted(md, subs, SubscribedTopics(subs));
    i, j := PlayTurns(subs, Ascending(subs.Keys), AllPartitions(md, SubscribedTopics(subs)), k);
  }

  // ----- balance -----

  /** All members subscribe to the same topics. */
  ghost predicate SameSubscriptions(subs: Subscribers) {
    forall m, n, t :: m in subs && n in subs && t in subs[m].topics ==> t in subs[n].topics
  }

  /** After r whole rounds and p more turns, the first p members have one more. */
  ghost predicate Level(order: seq<Name>, d: Deal, r: nat, p: nat) {
    forall i :: 0 <= i < |order| ==> |Share(d, order[i])| == r + if i < p then 1 else 0
  }

  lemma NobodySkipped(subs: Subscribers, order: seq<Name>, t: Name, p: nat)
    requires SameSubscriptions(subs) && (forall m :: m in order ==> m in subs)
    requires p < |order| && SomeoneWants(subs, order, t)
    ensures Next(subs, order, t, p) == p
  {
    var m :| m in order && Wants(subs, m, t);
    assert order[p] in subs && t in subs[order[p]].topics;
  }

  lemma TurnLevel(order: seq<Name>, d: Deal, r: nat, p: nat, tp: TopicPartition)
    requires Distinct(order) && p < |order| && Level(order, d, r, p)
    ensures var d' := d + [Hand(order[p], [tp])];
            if p + 1 == |order| then Level(order, d', r + 1, 0) else Level(order, d', r, p + 1)
  {
    var h := Hand(order[p], [tp]);
    forall i | 0 <= i < |order|
      ensures |Share(d + [h], order[i])| == |Share(d, order[i])| + if i == p then 1 else 0
    {
      DealSnoc(d, h);
    }
  }

  /** The turns of r whole rounds among n members. */
  function Laps(n: nat, r: nat): (k: nat) {
    if r == 0 then 0 else Laps(n, r - 1) + n
  }

  lemma TurnKeepsLevel(subs: Subscribers, order: seq<Name>, before: Table, r: nat, tp: TopicPartition)
    returns (r': nat)
    requires SameSubscriptions(subs) && Distinct(order) && forall m :: m in order ==> m in subs
    requires SomeoneWants(subs, order, tp.topic) && before.pos < |order| && Level(order, before.deal, r, before.pos)
    ensures var after := Turn(subs, order, before, tp);
            && Level(order, after.deal, r', after.pos)
            && Laps(|order|, r') + after.pos == Laps(|order|, r) + before.pos + 1
  {
    NobodySkipped(subs, order, tp.topic, before.pos);
    TurnLevel(order, before.deal, r, before.pos, tp);
    r' := if before.pos + 1 == |order| then r + 1 else r;
  }

  lemma {:induction false} PlayLevel(subs: Subscribers, order: seq<Name>, ps: seq<TopicPartition>) returns (r: nat)
    requires SameSubscriptions(subs) && Distinct(order) && forall m :: m in order ==> m in subs
    requires AllWanted(subs, order, ps)
    ensures Level(order, Play(subs, order, ps).deal, r, Play(subs, order, ps).pos)
    ensures |ps| == Laps(|order|, r) + Play(subs, order, ps).pos
  {
    if ps == [] {
      r := 0;
    } else {
      var ps', tp := ps[..|ps| - 1], ps[|ps| - 1];
      assert ps == ps' + [tp];
      PlaySnoc(subs, order, ps', tp);
      r := PlayLevel(subs, order, ps');
      r := TurnKeepsLevel(subs, order, Play(subs, order, ps'), r, tp);
    }
  }

  lemma PlayBalanced(subs: Subscribers, order: seq<Name>, ps: seq<TopicPartition>, m: Name, n: Name)
    requires SameSubscriptions(subs) && Distinct(order) && forall x :: x in order ==> x in subs
    requires AllWanted(subs, order, ps) && m in order && n in order
    ensures |Share(Play(subs, order, ps).deal, m)| <= |Share(Play(subs, order, ps).deal, n)| + 1
  {
    var r := PlayLevel(subs, order, ps);
    var i :| 0 <= i < |order| && order[i] == m;
    var j :| 0 <= j < |order| && order[j] == n;
  }

  lemma InOrder(subs: Subscribers)
    ensures forall x :: x in Ascending(subs.Keys) <==> x in subs
  {
    assert forall x :: x in Ascending(subs.Keys) <==> x in Elements(Ascending(subs.Keys));
  }

  /** When all members subscribe to the same topics, any two of them are assigned
      equally many partitions, up to one. */
  lemma RoundRobinBalanced(md: Metadata, subs: Subscribers, m: Name, n: Name)
    requires SameSubscriptions(subs) && m in subs && n in subs
    ensures |Share(RoundRobinDeal(md, subs), m)| <= |Share(RoundRobinDeal(md, subs), n)| + 1
  {
    InOrder(subs);
    TopicsWanted(md, subs, SubscribedTopics(subs));
    PlayBalanced(subs, Ascending(subs.Keys), AllPartitions(md, SubscribedTopics(subs)), m, n);
  }

  // ----- who is left out -----

  /** When all members subscribe to the same topics, every one of them receives an
      entry exactly when there are at least as many partitions as members. */
  lemma RoundRobinIncludesAll(md: Metadata, subs: Subscribers)
    requires SameSubscriptions(subs)
    ensures (forall m :: m in subs ==> m in RoundRobinAssignment(md, subs)) <==>
              |AllPartitions(md, SubscribedTopics(subs))| >= |subs|
  {
    var ps := AllPartitions(md, SubscribedTopics(subs));
    if |ps| < |subs| {
      var m := RoundRobinLeavesOut(md, subs);
    } else {
      forall m | m in subs
        ensures m in RoundRobinAssignment(md, subs)
      {
        InOrder(subs);
        TopicsWanted(md, subs, SubscribedTopics(subs));
        EnoughForAll(subs, Ascending(subs.Keys), ps, m);
      }
    }
  }

  lemma EnoughForAll(subs: Subscribers, order: seq<Name>, ps: seq<TopicPartition>, m: Name)
    requires SameSubscriptions(subs) && Distinct(order) && forall x :: x in order ==> x in subs
    requires AllWanted(subs, order, ps) && m in order && |ps| >= |order|
    ensures m in Players(Play(subs, order, ps).deal)
  {
    var r := PlayLevel(subs, order, ps);
    var d := Play(subs, order, ps).deal;
    LevelAtLeast(order, d, r, Play(subs, order, ps).pos, m);
    if m !in Players(d) {
      ShareOfAbsent(d, m);
    }
  }

  lemma LevelAtLeast(order: seq<Name>, d: Deal, r: nat, p: nat, m: Name)
    requires Level(order, d, r, p) && m in order
    ensures |Share(d, m)| >= r
  {
    var i :| 0 <= i < |order| && order[i] == m;
  }

  /** With differing subscriptions a member can be left out though there are as many
      partitions as members and it subscribes to a known topic: the only partition of
      its topic goes to the member before it, which then also takes the partition that
      nobody else wants. */
  lemma RoundRobinSkips(a: Name, b: Name, t: Name, u: Name, info: PartitionInfo)
    requires a != b && Leq(a, b) && t != u && Leq(t, u)
    ensures var md := Metadata([], map[t := [info], u := [info]]);
            var subs: Subscribers := map[a := Subscription([t, u], None), b := Subscription([t], None)];
            && |AllPartitions(md, SubscribedTopics(subs))| == |subs|
            && Subscribed(subs, t) && b in subs && t in subs[b].topics && t in md.topics
            && b !in RoundRobinAssignment(md, subs)
  {
    var md := Metadata([], map[t := [info], u := [info]]);
    var subs: Subscribers := map[a := Subscription([t, u], None), b := Subscription([t], None)];
    assert t in subs[a].topics && u in subs[a].topics && t in subs[b].topics;
    SkippedMember(md, subs, a, b, t, u);
  }

  lemma SkippedMember(md: Metadata, subs: Subscribers, a: Name, b: Name, t: Name, u: Name)
    requires a != b && Leq(a, b) && t != u && Leq(t, u) && subs.Keys == {a, b}
    requires Wants(subs, a, t) && Wants(subs, a, u) && !Wants(subs, b, u)
    requires forall s :: Subscribed(subs, s) <==> s == t || s == u
    requires t in md.topics && u in md.topics && |md.topics[t]| == |md.topics[u]| == 1
    ensures |AllPartitions(md, SubscribedTopics(subs))| == |subs| && b !in RoundRobinAssignment(md, subs)
  {
    TwoMembers(subs, a, b);
    TwoTopics(subs, t, u);
    TwoPartitions(md, t, u);
    TopicsWanted(md, subs, SubscribedTopics(subs));
    BothToFirst(subs, a, b, TopicPartition(t, 0), TopicPartition(u, 0));
  }

  lemma TwoMembers(subs: Subscribers, a: Name, b: Name)
    requires a != b && Leq(a, b) && subs.Keys == {a, b}
    ensures Ascending(subs.Keys) == [a, b] && |subs| == 2
  {
    var q := Ascending(subs.Keys);
    assert forall m :: m in q <==> m in Elements(q);
    assert |subs| == |subs.Keys|;
    PairInOrder(q, a, b);
  }

  lemma TwoTopics(subs: Subscribers, t: Name, u: Name)
    requires t != u && Leq(t, u) && forall s :: Subscribed(subs, s) <==> s == t || s == u
    ensures SubscribedTopics(subs) == [t, u]
  {
    var q := SubscribedTopics(subs);
    assert forall k :: 0 <= k < |q| ==> q[k] in q;
    PairInOrder(q, t, u);
  }

  lemma BothToFirst(subs: Subscribers, a: Name, b: Name, x: TopicPartition, y: TopicPartition)
    requires a != b && AllWanted(subs, [a, b], [x, y])
    requires Wants(subs, a, x.topic) && Wants(subs, a, y.topic) && !Wants(subs, b, y.topic)
    ensures b !in Players(Play(subs, [a, b], [x, y]).deal)
  {
    var order := [a, b];
    PlayTwo(subs, order, x, y);
    assert Next(subs, order, x.topic, 0) == 0;
    assert Next(subs, order, y.topic, 1) == 0;
    var d := [Hand(a, [x]), Hand(a, [y])];
    assert Play(subs, order, [x, y]).deal == d;
    PlayersAre(d, b);
  }

  lemma TwoPartitions(md: Metadata, t: Name, u: Name)
    requires t in md.topics && u in md.topics && |md.topics[t]| == |md.topics[u]| == 1
    ensures AllPartitions(md, [t, u]) == [TopicPartition(t, 0), TopicPartition(u, 0)]
  {
    assert [t, u][..1] == [t] && [t][..0] == [];
    assert Layout(md, t) == [TopicPartition(t, 0)] && Layout(md, u) == [TopicPartition(u, 0)];
    assert AllPartitions(md, [t]) == AllPartitions(md, []) + Layout(md, t);
  }

  lemma PlayTwo(subs: Subscribers, order: seq<Name>, x: TopicPartition, y: TopicPartition)
    requires AllWanted(subs, order, [x, y]) && order != []
    ensures AllWanted(subs, order, [x]) && SomeoneWants(subs, order, x.topic) && SomeoneWants(subs, order, y.topic)
    ensures Play(subs, order, [x, y]) == Turn(subs, order, Turn(subs, order, Table([], 0), x), y)
  {
    assert [x, y] == [x] + [y] && [x] == [] + [x];
    PlaySnoc(subs, order, [x], y);
    PlaySnoc(subs, order, [], x);
  }

  // ----- the algorithm -----

  /** Advance the cycling iterator to the next member that wants the topic. */
  method Seek(subs: Subscribers, order: seq<Name>, t: Name, pos: nat) returns (m: Name, next: nat)
    requires pos < |order| && SomeoneWants(subs, order, t) && forall x :: x in order ==> x in subs
    ensures var i := Next(subs, order, t, pos);
            m == order[i] && next == Succ(order, i)
  {
    ghost var goal := Next(subs, order, t, pos);
    var p := pos;
    while t !in subs[order[p]].topics
      invariant 0 <= p < |order|
      invariant if pos <= goal then pos <= p <= goal else p <= goal || pos <= p
      decreases if p <= goal then goal - p else goal + |order| - p
    {
      p := Succ(order, p);
    }
    assert Wants(subs, order[p], t);
    m, next := order[p], Succ(order, p);
  }

  lemma TurnCollect(subs: Subscribers, order: seq<Name>, ps: seq<TopicPartition>, tp: TopicPartition)
    requires AllWanted(subs, order, ps) && AllWanted(subs, order, ps + [tp])
    requires SomeoneWants(subs, order, tp.topic) && |order| > 0
    ensures var before := Play(subs, order, ps);
            var after := Play(subs, order, ps + [tp]);
            var i := Next(subs, order, tp.topic, before.pos);
            Collect(after.deal) == Give(Collect(before.deal), order[i], [tp]) && after.pos == Succ(order, i)
  {
    PlaySnoc(subs, order, ps, tp);
    var before := Play(subs, order, ps);
    CollectSnoc(before.deal, Hand(order[Next(subs, order, tp.topic, before.pos)], [tp]));
  }

  lemma WantedPrefix(subs: Subscribers, order: seq<Name>, before: seq<TopicPartition>, ps: seq<TopicPartition>, k: nat)
    requires AllWanted(subs, order, before + ps) && k < |ps|
    ensures AllWanted(subs, order, before + ps[..k]) && AllWanted(subs, order, before + ps[..k] + [ps[k]])
    ensures SomeoneWants(subs, order, ps[k].topic) && |order| > 0
    ensures before + ps[..k] + [ps[k]] == before + ps[..k + 1]
  {
    assert ps[k] in before + ps;
    assert forall x :: x in before + ps[..k] ==> x in before + ps;
  }

  /** Deal the partitions of one topic. */
  method DealTopic(subs: Subscribers, order: seq<Name>, ps: seq<TopicPartition>, asg: map<Name, Assignment>, pos: nat,
                   ghost before: seq<TopicPartition>)
    returns (r: map<Name, Assignment>, next: nat)
    requires AllWanted(subs, order, before + ps) && AllWanted(subs, order, before)
    requires forall x :: x in order ==> x in subs
    requires asg == Collect(Play(subs, order, before).deal) && pos == Play(subs, order, before).pos
    ensures r == Collect(Play(subs, order, before + ps).deal) && next == Play(subs, order, before + ps).pos
  {
    r, next := asg, pos;
    assert before + ps[..0] == before;
    for k := 0 to |ps|
      invariant AllWanted(subs, order, before + ps[..k])
      invariant r == Collect(Play(subs, order, before + ps[..k]).deal)
      invariant next == Play(subs, order, before + ps[..k]).pos
    {
      WantedPrefix(subs, order, before, ps, k);
      TurnCollect(subs, order, before + ps[..k], ps[k]);
      var m, after := Seek(subs, order, ps[k].topic, next);
      r := Give(r, m, [ps[k]]);
      next := after;
    }
    assert ps[..|ps|] == ps;
  }

  method CollectTopics(subs: Subscribers) returns (ts: seq<Name>)
    ensures ts == SubscribedTopics(subs)
  {
    var topics := set m, t | m in subs && t in subs[m].topics :: t;
    ts := CollectSorted(topics);
  }

  /** `RoundRobinAssignor::assign`. The hash maps may be walked in any order; the
      result is the same. */
  method Assign(md: Metadata, subs: Subscribers) returns (asg: map<Name, Assignment>)
    ensures asg == RoundRobinAssignment(md, subs)
  {
    var order := CollectSorted(subs.Keys);
    InOrder(subs);
    var ts := CollectTopics(subs);
    asg := AssignTopics(md, subs, order, ts);
  }

  method AssignTopics(md: Metadata, subs: Subscribers, order: seq<Name>, ts: seq<Name>)
    returns (asg: map<Name, Assignment>)
    requires order == Ascending(subs.Keys) && forall x :: x in order ==> x in subs
    requires forall t :: t in ts ==> Subscribed(subs, t)
    ensures AllWanted(subs, order, AllPartitions(md, ts))
    ensures asg == Collect(Play(subs, order, AllPartitions(md, ts)).deal)
  {
    asg := map[];
    var pos := 0;
    assert AllPartitions(md, ts[..0]) == [];
    for j := 0 to |ts|
      invariant AllWanted(subs, order, AllPartitions(md, ts[..j]))
      invariant asg == Collect(Play(subs, order, AllPartitions(md, ts[..j])).deal)
      invariant pos == Play(subs, order, AllPartitions(md, ts[..j])).pos
    {
      assert ts[..j + 1][..j] == ts[..j];
      TopicsWanted(md, subs, ts[..j + 1]);
      var partitions := PartitionsForTopic(md, ts[j]);
      if partitions.Some? {
        asg, pos := DealTopic(subs, order, partitions.value, asg, pos, AllPartitions(md, ts[..j]));
      } else {
        assert AllPartitions(md, ts[..j + 1]) == AllPartitions(md, ts[..j]);
      }
    }
    assert ts[..|ts|] == ts;
  }
}
