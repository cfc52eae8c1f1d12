/** The partition assignors the group leader runs. Both deal out the partitions
    of the subscribed topics, in order, as a sequence of hands; what a member is
    assigned is the concatenation of the hands dealt to it. */
module Assignor {
  import opened Wire
  import opened Names
  import opened ClusterMetadata

  datatype Subscription = Subscription(topics: seq<Name>, userData: Option<Bytes>)

  datatype Assignment = Assignment(partitions: seq<TopicPartition>, userData: Option<Bytes>)

  type Subscribers = map<Name, Subscription>

  datatype Hand = Hand(member: Name, partitions: seq<TopicPartition>)

  type Deal = seq<Hand>

  function Dealt(d: Deal): (r: seq<TopicPartition>) {
    if d == [] then [] else Dealt(d[..|d| - 1]) + d[|d| - 1].partitions
  }

  function ForMember(h: Hand, m: Name): (r: seq<TopicPartition>) {
    if h.member == m then h.partitions else []
  }

  function Share(d: Deal, m: Name): (r: seq<TopicPartition>) {
    if d == [] then [] else Share(d[..|d| - 1], m) + ForMember(d[|d| - 1], m)
  }

  function Players(d: Deal): (ms: set<Name>) {
    if d == [] then {} else Players(d[..|d| - 1]) + {d[|d| - 1].member}
  }

  /** The map from members to assignments that a deal builds up. */
  function Collect(d: Deal): (asg: map<Name, Assignment>) {
    map m | m in Players(d) :: Assignment(Share(d, m), None)
  }

  /** `assignment.entry(m).or_insert_with(default).partitions.append(ps)`. */
  function Give(asg: map<Name, Assignment>, m: Name, ps: seq<TopicPartition>): (r: map<Name, Assignment>) {
    asg[m := if m in asg then asg[m].(partitions := asg[m].partitions + ps) else Assignment(ps, None)]
  }

  lemma DealSnoc(d: Deal, h: Hand)
    ensures Dealt(d + [h]) == Dealt(d) + h.partitions
    ensures Players(d + [h]) == Players(d) + {h.member}
    ensures forall m :: Share(d + [h], m) == Share(d, m) + ForMember(h, m)
  {
    assert (d + [h])[..|d|] == d;
  }

  lemma {:induction false} DealConcat(d: Deal, e: Deal, m: Name)
    ensures Dealt(d + e) == Dealt(d) + Dealt(e)
    ensures Share(d + e, m) == Share(d, m) + Share(e, m)
    decreases |e|
  {
    if e == [] {
      assert d + e == d;
    } else {
      var e', h := e[..|e| - 1], e[|e| - 1];
      DealConcat(d, e', m);
      assert e == e' + [h];
      Assoc(d, e', [h]);
      DealSnoc(d + e', h);
      Assoc(Dealt(d), Dealt(e'), h.partitions);
      Assoc(Share(d, m), Share(e', m), ForMember(h, m));
    }
  }

  lemma {:induction false} PlayersAre(d: Deal, m: Name)
    ensures m in Players(d) <==> exists h :: h in d && h.member == m
  {
    if d != [] {
      var d', h := d[..|d| - 1], d[|d| - 1];
      PlayersAre(d', m);
      assert forall g :: g in d <==> g in d' || g == h;
    }
  }

  lemma {:induction false} PlayersConcat(d: Deal, e: Deal)
    ensures Players(d + e) == Players(d) + Players(e)
    decreases |e|
  {
    if e == [] {
      assert d + e == d;
    } else {
      PlayersConcat(d, e[..|e| - 1]);
      assert (d + e)[..|d + e| - 1] == d + e[..|e| - 1];
    }
  }

  lemma {:induction false} FewPlayers(d: Deal)
    ensures |Players(d)| <= |d|
  {
    if d != [] {
      FewPlayers(d[..|d| - 1]);
    }
  }

  lemma {:induction false} ShareOfAbsent(d: Deal, m: Name)
    requires m !in Players(d)
    ensures Share(d, m) == []
  {
    if d != [] {
      ShareOfAbsent(d[..|d| - 1], m);
    }
  }

  lemma CollectSnoc(d: Deal, h: Hand)
    ensures Collect(d + [h]) == Give(Collect(d), h.member, h.partitions)
  {
    DealSnoc(d, h);
    if h.member !in Players(d) {
      ShareOfAbsent(d, h.member);
    }
    forall m | m in Players(d + [h])
      ensures Collect(d + [h])[m] == Give(Collect(d), h.member, h.partitions)[m]
    {
      assert Share(d + [h], m) == Share(d, m) + ForMember(h, m);
    }
  }

  // ----- what every deal guarantees -----

  lemma {:induction false} ShareWithin(d: Deal, m: Name, tp: TopicPartition)
    requires tp in Share(d, m)
    ensures tp in Dealt(d)
    ensures exists h :: h in d && h.member == m && tp in h.partitions
  {
    var d', h := d[..|d| - 1], d[|d| - 1];
    if tp in Share(d', m) {
      ShareWithin(d', m, tp);
    }
  }

  lemma {:induction false} DealtIsShared(d: Deal, tp: TopicPartition)
    requires tp in Dealt(d)
    ensures exists h :: h in d && tp in Share(d, h.member)
  {
    var d', h := d[..|d| - 1], d[|d| - 1];
    if tp in h.partitions {
      assert tp in Share(d, h.member);
    } else {
      DealtIsShared(d', tp);
      var g :| g in d' && tp in Share(d', g.member);
      assert g in d && tp in Share(d, g.member);
    }
  }

  /** Partitions dealt once are held once: by one member, at one place. */
  lemma {:induction false} SharesDisjoint(d: Deal, m: Name, n: Name)
    requires Distinct(Dealt(d))
    ensures Distinct(Share(d, m))
    ensures m != n ==> forall tp :: tp in Share(d, m) ==> tp !in Share(d, n)
  {
    if d != [] {
      var d', h := d[..|d| - 1], d[|d| - 1];
      DistinctParts(Dealt(d'), h.partitions);
      SharesDisjoint(d', m, n);
      forall tp, k | k in {m, n} && tp in Share(d', k)
        ensures tp in Dealt(d')
      {
        ShareWithin(d', k, tp);
      }
      if h.member == m {
        DistinctJoin(Share(d', m), h.partitions);
      }
    }
  }

  lemma DistinctParts<T>(p: seq<T>, q: seq<T>)
    requires Distinct(p + q)
    ensures Distinct(p) && Distinct(q)
    ensures forall x :: x in p ==> x !in q
  {
    var r := p + q;
    assert forall i :: 0 <= i < |p| ==> r[i] == p[i];
    assert forall i :: 0 <= i < |q| ==> r[|p| + i] == q[i];
    forall i, j | 0 <= i < |p| && 0 <= j < |q|
      ensures p[i] != q[j]
    {
      assert r[i] != r[|p| + j];
    }
    forall i, j | 0 <= i < j < |q|
      ensures q[i] != q[j]
    {
      assert r[|p| + i] != r[|p| + j];
    }
  }

  lemma DistinctJoin<T>(p: seq<T>, q: seq<T>)
    requires Distinct(p) && Distinct(q) && forall x :: x in p ==> x !in q
    ensures Distinct(p + q)
  {
    var r := p + q;
    forall i, j | 0 <= i < j < |r|
      ensures r[i] != r[j]
    {
      if i < |p| <= j {
        assert r[i] in p && r[j] in q;
      }
    }
  }

  /** In ascending order of topic name. */
  predicate TopicSorted(ps: seq<TopicPartition>) {
    forall i, j {:trigger Leq(ps[i].topic, ps[j].topic)} :: 0 <= i < j < |ps| ==> Leq(ps[i].topic, ps[j].topic)
  }

  /** A member's hands keep the order in which the partitions were laid out. */
  lemma {:induction false} ShareSorted(d: Deal, m: Name)
    requires TopicSorted(Dealt(d))
    ensures TopicSorted(Share(d, m))
  {
    if d != [] {
      var d', h := d[..|d| - 1], d[|d| - 1];
      SortedParts(Dealt(d'), h.partitions);
      ShareSorted(d', m);
      if h.member == m {
        forall tp | tp in Share(d', m)
          ensures tp in Dealt(d')
        {
          ShareWithin(d', m, tp);
        }
        SortedJoin(Share(d', m), h.partitions);
      }
    }
  }

  lemma SortedParts(p: seq<TopicPartition>, q: seq<TopicPartition>)
    requires TopicSorted(p + q)
    ensures TopicSorted(p) && TopicSorted(q)
    ensures forall x, y :: x in p && y in q ==> Leq(x.topic, y.topic)
  {
    var r := p + q;
    assert forall i :: 0 <= i < |p| ==> r[i] == p[i];
    forall i, j | 0 <= i < j < |q|
      ensures Leq(q[i].topic, q[j].topic)
    {
      assert r[|p| + i] == q[i] && r[|p| + j] == q[j];
    }
    forall x, y | x in p && y in q
      ensures Leq(x.topic, y.topic)
    {
      var i :| 0 <= i < |p| && p[i] == x;
      var j :| 0 <= j < |q| && q[j] == y;
      assert r[i] == x && r[|p| + j] == y;
    }
  }

  lemma SortedJoin(p: seq<TopicPartition>, q: seq<TopicPartition>)
    requires TopicSorted(p) && TopicSorted(q)
    requires forall x, y :: x in p && y in q ==> Leq(x.topic, y.topic)
    ensures TopicSorted(p + q)
  {
    var r := p + q;
    forall i, j | 0 <= i < j < |r|
      ensures Leq(r[i].topic, r[j].topic)
    {
      if i < |p| <= j {
        assert r[i] in p && r[j] in q;
      }
    }
  }

  /** The partitions of one topic, in the order given. */
  function OfTopic(ps: seq<TopicPartition>, t: Name): (r: seq<TopicPartition>) {
    if ps == [] then []
    else OfTopic(ps[..|ps| - 1], t) + if ps[|ps| - 1].topic == t then [ps[|ps| - 1]] else []
  }

  lemma {:induction false} OfTopicConcat(p: seq<TopicPartition>, q: seq<TopicPartition>, t: Name)
    ensures OfTopic(p + q, t) == OfTopic(p, t) + OfTopic(q, t)
    decreases |q|
  {
    if q == [] {
      assert p + q == p;
    } else {
      var q', x := q[..|q| - 1], q[|q| - 1];
      OfTopicConcat(p, q', t);
      assert (p + q)[..|p + q| - 1] == p + q';
    }
  }

  lemma {:induction false} OfTopicAll(ps: seq<TopicPartition>, t: Name)
    requires forall tp :: tp in ps ==> tp.topic == t
    ensures OfTopic(ps, t) == ps
  {
    if ps != [] {
      OfTopicAll(ps[..|ps| - 1], t);
      assert ps == ps[..|ps| - 1] + [ps[|ps| - 1]];
    }
  }

  lemma {:induction false} OfTopicNone(ps: seq<TopicPartition>, t: Name)
    requires forall tp :: tp in ps ==> tp.topic != t
    ensures OfTopic(ps, t) == []
  {
    if ps != [] {
      OfTopicNone(ps[..|ps| - 1], t);
    }
  }

  // ----- the partitions to be dealt -----

  function Layout(md: Metadata, t: Name): (r: seq<TopicPartition>) {
    match PartitionsForTopic(md, t)
    case Some(ps) => ps
    case None => []
  }

  function AllPartitions(md: Metadata, ts: seq<Name>): (r: seq<TopicPartition>) {
    if ts == [] then [] else AllPartitions(md, ts[..|ts| - 1]) + Layout(md, ts[|ts| - 1])
  }

  predicate Known(md: Metadata, tp: TopicPartition) {
    tp.topic in md.topics && 0 <= tp.partition < |md.topics[tp.topic]|
  }

  lemma {:induction false} AllPartitionsAre(md: Metadata, ts: seq<Name>, tp: TopicPartition)
    ensures tp in AllPartitions(md, ts) <==> tp.topic in ts && Known(md, tp)
  {
    if ts != [] {
      var ts', t := ts[..|ts| - 1], ts[|ts| - 1];
      AllPartitionsAre(md, ts', tp);
      assert tp.topic in ts <==> tp.topic in ts' || tp.topic == t;
      if tp.topic == t && Known(md, tp) {
        assert Layout(md, t)[tp.partition] == tp;
      }
    }
  }

  lemma {:induction false} AllPartitionsOrdered(md: Metadata, ts: seq<Name>)
    requires Sorted(ts) && Distinct(ts)
    ensures Distinct(AllPartitions(md, ts)) && TopicSorted(AllPartitions(md, ts))
  {
    if ts != [] {
      var ts', t := ts[..|ts| - 1], ts[|ts| - 1];
      AllPartitionsOrdered(md, ts');
      LeqTotal(t, t);
      forall tp | tp in AllPartitions(md, ts')
        ensures tp.topic in ts'
      {
        AllPartitionsAre(md, ts', tp);
      }
      DistinctJoin(AllPartitions(md, ts'), Layout(md, t));
      SortedJoin(AllPartitions(md, ts'), Layout(md, t));
    }
  }

  ghost predicate Subscribed(subs: Subscribers, t: Name) {
    exists m :: m in subs && t in subs[m].topics
  }

  /** The topics some member subscribes to, in ascending order. */
  ghost function SubscribedTopics(subs: Subscribers): (ts: seq<Name>)
    ensures forall t :: t in ts <==> Subscribed(subs, t)
    ensures Sorted(ts) && Distinct(ts)
  {
    var s := set m, t | m in subs && t in subs[m].topics :: t;
    assert forall t :: t in Ascending(s) <==> t in Elements(Ascending(s));
    Ascending(s)
  }

  // ----- exact cover -----

  /** No partition is held twice, by one member or by two. */
  ghost predicate HeldOnce(asg: map<Name, Assignment>) {
    && (forall m :: m in asg ==> Distinct(asg[m].partitions))
    && (forall m, n, tp :: m in asg && n in asg && m != n && tp in asg[m].partitions ==> tp !in asg[n].partitions)
  }

  /** Members hold only partitions that exist, of topics they subscribe to. */
  ghost predicate WithinSubscriptions(md: Metadata, subs: Subscribers, asg: map<Name, Assignment>) {
    && (forall m :: m in asg ==> m in subs)
    && (forall m, tp :: m in asg && tp in asg[m].partitions ==> tp.topic in subs[m].topics && Known(md, tp))
  }

  /** Every existing partition of a subscribed topic is held by someone. */
  ghost predicate NothingLeft(md: Metadata, subs: Subscribers, asg: map<Name, Assignment>) {
    forall m, tp: TopicPartition :: m in subs && tp.topic in subs[m].topics && Known(md, tp) ==> Assigned(asg, tp)
  }

  /** Every partition of every subscribed topic the metadata knows is assigned,
      to exactly one member, once, and that member subscribes to the topic. */
  ghost predicate ExactCover(md: Metadata, subs: Subscribers, asg: map<Name, Assignment>) {
    HeldOnce(asg) && WithinSubscriptions(md, subs, asg) && NothingLeft(md, subs, asg)
  }

  ghost predicate Assigned(asg: map<Name, Assignment>, tp: TopicPartition) {
    exists n :: n in asg && tp in asg[n].partitions
  }

  predicate ToSubscriber(subs: Subscribers, h: Hand) {
    h.member in subs && forall tp :: tp in h.partitions ==> tp.topic in subs[h.member].topics
  }

  predicate ToSubscribers(subs: Subscribers, d: Deal) {
    forall h :: h in d ==> ToSubscriber(subs, h)
  }

  /** A deal of exactly the subscribed partitions, each to a subscriber. */
  ghost predicate FairDeal(md: Metadata, subs: Subscribers, d: Deal) {
    Dealt(d) == AllPartitions(md, SubscribedTopics(subs)) && ToSubscribers(subs, d)
  }

  lemma FairDealHeldOnce(d: Deal)
    requires Distinct(Dealt(d)) && TopicSorted(Dealt(d))
    ensures HeldOnce(Collect(d))
    ensures forall m :: m in Collect(d) ==> TopicSorted(Collect(d)[m].partitions)
  {
    forall m, n | m in Players(d) && n in Players(d)
      ensures Distinct(Share(d, m)) && TopicSorted(Share(d, m))
      ensures m != n ==> forall tp :: tp in Share(d, m) ==> tp !in Share(d, n)
    {
      SharesDisjoint(d, m, n);
      ShareSorted(d, m);
    }
  }

  lemma FairDealWithin(md: Metadata, subs: Subscribers, d: Deal)
    requires FairDeal(md, subs, d)
    ensures WithinSubscriptions(md, subs, Collect(d))
  {
    forall m | m in Players(d)
      ensures m in subs
    {
      PlayersAre(d, m);
    }
    forall m, tp | m in Players(d) && tp in Share(d, m)
      ensures tp.topic in subs[m].topics && Known(md, tp)
    {
      ShareWithin(d, m, tp);
      var h :| h in d && h.member == m && tp in h.partitions;
      assert ToSubscriber(subs, h);
      AllPartitionsAre(md, SubscribedTopics(subs), tp);
    }
  }

  lemma FairDealComplete(md: Metadata, subs: Subscribers, d: Deal)
    requires FairDeal(md, subs, d)
    ensures NothingLeft(md, subs, Collect(d))
  {
    forall m, tp: TopicPartition | m in subs && tp.topic in subs[m].topics && Known(md, tp)
      ensures Assigned(Collect(d), tp)
    {
      AllPartitionsAre(md, SubscribedTopics(subs), tp);
      DealtIsShared(d, tp);
      var h :| h in d && tp in Share(d, h.member);
      PlayersAre(d, h.member);
      assert h.member in Collect(d) && tp in Collect(d)[h.member].partitions;
    }
  }

  lemma FairDealCovers(md: Metadata, subs: Subscribers, d: Deal)
    requires FairDeal(md, subs, d)
    ensures ExactCover(md, subs, Collect(d))
    ensures forall m :: m in Collect(d) ==> TopicSorted(Collect(d)[m].partitions)
  {
    AllPartitionsOrdered(md, SubscribedTopics(subs));
    FairDealHeldOnce(d);
    FairDealWithin(md, subs, d);
    FairDealComplete(md, subs, d);
  }
}
