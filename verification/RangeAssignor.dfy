/** The range assignor: topic by topic, the subscribers in ascending order get
    consecutive blocks of partitions. */
module RangeAssignor {
  import opened Wire
  import opened Names
  import opened ClusterMetadata
  import opened Assignor

  // ----- dividing n partitions among k subscribers -----

  /** How many partitions the i-th of k subscribers gets: the first n % k of them
      get one more than the others. */
  function BlockSize(n: nat, k: nat, i: nat): (r: nat)
    requires k > 0
  {
    n / k + if i >= n % k then 0 else 1
  }

  /** Where the block of the i-th subscriber begins. */
  function Start(n: nat, k: nat, i: nat): (r: nat)
    requires k > 0
  {
    if i == 0 then 0 else Start(n, k, i - 1) + BlockSize(n, k, i - 1)
  }

  lemma {:induction false} StartClosedForm(n: nat, k: nat, i: nat)
    requires i <= k && 0 < k
    ensures Start(n, k, i) == i * (n / k) + if i < n % k then i else n % k
  {
    if i > 0 {
      StartClosedForm(n, k, i - 1);
      assert i * (n / k) == (i - 1) * (n / k) + n / k;
    }
  }

  lemma {:induction false} StartMonotone(n: nat, k: nat, i: nat, j: nat)
    requires i <= j && 0 < k
    ensures Start(n, k, i) <= Start(n, k, j)
    decreases j
  {
    if i < j {
      StartMonotone(n, k, i, j - 1);
    }
  }

  lemma StartAtEnd(n: nat, k: nat)
    requires 0 < k
    ensures Start(n, k, k) == n
  {
    StartClosedForm(n, k, k);
    assert k * (n / k) + n % k == n;
  }

  /** Consecutive cut points from 0 to n, bounding k blocks. */
  predicate Cuts(c: seq<nat>, k: nat, n: nat) {
    |c| == k + 1 && c[0] == 0 && c[k] == n && forall i, j :: 0 <= i <= j <= k ==> c[i] <= c[j]
  }

  /** Cut points that give the i-th subscriber its block size. */
  predicate RangeBounds(c: seq<nat>, n: nat, k: nat)
    requires 0 < k
  {
    && Cuts(c, k, n)
    && forall i {:trigger BlockSize(n, k, i)} :: 0 <= i < k ==> c[i + 1] == c[i] + BlockSize(n, k, i)
  }

  /** The division never runs out of partitions and never leaves any over. */
  lemma RangeBoundsExist(n: nat, k: nat) returns (c: seq<nat>)
    requires 0 < k
    ensures RangeBounds(c, n, k)
  {
    StartAtEnd(n, k);
    forall i: nat, j: nat | i <= j <= k
      ensures Start(n, k, i) <= Start(n, k, j)
    {
      StartMonotone(n, k, i, j);
    }
    c := seq(k + 1, i requires 0 <= i => Start(n, k, i));
  }

  ghost function RangeCuts(n: nat, k: nat): (c: seq<nat>)
    requires 0 < k
    ensures RangeBounds(c, n, k)
  {
    assert exists c :: RangeBounds(c, n, k) by { var c := RangeBoundsExist(n, k); }
    var c :| RangeBounds(c, n, k);
    c
  }

  // ----- who subscribes to a topic -----

  /** How often a member lists a topic. */
  function Times(subs: Subscribers, t: Name, m: Name): (n: nat) {
    if m in subs then Count(subs[m].topics, t) else 0
  }

  function ConsumersAmong(subs: Subscribers, t: Name, ms: seq<Name>): (r: seq<Name>) {
    if ms == [] then []
    else ConsumersAmong(subs, t, ms[..|ms| - 1]) + Repeat(ms[|ms| - 1], Times(subs, t, ms[|ms| - 1]))
  }

  lemma {:induction false} ConsumersAmongCount(subs: Subscribers, t: Name, ms: seq<Name>, m: Name)
    requires Distinct(ms)
    ensures Count(ConsumersAmong(subs, t, ms), m) == if m in ms then Times(subs, t, m) else 0
  {
    if ms != [] {
      var ms', x := ms[..|ms| - 1], ms[|ms| - 1];
      ConsumersAmongCount(subs, t, ms', m);
      CountConcat(ConsumersAmong(subs, t, ms'), Repeat(x, Times(subs, t, x)), m);
      CountRepeat(x, Times(subs, t, x), m);
      assert x !in ms' && (m in ms <==> m in ms' || m == x);
    }
  }

  lemma {:induction false} ConsumersAmongSorted(subs: Subscribers, t: Name, ms: seq<Name>)
    requires Sorted(ms)
    ensures Sorted(ConsumersAmong(subs, t, ms))
    ensures forall x :: x in ConsumersAmong(subs, t, ms) ==> x in ms
  {
    if ms != [] {
      var ms', m := ms[..|ms| - 1], ms[|ms| - 1];
      var p, q := ConsumersAmong(subs, t, ms'), Repeat(m, Times(subs, t, m));
      ConsumersAmongSorted(subs, t, ms');
      LeqTotal(m, m);
      forall i, j | 0 <= i < j < |p + q|
        ensures Leq((p + q)[i], (p + q)[j])
      {
        if j >= |p| {
          assert (p + q)[j] in q;
          if i >= |p| {
            assert (p + q)[i] in q;
          } else {
            assert p[i] in ms';
          }
        }
      }
    }
  }

  ghost predicate AreConsumers(subs: Subscribers, t: Name, r: seq<Name>) {
    Sorted(r) && forall m :: Count(r, m) == Times(subs, t, m)
  }

  lemma ConsumersExist(subs: Subscribers, t: Name) returns (r: seq<Name>)
    ensures AreConsumers(subs, t, r)
  {
    var ms := Ascending(subs.Keys);
    r := ConsumersAmong(subs, t, ms);
    ConsumersAmongSorted(subs, t, ms);
    forall m
      ensures Count(r, m) == Times(subs, t, m)
    {
      ConsumersAmongCount(subs, t, ms, m);
      assert m in Elements(ms) <==> m in ms;
    }
  }

  /** The subscribers of a topic in ascending order; a member that lists the
      topic twice appears twice. */
  ghost function Consumers(subs: Subscribers, t: Name): (r: seq<Name>)
    ensures AreConsumers(subs, t, r)
  {
    assert exists r :: AreConsumers(subs, t, r) by { var r := ConsumersExist(subs, t); }
    var r :| AreConsumers(subs, t, r);
    r
  }

  lemma ConsumersSubscribe(subs: Subscribers, t: Name, m: Name)
    ensures m in Consumers(subs, t) <==> m in subs && t in subs[m].topics
  {
    CountIsMultiplicity(Consumers(subs, t), m);
    if m in subs {
      CountIsMultiplicity(subs[m].topics, t);
    }
  }

  lemma SomeConsumer(subs: Subscribers, t: Name)
    requires Subscribed(subs, t)
    ensures |Consumers(subs, t)| > 0
  {
    var m :| m in subs && t in subs[m].topics;
    ConsumersSubscribe(subs, t, m);
  }

  // ----- the deal -----

  /** The partitions between two cut points. */
  function Block(ps: seq<TopicPartition>, c: seq<nat>, k: nat, i: nat, j: nat): (r: seq<TopicPartition>)
    requires Cuts(c, k, |ps|) && i <= j <= k
    ensures |r| == c[j] - c[i]
  {
    ps[c[i]..c[j]]
  }

  lemma BlockJoin(ps: seq<TopicPartition>, c: seq<nat>, k: nat, i: nat, j: nat, l: nat)
    requires Cuts(c, k, |ps|) && i <= j <= l <= k
    ensures Block(ps, c, k, i, j) + Block(ps, c, k, j, l) == Block(ps, c, k, i, l)
  {
  }

  function DealTopic(cs: seq<Name>, ps: seq<TopicPartition>, c: seq<nat>, i: nat): (d: Deal)
    requires Cuts(c, |cs|, |ps|) && i <= |cs|
    ensures |d| == i
  {
    if i == 0 then []
    else DealTopic(cs, ps, c, i - 1) + [Hand(cs[i - 1], Block(ps, c, |cs|, i - 1, i))]
  }

  lemma {:induction false} TopicDealt(cs: seq<Name>, ps: seq<TopicPartition>, c: seq<nat>, i: nat)
    requires Cuts(c, |cs|, |ps|) && i <= |cs|
    ensures Dealt(DealTopic(cs, ps, c, i)) == Block(ps, c, |cs|, 0, i)
    ensures forall h :: h in DealTopic(cs, ps, c, i) ==> h.member in cs
    ensures forall h, tp :: h in DealTopic(cs, ps, c, i) && tp in h.partitions ==> tp in ps
  {
    if i > 0 {
      TopicDealt(cs, ps, c, i - 1);
      DealSnoc(DealTopic(cs, ps, c, i - 1), Hand(cs[i - 1], Block(ps, c, |cs|, i - 1, i)));
      BlockJoin(ps, c, |cs|, 0, i - 1, i);
      assert forall tp :: tp in Block(ps, c, |cs|, i - 1, i) ==> tp in ps;
    }
  }

  /** What the assignor deals for one known topic. */
  ghost function TopicDeal(md: Metadata, subs: Subscribers, t: Name): (d: Deal)
    requires Subscribed(subs, t)
  {
    SomeConsumer(subs, t);
    var cs, ps := Consumers(subs, t), Layout(md, t);
    DealTopic(cs, ps, RangeCuts(|ps|, |cs|), |cs|)
  }

  /** Dealing the topics in order; topics the metadata does not know are skipped. */
  ghost function RangeDeal(md: Metadata, subs: Subscribers, ts: seq<Name>): (d: Deal)
    requires forall t :: t in ts ==> Subscribed(subs, t)
  {
    if ts == [] then []
    else
      var t := ts[|ts| - 1];
      RangeDeal(md, subs, ts[..|ts| - 1]) + if t in md.topics then TopicDeal(md, subs, t) else []
  }

  ghost function RangeAssignment(md: Metadata, subs: Subscribers): (asg: map<Name, Assignment>) {
    Collect(RangeDeal(md, subs, SubscribedTopics(subs)))
  }

  lemma HandsToSubscribers(subs: Subscribers, t: Name, ps: seq<TopicPartition>, d: Deal)
    requires forall tp :: tp in ps ==> tp.topic == t
    requires forall h :: h in d ==> h.member in subs && t in subs[h.member].topics
    requires forall h, tp :: h in d && tp in h.partitions ==> tp in ps
    ensures ToSubscribers(subs, d)
  {
  }

  lemma TopicFair(md: Metadata, subs: Subscribers, t: Name)
    requires Subscribed(subs, t)
    ensures Dealt(TopicDeal(md, subs, t)) == Layout(md, t)
    ensures ToSubscribers(subs, TopicDeal(md, subs, t))
  {
    var cs, ps := Consumers(subs, t), Layout(md, t);
    SomeConsumer(subs, t);
    var c := RangeCuts(|ps|, |cs|);
    TopicDealt(cs, ps, c, |cs|);
    assert Block(ps, c, |cs|, 0, |cs|) == ps;
    forall m | m in cs
      ensures m in subs && t in subs[m].topics
    {
      ConsumersSubscribe(subs, t, m);
    }
    HandsToSubscribers(subs, t, ps, DealTopic(cs, ps, c, |cs|));
  }

  lemma {:induction false} RangeDealFair(md: Metadata, subs: Subscribers, ts: seq<Name>)
    requires forall t :: t in ts ==> Subscribed(subs, t)
    ensures Dealt(RangeDeal(md, subs, ts)) == AllPartitions(md, ts)
    ensures ToSubscribers(subs, RangeDeal(md, subs, ts))
  {
    if ts != [] {
      var ts', t := ts[..|ts| - 1], ts[|ts| - 1];
      var d := RangeDeal(md, subs, ts');
      RangeDealFair(md, subs, ts');
      if t in md.topics {
        var e := TopicDeal(md, subs, t);
        TopicFair(md, subs, t);
        DealConcat(d, e, t);
        assert RangeDeal(md, subs, ts) == d + e;
      } else {
        assert RangeDeal(md, subs, ts) == d;
      }
    }
  }

  /** For every metadata and every subscription map, the range assignor assigns
      each known partition of each subscribed topic to exactly one subscriber. */
  lemma RangeExactCover(md: Metadata, subs: Subscribers)
    ensures ExactCover(md, subs, RangeAssignment(md, subs))
    ensures forall m :: m in RangeAssignment(md, subs) ==> TopicSorted(RangeAssignment(md, subs)[m].partitions)
  {
    RangeDealFair(md, subs, SubscribedTopics(subs));
    FairDealCovers(md, subs, RangeDeal(md, subs, SubscribedTopics(subs)));
  }

  // ----- who receives an entry -----

  lemma ElementsSnoc(q: seq<Name>, x: Name)
    ensures Elements(q + [x]) == Elements(q) + {x}
  {
  }

  lemma {:induction false} TopicPlayers(cs: seq<Name>, ps: seq<TopicPartition>, c: seq<nat>, i: nat)
    requires Cuts(c, |cs|, |ps|) && i <= |cs|
    ensures Players(DealTopic(cs, ps, c, i)) == Elements(cs[..i])
  {
    if i > 0 {
      TopicPlayers(cs, ps, c, i - 1);
      var d, h := DealTopic(cs, ps, c, i - 1), Hand(cs[i - 1], Block(ps, c, |cs|, i - 1, i));
      DealSnoc(d, h);
      assert DealTopic(cs, ps, c, i) == d + [h];
      assert cs[..i] == cs[..i - 1] + [cs[i - 1]];
      ElementsSnoc(cs[..i - 1], cs[i - 1]);
    }
  }

  lemma TopicDealPlayers(md: Metadata, subs: Subscribers, t: Name, m: Name)
    requires Subscribed(subs, t)
    ensures m in Players(TopicDeal(md, subs, t)) <==> m in subs && t in subs[m].topics
  {
    var cs, ps := Consumers(subs, t), Layout(md, t);
    SomeConsumer(subs, t);
    TopicPlayers(cs, ps, RangeCuts(|ps|, |cs|), |cs|);
    assert cs[..|cs|] == cs;
    ConsumersSubscribe(subs, t, m);
  }

  lemma {:induction false} RangeDealPlayers(md: Metadata, subs: Subscribers, ts: seq<Name>, m: Name)
    requires forall t :: t in ts ==> Subscribed(subs, t)
    ensures m in Players(RangeDeal(md, subs, ts)) <==>
            exists t :: t in ts && t in md.topics && m in subs && t in subs[m].topics
  {
    if ts != [] {
      var ts', t := ts[..|ts| - 1], ts[|ts| - 1];
      RangeDealPlayers(md, subs, ts', m);
      assert forall u :: u in ts <==> u in ts' || u == t;
      if t in md.topics {
        TopicDealPlayers(md, subs, t, m);
        PlayersConcat(RangeDeal(md, subs, ts'), TopicDeal(md, subs, t));
      } else {
        assert RangeDeal(md, subs, ts) == RangeDeal(md, subs, ts');
      }
    }
  }

  /** A member receives an entry, possibly with no partitions in it, exactly when
      it subscribes to some topic that the leader's metadata knows. */
  lemma RangeIncludes(md: Metadata, subs: Subscribers, m: Name)
    ensures m in RangeAssignment(md, subs) <==>
            exists t :: t in md.topics && m in subs && t in subs[m].topics
  {
    RangeDealPlayers(md, subs, SubscribedTopics(subs), m);
    if t :| t in md.topics && m in subs && t in subs[m].topics {
      assert Subscribed(subs, t);
    }
  }

  // ----- balance -----

  function FirstIndex(q: seq<Name>, m: Name): (r: nat)
    ensures r <= |q|
    ensures r < |q| ==> q[r] == m
    ensures forall i :: 0 <= i < r ==> q[i] != m
  {
    if q == [] || q[0] == m then 0 else 1 + FirstIndex(q[1..], m)
  }

  lemma SqueezedEqual(q: seq<Name>, a: nat, b: nat, i: nat)
    requires Sorted(q) && a <= i <= b < |q| && q[a] == q[b]
    ensures q[i] == q[a]
  {
    if a < i < b {
      LeqAntisymmetric(q[a], q[i]);
    }
  }

  /** The positions from a to b, and no others, hold m. */
  predicate Occupies(q: seq<Name>, m: Name, a: nat, b: nat) {
    a <= b <= |q| && forall i :: 0 <= i < |q| ==> (a <= i < b <==> q[i] == m)
  }

  lemma OccupiesSnoc(q: seq<Name>, m: Name, a: nat, b: nat)
    requires 0 < |q| && Occupies(q[..|q| - 1], m, a, b)
    requires q[|q| - 1] == m && a < b ==> b == |q| - 1
    ensures q[|q| - 1] != m && a < b ==> Occupies(q, m, a, b)
    ensures q[|q| - 1] == m && a < b ==> Occupies(q, m, a, b + 1)
    ensures q[|q| - 1] == m && a == b ==> Occupies(q, m, |q| - 1, |q|)
    ensures q[|q| - 1] != m && a == b ==> Occupies(q, m, |q|, |q|)
  {
    var q' := q[..|q| - 1];
    assert forall i :: 0 <= i < |q'| ==> q'[i] == q[i];
  }

  lemma FirstOccupied(q: seq<Name>, m: Name, a: nat, b: nat)
    requires Occupies(q, m, a, b) && (a == b ==> a == |q|)
    ensures FirstIndex(q, m) == a
  {
    var r := FirstIndex(q, m);
    if r < |q| {
      assert a <= r < b <==> q[r] == m;
    }
    if a < b {
      assert q[a] == m;
    }
  }

  /** In a sorted vector, equal names are next to each other. */
  lemma {:induction false} EqualsAdjacent(q: seq<Name>, m: Name)
    requires Sorted(q)
    ensures Occupies(q, m, FirstIndex(q, m), FirstIndex(q, m) + Count(q, m))
  {
    if q != [] {
      var q', k := q[..|q| - 1], |q| - 1;
      EqualsAdjacent(q', m);
      var a, b := FirstIndex(q', m), FirstIndex(q', m) + Count(q', m);
      if q[k] == m && a < b < k {
        assert q[a] == q'[a] && q[b] == q'[b];
        SqueezedEqual(q, a, k, b);
      }
      OccupiesSnoc(q, m, a, b);
      FirstOccupied(q, m,
                    if a < b then a else if q[k] == m then k else |q|,
                    if a < b then b + (if q[k] == m then 1 else 0) else |q|);
    }
  }

  lemma ShareSnoc(d: Deal, h: Hand, m: Name)
    ensures Share(d + [h], m) == Share(d, m) + ForMember(h, m)
  {
    DealSnoc(d, h);
  }

  /** What a member has after i hands: its block as far as it was dealt. */
  function BlockSoFar(ps: seq<TopicPartition>, c: seq<nat>, k: nat, a: nat, b: nat, i: nat): (r: seq<TopicPartition>)
    requires Cuts(c, k, |ps|) && a <= b <= k && i <= k
  {
    if i <= a then [] else Block(ps, c, k, a, if i < b then i else b)
  }

  lemma BlockGrows(ps: seq<TopicPartition>, c: seq<nat>, k: nat, a: nat, b: nat, i: nat)
    requires Cuts(c, k, |ps|) && a <= b <= k && i < k
    ensures BlockSoFar(ps, c, k, a, b, i + 1)
         == BlockSoFar(ps, c, k, a, b, i) + if a <= i < b then Block(ps, c, k, i, i + 1) else []
  {
    if a < i < b {
      BlockJoin(ps, c, k, a, i, i + 1);
    }
  }

  lemma {:induction false} TopicShare(
      cs: seq<Name>, ps: seq<TopicPartition>, c: seq<nat>, m: Name, a: nat, b: nat, i: nat)
    requires Cuts(c, |cs|, |ps|) && Occupies(cs, m, a, b) && i <= |cs|
    ensures Share(DealTopic(cs, ps, c, i), m) == BlockSoFar(ps, c, |cs|, a, b, i)
  {
    if i > 0 {
      TopicShare(cs, ps, c, m, a, b, i - 1);
      ShareSnoc(DealTopic(cs, ps, c, i - 1), Hand(cs[i - 1], Block(ps, c, |cs|, i - 1, i)), m);
      assert cs[i - 1] == m <==> a <= i - 1 < b;
      BlockGrows(ps, c, |cs|, a, b, i - 1);
    }
  }

  lemma TopicShareOf(md: Metadata, subs: Subscribers, u: Name, t: Name, m: Name)
    requires Subscribed(subs, u)
    ensures OfTopic(Share(TopicDeal(md, subs, u), m), t) == if t == u then Share(TopicDeal(md, subs, u), m) else []
  {
    var e := TopicDeal(md, subs, u);
    TopicFair(md, subs, u);
    forall tp | tp in Share(e, m)
      ensures tp.topic == u
    {
      ShareWithin(e, m, tp);
      assert tp in Layout(md, u);
    }
    if t == u {
      OfTopicAll(Share(e, m), t);
    } else {
      OfTopicNone(Share(e, m), t);
    }
  }

  lemma {:induction false} RangeShareOfTopic(md: Metadata, subs: Subscribers, ts: seq<Name>, t: Name, m: Name)
    requires forall u :: u in ts ==> Subscribed(subs, u)
    requires Distinct(ts)
    ensures OfTopic(Share(RangeDeal(md, subs, ts), m), t) ==
            if t in ts && t in md.topics then Share(TopicDeal(md, subs, t), m) else []
  {
    if ts != [] {
      var ts', u := ts[..|ts| - 1], ts[|ts| - 1];
      var d := RangeDeal(md, subs, ts');
      RangeShareOfTopic(md, subs, ts', t, m);
      assert u !in ts' && (t in ts <==> t in ts' || t == u);
      if u in md.topics {
        var e := TopicDeal(md, subs, u);
        assert RangeDeal(md, subs, ts) == d + e;
        DealConcat(d, e, m);
        OfTopicConcat(Share(d, m), Share(e, m), t);
        TopicShareOf(md, subs, u, t, m);
      } else {
        assert RangeDeal(md, subs, ts) == d;
      }
    }
  }

  /** What the range assignor gives a member of one topic. */
  ghost function RangeShare(md: Metadata, subs: Subscribers, t: Name, m: Name): (ps: seq<TopicPartition>) {
    OfTopic(Share(RangeDeal(md, subs, SubscribedTopics(subs)), m), t)
  }

  lemma TopicShareWhole(cs: seq<Name>, ps: seq<TopicPartition>, c: seq<nat>, m: Name, a: nat, b: nat)
    requires Cuts(c, |cs|, |ps|) && Occupies(cs, m, a, b)
    ensures Share(DealTopic(cs, ps, c, |cs|), m) == Block(ps, c, |cs|, a, b)
  {
    TopicShare(cs, ps, c, m, a, b, |cs|);
  }

  lemma RankOccupies(subs: Subscribers, t: Name, cs: seq<Name>, m: Name)
    requires AreConsumers(subs, t, cs)
    ensures Occupies(cs, m, FirstIndex(cs, m), FirstIndex(cs, m) + Times(subs, t, m))
  {
    EqualsAdjacent(cs, m);
  }

  /** A member's hands of one topic are one block, however often it is listed. */
  lemma BlockByRank(subs: Subscribers, t: Name, cs: seq<Name>, ps: seq<TopicPartition>, c: seq<nat>, m: Name)
    requires AreConsumers(subs, t, cs) && Cuts(c, |cs|, |ps|)
    ensures FirstIndex(cs, m) + Times(subs, t, m) <= |cs|
    ensures Share(DealTopic(cs, ps, c, |cs|), m)
         == Block(ps, c, |cs|, FirstIndex(cs, m), FirstIndex(cs, m) + Times(subs, t, m))
  {
    RankOccupies(subs, t, cs, m);
    TopicShareWhole(cs, ps, c, m, FirstIndex(cs, m), FirstIndex(cs, m) + Times(subs, t, m));
  }

  lemma TopicDealBlock(md: Metadata, subs: Subscribers, t: Name, m: Name)
    requires Subscribed(subs, t)
    ensures var cs, ps := Consumers(subs, t), Layout(md, t);
            var a := FirstIndex(cs, m);
            var b := a + Times(subs, t, m);
            0 < |cs| && b <= |cs|
            && Share(TopicDeal(md, subs, t), m) == Block(ps, RangeCuts(|ps|, |cs|), |cs|, a, b)
  {
    var cs, ps := Consumers(subs, t), Layout(md, t);
    SomeConsumer(subs, t);
    BlockByRank(subs, t, cs, ps, RangeCuts(|ps|, |cs|), m);
  }

  /** The partitions of a known topic that a member receives form one contiguous
      block, placed by the member's rank among the topic's subscribers. */
  lemma RangeContiguous(md: Metadata, subs: Subscribers, t: Name, m: Name)
    requires Subscribed(subs, t) && t in md.topics
    ensures var cs, ps := Consumers(subs, t), Layout(md, t);
            var a := FirstIndex(cs, m);
            var b := a + Times(subs, t, m);
            0 < |cs| && b <= |cs|
            && RangeShare(md, subs, t, m) == Block(ps, RangeCuts(|ps|, |cs|), |cs|, a, b)
  {
    TopicDealBlock(md, subs, t, m);
    RangeShareOfTopic(md, subs, SubscribedTopics(subs), t, m);
  }

  /** How many of the x places from a on are among the first r. */
  function Extra(a: nat, x: nat, r: nat): (e: nat)
    ensures e <= x
  {
    if a + x <= r then x else if a < r then r - a else 0
  }

  /** The size of x blocks from the a-th on, by quotient and remainder. */
  function BlocksOf(quotient: int, remainder: nat, a: nat, x: nat): (n: int) {
    x * quotient + Extra(a, x, remainder)
  }

  lemma {:induction false} CutsAreStarts(c: seq<nat>, n: nat, k: nat, i: nat)
    requires 0 < k && RangeBounds(c, n, k) && i <= k
    ensures c[i] == Start(n, k, i)
  {
    if i > 0 {
      CutsAreStarts(c, n, k, i - 1);
      assert c[i] == c[i - 1] + BlockSize(n, k, i - 1);
    }
  }

  lemma SizeFrom(start: int, end: int, a: nat, x: nat, q: int, r: nat)
    requires start == a * q + (if a < r then a else r)
    requires end == (a + x) * q + (if a + x < r then a + x else r)
    ensures end - start == BlocksOf(q, r, a, x)
  {
    assert (a + x) * q == a * q + x * q;
  }

  lemma BlocksSize(c: seq<nat>, n: nat, k: nat, a: nat, x: nat)
    requires 0 < k && RangeBounds(c, n, k) && a + x <= k
    ensures c[a + x] - c[a] == BlocksOf(n / k, n % k, a, x)
  {
    CutsAreStarts(c, n, k, a);
    CutsAreStarts(c, n, k, a + x);
    StartClosedForm(n, k, a);
    StartClosedForm(n, k, a + x);
    SizeFrom(c[a], c[a + x], a, x, n / k, n % k);
  }

  /** However often a member lists a topic, it gets the quotient for each time, and one
      more for each of its places among the first up to the remainder. */
  lemma RangeShareSize(md: Metadata, subs: Subscribers, t: Name, m: Name)
    requires Subscribed(subs, t) && t in md.topics
    ensures var n, k := |md.topics[t]|, |Consumers(subs, t)|;
            var a, x := FirstIndex(Consumers(subs, t), m), Times(subs, t, m);
            && 0 < k && a + x <= k
            && |RangeShare(md, subs, t, m)| == BlocksOf(n / k, n % k, a, x)
            && (x == 1 ==> |RangeShare(md, subs, t, m)| == BlockSize(n, k, a))
  {
    var n, k := |md.topics[t]|, |Consumers(subs, t)|;
    RangeContiguous(md, subs, t, m);
    BlocksSize(RangeCuts(n, k), n, k, FirstIndex(Consumers(subs, t), m), Times(subs, t, m));
  }

  lemma RanksFollowIds(cs: seq<Name>, m: Name, n: Name)
    requires Sorted(cs) && m in cs && n in cs && m != n && Leq(m, n)
    ensures FirstIndex(cs, m) < FirstIndex(cs, n)
  {
    if FirstIndex(cs, n) < FirstIndex(cs, m) {
      LeqAntisymmetric(m, n);
    }
  }

  lemma RanksApart(subs: Subscribers, t: Name, m: Name, n: Name)
    requires Times(subs, t, m) > 0 && Times(subs, t, n) > 0 && m != n && Leq(m, n)
    ensures FirstIndex(Consumers(subs, t), m) + Times(subs, t, m) <= FirstIndex(Consumers(subs, t), n)
  {
    var cs := Consumers(subs, t);
    CountIsMultiplicity(cs, m);
    CountIsMultiplicity(cs, n);
    RanksFollowIds(cs, m, n);
    RankOccupies(subs, t, cs, m);
  }

  /** What two members have more and less by place, x blocks from a on and y from b on,
      makes up for what they have by number, up to one. */
  predicate Evened(quotient: int, remainder: nat, a: nat, x: nat, b: nat, y: nat) {
    0 <= (x - y) * quotient + (Extra(a, x, remainder) - Extra(b, y, remainder)) <= 1
  }

  lemma SizesCompared(quotient: int, remainder: nat, a: nat, x: nat, b: nat, y: nat)
    requires a + x <= b
    ensures var p, q := BlocksOf(quotient, remainder, a, x), BlocksOf(quotient, remainder, b, y);
            && (x == y ==> q <= p <= q + x)
            && (q <= p <= q + 1 <==> Evened(quotient, remainder, a, x, b, y))
  {
    assert (x - y) * quotient == x * quotient - y * quotient;
  }

  /** Between two members that list a topic equally often, the one with the smaller id
      has as many of its partitions as the other, or more by at most that number: by at
      most one when they list it once. In general the counts are within one exactly when
      quotient, remainder and ranks even out the difference. */
  lemma RangeBalanced(md: Metadata, subs: Subscribers, t: Name, m: Name, n: Name)
    requires t in md.topics && Times(subs, t, m) > 0 && Times(subs, t, n) > 0
    requires m != n && Leq(m, n)
    ensures var p, q := |RangeShare(md, subs, t, m)|, |RangeShare(md, subs, t, n)|;
            var x, y := Times(subs, t, m), Times(subs, t, n);
            var cs, all := Consumers(subs, t), |md.topics[t]|;
            && |cs| > 0
            && (x == y ==> q <= p <= q + x)
            && (q <= p <= q + 1 <==>
                  Evened(all / |cs|, all % |cs|, FirstIndex(cs, m), x, FirstIndex(cs, n), y))
  {
    var x, y := Times(subs, t, m), Times(subs, t, n);
    CountIsMultiplicity(subs[m].topics, t);
    RangeShareSize(md, subs, t, m);
    RangeShareSize(md, subs, t, n);
    var cs, all := Consumers(subs, t), |md.topics[t]|;
    RanksApart(subs, t, m, n);
    SizesCompared(all / |cs|, all % |cs|, FirstIndex(cs, m), x, FirstIndex(cs, n), y);
  }

  // ----- the algorithm -----

  type PerTopic = map<Name, seq<Name>>

  function Listed(cpt: PerTopic, t: Name): (q: seq<Name>) {
    if t in cpt then cpt[t] else []
  }

  /** r is cpt with member m recorded once for every entry of q. */
  ghost predicate MemberListed(cpt: PerTopic, r: PerTopic, m: Name, q: seq<Name>) {
    && r.Keys == cpt.Keys + Elements(q)
    && forall t, n :: Count(Listed(r, t), n) == Count(Listed(cpt, t), n) + if n == m then Count(q, t) else 0
  }

  lemma ListedOnce(r: PerTopic, m: Name, x: Name, t: Name, n: Name)
    ensures Count(Listed(r[x := Listed(r, x) + [m]], t), n)
         == Count(Listed(r, t), n) + if t == x && n == m then 1 else 0
  {
    CountSnoc(Listed(r, x), m, n);
  }

  lemma MemberListedOnce(cpt: PerTopic, r: PerTopic, m: Name, q: seq<Name>, x: Name)
    requires MemberListed(cpt, r, m, q)
    ensures MemberListed(cpt, r[x := Listed(r, x) + [m]], m, q + [x])
  {
    ElementsSnoc(q, x);
    var r' := r[x := Listed(r, x) + [m]];
    forall t, n
      ensures Count(Listed(r', t), n) == Count(Listed(cpt, t), n) + if n == m then Count(q + [x], t) else 0
    {
      ListedOnce(r, m, x, t, n);
      CountSnoc(q, x, t);
    }
  }

  /** Record one member under every topic it lists. */
  method AddMember(cpt: PerTopic, m: Name, topics: seq<Name>) returns (r: PerTopic)
    ensures MemberListed(cpt, r, m, topics)
  {
    r := cpt;
    assert forall t :: Count(topics[..0], t) == 0;
    for j := 0 to |topics|
      invariant MemberListed(cpt, r, m, topics[..j])
    {
      MemberListedOnce(cpt, r, m, topics[..j], topics[j]);
      assert topics[..j + 1] == topics[..j] + [topics[j]];
      r := r[topics[j] := Listed(r, topics[j]) + [m]];
    }
    assert topics[..|topics|] == topics;
  }

  /** After some members have been recorded, in whatever order. */
  ghost predicate Recorded(subs: Subscribers, seen: set<Name>, cpt: PerTopic) {
    && (forall t :: t in cpt <==> ListedBy(subs, seen, t))
    && (forall t, m :: Count(Listed(cpt, t), m) == if m in seen then Times(subs, t, m) else 0)
  }

  ghost predicate ListedBy(subs: Subscribers, seen: set<Name>, t: Name) {
    exists m :: m in seen && m in subs && t in subs[m].topics
  }

  lemma ListedByOneMore(subs: Subscribers, seen: set<Name>, m: Name, t: Name)
    requires m in subs
    ensures ListedBy(subs, seen + {m}, t) <==> ListedBy(subs, seen, t) || t in subs[m].topics
  {
  }

  lemma RecordTopics(subs: Subscribers, seen: set<Name>, cpt: PerTopic, m: Name, r: PerTopic, t: Name)
    requires m in subs && r.Keys == cpt.Keys + Elements(subs[m].topics)
    requires t in cpt <==> ListedBy(subs, seen, t)
    ensures t in r <==> ListedBy(subs, seen + {m}, t)
  {
    ListedByOneMore(subs, seen, m, t);
    assert t in r <==> t in cpt || t in Elements(subs[m].topics);
  }

  lemma RecordOne(subs: Subscribers, seen: set<Name>, cpt: PerTopic, m: Name, r: PerTopic)
    requires Recorded(subs, seen, cpt) && m in subs && m !in seen
    requires MemberListed(cpt, r, m, subs[m].topics)
    ensures Recorded(subs, seen + {m}, r)
  {
    forall t
      ensures t in r <==> ListedBy(subs, seen + {m}, t)
    {
      RecordTopics(subs, seen, cpt, m, r, t);
    }
    forall t, n
      ensures Count(Listed(r, t), n) == if n in seen + {m} then Times(subs, t, n) else 0
    {
      assert Count(Listed(cpt, t), n) == if n in seen then Times(subs, t, n) else 0;
    }
  }

  /** Recording every member, in any order, and sorting gives the subscribers. */
  lemma RecordedAll(subs: Subscribers, cpt: PerTopic, t: Name)
    requires Recorded(subs, subs.Keys, cpt)
    ensures t in cpt <==> Subscribed(subs, t)
    ensures Sort(Listed(cpt, t)) == Consumers(subs, t)
  {
    var p, cs := Listed(cpt, t), Consumers(subs, t);
    assert t in cpt <==> ListedBy(subs, subs.Keys, t);
    SortSorted(p);
    forall m
      ensures Count(Sort(p), m) == Count(cs, m)
    {
      SortKeepsCount(p, m);
      assert Count(p, m) == Times(subs, t, m);
    }
    SortedByCount(Sort(p), cs);
  }

  method GroupByTopic(subs: Subscribers) returns (cpt: PerTopic)
    ensures Recorded(subs, subs.Keys, cpt)
  {
    cpt := map[];
    var todo := subs.Keys;
    ghost var seen: set<Name> := {};
    while todo != {}
      invariant todo + seen == subs.Keys && todo !! seen
      invariant Recorded(subs, seen, cpt)
      decreases |todo|
    {
      var m :| m in todo;
      var next := AddMember(cpt, m, subs[m].topics);
      RecordOne(subs, seen, cpt, m, next);
      cpt, seen, todo := next, seen + {m}, todo - {m};
    }
  }

  lemma DealStep(before: Deal, cs: seq<Name>, ps: seq<TopicPartition>, c: seq<nat>, i: nat)
    requires Cuts(c, |cs|, |ps|) && i < |cs|
    ensures Collect(before + DealTopic(cs, ps, c, i + 1))
         == Give(Collect(before + DealTopic(cs, ps, c, i)), cs[i], Block(ps, c, |cs|, i, i + 1))
  {
    var h := Hand(cs[i], Block(ps, c, |cs|, i, i + 1));
    CollectSnoc(before + DealTopic(cs, ps, c, i), h);
    assert before + DealTopic(cs, ps, c, i + 1) == (before + DealTopic(cs, ps, c, i)) + [h];
  }

  /** Split off block after block, appending each to its member's assignment. */
  method DealBlocks(asg: map<Name, Assignment>, cs: seq<Name>, ps: seq<TopicPartition>, perConsumer: nat, extra: nat,
                    ghost c: seq<nat>, ghost before: Deal)
    returns (r: map<Name, Assignment>)
    requires asg == Collect(before) && Cuts(c, |cs|, |ps|)
    requires forall i :: 0 <= i < |cs| ==> c[i] + perConsumer + (if i >= extra then 0 else 1) == c[i + 1]
    ensures r == Collect(before + DealTopic(cs, ps, c, |cs|))
  {
    var partitions := ps;
    r := asg;
    assert before + DealTopic(cs, ps, c, 0) == before;
    for i := 0 to |cs|
      invariant partitions == ps[c[i]..]
      invariant r == Collect(before + DealTopic(cs, ps, c, i))
    {
      var at := perConsumer + if i >= extra then 0 else 1;
      assert c[i] + at == c[i + 1];
      var remaining := partitions[at..];
      assert partitions[..at] == Block(ps, c, |cs|, i, i + 1);
      DealStep(before, cs, ps, c, i);
      r := Give(r, cs[i], partitions[..at]);
      partitions := remaining;
    }
  }

  lemma CutsByDivision(n: nat, k: nat)
    requires 0 < k
    ensures var c := RangeCuts(n, k);
            forall i :: 0 <= i < k ==> c[i] + n / k + (if i >= n % k then 0 else 1) == c[i + 1]
  {
    var c := RangeCuts(n, k);
    forall i | 0 <= i < k
      ensures c[i] + n / k + (if i >= n % k then 0 else 1) == c[i + 1]
    {
      assert BlockSize(n, k, i) == n / k + if i >= n % k then 0 else 1;
    }
  }

  /** Divide the partitions of one topic among its subscribers. */
  method DealOut(asg: map<Name, Assignment>, cs: seq<Name>, ps: seq<TopicPartition>, ghost before: Deal)
    returns (r: map<Name, Assignment>)
    requires |cs| > 0 && asg == Collect(before)
    ensures r == Collect(before + DealTopic(cs, ps, RangeCuts(|ps|, |cs|), |cs|))
  {
    CutsByDivision(|ps|, |cs|);
    r := DealBlocks(asg, cs, ps, |ps| / |cs|, |ps| % |cs|, RangeCuts(|ps|, |cs|), before);
  }

  lemma TopicsRecorded(subs: Subscribers, cpt: PerTopic)
    requires Recorded(subs, subs.Keys, cpt)
    ensures Ascending(cpt.Keys) == SubscribedTopics(subs)
  {
    var all := set m, t | m in subs && t in subs[m].topics :: t;
    assert forall t :: t in cpt <==> ListedBy(subs, subs.Keys, t);
    assert cpt.Keys == all;
  }

  lemma RangeDealSnoc(md: Metadata, subs: Subscribers, ts: seq<Name>, j: nat)
    requires j < |ts| && forall t :: t in ts ==> Subscribed(subs, t)
    ensures RangeDeal(md, subs, ts[..j + 1])
         == RangeDeal(md, subs, ts[..j]) + if ts[j] in md.topics then TopicDeal(md, subs, ts[j]) else []
  {
    assert ts[..j + 1][..j] == ts[..j];
  }

  /** One round of the loop over the sorted topics. */
  method AssignTopic(md: Metadata, subs: Subscribers, cpt: PerTopic, t: Name, asg: map<Name, Assignment>, ghost d: Deal)
    returns (r: map<Name, Assignment>)
    requires Recorded(subs, subs.Keys, cpt) && Subscribed(subs, t) && asg == Collect(d)
    ensures r == Collect(d + if t in md.topics then TopicDeal(md, subs, t) else [])
  {
    RecordedAll(subs, cpt, t);
    SomeConsumer(subs, t);
    var partitions := PartitionsForTopic(md, t);
    if partitions.Some? && t in cpt {
      var consumers := Sort(cpt[t]);
      r := DealOut(asg, consumers, partitions.value, d);
    } else {
      r := asg;
      assert d + [] == d;
    }
  }

  method AssignTopics(md: Metadata, subs: Subscribers, cpt: PerTopic, ts: seq<Name>)
    returns (asg: map<Name, Assignment>)
    requires Recorded(subs, subs.Keys, cpt) && forall t :: t in ts ==> Subscribed(subs, t)
    ensures asg == Collect(RangeDeal(md, subs, ts))
  {
    asg := map[];
    assert RangeDeal(md, subs, ts[..0]) == [];
    for j := 0 to |ts|
      invariant asg == Collect(RangeDeal(md, subs, ts[..j]))
    {
      RangeDealSnoc(md, subs, ts, j);
      asg := AssignTopic(md, subs, cpt, ts[j], asg, RangeDeal(md, subs, ts[..j]));
    }
    assert ts[..|ts|] == ts;
  }

  /** `RangeAssignor::assign`. The hash maps may be walked in any order; the
      result is the same. */
  method Assign(md: Metadata, subs: Subscribers) returns (asg: map<Name, Assignment>)
    ensures asg == RangeAssignment(md, subs)
  {
    var cpt := GroupByTopic(subs);
    TopicsRecorded(subs, cpt);
    var ts := CollectSorted(cpt.Keys);
    asg := AssignTopics(md, subs, cpt, ts);
  }
}
