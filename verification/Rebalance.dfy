/** A consumer group as a transition system: any number of consumers and a broker
    that forms generations, relays the members' metadata to the leader and hands
    each member the share the leader supplied for it. Joins, syncs, heartbeat
    failures, departures and local operations interleave arbitrarily. */
module Rebalance {
  import opened Wire
  import opened Names
  import opened ClusterMetadata
  import opened Assignor
  import opened ConsumerProtocol
  import opened Subscriptions
  import opened Coordinator

  type Client = int

  /** The leader's work: what it knew and the shares it sent. */
  datatype Plan = Plan(assignors: seq<Strategy>, md: Metadata, shares: map<Name, Bytes>)

  /** One generation as the broker keeps it. The metadata is whatever the members
      sent and need not even decode. */
  datatype Group = Group(
    roster: map<Name, Client>, leader: Name, protocol: Name, members: seq<GroupMember>, plan: Option<Plan>)

  datatype System = System(
    groupId: Name,
    consumers: map<Client, Consumer>,
    groups: map<int, Group>,
    heartbeats: map<Client, set<(int, Generation)>>)

  /** The bytes the broker returns to a member: the leader's, or none at all when
      the leader supplied nothing for it. */
  function ShareOf(shares: map<Name, Bytes>, m: Name): (b: Bytes) {
    if m in shares then shares[m] else []
  }

  datatype Step =
    | Form(g: int, group: Group)
    | LeaderSync(g: int, md: Metadata)
    | MemberSync(g: int, m: Name, coordinator: int)
    | HeartbeatFails(c: Client, err: HeartbeatError, coordinator: int, generation: Generation)
    | Leave(c: Client)
    | Local(c: Client, held: Held)

  ghost predicate Injective(roster: map<Name, Client>) {
    forall m, n :: m in roster && n in roster && m != n ==> roster[m] != roster[n]
  }

  /** A new generation: every participant gets its own member id. */
  ghost predicate CanForm(s: System, g: int, group: Group) {
    && g !in s.groups && group.plan.None?
    && group.leader in group.roster && Injective(group.roster)
    && forall m :: m in group.roster ==> group.roster[m] in s.consumers
  }

  ghost predicate CanLeaderSync(s: System, g: int, md: Metadata) {
    && g in s.groups && s.groups[g].plan.None? && WellFormed(md)
    && s.groups[g].leader in s.groups[g].roster
    && s.groups[g].roster[s.groups[g].leader] in s.consumers
    && var leader := s.consumers[s.groups[g].roster[s.groups[g].leader]];
       Performed(leader.assignors, md, s.groups[g].protocol, s.groups[g].members).Some?
  }

  ghost function Planned(s: System, g: int, md: Metadata): (group: Group)
    requires CanLeaderSync(s, g, md)
  {
    var group := s.groups[g];
    var assignors := s.consumers[group.roster[group.leader]].assignors;
    group.(plan := Some(Plan(assignors, md, Performed(assignors, md, group.protocol, group.members).value)))
  }

  function GenerationOf(s: System, g: int, m: Name): (r: Generation)
    requires g in s.groups
  {
    Generation(s.groupId, g, m, s.groups[g].protocol)
  }

  ghost predicate CanMemberSync(s: System, g: int, m: Name, coordinator: int) {
    && g in s.groups && m in s.groups[g].roster && s.groups[g].plan.Some?
    && s.groups[g].roster[m] in s.consumers
    && s.groups[g].roster[m] in s.heartbeats
    && var c := s.consumers[s.groups[g].roster[m]];
       Synced(c, ShareOf(s.groups[g].plan.value.shares, m), coordinator, GenerationOf(s, g, m)).Some?
  }

  ghost function AfterMemberSync(s: System, g: int, m: Name, coordinator: int): (s': System)
    requires CanMemberSync(s, g, m, coordinator)
  {
    var c, generation := s.groups[g].roster[m], GenerationOf(s, g, m);
    s.(consumers := s.consumers[c :=
         Synced(s.consumers[c], ShareOf(s.groups[g].plan.value.shares, m), coordinator, generation).value],
       heartbeats := s.heartbeats[c := s.heartbeats[c] + {(coordinator, generation)}])
  }

  function WithState(s: System, c: Client, state: State): (s': System)
    requires c in s.consumers
  {
    s.(consumers := s.consumers[c := s.consumers[c].(state := state)])
  }

  /** One step. A sync that fails leaves the consumer as it was; when it was part
      of joining the group, a Leave follows. A heartbeat error may arrive long
      after the member moved on. */
  ghost predicate Takes(s: System, s': System, step: Step) {
    match step
    case Form(g, group) => CanForm(s, g, group) && s' == s.(groups := s.groups[g := group])
    case LeaderSync(g, md) => CanLeaderSync(s, g, md) && s' == s.(groups := s.groups[g := Planned(s, g, md)])
    case MemberSync(g, m, coordinator) =>
      CanMemberSync(s, g, m, coordinator) && s' == AfterMemberSync(s, g, m, coordinator)
    case HeartbeatFails(c, err, coordinator, generation) =>
      && c in s.consumers && c in s.heartbeats && (coordinator, generation) in s.heartbeats[c]
      && s' == WithState(s, c, AfterHeartbeat(s.consumers[c].state, err, coordinator, generation))
    case Leave(c) => c in s.consumers && s' == WithState(s, c, Unjoined)
    case Local(c, held) =>
      && c in s.consumers && held.Keys == s.consumers[c].held.Keys
      && s' == s.(consumers := s.consumers[c := s.consumers[c].(held := held)])
  }

  ghost predicate Init(s: System) {
    && s.groups == map[] && s.heartbeats.Keys == s.consumers.Keys
    && forall c :: c in s.consumers ==> s.consumers[c].state == Unjoined && s.consumers[c].held == map[]
                                        && s.heartbeats[c] == {}
  }

  ghost predicate Next(s: System, s': System) {
    exists step :: Takes(s, s', step)
  }

  ghost predicate IsRun(run: seq<System>) {
    |run| > 0 && Init(run[0]) && forall i :: 0 < i < |run| ==> Next(run[i - 1], run[i])
  }

  // ----- the invariant -----

  ghost predicate GroupOk(group: Group) {
    && Injective(group.roster)
    && (group.plan.Some? ==>
          && WellFormed(group.plan.value.md)
          && Performed(group.plan.value.assignors, group.plan.value.md, group.protocol, group.members)
             == Some(group.plan.value.shares))
  }

  /** Consumer c joined this generation as m and holds exactly its share of it. */
  ghost predicate HoldsShare(s: System, c: Client, g: int, m: Name) {
    && c in s.consumers && g in s.groups
    && m in s.groups[g].roster && s.groups[g].roster[m] == c
    && s.groups[g].plan.Some?
    && var share := ShareOf(s.groups[g].plan.value.shares, m);
       && DecodeAssignment(share).Some?
       && s.consumers[c].held.Keys == Elements(DecodeAssignment(share).value.partitions)
  }

  ghost predicate ConsumerOk(s: System, c: Client)
    requires c in s.consumers
  {
    && (s.consumers[c].state.Stable? ==>
          HoldsShare(s, c, s.consumers[c].state.generation.generationId, s.consumers[c].state.generation.memberId))
    && forall tp :: tp in s.consumers[c].held ==> tp.topic in s.consumers[c].subscription
  }

  ghost predicate Inv(s: System) {
    && (forall g :: g in s.groups ==> GroupOk(s.groups[g]))
    && (forall c :: c in s.consumers ==> ConsumerOk(s, c))
  }

  lemma InitInv(s: System)
    requires Init(s)
    ensures Inv(s)
  {
  }

  lemma GroupStepInv(s: System, s': System, g: int)
    requires Inv(s) && s' == s.(groups := s'.groups) && g in s'.groups && s'.groups == s.groups[g := s'.groups[g]]
    requires GroupOk(s'.groups[g])
    requires g in s.groups ==> s.groups[g].plan.None?
    ensures Inv(s')
  {
    forall c | c in s'.consumers
      ensures ConsumerOk(s', c)
    {
      assert ConsumerOk(s, c);
    }
  }

  lemma ConsumerStepInv(s: System, s': System, c: Client)
    requires Inv(s) && c in s.consumers && c in s'.consumers
    requires s'.consumers == s.consumers[c := s'.consumers[c]] && s'.groups == s.groups
    requires ConsumerOk(s', c)
    ensures Inv(s')
  {
    forall d | d in s'.consumers
      ensures ConsumerOk(s', d)
    {
      if d != c {
        assert ConsumerOk(s, d);
      }
    }
  }

  lemma MemberSyncInv(s: System, g: int, m: Name, coordinator: int)
    requires Inv(s) && CanMemberSync(s, g, m, coordinator)
    ensures Inv(AfterMemberSync(s, g, m, coordinator))
  {
    var s', c := AfterMemberSync(s, g, m, coordinator), s.groups[g].roster[m];
    var ps := DecodeAssignment(ShareOf(s.groups[g].plan.value.shares, m)).value.partitions;
    assert s'.consumers[c].held.Keys == Elements(ps);
    assert HoldsShare(s', c, g, m);
    ConsumerStepInv(s, s', c);
  }

  lemma StepInv(s: System, s': System, step: Step)
    requires Inv(s) && Takes(s, s', step)
    ensures Inv(s')
  {
    match step
    case Form(g, group) => GroupStepInv(s, s', g);
    case LeaderSync(g, md) => GroupStepInv(s, s', g);
    case MemberSync(g, m, coordinator) => MemberSyncInv(s, g, m, coordinator);
    case HeartbeatFails(c, _, _, _) =>
      assert ConsumerOk(s, c);
      ConsumerStepInv(s, s', c);
    case Leave(c) =>
      assert ConsumerOk(s, c);
      ConsumerStepInv(s, s', c);
    case Local(c, _) =>
      assert ConsumerOk(s, c);
      ConsumerStepInv(s, s', c);
  }

  lemma NextInv(s: System, s': System)
    requires Inv(s) && Next(s, s')
    ensures Inv(s')
  {
    var step :| Takes(s, s', step);
    StepInv(s, s', step);
  }

  lemma {:induction false} RunInv(run: seq<System>, i: nat)
    requires IsRun(run) && i < |run|
    ensures Inv(run[i])
  {
    if i == 0 {
      InitInv(run[0]);
    } else {
      RunInv(run, i - 1);
      NextInv(run[i - 1], run[i]);
    }
  }

  // ----- safety -----

  /** Both consumers are stable in the same generation. */
  predicate StableTogether(s: System, c: Client, d: Client) {
    && c in s.consumers && d in s.consumers
    && s.consumers[c].state.Stable? && s.consumers[d].state.Stable?
    && s.consumers[c].state.generation.generationId == s.consumers[d].state.generation.generationId
  }

  lemma SharesNeverOverlap(group: Group, m: Name, n: Name, tp: TopicPartition)
    requires GroupOk(group) && group.plan.Some? && m != n
    requires Grants(ShareOf(group.plan.value.shares, m), tp)
    ensures !Grants(ShareOf(group.plan.value.shares, n), tp)
  {
    var plan := group.plan.value;
    PerformedDisjoint(plan.assignors, plan.md, group.protocol, group.members);
    NoShareNoGrant();
  }

  lemma NoShareNoGrant()
    ensures DecodeAssignment([]).None?
  {
    assert ParseI16([]) == Incomplete;
  }

  /** In every state of every run, two consumers that are stable in the same
      generation hold no partition in common, and every consumer, stable or not,
      holds only partitions of topics it subscribed to. */
  lemma RebalanceSafety(run: seq<System>, i: nat, c: Client, d: Client)
    requires IsRun(run) && i < |run| && c in run[i].consumers
    ensures forall tp :: tp in run[i].consumers[c].held ==> tp.topic in run[i].consumers[c].subscription
    ensures c != d && StableTogether(run[i], c, d) ==>
              run[i].consumers[c].held.Keys !! run[i].consumers[d].held.Keys
  {
    var s := run[i];
    RunInv(run, i);
    assert ConsumerOk(s, c);
    if c != d && StableTogether(s, c, d) {
      assert ConsumerOk(s, d);
      var g := s.consumers[c].state.generation.generationId;
      var m, n := s.consumers[c].state.generation.memberId, s.consumers[d].state.generation.memberId;
      assert m != n;
      forall tp | tp in s.consumers[c].held
        ensures tp !in s.consumers[d].held
      {
        SharesNeverOverlap(s.groups[g], m, n, tp);
      }
    }
  }

  // ----- what a member that has no share does -----

  /** A member for which the leader supplied nothing cannot complete its sync: the
      empty share does not decode. */
  lemma NoShareNoSync(s: System, g: int, m: Name, coordinator: int)
    requires g in s.groups && s.groups[g].plan.Some? && m !in s.groups[g].plan.value.shares
    ensures !CanMemberSync(s, g, m, coordinator)
  {
    NoShareNoGrant();
  }

  /** So in every state of every run, a consumer that is stable in a generation was
      given a share by its leader, and holds exactly the partitions it grants. */
  lemma StableHoldsItsShare(run: seq<System>, i: nat, c: Client)
    requires IsRun(run) && i < |run| && c in run[i].consumers && run[i].consumers[c].state.Stable?
    ensures var s := run[i];
            var generation := s.consumers[c].state.generation;
            && HoldsShare(s, c, generation.generationId, generation.memberId)
            && generation.memberId in s.groups[generation.generationId].plan.value.shares
  {
    RunInv(run, i);
    assert ConsumerOk(run[i], c);
    NoShareNoGrant();
  }

  // ----- partitions kept -----

  /** A run with its steps named. */
  ghost predicate IsRunBy(run: seq<System>, steps: seq<Step>) {
    |run| == |steps| + 1 && forall i :: 0 <= i < |steps| ==> Takes(run[i], run[i + 1], steps[i])
  }

  lemma StepKeepsState(s: System, s': System, step: Step, c: Client, tp: TopicPartition)
    requires Takes(s, s', step) && !(step.Local? && step.c == c)
    requires c in s.consumers && c in s'.consumers && tp in s.consumers[c].held && tp in s'.consumers[c].held
    ensures s'.consumers[c].held[tp] == s.consumers[c].held[tp]
  {
  }

  /** Through any stretch of a run, whatever generations come and go, a partition that
      a consumer holds throughout keeps its position, committed offset, pause flag,
      watermark and reset strategy, as long as the consumer itself does not move it. */
  lemma {:induction false} KeptThroughRun(
    run: seq<System>, steps: seq<Step>, i: nat, j: nat, c: Client, tp: TopicPartition)
    requires IsRunBy(run, steps) && i <= j < |run|
    requires forall k :: i <= k <= j ==> c in run[k].consumers && tp in run[k].consumers[c].held
    requires forall k :: i <= k < j ==> !(steps[k].Local? && steps[k].c == c)
    ensures run[j].consumers[c].held[tp] == run[i].consumers[c].held[tp]
    decreases j
  {
    if i < j {
      KeptThroughRun(run, steps, i, j - 1, c, tp);
      assert Takes(run[j - 1], run[j], steps[j - 1]);
      assert c in run[j - 1].consumers && tp in run[j - 1].consumers[c].held;
      StepKeepsState(run[j - 1], run[j], steps[j - 1], c, tp);
    }
  }

  // ----- an honest group -----

  /** The bytes that member m sent last declare what its consumer subscribes to. */
  ghost predicate Honest(s: System, g: int, m: Name) {
    && g in s.groups && m in s.groups[g].roster && s.groups[g].roster[m] in s.consumers
    && exists i :: && 0 <= i < |s.groups[g].members| && IsLast(s.groups[g].members, i)
                   && s.groups[g].members[i].memberId == m
                   && DeclaresAll(s.groups[g].members[i].metadata, s.consumers[s.groups[g].roster[m]].subscription)
  }

  predicate DeclaresAll(metadata: Bytes, topics: set<Name>) {
    DecodeSubscription(metadata).Some? && Elements(DecodeSubscription(metadata).value.topics) == topics
  }

  ghost function IntendedBy(group: Group): (r: map<Name, Assignment>)
    requires GroupOk(group) && group.plan.Some?
  {
    Intended(group.plan.value.md, group.protocol, group.members).value
  }

  lemma PlanCovers(group: Group)
    requires GroupOk(group) && group.plan.Some?
    ensures DecodeMembers(group.members).Some?
    ensures ExactCover(group.plan.value.md, DecodeMembers(group.members).value, IntendedBy(group))
    ensures group.plan.value.shares.Keys == IntendedBy(group).Keys
  {
    AssignmentUnderCovers(ParseStrategy(group.protocol), group.plan.value.md, DecodeMembers(group.members).value);
  }

  lemma PlanArrives(group: Group, m: Name)
    requires GroupOk(group) && group.plan.Some? && m in group.plan.value.shares
    ensures m in IntendedBy(group)
    ensures DecodeAssignment(group.plan.value.shares[m]) == Some(IntendedBy(group)[m])
  {
    var plan := group.plan.value;
    ShareArrives(plan.assignors, plan.md, group.protocol, group.members, m);
  }

  lemma TruthfulAdopts(c: Consumer, md: Metadata, subs: Subscribers, asg: map<Name, Assignment>, m: Name,
                       share: Bytes, coordinator: int, generation: Generation)
    requires WithinSubscriptions(md, subs, asg) && m in asg && DecodeAssignment(share) == Some(asg[m])
    requires Elements(subs[m].topics) == c.subscription
    ensures Synced(c, share, coordinator, generation).Some?
  {
    forall tp | tp in asg[m].partitions
      ensures tp.topic in c.subscription
    {
      assert tp.topic in Elements(subs[m].topics);
    }
  }

  /** A member that told the truth about its subscription and was given a share can
      always adopt it, in any reachable state, and is then stable in the generation and
      holds its share. */
  lemma HonestMemberSyncs(run: seq<System>, i: nat, g: int, m: Name, coordinator: int)
    requires IsRun(run) && i < |run| && Honest(run[i], g, m)
    requires run[i].groups[g].plan.Some? && m in run[i].groups[g].plan.value.shares
    ensures CanMemberSync(run[i], g, m, coordinator)
    ensures var s' := AfterMemberSync(run[i], g, m, coordinator);
            var c := run[i].groups[g].roster[m];
            && s'.consumers[c].state == Stable(coordinator, Generation(run[i].groupId, g, m, run[i].groups[g].protocol))
            && HoldsShare(s', c, g, m)
  {
    var s := run[i];
    RunInv(run, i);
    RunHeartbeats(run, i);
    var group := s.groups[g];
    PlanCovers(group);
    PlanArrives(group, m);
    var k :| && 0 <= k < |group.members| && IsLast(group.members, k) && group.members[k].memberId == m
             && DeclaresAll(group.members[k].metadata, s.consumers[group.roster[m]].subscription);
    LastEntryCounts(group.members, k);
    TruthfulAdopts(s.consumers[group.roster[m]], group.plan.value.md, DecodeMembers(group.members).value,
                   IntendedBy(group), m, group.plan.value.shares[m], coordinator, GenerationOf(s, g, m));
    SyncedIsStable(s, g, m, coordinator);
  }

  lemma SyncedIsStable(s: System, g: int, m: Name, coordinator: int)
    requires CanMemberSync(s, g, m, coordinator)
    ensures var s', c := AfterMemberSync(s, g, m, coordinator), s.groups[g].roster[m];
            && s'.consumers[c].state == Stable(coordinator, Generation(s.groupId, g, m, s.groups[g].protocol))
            && HoldsShare(s', c, g, m)
  {
    var s', c := AfterMemberSync(s, g, m, coordinator), s.groups[g].roster[m];
    var ps := DecodeAssignment(ShareOf(s.groups[g].plan.value.shares, m)).value.partitions;
    assert s'.consumers[c].held.Keys == Elements(ps);
  }

  lemma StepHeartbeats(s: System, s': System)
    requires Next(s, s') && s.heartbeats.Keys == s.consumers.Keys
    ensures s'.heartbeats.Keys == s'.consumers.Keys
  {
    var step :| Takes(s, s', step);
  }

  lemma {:induction false} RunHeartbeats(run: seq<System>, i: nat)
    requires IsRun(run) && i < |run|
    ensures run[i].heartbeats.Keys == run[i].consumers.Keys
  {
    if i > 0 {
      RunHeartbeats(run, i - 1);
      StepHeartbeats(run[i - 1], run[i]);
    }
  }

  /** Every member that was given a share of generation g is stable in it. */
  ghost predicate Settled(s: System, g: int) {
    && g in s.groups && s.groups[g].plan.Some?
    && forall m :: m in s.groups[g].plan.value.shares ==>
         && m in s.groups[g].roster && s.groups[g].roster[m] in s.consumers
         && s.consumers[s.groups[g].roster[m]].state.Stable?
         && s.consumers[s.groups[g].roster[m]].state.generation.generationId == g
         && s.consumers[s.groups[g].roster[m]].state.generation.memberId == m
  }

  /** When a generation has settled, every partition that the leader knew of a topic
      that some member's last entry declares is held by a stable consumer, and by
      RebalanceSafety by only one. */
  lemma SettledCovers(run: seq<System>, i: nat, g: int, k: nat, tp: TopicPartition) returns (c: Client)
    requires IsRun(run) && i < |run| && Settled(run[i], g) && IsLast(run[i].groups[g].members, k)
    requires Declares(run[i].groups[g].members[k].metadata, tp.topic)
    requires Known(run[i].groups[g].plan.value.md, tp)
    ensures c in run[i].consumers && run[i].consumers[c].state.Stable?
    ensures run[i].consumers[c].state.generation.generationId == g && tp in run[i].consumers[c].held
  {
    var s := run[i];
    RunInv(run, i);
    var group := s.groups[g];
    PlanCovers(group);
    LastEntryCounts(group.members, k);
    assert Subscribed(DecodeMembers(group.members).value, tp.topic);
    assert Assigned(IntendedBy(group), tp);
    var n :| n in IntendedBy(group) && tp in IntendedBy(group)[n].partitions;
    PlanArrives(group, n);
    c := group.roster[n];
    assert ConsumerOk(s, c);
  }
}
