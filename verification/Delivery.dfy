/** The consumer's poll loop: joining, looking up offsets, updating positions,
    fetching, and handing out records one at a time, each moving the position of
    its partition as it is handed out. */
module Delivery {
  import opened Wire
  import opened Names
  import opened ClusterMetadata
  import opened Subscriptions

  datatype FetchError = NoError | OffsetOutOfRange | OtherError

  /** A partition's part of a fetch response, with the offset that was asked for. */
  datatype Fetched = Fetched(
    tp: TopicPartition, fetchOffset: int, error: FetchError, highWatermark: int, offsets: seq<int>)

  datatype Rec = Rec(tp: TopicPartition, offset: int)

  datatype Phase =
    | Joining
    | UpdatingOffsets
    | Updating(resets: map<TopicPartition, ResetStrategy>)
    | Fetching(request: map<TopicPartition, int>)
    | Retrying
    | Delivering(queue: seq<Rec>, throttled: bool)

  datatype Consumer = Consumer(defaultReset: ResetStrategy, held: Held, phase: Phase, delivered: seq<Rec>)

  // ----- building a fetch -----

  /** The positions of the partitions that can be fetched; each has one. */
  function Request(held: Held): (r: map<TopicPartition, int>)
    ensures forall tp :: tp in r <==> tp in held && !held[tp].paused && held[tp].position.Some?
    ensures forall tp :: tp in r ==> held[tp].position == Some(r[tp])
  {
    map tp | tp in held && held[tp].IsFetchable() :: held[tp].position.value
  }

  /** What a commit sends. */
  function Consumed(held: Held): (r: map<TopicPartition, int>) {
    map tp | tp in held && held[tp].position.Some? :: held[tp].position.value
  }

  // ----- updating positions -----

  function UpdatedState(s: PartitionState, defaultReset: ResetStrategy): (r: PartitionState) {
    if s.reset.Some? then s
    else if s.committed.Some? then s.Seek(s.committed.value.offset)
    else s.NeedOffsetReset(defaultReset)
  }

  /** `update_positions`, up to the request for reset offsets. */
  function UpdatePositions(held: Held, defaultReset: ResetStrategy): (r: Held) {
    map tp | tp in held :: UpdatedState(held[tp], defaultReset)
  }

  /** The partitions whose offset the broker is asked for, and how. */
  function ResetRequest(held: Held): (r: map<TopicPartition, ResetStrategy>) {
    map tp | tp in held && held[tp].reset.Some? && !held[tp].reset.value.NoReset? :: held[tp].reset.value
  }

  function SeekAll(held: Held, offsets: map<TopicPartition, int>): (r: Held) {
    map tp | tp in held :: if tp in offsets then held[tp].Seek(offsets[tp]) else held[tp]
  }

  function WithCommitted(held: Held, cs: map<TopicPartition, OffsetAndMetadata>): (r: Held) {
    map tp | tp in held :: if tp in cs then held[tp].(committed := Some(cs[tp])) else held[tp]
  }

  // ----- handling a fetch response -----

  /** One partition's part; none for an error that fails the whole fetch. */
  function HandleOne(held: Held, f: Fetched, defaultReset: ResetStrategy): (r: Option<Held>) {
    if f.tp !in held || !held[f.tp].IsFetchable() then Some(held)
    else
      match f.error
      case NoError =>
        if held[f.tp].position != Some(f.fetchOffset) then Some(held)
        else Some(held[f.tp := held[f.tp].(highWatermark := f.highWatermark)])
      case OffsetOutOfRange =>
        if held[f.tp].position != Some(f.fetchOffset) then Some(held)
        else Some(held[f.tp := held[f.tp].NeedOffsetReset(defaultReset)])
      case OtherError => None
  }

  function HandleAll(held: Held, fs: seq<Fetched>, defaultReset: ResetStrategy): (r: (Held, bool)) {
    if fs == [] then (held, true)
    else
      match HandleOne(held, fs[0], defaultReset)
      case None => (held, false)
      case Some(held') => HandleAll(held', fs[1..], defaultReset)
  }

  /** Same partitions, positions and pause flags. */
  ghost predicate SamePositions(a: Held, b: Held) {
    a.Keys == b.Keys && forall tp :: tp in a ==> a[tp].position == b[tp].position && a[tp].paused == b[tp].paused
  }

  lemma {:induction false} HandlingKeepsPositions(held: Held, fs: seq<Fetched>, defaultReset: ResetStrategy)
    ensures SamePositions(held, HandleAll(held, fs, defaultReset).0)
    decreases |fs|
  {
    if fs != [] {
      var one := HandleOne(held, fs[0], defaultReset);
      if one.Some? {
        HandlingKeepsPositions(one.value, fs[1..], defaultReset);
      }
    }
  }

  lemma {:induction false} HandlingSpares(held: Held, fs: seq<Fetched>, defaultReset: ResetStrategy, tp: TopicPartition)
    requires tp in held && forall i :: 0 <= i < |fs| ==> fs[i].tp != tp
    ensures var h := HandleAll(held, fs, defaultReset).0; tp in h && h[tp] == held[tp]
    decreases |fs|
  {
    if fs != [] {
      var one := HandleOne(held, fs[0], defaultReset);
      if one.Some? {
        HandlingSpares(one.value, fs[1..], defaultReset, tp);
      }
    }
  }

  /** The part fails the whole fetch. */
  predicate Stops(held: Held, f: Fetched) {
    f.error.OtherError? && f.tp in held && held[f.tp].IsFetchable()
  }

  predicate OnePartEach(fs: seq<Fetched>) {
    forall i, j :: 0 <= i < j < |fs| ==> fs[i].tp != fs[j].tp
  }

  lemma HandlingOthers(held: Held, fs: seq<Fetched>, defaultReset: ResetStrategy)
    requires fs != [] && OnePartEach(fs) && HandleOne(held, fs[0], defaultReset).Some?
    ensures var h := HandleOne(held, fs[0], defaultReset).value;
            && OnePartEach(fs[1..])
            && forall j :: 0 < j < |fs| ==> (fs[j].tp in h <==> fs[j].tp in held)
                                            && (fs[j].tp in held ==> h[fs[j].tp] == held[fs[j].tp])
                                            && (Stops(h, fs[j]) <==> Stops(held, fs[j]))
  {
    assert forall j :: 0 < j < |fs| ==> fs[j].tp != fs[0].tp;
  }

  /** The fetch fails exactly when a part of a fetchable partition has an error that is
      not about its offset. */
  lemma {:induction false} HandlingFails(held: Held, fs: seq<Fetched>, defaultReset: ResetStrategy)
    requires OnePartEach(fs)
    ensures HandleAll(held, fs, defaultReset).1 <==> forall j :: 0 <= j < |fs| ==> !Stops(held, fs[j])
    decreases |fs|
  {
    if fs != [] && !Stops(held, fs[0]) {
      HandlingOthers(held, fs, defaultReset);
      HandlingFails(HandleOne(held, fs[0], defaultReset).value, fs[1..], defaultReset);
      assert forall j :: 0 < j < |fs| ==> fs[j] == fs[1..][j - 1];
    }
  }

  /** Up to such a part, each one counts only for a fetchable partition that still stands
      where the fetch began: without error it brings the watermark, and an offset out of
      range asks for a reset by default. */
  lemma {:induction false} PartHandled(held: Held, fs: seq<Fetched>, defaultReset: ResetStrategy, i: nat)
    requires OnePartEach(fs) && i < |fs| && fs[i].tp in held
    requires forall j :: 0 <= j < i ==> !Stops(held, fs[j])
    ensures var s, h := held[fs[i].tp], HandleAll(held, fs, defaultReset).0;
            && fs[i].tp in h
            && h[fs[i].tp] ==
                 if s.paused || s.position != Some(fs[i].fetchOffset) || fs[i].error.OtherError? then s
                 else if fs[i].error.NoError? then s.(highWatermark := fs[i].highWatermark)
                 else s.(reset := Some(defaultReset))
    decreases |fs|
  {
    if !Stops(held, fs[0]) {
      var h := HandleOne(held, fs[0], defaultReset).value;
      HandlingOthers(held, fs, defaultReset);
      if i == 0 {
        HandlingSpares(h, fs[1..], defaultReset, fs[0].tp);
      } else {
        assert forall j :: 0 <= j < i - 1 ==> !Stops(h, fs[1..][j]);
        PartHandled(h, fs[1..], defaultReset, i - 1);
      }
    }
  }

  function RecsOf(tp: TopicPartition, offsets: seq<int>): (rs: seq<Rec>)
    ensures |rs| == |offsets|
  {
    if offsets == [] then [] else [Rec(tp, offsets[0])] + RecsOf(tp, offsets[1..])
  }

  /** All records of a response, in its order. */
  function Flatten(fs: seq<Fetched>): (rs: seq<Rec>) {
    if fs == [] then [] else RecsOf(fs[0].tp, fs[0].offsets) + Flatten(fs[1..])
  }

  // ----- the steps of the loop -----

  datatype Step =
    | Joined(share: seq<TopicPartition>)
    | OffsetsFetched(committed: map<TopicPartition, OffsetAndMetadata>)
    | PositionsReset(offsets: map<TopicPartition, int>)
    | Slept
    | FetchDone(fs: seq<Fetched>, throttled: bool)
    | FetchFailed
    | NextRecord
    | UserSeek(tp: TopicPartition, to: SeekTo)
    | UserPause(tp: TopicPartition)
    | Rebalanced(share: seq<TopicPartition>)

  /** The user's calls come at any time, and so does a rebalance, which a commit may
      bring about. */
  predicate Enabled(c: Consumer, step: Step) {
    match step
    case Joined(_) => c.phase.Joining?
    case OffsetsFetched(_) => c.phase.UpdatingOffsets?
    case PositionsReset(offsets) =>
      c.phase.Updating? && offsets.Keys <= c.phase.resets.Keys && offsets.Keys <= c.held.Keys
    case Slept => c.phase.Retrying?
    case FetchDone(_, _) => c.phase.Fetching?
    case FetchFailed => c.phase.Fetching?
    case NextRecord => c.phase.Delivering?
    case UserSeek(tp, _) => tp in c.held
    case UserPause(tp) => tp in c.held
    case Rebalanced(_) => true
  }

  function StartFetch(c: Consumer): (c': Consumer) {
    c.(phase := Fetching(Request(c.held)))
  }

  function StartUpdate(c: Consumer): (c': Consumer) {
    var held := UpdatePositions(c.held, c.defaultReset);
    c.(held := held, phase := Updating(ResetRequest(held)))
  }

  /** An empty response, like a failed one, is followed by a pause. */
  function AfterFetch(c: Consumer, fs: seq<Fetched>, throttled: bool): (c': Consumer) {
    var (held, ok) := HandleAll(c.held, fs, c.defaultReset);
    c.(held := held, phase := if !ok || Flatten(fs) == [] then Retrying else Delivering(Flatten(fs), throttled))
  }

  function Moved(held: Held, r: Rec): (h: Held) {
    if r.tp in held then held[r.tp := held[r.tp].Seek(r.offset + 1)] else held
  }

  function AfterNext(c: Consumer): (c': Consumer)
    requires c.phase.Delivering?
  {
    if c.phase.queue != [] then
      var r := c.phase.queue[0];
      c.(held := Moved(c.held, r), phase := c.phase.(queue := c.phase.queue[1..]), delivered := c.delivered + [r])
    else if c.phase.throttled then c.(phase := Retrying)
    else StartFetch(c)
  }

  function Sought(s: PartitionState, to: SeekTo): (r: PartitionState) {
    match to
    case Beginning => s.NeedOffsetReset(Earliest)
    case Position(offset) => s.Seek(offset)
    case End => s.NeedOffsetReset(Latest)
  }

  function Apply(c: Consumer, step: Step): (c': Consumer)
    requires Enabled(c, step)
  {
    match step
    case Joined(ps) => c.(held := Reassigned(c.held, ps), phase := UpdatingOffsets)
    case OffsetsFetched(cs) => StartUpdate(c.(held := WithCommitted(c.held, cs)))
    case PositionsReset(offsets) => StartFetch(c.(held := SeekAll(c.held, offsets)))
    case Slept => StartUpdate(c)
    case FetchDone(fs, throttled) => AfterFetch(c, fs, throttled)
    case FetchFailed => c.(phase := Retrying)
    case NextRecord => AfterNext(c)
    case UserSeek(tp, to) => c.(held := c.held[tp := Sought(c.held[tp], to)])
    case UserPause(tp) => c.(held := c.held[tp := c.held[tp].(paused := true)])
    case Rebalanced(ps) => c.(held := Reassigned(c.held, ps))
  }

  // ----- what the broker promises -----

  /** Consecutive offsets from p on. */
  predicate From(xs: seq<int>, p: int) {
    forall i :: 0 <= i < |xs| ==> xs[i] == p + i
  }

  /** The response has one part per partition, for what was asked: consecutive
      records from the requested offset, or an error and none. */
  predicate Honest(request: map<TopicPartition, int>, fs: seq<Fetched>) {
    && (forall i :: 0 <= i < |fs| ==>
          fs[i].tp in request && fs[i].fetchOffset == request[fs[i].tp] && From(fs[i].offsets, fs[i].fetchOffset))
    && OnePartEach(fs)
  }

  // ----- delivery -----

  function OfPartition(rs: seq<Rec>, tp: TopicPartition): (xs: seq<int>) {
    if rs == [] then []
    else if rs[|rs| - 1].tp == tp then OfPartition(rs[..|rs| - 1], tp) + [rs[|rs| - 1].offset]
    else OfPartition(rs[..|rs| - 1], tp)
  }

  lemma OfPartitionSnoc(rs: seq<Rec>, r: Rec, tp: TopicPartition)
    ensures OfPartition(rs + [r], tp) == OfPartition(rs, tp) + (if r.tp == tp then [r.offset] else [])
  {
    assert (rs + [r])[..|rs|] == rs;
  }

  lemma {:induction false} OfPartitionConcat(p: seq<Rec>, q: seq<Rec>, tp: TopicPartition)
    ensures OfPartition(p + q, tp) == OfPartition(p, tp) + OfPartition(q, tp)
  {
    if q == [] {
      assert p + q == p;
    } else {
      var front, r := q[..|q| - 1], q[|q| - 1];
      OfPartitionConcat(p, front, tp);
      OfPartitionSnoc(p + front, r, tp);
      OfPartitionSnoc(front, r, tp);
      assert p + q == (p + front) + [r] && front + [r] == q;
    }
  }

  lemma OfPartitionHead(rs: seq<Rec>, tp: TopicPartition)
    requires rs != []
    ensures OfPartition(rs, tp) == (if rs[0].tp == tp then [rs[0].offset] else []) + OfPartition(rs[1..], tp)
  {
    assert [rs[0]] + rs[1..] == rs;
    OfPartitionConcat([rs[0]], rs[1..], tp);
    OfPartitionSnoc([], rs[0], tp);
    assert [] + [rs[0]] == [rs[0]];
  }

  lemma {:induction false} OfRecs(t: TopicPartition, offsets: seq<int>, tp: TopicPartition)
    ensures OfPartition(RecsOf(t, offsets), tp) == if t == tp then offsets else []
  {
    if offsets != [] {
      var rs := RecsOf(t, offsets);
      OfPartitionHead(rs, tp);
      OfRecs(t, offsets[1..], tp);
      assert rs[1..] == RecsOf(t, offsets[1..]);
      assert [offsets[0]] + offsets[1..] == offsets;
    }
  }

  lemma {:induction false} OfOthers(fs: seq<Fetched>, tp: TopicPartition)
    requires forall i :: 0 <= i < |fs| ==> fs[i].tp != tp
    ensures OfPartition(Flatten(fs), tp) == []
  {
    if fs != [] {
      OfPartitionConcat(RecsOf(fs[0].tp, fs[0].offsets), Flatten(fs[1..]), tp);
      OfRecs(fs[0].tp, fs[0].offsets, tp);
      OfOthers(fs[1..], tp);
    }
  }

  /** An honest response queues, for each partition, all its records, consecutive from
      the offset asked for, and none for a partition that was not asked for. */
  lemma {:induction false} OfResponse(request: map<TopicPartition, int>, fs: seq<Fetched>, tp: TopicPartition)
    requires Honest(request, fs)
    ensures OfPartition(Flatten(fs), tp) != [] ==> tp in request && From(OfPartition(Flatten(fs), tp), request[tp])
    ensures forall i :: 0 <= i < |fs| && fs[i].tp == tp ==> OfPartition(Flatten(fs), tp) == fs[i].offsets
    ensures (forall i :: 0 <= i < |fs| ==> fs[i].tp != tp) ==> OfPartition(Flatten(fs), tp) == []
  {
    if fs != [] {
      var head := fs[0];
      OfPartitionConcat(RecsOf(head.tp, head.offsets), Flatten(fs[1..]), tp);
      OfRecs(head.tp, head.offsets, tp);
      if head.tp == tp {
        OfOthers(fs[1..], tp);
        assert head.offsets + [] == head.offsets;
      } else {
        OfResponse(request, fs[1..], tp);
        assert [] + OfPartition(Flatten(fs[1..]), tp) == OfPartition(Flatten(fs[1..]), tp);
      }
    }
  }

  lemma {:induction false} NothingFetched(fs: seq<Fetched>)
    ensures Flatten(fs) == [] <==> forall i :: 0 <= i < |fs| ==> fs[i].offsets == []
  {
    if fs != [] {
      NothingFetched(fs[1..]);
      assert forall i :: 0 < i < |fs| ==> fs[i] == fs[1..][i - 1];
    }
  }

  /** After an honest response the loop pauses exactly when the fetch failed or brought
      nothing; otherwise all its records, in order for each partition, are handed out. */
  lemma FetchOutcome(c: Consumer, fs: seq<Fetched>, throttled: bool)
    requires c.phase.Fetching? && Honest(c.phase.request, fs)
    ensures var c' := AfterFetch(c, fs, throttled);
            if (exists j :: 0 <= j < |fs| && Stops(c.held, fs[j])) || (forall j :: 0 <= j < |fs| ==> fs[j].offsets == [])
            then c'.phase.Retrying?
            else
              && c'.phase.Delivering? && c'.phase.throttled == throttled
              && forall i :: 0 <= i < |fs| ==> OfPartition(c'.phase.queue, fs[i].tp) == fs[i].offsets
  {
    HandlingFails(c.held, fs, c.defaultReset);
    NothingFetched(fs);
    forall i | 0 <= i < |fs|
      ensures OfPartition(Flatten(fs), fs[i].tp) == fs[i].offsets
    {
      OfResponse(c.phase.request, fs, fs[i].tp);
    }
  }

  /** Something is requested or queued for the partition. */
  predicate Outstanding(c: Consumer, tp: TopicPartition) {
    || (c.phase.Fetching? && tp in c.phase.request)
    || (c.phase.Delivering? && OfPartition(c.phase.queue, tp) != [])
  }

  /** What is requested or queued for the partition continues its position. */
  predicate Aligned(c: Consumer, tp: TopicPartition) {
    tp in c.held && Outstanding(c, tp) ==>
      && c.held[tp].position.Some?
      && (c.phase.Fetching? ==> c.phase.request[tp] == c.held[tp].position.value)
      && (c.phase.Delivering? ==> From(OfPartition(c.phase.queue, tp), c.held[tp].position.value))
  }

  // ----- what keeps a partition aligned -----

  predicate HonestStep(c: Consumer, step: Step) {
    step.FetchDone? && c.phase.Fetching? ==> Honest(c.phase.request, step.fs)
  }

  /** A seek to another offset, or the return of a partition that was given up,
      while records of the partition are requested or queued. */
  predicate Disrupts(c: Consumer, step: Step, tp: TopicPartition) {
    && Outstanding(c, tp)
    && match step
       case UserSeek(t, Position(offset)) => t == tp && tp in c.held && c.held[tp].position != Some(offset)
       case Rebalanced(ps) => tp !in c.held && tp in ps
       case _ => false
  }

  lemma FetchAligns(c: Consumer, fs: seq<Fetched>, throttled: bool, tp: TopicPartition)
    requires Aligned(c, tp) && c.phase.Fetching? && Honest(c.phase.request, fs)
    ensures Aligned(AfterFetch(c, fs, throttled), tp)
  {
    HandlingKeepsPositions(c.held, fs, c.defaultReset);
    OfResponse(c.phase.request, fs, tp);
  }

  lemma NextAligns(c: Consumer, tp: TopicPartition)
    requires Aligned(c, tp) && c.phase.Delivering?
    ensures Aligned(AfterNext(c), tp)
  {
    if c.phase.queue != [] {
      OfPartitionHead(c.phase.queue, tp);
      RestContinues(c.phase.queue, tp);
    }
  }

  lemma RestContinues(queue: seq<Rec>, tp: TopicPartition)
    requires queue != []
    ensures forall p :: From(OfPartition(queue, tp), p) ==>
              if queue[0].tp == tp then queue[0].offset == p && From(OfPartition(queue[1..], tp), p + 1)
              else OfPartition(queue[1..], tp) == OfPartition(queue, tp)
  {
    OfPartitionHead(queue, tp);
    var xs, rest := OfPartition(queue, tp), OfPartition(queue[1..], tp);
    if queue[0].tp == tp {
      assert xs[0] == queue[0].offset && forall i :: 0 <= i < |rest| ==> rest[i] == xs[i + 1];
    } else {
      assert [] + rest == rest;
    }
  }

  /** With an honest broker, every step, joins, updates and resets included, keeps a
      partition aligned, except exactly the disruptive ones. */
  lemma AlignedUnlessDisrupted(c: Consumer, step: Step, tp: TopicPartition)
    requires Aligned(c, tp) && Enabled(c, step) && HonestStep(c, step)
    ensures Aligned(Apply(c, step), tp) <==> !Disrupts(c, step, tp)
  {
    match step
    case FetchDone(fs, throttled) => FetchAligns(c, fs, throttled, tp);
    case NextRecord => NextAligns(c, tp);
    case UserSeek(t, to) =>
      if t == tp && c.phase.Delivering? && OfPartition(c.phase.queue, tp) != [] {
        assert OfPartition(c.phase.queue, tp)[0] == c.held[tp].position.value;
      }
    case _ =>
  }

  predicate IsRun(run: seq<Consumer>, steps: seq<Step>) {
    && |run| == |steps| + 1
    && forall i :: 0 <= i < |steps| ==> Enabled(run[i], steps[i]) && run[i + 1] == Apply(run[i], steps[i])
  }

  /** As a consumer is created. */
  predicate Started(c: Consumer) {
    c.phase.Joining? || c.phase == Fetching(Request(c.held))
  }

  /** A partition is aligned after steps that do not disrupt it, from the start of a
      run on or from any state with nothing outstanding for it. */
  lemma {:induction false} RunAligned(run: seq<Consumer>, steps: seq<Step>, m: nat, i: nat, tp: TopicPartition)
    requires IsRun(run, steps) && m <= i < |run| && (Started(run[m]) || !Outstanding(run[m], tp))
    requires forall k :: m <= k < i ==> HonestStep(run[k], steps[k]) && !Disrupts(run[k], steps[k], tp)
    ensures Aligned(run[i], tp)
    decreases i
  {
    if i > m {
      RunAligned(run, steps, m, i - 1, tp);
      assert Enabled(run[i - 1], steps[i - 1]) && run[i] == Apply(run[i - 1], steps[i - 1]);
      assert HonestStep(run[i - 1], steps[i - 1]);
      AlignedUnlessDisrupted(run[i - 1], steps[i - 1], tp);
    }
  }

  // ----- quiet steps -----

  /** A step that neither seeks the partition, nor takes it away, nor begins an update
      of positions, nor ends one with an offset for it, with an honest broker. */
  predicate Quiet(c: Consumer, step: Step, tp: TopicPartition) {
    match step
    case Joined(ps) => tp in ps
    case PositionsReset(offsets) => tp !in offsets
    case FetchDone(fs, _) => c.phase.Fetching? && Honest(c.phase.request, fs)
    case FetchFailed => true
    case NextRecord => true
    case UserPause(_) => true
    case UserSeek(t, _) => t != tp
    case Rebalanced(ps) => tp in ps
    case _ => false
  }

  /** The partition's records delivered from one state to a later one. */
  function Since(a: Consumer, c: Consumer, tp: TopicPartition): (xs: seq<int>)
    requires |a.delivered| <= |c.delivered|
  {
    OfPartition(c.delivered[|a.delivered|..], tp)
  }

  /** From a to c the partition's records were delivered once each and in order from
      its position in a, and its position is that plus their number. */
  predicate Follows(a: Consumer, c: Consumer, tp: TopicPartition) {
    && tp in a.held && a.held[tp].position.Some? && tp in c.held
    && a.delivered <= c.delivered && Aligned(c, tp)
    && From(Since(a, c, tp), a.held[tp].position.value)
    && c.held[tp].position == Some(a.held[tp].position.value + |Since(a, c, tp)|)
  }

  lemma FollowsItself(a: Consumer, tp: TopicPartition)
    requires tp in a.held && a.held[tp].position.Some? && Aligned(a, tp)
    ensures Follows(a, a, tp)
  {
    assert a.delivered[|a.delivered|..] == [];
  }

  lemma SinceNext(a: Consumer, c: Consumer, tp: TopicPartition)
    requires a.delivered <= c.delivered && c.phase.Delivering? && c.phase.queue != []
    ensures a.delivered <= AfterNext(c).delivered
    ensures var r := c.phase.queue[0];
            Since(a, AfterNext(c), tp) == Since(a, c, tp) + if r.tp == tp then [r.offset] else []
  {
    var r := c.phase.queue[0];
    assert (c.delivered + [r])[|a.delivered|..] == c.delivered[|a.delivered|..] + [r];
    OfPartitionSnoc(c.delivered[|a.delivered|..], r, tp);
  }

  lemma NextFollows(a: Consumer, c: Consumer, tp: TopicPartition)
    requires Follows(a, c, tp) && c.phase.Delivering?
    ensures Follows(a, AfterNext(c), tp)
  {
    NextAligns(c, tp);
    if c.phase.queue != [] {
      RestContinues(c.phase.queue, tp);
      OfPartitionHead(c.phase.queue, tp);
      SinceNext(a, c, tp);
    }
  }

  lemma QuietFollows(a: Consumer, c: Consumer, step: Step, tp: TopicPartition)
    requires Follows(a, c, tp) && Enabled(c, step) && Quiet(c, step, tp)
    ensures Follows(a, Apply(c, step), tp)
  {
    AlignedUnlessDisrupted(c, step, tp);
    match step
    case FetchDone(fs, throttled) => HandlingKeepsPositions(c.held, fs, c.defaultReset);
    case NextRecord => NextFollows(a, c, tp);
    case _ =>
  }

  lemma {:induction false} StretchFollows(run: seq<Consumer>, steps: seq<Step>, i: nat, j: nat, tp: TopicPartition)
    requires IsRun(run, steps) && i <= j < |run| && Follows(run[i], run[i], tp)
    requires forall k :: i <= k < j ==> Quiet(run[k], steps[k], tp)
    ensures Follows(run[i], run[j], tp)
    decreases j
  {
    if i < j {
      StretchFollows(run, steps, i, j - 1, tp);
      assert Enabled(run[j - 1], steps[j - 1]) && run[j] == Apply(run[j - 1], steps[j - 1]);
      assert Quiet(run[j - 1], steps[j - 1], tp);
      QuietFollows(run[i], run[j - 1], steps[j - 1], tp);
    }
  }

  /** In any run with an honest broker, over any quiet stretch from i to j, when the
      partition was not disrupted since the start or since nothing was outstanding for
      it: from its position p at i it has delivered p, p + 1, p + 2 and so on, each
      once, and its position at j, which is what a commit would send, is p plus their
      number. */
  lemma DeliveredInOrder(
    run: seq<Consumer>, steps: seq<Step>, m: nat, i: nat, j: nat, tp: TopicPartition, p: int)
    requires IsRun(run, steps) && m <= i <= j < |run|
    requires Started(run[m]) || !Outstanding(run[m], tp)
    requires forall k :: m <= k < i ==> HonestStep(run[k], steps[k]) && !Disrupts(run[k], steps[k], tp)
    requires forall k :: i <= k < j ==> Quiet(run[k], steps[k], tp)
    requires tp in run[i].held && run[i].held[tp].position == Some(p)
    ensures run[i].delivered <= run[j].delivered
    ensures var xs := Since(run[i], run[j], tp);
            && From(xs, p)
            && tp in run[j].held && run[j].held[tp].position == Some(p + |xs|)
            && tp in Consumed(run[j].held) && Consumed(run[j].held)[tp] == p + |xs|
  {
    RunAligned(run, steps, m, i, tp);
    FollowsItself(run[i], tp);
    StretchFollows(run, steps, i, j, tp);
  }

  // ----- exactly when delivery goes on from the position -----

  /** As a quiet step, but an update under way may end with any offsets. */
  predicate Spares(c: Consumer, step: Step, tp: TopicPartition) {
    step.PositionsReset? || Quiet(c, step, tp)
  }

  /** A stretch of a run: all its steps spare the partition. */
  predicate IsStretch(run: seq<Consumer>, steps: seq<Step>, tp: TopicPartition) {
    IsRun(run, steps) && forall i :: 0 <= i < |steps| ==> Spares(run[i], steps[i], tp)
  }

  /** A stretch leads from c to d. */
  ghost predicate Leads(c: Consumer, d: Consumer, tp: TopicPartition) {
    exists run: seq<Consumer>, steps: seq<Step> ::
      IsStretch(run, steps, tp) && run[0] == c && run[|run| - 1] == d
  }

  /** Whatever happens that spares the partition, it delivers p, p + 1 and so on, and
      stands behind them. */
  ghost predicate Continues(c: Consumer, tp: TopicPartition, p: int) {
    forall d :: Leads(c, d, tp) ==> c.delivered <= d.delivered && GoneFrom(c, d, tp, p)
  }

  predicate GoneFrom(c: Consumer, d: Consumer, tp: TopicPartition, p: int)
    requires |c.delivered| <= |d.delivered|
  {
    From(Since(c, d, tp), p) && tp in d.held && d.held[tp].position == Some(p + |Since(c, d, tp)|)
  }

  /** An update under way has asked the broker for an offset of the partition. */
  predicate AwaitsReset(c: Consumer, tp: TopicPartition) {
    c.phase.Updating? && tp in c.phase.resets
  }

  /** The offset that is requested, or the first that is queued. */
  function First(c: Consumer, tp: TopicPartition): (p: int)
    requires Outstanding(c, tp)
  {
    if c.phase.Fetching? then c.phase.request[tp] else OfPartition(c.phase.queue, tp)[0]
  }

  /** What is queued for the partition is consecutive. */
  predicate Coherent(c: Consumer, tp: TopicPartition) {
    c.phase.Delivering? && Outstanding(c, tp) ==> From(OfPartition(c.phase.queue, tp), First(c, tp))
  }

  lemma CoherentKept(c: Consumer, step: Step, tp: TopicPartition)
    requires Coherent(c, tp) && Enabled(c, step) && HonestStep(c, step)
    ensures Coherent(Apply(c, step), tp)
  {
    match step
    case FetchDone(fs, _) => OfResponse(c.phase.request, fs, tp);
    case NextRecord =>
      if c.phase.queue != [] {
        RestContinues(c.phase.queue, tp);
        OfPartitionHead(c.phase.queue, tp);
      }
    case _ =>
  }

  /** A run from the start with an honest broker. */
  predicate IsHonestRun(run: seq<Consumer>, steps: seq<Step>) {
    IsRun(run, steps) && Started(run[0]) && forall k :: 0 <= k < |steps| ==> HonestStep(run[k], steps[k])
  }

  lemma {:induction false} RunCoherent(run: seq<Consumer>, steps: seq<Step>, i: nat, tp: TopicPartition)
    requires IsHonestRun(run, steps) && i < |run|
    ensures Coherent(run[i], tp)
  {
    if i > 0 {
      RunCoherent(run, steps, i - 1, tp);
      assert Enabled(run[i - 1], steps[i - 1]) && run[i] == Apply(run[i - 1], steps[i - 1]);
      assert HonestStep(run[i - 1], steps[i - 1]);
      CoherentKept(run[i - 1], steps[i - 1], tp);
    }
  }

  lemma LeadsHere(c: Consumer, tp: TopicPartition)
    ensures Leads(c, c, tp)
  {
    var run, steps: seq<Step> := [c], [];
    assert IsStretch(run, steps, tp) && run[0] == c && run[|run| - 1] == c;
  }

  lemma LeadsOn(c: Consumer, d: Consumer, step: Step, tp: TopicPartition)
    requires Leads(c, d, tp) && Enabled(d, step) && Spares(d, step, tp)
    ensures Leads(c, Apply(d, step), tp)
  {
    var run: seq<Consumer>, steps: seq<Step> :| IsStretch(run, steps, tp) && run[0] == c && run[|run| - 1] == d;
    var run', steps' := run + [Apply(d, step)], steps + [step];
    forall i | 0 <= i < |steps'|
      ensures Enabled(run'[i], steps'[i]) && run'[i + 1] == Apply(run'[i], steps'[i]) && Spares(run'[i], steps'[i], tp)
    {
      if i < |steps| {
        assert Enabled(run[i], steps[i]) && run[i + 1] == Apply(run[i], steps[i]) && Spares(run[i], steps[i], tp);
      }
    }
    assert IsStretch(run', steps', tp) && run'[0] == c && run'[|run'| - 1] == Apply(d, step);
  }

  /** Handing out queued records until one of the partition comes. */
  lemma {:induction false} DrainsToPartition(c: Consumer, d: Consumer, tp: TopicPartition) returns (e: Consumer)
    requires Leads(c, d, tp) && tp in d.held && c.delivered <= d.delivered && Since(c, d, tp) == []
    requires d.phase.Delivering? && OfPartition(d.phase.queue, tp) != []
    ensures Leads(c, e, tp) && c.delivered <= e.delivered && Since(c, e, tp) == [OfPartition(d.phase.queue, tp)[0]]
    ensures tp in e.held && e.held[tp].reset.None?
    decreases |d.phase.queue|
  {
    var r := d.phase.queue[0];
    e := AfterNext(d);
    LeadsOn(c, d, NextRecord, tp);
    OfPartitionHead(d.phase.queue, tp);
    SinceNext(c, d, tp);
    if r.tp != tp {
      assert [] + OfPartition(d.phase.queue[1..], tp) == OfPartition(d.phase.queue[1..], tp);
      e := DrainsToPartition(c, e, tp);
    }
  }

  /** The broker answers with one record. */
  lemma AnswersOne(c: Consumer, d: Consumer, t: TopicPartition, tp: TopicPartition) returns (e: Consumer)
    requires Leads(c, d, tp) && d.phase.Fetching? && t in d.phase.request
    ensures Leads(c, e, tp) && e.delivered == d.delivered
    ensures e.phase == Delivering([Rec(t, d.phase.request[t])], false)
    ensures SamePositions(d.held, e.held)
  {
    var f := Fetched(t, d.phase.request[t], NoError, 0, [d.phase.request[t]]);
    var step := FetchDone([f], false);
    assert Honest(d.phase.request, [f]);
    LeadsOn(c, d, step, tp);
    e := Apply(d, step);
    HandlingKeepsPositions(d.held, [f], d.defaultReset);
    assert [f][1..] == [] && f.offsets[1..] == [];
    assert HandleAll(HandleOne(d.held, f, d.defaultReset).value, [], d.defaultReset).1;
    assert Flatten([f]) == RecsOf(t, f.offsets) + Flatten([]);
    assert RecsOf(t, f.offsets) == [Rec(t, f.offsets[0])] + RecsOf(t, []);
    assert Flatten([f]) == [Rec(t, d.phase.request[t])];
  }

  lemma OfOne(r: Rec, tp: TopicPartition)
    ensures OfPartition([r], tp) == if r.tp == tp then [r.offset] else []
  {
    OfPartitionSnoc([], r, tp);
    assert [] + [r] == [r];
  }

  /** When records are outstanding, a stretch hands out the first of them. */
  lemma OutstandingArrives(c: Consumer, tp: TopicPartition) returns (e: Consumer)
    requires tp in c.held && Outstanding(c, tp)
    ensures Leads(c, e, tp) && c.delivered <= e.delivered && Since(c, e, tp) == [First(c, tp)]
    ensures tp in e.held && e.held[tp].reset.None?
  {
    LeadsHere(c, tp);
    var d := c;
    if c.phase.Fetching? {
      d := AnswersOne(c, c, tp, tp);
      OfOne(Rec(tp, First(c, tp)), tp);
    }
    assert d.delivered[|c.delivered|..] == [];
    e := DrainsToPartition(c, d, tp);
  }

  /** The end of an update under way can move the partition anywhere. */
  lemma ResetArrives(c: Consumer, tp: TopicPartition, offset: int) returns (e: Consumer)
    requires tp in c.held && AwaitsReset(c, tp)
    ensures Leads(c, e, tp) && e.delivered == c.delivered
    ensures tp in e.held && e.held[tp].position == Some(offset) && e.held[tp].reset.None?
  {
    LeadsHere(c, tp);
    var step := PositionsReset(map[tp := offset]);
    LeadsOn(c, c, step, tp);
    e := Apply(c, step);
  }

  lemma {:induction false} SparedFollows(run: seq<Consumer>, steps: seq<Step>, j: nat, tp: TopicPartition)
    requires IsStretch(run, steps, tp) && j < |run| && Follows(run[0], run[0], tp) && !AwaitsReset(run[0], tp)
    ensures Follows(run[0], run[j], tp) && !AwaitsReset(run[j], tp)
  {
    if j > 0 {
      SparedFollows(run, steps, j - 1, tp);
      assert Enabled(run[j - 1], steps[j - 1]) && run[j] == Apply(run[j - 1], steps[j - 1]);
      assert Spares(run[j - 1], steps[j - 1], tp);
      QuietFollows(run[0], run[j - 1], steps[j - 1], tp);
    }
  }

  lemma MisalignedStrays(c: Consumer, tp: TopicPartition, p: int)
    requires tp in c.held && Outstanding(c, tp) && First(c, tp) != p
    ensures !Continues(c, tp, p)
  {
    var e := OutstandingArrives(c, tp);
    assert Since(c, e, tp)[0] != p;
  }

  lemma AwaitingStrays(c: Consumer, tp: TopicPartition, p: int)
    requires tp in c.held && AwaitsReset(c, tp)
    ensures !Continues(c, tp, p)
  {
    var e := ResetArrives(c, tp, p + 1);
    assert e.delivered[|c.delivered|..] == [];
    assert Since(c, e, tp) == [];
  }

  /** Delivery goes on from the position, whatever happens that spares the partition,
      if and only if what is outstanding for it begins there and no update is about to
      move it. */
  lemma ContinuesExactly(c: Consumer, tp: TopicPartition, p: int)
    requires tp in c.held && c.held[tp].position == Some(p) && Coherent(c, tp)
    ensures Continues(c, tp, p) <==> (Outstanding(c, tp) ==> First(c, tp) == p) && !AwaitsReset(c, tp)
  {
    if Outstanding(c, tp) && First(c, tp) != p {
      MisalignedStrays(c, tp, p);
    } else if AwaitsReset(c, tp) {
      AwaitingStrays(c, tp, p);
    } else {
      FollowsItself(c, tp);
      forall d | Leads(c, d, tp)
        ensures c.delivered <= d.delivered && GoneFrom(c, d, tp, p)
      {
        var run: seq<Consumer>, steps: seq<Step> :| IsStretch(run, steps, tp) && run[0] == c && run[|run| - 1] == d;
        SparedFollows(run, steps, |run| - 1, tp);
      }
    }
  }

  /** The same in every state of every run with an honest broker. */
  lemma DeliveryExact(run: seq<Consumer>, steps: seq<Step>, i: nat, tp: TopicPartition, p: int)
    requires IsHonestRun(run, steps) && i < |run|
    requires tp in run[i].held && run[i].held[tp].position == Some(p)
    ensures Continues(run[i], tp, p) <==>
              (Outstanding(run[i], tp) ==> First(run[i], tp) == p) && !AwaitsReset(run[i], tp)
  {
    RunCoherent(run, steps, i, tp);
    ContinuesExactly(run[i], tp, p);
  }

  // ----- a user's seek to an offset -----

  /** In every state of every run with an honest broker, a seek to an offset decides
      what is delivered until the next update begins, if and only if nothing else is
      requested or queued first for the partition and no update under way has asked
      for its offset. */
  lemma SeekHonoured(run: seq<Consumer>, steps: seq<Step>, i: nat, tp: TopicPartition, offset: int)
    requires IsHonestRun(run, steps) && i < |run| && tp in run[i].held
    ensures Continues(Apply(run[i], UserSeek(tp, Position(offset))), tp, offset) <==>
              (Outstanding(run[i], tp) ==> First(run[i], tp) == offset) && !AwaitsReset(run[i], tp)
  {
    RunCoherent(run, steps, i, tp);
    ContinuesExactly(Apply(run[i], UserSeek(tp, Position(offset))), tp, offset);
  }

  /** In particular a queued record is delivered and moves the position behind itself. */
  lemma StaleRecordUndoesSeek(c: Consumer, tp: TopicPartition, offset: int)
    requires tp in c.held && c.phase.Delivering? && c.phase.queue != [] && c.phase.queue[0].tp == tp
    ensures var c' := AfterNext(Apply(c, UserSeek(tp, Position(offset))));
            c'.held[tp].position == Some(c.phase.queue[0].offset + 1)
            && c'.delivered == c.delivered + [c.phase.queue[0]]
  {
  }

  // ----- a user's seek to the beginning or the end -----

  /** A stretch can cancel a reset of the partition: a record is on its way, or the
      partition will be part of the next fetch, or an update under way ends with an
      offset for it. */
  predicate CanCancel(c: Consumer, tp: TopicPartition) {
    || Outstanding(c, tp)
    || AwaitsReset(c, tp)
    || (&& tp in c.held && c.held[tp].IsFetchable()
        && match c.phase
           case Fetching(request) => request != map[]
           case Delivering(_, throttled) => !throttled
           case Updating(_) => true
           case _ => false)
  }

  /** The reset waits for the next update, whatever happens first that spares the
      partition. */
  ghost predicate ResetWaits(c: Consumer, tp: TopicPartition, reset: ResetStrategy) {
    forall d :: Leads(c, d, tp) ==> tp in d.held && d.held[tp].reset == Some(reset)
  }

  predicate Waiting(c: Consumer, tp: TopicPartition, reset: ResetStrategy) {
    tp in c.held && c.held[tp].reset == Some(reset) && !CanCancel(c, tp)
  }

  lemma FetchKeepsWaiting(c: Consumer, fs: seq<Fetched>, throttled: bool, tp: TopicPartition, reset: ResetStrategy)
    requires Waiting(c, tp, reset) && c.phase.Fetching? && Honest(c.phase.request, fs)
    ensures Waiting(AfterFetch(c, fs, throttled), tp, reset)
  {
    HandlingSpares(c.held, fs, c.defaultReset, tp);
    OfResponse(c.phase.request, fs, tp);
    if c.phase.request == map[] {
      assert fs == [];
    }
  }

  lemma SparedKeepsWaiting(c: Consumer, step: Step, tp: TopicPartition, reset: ResetStrategy)
    requires Waiting(c, tp, reset) && Enabled(c, step) && Spares(c, step, tp)
    ensures Waiting(Apply(c, step), tp, reset)
  {
    match step
    case FetchDone(fs, throttled) => FetchKeepsWaiting(c, fs, throttled, tp, reset);
    case NextRecord =>
      if c.phase.queue != [] {
        OfPartitionHead(c.phase.queue, tp);
      }
    case _ =>
  }

  lemma {:induction false} StretchKeepsWaiting(
    run: seq<Consumer>, steps: seq<Step>, i: nat, j: nat, tp: TopicPartition, reset: ResetStrategy)
    requires IsRun(run, steps) && i <= j < |run| && Waiting(run[i], tp, reset)
    requires forall k :: i <= k < j ==> Spares(run[k], steps[k], tp)
    ensures Waiting(run[j], tp, reset)
    decreases j
  {
    if i < j {
      StretchKeepsWaiting(run, steps, i, j - 1, tp, reset);
      assert Enabled(run[j - 1], steps[j - 1]) && run[j] == Apply(run[j - 1], steps[j - 1]);
      assert Spares(run[j - 1], steps[j - 1], tp);
      SparedKeepsWaiting(run[j - 1], steps[j - 1], tp, reset);
    }
  }

  /** Handing out a queue without records of the partition, up to the next fetch. */
  lemma {:induction false} DrainsAll(c: Consumer, d: Consumer, tp: TopicPartition) returns (e: Consumer)
    requires Leads(c, d, tp) && tp in d.held && d.held[tp].IsFetchable()
    requires d.phase.Delivering? && !d.phase.throttled && OfPartition(d.phase.queue, tp) == []
    ensures Leads(c, e, tp) && tp in e.held && Outstanding(e, tp) && e.phase.Fetching?
    decreases |d.phase.queue|
  {
    e := AfterNext(d);
    LeadsOn(c, d, NextRecord, tp);
    if d.phase.queue != [] {
      OfPartitionHead(d.phase.queue, tp);
      e := DrainsAll(c, e, tp);
    }
  }

  lemma {:induction false} LeadsAlong(c: Consumer, run: seq<Consumer>, steps: seq<Step>, i: nat, tp: TopicPartition)
    requires IsStretch(run, steps, tp) && Leads(c, run[0], tp) && i < |run|
    ensures Leads(c, run[i], tp)
  {
    if i > 0 {
      LeadsAlong(c, run, steps, i - 1, tp);
      assert Enabled(run[i - 1], steps[i - 1]) && run[i] == Apply(run[i - 1], steps[i - 1]);
      assert Spares(run[i - 1], steps[i - 1], tp);
      LeadsOn(c, run[i - 1], steps[i - 1], tp);
    }
  }

  /** Leading on from where a stretch led. */
  lemma LeadsJoin(c: Consumer, d: Consumer, e: Consumer, tp: TopicPartition)
    requires Leads(c, d, tp) && Leads(d, e, tp)
    ensures Leads(c, e, tp)
  {
    var run: seq<Consumer>, steps: seq<Step> :| IsStretch(run, steps, tp) && run[0] == d && run[|run| - 1] == e;
    LeadsAlong(c, run, steps, |run| - 1, tp);
  }

  /** An update under way ends without an offset for the partition. */
  lemma UpdateEnds(c: Consumer, tp: TopicPartition) returns (e: Consumer)
    requires tp in c.held && c.held[tp].IsFetchable() && c.phase.Updating?
    ensures Leads(c, e, tp) && tp in e.held && Outstanding(e, tp)
  {
    LeadsHere(c, tp);
    var step := PositionsReset(map[]);
    LeadsOn(c, c, step, tp);
    e := Apply(c, step);
  }

  /** The partition's next fetch. */
  lemma FetchComes(c: Consumer, tp: TopicPartition) returns (d: Consumer)
    requires tp in c.held && CanCancel(c, tp) && !Outstanding(c, tp) && !AwaitsReset(c, tp)
    ensures Leads(c, d, tp) && tp in d.held && Outstanding(d, tp)
  {
    LeadsHere(c, tp);
    if c.phase.Updating? {
      d := UpdateEnds(c, tp);
    } else if c.phase.Fetching? {
      var t :| t in c.phase.request;
      d := AnswersOne(c, c, t, tp);
      OfOne(d.phase.queue[0], tp);
      d := DrainsAll(c, d, tp);
    } else {
      d := DrainsAll(c, c, tp);
    }
  }

  lemma CancelComes(c: Consumer, tp: TopicPartition) returns (e: Consumer)
    requires tp in c.held && CanCancel(c, tp)
    ensures Leads(c, e, tp) && tp in e.held && e.held[tp].reset.None?
  {
    if AwaitsReset(c, tp) {
      e := ResetArrives(c, tp, 0);
    } else if Outstanding(c, tp) {
      e := OutstandingArrives(c, tp);
    } else {
      var d := FetchComes(c, tp);
      e := OutstandingArrives(d, tp);
      LeadsJoin(c, d, e, tp);
    }
  }

  /** A pending reset waits if and only if nothing can cancel it. */
  lemma WaitsExactly(c: Consumer, tp: TopicPartition, reset: ResetStrategy)
    requires tp in c.held && c.held[tp].reset == Some(reset)
    ensures ResetWaits(c, tp, reset) <==> !CanCancel(c, tp)
  {
    if CanCancel(c, tp) {
      var e := CancelComes(c, tp);
    } else {
      forall d | Leads(c, d, tp)
        ensures tp in d.held && d.held[tp].reset == Some(reset)
      {
        var run: seq<Consumer>, steps: seq<Step> :| IsStretch(run, steps, tp) && run[0] == c && run[|run| - 1] == d;
        StretchKeepsWaiting(run, steps, 0, |run| - 1, tp, reset);
      }
    }
  }

  function StrategyOf(to: SeekTo): (r: ResetStrategy)
    requires !to.Position?
  {
    if to.Beginning? then Earliest else Latest
  }

  /** A seek to the beginning or the end leaves the position and asks for a reset. It
      waits for the next update to begin if and only if no record of the partition is
      on its way or will be fetched before, and no update under way has asked for its
      offset or lets it be fetched. */
  lemma ResetHonoured(c: Consumer, tp: TopicPartition, to: SeekTo)
    requires tp in c.held && !to.Position?
    ensures ResetWaits(Apply(c, UserSeek(tp, to)), tp, StrategyOf(to)) <==> !CanCancel(c, tp)
  {
    var c' := Apply(c, UserSeek(tp, to));
    WaitsExactly(c', tp, StrategyOf(to));
    assert CanCancel(c', tp) <==> CanCancel(c, tp);
  }

  // ----- an update of positions, from beginning to end -----

  /** The steps that begin an update. */
  predicate BeginsUpdate(step: Step) {
    step.Slept? || step.OffsetsFetched?
  }

  /** The committed offset an update goes by: the one just fetched, if any. */
  function CommittedFor(c: Consumer, step: Step, tp: TopicPartition): (r: Option<int>)
    requires tp in c.held
  {
    if step.OffsetsFetched? && tp in step.committed then Some(step.committed[tp].offset)
    else if c.held[tp].committed.Some? then Some(c.held[tp].committed.value.offset)
    else None
  }

  /** How the offset will be reset: as asked for before, or, with nothing committed,
      by default. */
  function ResetFor(c: Consumer, step: Step, tp: TopicPartition): (r: Option<ResetStrategy>)
    requires tp in c.held
  {
    if c.held[tp].reset.Some? then c.held[tp].reset
    else if CommittedFor(c, step, tp).None? then Some(c.defaultReset)
    else None
  }

  /** From its beginning to its end an update keeps what it asked for, and what spares
      a partition in between leaves its state as it is. */
  lemma {:induction false} BetweenUpdates(run: seq<Consumer>, steps: seq<Step>, m: nat, i: nat, tp: TopicPartition)
    requires IsRun(run, steps) && m <= i < |run| && run[i].phase.Updating? && tp in run[m].held
    requires forall k :: m <= k < i ==> Quiet(run[k], steps[k], tp)
    ensures run[i].phase == run[m].phase && tp in run[i].held
    ensures run[i].held[tp].position == run[m].held[tp].position && run[i].held[tp].reset == run[m].held[tp].reset
    decreases i
  {
    if i > m {
      assert Enabled(run[i - 1], steps[i - 1]) && run[i] == Apply(run[i - 1], steps[i - 1]);
      assert Quiet(run[i - 1], steps[i - 1], tp);
      BetweenUpdates(run, steps, m, i - 1, tp);
    }
  }

  /** The steps from m on are one update, with any steps in between that spare the
      partition. */
  predicate IsUpdate(run: seq<Consumer>, steps: seq<Step>, m: nat, tp: TopicPartition) {
    && IsRun(run, steps) && m + 2 <= |steps| && BeginsUpdate(steps[m]) && steps[|steps| - 1].PositionsReset?
    && forall k :: m < k < |steps| - 1 ==> Quiet(run[k], steps[k], tp)
  }

  lemma UpdateBegins(c: Consumer, step: Step, tp: TopicPartition)
    requires Enabled(c, step) && BeginsUpdate(step) && tp in c.held
    ensures var c' := Apply(c, step);
            var reset := ResetFor(c, step, tp);
            && c'.phase.Updating? && tp in c'.held
            && (AwaitsReset(c', tp) <==> reset.Some? && !reset.value.NoReset?)
            && (AwaitsReset(c', tp) ==> c'.phase.resets[tp] == reset.value)
            && c'.held[tp].position ==
                 if reset.None? then Some(CommittedFor(c, step, tp).value) else c.held[tp].position
  {
  }

  /** A whole update asks the broker for the partition's offset exactly when it is to
      be reset, to the beginning or the end. It leaves the position where it was exactly
      when there is nothing to reset and the commit is at the position, or there is and
      the broker names the position, gives no offset or is not asked. */
  lemma WholeUpdate(run: seq<Consumer>, steps: seq<Step>, m: nat, tp: TopicPartition)
    requires IsUpdate(run, steps, m, tp) && tp in run[m].held
    ensures var c, d := run[m], run[|run| - 1];
            var offsets := steps[|steps| - 1].offsets;
            var reset := ResetFor(c, steps[m], tp);
            && tp in d.held
            && (AwaitsReset(run[m + 1], tp) <==> reset.Some? && !reset.value.NoReset?)
            && (AwaitsReset(run[m + 1], tp) ==> run[m + 1].phase.resets[tp] == reset.value)
            && (d.held[tp].position == c.held[tp].position <==>
                  if reset.None? then c.held[tp].position == Some(CommittedFor(c, steps[m], tp).value)
                  else tp !in offsets || c.held[tp].position == Some(offsets[tp]))
            && (tp in offsets ==> AwaitsReset(run[m + 1], tp) && d.held[tp].position == Some(offsets[tp]))
  {
    var n := |steps| - 1;
    assert Enabled(run[m], steps[m]) && run[m + 1] == Apply(run[m], steps[m]);
    assert Enabled(run[n], steps[n]) && run[n + 1] == Apply(run[n], steps[n]);
    UpdateBegins(run[m], steps[m], tp);
    BetweenUpdates(run, steps, m + 1, n, tp);
  }

  /** A fetch was answered that the partition's offset is out of range. */
  predicate OutOfRange(step: Step, tp: TopicPartition) {
    step.FetchDone? && exists i :: 0 <= i < |step.fs| && step.fs[i].tp == tp && step.fs[i].error.OffsetOutOfRange?
  }

  lemma {:induction false} HandlingResets(held: Held, fs: seq<Fetched>, defaultReset: ResetStrategy, tp: TopicPartition)
    requires tp in held
    ensures var h := HandleAll(held, fs, defaultReset).0;
            && tp in h && h[tp].committed == held[tp].committed && h[tp].position == held[tp].position
            && (h[tp].reset == held[tp].reset
                || exists i :: 0 <= i < |fs| && fs[i].tp == tp && fs[i].error.OffsetOutOfRange?)
    decreases |fs|
  {
    if fs != [] {
      var one := HandleOne(held, fs[0], defaultReset);
      if one.Some? {
        HandlingResets(one.value, fs[1..], defaultReset, tp);
        if i :| 0 <= i < |fs[1..]| && fs[1..][i].tp == tp && fs[1..][i].error.OffsetOutOfRange? {
          assert fs[i + 1].tp == tp;
        }
      }
    }
  }

  /** Where a partition stands that stood at p and has delivered xs since. */
  function Behind(p: Option<int>, xs: seq<int>): (r: Option<int>) {
    if xs == [] then p else Some(xs[|xs| - 1] + 1)
  }

  /** From a to c the partition has kept its commit and stands behind what it
      delivered. */
  predicate Drifted(a: Consumer, c: Consumer, tp: TopicPartition) {
    && tp in a.held && tp in c.held && a.delivered <= c.delivered
    && c.held[tp].committed == a.held[tp].committed
    && c.held[tp].position == Behind(a.held[tp].position, Since(a, c, tp))
  }

  lemma NextDrifts(a: Consumer, c: Consumer, tp: TopicPartition)
    requires Drifted(a, c, tp) && c.phase.Delivering?
    ensures Drifted(a, AfterNext(c), tp)
    ensures AfterNext(c).held[tp].reset.Some? ==> c.held[tp].reset.Some?
  {
    if c.phase.queue != [] {
      SinceNext(a, c, tp);
    }
  }

  lemma QuietDrifts(a: Consumer, c: Consumer, step: Step, tp: TopicPartition)
    requires Drifted(a, c, tp) && Enabled(c, step) && Quiet(c, step, tp)
    ensures Drifted(a, Apply(c, step), tp)
    ensures Apply(c, step).held[tp].reset.Some? ==> c.held[tp].reset.Some? || OutOfRange(step, tp)
  {
    match step
    case FetchDone(fs, _) => HandlingResets(c.held, fs, c.defaultReset, tp);
    case NextRecord => NextDrifts(a, c, tp);
    case _ =>
  }

  lemma {:induction false} StretchDrifts(run: seq<Consumer>, steps: seq<Step>, i: nat, j: nat, tp: TopicPartition)
    requires IsRun(run, steps) && i <= j < |run| && tp in run[i].held && run[i].held[tp].reset.None?
    requires forall k :: i <= k < j ==> Quiet(run[k], steps[k], tp)
    ensures Drifted(run[i], run[j], tp)
    ensures run[j].held[tp].reset.Some? ==> exists k :: i <= k < j && OutOfRange(steps[k], tp)
    decreases j
  {
    if i == j {
      assert run[i].delivered[|run[i].delivered|..] == [];
    } else {
      StretchDrifts(run, steps, i, j - 1, tp);
      assert Enabled(run[j - 1], steps[j - 1]) && run[j] == Apply(run[j - 1], steps[j - 1]);
      assert Quiet(run[j - 1], steps[j - 1], tp);
      QuietDrifts(run[i], run[j - 1], steps[j - 1], tp);
    }
  }

  /** A seek to an offset followed by quiet steps and then an update. Before the update
      the partition stands at the offset, or behind the last record delivered since;
      the update leaves it there exactly when the commit is there too, or, with nothing
      committed or the offset out of range meanwhile, the broker names that offset or
      none. */
  lemma SeekSurvivesUpdate(run: seq<Consumer>, steps: seq<Step>, m: nat, tp: TopicPartition, offset: int)
    requires IsUpdate(run, steps, m, tp) && 0 < m && steps[0] == UserSeek(tp, Position(offset))
    requires forall k :: 0 < k < m ==> Quiet(run[k], steps[k], tp)
    ensures var c, b, d := run[0], run[m], run[|run| - 1];
            var offsets := steps[|steps| - 1].offsets;
            && tp in c.held && tp in b.held && tp in d.held && c.delivered <= b.delivered
            && b.held[tp].position == Behind(Some(offset), Since(c, b, tp))
            && (b.held[tp].reset.Some? ==> exists k :: 0 < k < m && OutOfRange(steps[k], tp))
            && (d.held[tp].position == b.held[tp].position <==>
                  if b.held[tp].reset.None? && CommittedFor(c, steps[m], tp).Some?
                  then CommittedFor(c, steps[m], tp) == b.held[tp].position
                  else tp !in offsets || Some(offsets[tp]) == b.held[tp].position)
  {
    assert Enabled(run[0], steps[0]) && run[1] == Apply(run[0], steps[0]);
    StretchDrifts(run, steps, 1, m, tp);
    WholeUpdate(run, steps, m, tp);
  }

  /** A seek to the beginning or the end that nothing can cancel takes effect with the
      next update: the broker is asked for that end, and its answer is the position. */
  lemma ResetTakesEffect(run: seq<Consumer>, steps: seq<Step>, m: nat, tp: TopicPartition, to: SeekTo)
    requires IsUpdate(run, steps, m, tp) && 0 < m && steps[0] == UserSeek(tp, to) && !to.Position?
    requires forall k :: 0 < k < m ==> Spares(run[k], steps[k], tp)
    requires !CanCancel(run[0], tp)
    ensures AwaitsReset(run[m + 1], tp) && run[m + 1].phase.resets[tp] == StrategyOf(to)
    ensures var d := run[|run| - 1];
            var offsets := steps[|steps| - 1].offsets;
            && tp in run[0].held && tp in d.held
            && d.held[tp].position == if tp in offsets then Some(offsets[tp]) else run[m].held[tp].position
  {
    assert Enabled(run[0], steps[0]) && run[1] == Apply(run[0], steps[0]);
    assert CanCancel(run[1], tp) <==> CanCancel(run[0], tp);
    StretchKeepsWaiting(run, steps, 1, m, tp, StrategyOf(to));
    WholeUpdate(run, steps, m, tp);
  }

  /** A seek made while an update is under way. A seek to an offset survives the end of
      the update exactly when the broker gives no other offset for the partition, which
      it does only if asked before the seek. An offset for the partition also cancels a
      seek to the beginning or the end; without one that seek still waits, for the next
      update, exactly when the partition is not fetched before. */
  lemma SeekDuringUpdate(run: seq<Consumer>, steps: seq<Step>, tp: TopicPartition, to: SeekTo)
    requires IsRun(run, steps) && |steps| >= 2 && run[0].phase.Updating?
    requires steps[0] == UserSeek(tp, to) && steps[|steps| - 1].PositionsReset?
    requires forall k :: 0 < k < |steps| - 1 ==> Quiet(run[k], steps[k], tp)
    ensures var c, d := run[0], run[|run| - 1];
            var offsets := steps[|steps| - 1].offsets;
            && tp in c.held && tp in d.held
            && (to.Position? ==>
                  (d.held[tp].position == Some(to.offset) <==> tp !in offsets || offsets[tp] == to.offset))
            && (tp in offsets ==>
                  AwaitsReset(c, tp) && d.held[tp].position == Some(offsets[tp]) && d.held[tp].reset.None?)
            && (tp !in offsets && !to.Position? ==>
                  && d.held[tp].position == c.held[tp].position && d.held[tp].reset == Some(StrategyOf(to))
                  && (ResetWaits(d, tp, StrategyOf(to)) <==> !d.held[tp].IsFetchable()))
  {
    var n := |steps| - 1;
    assert Enabled(run[0], steps[0]) && run[1] == Apply(run[0], steps[0]);
    assert Enabled(run[n], steps[n]) && run[n + 1] == Apply(run[n], steps[n]);
    BetweenUpdates(run, steps, 1, n, tp);
    if !to.Position? && tp !in steps[n].offsets {
      WaitsExactly(run[n + 1], tp, StrategyOf(to));
    }
  }

  lemma JoinAsks(held: Held, tp: TopicPartition) returns (c: Consumer, d: Consumer)
    requires tp !in held
    ensures c == Apply(Consumer(Latest, held, Joining, []), Joined([tp]))
    ensures Enabled(c, OffsetsFetched(map[])) && d == Apply(c, OffsetsFetched(map[]))
    ensures AwaitsReset(d, tp) && tp in d.held && d.held.Keys == {tp} && !d.held[tp].paused
  {
    c := Apply(Consumer(Latest, held, Joining, []), Joined([tp]));
    d := Apply(c, OffsetsFetched(map[]));
    UpdateBegins(c, OffsetsFetched(map[]), tp);
  }

  lemma SeekOverwritten(c: Consumer, tp: TopicPartition, offset: int, end: int) returns (d: Consumer, e: Consumer)
    requires AwaitsReset(c, tp) && tp in c.held && c.held.Keys == {tp} && !c.held[tp].paused
    ensures d == Apply(c, UserSeek(tp, Position(offset)))
    ensures Enabled(d, PositionsReset(map[tp := end])) && e == Apply(d, PositionsReset(map[tp := end]))
    ensures e.phase == Fetching(map[tp := end])
  {
    d := Apply(c, UserSeek(tp, Position(offset)));
    e := Apply(d, PositionsReset(map[tp := end]));
    assert Request(e.held) == map[tp := end];
  }

  /** So a seek right after joining is lost when the offset was asked for already: the
      next fetch asks for the broker's offset. */
  lemma SeekWhileJoining(tp: TopicPartition, held: Held, offset: int, end: int) returns (run: seq<Consumer>)
    requires tp !in held
    ensures IsRun(run, [Joined([tp]), OffsetsFetched(map[]), UserSeek(tp, Position(offset)),
                        PositionsReset(map[tp := end])])
    ensures run[0] == Consumer(Latest, held, Joining, [])
    ensures run[4].phase == Fetching(map[tp := end])
  {
    var c, d := JoinAsks(held, tp);
    var e, f := SeekOverwritten(d, tp, offset, end);
    run := [Consumer(Latest, held, Joining, []), c, d, e, f];
  }

  // ----- polling -----

  datatype Polled = Ready(rec: Rec) | NotReady

  /** A future of the loop completing, as opposed to the loop's or the user's doing. */
  predicate IsCompletion(step: Step) {
    !step.NextRecord? && !step.UserSeek? && !step.UserPause? && !step.Rebalanced?
  }

  /** `poll`: takes completions as they are needed, until a record can be handed out
      or a future is not ready. */
  function Poll(c: Consumer, ready: seq<Step>): (r: (Consumer, seq<Step>, Polled))
    decreases |ready|, c.phase.Delivering?
  {
    if c.phase.Delivering? then
      if c.phase.queue != [] then (AfterNext(c), ready, Ready(c.phase.queue[0])) else Poll(AfterNext(c), ready)
    else if ready == [] || !IsCompletion(ready[0]) || !Enabled(c, ready[0]) then (c, ready, NotReady)
    else Poll(Apply(c, ready[0]), ready[1..])
  }

  lemma Prepended(c: Consumer, step: Step, run: seq<Consumer>, steps: seq<Step>)
    requires IsRun(run, steps) && Enabled(c, step) && run[0] == Apply(c, step)
    ensures IsRun([c] + run, [step] + steps)
  {
    forall i | 0 <= i < |steps| + 1
      ensures Enabled(([c] + run)[i], ([step] + steps)[i])
      ensures ([c] + run)[i + 1] == Apply(([c] + run)[i], ([step] + steps)[i])
    {
      if i > 0 {
        assert Enabled(run[i - 1], steps[i - 1]) && run[i] == Apply(run[i - 1], steps[i - 1]);
      }
    }
  }

  /** The completions among the steps. */
  function Completions(steps: seq<Step>): (r: seq<Step>) {
    if steps == [] then []
    else (if steps[0].NextRecord? then [] else [steps[0]]) + Completions(steps[1..])
  }

  /** The next future of the list cannot be waited for in this state, or there is none. */
  predicate NoneReady(c: Consumer, ready: seq<Step>) {
    ready == [] || !IsCompletion(ready[0]) || !Enabled(c, ready[0])
  }

  lemma CompletionsCons(step: Step, steps: seq<Step>, taken: seq<Step>, rest: seq<Step>)
    requires Completions(steps) + rest == taken
    ensures Completions([step] + steps) + rest == (if step.NextRecord? then [] else [step]) + taken
  {
    assert ([step] + steps)[1..] == steps;
  }

  /** The steps lead from c to the result and take the ready completions in order,
      leaving the rest. The poll gives up only outside the delivery of records and when
      no completion is ready for it; otherwise it returns the record that the last step,
      and only this one, has delivered, the first of the queue. */
  predicate Accounts(
    c: Consumer, ready: seq<Step>, r: (Consumer, seq<Step>, Polled), run: seq<Consumer>, steps: seq<Step>)
  {
    && IsRun(run, steps) && run[0] == c && run[|run| - 1] == r.0 && Completions(steps) + r.1 == ready
    && (r.2.NotReady? ==> !r.0.phase.Delivering? && NoneReady(r.0, r.1) && r.0.delivered == c.delivered)
    && (r.2.Ready? ==>
          && |steps| > 0 && steps[|steps| - 1].NextRecord?
          && var before := run[|steps| - 1];
             && before.phase.Delivering? && before.phase.queue != [] && r.2.rec == before.phase.queue[0]
             && r.0.delivered == c.delivered + [r.2.rec])
  }

  lemma AccountsBefore(c: Consumer, step: Step, ready: seq<Step>, r: (Consumer, seq<Step>, Polled),
                       run: seq<Consumer>, steps: seq<Step>)
    requires Enabled(c, step) && Apply(c, step).delivered == c.delivered
    requires Accounts(Apply(c, step), ready, r, run, steps)
    ensures Accounts(c, (if step.NextRecord? then [] else [step]) + ready, r, [c] + run, [step] + steps)
  {
    Prepended(c, step, run, steps);
    CompletionsCons(step, steps, ready, r.1);
    var run', steps' := [c] + run, [step] + steps;
    assert run'[|run'| - 1] == run[|run| - 1];
    if r.2.Ready? {
      assert run'[|steps'| - 1] == run[|steps| - 1] && steps'[|steps'| - 1] == steps[|steps| - 1];
    }
  }

  /** A poll does just that. */
  lemma {:induction false} PollIsARun(c: Consumer, ready: seq<Step>) returns (run: seq<Consumer>, steps: seq<Step>)
    ensures Accounts(c, ready, Poll(c, ready), run, steps)
    decreases |ready|, c.phase.Delivering?
  {
    if c.phase.Delivering? && c.phase.queue != [] {
      run, steps := [c, AfterNext(c)], [NextRecord];
      assert Completions(steps) == [] + Completions(steps[1..]);
    } else if c.phase.Delivering? {
      run, steps := PollIsARun(AfterNext(c), ready);
      AccountsBefore(c, NextRecord, ready, Poll(c, ready), run, steps);
      assert [] + ready == ready;
      run, steps := [c] + run, [NextRecord] + steps;
    } else if NoneReady(c, ready) {
      run, steps := [c], [];
    } else {
      run, steps := PollIsARun(Apply(c, ready[0]), ready[1..]);
      AccountsBefore(c, ready[0], ready[1..], Poll(c, ready), run, steps);
      assert [ready[0]] + ready[1..] == ready;
      run, steps := [c] + run, [ready[0]] + steps;
    }
  }

  /** A queued record is returned at once. */
  lemma QueuedIsReturned(c: Consumer, ready: seq<Step>)
    requires c.phase.Delivering? && c.phase.queue != []
    ensures Poll(c, ready).2 == Ready(c.phase.queue[0]) && Poll(c, ready).1 == ready
    ensures Poll(c, ready).0.phase == c.phase.(queue := c.phase.queue[1..])
  {
  }

  class SubscribedTopics {
    const defaultReset: ResetStrategy
    var held: Held
    var phase: Phase
    var delivered: seq<Rec>

    /** With a coordinator the consumer joins first, without one it fetches at once. */
    constructor (defaultReset: ResetStrategy, held: Held, coordinated: bool)
      ensures State() == Consumer(defaultReset, held, if coordinated then Joining else Fetching(Request(held)), [])
    {
      this.defaultReset, this.held, delivered := defaultReset, held, [];
      phase := if coordinated then Joining else Fetching(Request(held));
    }

    function State(): (c: Consumer)
      reads this
    {
      Consumer(defaultReset, held, phase, delivered)
    }

    /** Notes watermarks and resets, partition by partition. */
    method HandleFetched(fs: seq<Fetched>) returns (ok: bool)
      modifies this`held
      ensures (held, ok) == HandleAll(old(held), fs, defaultReset)
    {
      var i := 0;
      while i < |fs|
        invariant i <= |fs|
        invariant HandleAll(old(held), fs, defaultReset) == HandleAll(held, fs[i..], defaultReset)
      {
        var f := fs[i];
        assert fs[i..][1..] == fs[i + 1..];
        if f.tp in held && held[f.tp].IsFetchable() {
          match f.error {
            case NoError =>
              if held[f.tp].position == Some(f.fetchOffset) {
                held := held[f.tp := held[f.tp].(highWatermark := f.highWatermark)];
              }
            case OffsetOutOfRange =>
              if held[f.tp].position == Some(f.fetchOffset) {
                held := held[f.tp := held[f.tp].NeedOffsetReset(defaultReset)];
              }
            case OtherError =>
              return false;
          }
        }
        i := i + 1;
      }
      ok := true;
    }

    /** One turn of the loop outside the delivery of records. */
    method Complete(step: Step)
      requires IsCompletion(step) && Enabled(State(), step)
      modifies this
      ensures State() == Apply(old(State()), step)
    {
      match step {
        case Joined(ps) =>
          held, phase := Reassigned(held, ps), UpdatingOffsets;
        case OffsetsFetched(cs) =>
          held := UpdatePositions(WithCommitted(held, cs), defaultReset);
          phase := Updating(ResetRequest(held));
        case PositionsReset(offsets) =>
          held := SeekAll(held, offsets);
          phase := Fetching(Request(held));
        case Slept =>
          held := UpdatePositions(held, defaultReset);
          phase := Updating(ResetRequest(held));
        case FetchDone(fs, throttled) =>
          var ok := HandleFetched(fs);
          phase := if !ok || Flatten(fs) == [] then Retrying else Delivering(Flatten(fs), throttled);
        case FetchFailed =>
          phase := Retrying;
      }
    }

    method PollNext(ready: seq<Step>) returns (rest: seq<Step>, polled: Polled)
      modifies this
      ensures (State(), rest, polled) == Poll(old(State()), ready)
    {
      rest := ready;
      while true
        invariant Poll(State(), rest) == Poll(old(State()), ready)
        decreases |rest|, phase.Delivering?
      {
        if phase.Delivering? {
          if phase.queue != [] {
            var r := phase.queue[0];
            if r.tp in held {
              held := held[r.tp := held[r.tp].Seek(r.offset + 1)];
            }
            phase := phase.(queue := phase.queue[1..]);
            delivered := delivered + [r];
            return rest, Ready(r);
          }
          phase := if phase.throttled then Retrying else Fetching(Request(held));
        } else if rest == [] || !IsCompletion(rest[0]) || !Enabled(State(), rest[0]) {
          return rest, NotReady;
        } else {
          var step := rest[0];
          Complete(step);
          rest := rest[1..];
        }
      }
    }
  }
}
