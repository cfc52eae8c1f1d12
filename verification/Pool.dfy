/** The connection pool: idle connections by address, and checkouts parked until
    one becomes idle. A connection's status is a cell shared by all its handles;
    a parked checkout is the receiving end of a one-shot channel whose sender
    stands in the pool's queue. */
module Pool {
  import opened Wire
  import opened Names

  type Key = int
  type Conn = int
  type Waiter = int

  datatype Status = Idle(at: int) | Busy

  /** A handle to a connection; all handles share the connection's status. */
  datatype Entry = Entry(conn: Conn, reused: bool)

  /** A one-shot channel: its receiver waits, was dropped, or has been sent an entry. */
  datatype Channel =
    | Waiting(key: Key)
    | Cancelled(key: Key)
    | Sent(key: Key, entry: Entry)

  datatype PoolState = PoolState(
    enabled: bool,
    timeout: Option<int>,
    idle: map<Key, seq<Entry>>,
    parked: map<Key, seq<Waiter>>,
    channels: map<Waiter, Channel>,
    status: map<Conn, Status>,
    home: map<Conn, Key>)

  // ----- returning a connection -----

  predicate Live(channels: map<Waiter, Channel>, w: Waiter) {
    w in channels && channels[w].Waiting?
  }

  /** The position of the first waiter still there, or the length of the queue. */
  function FirstLive(q: seq<Waiter>, channels: map<Waiter, Channel>): (i: nat)
    ensures i <= |q|
    ensures i < |q| ==> Live(channels, q[i])
    ensures forall j :: 0 <= j < i ==> !Live(channels, q[j])
  {
    if q == [] || Live(channels, q[0]) then 0 else 1 + FirstLive(q[1..], channels)
  }

  function WaitList(p: PoolState, k: Key): (q: seq<Waiter>) {
    if k in p.parked then p.parked[k] else []
  }

  function IdleList(p: PoolState, k: Key): (es: seq<Entry>) {
    if k in p.idle then p.idle[k] else []
  }

  /** The queue with the given waiters left, dropped from the map when empty. */
  function Requeued(parked: map<Key, seq<Waiter>>, k: Key, q: seq<Waiter>): (r: map<Key, seq<Waiter>>) {
    if q == [] then parked - {k} else parked[k := q]
  }

  /** `put`: the longest waiting checkout that is still there gets the entry; if
      there is none, the entry is stored. */
  function Put(p: PoolState, k: Key, e: Entry): (r: PoolState) {
    if k in p.parked then
      var q := p.parked[k];
      var i := FirstLive(q, p.channels);
      if i < |q| then
        p.(parked := Requeued(p.parked, k, q[i + 1..]), channels := p.channels[q[i] := Sent(k, e)])
      else
        p.(parked := p.parked - {k}, idle := p.idle[k := IdleList(p, k) + [e]])
    else
      p.(idle := p.idle[k := IdleList(p, k) + [e]])
  }

  /** `idle()` on a handle of connection c. */
  function GoIdle(p: PoolState, c: Conn, now: int): (r: PoolState)
    requires c in p.status && c in p.home
  {
    var p' := p.(status := p.status[c := Idle(now)]);
    if p.status[c].Idle? || !p.enabled then p' else Put(p', p.home[c], Entry(c, true))
  }

  // ----- checking out -----

  /** Idle and not expired. */
  predicate Usable(p: PoolState, e: Entry, now: int) {
    && e.conn in p.status && p.status[e.conn].Idle?
    && (p.timeout.Some? ==> now - p.timeout.value <= p.status[e.conn].at)
  }

  /** How many entries remain after popping unusable ones off the end. */
  function KeptTo(p: PoolState, es: seq<Entry>, now: int): (n: nat)
    ensures n <= |es|
    ensures n > 0 ==> Usable(p, es[n - 1], now)
    ensures forall i :: n <= i < |es| ==> !Usable(p, es[i], now)
  {
    if es == [] || Usable(p, es[|es| - 1], now) then |es| else KeptTo(p, es[..|es| - 1], now)
  }

  datatype Polled = Ready(entry: Entry) | NotReady

  function Relisted(idle: map<Key, seq<Entry>>, k: Key, es: seq<Entry>): (r: map<Key, seq<Entry>>) {
    if es == [] then idle - {k} else idle[k := es]
  }

  /** `reuse`: the connection is busy again. */
  function Reuse(p: PoolState, e: Entry): (r: PoolState) {
    p.(status := p.status[e.conn := Busy])
  }

  /** `Checkout::poll` by waiter w for key k: take what was sent; otherwise the
      most recently stored usable entry; otherwise park, once. */
  function Poll(p: PoolState, w: Waiter, k: Key, now: int): (r: (PoolState, Polled)) {
    if w in p.channels && p.channels[w].Sent? then
      var e := p.channels[w].entry;
      (Reuse(p.(channels := p.channels - {w}), e), Ready(e.(reused := true)))
    else
      var es := IdleList(p, k);
      var n := KeptTo(p, es, now);
      if n > 0 then
        (Reuse(p.(idle := Relisted(p.idle, k, es[..n - 1])), es[n - 1]), Ready(es[n - 1].(reused := true)))
      else
        var p' := p.(idle := p.idle - {k});
        if w in p.channels then (p', NotReady)
        else
          (p'.(parked := p.parked[k := WaitList(p, k) + [w]],
               channels := p.channels[w := Waiting(k)]), NotReady)
  }

  /** The checkout is dropped; an entry already sent to it is lost. */
  function Cancel(p: PoolState, w: Waiter): (r: PoolState) {
    if w !in p.channels then p
    else if p.channels[w].Waiting? then p.(channels := p.channels[w := Cancelled(p.channels[w].key)])
    else if p.channels[w].Sent? then p.(channels := p.channels - {w})
    else p
  }

  // ----- the invariant -----

  /** No address has both idle connections and parked checkouts. */
  predicate KeysApart(p: PoolState) {
    p.idle.Keys !! p.parked.Keys
  }

  predicate EntryOk(p: PoolState, k: Key, e: Entry) {
    && e.conn in p.status && p.status[e.conn].Idle? && e.reused
    && e.conn in p.home && p.home[e.conn] == k
  }

  predicate OncePerList(es: seq<Entry>) {
    forall i, j :: 0 <= i < j < |es| ==> es[i].conn != es[j].conn
  }

  predicate ListOk(p: PoolState, k: Key)
    requires k in p.idle
  {
    p.idle[k] != [] && OncePerList(p.idle[k]) && forall e :: e in p.idle[k] ==> EntryOk(p, k, e)
  }

  predicate QueueOk(p: PoolState, k: Key)
    requires k in p.parked
  {
    && p.parked[k] != [] && Distinct(p.parked[k])
    && forall w :: w in p.parked[k] ==> w in p.channels && !p.channels[w].Sent? && p.channels[w].key == k
  }

  /** A sent entry is idle and stored nowhere else. */
  predicate SentOk(p: PoolState, w: Waiter)
    requires w in p.channels
  {
    p.channels[w].Sent? ==>
      && EntryOk(p, p.channels[w].key, p.channels[w].entry)
      && (forall e :: e in IdleList(p, p.channels[w].key) ==> e.conn != p.channels[w].entry.conn)
  }

  predicate SentOnce(p: PoolState) {
    forall v, w :: v in p.channels && w in p.channels && v != w && p.channels[v].Sent? && p.channels[w].Sent? ==>
                     p.channels[v].entry.conn != p.channels[w].entry.conn
  }

  /** A checkout that waits stands in the queue of its address. */
  predicate WaitingOk(p: PoolState, w: Waiter)
    requires w in p.channels
  {
    p.channels[w].Waiting? ==> p.channels[w].key in p.parked && w in p.parked[p.channels[w].key]
  }

  predicate Inv(p: PoolState) {
    && KeysApart(p) && SentOnce(p) && p.home.Keys == p.status.Keys
    && (forall k :: k in p.idle ==> ListOk(p, k))
    && (forall k :: k in p.parked ==> QueueOk(p, k))
    && (forall w :: w in p.channels ==> SentOk(p, w) && WaitingOk(p, w))
  }

  /** The connection is in no idle list and in no channel. */
  predicate Unstored(p: PoolState, c: Conn) {
    && (forall k, e :: k in p.idle && e in p.idle[k] ==> e.conn != c)
    && (forall w :: w in p.channels && p.channels[w].Sent? ==> p.channels[w].entry.conn != c)
  }

  lemma BusyIsUnstored(p: PoolState, c: Conn)
    requires Inv(p) && c in p.status && p.status[c].Busy?
    ensures Unstored(p, c)
  {
    forall k, e | k in p.idle && e in p.idle[k] ensures e.conn != c {
      assert ListOk(p, k);
      assert EntryOk(p, k, e);
    }
    forall w | w in p.channels && p.channels[w].Sent? ensures p.channels[w].entry.conn != c {
      assert SentOk(p, w);
    }
  }

  /** What was idle in p is in r, with the same address. */
  predicate Stays(p: PoolState, r: PoolState, c: Conn) {
    c in p.status && p.status[c].Idle? && c in p.home ==>
      c in r.status && r.status[c].Idle? && c in r.home && r.home[c] == p.home[c]
  }

  /** Lists that lost at most entries at their end are still in order. */
  lemma ListsKept(p: PoolState, r: PoolState)
    requires Inv(p)
    requires forall k :: k in r.idle ==> k in p.idle && r.idle[k] != [] && r.idle[k] <= p.idle[k]
    requires forall k, e :: k in r.idle && e in r.idle[k] ==> Stays(p, r, e.conn)
    ensures forall k :: k in r.idle ==> ListOk(r, k)
  {
    forall k | k in r.idle ensures ListOk(r, k) {
      assert ListOk(p, k);
      forall e | e in r.idle[k] ensures EntryOk(r, k, e) {
        assert EntryOk(p, k, e);
      }
    }
  }

  /** Queues whose waiters have not been sent anything are still in order. */
  lemma QueuesKept(p: PoolState, r: PoolState)
    requires Inv(p)
    requires forall k :: k in r.parked ==> k in p.parked && r.parked[k] == p.parked[k]
    requires forall w :: w in p.channels && !p.channels[w].Sent? ==>
               w in r.channels && !r.channels[w].Sent? && r.channels[w].key == p.channels[w].key
    ensures forall k :: k in r.parked ==> QueueOk(r, k)
  {
    forall k | k in r.parked ensures QueueOk(r, k) {
      assert QueueOk(p, k);
    }
  }

  /** Channels that are the same, or had their waiter dropped, are still in order. */
  lemma ChannelsKept(p: PoolState, r: PoolState)
    requires Inv(p) && r.parked == p.parked
    requires forall w :: w in r.channels ==>
               w in p.channels && r.channels[w].key == p.channels[w].key
               && (r.channels[w].Cancelled? || r.channels[w] == p.channels[w])
    requires forall w :: w in r.channels && r.channels[w].Sent? ==> Stays(p, r, r.channels[w].entry.conn)
    requires forall k :: IdleList(r, k) <= IdleList(p, k)
    ensures forall w :: w in r.channels ==> SentOk(r, w) && WaitingOk(r, w)
  {
    forall w | w in r.channels ensures SentOk(r, w) && WaitingOk(r, w) {
      assert SentOk(p, w) && WaitingOk(p, w);
      assert IdleList(r, r.channels[w].key) <= IdleList(p, r.channels[w].key);
    }
  }

  /** Changing the status of a connection that is stored nowhere, or refreshing
      the time of an idle one, disturbs nothing. */
  lemma StatusKeeps(p: PoolState, c: Conn, st: Status)
    requires Inv(p) && c in p.status && (Unstored(p, c) || st.Idle?)
    ensures Inv(p.(status := p.status[c := st]))
  {
    var r := p.(status := p.status[c := st]);
    ListsKept(p, r);
    QueuesKept(p, r);
    ChannelsKept(p, r);
  }

  lemma SendKeeps(p: PoolState, k: Key, e: Entry, i: nat)
    requires Inv(p) && EntryOk(p, k, e) && Unstored(p, e.conn)
    requires k in p.parked && i < |p.parked[k]| && i == FirstLive(p.parked[k], p.channels)
    ensures Inv(p.(parked := Requeued(p.parked, k, p.parked[k][i + 1..]),
                   channels := p.channels[p.parked[k][i] := Sent(k, e)]))
  {
    var q := p.parked[k];
    var rest := q[i + 1..];
    var w0 := q[i];
    var r := p.(parked := Requeued(p.parked, k, rest), channels := p.channels[w0 := Sent(k, e)]);
    assert QueueOk(p, k);
    assert w0 !in rest;
    ListsKept(p, r);
    forall j | j in r.parked ensures QueueOk(r, j) {
      assert QueueOk(p, j);
      if j == k {
        assert forall w :: w in rest ==> w in q;
      } else {
        assert w0 !in p.parked[j];
      }
    }
    forall w | w in r.channels ensures SentOk(r, w) && WaitingOk(r, w) {
      if w != w0 {
        assert SentOk(p, w) && WaitingOk(p, w);
        if r.channels[w].Waiting? && r.channels[w].key == k {
          AfterFirstLive(q, p.channels, i, w);
        }
      }
    }
  }

  /** A live waiter other than the first live one stands behind it. */
  lemma AfterFirstLive(q: seq<Waiter>, channels: map<Waiter, Channel>, i: nat, w: Waiter)
    requires i == FirstLive(q, channels) && i < |q| && w in q && w != q[i] && Live(channels, w)
    ensures w in q[i + 1..]
  {
    var j :| 0 <= j < |q| && q[j] == w;
    assert j > i;
    assert q[i + 1..][j - i - 1] == w;
  }

  lemma StoreKeeps(p: PoolState, k: Key, e: Entry)
    requires Inv(p) && EntryOk(p, k, e) && Unstored(p, e.conn)
    requires k in p.parked ==> FirstLive(p.parked[k], p.channels) == |p.parked[k]|
    ensures Inv(p.(parked := p.parked - {k}, idle := p.idle[k := IdleList(p, k) + [e]]))
  {
    var r := p.(parked := p.parked - {k}, idle := p.idle[k := IdleList(p, k) + [e]]);
    forall j | j in r.idle ensures ListOk(r, j) {
      if j in p.idle {
        assert ListOk(p, j);
      }
      forall d | d in r.idle[j] ensures EntryOk(r, j, d) {
        if d != e {
          assert EntryOk(p, j, d);
        }
      }
    }
    QueuesKept(p, r);
    forall w | w in r.channels ensures SentOk(r, w) && WaitingOk(r, w) {
      assert SentOk(p, w) && WaitingOk(p, w);
    }
  }

  lemma PutKeeps(p: PoolState, k: Key, e: Entry)
    requires Inv(p) && EntryOk(p, k, e) && Unstored(p, e.conn)
    ensures Inv(Put(p, k, e))
  {
    if k in p.parked && FirstLive(p.parked[k], p.channels) < |p.parked[k]| {
      SendKeeps(p, k, e, FirstLive(p.parked[k], p.channels));
    } else {
      StoreKeeps(p, k, e);
      assert k !in p.parked ==> p.parked - {k} == p.parked;
    }
  }

  lemma GoIdleKeeps(p: PoolState, c: Conn, now: int)
    requires Inv(p) && c in p.status
    ensures Inv(GoIdle(p, c, now))
  {
    var p' := p.(status := p.status[c := Idle(now)]);
    StatusKeeps(p, c, Idle(now));
    if p.status[c].Busy? && p.enabled {
      BusyIsUnstored(p, c);
      PutKeeps(p', p.home[c], Entry(c, true));
    }
  }

  /** Taking entries off the end of an address's list, dropping the list if empty. */
  lemma ShortenKeeps(p: PoolState, k: Key, n: nat)
    requires Inv(p) && n <= |IdleList(p, k)|
    ensures Inv(p.(idle := Relisted(p.idle, k, IdleList(p, k)[..n])))
  {
    var r := p.(idle := Relisted(p.idle, k, IdleList(p, k)[..n]));
    ListsKept(p, r);
    QueuesKept(p, r);
    ChannelsKept(p, r);
  }

  lemma ForgetSentKeeps(p: PoolState, w: Waiter)
    requires Inv(p) && w in p.channels && p.channels[w].Sent?
    ensures Inv(p.(channels := p.channels - {w})) && Unstored(p.(channels := p.channels - {w}), p.channels[w].entry.conn)
  {
    var r := p.(channels := p.channels - {w});
    ListsKept(p, r);
    QueuesKept(p, r);
    ChannelsKept(p, r);
    assert SentOk(p, w);
    forall j, e | j in r.idle && e in r.idle[j] ensures e.conn != p.channels[w].entry.conn {
      assert ListOk(p, j) && EntryOk(p, j, e);
    }
  }

  /** What is popped is no longer stored. */
  lemma PoppedIsUnstored(p: PoolState, k: Key, n: nat)
    requires Inv(p) && n < |IdleList(p, k)|
    ensures Unstored(p.(idle := Relisted(p.idle, k, IdleList(p, k)[..n])), IdleList(p, k)[n].conn)
  {
    var es := IdleList(p, k);
    var r := p.(idle := Relisted(p.idle, k, es[..n]));
    assert ListOk(p, k) && EntryOk(p, k, es[n]);
    forall j, e | j in r.idle && e in r.idle[j] ensures e.conn != es[n].conn {
      if j == k {
        var i :| 0 <= i < n && es[i] == e;
      } else {
        assert ListOk(p, j) && EntryOk(p, j, e);
      }
    }
    forall w | w in r.channels && r.channels[w].Sent? ensures r.channels[w].entry.conn != es[n].conn {
      assert SentOk(p, w);
      if r.channels[w].key != k {
        assert p.home[r.channels[w].entry.conn] != k;
      }
    }
  }

  lemma ParkKeeps(p: PoolState, w: Waiter, k: Key)
    requires Inv(p) && k !in p.idle && w !in p.channels
    ensures Inv(p.(parked := p.parked[k := WaitList(p, k) + [w]],
                   channels := p.channels[w := Waiting(k)]))
  {
    var q := WaitList(p, k);
    var r := p.(parked := p.parked[k := q + [w]], channels := p.channels[w := Waiting(k)]);
    ListsKept(p, r);
    forall j | j in r.parked ensures QueueOk(r, j) {
      if j in p.parked {
        assert QueueOk(p, j);
        assert w !in p.parked[j];
      }
    }
    forall v | v in r.channels ensures SentOk(r, v) && WaitingOk(r, v) {
      if v != w {
        assert SentOk(p, v) && WaitingOk(p, v);
      } else {
        assert (q + [w])[|q|] == w;
      }
    }
  }

  lemma PollKeeps(p: PoolState, w: Waiter, k: Key, now: int)
    requires Inv(p)
    ensures Inv(Poll(p, w, k, now).0)
    ensures Poll(p, w, k, now).1.Ready? ==>
              var c := Poll(p, w, k, now).1.entry.conn;
              c in p.status && p.status[c].Idle?
  {
    var es := IdleList(p, k);
    var n := KeptTo(p, es, now);
    if w in p.channels && p.channels[w].Sent? {
      assert SentOk(p, w);
      ForgetSentKeeps(p, w);
      StatusKeeps(p.(channels := p.channels - {w}), p.channels[w].entry.conn, Busy);
    } else if n > 0 {
      assert ListOk(p, k) && EntryOk(p, k, es[n - 1]);
      ShortenKeeps(p, k, n - 1);
      PoppedIsUnstored(p, k, n - 1);
      StatusKeeps(p.(idle := Relisted(p.idle, k, es[..n - 1])), es[n - 1].conn, Busy);
    } else {
      ShortenKeeps(p, k, 0);
      assert Relisted(p.idle, k, es[..0]) == p.idle - {k};
      if w !in p.channels {
        ParkKeeps(p.(idle := p.idle - {k}), w, k);
      }
    }
  }

  lemma CancelKeeps(p: PoolState, w: Waiter)
    requires Inv(p)
    ensures Inv(Cancel(p, w))
  {
    if w in p.channels && p.channels[w].Sent? {
      ForgetSentKeeps(p, w);
    } else {
      var r := Cancel(p, w);
      ListsKept(p, r);
      QueuesKept(p, r);
      ChannelsKept(p, r);
    }
  }

  /** `pooled`: a new, busy connection that the pool does not store. */
  function Connect(p: PoolState, k: Key, c: Conn): (r: PoolState) {
    p.(status := p.status[c := Busy], home := p.home[c := k])
  }

  lemma ConnectKeeps(p: PoolState, k: Key, c: Conn)
    requires Inv(p) && c !in p.status
    ensures Inv(Connect(p, k, c))
  {
    var r := Connect(p, k, c);
    ListsKept(p, r);
    QueuesKept(p, r);
    ChannelsKept(p, r);
  }

  // ----- runs -----

  datatype Event = HandedOut(conn: Conn) | Returned(conn: Conn)

  /** The pool, the checkouts in progress, what has happened to connections, and the
      checkouts that have begun to wait, in that order. */
  datatype System = System(pool: PoolState, checkouts: map<Waiter, Key>, log: seq<Event>, arrivals: seq<Waiter>)

  datatype Step =
    | NewConnection(k: Key, c: Conn)
    | MakeIdle(c: Conn, now: int)
    | NewCheckout(w: Waiter, k: Key)
    | PollCheckout(w: Waiter, now: int)
    | DropCheckout(w: Waiter)
    | SetEnabled(on: bool)

  /** Connections and channels are created fresh; anything may call `idle` on a
      connection at any time, and only a checkout in progress is polled or dropped. */
  predicate Enabled(s: System, step: Step) {
    match step
    case NewConnection(k, c) => c !in s.pool.status
    case MakeIdle(c, now) => c in s.pool.status && c in s.pool.home
    case NewCheckout(w, k) => w !in s.checkouts && w !in s.pool.channels && w !in s.arrivals
    case PollCheckout(w, now) => w in s.checkouts
    case DropCheckout(w) => w in s.checkouts
    case SetEnabled(on) => true
  }

  function Apply(s: System, step: Step): (s': System)
    requires Enabled(s, step)
  {
    match step
    case NewConnection(k, c) => s.(pool := Connect(s.pool, k, c), log := s.log + [HandedOut(c)])
    case MakeIdle(c, now) =>
      s.(pool := GoIdle(s.pool, c, now), log := if s.pool.status[c].Idle? then s.log else s.log + [Returned(c)])
    case NewCheckout(w, k) => s.(checkouts := s.checkouts[w := k])
    case PollCheckout(w, now) =>
      var (p, polled) := Poll(s.pool, w, s.checkouts[w], now);
      if polled.Ready? then
        s.(pool := p, checkouts := s.checkouts - {w}, log := s.log + [HandedOut(polled.entry.conn)])
      else
        s.(pool := p, arrivals := if w in s.pool.channels then s.arrivals else s.arrivals + [w])
    case DropCheckout(w) => s.(pool := Cancel(s.pool, w), checkouts := s.checkouts - {w})
    case SetEnabled(on) => s.(pool := s.pool.(enabled := on))
  }

  predicate Next(s: System, s': System, step: Step) {
    Enabled(s, step) && s' == Apply(s, step)
  }

  predicate Init(s: System) {
    && s.pool.idle == map[] && s.pool.parked == map[] && s.pool.channels == map[]
    && s.pool.status == map[] && s.pool.home == map[] && s.checkouts == map[] && s.log == []
    && s.arrivals == []
  }

  predicate IsRun(run: seq<System>, steps: seq<Step>) {
    && |run| == |steps| + 1 && Init(run[0])
    && forall i :: 0 <= i < |steps| ==> Next(run[i], run[i + 1], steps[i])
  }

  /** The last thing that happened to a connection. */
  function Last(log: seq<Event>, c: Conn): (e: Option<Event>) {
    if log == [] then None
    else if log[|log| - 1].conn == c then Some(log[|log| - 1])
    else Last(log[..|log| - 1], c)
  }

  /** Between two handouts of a connection it was returned. */
  ghost predicate Alternating(log: seq<Event>) {
    forall i, j :: 0 <= i < j < |log| && log[i].HandedOut? && log[j] == log[i] ==>
                     exists k :: i < k < j && log[k] == Returned(log[i].conn)
  }

  /** The log says of each connection what its status says. */
  predicate LogAgrees(p: PoolState, log: seq<Event>, c: Conn) {
    Last(log, c) ==
    if c !in p.status then None else if p.status[c].Idle? then Some(Returned(c)) else Some(HandedOut(c))
  }

  ghost predicate SystemInv(s: System) {
    && Inv(s.pool) && Alternating(s.log)
    && (forall c :: LogAgrees(s.pool, s.log, c))
    && (forall w :: w in s.checkouts && w in s.pool.channels ==>
          s.pool.channels[w].key == s.checkouts[w] && !s.pool.channels[w].Cancelled?)
  }

  lemma LastSnoc(log: seq<Event>, e: Event, c: Conn)
    ensures Last(log + [e], c) == if e.conn == c then Some(e) else Last(log, c)
  {
    assert (log + [e])[..|log|] == log;
  }

  lemma {:induction false} ReturnedAfter(log: seq<Event>, i: nat, c: Conn)
    requires i < |log| && log[i] == HandedOut(c) && Last(log, c) == Some(Returned(c))
    ensures exists k :: i < k < |log| && log[k] == Returned(c)
  {
    if log[|log| - 1].conn != c {
      ReturnedAfter(log[..|log| - 1], i, c);
    } else {
      assert log[|log| - 1] == Returned(c);
    }
  }

  lemma HandOutAlternates(log: seq<Event>, c: Conn)
    requires Alternating(log) && (Last(log, c) == Some(Returned(c)) || Last(log, c) == None)
    ensures Alternating(log + [HandedOut(c)])
  {
    var log' := log + [HandedOut(c)];
    forall i, j | 0 <= i < j < |log'| && log'[i].HandedOut? && log'[j] == log'[i]
      ensures exists k :: i < k < j && log'[k] == Returned(log'[i].conn)
    {
      if j < |log| {
        var k :| i < k < j && log[k] == Returned(log[i].conn);
        assert log'[k] == Returned(log'[i].conn);
      } else {
        LastHappened(log, i);
        ReturnedAfter(log, i, c);
        var k :| i < k < |log| && log[k] == Returned(c);
        assert log'[k] == Returned(log'[i].conn);
      }
    }
  }

  lemma {:induction false} LastHappened(log: seq<Event>, i: nat)
    requires i < |log|
    ensures Last(log, log[i].conn).Some?
  {
    if i < |log| - 1 && log[|log| - 1].conn != log[i].conn {
      LastHappened(log[..|log| - 1], i);
    }
  }

  lemma ReturnAlternates(log: seq<Event>, c: Conn)
    requires Alternating(log)
    ensures Alternating(log + [Returned(c)])
  {
    var log' := log + [Returned(c)];
    forall i, j | 0 <= i < j < |log'| && log'[i].HandedOut? && log'[j] == log'[i]
      ensures exists k :: i < k < j && log'[k] == Returned(log'[i].conn)
    {
      var k :| i < k < j && log[k] == Returned(log[i].conn);
      assert log'[k] == Returned(log'[i].conn);
    }
  }

  /** One more event and a status to match keep the log in agreement. */
  lemma AgreesAfter(p: PoolState, p': PoolState, log: seq<Event>, e: Event, st: Status)
    requires forall c :: LogAgrees(p, log, c)
    requires p'.status == p.status[e.conn := st] && (e.Returned? <==> st.Idle?)
    ensures forall c :: LogAgrees(p', log + [e], c)
  {
    forall c ensures LogAgrees(p', log + [e], c) {
      assert LogAgrees(p, log, c);
      LastSnoc(log, e, c);
    }
  }

  lemma AgreesStill(p: PoolState, p': PoolState, log: seq<Event>)
    requires forall c :: LogAgrees(p, log, c)
    requires p'.status.Keys == p.status.Keys
    requires forall c :: c in p.status ==> (p'.status[c].Idle? <==> p.status[c].Idle?)
    ensures forall c :: LogAgrees(p', log, c)
  {
    forall c ensures LogAgrees(p', log, c) {
      assert LogAgrees(p, log, c);
    }
  }

  lemma MakeIdleKeeps(s: System, c: Conn, now: int)
    requires SystemInv(s) && Enabled(s, MakeIdle(c, now))
    ensures SystemInv(Apply(s, MakeIdle(c, now)))
  {
    var s' := Apply(s, MakeIdle(c, now));
    GoIdleKeeps(s.pool, c, now);
    if s.pool.status[c].Idle? {
      AgreesStill(s.pool, s'.pool, s.log);
    } else {
      AgreesAfter(s.pool, s'.pool, s.log, Returned(c), Idle(now));
      ReturnAlternates(s.log, c);
      GoIdleChannels(s.pool, c, now);
    }
  }

  /** `idle()` answers a waiting checkout or leaves the channels alone. */
  lemma GoIdleChannels(p: PoolState, c: Conn, now: int)
    requires Inv(p) && c in p.status
    ensures var p' := GoIdle(p, c, now);
            forall w :: w in p'.channels ==>
              w in p.channels && p'.channels[w].key == p.channels[w].key
              && (p'.channels[w] == p.channels[w] || (p.channels[w].Waiting? && p'.channels[w].Sent?))
  {
    var k := p.home[c];
    if p.status[c].Busy? && p.enabled && k in p.parked {
      assert QueueOk(p, k);
    }
  }

  lemma PollCheckoutKeeps(s: System, w: Waiter, now: int)
    requires SystemInv(s) && Enabled(s, PollCheckout(w, now))
    ensures SystemInv(Apply(s, PollCheckout(w, now)))
  {
    var s' := Apply(s, PollCheckout(w, now));
    var polled := Poll(s.pool, w, s.checkouts[w], now).1;
    PollKeeps(s.pool, w, s.checkouts[w], now);
    if polled.Ready? {
      var c := polled.entry.conn;
      assert LogAgrees(s.pool, s.log, c);
      AgreesAfter(s.pool, s'.pool, s.log, HandedOut(c), Busy);
      HandOutAlternates(s.log, c);
    } else {
      AgreesStill(s.pool, s'.pool, s.log);
    }
  }

  lemma StepKeeps(s: System, step: Step)
    requires SystemInv(s) && Enabled(s, step)
    ensures SystemInv(Apply(s, step))
  {
    var s' := Apply(s, step);
    match step
    case NewConnection(k, c) =>
      ConnectKeeps(s.pool, k, c);
      assert LogAgrees(s.pool, s.log, c);
      HandOutAlternates(s.log, c);
      AgreesAfter(s.pool, s'.pool, s.log, HandedOut(c), Busy);
    case MakeIdle(c, now) => MakeIdleKeeps(s, c, now);
    case NewCheckout(w, k) =>
    case PollCheckout(w, now) => PollCheckoutKeeps(s, w, now);
    case DropCheckout(w) =>
      CancelKeeps(s.pool, w);
      AgreesStill(s.pool, s'.pool, s.log);
    case SetEnabled(on) =>
      SetEnabledKeeps(s.pool, on);
      AgreesStill(s.pool, s'.pool, s.log);
  }

  lemma SetEnabledKeeps(p: PoolState, on: bool)
    requires Inv(p)
    ensures Inv(p.(enabled := on))
  {
    var r := p.(enabled := on);
    ListsKept(p, r);
    QueuesKept(p, r);
    ChannelsKept(p, r);
  }

  lemma {:induction false} RunInv(run: seq<System>, steps: seq<Step>, i: nat)
    requires IsRun(run, steps) && i < |run|
    ensures SystemInv(run[i])
  {
    if i > 0 {
      RunInv(run, steps, i - 1);
      assert Next(run[i - 1], run[i], steps[i - 1]);
      StepKeeps(run[i - 1], steps[i - 1]);
    }
  }

  /** What the pool keeps, spelled out: an address is not both idle and parked and
      no list or queue is empty; */
  predicate Tidy(p: PoolState) {
    && p.idle.Keys !! p.parked.Keys
    && (forall k :: k in p.idle ==> p.idle[k] != [])
    && (forall k :: k in p.parked ==> p.parked[k] != [])
  }

  /** a stored or sent connection is idle; */
  predicate AllIdle(p: PoolState) {
    && (forall k, n :: k in p.idle && 0 <= n < |p.idle[k]| ==>
          p.idle[k][n].conn in p.status && p.status[p.idle[k][n].conn].Idle?)
    && (forall w :: w in p.channels && p.channels[w].Sent? ==>
          p.channels[w].entry.conn in p.status && p.status[p.channels[w].entry.conn].Idle?)
  }

  /** and it is in one place only. */
  predicate AllOnce(p: PoolState) {
    && (forall j, k, m, n ::
          (j in p.idle && k in p.idle && 0 <= m < |p.idle[j]| && 0 <= n < |p.idle[k]| && (j != k || m != n)) ==>
            p.idle[j][m].conn != p.idle[k][n].conn)
    && (forall w, k, n :: w in p.channels && p.channels[w].Sent? && k in p.idle && 0 <= n < |p.idle[k]| ==>
          p.idle[k][n].conn != p.channels[w].entry.conn)
    && SentOnce(p)
  }

  lemma InvSaysIdle(p: PoolState)
    requires Inv(p)
    ensures Tidy(p) && AllIdle(p)
  {
    forall k | k in p.idle ensures p.idle[k] != [] {
      assert ListOk(p, k);
    }
    forall k, n | k in p.idle && 0 <= n < |p.idle[k]|
      ensures p.idle[k][n].conn in p.status && p.status[p.idle[k][n].conn].Idle?
    {
      assert ListOk(p, k) && EntryOk(p, k, p.idle[k][n]);
    }
  }

  lemma InvSaysOnce(p: PoolState)
    requires Inv(p)
    ensures AllOnce(p)
  {
    forall j, k, m, n |
      j in p.idle && k in p.idle && 0 <= m < |p.idle[j]| && 0 <= n < |p.idle[k]| && (j != k || m != n)
      ensures p.idle[j][m].conn != p.idle[k][n].conn
    {
      assert ListOk(p, j) && ListOk(p, k) && EntryOk(p, j, p.idle[j][m]) && EntryOk(p, k, p.idle[k][n]);
    }
    forall w, k, n | w in p.channels && p.channels[w].Sent? && k in p.idle && 0 <= n < |p.idle[k]|
      ensures p.idle[k][n].conn != p.channels[w].entry.conn
    {
      assert SentOk(p, w) && ListOk(p, k) && EntryOk(p, k, p.idle[k][n]);
    }
  }

  /** In every state of every run all of this holds, no checkout waits while a
      connection of its address is stored, and between any two handouts of a
      connection it was returned. */
  lemma PoolSafety(run: seq<System>, steps: seq<Step>, i: nat)
    requires IsRun(run, steps) && i < |run|
    ensures var p := run[i].pool;
            && Tidy(p) && AllIdle(p) && AllOnce(p)
            && (forall w :: w in p.channels && p.channels[w].Waiting? ==> p.channels[w].key !in p.idle)
    ensures Alternating(run[i].log)
  {
    RunInv(run, steps, i);
    InvSaysIdle(run[i].pool);
    InvSaysOnce(run[i].pool);
  }

  /** The connection is idle, and has not been for longer than the timeout. */
  predicate InTime(p: PoolState, c: Conn, now: int) {
    c in p.status && p.status[c].Idle? && (p.timeout.None? || now - p.status[c].at <= p.timeout.value)
  }

  /** A checkout that parked gets what was sent to it; otherwise it is handed the most
      recently stored connection that is idle and not expired, every later one being
      dropped; otherwise it waits, at the end of the queue of its address if it does not
      stand in it already. The queues do not change otherwise. */
  lemma PollOutcome(p: PoolState, w: Waiter, k: Key, now: int)
    requires Inv(p) && (w in p.channels ==> p.channels[w].key == k && !p.channels[w].Cancelled?)
    ensures var (p', polled) := Poll(p, w, k, now);
            if w in p.channels && p.channels[w].Sent? then
              && polled == Ready(Entry(p.channels[w].entry.conn, true))
              && p'.idle == p.idle && p'.parked == p.parked && p'.channels == p.channels - {w}
            else if exists n :: 0 <= n < |IdleList(p, k)| && InTime(p, IdleList(p, k)[n].conn, now) then
              exists n :: && 0 <= n < |IdleList(p, k)| && InTime(p, IdleList(p, k)[n].conn, now)
                          && polled == Ready(Entry(p.idle[k][n].conn, true)) && IdleList(p', k) == p.idle[k][..n]
                          && (forall m :: n < m < |p.idle[k]| ==> !InTime(p, p.idle[k][m].conn, now))
                          && p'.parked == p.parked && p'.channels == p.channels
            else
              && polled.NotReady? && k !in p'.idle
              && if w in p.channels then p'.parked == p.parked && p'.channels == p.channels && w in WaitList(p, k)
                 else p'.parked == p.parked[k := WaitList(p, k) + [w]] && p'.channels == p.channels[w := Waiting(k)]
  {
    var (p', polled) := Poll(p, w, k, now);
    var es := IdleList(p, k);
    var n := KeptTo(p, es, now);
    forall i | 0 <= i < |es|
      ensures EntryOk(p, k, es[i]) && (Usable(p, es[i], now) <==> InTime(p, es[i].conn, now))
    {
      assert ListOk(p, k) && EntryOk(p, k, es[i]);
    }
    if w in p.channels && p.channels[w].Sent? {
    } else if n > 0 {
      assert IdleList(p', k) == p.idle[k][..n - 1];
    } else if w in p.channels {
      assert WaitingOk(p, w);
    }
  }

  /** Storing or sending a returned connection: it goes to the first of the queue of its
      address that was not dropped, and the others stay in line; it is stored behind the
      others exactly when there is none. */
  lemma ReturnOutcome(p: PoolState, c: Conn, now: int)
    requires Inv(p) && c in p.status && p.status[c].Busy? && p.enabled
    ensures var p', k := GoIdle(p, c, now), p.home[c];
            if exists w :: w in p.channels && p.channels[w] == Waiting(k) then
              exists i :: k in p.parked && 0 <= i < |p.parked[k]|
                          && Live(p.channels, p.parked[k][i]) && (forall j :: 0 <= j < i ==> !Live(p.channels, p.parked[k][j]))
                          && p'.channels == p.channels[p.parked[k][i] := Sent(k, Entry(c, true))]
                          && WaitList(p', k) == p.parked[k][i + 1..] && p'.idle == p.idle
            else
              p'.channels == p.channels && p'.idle == p.idle[k := IdleList(p, k) + [Entry(c, true)]]
    ensures GoIdle(p, c, now).status == p.status[c := Idle(now)]
  {
    var k := p.home[c];
    if w :| w in p.channels && p.channels[w] == Waiting(k) {
      assert WaitingOk(p, w) && QueueOk(p, k);
      var i := FirstLive(p.parked[k], p.channels);
      assert i < |p.parked[k]| && Live(p.channels, p.parked[k][i]);
    } else if k in p.parked {
      assert QueueOk(p, k);
    }
  }

  /** A connection that is idle already, or returned to a pool that is switched off, is
      neither stored nor sent. */
  lemma NotStored(p: PoolState, c: Conn, now: int)
    requires c in p.status && c in p.home && (p.status[c].Idle? || !p.enabled)
    ensures GoIdle(p, c, now) == p.(status := p.status[c := Idle(now)])
  {
  }

  // ----- first come, first served -----

  /** When a checkout began to wait. */
  function Rank(arrivals: seq<Waiter>, w: Waiter): (r: nat)
    ensures r < |arrivals| <==> w in arrivals
    ensures r <= |arrivals| && (r < |arrivals| ==> arrivals[r] == w)
  {
    if arrivals == [] || arrivals[0] == w then 0 else 1 + Rank(arrivals[1..], w)
  }

  lemma {:induction false} RankSnoc(arrivals: seq<Waiter>, w: Waiter, v: Waiter)
    ensures v in arrivals ==> Rank(arrivals + [w], v) == Rank(arrivals, v)
    ensures v !in arrivals && v == w ==> Rank(arrivals + [w], v) == |arrivals|
  {
    if arrivals != [] && arrivals[0] != v {
      RankSnoc(arrivals[1..], w, v);
      assert (arrivals + [w])[1..] == arrivals[1..] + [w];
    }
  }

  /** All have begun to wait, in this order. */
  predicate InLine(arrivals: seq<Waiter>, q: seq<Waiter>) {
    && (forall i :: 0 <= i < |q| ==> q[i] in arrivals)
    && (forall i, j :: 0 <= i < j < |q| ==> Rank(arrivals, q[i]) < Rank(arrivals, q[j]))
  }

  predicate AllInLine(s: System) {
    && (forall w :: w in s.pool.channels ==> w in s.arrivals)
    && (forall k :: k in s.pool.parked ==> InLine(s.arrivals, s.pool.parked[k]))
    && (forall w :: w in s.checkouts && w !in s.pool.channels ==> w !in s.arrivals)
    && (forall w :: w in s.pool.channels && !s.pool.channels[w].Cancelled? ==> w in s.checkouts)
  }

  lemma LineRest(arrivals: seq<Waiter>, q: seq<Waiter>, n: nat)
    requires InLine(arrivals, q) && n <= |q|
    ensures InLine(arrivals, q[n..])
  {
    assert forall i :: 0 <= i < |q[n..]| ==> q[n..][i] == q[n + i];
  }

  lemma LineGrows(arrivals: seq<Waiter>, q: seq<Waiter>, w: Waiter)
    requires InLine(arrivals, q) && w !in arrivals
    ensures InLine(arrivals + [w], q) && InLine(arrivals + [w], q + [w])
  {
    forall v
      ensures v in arrivals ==> Rank(arrivals + [w], v) == Rank(arrivals, v)
      ensures v == w ==> Rank(arrivals + [w], v) == |arrivals|
    {
      RankSnoc(arrivals, w, v);
    }
  }

  lemma IdleKeepsLine(s: System, c: Conn, now: int)
    requires SystemInv(s) && AllInLine(s) && Enabled(s, MakeIdle(c, now))
    ensures AllInLine(Apply(s, MakeIdle(c, now)))
  {
    var s', k := Apply(s, MakeIdle(c, now)), s.pool.home[c];
    GoIdleChannels(s.pool, c, now);
    if s.pool.status[c].Busy? && s.pool.enabled && k in s.pool.parked {
      var q := s.pool.parked[k];
      assert QueueOk(s.pool, k);
      var i := FirstLive(q, s.pool.channels);
      if i < |q| {
        LineRest(s.arrivals, q, i + 1);
      }
    }
  }

  lemma PollKeepsLine(s: System, w: Waiter, now: int)
    requires SystemInv(s) && AllInLine(s) && Enabled(s, PollCheckout(w, now))
    ensures AllInLine(Apply(s, PollCheckout(w, now)))
  {
    var s', k := Apply(s, PollCheckout(w, now)), s.checkouts[w];
    PollOutcome(s.pool, w, k, now);
    if w in s.pool.channels && s.pool.channels[w].Waiting? {
      assert WaitingOk(s.pool, w);
      assert IdleList(s.pool, k) == [];
    }
    if s'.arrivals != s.arrivals {
      assert InLine(s.arrivals, WaitList(s.pool, k));
      LineGrows(s.arrivals, WaitList(s.pool, k), w);
      forall j | j in s'.pool.parked
        ensures InLine(s'.arrivals, s'.pool.parked[j])
      {
        if j != k {
          LineGrows(s.arrivals, s.pool.parked[j], w);
        }
      }
    }
  }

  lemma StepKeepsLine(s: System, step: Step)
    requires SystemInv(s) && AllInLine(s) && Enabled(s, step)
    ensures AllInLine(Apply(s, step))
  {
    match step
    case MakeIdle(c, now) => IdleKeepsLine(s, c, now);
    case PollCheckout(w, now) => PollKeepsLine(s, w, now);
    case _ =>
  }

  lemma {:induction false} RunInLine(run: seq<System>, steps: seq<Step>, i: nat)
    requires IsRun(run, steps) && i < |run|
    ensures AllInLine(run[i])
  {
    if i > 0 {
      RunInv(run, steps, i - 1);
      RunInLine(run, steps, i - 1);
      assert Next(run[i - 1], run[i], steps[i - 1]);
      StepKeepsLine(run[i - 1], steps[i - 1]);
    }
  }

  /** The checkout waits for a connection of the address. */
  predicate WaitsFor(s: System, w: Waiter, k: Key) {
    w in s.pool.channels && s.pool.channels[w] == Waiting(k)
  }

  /** It is still in progress and began to wait before all others of the address. */
  ghost predicate IsEarliest(s: System, v: Waiter, k: Key) {
    && WaitsFor(s, v, k) && v in s.checkouts
    && forall u :: WaitsFor(s, u, k) && u != v ==> Rank(s.arrivals, v) < Rank(s.arrivals, u)
  }

  lemma StandsInLine(s: System, k: Key, u: Waiter) returns (m: nat)
    requires SystemInv(s) && WaitsFor(s, u, k)
    ensures k in s.pool.parked && m < |s.pool.parked[k]| && s.pool.parked[k][m] == u
  {
    assert WaitingOk(s.pool, u);
    m :| 0 <= m < |s.pool.parked[k]| && s.pool.parked[k][m] == u;
  }

  lemma FirstIsEarliest(s: System, k: Key, w: Waiter) returns (n: nat)
    requires SystemInv(s) && AllInLine(s) && WaitsFor(s, w, k)
    ensures k in s.pool.parked && n == FirstLive(s.pool.parked[k], s.pool.channels) < |s.pool.parked[k]|
    ensures IsEarliest(s, s.pool.parked[k][n], k)
  {
    var m := StandsInLine(s, k, w);
    var q := s.pool.parked[k];
    assert QueueOk(s.pool, k) && InLine(s.arrivals, q);
    n := FirstLive(q, s.pool.channels);
    assert Live(s.pool.channels, q[m]);
    assert q[n] in q;
    forall u | WaitsFor(s, u, k) && u != q[n]
      ensures Rank(s.arrivals, q[n]) < Rank(s.arrivals, u)
    {
      var l := StandsInLine(s, k, u);
      assert Live(s.pool.channels, q[l]);
    }
  }

  lemma ReturnedTo(p: PoolState, c: Conn, now: int, n: nat)
    requires c in p.status && c in p.home && p.status[c].Busy? && p.enabled && p.home[c] in p.parked
    requires n == FirstLive(p.parked[p.home[c]], p.channels) < |p.parked[p.home[c]]|
    ensures GoIdle(p, c, now).channels == p.channels[p.parked[p.home[c]][n] := Sent(p.home[c], Entry(c, true))]
  {
  }

  /** In every run a returned connection goes to the checkout of its address that is
      still in progress and began to wait before all others, and to no other. */
  lemma FirstComeFirstServed(run: seq<System>, steps: seq<Step>, i: nat, w: Waiter) returns (v: Waiter)
    requires IsRun(run, steps) && i < |steps| && steps[i].MakeIdle? && Enabled(run[i], steps[i])
    requires run[i].pool.enabled && run[i].pool.status[steps[i].c].Busy?
    requires WaitsFor(run[i], w, run[i].pool.home[steps[i].c])
    ensures var s, k := run[i], run[i].pool.home[steps[i].c];
            && IsEarliest(s, v, k)
            && run[i + 1].pool.channels == s.pool.channels[v := Sent(k, Entry(steps[i].c, true))]
  {
    var s, c := run[i], steps[i].c;
    RunInv(run, steps, i);
    RunInLine(run, steps, i);
    assert Next(s, run[i + 1], steps[i]);
    var n := FirstIsEarliest(s, s.pool.home[c], w);
    ReturnedTo(s.pool, c, steps[i].now, n);
    v := s.pool.parked[s.pool.home[c]][n];
  }

  // ----- how long a connection has been idle -----

  /** In every run an idle connection has been idle since the last time it was said to
      be, and was not handed out since. */
  lemma {:induction false} IdleSince(run: seq<System>, steps: seq<Step>, i: nat, c: Conn) returns (j: nat)
    requires IsRun(run, steps) && i < |run| && c in run[i].pool.status && run[i].pool.status[c].Idle?
    ensures j < i && steps[j] == MakeIdle(c, run[i].pool.status[c].at)
    ensures forall n :: j < n < i ==> !(steps[n].MakeIdle? && steps[n].c == c)
    ensures forall n :: j < n <= i ==> c in run[n].pool.status && run[n].pool.status[c].Idle?
  {
    assert i > 0;
    j := i - 1;
    var step := steps[j];
    assert Next(run[j], run[i], step);
    if !(step.MakeIdle? && step.c == c) {
      StatusStays(run[j], step, c);
      j := IdleSince(run, steps, i - 1, c);
    }
  }

  /** A poll changes no status but that of the connection it hands out. */
  lemma PollStatus(p: PoolState, w: Waiter, k: Key, now: int)
    ensures var (p', polled) := Poll(p, w, k, now);
            p'.status == if polled.Ready? then p.status[polled.entry.conn := Busy] else p.status
  {
  }

  lemma PutStatus(p: PoolState, k: Key, e: Entry)
    ensures Put(p, k, e).status == p.status
  {
  }

  lemma StatusStays(s: System, step: Step, c: Conn)
    requires Enabled(s, step) && !(step.MakeIdle? && step.c == c)
    requires c in Apply(s, step).pool.status && Apply(s, step).pool.status[c].Idle?
    ensures c in s.pool.status && Apply(s, step).pool.status[c] == s.pool.status[c]
  {
    match step
    case PollCheckout(w, now) => PollStatus(s.pool, w, s.checkouts[w], now);
    case MakeIdle(d, now) => PutStatus(s.pool.(status := s.pool.status[d := Idle(now)]), s.pool.home[d], Entry(d, true));
    case _ =>
  }

  /** So in every run a connection that a poll takes from storage was returned no longer
      ago than the timeout, and has not been handed out since. */
  lemma HandedOutInTime(run: seq<System>, steps: seq<Step>, i: nat) returns (c: Conn, j: nat)
    requires IsRun(run, steps) && i < |steps| && steps[i].PollCheckout? && Enabled(run[i], steps[i])
    requires var w := steps[i].w; !(w in run[i].pool.channels && run[i].pool.channels[w].Sent?)
    requires steps[i].w !in run[i + 1].checkouts
    ensures run[i + 1].log == run[i].log + [HandedOut(c)] && j < i && steps[j].MakeIdle? && steps[j].c == c
    ensures run[i].pool.timeout.Some? ==> steps[i].now - steps[j].now <= run[i].pool.timeout.value
    ensures forall n :: j < n <= i ==> c in run[n].pool.status && run[n].pool.status[c].Idle?
  {
    RunInv(run, steps, i);
    var s, w := run[i], steps[i].w;
    assert Next(s, run[i + 1], steps[i]);
    c := TakenInTime(s.pool, w, s.checkouts[w], steps[i].now);
    j := IdleSince(run, steps, i, c);
  }

  lemma TakenInTime(p: PoolState, w: Waiter, k: Key, now: int) returns (c: Conn)
    requires Poll(p, w, k, now).1.Ready? && !(w in p.channels && p.channels[w].Sent?)
    ensures c == Poll(p, w, k, now).1.entry.conn && InTime(p, c, now)
  {
    c := Poll(p, w, k, now).1.entry.conn;
    assert Usable(p, IdleList(p, k)[KeptTo(p, IdleList(p, k), now) - 1], now);
  }

  // ----- the pool itself -----

  /** The pool, updated in place; `channels` and `status` are the cells that its
      waiters and handles share. */
  class ConnectionPool {
    var enabled: bool
    const timeout: Option<int>
    var idle: map<Key, seq<Entry>>
    var parked: map<Key, seq<Waiter>>
    var channels: map<Waiter, Channel>
    var status: map<Conn, Status>
    var home: map<Conn, Key>

    constructor (timeout: int)
      ensures State() == PoolState(true, Some(timeout), map[], map[], map[], map[], map[])
    {
      enabled, this.timeout := true, Some(timeout);
      idle, parked, channels, status, home := map[], map[], map[], map[], map[];
    }

    function State(): (p: PoolState)
      reads this
    {
      PoolState(enabled, timeout, idle, parked, channels, status, home)
    }

    method Pooled(k: Key, c: Conn)
      requires c !in status
      modifies this
      ensures State() == Connect(old(State()), k, c)
    {
      status, home := status[c := Busy], home[c := k];
    }

    method PutEntry(k: Key, e: Entry)
      modifies this
      ensures State() == Put(old(State()), k, e)
    {
      var entry := Some(e);
      if k in parked {
        var q := parked[k];
        ghost var i := 0;
        while q != [] && entry.Some?
          invariant i <= |old(parked)[k]| && q == old(parked)[k][i..]
          invariant entry.Some? ==> channels == old(channels) && entry.value == e
                                    && FirstLive(old(parked)[k], channels) == i + FirstLive(q, channels)
          invariant entry.None? ==> FirstLive(old(parked)[k], old(channels)) == i - 1 && i > 0
                                    && channels == old(channels)[old(parked)[k][i - 1] := Sent(k, e)]
          invariant enabled == old(enabled) && idle == old(idle) && status == old(status)
                    && home == old(home) && parked == old(parked)
          decreases |q|
        {
          var w := q[0];
          if w in channels && channels[w].Waiting? {
            channels := channels[w := Sent(k, e)];
            entry := None;
          }
          q := q[1..];
          i := i + 1;
        }
        parked := if q == [] then parked - {k} else parked[k := q];
      }
      if entry.Some? {
        idle := idle[k := (if k in idle then idle[k] else []) + [e]];
      }
    }

    method MakeIdle(c: Conn, now: int)
      requires c in status && c in home
      modifies this
      ensures State() == GoIdle(old(State()), c, now)
    {
      var previous := status[c];
      status := status[c := Idle(now)];
      if previous.Busy? && enabled {
        PutEntry(home[c], Entry(c, true));
      }
    }

    /** Pops the address's idle entries until one can be used. */
    method PopUsable(k: Key, now: int) returns (found: Option<Entry>)
      modifies this`idle
      ensures var p := old(State());
              var es := IdleList(p, k);
              var n := KeptTo(p, es, now);
              if n > 0 then found == Some(es[n - 1]) && idle == Relisted(p.idle, k, es[..n - 1])
              else found == None && idle == p.idle - {k}
    {
      found := None;
      if k in idle {
        var list := idle[k];
        while list != [] && found.None?
          invariant found.None? ==> list <= old(idle)[k]
                                    && KeptTo(old(State()), list, now) == KeptTo(old(State()), old(idle)[k], now)
          invariant found.Some? ==>
                      var n := KeptTo(old(State()), old(idle)[k], now);
                      n > 0 && found.value == old(idle)[k][n - 1] && list == old(idle)[k][..n - 1]
          invariant idle == old(idle)
          decreases |list|, found.None?
        {
          var e := list[|list| - 1];
          list := list[..|list| - 1];
          if e.conn in status && status[e.conn].Idle? &&
             !(timeout.Some? && now - timeout.value > status[e.conn].at)
          {
            found := Some(e);
          }
        }
        idle := if list == [] then idle - {k} else idle[k := list];
      }
    }

    method PollCheckout(w: Waiter, k: Key, now: int) returns (polled: Polled)
      modifies this
      ensures (State(), polled) == Poll(old(State()), w, k, now)
    {
      if w in channels && channels[w].Sent? {
        var e := channels[w].entry;
        channels := channels - {w};
        status := status[e.conn := Busy];
        return Ready(e.(reused := true));
      }
      var found := PopUsable(k, now);
      if found.Some? {
        status := status[found.value.conn := Busy];
        polled := Ready(found.value.(reused := true));
      } else {
        if w !in channels {
          parked := parked[k := (if k in parked then parked[k] else []) + [w]];
          channels := channels[w := Waiting(k)];
        }
        polled := NotReady;
      }
    }
  }
}
