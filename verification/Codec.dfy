/** The framing codec: requests are length-prefixed and remembered in order, and
    responses are cut from the stream as they complete and parsed for the oldest
    request unanswered. The response parsers are a parameter. */
module Codec {
  import opened Wire
  import opened Layout
  import opened MessageSet
  import opened Requests

  /** What is remembered of a request until its response arrives. */
  datatype Pending = Pending(apiKey: int, version: int, correlation: int)

  /** The outcome of parsing a response: a response, a request for more input, or
      an error. */
  datatype Answer<R> = Response(response: R) | Unfinished | Malformed

  type Parser<!R> = (Bytes, int, int) -> Answer<R>

  datatype Failure = UnexpectedResponse | CorrelationMismatch | ParseFailure | ShortFrame

  datatype Decoded<R> = Nothing | Emit(response: R) | Fail(why: Failure)

  // ----- decoding -----

  /** A whole frame is buffered. */
  predicate Complete(src: Bytes) {
    |src| >= 4 && 0 <= ParseI32(src).value <= |src| - 4
  }

  function FrameEnd(src: Bytes): (n: nat)
    requires Complete(src)
    ensures 4 <= n <= |src|
  {
    4 + ParseI32(src).value
  }

  function Payload(src: Bytes): (b: Bytes)
    requires Complete(src)
  {
    src[4..FrameEnd(src)]
  }

  /** The first request is popped and the frame is parsed for it; a frame without
      room for a correlation id makes the source panic. */
  function Handle<R>(parse: Parser<R>, q: seq<Pending>, payload: Bytes): (r: (seq<Pending>, Decoded<R>)) {
    if q == [] then (q, Fail(UnexpectedResponse))
    else if |payload| < 4 then (q[1..], Fail(ShortFrame))
    else if ParseI32(payload).value != q[0].correlation then (q[1..], Fail(CorrelationMismatch))
    else
      match parse(payload, q[0].apiKey, q[0].version)
      case Response(x) => (q[1..], Emit(x))
      case Unfinished => (q[1..], Nothing)
      case Malformed => (q[1..], Fail(ParseFailure))
  }

  /** `decode`: one call on the buffer. */
  function Decode<R>(parse: Parser<R>, q: seq<Pending>, src: Bytes): (r: (seq<Pending>, Bytes, Decoded<R>)) {
    if !Complete(src) then (q, src, Nothing)
    else
      var (q', d) := Handle(parse, q, Payload(src));
      (q', src[FrameEnd(src)..], d)
  }

  /** The reading side of a connection. */
  datatype Reader<R> = Reader(requests: seq<Pending>, buffer: Bytes, out: seq<R>, failed: bool)

  /** Calls `decode` until it has nothing to give or fails. */
  function Drive<R>(parse: Parser<R>, r: Reader<R>): (r': Reader<R>)
    decreases |r.buffer|
  {
    if r.failed || !Complete(r.buffer) then r
    else
      var (q, src, d) := Decode(parse, r.requests, r.buffer);
      match d
      case Emit(x) => Drive(parse, Reader(q, src, r.out + [x], false))
      case Nothing => Reader(q, src, r.out, false)
      case Fail(_) => Reader(q, src, r.out, true)
  }

  /** The last call consumed a frame and still gave nothing, because its response
      asked for more input. */
  predicate Stalls<R>(parse: Parser<R>, r: Reader<R>)
    decreases |r.buffer|
  {
    !r.failed && Complete(r.buffer) &&
    var (q, src, d) := Decode(parse, r.requests, r.buffer);
    d.Nothing? || (d.Emit? && Stalls(parse, Reader(q, src, r.out + [d.response], false)))
  }

  function More<R>(r: Reader<R>, b: Bytes): (r': Reader<R>) {
    r.(buffer := r.buffer + b)
  }

  function Feed<R>(parse: Parser<R>, r: Reader<R>, chunk: Bytes): (r': Reader<R>) {
    Drive(parse, More(r, chunk))
  }

  function FeedAll<R>(parse: Parser<R>, r: Reader<R>, chunks: seq<Bytes>): (r': Reader<R>)
    decreases |chunks|
  {
    if chunks == [] then r else FeedAll(parse, Feed(parse, r, chunks[0]), chunks[1..])
  }

  function Concat(chunks: seq<Bytes>): (b: Bytes) {
    if chunks == [] then [] else chunks[0] + Concat(chunks[1..])
  }

  // ----- chunk independence -----

  lemma CompleteExtends(a: Bytes, b: Bytes)
    requires Complete(a)
    ensures Complete(a + b) && FrameEnd(a + b) == FrameEnd(a) && Payload(a + b) == Payload(a)
    ensures (a + b)[FrameEnd(a)..] == a[FrameEnd(a)..] + b
  {
    assert (a + b)[..4] == a[..4];
  }

  /** Driving on more input is driving first and adding the input then, unless the
      first drive stalled: then the input waits behind it. */
  lemma {:induction false} DriveExtends<R>(parse: Parser<R>, r: Reader<R>, b: Bytes)
    ensures Drive(parse, More(r, b))
         == (if Stalls(parse, r) then More(Drive(parse, r), b) else Drive(parse, More(Drive(parse, r), b)))
    ensures Stalls(parse, More(r, b)) == (Stalls(parse, r) || Stalls(parse, More(Drive(parse, r), b)))
    decreases |r.buffer|
  {
    if !r.failed && Complete(r.buffer) {
      CompleteExtends(r.buffer, b);
      var (q, src, d) := Decode(parse, r.requests, r.buffer);
      if d.Emit? {
        DriveExtends(parse, Reader(q, src, r.out + [d.response], false), b);
      }
    }
  }

  lemma {:induction false} DriveSettles<R>(parse: Parser<R>, r: Reader<R>)
    requires !Stalls(parse, r)
    ensures var d := Drive(parse, r); d.failed || !Complete(d.buffer)
    decreases |r.buffer|
  {
    if !r.failed && Complete(r.buffer) {
      var (q, src, d) := Decode(parse, r.requests, r.buffer);
      if d.Emit? {
        DriveSettles(parse, Reader(q, src, r.out + [d.response], false));
      }
    }
  }

  /** Read at once, the stream leaves a whole frame behind a stalled one. */
  predicate Stuck<R>(parse: Parser<R>, r: Reader<R>, stream: Bytes) {
    Stalls(parse, More(r, stream)) && Complete(Drive(parse, More(r, stream)).buffer)
  }

  lemma PartComplete(a: Bytes, b: Bytes)
    requires !Complete(a + b)
    ensures !Complete(a)
  {
    if Complete(a) {
      CompleteExtends(a, b);
    }
  }

  lemma MoreMore<R>(r: Reader<R>, a: Bytes, b: Bytes)
    ensures More(More(r, a), b) == More(r, a + b) && More(r, []) == r
  {
    Assoc(r.buffer, a, b);
    assert r.buffer + [] == r.buffer;
  }

  lemma {:induction false} FedInChunks<R>(parse: Parser<R>, r: Reader<R>, chunks: seq<Bytes>)
    requires (r.failed || !Complete(r.buffer)) && !Stuck(parse, r, Concat(chunks))
    ensures FeedAll(parse, r, chunks) == Drive(parse, More(r, Concat(chunks)))
    decreases |chunks|
  {
    if chunks == [] {
      MoreMore(r, [], []);
    } else {
      var c, s := chunks[0], Concat(chunks[1..]);
      var r1 := Feed(parse, r, c);
      MoreMore(r, c, s);
      DriveExtends(parse, More(r, c), s);
      if Stalls(parse, More(r, c)) {
        PartComplete(r1.buffer, s);
      } else {
        DriveSettles(parse, More(r, c));
      }
      FedInChunks(parse, r1, chunks[1..]);
    }
  }

  lemma TrimmedFrame(src: Bytes, n: nat)
    requires Complete(src) && FrameEnd(src) <= n <= |src|
    ensures Complete(src[..n]) && FrameEnd(src[..n]) == FrameEnd(src) && Payload(src[..n]) == Payload(src)
  {
    assert src[..n][..4] == src[..4];
  }

  /** The frame in front decodes the same whatever follows it. */
  lemma FrontFrame<R>(parse: Parser<R>, q: seq<Pending>, src: Bytes) returns (front: Bytes)
    requires Complete(src)
    ensures src == front + Decode(parse, q, src).1
    ensures forall tail :: Complete(front + tail)
                           && Decode(parse, q, front + tail) == (Decode(parse, q, src).0, tail, Decode(parse, q, src).2)
  {
    var end := FrameEnd(src);
    front := src[..end];
    TrimmedFrame(src, end);
    forall tail
      ensures Complete(front + tail)
      ensures Decode(parse, q, front + tail) == (Decode(parse, q, src).0, tail, Decode(parse, q, src).2)
    {
      CompleteExtends(front, tail);
      assert front[end..] + tail == tail;
    }
  }

  lemma DriveEmits<R>(parse: Parser<R>, r: Reader<R>)
    requires !r.failed && Complete(r.buffer)
    ensures var (q, src, d) := Decode(parse, r.requests, r.buffer);
            && |src| < |r.buffer|
            && (d.Nothing? ==> Stalls(parse, r) && Drive(parse, r) == Reader(q, src, r.out, false))
            && (d.Fail? ==> !Stalls(parse, r) && Drive(parse, r) == Reader(q, src, r.out, true))
            && (d.Emit? ==>
                  var r' := Reader(q, src, r.out + [d.response], false);
                  Drive(parse, r) == Drive(parse, r') && (Stalls(parse, r) <==> Stalls(parse, r')))
  {
  }

  /** A stalled drive does the same on exactly the bytes it consumed. */
  lemma {:induction false} StallTrimmed<R>(parse: Parser<R>, r: Reader<R>) returns (used: Bytes)
    requires Stalls(parse, r)
    ensures var d := Drive(parse, r);
            && !d.failed && r.buffer == used + d.buffer
            && Drive(parse, r.(buffer := used)) == d.(buffer := [])
    decreases |r.buffer|
  {
    var (q, src, x) := Decode(parse, r.requests, r.buffer);
    DriveEmits(parse, r);
    var front := FrontFrame(parse, r.requests, r.buffer);
    var more := [];
    if x.Emit? {
      more := StallTrimmed(parse, Reader(q, src, r.out + [x.response], false));
      Assoc(front, more, Drive(parse, r).buffer);
    }
    used := front + more;
    DriveEmits(parse, r.(buffer := used));
    assert front + [] == front;
  }

  lemma {:induction false} DriveShrinks<R>(parse: Parser<R>, r: Reader<R>)
    ensures |Drive(parse, r).buffer| <= |r.buffer|
    ensures !r.failed && Complete(r.buffer) ==> |Drive(parse, r).buffer| < |r.buffer|
    decreases |r.buffer|
  {
    if !r.failed && Complete(r.buffer) {
      var (q, src, d) := Decode(parse, r.requests, r.buffer);
      if d.Emit? {
        DriveShrinks(parse, Reader(q, src, r.out + [d.response], false));
      }
    }
  }

  /** Every way of splitting the stream gives what reading it at once gives, if and
      only if reading it at once leaves no whole frame behind a stalled one. */
  lemma ChunkIndependence<R>(parse: Parser<R>, r: Reader<R>, stream: Bytes)
    requires r.buffer == [] && !r.failed
    ensures (forall chunks :: Concat(chunks) == stream ==> FeedAll(parse, r, chunks) == Feed(parse, r, stream))
       <==> !Stuck(parse, r, stream)
  {
    if !Stuck(parse, r, stream) {
      forall chunks | Concat(chunks) == stream ensures FeedAll(parse, r, chunks) == Feed(parse, r, stream) {
        FedInChunks(parse, r, chunks);
      }
    } else {
      var chunks := StuckSplit(parse, r, stream);
      assert Concat(chunks) == stream;
    }
  }

  lemma TwoChunks<R>(parse: Parser<R>, r: Reader<R>, a: Bytes, b: Bytes)
    ensures Concat([a, b]) == a + b
    ensures FeedAll(parse, r, [a, b]) == Feed(parse, Feed(parse, r, a), b)
  {
    assert [a, b][1..] == [b] && [b][1..] == [];
    assert Concat([b]) == b + [];
    assert FeedAll(parse, Feed(parse, r, a), [b]) == FeedAll(parse, Feed(parse, Feed(parse, r, a), b), []);
  }

  /** Cutting right behind the stalled frame lets the frames after it through. */
  lemma StuckSplit<R>(parse: Parser<R>, r: Reader<R>, stream: Bytes) returns (chunks: seq<Bytes>)
    requires r.buffer == [] && !r.failed && Stuck(parse, r, stream)
    ensures Concat(chunks) == stream && FeedAll(parse, r, chunks) != Feed(parse, r, stream)
  {
    var d := Feed(parse, r, stream);
    var a := FirstPart(parse, r, stream);
    chunks := [a, d.buffer];
    TwoChunks(parse, r, a, d.buffer);
    assert More(d.(buffer := []), d.buffer) == d;
    DriveShrinks(parse, d);
  }

  lemma FirstPart<R>(parse: Parser<R>, r: Reader<R>, stream: Bytes) returns (a: Bytes)
    requires r.buffer == [] && Stalls(parse, More(r, stream))
    ensures var d := Feed(parse, r, stream);
            !d.failed && a + d.buffer == stream && Feed(parse, r, a) == d.(buffer := [])
  {
    assert [] + stream == stream;
    a := StallTrimmed(parse, More(r, stream));
    assert [] + a == a;
  }

  // ----- pairing -----

  function Frame(payload: Bytes): (b: Bytes) {
    I32Bytes(|payload|) + payload
  }

  function Stream(payloads: seq<Bytes>): (b: Bytes) {
    if payloads == [] then [] else Frame(payloads[0]) + Stream(payloads[1..])
  }

  predicate WellFormed(payload: Bytes) {
    4 <= |payload| <= I32_MAX
  }

  lemma FrameDecodes(payload: Bytes, rest: Bytes)
    requires WellFormed(payload)
    ensures var src := Frame(payload) + rest;
            Complete(src) && FrameEnd(src) == 4 + |payload| && Payload(src) == payload && src[FrameEnd(src)..] == rest
  {
    Assoc(I32Bytes(|payload|), payload, rest);
    I32RoundTrip(|payload|, payload + rest);
    var src := I32Bytes(|payload|) + (payload + rest);
    assert src[4..4 + |payload|] == payload && src[4 + |payload|..] == rest;
  }

  /** The response is what the parsers make of the payload for that request. */
  ghost predicate Answers<R>(parse: Parser<R>, p: Pending, payload: Bytes, x: R) {
    && |payload| >= 4 && ParseI32(payload).value == p.correlation
    && parse(payload, p.apiKey, p.version) == Response(x)
  }

  /** The k-th response answers the k-th request with the k-th payload. */
  ghost predicate AllAnswer<R>(parse: Parser<R>, q: seq<Pending>, payloads: seq<Bytes>, xs: seq<R>) {
    && |xs| <= |q| && |xs| <= |payloads|
    && forall k :: 0 <= k < |xs| ==> Answers(parse, q[k], payloads[k], xs[k])
  }

  lemma AllAnswerCons<R>(parse: Parser<R>, q: seq<Pending>, payloads: seq<Bytes>, x: R, xs: seq<R>)
    requires q != [] && payloads != [] && Answers(parse, q[0], payloads[0], x)
    requires AllAnswer(parse, q[1..], payloads[1..], xs)
    ensures AllAnswer(parse, q, payloads, [x] + xs)
  {
    forall k | 0 <= k < |[x] + xs| ensures Answers(parse, q[k], payloads[k], ([x] + xs)[k]) {
      if k > 0 {
        assert Answers(parse, q[1..][k - 1], payloads[1..][k - 1], xs[k - 1]);
      }
    }
  }

  lemma DecodeFrame<R>(parse: Parser<R>, q: seq<Pending>, payload: Bytes, rest: Bytes)
    requires WellFormed(payload)
    ensures var (q', d) := Handle(parse, q, payload);
            && Complete(Frame(payload) + rest)
            && Decode(parse, q, Frame(payload) + rest) == (q', rest, d)
            && (d.Emit? ==> q != [] && q' == q[1..] && Answers(parse, q[0], payload, d.response))
  {
    FrameDecodes(payload, rest);
  }

  /** From any stream of well-formed frames, the responses emitted are those of the
      first frames, in order, each parsed for the request in the same position,
      whose correlation id it carries; without a failure or a stall there is one
      for every frame. */
  lemma {:induction false} FramesArePaired<R>(parse: Parser<R>, r: Reader<R>, payloads: seq<Bytes>)
    returns (xs: seq<R>)
    requires r.buffer == Stream(payloads) && !r.failed && forall i :: 0 <= i < |payloads| ==> WellFormed(payloads[i])
    ensures var d := Drive(parse, r);
            && d.out == r.out + xs && AllAnswer(parse, r.requests, payloads, xs)
            && (!d.failed && !Stalls(parse, r) ==>
                  |xs| == |payloads| && d.requests == r.requests[|xs|..] && d.buffer == [])
    decreases |payloads|
  {
    xs := [];
    if payloads != [] {
      DecodeFrame(parse, r.requests, payloads[0], Stream(payloads[1..]));
      DriveEmits(parse, r);
      var (q, src, x) := Decode(parse, r.requests, r.buffer);
      if x.Emit? {
        var tail := FramesArePaired(parse, Reader(q, src, r.out + [x.response], false), payloads[1..]);
        AllAnswerCons(parse, r.requests, payloads, x.response, tail);
        Assoc(r.out, [x.response], tail);
        xs := [x.response] + tail;
      }
    }
  }

  // ----- frames that are held up -----

  /** The frame carries the correlation id of the request. */
  predicate Matches(p: Pending, payload: Bytes) {
    |payload| >= 4 && ParseI32(payload).value == p.correlation
  }

  predicate Answered<R>(parse: Parser<R>, p: Pending, payload: Bytes) {
    Matches(p, payload) && parse(payload, p.apiKey, p.version).Response?
  }

  /** Frame k, behind answered ones and before another, is too short for the parser of
      its request. */
  predicate HeldUpAt<R>(parse: Parser<R>, q: seq<Pending>, payloads: seq<Bytes>, k: int) {
    && 0 <= k < |payloads| - 1 && k < |q|
    && (forall i :: 0 <= i < k ==> Answered(parse, q[i], payloads[i]))
    && Matches(q[k], payloads[k]) && parse(payloads[k], q[k].apiKey, q[k].version).Unfinished?
  }

  lemma HeldUpLater<R>(parse: Parser<R>, q: seq<Pending>, payloads: seq<Bytes>)
    requires q != [] && payloads != [] && Answered(parse, q[0], payloads[0])
    ensures (exists k :: HeldUpAt(parse, q, payloads, k)) <==> (exists k :: HeldUpAt(parse, q[1..], payloads[1..], k))
  {
    if k :| HeldUpAt(parse, q, payloads, k) {
      assert k > 0;
      forall i | 0 <= i < k - 1
        ensures Answered(parse, q[1..][i], payloads[1..][i])
      {
        assert Answered(parse, q[i + 1], payloads[i + 1]);
      }
      assert HeldUpAt(parse, q[1..], payloads[1..], k - 1);
    }
    if k :| HeldUpAt(parse, q[1..], payloads[1..], k) {
      forall i | 0 <= i < k + 1
        ensures Answered(parse, q[i], payloads[i])
      {
        if i > 0 {
          assert Answered(parse, q[1..][i - 1], payloads[1..][i - 1]);
        }
      }
      assert HeldUpAt(parse, q, payloads, k + 1);
    }
  }

  lemma FirstDecides<R>(parse: Parser<R>, q: seq<Pending>, payloads: seq<Bytes>)
    requires payloads != [] && WellFormed(payloads[0])
    ensures var d := Handle(parse, q, payloads[0]).1;
            && (d.Emit? <==> q != [] && Answered(parse, q[0], payloads[0]))
            && (d.Nothing? ==> ((exists k :: HeldUpAt(parse, q, payloads, k)) <==> |payloads| > 1))
            && (d.Fail? ==> !exists k :: HeldUpAt(parse, q, payloads, k))
  {
    var d := Handle(parse, q, payloads[0]).1;
    if k :| HeldUpAt(parse, q, payloads, k) {
      assert k > 0 ==> Answered(parse, q[0], payloads[0]);
    }
    if d.Nothing? && |payloads| > 1 {
      assert HeldUpAt(parse, q, payloads, 0);
    }
  }

  lemma MoreFrames(payloads: seq<Bytes>)
    requires forall i :: 0 <= i < |payloads| ==> WellFormed(payloads[i])
    ensures Complete(Stream(payloads)) <==> payloads != []
  {
    if payloads != [] {
      FrameDecodes(payloads[0], Stream(payloads[1..]));
    }
  }

  lemma {:induction false} StuckFrom<R>(parse: Parser<R>, r: Reader<R>, payloads: seq<Bytes>)
    requires r.buffer == Stream(payloads) && !r.failed && forall i :: 0 <= i < |payloads| ==> WellFormed(payloads[i])
    ensures Stalls(parse, r) && Complete(Drive(parse, r).buffer) <==> exists k :: HeldUpAt(parse, r.requests, payloads, k)
    decreases |payloads|
  {
    MoreFrames(payloads);
    if payloads != [] {
      DecodeFrame(parse, r.requests, payloads[0], Stream(payloads[1..]));
      DriveEmits(parse, r);
      FirstDecides(parse, r.requests, payloads);
      MoreFrames(payloads[1..]);
      var (q, src, x) := Decode(parse, r.requests, r.buffer);
      if x.Emit? {
        StuckFrom(parse, Reader(q, src, r.out + [x.response], false), payloads[1..]);
        HeldUpLater(parse, r.requests, payloads);
      }
    }
  }

  /** For well-formed frames: every way of splitting their stream gives what reading it
      at once gives, if and only if no frame that has another behind it, and only
      answered ones before it, is too short for the parser of its request. */
  lemma FramesIndependent<R>(parse: Parser<R>, q: seq<Pending>, payloads: seq<Bytes>)
    requires forall i :: 0 <= i < |payloads| ==> WellFormed(payloads[i])
    ensures var r := Reader(q, [], [], false);
            (forall chunks :: Concat(chunks) == Stream(payloads) ==>
                                FeedAll(parse, r, chunks) == Feed(parse, r, Stream(payloads)))
            <==> !exists k :: HeldUpAt(parse, q, payloads, k)
  {
    var r := Reader(q, [], [], false);
    ChunkIndependence(parse, r, Stream(payloads));
    assert [] + Stream(payloads) == Stream(payloads);
    StuckFrom(parse, More(r, Stream(payloads)), payloads);
  }

  const HEARTBEAT := 12

  datatype HeartbeatResponse = HeartbeatResponse(correlation: int, errorCode: int)

  /** The parser of heartbeat responses: the header, then an error code. */
  function ParseHeartbeat(payload: Bytes, apiKey: int, version: int): (a: Answer<HeartbeatResponse>) {
    if apiKey != HEARTBEAT then Malformed
    else
      match ParseI32(payload)
      case Done(rest, correlation) =>
        (match ParseI16(rest)
         case Done(_, code) => Response(HeartbeatResponse(correlation, code))
         case Incomplete => Unfinished
         case Error => Malformed)
      case Incomplete => Unfinished
      case Error => Malformed
  }

  /** It happens to heartbeats: a response that ends after its correlation id holds up
      the well-formed one behind it. */
  lemma StallHappens(c: int, d: int, code: int)
    requires IsI32(c) && IsI32(d)
    ensures var q := [Pending(HEARTBEAT, 0, c), Pending(HEARTBEAT, 0, d)];
            var payloads := [I32Bytes(c), I32Bytes(d) + I16Bytes(code)];
            && Answered(ParseHeartbeat, q[1], payloads[1])
            && HeldUpAt(ParseHeartbeat, q, payloads, 0)
            && Stuck(ParseHeartbeat, Reader(q, [], [], false), Stream(payloads))
  {
    var q := [Pending(HEARTBEAT, 0, c), Pending(HEARTBEAT, 0, d)];
    var payloads := [I32Bytes(c), I32Bytes(d) + I16Bytes(code)];
    I32RoundTrip(c, []);
    assert I32Bytes(c) + [] == I32Bytes(c);
    I32RoundTrip(d, I16Bytes(code));
    assert HeldUpAt(ParseHeartbeat, q, payloads, 0);
    var r := Reader(q, [], [], false);
    assert [] + Stream(payloads) == Stream(payloads);
    StuckFrom(ParseHeartbeat, More(r, Stream(payloads)), payloads);
  }

  // ----- runs that interleave sending and receiving -----

  /** One end of a connection with its history: every request encoded, the payload
      taken for each request answered so far, and what was emitted for which. */
  datatype System<R> = System(
    requests: seq<Pending>, buffer: Bytes, failed: bool,
    encoded: seq<Pending>, taken: seq<Bytes>, emitted: seq<(nat, R)>)

  datatype Step = Send(p: Pending) | Receive(chunk: Bytes) | CallDecode

  function Apply<R>(parse: Parser<R>, s: System<R>, step: Step): (s': System<R>) {
    match step
    case Send(p) => s.(requests := s.requests + [p], encoded := s.encoded + [p])
    case Receive(chunk) => s.(buffer := s.buffer + chunk)
    case CallDecode =>
      if s.failed then s
      else
        var (q, src, d) := Decode(parse, s.requests, s.buffer);
        System(q, src, d.Fail?, s.encoded,
               if Complete(s.buffer) && s.requests != [] then s.taken + [Payload(s.buffer)] else s.taken,
               if d.Emit? then s.emitted + [(|s.taken|, d.response)] else s.emitted)
  }

  function After<R>(parse: Parser<R>, s: System<R>, steps: seq<Step>): (s': System<R>)
    decreases |steps|
  {
    if steps == [] then s else Apply(parse, After(parse, s, steps[..|steps| - 1]), steps[|steps| - 1])
  }

  /** Requests are answered in the order they were encoded. */
  ghost predicate Paired<R>(parse: Parser<R>, s: System<R>) {
    && |s.taken| <= |s.encoded| && s.requests == s.encoded[|s.taken|..]
    && (forall i :: 0 <= i < |s.emitted| ==>
          s.emitted[i].0 < |s.taken|
          && Answers(parse, s.encoded[s.emitted[i].0], s.taken[s.emitted[i].0], s.emitted[i].1))
    && (forall i, j :: 0 <= i < j < |s.emitted| ==> s.emitted[i].0 < s.emitted[j].0)
  }

  lemma SendKeepsPairs<R>(parse: Parser<R>, s: System<R>, p: Pending)
    requires Paired(parse, s)
    ensures Paired(parse, Apply(parse, s, Send(p)))
  {
    var s' := Apply(parse, s, Send(p));
    assert s'.encoded[|s.taken|..] == s.encoded[|s.taken|..] + [p];
    forall i | 0 <= i < |s'.emitted|
      ensures Answers(parse, s'.encoded[s'.emitted[i].0], s'.taken[s'.emitted[i].0], s'.emitted[i].1)
    {
      assert Answers(parse, s.encoded[s.emitted[i].0], s.taken[s.emitted[i].0], s.emitted[i].1);
    }
  }

  lemma DecodeKeepsPairs<R>(parse: Parser<R>, s: System<R>)
    requires Paired(parse, s)
    ensures Paired(parse, Apply(parse, s, CallDecode))
  {
    if !s.failed && Complete(s.buffer) && s.requests != [] {
      var s' := Apply(parse, s, CallDecode);
      var n := |s.taken|;
      assert s.requests[0] == s.encoded[n] && s.requests[1..] == s.encoded[n + 1..];
      forall i | 0 <= i < |s'.emitted|
        ensures s'.emitted[i].0 < |s'.taken|
        ensures Answers(parse, s'.encoded[s'.emitted[i].0], s'.taken[s'.emitted[i].0], s'.emitted[i].1)
      {
        if i < |s.emitted| {
          assert Answers(parse, s.encoded[s.emitted[i].0], s.taken[s.emitted[i].0], s.emitted[i].1);
        }
      }
    }
  }

  /** However sends, arrivals and decodes interleave: the k-th frame taken is parsed
      for the k-th request encoded, a response is emitted only if the frame carries
      that request's correlation id, and responses come in request order. */
  lemma {:induction false} PairingOverRuns<R>(parse: Parser<R>, steps: seq<Step>)
    ensures Paired(parse, After(parse, System([], [], false, [], [], []), steps))
    decreases |steps|
  {
    if steps != [] {
      var before := steps[..|steps| - 1];
      PairingOverRuns(parse, before);
      var s := After(parse, System([], [], false, [], [], []), before);
      match steps[|steps| - 1]
      case Send(p) => SendKeepsPairs(parse, s, p);
      case Receive(chunk) =>
      case CallDecode => DecodeKeepsPairs(parse, s);
    }
  }

  // ----- the codec -----

  method FillLength(off: nat, ghost before: Bytes, ghost body: Bytes, buf: ByteBuf)
    requires off == |before| && buf.data == before + I32Bytes(0) + body
    modifies buf
    ensures buf.data == before + (I32Bytes(|body|) + body)
  {
    var size := |buf.data| - off - 4;
    assert buf.data[..off] == before && buf.data[off + 4..] == body;
    Assoc(before, I32Bytes(size), body);
    buf.WriteI32(off, size);
  }

  class KafkaCodec {
    var requests: seq<Pending>

    constructor ()
      ensures requests == []
    {
      requests := [];
    }

    /** Appends a frame whose length, filled in at the end, is the size the request
        announced, and remembers the request. A request that cannot be encoded is
        not remembered, but what was written of its frame stays in the buffer. */
    method EncodeRequest(crc: Checksum, r: Request, buf: ByteBuf) returns (ok: bool)
      modifies this, buf
      ensures ok <==> Accepted(crc, r)
      ensures ok ==> buf.data == old(buf.data) + (I32Bytes(RequestSize(r, r.header.version)) + EncodedAll(Fields(crc, r)))
      ensures ok ==> EncodedAll(Fields(crc, r)) == HeaderBytes(r.header) + BodyBytes(crc, r)
      ensures ok ==> |EncodedAll(Fields(crc, r))| == RequestSize(r, r.header.version)
      ensures ok ==> requests == old(requests) + [Pending(r.header.apiKey, r.header.version, r.header.correlation)]
      ensures !ok ==> requests == old(requests) && old(buf.data) + I32Bytes(0) <= buf.data
    {
      var off := |buf.data|;
      buf.Put(I32Bytes(0));
      ok := PutRequest(crc, r, buf);
      if !ok {
        return;
      }
      FillLength(off, old(buf.data), EncodedAll(Fields(crc, r)), buf);
      AcceptedSets(crc, r);
      SizingAgrees(crc, r);
      RequestLayout(crc, r);
      requests := requests + [Pending(r.header.apiKey, r.header.version, r.header.correlation)];
    }

    method DecodeResponse<R>(parse: Parser<R>, src: ByteBuf) returns (d: Decoded<R>)
      modifies this, src
      ensures (requests, src.data, d) == Decode(parse, old(requests), old(src.data))
    {
      if |src.data| < 4 {
        return Nothing;
      }
      var size := ParseI32(src.data).value;
      if size < 0 || 4 + size > |src.data| {
        return Nothing;
      }
      var payload := src.data[4..4 + size];
      src.data := src.data[4 + size..];
      if requests == [] {
        return Fail(UnexpectedResponse);
      }
      var p := requests[0];
      requests := requests[1..];
      if |payload| < 4 {
        return Fail(ShortFrame);
      }
      if ParseI32(payload).value != p.correlation {
        return Fail(CorrelationMismatch);
      }
      match parse(payload, p.apiKey, p.version)
      case Response(x) => return Emit(x);
      case Unfinished => return Nothing;
      case Malformed => return Fail(ParseFailure);
    }
  }
}
