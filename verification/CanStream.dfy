/** The byte streams of the CAN bridge: reassembling frames at either end, and sending them one at a time. */
module CanStream {
  import opened Basics
  import opened CanModel

  /** Bytes of an unfinished frame, the frames delivered, and whether the connection was given up. */
  datatype Receiver = Receiver(held: seq<Octet>, frames: seq<Frame>, closed: bool)

  const FRESH := Receiver([], [], false)

  /** One end of the bridge: its decoder, and whether it gives up at a frame it cannot decode. */
  datatype End = End(decode: RawFrame -> Option<Frame>, strict: bool)

  /** The client aborts the connection, the server drops the frame. */
  const CLIENT := End(ClientDecode, true)
  const SERVER := End((raw: RawFrame) => ServerDecode(raw), false)

  function Deliver(r: Receiver, raw: RawFrame, end: End): Receiver {
    match end.decode(raw)
    case Some(f) => r.(held := [], frames := r.frames + [f])
    case None => r.(held := [], closed := end.strict)
  }

  function Take(r: Receiver, b: Octet, end: End): Receiver {
    if r.closed || |r.held| >= FRAME_SIZE then r
    else
      var raw := r.held + [b];
      if |raw| < FRAME_SIZE then r.(held := raw) else Deliver(r, raw, end)
  }

  function Feed(r: Receiver, bytes: seq<Octet>, end: End): Receiver {
    if bytes == [] then r else Take(Feed(r, bytes[..|bytes| - 1], end), bytes[|bytes| - 1], end)
  }

  lemma {:induction false} FeedConcat(r: Receiver, a: seq<Octet>, b: seq<Octet>, end: End)
    ensures Feed(r, a + b, end) == Feed(Feed(r, a, end), b, end)
    decreases |b|
  {
    if b == [] {
      assert a + b == a;
    } else {
      assert (a + b)[..|a + b| - 1] == a + b[..|b| - 1];
      FeedConcat(r, a, b[..|b| - 1], end);
    }
  }

  function Flatten<T>(ss: seq<seq<T>>): seq<T> {
    if ss == [] then [] else Flatten(ss[..|ss| - 1]) + ss[|ss| - 1]
  }

  function FeedAll(r: Receiver, chunks: seq<seq<Octet>>, end: End): Receiver {
    if chunks == [] then r else Feed(FeedAll(r, chunks[..|chunks| - 1], end), chunks[|chunks| - 1], end)
  }

  /** How the stream is cut into chunks does not matter. */
  lemma {:induction false} ChunksDoNotMatter(r: Receiver, chunks: seq<seq<Octet>>, end: End)
    ensures FeedAll(r, chunks, end) == Feed(r, Flatten(chunks), end)
    decreases |chunks|
  {
    if chunks != [] {
      ChunksDoNotMatter(r, chunks[..|chunks| - 1], end);
      FeedConcat(r, Flatten(chunks[..|chunks| - 1]), chunks[|chunks| - 1], end);
    }
  }

  /** A chunk that does not go beyond the frame is taken at once. */
  lemma {:induction false} FeedChunk(r: Receiver, chunk: seq<Octet>, end: End)
    requires !r.closed && |r.held| + |chunk| <= FRAME_SIZE && |r.held| < FRAME_SIZE
    ensures Feed(r, chunk, end) == if |r.held| + |chunk| < FRAME_SIZE then r.(held := r.held + chunk)
                                      else Deliver(r, r.held + chunk, end)
    decreases |chunk|
  {
    var n := |chunk|;
    if n == 0 {
      assert r.held + chunk == r.held;
    } else {
      FeedChunk(r, chunk[..n - 1], end);
      assert r.held + chunk[..n - 1] + [chunk[n - 1]] == r.held + chunk;
    }
  }

  lemma FeedBlock(r: Receiver, raw: RawFrame, end: End)
    requires r.held == [] && !r.closed
    ensures Feed(r, raw, end) == Deliver(r, raw, end)
  {
    FeedChunk(r, raw, end);
    assert r.held + raw == raw;
  }

  lemma AppendBlock(start: Receiver, head: seq<Octet>, r: Receiver, raw: RawFrame, end: End)
    requires Feed(start, head, end) == r && r.held == [] && !r.closed
    ensures Feed(start, head + raw, end) == Deliver(r, raw, end)
  {
    FeedConcat(start, head, raw, end);
    FeedBlock(r, raw, end);
  }

  lemma AppendRest(start: Receiver, head: seq<Octet>, r: Receiver, rest: seq<Octet>, end: End)
    requires Feed(start, head, end) == r && r.held == [] && |rest| < FRAME_SIZE
    ensures Feed(start, head + rest, end) == if r.closed then r else r.(held := rest)
  {
    FeedConcat(start, head, rest, end);
    if r.closed {
      Closed(r, rest, end);
    } else {
      FeedChunk(r, rest, end);
      assert r.held + rest == rest;
    }
  }

  // ---------------------------------------------------------------------------
  // The whole stream at once
  // ---------------------------------------------------------------------------

  function Block(stream: seq<Octet>, i: nat): RawFrame
    requires FRAME_SIZE * (i + 1) <= |stream|
  {
    stream[FRAME_SIZE * i..FRAME_SIZE * (i + 1)]
  }

  /** The frames among the first n blocks. */
  function Frames(stream: seq<Octet>, n: nat, end: End): seq<Frame>
    requires FRAME_SIZE * n <= |stream|
  {
    if n == 0 then []
    else
      match end.decode(Block(stream, n - 1))
      case Some(f) => Frames(stream, n - 1, end) + [f]
      case None => Frames(stream, n - 1, end)
  }

  /** The number of blocks before the first that does not decode. */
  function GoodBlocks(stream: seq<Octet>, n: nat, end: End): (k: nat)
    requires FRAME_SIZE * n <= |stream|
    ensures k <= n && (k < n ==> end.decode(Block(stream, k)).None?)
    ensures forall i | 0 <= i < k :: end.decode(Block(stream, i)).Some?
  {
    if n == 0 then 0
    else
      var k := GoodBlocks(stream, n - 1, end);
      if k < n - 1 || end.decode(Block(stream, n - 1)).None? then k else n
  }

  /** What an end makes of the first n blocks. */
  function Outcome(stream: seq<Octet>, n: nat, end: End): Receiver
    requires FRAME_SIZE * n <= |stream|
  {
    var k := if end.strict then GoodBlocks(stream, n, end) else n;
    Receiver([], Frames(stream, k, end), k < n)
  }

  lemma OutcomeStep(stream: seq<Octet>, n: nat, end: End)
    requires 0 < n && FRAME_SIZE * n <= |stream|
    ensures var before := Outcome(stream, n - 1, end);
            Outcome(stream, n, end) == if before.closed then before else Deliver(before, Block(stream, n - 1), end)
  {
  }

  lemma {:induction false} FeedBlocks(stream: seq<Octet>, n: nat, end: End)
    requires FRAME_SIZE * n <= |stream|
    ensures Feed(FRESH, stream[..FRAME_SIZE * n], end) == Outcome(stream, n, end)
    decreases n
  {
    if n > 0 {
      var (head, block) := (stream[..FRAME_SIZE * (n - 1)], Block(stream, n - 1));
      FeedBlocks(stream, n - 1, end);
      OutcomeStep(stream, n, end);
      assert stream[..FRAME_SIZE * n] == head + block;
      var r := Outcome(stream, n - 1, end);
      if r.closed {
        FeedConcat(FRESH, head, block, end);
        Closed(r, block, end);
      } else {
        AppendBlock(FRESH, head, r, block, end);
      }
    }
  }

  lemma {:induction false} Closed(r: Receiver, bytes: seq<Octet>, end: End)
    requires r.closed
    ensures Feed(r, bytes, end) == r
    decreases |bytes|
  {
    if bytes != [] {
      Closed(r, bytes[..|bytes| - 1], end);
    }
  }

  /** What an end makes of a stream: an open receiver holds the incomplete block. */
  function Reassembled(stream: seq<Octet>, end: End): Receiver {
    var n := |stream| / FRAME_SIZE;
    var o := Outcome(stream, n, end);
    if o.closed then o else o.(held := stream[FRAME_SIZE * n..])
  }

  lemma OneStream(stream: seq<Octet>, end: End)
    ensures Feed(FRESH, stream, end) == Reassembled(stream, end)
  {
    var n := |stream| / FRAME_SIZE;
    var (head, rest) := (stream[..FRAME_SIZE * n], stream[FRAME_SIZE * n..]);
    FeedBlocks(stream, n, end);
    AppendRest(FRESH, head, Outcome(stream, n, end), rest, end);
    assert stream == head + rest;
  }

  /** What either end does with any stream, however it is cut: the server delivers every block that decodes, the
      client those before the first that does not. */
  lemma WholeStream(chunks: seq<seq<Octet>>, end: End)
    ensures FeedAll(FRESH, chunks, end) == Reassembled(Flatten(chunks), end)
    ensures |FeedAll(FRESH, chunks, end).held| < FRAME_SIZE
  {
    ChunksDoNotMatter(FRESH, chunks, end);
    OneStream(Flatten(chunks), end);
  }

  /** The frames written one after the other. */
  function Encode(fs: seq<Frame>, encode: Frame -> RawFrame): (stream: seq<Octet>)
    ensures |stream| == FRAME_SIZE * |fs|
  {
    if fs == [] then [] else Encode(fs[..|fs| - 1], encode) + encode(fs[|fs| - 1])
  }

  ghost predicate Recovers(encode: Frame -> RawFrame, end: End) {
    forall f: Frame | f.Valid() :: end.decode(encode(f)) == Some(f)
  }

  /** Either end recovers what either end encodes. */
  lemma AllPairings()
    ensures Recovers(ClientEncode, CLIENT) && Recovers(ServerEncode, CLIENT)
    ensures Recovers(ClientEncode, SERVER) && Recovers(ServerEncode, SERVER)
  {
    forall f: Frame | f.Valid()
      ensures ClientDecode(ClientEncode(f)) == Some(f) && ClientDecode(ServerEncode(f)) == Some(f)
      ensures ServerDecode(ClientEncode(f)) == Some(f) && ServerDecode(ServerEncode(f)) == Some(f)
    {
      RoundTrip(f);
    }
  }

  lemma DeliverEncoded(r: Receiver, f: Frame, encode: Frame -> RawFrame, end: End)
    requires Recovers(encode, end) && f.Valid() && r.held == []
    ensures Deliver(r, encode(f), end) == r.(frames := r.frames + [f])
  {
    assert end.decode(encode(f)) == Some(f);
  }

  lemma OneMoreEncoded(fs: seq<Frame>, f: Frame, encode: Frame -> RawFrame, end: End)
    requires Recovers(encode, end) && f.Valid() && Feed(FRESH, Encode(fs, encode), end) == Receiver([], fs, false)
    ensures Feed(FRESH, Encode(fs, encode) + encode(f), end) == Receiver([], fs + [f], false)
  {
    var r := Receiver([], fs, false);
    AppendBlock(FRESH, Encode(fs, encode), r, encode(f), end);
    DeliverEncoded(r, f, encode, end);
  }

  lemma {:induction false} FeedEncoded(fs: seq<Frame>, encode: Frame -> RawFrame, end: End)
    requires Recovers(encode, end) && forall i | 0 <= i < |fs| :: fs[i].Valid()
    ensures Feed(FRESH, Encode(fs, encode), end) == Receiver([], fs, false)
    decreases |fs|
  {
    if fs != [] {
      var (init, last) := (fs[..|fs| - 1], fs[|fs| - 1]);
      FeedEncoded(init, encode, end);
      OneMoreEncoded(init, last, encode, end);
      assert fs == init + [last];
    }
  }

  /** Frames sent by one end, cut anywhere and followed by part of another, arrive at the other: exactly those
      frames, in order, and the part is held. */
  lemma FramesArrive(fs: seq<Frame>, part: seq<Octet>, chunks: seq<seq<Octet>>, encode: Frame -> RawFrame, end: End)
    requires Recovers(encode, end)
    requires (forall i | 0 <= i < |fs| :: fs[i].Valid()) && |part| < FRAME_SIZE
    requires Flatten(chunks) == Encode(fs, encode) + part
    ensures FeedAll(FRESH, chunks, end) == Receiver(part, fs, false)
  {
    ChunksDoNotMatter(FRESH, chunks, end);
    FeedConcat(FRESH, Encode(fs, encode), part, end);
    FeedEncoded(fs, encode, end);
    FeedChunk(Receiver([], fs, false), part, end);
    assert [] + part == part;
  }

  /** What a block that is no frame does: the client gives the connection up and delivers nothing more, the server
      goes on as if it had not been there. */
  lemma NotAFrame(raw: RawFrame, rest: seq<Octet>)
    requires ClientDecode(raw).None?
    ensures Feed(FRESH, raw + rest, CLIENT) == Receiver([], [], true)
    ensures Feed(FRESH, raw + rest, SERVER) == Feed(FRESH, rest, SERVER)
  {
    DecodersAgree(raw);
    FeedConcat(FRESH, raw, rest, CLIENT);
    FeedConcat(FRESH, raw, rest, SERVER);
    FeedBlock(FRESH, raw, CLIENT);
    FeedBlock(FRESH, raw, SERVER);
    Closed(Receiver([], [], true), rest, CLIENT);
  }

  // ---------------------------------------------------------------------------
  // The client's sender
  // ---------------------------------------------------------------------------

  datatype Completion = Completion(callback: nat, success: bool)

  /** At most one frame waits for the connection. A callback may be missing. */
  datatype Sender = Sender(
    frame: Frame, pending: Option<nat>, sent: seq<Frame>, completions: seq<Completion>)

  function Refuse(s: Sender, onDone: Option<nat>): Sender {
    if onDone.Some? then s.(completions := s.completions + [Completion(onDone.value, false)]) else s
  }

  function RequestSend(s: Sender, f: Frame, onDone: Option<nat>, maxSendStreamSize: nat): Sender {
    if s.pending.Some? || maxSendStreamSize < FRAME_SIZE then Refuse(s, onDone)
    else s.(frame := f, pending := onDone)
  }

  function SendStreamAvailable(s: Sender): Sender {
    match s.pending
    case None => s
    case Some(callback) =>
      s.(pending := None, sent := s.sent + [s.frame], completions := s.completions + [Completion(callback, true)])
  }

  function FailPendingSend(s: Sender): Sender {
    Refuse(s.(pending := None), s.pending)
  }

  datatype Event = Request(frame: Frame, onDone: Option<nat>, max: nat) | Available | Disconnected

  function Step(s: Sender, e: Event): Sender {
    match e
    case Request(f, onDone, max) => RequestSend(s, f, onDone, max)
    case Available => SendStreamAvailable(s)
    case Disconnected => FailPendingSend(s)
  }

  function After(s: Sender, es: seq<Event>): Sender {
    if es == [] then s else Step(After(s, es[..|es| - 1]), es[|es| - 1])
  }

  const NO_FRAME := Frame(false, 0, [])

  const IDLE := Sender(NO_FRAME, None, [], [])

  function Held(callback: Option<nat>): multiset<nat> {
    if callback.Some? then multiset{callback.value} else multiset{}
  }

  /** The callbacks handed over. */
  function Asked(es: seq<Event>): multiset<nat> {
    if es == [] then multiset{}
    else Asked(es[..|es| - 1]) + (if es[|es| - 1].Request? then Held(es[|es| - 1].onDone) else multiset{})
  }

  function Called(cs: seq<Completion>): multiset<nat> {
    if cs == [] then multiset{} else Called(cs[..|cs| - 1]) + multiset{cs[|cs| - 1].callback}
  }

  lemma CalledSnoc(cs: seq<Completion>, c: Completion)
    ensures Called(cs + [c]) == Called(cs) + multiset{c.callback}
  {
    assert (cs + [c])[..|cs|] == cs;
  }

  lemma RefuseCalls(s: Sender, onDone: Option<nat>)
    ensures Called(Refuse(s, onDone).completions) == Called(s.completions) + Held(onDone)
  {
    if onDone.Some? {
      CalledSnoc(s.completions, Completion(onDone.value, false));
    }
  }

  lemma StepCalls(s: Sender, e: Event)
    ensures Called(Step(s, e).completions) + Held(Step(s, e).pending)
         == Called(s.completions) + Held(s.pending) + (if e.Request? then Held(e.onDone) else multiset{})
  {
    match e
    case Request(f, onDone, max) => RefuseCalls(s, onDone);
    case Available =>
      if s.pending.Some? {
        CalledSnoc(s.completions, Completion(s.pending.value, true));
      }
    case Disconnected => RefuseCalls(s.(pending := None), s.pending);
  }

  /** In every run each callback handed over has been called exactly once, or is the one still pending. */
  lemma {:induction false} CalledExactlyOnce(es: seq<Event>)
    ensures var s := After(IDLE, es); Called(s.completions) + Held(s.pending) == Asked(es)
    decreases |es|
  {
    if es != [] {
      CalledExactlyOnce(es[..|es| - 1]);
      StepCalls(After(IDLE, es[..|es| - 1]), es[|es| - 1]);
    }
  }

  function Successes(cs: seq<Completion>): nat {
    if cs == [] then 0 else Successes(cs[..|cs| - 1]) + if cs[|cs| - 1].success then 1 else 0
  }

  lemma SuccessesSnoc(cs: seq<Completion>, c: Completion)
    ensures Successes(cs + [c]) == Successes(cs) + if c.success then 1 else 0
  {
    assert (cs + [c])[..|cs|] == cs;
  }

  predicate SenderGood(s: Sender) {
    && s.frame.Valid() && (forall i | 0 <= i < |s.sent| :: s.sent[i].Valid())
    && Successes(s.completions) == |s.sent|
  }

  lemma RefuseSends(s: Sender, onDone: Option<nat>)
    requires SenderGood(s)
    ensures SenderGood(Refuse(s, onDone))
  {
    if onDone.Some? {
      SuccessesSnoc(s.completions, Completion(onDone.value, false));
    }
  }

  lemma StepSends(s: Sender, e: Event)
    requires SenderGood(s) && (e.Request? ==> e.frame.Valid())
    ensures SenderGood(Step(s, e))
  {
    match e
    case Request(f, onDone, max) => RefuseSends(s, onDone);
    case Available =>
      if s.pending.Some? {
        SuccessesSnoc(s.completions, Completion(s.pending.value, true));
      }
    case Disconnected => RefuseSends(s.(pending := None), s.pending);
  }

  lemma {:induction false} RunSends(es: seq<Event>)
    requires forall i | 0 <= i < |es| :: es[i].Request? ==> es[i].frame.Valid()
    ensures SenderGood(After(IDLE, es))
    decreases |es|
  {
    if es != [] {
      RunSends(es[..|es| - 1]);
      StepSends(After(IDLE, es[..|es| - 1]), es[|es| - 1]);
    }
  }

  /** End to end: whatever the client did, the server, reading what was written in any chunks, puts on the bus
      exactly the frames whose callbacks were told of success, in order. */
  lemma SentIsReceived(es: seq<Event>, chunks: seq<seq<Octet>>)
    requires forall i | 0 <= i < |es| :: es[i].Request? ==> es[i].frame.Valid()
    requires Flatten(chunks) == Encode(After(IDLE, es).sent, ClientEncode)
    ensures FeedAll(FRESH, chunks, SERVER) == Receiver([], After(IDLE, es).sent, false)
    ensures |After(IDLE, es).sent| == Successes(After(IDLE, es).completions)
  {
    RunSends(es);
    AllPairings();
    assert Flatten(chunks) == Encode(After(IDLE, es).sent, ClientEncode) + [];
    FramesArrive(After(IDLE, es).sent, [], chunks, ClientEncode, SERVER);
  }

  // ---------------------------------------------------------------------------
  // Which requests are written
  // ---------------------------------------------------------------------------

  /** What becomes of a frame handed over while nothing is pending and offered the connection at once: it is
      written exactly when it came with a callback, which is how the handler knows that a frame is pending. */
  lemma WrittenIffCallback(s: Sender, f: Frame, onDone: Option<nat>, max: nat)
    requires s.pending == None && max >= FRAME_SIZE
    ensures SendStreamAvailable(RequestSend(s, f, onDone, max)).sent == s.sent + [f] <==> onDone.Some?
  {
    assert |s.sent + [f]| == |s.sent| + 1;
  }

  predicate Usable(e: Event) {
    e.Request? && e.onDone.Some? && FRAME_SIZE <= e.max
  }

  predicate Settles(e: Event) {
    e.Available? || e.Disconnected?
  }

  ghost predicate Quiet(es: seq<Event>, lo: nat, hi: nat)
    requires hi <= |es|
  {
    forall j | lo <= j < hi :: !Settles(es[j])
  }

  /** Whatever could be sent before has been settled since. */
  ghost predicate Free(es: seq<Event>, i: nat)
    requires i <= |es|
  {
    forall k | 0 <= k < i && Usable(es[k]) :: !Quiet(es, k + 1, i)
  }

  /** Event i is a request with a callback and room, made while nothing else waits. */
  ghost predicate Taken(es: seq<Event>, i: nat) {
    i < |es| && Usable(es[i]) && Free(es, i)
  }

  ghost predicate Waiting(es: seq<Event>, i: nat) {
    Taken(es, i) && Quiet(es, i + 1, |es|)
  }

  /** It was taken, and the connection came before a disconnection. */
  ghost predicate Written(es: seq<Event>, i: nat) {
    Taken(es, i) && exists j | i < j < |es| :: es[j].Available? && Quiet(es, i + 1, j)
  }

  /** The frames of the first n events that are written, in the order of the requests. */
  ghost function FramesWritten(es: seq<Event>, n: nat): seq<Frame>
    requires n <= |es|
  {
    if n == 0 then []
    else FramesWritten(es, n - 1) + if Written(es, n - 1) then [es[n - 1].frame] else []
  }

  /** What the sender holds, seen from the events. */
  ghost predicate Traces(es: seq<Event>, s: Sender) {
    match s.pending
    case None => Free(es, |es|)
    case Some(_) => exists i: nat :: Waiting(es, i) && s.frame == es[i].frame
  }

  lemma QuietSnoc(es: seq<Event>, e: Event, lo: nat, hi: nat)
    requires hi <= |es|
    ensures Quiet(es + [e], lo, hi) <==> Quiet(es, lo, hi)
  {
    assert forall j | lo <= j < hi :: (es + [e])[j] == es[j];
  }

  lemma TakenSnoc(es: seq<Event>, e: Event, i: nat)
    requires i <= |es|
    ensures Free(es + [e], i) <==> Free(es, i)
    ensures i < |es| ==> (Taken(es + [e], i) <==> Taken(es, i))
  {
    forall k | 0 <= k < i ensures (es + [e])[k] == es[k] && (Quiet(es + [e], k + 1, i) <==> Quiet(es, k + 1, i)) {
      QuietSnoc(es, e, k + 1, i);
    }
  }

  lemma WrittenSnoc(es: seq<Event>, e: Event, i: nat)
    requires i < |es|
    ensures Written(es + [e], i) <==> Written(es, i) || (Waiting(es, i) && e.Available?)
    ensures Waiting(es + [e], i) <==> Waiting(es, i) && !Settles(e)
  {
    var all := es + [e];
    TakenSnoc(es, e, i);
    QuietSnoc(es, e, i + 1, |es|);
    forall j | i < j < |es| ensures all[j] == es[j] && (Quiet(all, i + 1, j) <==> Quiet(es, i + 1, j)) {
      QuietSnoc(es, e, i + 1, j);
    }
    if Written(es, i) {
      var j :| i < j < |es| && es[j].Available? && Quiet(es, i + 1, j);
      assert all[j].Available? && Quiet(all, i + 1, j);
    }
    if Written(all, i) {
      var j :| i < j < |all| && all[j].Available? && Quiet(all, i + 1, j);
      assert j < |es| ==> es[j].Available? && Quiet(es, i + 1, j);
    }
    if Waiting(es, i) && e.Available? {
      assert all[|es|].Available? && Quiet(all, i + 1, |es|);
    }
    assert all[|es|] == e;
  }

  /** Nothing is taken after a request that still waits, nor is that one written yet. */
  lemma WaitingIsLast(es: seq<Event>, w: nat, i: nat)
    requires Waiting(es, w) && w <= i
    ensures !Written(es, i) && (Waiting(es, i) ==> i == w)
  {
    if w < i && Taken(es, i) {
      assert false;
    }
  }

  lemma FreeIsNotWaiting(es: seq<Event>, i: nat)
    requires Free(es, |es|)
    ensures !Waiting(es, i)
  {
  }

  lemma {:induction false} NothingNew(es: seq<Event>, e: Event, n: nat)
    requires n <= |es| && (e.Available? ==> Free(es, |es|))
    ensures FramesWritten(es + [e], n) == FramesWritten(es, n)
  {
    if n > 0 {
      NothingNew(es, e, n - 1);
      WrittenSnoc(es, e, n - 1);
    }
  }

  /** The connection comes: the waiting request is written after all others. */
  lemma {:induction false} WaitingWritten(es: seq<Event>, w: nat, n: nat)
    requires Waiting(es, w) && n <= |es|
    ensures FramesWritten(es + [Available], n)
         == FramesWritten(es, n) + if w < n then [es[w].frame] else []
  {
    if n > 0 {
      WaitingWritten(es, w, n - 1);
      WrittenSnoc(es, Available, n - 1);
      if w < n {
        WaitingIsLast(es, w, n - 1);
      } else {
        WaitingOnlyOne(es, w, n - 1);
      }
    }
  }

  lemma WaitingOnlyOne(es: seq<Event>, w: nat, i: nat)
    requires Waiting(es, w) && i < w
    ensures !Waiting(es, i)
  {
    if Waiting(es, i) {
      WaitingIsLast(es, i, w);
    }
  }

  lemma StepTraces(es: seq<Event>, e: Event, s: Sender)
    requires Traces(es, s)
    ensures Traces(es + [e], Step(s, e))
  {
    var all := es + [e];
    if s.pending.Some? {
      var w: nat :| Waiting(es, w) && s.frame == es[w].frame;
      WrittenSnoc(es, e, w);
      if Settles(e) {
        SettledIsFree(es, e);
      }
    } else {
      TakenSnoc(es, e, |es|);
      if Usable(e) {
        assert Waiting(all, |es|);
      } else {
        StaysFree(es, e);
      }
    }
  }

  lemma SettledIsFree(es: seq<Event>, e: Event)
    requires Settles(e)
    ensures Free(es + [e], |es| + 1)
  {
    assert Settles((es + [e])[|es|]);
  }

  lemma StaysFree(es: seq<Event>, e: Event)
    requires Free(es, |es|) && !Usable(e)
    ensures Free(es + [e], |es| + 1)
  {
    forall k | 0 <= k < |es| + 1 && Usable((es + [e])[k]) ensures !Quiet(es + [e], k + 1, |es| + 1) {
      var j :| k + 1 <= j < |es| && Settles(es[j]);
      assert Settles((es + [e])[j]);
    }
  }

  lemma StepWrites(es: seq<Event>, e: Event, s: Sender)
    requires Traces(es, s) && s.sent == FramesWritten(es, |es|)
    ensures Step(s, e).sent == FramesWritten(es + [e], |es| + 1)
  {
    assert !Written(es + [e], |es|);
    if e.Available? && s.pending.Some? {
      var w: nat :| Waiting(es, w) && s.frame == es[w].frame;
      WaitingWritten(es, w, |es|);
    } else {
      NothingNew(es, e, |es|);
    }
  }

  /** Over every run the frames written are exactly those of the requests that came with a callback and enough
      room, while no other such request was waiting, and then met the connection before a disconnection. */
  lemma {:induction false} WrittenExactly(es: seq<Event>)
    ensures After(IDLE, es).sent == FramesWritten(es, |es|)
    ensures Traces(es, After(IDLE, es))
    decreases |es|
  {
    if es != [] {
      var before, e := es[..|es| - 1], es[|es| - 1];
      WrittenExactly(before);
      assert before + [e] == es;
      StepTraces(before, e, After(IDLE, before));
      StepWrites(before, e, After(IDLE, before));
    }
  }

  lemma FreePrefix(es: seq<Event>, i: nat)
    requires i <= |es|
    ensures Free(es[..i], i) <==> Free(es, i)
  {
    forall k | 0 <= k < i ensures es[..i][k] == es[k] && (Quiet(es[..i], k + 1, i) <==> Quiet(es, k + 1, i)) {
      assert forall j | 0 <= j < i :: es[..i][j] == es[j];
    }
  }

  /** Taken, said of the events alone, is what the sender decides: nothing was pending when the request came. */
  lemma TakenIffNothingPending(es: seq<Event>, i: nat)
    requires i < |es| && Usable(es[i])
    ensures Taken(es, i) <==> After(IDLE, es[..i]).pending == None
  {
    var before := es[..i];
    WrittenExactly(before);
    FreePrefix(es, i);
    if After(IDLE, before).pending.Some? {
      var w: nat :| Waiting(before, w);
      assert Usable(before[w]) && Quiet(before, w + 1, i);
    }
  }
}
