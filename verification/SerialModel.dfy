/** Sending on the serial bridge: data waits for a connection, then goes out in chunks of at most the size the
    connection offers each time. */
module SerialModel {
  import opened Basics

  type Octet = bv8

  /** Of the present connection: the bytes written and the data of the sends finished. */
  datatype Serial = Serial(
    connected: bool, queuedData: seq<Octet>, queuedOnDone: Option<nat>,
    pendingData: seq<Octet>, pendingOffset: nat, pendingOnDone: Option<nat>,
    written: seq<Octet>, finished: seq<seq<Octet>>, calls: seq<nat>)

  const IDLE := Serial(false, [], None, [], 0, None, [], [], [])

  function Call(s: Serial, onDone: Option<nat>): Serial {
    if onDone.Some? then s.(calls := s.calls + [onDone.value]) else s
  }

  /** The connection handler refuses a send by calling back at once. */
  function RequestSend(s: Serial, data: seq<Octet>, onDone: Option<nat>): Serial {
    if s.pendingOnDone.Some? || data == [] then Call(s, onDone)
    else s.(pendingData := data, pendingOffset := 0, pendingOnDone := onDone)
  }

  /** Without a connection only the latest send is kept; the one it replaces is called back. */
  function SendData(s: Serial, data: seq<Octet>, onDone: Option<nat>): Serial {
    if s.connected then RequestSend(s, data, onDone)
    else Call(s.(queuedOnDone := None), s.queuedOnDone).(queuedData := data, queuedOnDone := onDone)
  }

  function ConnectionEstablished(s: Serial): Serial {
    var t := s.(connected := true, written := [], finished := []);
    if t.queuedData != [] || t.queuedOnDone.Some? then
      RequestSend(t, t.queuedData, t.queuedOnDone).(queuedData := [], queuedOnDone := None)
    else t
  }

  function FailPendingSend(s: Serial): Serial {
    Call(s.(pendingData := [], pendingOffset := 0, pendingOnDone := None), s.pendingOnDone)
  }

  function Disconnected(s: Serial): Serial {
    FailPendingSend(Call(s.(connected := false, queuedData := [], queuedOnDone := None), s.queuedOnDone))
  }

  function Min(x: nat, y: nat): nat { if x < y then x else y }

  function Write(s: Serial, end: nat): Serial
    requires s.pendingOffset <= end <= |s.pendingData|
  {
    s.(written := s.written + s.pendingData[s.pendingOffset..end], pendingOffset := end)
  }

  /** Cleared first, then called. */
  function Finish(s: Serial): Serial {
    Call(s.(pendingData := [], pendingOffset := 0, pendingOnDone := None, finished := s.finished + [s.pendingData]),
         s.pendingOnDone)
  }

  /** Room for max bytes: the next chunk is written, and after the last one the callback called. */
  function SendStreamAvailable(s: Serial, max: nat): Serial {
    if s.pendingData == [] || s.pendingOffset > |s.pendingData| then s
    else
      var end := s.pendingOffset + Min(|s.pendingData| - s.pendingOffset, max);
      if end < |s.pendingData| then Write(s, end) else Finish(Write(s, end))
  }

  datatype Event = Send(data: seq<Octet>, onDone: Option<nat>) | Connect | Available(max: nat) | Disconnect

  /** Events of a connection that is not there do not happen. */
  function Step(s: Serial, e: Event): Serial {
    match e
    case Send(data, onDone) => SendData(s, data, onDone)
    case Connect => if s.connected then s else ConnectionEstablished(s)
    case Available(max) => if s.connected then SendStreamAvailable(s, max) else s
    case Disconnect => Disconnected(s)
  }

  function After(s: Serial, es: seq<Event>): Serial {
    if es == [] then s else Step(After(s, es[..|es| - 1]), es[|es| - 1])
  }

  // ---------------------------------------------------------------------------
  // Callbacks
  // ---------------------------------------------------------------------------

  function Held(callback: Option<nat>): multiset<nat> {
    if callback.Some? then multiset{callback.value} else multiset{}
  }

  function Asked(es: seq<Event>): multiset<nat> {
    if es == [] then multiset{}
    else Asked(es[..|es| - 1]) + (if es[|es| - 1].Send? then Held(es[|es| - 1].onDone) else multiset{})
  }

  /** Called, queued or pending. */
  function Accounted(s: Serial): multiset<nat> {
    multiset(s.calls) + Held(s.queuedOnDone) + Held(s.pendingOnDone)
  }

  lemma CallAccounts(s: Serial, onDone: Option<nat>)
    ensures Accounted(Call(s, onDone)) == Accounted(s) + Held(onDone)
  {
  }

  lemma RequestAccounts(s: Serial, data: seq<Octet>, onDone: Option<nat>)
    ensures Accounted(RequestSend(s, data, onDone)) == Accounted(s) + Held(onDone)
  {
    CallAccounts(s, onDone);
  }

  lemma SendAccounts(s: Serial, data: seq<Octet>, onDone: Option<nat>)
    ensures Accounted(SendData(s, data, onDone)) == Accounted(s) + Held(onDone)
  {
    RequestAccounts(s, data, onDone);
    CallAccounts(s.(queuedOnDone := None), s.queuedOnDone);
  }

  lemma ConnectAccounts(s: Serial)
    ensures Accounted(ConnectionEstablished(s)) == Accounted(s)
  {
    var t := s.(connected := true, written := [], finished := []);
    if t.queuedData != [] || t.queuedOnDone.Some? {
      RequestAccounts(t, t.queuedData, t.queuedOnDone);
    }
  }

  lemma DisconnectAccounts(s: Serial)
    ensures Accounted(Disconnected(s)) == Accounted(s)
  {
    var t := s.(connected := false, queuedData := [], queuedOnDone := None);
    CallAccounts(t, s.queuedOnDone);
    var u := Call(t, s.queuedOnDone);
    CallAccounts(u.(pendingData := [], pendingOffset := 0, pendingOnDone := None), u.pendingOnDone);
  }

  lemma FinishAccounts(s: Serial)
    ensures Accounted(Finish(s)) == Accounted(s)
  {
    CallAccounts(s.(pendingData := [], pendingOffset := 0, pendingOnDone := None,
                    finished := s.finished + [s.pendingData]),
                 s.pendingOnDone);
  }

  lemma AvailableAccounts(s: Serial, max: nat)
    ensures Accounted(SendStreamAvailable(s, max)) == Accounted(s)
  {
    if s.pendingData != [] && s.pendingOffset <= |s.pendingData| {
      var end := s.pendingOffset + Min(|s.pendingData| - s.pendingOffset, max);
      WriteAccounts(s, end);
      FinishAccounts(Write(s, end));
    }
  }

  lemma WriteAccounts(s: Serial, end: nat)
    requires s.pendingOffset <= end <= |s.pendingData|
    ensures Accounted(Write(s, end)) == Accounted(s)
  {
  }

  lemma StepAccounts(s: Serial, e: Event)
    ensures Accounted(Step(s, e)) == Accounted(s) + (if e.Send? then Held(e.onDone) else multiset{})
  {
    match e
    case Send(data, onDone) => SendAccounts(s, data, onDone);
    case Connect => ConnectAccounts(s);
    case Available(max) => AvailableAccounts(s, max);
    case Disconnect => DisconnectAccounts(s);
  }

  /** In every run, through any connections and disconnections, each callback handed over has been called exactly
      once, or is the one queued or the one pending. */
  lemma {:induction false} CalledExactlyOnce(es: seq<Event>)
    ensures Accounted(After(IDLE, es)) == Asked(es)
    decreases |es|
  {
    if es != [] {
      CalledExactlyOnce(es[..|es| - 1]);
      StepAccounts(After(IDLE, es[..|es| - 1]), es[|es| - 1]);
    }
  }

  /** After a disconnection none is left over. */
  lemma DisconnectSettles(es: seq<Event>)
    ensures multiset(After(IDLE, es + [Disconnect]).calls) == Asked(es)
  {
    CalledExactlyOnce(es);
    assert (es + [Disconnect])[..|es|] == es;
    DisconnectAccounts(After(IDLE, es));
  }

  // ---------------------------------------------------------------------------
  // Data
  // ---------------------------------------------------------------------------

  function Flatten(ss: seq<seq<Octet>>): seq<Octet> {
    if ss == [] then [] else Flatten(ss[..|ss| - 1]) + ss[|ss| - 1]
  }

  lemma FlattenSnoc(ss: seq<seq<Octet>>, s: seq<Octet>)
    ensures Flatten(ss + [s]) == Flatten(ss) + s
  {
    assert (ss + [s])[..|ss|] == ss;
  }

  /** What was written on a connection is the data of the finished sends, one after the other, and what has gone
      out of the pending one. */
  predicate Orderly(s: Serial) {
    && s.pendingOffset <= |s.pendingData| && (s.pendingData != [] ==> s.connected && s.pendingOffset < |s.pendingData|)
    && (s.pendingData != [] <==> s.pendingOnDone.Some?)
    && (s.connected ==> s.written == Flatten(s.finished) + s.pendingData[..s.pendingOffset])
  }

  predicate HasCallback(e: Event) {
    e.Send? ==> e.onDone.Some?
  }

  /** Of a queued send, too. */
  predicate QueueHasCallback(s: Serial) {
    s.queuedData != [] ==> s.queuedOnDone.Some?
  }

  lemma AvailableOrderly(s: Serial, max: nat)
    requires Orderly(s)
    ensures Orderly(SendStreamAvailable(s, max))
  {
    if s.pendingData != [] {
      var end := s.pendingOffset + Min(|s.pendingData| - s.pendingOffset, max);
      WriteOrderly(s, end);
      if end == |s.pendingData| {
        assert s.pendingData[..end] == s.pendingData;
        FlattenSnoc(s.finished, s.pendingData);
      }
    }
  }

  lemma WriteOrderly(s: Serial, end: nat)
    requires Orderly(s) && s.connected && s.pendingOffset <= end <= |s.pendingData|
    ensures Write(s, end).written == Flatten(s.finished) + s.pendingData[..end]
  {
    assert s.pendingData[..s.pendingOffset] + s.pendingData[s.pendingOffset..end] == s.pendingData[..end];
  }

  lemma StepOrderly(s: Serial, e: Event)
    requires Orderly(s) && QueueHasCallback(s) && HasCallback(e)
    ensures Orderly(Step(s, e)) && QueueHasCallback(Step(s, e))
  {
    match e
    case Send(data, onDone) =>
    case Connect =>
    case Available(max) => AvailableOrderly(s, max);
    case Disconnect =>
  }

  /** When every send has a callback, what a connection carries is at all times the data of the finished sends, in
      order and unbroken, followed by a prefix of the one pending. */
  lemma {:induction false} RunOrderly(es: seq<Event>)
    requires forall i | 0 <= i < |es| :: HasCallback(es[i])
    ensures Orderly(After(IDLE, es)) && QueueHasCallback(After(IDLE, es))
    decreases |es|
  {
    if es != [] {
      RunOrderly(es[..|es| - 1]);
      StepOrderly(After(IDLE, es[..|es| - 1]), es[|es| - 1]);
    }
  }

  function Remaining(s: Serial): int {
    |s.pendingData| - s.pendingOffset
  }

  /** Room for any number of bytes shortens what remains, and the chunk written is no longer than the room. */
  lemma Progress(s: Serial, max: nat)
    requires s.pendingOffset < |s.pendingData| && max > 0
    ensures 0 <= Remaining(SendStreamAvailable(s, max)) < Remaining(s)
    ensures |s.written| < |SendStreamAvailable(s, max).written| <= |s.written| + max
  {
  }

  function Chunks(s: Serial, maxes: seq<nat>): Serial
    decreases |maxes|
  {
    if maxes == [] then s else Chunks(SendStreamAvailable(s, maxes[0]), maxes[1..])
  }

  /** Whatever room is offered each time, as long as it is some, a send goes out whole and is called back once,
      after at most as many chunks as it has bytes. */
  lemma {:induction false} GoesOutWhole(s: Serial, maxes: seq<nat>)
    requires s.pendingOffset < |s.pendingData| && |maxes| >= Remaining(s)
    requires forall i | 0 <= i < |maxes| :: maxes[i] > 0
    ensures var t := Chunks(s, maxes);
            && t.written == s.written + s.pendingData[s.pendingOffset..] && t.pendingData == []
            && t.finished == s.finished + [s.pendingData]
            && t.calls == s.calls + if s.pendingOnDone.Some? then [s.pendingOnDone.value] else []
    decreases |maxes|
  {
    var t := SendStreamAvailable(s, maxes[0]);
    Progress(s, maxes[0]);
    OneChunk(s, maxes[0]);
    if t.pendingData != [] {
      GoesOutWhole(t, maxes[1..]);
    } else {
      NothingPending(t, maxes[1..]);
    }
  }

  /** What is written and what remains make the same bytes before and after a chunk. */
  lemma OneChunk(s: Serial, max: nat)
    requires s.pendingOffset < |s.pendingData| && max > 0
    ensures var t := SendStreamAvailable(s, max);
            && t.written + t.pendingData[Min(t.pendingOffset, |t.pendingData|)..]
               == s.written + s.pendingData[s.pendingOffset..]
            && if t.pendingData != [] then
                 && t.pendingData == s.pendingData && t.pendingOffset < |t.pendingData|
                 && t.finished == s.finished && t.calls == s.calls && t.pendingOnDone == s.pendingOnDone
               else
                 && t.finished == s.finished + [s.pendingData]
                 && t.calls == s.calls + if s.pendingOnDone.Some? then [s.pendingOnDone.value] else []
  {
    var end := s.pendingOffset + Min(|s.pendingData| - s.pendingOffset, max);
    assert s.pendingData[s.pendingOffset..] == s.pendingData[s.pendingOffset..end] + s.pendingData[end..];
    assert s.written + s.pendingData[s.pendingOffset..end] + s.pendingData[end..]
        == s.written + (s.pendingData[s.pendingOffset..end] + s.pendingData[end..]);
    if end == |s.pendingData| {
      assert s.written + s.pendingData[s.pendingOffset..end] + [] == s.written + s.pendingData[s.pendingOffset..end];
    }
  }

  lemma {:induction false} NothingPending(s: Serial, maxes: seq<nat>)
    requires s.pendingData == []
    ensures Chunks(s, maxes) == s
    decreases |maxes|
  {
    if maxes != [] {
      NothingPending(s, maxes[1..]);
    }
  }

  /** A send under way survives every further send exactly when it has a callback: without one the next send
      takes its place and its remaining bytes are lost. */
  lemma SurvivesIff(s: Serial)
    requires s.pendingData != []
    ensures (forall data, onDone :: Survives(s, data, onDone)) <==> s.pendingOnDone.Some?
  {
    if s.pendingOnDone.None? {
      assert !Survives(s, s.pendingData + [0], None);
    }
  }

  predicate Survives(s: Serial, data: seq<Octet>, onDone: Option<nat>) {
    var t := RequestSend(s, data, onDone);
    t.pendingData == s.pendingData && t.pendingOffset == s.pendingOffset
  }

  // ---------------------------------------------------------------------------
  // Which send goes out
  // ---------------------------------------------------------------------------

  /** Without a connection the latest send is the one that goes out, from its first byte, when there is one; the send
      it replaces is called back at once. */
  lemma LatestGoesOut(s: Serial, data: seq<Octet>, onDone: Option<nat>)
    requires !s.connected && s.pendingOnDone == None && data != []
    ensures var queued := Step(s, Send(data, onDone));
            var t := Step(queued, Connect);
            && queued.written == s.written
            && queued.calls == s.calls + (if s.queuedOnDone.Some? then [s.queuedOnDone.value] else [])
            && t.connected && t.written == [] && t.calls == queued.calls
            && t.pendingData == data && t.pendingOffset == 0 && t.pendingOnDone == onDone
            && t.queuedData == [] && t.queuedOnDone == None
  {
    assert s.calls + [] == s.calls;
  }

  /** With a connection a send is taken while none with a callback is pending, and is otherwise called back at once
      without touching the pending one; a send of nothing is called back at once. */
  lemma TakenOrCalled(s: Serial, data: seq<Octet>, onDone: Option<nat>)
    requires s.connected
    ensures var t := Step(s, Send(data, onDone));
            if s.pendingOnDone == None && data != [] then
              t == s.(pendingData := data, pendingOffset := 0, pendingOnDone := onDone)
            else
              t == s.(calls := s.calls + if onDone.Some? then [onDone.value] else [])
  {
    assert s.calls + [] == s.calls;
  }
}
