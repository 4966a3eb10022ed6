/** The client's connection handler as it is implemented: two 16-byte buffers written in place. */
module TcpClientCanbusClass {
  import opened Basics
  import opened CanModel
  import opened M = CanStream

  class ConnectionHandler {
    const end: End
    const encode: Frame -> RawFrame
    const pendingSendFrame: array<Octet>
    const receiveAccumulator: array<Octet>
    var accumulatedBytes: nat
    var closed: bool                       // the connection was aborted
    var received: seq<Frame>
    var pendingSendOnDone: Option<nat>
    var written: seq<Octet>
    var completions: seq<Completion>
    ghost var pendingFrame: Frame
    ghost var sent: seq<Frame>

    ghost predicate CanReceive()
      reads this`accumulatedBytes
    {
      receiveAccumulator.Length == FRAME_SIZE && accumulatedBytes < FRAME_SIZE && end.strict
    }

    /** What is pending is in the buffer, and what was written is exactly the frames sent. */
    ghost predicate CanSend()
      reads this`pendingSendOnDone, this`pendingFrame, this`written, this`sent, pendingSendFrame
    {
      && pendingSendFrame.Length == FRAME_SIZE
      && (pendingSendOnDone.Some? ==> pendingSendFrame[..] == encode(pendingFrame))
      && written == Encode(sent, encode)
    }

    ghost function Receiving(): Receiver
      requires CanReceive()
      reads this`accumulatedBytes, this`closed, this`received, receiveAccumulator
    {
      Receiver(if closed then [] else receiveAccumulator[..accumulatedBytes], received, closed)
    }

    ghost function Sending(): Sender
      reads this`pendingFrame, this`pendingSendOnDone, this`sent, this`completions
    {
      Sender(pendingFrame, pendingSendOnDone, sent, completions)
    }

    constructor ()
      ensures CanReceive() && CanSend() && fresh(pendingSendFrame) && fresh(receiveAccumulator)
      ensures pendingSendFrame != receiveAccumulator
      ensures end == CLIENT && encode == ClientEncode && Receiving() == FRESH && Sending() == IDLE
    {
      end, encode := CLIENT, ClientEncode;
      pendingSendFrame := new Octet[FRAME_SIZE](i => 0);
      receiveAccumulator := new Octet[FRAME_SIZE](i => 0);
      accumulatedBytes, closed, received := 0, false, [];
      pendingSendOnDone, written, completions := None, [], [];
      pendingFrame, sent := NO_FRAME, [];
    }

    /** The bytes received are read in contiguous ranges: where the stream is at i, it has contiguous(i) bytes in
        one piece. Of them no more is taken than completes the frame. */
    method DataReceived(data: seq<Octet>, contiguous: nat -> nat)
      requires CanReceive() && !closed && forall i :: contiguous(i) > 0
      modifies this`accumulatedBytes, this`closed, this`received, receiveAccumulator
      ensures CanReceive() && Receiving() == Feed(old(Receiving()), data, end)
    {
      var i := 0;
      ghost var start, now := Receiving(), Receiving();
      NothingYet(start, data, end);
      while i < |data| && !closed
        invariant i <= |data| && CanReceive() && now == Receiving() && now == Feed(start, data[..i], end)
      {
        var n := Least(contiguous(i), Least(FRAME_SIZE - accumulatedBytes, |data| - i));
        Accumulate(data[i..i + n]);
        Further(start, data, i, i + n, now, Receiving(), end);
        now := Receiving();
        i := i + n;
      }
      NothingMore(start, data, i, end);
    }

    method Accumulate(chunk: seq<Octet>)
      requires CanReceive() && !closed && 0 < |chunk| <= FRAME_SIZE - accumulatedBytes
      modifies this`accumulatedBytes, this`closed, this`received, receiveAccumulator
      ensures CanReceive() && Receiving() == Feed(old(Receiving()), chunk, end)
    {
      ghost var before := Receiving();
      FeedChunk(before, chunk, end);
      CopyIn(chunk);
      var total := accumulatedBytes + |chunk|;
      if total >= FRAME_SIZE {
        DeliverAccumulated(before.held + chunk);
      } else {
        accumulatedBytes := total;
      }
    }

    method CopyIn(chunk: seq<Octet>)
      requires CanReceive() && |chunk| <= FRAME_SIZE - accumulatedBytes
      modifies receiveAccumulator
      ensures receiveAccumulator[..accumulatedBytes + |chunk|] == old(receiveAccumulator[..accumulatedBytes]) + chunk
    {
      forall j | 0 <= j < |chunk| {
        receiveAccumulator[accumulatedBytes + j] := chunk[j];
      }
      assert receiveAccumulator[..accumulatedBytes] == old(receiveAccumulator[..accumulatedBytes]);
      forall j | 0 <= j < |chunk|
        ensures receiveAccumulator[accumulatedBytes..accumulatedBytes + |chunk|][j] == chunk[j]
      {
        assert receiveAccumulator[accumulatedBytes + j] == chunk[j];
      }
      assert receiveAccumulator[accumulatedBytes..accumulatedBytes + |chunk|] == chunk;
    }

    /** A complete frame is delivered, or the connection is aborted. */
    method DeliverAccumulated(ghost raw: RawFrame)
      requires CanReceive() && !closed && receiveAccumulator[..] == raw
      modifies this`accumulatedBytes, this`closed, this`received
      ensures CanReceive() && Receiving() == Deliver(old(Receiving()), raw, end)
    {
      match end.decode(receiveAccumulator[..])
      case Some(f) =>
        received := received + [f];
        accumulatedBytes := 0;
      case None =>
        closed := true;
        accumulatedBytes := 0;
    }

    method RequestSend(f: Frame, onDone: Option<nat>, maxSendStreamSize: nat)
      requires CanSend()
      modifies this`pendingSendOnDone, this`completions, this`pendingFrame, pendingSendFrame
      ensures CanSend() && Sending() == M.RequestSend(old(Sending()), f, onDone, maxSendStreamSize)
    {
      if pendingSendOnDone.Some? || maxSendStreamSize < FRAME_SIZE {
        if onDone.Some? {
          completions := completions + [Completion(onDone.value, false)];
        }
        return;
      }
      var raw := encode(f);
      forall j | 0 <= j < FRAME_SIZE {
        pendingSendFrame[j] := raw[j];
      }
      assert pendingSendFrame[..] == raw;
      pendingFrame := f;
      pendingSendOnDone := onDone;
    }

    /** Write the frame, and only then call back; the callback is cleared first. */
    method SendStreamAvailable()
      requires CanSend()
      modifies this`pendingSendOnDone, this`completions, this`written, this`sent
      ensures CanSend() && Sending() == M.SendStreamAvailable(old(Sending()))
      ensures written == old(written) + if old(pendingSendOnDone).None? then [] else pendingSendFrame[..]
    {
      if pendingSendOnDone.None? {
        return;
      }
      written := written + pendingSendFrame[..];
      assert (sent + [pendingFrame])[..|sent|] == sent;
      sent := sent + [pendingFrame];
      var onDone := pendingSendOnDone.value;
      pendingSendOnDone := None;
      completions := completions + [Completion(onDone, true)];
    }

    method FailPendingSend()
      requires CanSend()
      modifies this`pendingSendOnDone, this`completions
      ensures CanSend() && Sending() == M.FailPendingSend(old(Sending()))
    {
      if pendingSendOnDone.Some? {
        var onDone := pendingSendOnDone.value;
        pendingSendOnDone := None;
        completions := completions + [Completion(onDone, false)];
      }
    }
  }

  function Least(x: nat, y: nat): nat { if x < y then x else y }

  lemma NothingYet(start: Receiver, data: seq<Octet>, end: End)
    ensures Feed(start, data[..0], end) == start
  {
    assert data[..0] == [];
  }

  lemma Further(start: Receiver, data: seq<Octet>, i: nat, j: nat, now: Receiver, next: Receiver, end: End)
    requires i <= j <= |data| && now == Feed(start, data[..i], end) && next == Feed(now, data[i..j], end)
    ensures next == Feed(start, data[..j], end)
  {
    assert data[..j] == data[..i] + data[i..j];
    FeedConcat(start, data[..i], data[i..j], end);
  }

  lemma NothingMore(start: Receiver, data: seq<Octet>, i: nat, end: End)
    requires i <= |data| && (i == |data| || Feed(start, data[..i], end).closed)
    ensures Feed(start, data, end) == Feed(start, data[..i], end)
  {
    if i < |data| {
      var now := Feed(start, data[..i], end);
      Closed(now, data[i..|data|], end);
      Further(start, data, i, |data|, now, now, end);
    }
    assert data[..|data|] == data;
  }
}
