/** The serial client and its connection handler as they are implemented. */
module TcpClientSerialClass {
  import opened Basics
  import opened M = SerialModel

  class TcpClientSerial {
    var connected: bool
    var queuedSendData: seq<Octet>
    var queuedSendOnDone: Option<nat>
    var pendingSendData: seq<Octet>
    var pendingSendOffset: nat
    var pendingSendOnDone: Option<nat>
    var written: seq<Octet>
    var calls: seq<nat>
    ghost var finished: seq<seq<Octet>>

    ghost function View(): Serial
      reads this
    {
      Serial(connected, queuedSendData, queuedSendOnDone, pendingSendData, pendingSendOffset, pendingSendOnDone,
             written, finished, calls)
    }

    constructor ()
      ensures View() == IDLE
    {
      connected, queuedSendData, queuedSendOnDone := false, [], None;
      pendingSendData, pendingSendOffset, pendingSendOnDone := [], 0, None;
      written, calls, finished := [], [], [];
    }

    method Invoke(onDone: Option<nat>)
      modifies this`calls
      ensures View() == Call(old(View()), onDone)
    {
      if onDone.Some? {
        calls := calls + [onDone.value];
      }
    }

    method SendData(data: seq<Octet>, actionOnCompletion: Option<nat>)
      modifies this
      ensures View() == M.SendData(old(View()), data, actionOnCompletion)
    {
      if connected {
        RequestSend(data, actionOnCompletion);
      } else {
        if queuedSendOnDone.Some? {
          var previousOnDone := queuedSendOnDone;
          queuedSendOnDone := None;
          Invoke(previousOnDone);
        }
        queuedSendData := data;
        queuedSendOnDone := actionOnCompletion;
      }
    }

    method OnConnectionEstablished()
      modifies this
      ensures View() == ConnectionEstablished(old(View()))
    {
      connected, written, finished := true, [], [];
      if queuedSendData != [] || queuedSendOnDone.Some? {
        RequestSend(queuedSendData, queuedSendOnDone);
        queuedSendData := [];
        queuedSendOnDone := None;
      }
    }

    method OnDisconnected()
      modifies this
      ensures View() == Disconnected(old(View()))
    {
      connected := false;
      if queuedSendOnDone.Some? {
        var onDone := queuedSendOnDone;
        queuedSendOnDone := None;
        queuedSendData := [];
        Invoke(onDone);
      } else {
        queuedSendData := [];
      }
      FailPendingSend();
    }

    method RequestSend(data: seq<Octet>, onDone: Option<nat>)
      modifies this`pendingSendData, this`pendingSendOffset, this`pendingSendOnDone, this`calls
      ensures View() == M.RequestSend(old(View()), data, onDone)
    {
      if pendingSendOnDone.Some? || data == [] {
        Invoke(onDone);
        return;
      }
      pendingSendData := data;
      pendingSendOffset := 0;
      pendingSendOnDone := onDone;
    }

    method SendStreamAvailable(maxSendStreamSize: nat)
      requires pendingSendOffset <= |pendingSendData|
      modifies this`pendingSendData, this`pendingSendOffset, this`pendingSendOnDone, this`written, this`finished,
               this`calls
      ensures pendingSendOffset <= |pendingSendData|
      ensures View() == M.SendStreamAvailable(old(View()), maxSendStreamSize)
    {
      if pendingSendData == [] {
        return;
      }
      var remainingBytes := |pendingSendData| - pendingSendOffset;
      var chunkSize := Min(remainingBytes, maxSendStreamSize);
      written := written + pendingSendData[pendingSendOffset..pendingSendOffset + chunkSize];
      pendingSendOffset := pendingSendOffset + chunkSize;
      if pendingSendOffset < |pendingSendData| {
        return;
      }
      finished := finished + [pendingSendData];
      pendingSendData := [];
      pendingSendOffset := 0;
      var onDone := pendingSendOnDone;
      pendingSendOnDone := None;
      Invoke(onDone);
    }

    method FailPendingSend()
      modifies this`pendingSendData, this`pendingSendOffset, this`pendingSendOnDone, this`calls
      ensures View() == M.FailPendingSend(old(View()))
    {
      pendingSendData := [];
      pendingSendOffset := 0;
      if pendingSendOnDone.Some? {
        var onDone := pendingSendOnDone;
        pendingSendOnDone := None;
        Invoke(onDone);
      }
    }
  }
}
