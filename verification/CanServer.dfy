/** The server's end of the CAN bridge. */
module CanServer {
  import opened Basics
  import opened CanModel
  import opened CanStream

  /** The server's loop from the connection to the bus: a buffer grows by what is read and loses a frame at a
      time from the front. */
  method TcpToCan(buf: seq<Octet>, data: seq<Octet>, server: End) returns (rest: seq<Octet>, messages: seq<Frame>)
    requires |buf| < FRAME_SIZE && !server.strict
    ensures |rest| < FRAME_SIZE
    ensures Receiver(rest, messages, false) == Feed(Receiver(buf, [], false), data, server)
  {
    rest, messages := buf + data, [];
    ghost var done: seq<Octet> := [];
    ghost var start := Receiver([], [], false);
    while |rest| >= FRAME_SIZE
      invariant buf + data == done + rest
      invariant Feed(start, done, server) == Receiver([], messages, false)
    {
      var rawFrame := rest[..FRAME_SIZE];
      AppendBlock(start, done, Receiver([], messages, false), rawFrame, server);
      done := done + rawFrame;
      rest := rest[FRAME_SIZE..];
      var msg := server.decode(rawFrame);
      if msg.Some? {
        messages := messages + [msg.value];
      }
    }
    AppendRest(start, done, Receiver([], messages, false), rest, server);
    Buffered(start, buf, data, server);
  }

  lemma Buffered(start: Receiver, buf: seq<Octet>, data: seq<Octet>, end: End)
    requires start.held == [] && !start.closed && |buf| < FRAME_SIZE
    ensures Feed(start, buf + data, end) == Feed(start.(held := buf), data, end)
  {
    FeedConcat(start, buf, data, end);
    FeedChunk(start, buf, end);
    assert start.held + buf == buf;
  }
}
