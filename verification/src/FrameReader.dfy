/** Frames off a byte stream (crates/local/ipc-server/src/frames.rs): a buffer
    that holds no more than the frame in hand and one read past it. */
module FrameReader {
  import opened Common
  import opened Bytes
  import opened Framing

  const CHUNK: nat := 8192

  /** A frame whole in the buffer is the stream's next, whatever is unread. */
  lemma BodyInHand(judge: Judge, buf: seq<Byte>, unread: seq<Byte>)
    requires DecodeFrame(judge, buf).Ok?
    ensures var d := DecodeFrame(judge, buf).value;
            && d.consumed <= |buf| && NextOf(judge, buf + unread) == Body(d.body)
            && Advance(judge, buf + unread) == buf[d.consumed..] + unread
  {
    SettledIsStable(judge, buf, unread);
    DecodedEncodes(judge, buf);
  }

  lemma FaultInHand(judge: Judge, buf: seq<Byte>, unread: seq<Byte>)
    requires DecodeFrame(judge, buf).Err? && !DecodeFrame(judge, buf).error.Incomplete?
    ensures NextOf(judge, buf + unread) == Bad(DecodeFrame(judge, buf).error)
  {
    SettledIsStable(judge, buf, unread);
  }

  /** The stream's other end: what it has written and this end has not read, and
      whether the socket has failed. */
  class Socket {
    var unread: seq<Byte>
    var failed: bool

    constructor (written: seq<Byte>)
      ensures unread == written && !failed
    {
      unread, failed := written, false;
    }

    /** At most `max` bytes, at least one while any are left, or a failure. */
    method Read(max: nat) returns (bytes: Option<seq<Byte>>)
      requires max > 0
      modifies this
      ensures bytes.None? <==> failed
      ensures bytes.None? ==> unread == old(unread)
      ensures bytes.Some? ==> bytes.value + unread == old(unread) && |bytes.value| <= max
      ensures bytes.Some? ==> (bytes.value == [] <==> old(unread) == [])
    {
      if * {
        failed := true;
      }
      if failed {
        return None;
      }
      var n: nat :| n <= max && n <= |unread| && (n == 0 <==> unread == []);
      bytes := Some(unread[..n]);
      unread := unread[n..];
    }
  }

  class Reader {
    const judge: Judge
    const socket: Socket
    var buf: seq<Byte>

    /** The stream from where the last frame ended. */
    ghost function Stream(): seq<Byte>
      reads this, socket
    {
      buf + socket.unread
    }

    /** What a hostile length can make this end hold. */
    ghost predicate Bounded()
      reads this
    {
      |buf| < 4 + 131_072 + 8192
    }

    constructor (judge: Judge, socket: Socket)
      ensures this.judge == judge && this.socket == socket && Stream() == socket.unread && Bounded()
    {
      this.judge, this.socket := judge, socket;
      buf := [];
    }

    /** The next frame's body, or how the stream ended, whatever pieces it
        came in. */
    method Next() returns (next: Next)
      requires Bounded()
      modifies this, socket
      ensures Bounded()
      ensures if next == Failed then socket.failed else next == NextOf(judge, old(Stream()))
      ensures Stream() == if next.Body? then Advance(judge, old(Stream())) else old(Stream())
    {
      ghost var stream := Stream();
      while true
        invariant Bounded() && Stream() == stream
        decreases |socket.unread|
      {
        var decoded := DecodeFrame(judge, buf);
        if decoded.Ok? {
          BodyInHand(judge, buf, socket.unread);
          buf := buf[decoded.value.consumed..];
          return Body(decoded.value.body);
        }
        if !decoded.error.Incomplete? {
          FaultInHand(judge, buf, socket.unread);
          return Bad(decoded.error);
        }
        NeededIsExact(judge, buf, []);
        var chunk := socket.Read(CHUNK);
        if chunk.None? {
          return Failed;
        }
        if chunk.value == [] {
          return if buf == [] then End else Truncated;
        }
        buf := buf + chunk.value;
      }
    }

    /** Every body the stream carries, and its ending. */
    method ReadAll() returns (bodies: seq<seq<Byte>>, ending: Next)
      requires Bounded()
      modifies this, socket
      ensures if ending == Failed then socket.failed else (bodies, ending) == Bodies(judge, old(Stream()))
    {
      ghost var whole := Bodies(judge, Stream());
      bodies := [];
      assert [] + whole.0 == whole.0;
      while true
        invariant Bounded() && ReadSoFar(judge, whole, bodies, Stream())
        decreases |Stream()|
      {
        ghost var stream := Stream();
        ending := Next();
        if !ending.Body? {
          if ending != Failed {
            ReadToTheEnd(judge, whole, bodies, stream);
          }
          return;
        }
        ReadOneMore(judge, whole, bodies, stream);
        bodies := bodies + [ending.body];
      }
    }
  }

  /** Whatever pieces the frames of `bodies` arrive in, exactly `bodies` are
      read, in order, and then the end, unless the socket fails. */
  method ReadBack(judge: Judge, bodies: seq<seq<Byte>>, socket: Socket) returns (got: seq<seq<Byte>>, ending: Next)
    requires Encodable(judge, bodies) && socket.unread == Frames(judge, bodies)
    modifies socket
    ensures if ending == Failed then socket.failed else got == bodies && ending == End
  {
    StreamRoundTrips(judge, bodies, [], [], End);
    assert socket.unread + [] == socket.unread && bodies + [] == bodies;
    var reader := new Reader(judge, socket);
    got, ending := reader.ReadAll();
  }
}
