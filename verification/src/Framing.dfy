/** The length-prefixed frame codec (crates/api/ipc-protocol/src/framing.rs):
    four big-endian bytes of length, then that many bytes of a JSON object. */
module Framing {
  import opened Common
  import opened Bytes

  const LENGTH_PREFIX_BYTES: nat := 4
  const MAX_BODY_BYTES: nat := 131_072

  /** What the UTF-8 and JSON parsers say of a body, whoever they are. */
  datatype Verdict = JsonObject | InvalidUtf8 | InvalidJson(detail: string) | OtherJson

  type Judge = seq<Byte> -> Verdict

  datatype FrameError =
    | BodyTooLarge(declared: nat)
    | ZeroLength
    | Incomplete(needed: nat)
    | NotUtf8
    | NotJson(detail: string)
    | NotAnObject

  datatype Decoded = Decoded(body: seq<Byte>, consumed: nat)

  lemma PrefixHolds()
    ensures Pow256(4) == 0x1_0000_0000
  {
    assert Pow256(2) == 65536;
  }

  /** The body's own rules, the same at both ends. */
  function Judged(judge: Judge, body: seq<Byte>): Result<seq<Byte>, FrameError> {
    match judge(body)
    case JsonObject => Ok(body)
    case InvalidUtf8 => Err(NotUtf8)
    case InvalidJson(detail) => Err(NotJson(detail))
    case OtherJson => Err(NotAnObject)
  }

  /** Encode a body, text already, into a complete frame. */
  function EncodeFrame(judge: Judge, body: seq<Byte>): Result<seq<Byte>, FrameError>
    requires judge(body) != InvalidUtf8
  {
    if body == [] then Err(ZeroLength)
    else if |body| > MAX_BODY_BYTES then Err(BodyTooLarge(|body|))
    else
      var judged := Judged(judge, body);
      if judged.Err? then judged
      else
        PrefixHolds();
        Ok(BigEndian(|body|, LENGTH_PREFIX_BYTES) + body)
  }

  /** Decode one frame from the front of a buffer. The declared length is
      judged before the buffer is consulted. */
  function DecodeFrame(judge: Judge, buffer: seq<Byte>): Result<Decoded, FrameError> {
    if |buffer| < LENGTH_PREFIX_BYTES then Err(Incomplete(LENGTH_PREFIX_BYTES - |buffer|))
    else
      var declared := Value(buffer[..LENGTH_PREFIX_BYTES]);
      if declared == 0 then Err(ZeroLength)
      else if declared > MAX_BODY_BYTES then Err(BodyTooLarge(declared))
      else
        var total := LENGTH_PREFIX_BYTES + declared;
        if |buffer| < total then Err(Incomplete(total - |buffer|))
        else
          var judged := Judged(judge, buffer[LENGTH_PREFIX_BYTES..total]);
          if judged.Err? then Err(judged.error) else Ok(Decoded(judged.value, total))
  }

  /** Four bytes as a number, the most significant first. */
  ghost function Word(a: int, b: int, c: int, d: int): int {
    a * 0x100_0000 + b * 0x1_0000 + c * 0x100 + d
  }

  /** Which bodies are framed, and how: one of at most 128 KiB, not empty, that is
      a JSON object, behind the four bytes of its length, the most significant
      first. Any other is refused for its length before it is judged. */
  lemma FramesAre(judge: Judge, body: seq<Byte>)
    requires judge(body) != InvalidUtf8
    ensures var r := EncodeFrame(judge, body);
            && (r.Ok? <==> 0 < |body| <= 131_072 && judge(body) == JsonObject)
            && (r.Ok? ==> |r.value| == 4 + |body| && r.value[4..] == body
                          && Word(r.value[0], r.value[1], r.value[2], r.value[3]) == |body|)
            && (r == Err(ZeroLength) <==> |body| == 0)
            && (r == Err(BodyTooLarge(|body|)) <==> |body| > 131_072)
            && (0 < |body| <= 131_072 && judge(body) == OtherJson ==> r == Err(NotAnObject))
            && (0 < |body| <= 131_072 && judge(body).InvalidJson? ==> r == Err(NotJson(judge(body).detail)))
  {
    PrefixHolds();
    var r := EncodeFrame(judge, body);
    if r.Ok? {
      var prefix := BigEndian(|body|, 4);
      ValueOfBigEndian(|body|, 4);
      FourBytes(prefix);
      assert r.value == prefix + body;
    }
  }

  lemma FourBytes(bytes: seq<Byte>)
    requires |bytes| == 4
    ensures Value(bytes) == Word(bytes[0], bytes[1], bytes[2], bytes[3])
  {
    assert Value(bytes[..3]) == Value(bytes[..3][..2]) * 256 + bytes[2];
    assert bytes[..3][..2] == bytes[..2] && bytes[..2][..1] == bytes[..1] && bytes[..1][..0] == [];
    assert Value(bytes[..2]) == Value(bytes[..1]) * 256 + bytes[1];
  }

  /** What a whole frame on the wire is judged: its length first, then its text. */
  lemma FramesAreJudged(judge: Judge, buffer: seq<Byte>)
    requires |buffer| >= 4
    ensures var declared := Word(buffer[0], buffer[1], buffer[2], buffer[3]);
            var r := DecodeFrame(judge, buffer);
            && (declared == 0 ==> r == Err(ZeroLength))
            && (declared > 131_072 ==> r == Err(BodyTooLarge(declared)))
            && (0 < declared <= 131_072 && |buffer| < 4 + declared ==> r == Err(Incomplete(4 + declared - |buffer|)))
            && (0 < declared <= 131_072 && |buffer| >= 4 + declared ==>
                  var body := buffer[4..4 + declared];
                  r == match judge(body)
                       case JsonObject => Ok(Decoded(body, 4 + declared))
                       case InvalidUtf8 => Err(NotUtf8)
                       case InvalidJson(detail) => Err(NotJson(detail))
                       case OtherJson => Err(NotAnObject))
  {
    FourBytes(buffer[..4]);
  }

  /** What was encoded decodes to itself, whatever follows it. */
  lemma EncodedDecodes(judge: Judge, body: seq<Byte>, rest: seq<Byte>)
    requires judge(body) != InvalidUtf8 && EncodeFrame(judge, body).Ok?
    ensures DecodeFrame(judge, EncodeFrame(judge, body).value + rest) ==
            Ok(Decoded(body, |EncodeFrame(judge, body).value|))
  {
    PrefixHolds();
    ValueOfBigEndian(|body|, LENGTH_PREFIX_BYTES);
    var frame := EncodeFrame(judge, body).value;
    assert (frame + rest)[..LENGTH_PREFIX_BYTES] == BigEndian(|body|, LENGTH_PREFIX_BYTES);
    assert (frame + rest)[LENGTH_PREFIX_BYTES..LENGTH_PREFIX_BYTES + |body|] == body;
  }

  /** Whatever decodes is exactly what the encoder writes for its body: no
      frame is accepted that this end would not send. */
  lemma DecodedEncodes(judge: Judge, buffer: seq<Byte>)
    requires DecodeFrame(judge, buffer).Ok?
    ensures var d := DecodeFrame(judge, buffer).value;
            d.consumed <= |buffer| && judge(d.body) == JsonObject
            && EncodeFrame(judge, d.body) == Ok(buffer[..d.consumed])
  {
    PrefixHolds();
    var d := DecodeFrame(judge, buffer).value;
    var prefix := buffer[..LENGTH_PREFIX_BYTES];
    ValueFits(prefix);
    BigEndianOfValue(prefix);
    assert buffer[..d.consumed] == prefix + buffer[LENGTH_PREFIX_BYTES..d.consumed];
  }

  /** A settled answer does not depend on what follows. */
  lemma SettledIsStable(judge: Judge, buffer: seq<Byte>, more: seq<Byte>)
    requires DecodeFrame(judge, buffer).Ok? || !DecodeFrame(judge, buffer).error.Incomplete?
    ensures DecodeFrame(judge, buffer + more) == DecodeFrame(judge, buffer)
  {
    assert (buffer + more)[..LENGTH_PREFIX_BYTES] == buffer[..LENGTH_PREFIX_BYTES];
    var declared := Value(buffer[..LENGTH_PREFIX_BYTES]);
    if 0 < declared <= MAX_BODY_BYTES {
      var total := LENGTH_PREFIX_BYTES + declared;
      assert (buffer + more)[LENGTH_PREFIX_BYTES..total] == buffer[LENGTH_PREFIX_BYTES..total];
    }
  }

  /** `needed` is exact: with fewer more bytes nothing is settled, and the
      bytes asked for belong to the frame in hand. */
  lemma NeededIsExact(judge: Judge, buffer: seq<Byte>, more: seq<Byte>)
    requires DecodeFrame(judge, buffer).Err? && DecodeFrame(judge, buffer).error.Incomplete?
    ensures var needed := DecodeFrame(judge, buffer).error.needed;
            && 0 < needed <= LENGTH_PREFIX_BYTES + MAX_BODY_BYTES - |buffer|
            && (|more| < needed ==> DecodeFrame(judge, buffer + more).Err?
                                    && DecodeFrame(judge, buffer + more).error.Incomplete?)
            && (DecodeFrame(judge, buffer + more).Ok? ==>
                  |buffer| + needed <= DecodeFrame(judge, buffer + more).value.consumed)
  {
    if |buffer| >= LENGTH_PREFIX_BYTES {
      assert (buffer + more)[..LENGTH_PREFIX_BYTES] == buffer[..LENGTH_PREFIX_BYTES];
    }
  }

  // -----------------------------------------------------------------
  // A stream of frames

  datatype Next =
    | Body(body: seq<Byte>)
    | End          // a clean end, between frames
    | Truncated    // the peer went away mid-frame
    | Bad(error: FrameError)
    | Failed       // the socket failed

  /** What the rest of a stream says next, seen whole. */
  function NextOf(judge: Judge, stream: seq<Byte>): Next {
    match DecodeFrame(judge, stream)
    case Ok(d) => Body(d.body)
    case Err(Incomplete(_)) => if stream == [] then End else Truncated
    case Err(e) => Bad(e)
  }

  /** What remains of it then. */
  function Advance(judge: Judge, stream: seq<Byte>): seq<Byte> {
    match DecodeFrame(judge, stream)
    case Ok(d) => DecodedEncodes(judge, stream); stream[d.consumed..]
    case Err(_) => stream
  }

  /** Every body of a stream, and how the stream ends. */
  ghost function Bodies(judge: Judge, stream: seq<Byte>): (seq<seq<Byte>>, Next)
    decreases |stream|
  {
    var next := NextOf(judge, stream);
    if next.Body? then
      DecodedEncodes(judge, stream);
      var rest := Bodies(judge, Advance(judge, stream));
      ([next.body] + rest.0, rest.1)
    else ([], next)
  }

  ghost predicate Encodable(judge: Judge, bodies: seq<seq<Byte>>) {
    forall i :: 0 <= i < |bodies| ==> judge(bodies[i]) != InvalidUtf8 && EncodeFrame(judge, bodies[i]).Ok?
  }

  ghost function Frames(judge: Judge, bodies: seq<seq<Byte>>): seq<Byte>
    requires Encodable(judge, bodies)
  {
    if bodies == [] then [] else EncodeFrame(judge, bodies[0]).value + Frames(judge, bodies[1..])
  }

  lemma OneBody(judge: Judge, body: seq<Byte>, rest: seq<Byte>)
    requires judge(body) != InvalidUtf8 && EncodeFrame(judge, body).Ok?
    ensures Bodies(judge, EncodeFrame(judge, body).value + rest) ==
            ([body] + Bodies(judge, rest).0, Bodies(judge, rest).1)
  {
    var stream := EncodeFrame(judge, body).value + rest;
    EncodedDecodes(judge, body, rest);
    assert Advance(judge, stream) == rest;
  }

  /** A stream of frames is read back body for body, then ends as what
      follows it ends. */
  lemma {:induction false} StreamRoundTrips(
    judge: Judge, bodies: seq<seq<Byte>>, tail: seq<Byte>, after: seq<seq<Byte>>, ending: Next)
    requires Encodable(judge, bodies) && Bodies(judge, tail) == (after, ending)
    ensures Bodies(judge, Frames(judge, bodies) + tail) == (bodies + after, ending)
  {
    if bodies == [] {
      assert Frames(judge, bodies) + tail == tail && bodies + after == after;
    } else {
      StreamRoundTrips(judge, bodies[1..], tail, after, ending);
      OneBody(judge, bodies[0], Frames(judge, bodies[1..]) + tail);
      RegroupFrames(judge, bodies, tail);
      HeadAndRest(bodies, after);
    }
  }

  lemma RegroupFrames(judge: Judge, bodies: seq<seq<Byte>>, tail: seq<Byte>)
    requires Encodable(judge, bodies) && bodies != []
    ensures Frames(judge, bodies) + tail ==
            EncodeFrame(judge, bodies[0]).value + (Frames(judge, bodies[1..]) + tail)
  {
  }

  /** `bodies` were read and `stream` is left, of a stream that held
      `whole`. */
  ghost predicate ReadSoFar(judge: Judge, whole: (seq<seq<Byte>>, Next), bodies: seq<seq<Byte>>, stream: seq<Byte>) {
    whole.0 == bodies + Bodies(judge, stream).0 && whole.1 == Bodies(judge, stream).1
  }

  lemma ReadOneMore(judge: Judge, whole: (seq<seq<Byte>>, Next), bodies: seq<seq<Byte>>, stream: seq<Byte>)
    requires ReadSoFar(judge, whole, bodies, stream) && NextOf(judge, stream).Body?
    ensures ReadSoFar(judge, whole, bodies + [NextOf(judge, stream).body], Advance(judge, stream))
    ensures |Advance(judge, stream)| < |stream|
  {
    DecodedEncodes(judge, stream);
    Regroup(bodies, NextOf(judge, stream).body, Bodies(judge, Advance(judge, stream)).0);
  }

  lemma ReadToTheEnd(judge: Judge, whole: (seq<seq<Byte>>, Next), bodies: seq<seq<Byte>>, stream: seq<Byte>)
    requires ReadSoFar(judge, whole, bodies, stream) && !NextOf(judge, stream).Body?
    ensures whole == (bodies, NextOf(judge, stream))
  {
    assert Bodies(judge, stream).0 == [];
    assert bodies + [] == bodies;
  }
}
