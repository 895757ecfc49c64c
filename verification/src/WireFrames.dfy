/** The binary frames of the fixture verifier
    (tools/checks/verify_fixture_vectors.py): the direct message, the broadcast
    envelope, and the buffer that is hashed into a content fingerprint. Each is
    a chain of fields that announce their own length, and each is proved
    uniquely readable: whatever follows it, a frame says where it ends and what
    it was written from. */
module WireFrames {
  import opened Common
  import opened Bytes

  /** What an encoder refuses a vector for, in the order it looks. */
  datatype Refusal =
    | WrongVersion
    | WrongIdLength
    | SentDoesNotFit
    | SourceNotAscii
    | BadSource
    | DestinationNotAscii
    | BadDestination
    | MediaNotAscii
    | BadMedia
    | PayloadDoesNotFit
    | LengthDisagrees

  ghost function Rank(e: Refusal): nat {
    match e
    case WrongVersion => 0
    case WrongIdLength => 1
    case SentDoesNotFit => 2
    case SourceNotAscii => 3
    case BadSource => 4
    case DestinationNotAscii => 5
    case BadDestination => 6
    case MediaNotAscii => 7
    case BadMedia => 8
    case PayloadDoesNotFit => 9
    case LengthDisagrees => 10
  }

  // -----------------------------------------------------------------
  // Fields

  ghost predicate Ascii(text: string) {
    forall i :: 0 <= i < |text| ==> text[i] as int < 128
  }

  ghost function Encoded(text: string): (bytes: seq<Byte>)
    requires Ascii(text)
    ensures |bytes| == |text| && forall i :: 0 <= i < |text| ==> bytes[i] == text[i] as int
  {
    seq(|text|, i requires 0 <= i < |text| => text[i] as int)
  }

  lemma EncodedIsOneToOne(a: string, b: string)
    requires Ascii(a) && Ascii(b) && Encoded(a) == Encoded(b)
    ensures a == b
  {
    forall i | 0 <= i < |a|
      ensures a[i] == b[i]
    {
      assert Encoded(a)[i] == Encoded(b)[i];
    }
  }

  /** Strict ASCII: a character outside it refuses the whole text. */
  method EncodeAscii(text: string) returns (r: Option<seq<Byte>>)
    ensures r.Some? <==> Ascii(text)
    ensures r.Some? ==> r.value == Encoded(text)
  {
    var bytes: seq<Byte> := [];
    for i := 0 to |text|
      invariant |bytes| == i
      invariant forall k :: 0 <= k < i ==> text[k] as int < 128 && bytes[k] == text[k] as int
    {
      if text[i] as int >= 128 {
        return None;
      }
      bytes := bytes + [text[i] as int];
    }
    return Some(bytes);
  }

  /** A length in `width` bytes, the bytes it counts, then what follows. */
  ghost function Field(width: nat, body: seq<Byte>, tail: seq<Byte>): seq<Byte>
    requires |body| < Pow256(width)
  {
    BigEndian(|body|, width) + (body + tail)
  }

  lemma Peel(a: seq<Byte>, s: seq<Byte>, b: seq<Byte>, t: seq<Byte>)
    requires |a| == |b| && a + s == b + t
    ensures a == b && s == t
  {
    assert a == (a + s)[..|a|] && b == (b + t)[..|b|];
    assert s == (a + s)[|a|..] && t == (b + t)[|b|..];
  }

  lemma NumberPeels(m: nat, n: nat, width: nat, s: seq<Byte>, t: seq<Byte>)
    requires m < Pow256(width) && n < Pow256(width)
    requires BigEndian(m, width) + s == BigEndian(n, width) + t
    ensures m == n && s == t
  {
    Peel(BigEndian(m, width), s, BigEndian(n, width), t);
    ValueOfBigEndian(m, width);
    ValueOfBigEndian(n, width);
  }

  /** A field says where it ends. */
  lemma FieldPeels(width: nat, a: seq<Byte>, s: seq<Byte>, b: seq<Byte>, t: seq<Byte>)
    requires |a| < Pow256(width) && |b| < Pow256(width)
    requires Field(width, a, s) == Field(width, b, t)
    ensures a == b && s == t
  {
    NumberPeels(|a|, |b|, width, a + s, b + t);
    Peel(a, s, b, t);
  }

  /** Where a field's length, its bytes and what follows stand. */
  lemma FieldAt(f: seq<Byte>, at: nat, width: nat, body: seq<Byte>, tail: seq<Byte>)
    requires at <= |f| && |body| < Pow256(width) && f[at..] == Field(width, body, tail)
    ensures var from := at + width;
            && |f| == from + |body| + |tail| && Value(f[at..from]) == |body|
            && f[from..from + |body|] == body && f[from + |body|..] == tail
  {
    var rest, from := f[at..], at + width;
    ValueOfBigEndian(|body|, width);
    assert rest[..width] == BigEndian(|body|, width);
    assert f[at..from] == rest[..width];
    assert f[from..from + |body|] == rest[width..width + |body|] == body;
    assert f[from + |body|..] == rest[width + |body|..] == tail;
  }

  /** The same of a text behind one byte of length. */
  lemma TextAt(f: seq<Byte>, at: nat, text: string, tail: seq<Byte>)
    requires at <= |f| && Ascii(text) && |text| < Pow256(1) && f[at..] == Field(1, Encoded(text), tail)
    ensures |f| == at + 1 + |text| + |tail| && f[at] == |text|
    ensures f[at + 1..at + 1 + |text|] == Encoded(text) && f[at + 1 + |text|..] == tail
  {
    FieldAt(f, at, 1, Encoded(text), tail);
    Widths();
    OneByteLength(|text|);
    assert f[at..][0] == BigEndian(|text|, 1)[0];
  }

  lemma Widths()
    ensures Pow256(1) == 256 && Pow256(2) == 65536 && Pow256(4) == 0x1_0000_0000
    ensures Pow256(8) == 0x1_0000_0000_0000_0000
  {
    assert Pow256(1) == 256;
    assert Pow256(2) == 65536;
    assert Pow256(3) == 0x100_0000;
    assert Pow256(5) == 0x100_0000_0000;
    assert Pow256(7) == 0x100_0000_0000_0000;
  }

  method ToBytes(n: int, width: nat) returns (r: Option<seq<Byte>>)
    ensures r.Some? <==> 0 <= n < Pow256(width)
    ensures r.Some? ==> r.value == BigEndian(n, width)
  {
    if 0 <= n < Pow256(width) {
      r := Some(BigEndian(n, width));
    } else {
      r := None;
    }
  }

  // -----------------------------------------------------------------
  // Media and payload, which end every frame

  /** Absence is written as no characters. */
  function Text(o: Option<string>): string {
    if o.Some? then o.value else ""
  }

  ghost predicate MediaSound(media: Option<string>) {
    Ascii(Text(media)) && (media.Some? ==> 1 <= |media.value| <= 128)
  }

  ghost predicate PayloadFits(payload: seq<Byte>) {
    |payload| < 0x1_0000_0000
  }

  ghost function Ending(media: Option<string>, payload: seq<Byte>, tail: seq<Byte>): seq<Byte>
    requires MediaSound(media) && PayloadFits(payload)
  {
    Widths();
    Field(1, Encoded(Text(media)), Field(4, payload, tail))
  }

  /** A present media type is never empty, so absence has its own encoding. */
  lemma EndingPeels(m: Option<string>, p: seq<Byte>, s: seq<Byte>, n: Option<string>, q: seq<Byte>, t: seq<Byte>)
    requires MediaSound(m) && PayloadFits(p) && MediaSound(n) && PayloadFits(q)
    requires Ending(m, p, s) == Ending(n, q, t)
    ensures m == n && p == q && s == t
  {
    Widths();
    FieldPeels(1, Encoded(Text(m)), Field(4, p, s), Encoded(Text(n)), Field(4, q, t));
    EncodedIsOneToOne(Text(m), Text(n));
    FieldPeels(4, p, s, q, t);
  }

  lemma EndingThen(media: Option<string>, payload: seq<Byte>, tail: seq<Byte>)
    requires MediaSound(media) && PayloadFits(payload)
    ensures Ending(media, payload, []) + tail == Ending(media, payload, tail)
    ensures |Ending(media, payload, [])| == 5 + |Text(media)| + |payload|
  {
    Widths();
    FieldThen(4, payload, [], tail);
    assert [] + tail == tail;
    FieldThen(1, Encoded(Text(media)), Field(4, payload, []), tail);
  }

  lemma FieldThen(width: nat, body: seq<Byte>, rest: seq<Byte>, tail: seq<Byte>)
    requires |body| < Pow256(width)
    ensures Field(width, body, rest) + tail == Field(width, body, rest + tail)
  {
    Reassociate(body, rest, tail);
    Reassociate(BigEndian(|body|, width), body + rest, tail);
  }

  lemma Reassociate(a: seq<Byte>, b: seq<Byte>, c: seq<Byte>)
    ensures (a + b) + c == a + (b + c)
  {
  }

  /** Where media and payload stand: a byte of length and the text, four bytes of
      length and the bytes. */
  lemma EndingAt(f: seq<Byte>, at: nat, media: Option<string>, payload: seq<Byte>)
    requires at <= |f| && MediaSound(media) && PayloadFits(payload) && f[at..] == Ending(media, payload, [])
    ensures var m := |Text(media)|;
            && |f| == at + 5 + m + |payload|
            && f[at] == m && f[at + 1..at + 1 + m] == Encoded(Text(media))
            && Value(f[at + 1 + m..at + 5 + m]) == |payload| && f[at + 5 + m..] == payload
  {
    Widths();
    TextAt(f, at, Text(media), Field(4, payload, []));
    FieldAt(f, at + 1 + |Text(media)|, 4, payload, []);
  }

  /** The two fields appended to what a frame holds so far. */
  method AppendEnding(out: seq<Byte>, media: Option<string>, payload: seq<Byte>)
    returns (r: Result<seq<Byte>, Refusal>)
    ensures r.Ok? <==> MediaSound(media) && PayloadFits(payload)
    ensures r.Ok? ==> r.value == out + Ending(media, payload, [])
    ensures r == Err(MediaNotAscii) <==> !Ascii(Text(media))
    ensures r == Err(BadMedia) <==> Ascii(Text(media)) && !MediaSound(media)
    ensures r == Err(PayloadDoesNotFit) <==> MediaSound(media) && !PayloadFits(payload)
  {
    Widths();
    var m := EncodeAscii(Text(media));
    if m.None? {
      return Err(MediaNotAscii);
    }
    if media.Some? && !(1 <= |m.value| <= 128) {
      return Err(BadMedia);
    }
    var head := out + ([|m.value|] + m.value);
    var length := ToBytes(|payload|, 4);
    if length.None? {
      return Err(PayloadDoesNotFit);
    }
    r := Ok(head + (length.value + payload));
    OneByteLength(|m.value|);
    Appended(out, [|m.value|], m.value, length.value + payload);
    assert payload + [] == payload;
  }

  lemma OneByteLength(n: nat)
    requires n < 256
    ensures Pow256(1) == 256 && BigEndian(n, 1) == [n]
  {
    assert BigEndian(n / 256, 0) == [];
  }

  lemma Appended(out: seq<Byte>, a: seq<Byte>, b: seq<Byte>, c: seq<Byte>)
    ensures (out + (a + b)) + c == out + (a + (b + c))
  {
  }

  // -----------------------------------------------------------------
  // The direct message

  datatype Direct = Direct(
    messageId: seq<Byte>, sentAtMs: int, source: string, destination: Option<string>,
    media: Option<string>, payload: seq<Byte>, frameLen: Option<int>)

  ghost function DirectLength(v: Direct): nat {
    31 + |v.source| + |Text(v.destination)| + |Text(v.media)| + |v.payload|
  }

  ghost predicate DirectFault(v: Direct, e: Refusal) {
    match e
    case WrongVersion => false
    case WrongIdLength => |v.messageId| != 16
    case SentDoesNotFit => !(0 <= v.sentAtMs < 0x1_0000_0000_0000_0000)
    case SourceNotAscii => !Ascii(v.source)
    case BadSource => !(1 <= |v.source| <= 64)
    case DestinationNotAscii => !Ascii(Text(v.destination))
    case BadDestination => |Text(v.destination)| > 64
    case MediaNotAscii => !Ascii(Text(v.media))
    case BadMedia => v.media.Some? && !(1 <= |v.media.value| <= 128)
    case PayloadDoesNotFit => !PayloadFits(v.payload)
    case LengthDisagrees => v.frameLen.Some? && v.frameLen.value != DirectLength(v)
  }

  ghost predicate DirectSound(v: Direct) {
    forall e :: !DirectFault(v, e)
  }

  /** All that the fields before the last two must be. */
  ghost predicate DirectHeadSound(v: Direct) {
    && |v.messageId| == 16 && 0 <= v.sentAtMs < 0x1_0000_0000_0000_0000
    && Ascii(v.source) && 1 <= |v.source| <= 64
    && Ascii(Text(v.destination)) && |Text(v.destination)| <= 64
  }

  lemma DirectSoundParts(v: Direct)
    requires DirectSound(v)
    ensures DirectHeadSound(v) && MediaSound(v.media) && PayloadFits(v.payload)
  {
    assert !DirectFault(v, WrongIdLength) && !DirectFault(v, SentDoesNotFit);
    assert !DirectFault(v, SourceNotAscii) && !DirectFault(v, BadSource);
    assert !DirectFault(v, DestinationNotAscii) && !DirectFault(v, BadDestination);
    assert !DirectFault(v, MediaNotAscii) && !DirectFault(v, BadMedia);
    assert !DirectFault(v, PayloadDoesNotFit);
  }

  ghost function DirectHead(v: Direct, tail: seq<Byte>): seq<Byte>
    requires DirectHeadSound(v)
  {
    Widths();
    v.messageId + (BigEndian(v.sentAtMs, 8)
      + Field(1, Encoded(v.source), Field(1, Encoded(Text(v.destination)), tail)))
  }

  ghost function DirectFrame(v: Direct): seq<Byte>
    requires DirectSound(v)
  {
    DirectSoundParts(v);
    DirectHead(v, Ending(v.media, v.payload, []))
  }

  /** The layout of a direct message, byte by byte: 16 of the id, 8 of the time,
      then source, destination and media each behind a byte of length, then the
      payload behind four. */
  lemma DirectLayout(v: Direct)
    requires DirectSound(v)
    ensures Ascii(v.source) && Ascii(Text(v.destination)) && Ascii(Text(v.media)) && |v.messageId| == 16
    ensures var f, s, d, m := DirectFrame(v), |v.source|, |Text(v.destination)|, |Text(v.media)|;
            && |f| == 31 + s + d + m + |v.payload|
            && f[..16] == v.messageId && Value(f[16..24]) == v.sentAtMs
            && f[24] == s && f[25..25 + s] == Encoded(v.source)
            && f[25 + s] == d && f[26 + s..26 + s + d] == Encoded(Text(v.destination))
            && f[26 + s + d] == m && f[27 + s + d..27 + s + d + m] == Encoded(Text(v.media))
            && Value(f[27 + s + d + m..31 + s + d + m]) == |v.payload| && f[31 + s + d + m..] == v.payload
  {
    DirectSoundParts(v);
    var f, s, d := DirectFrame(v), |v.source|, |Text(v.destination)|;
    DirectHeadAt(f, v, Ending(v.media, v.payload, []));
    EndingAt(f, 26 + s + d, v.media, v.payload);
  }

  lemma DirectHeadAt(f: seq<Byte>, v: Direct, tail: seq<Byte>)
    requires DirectHeadSound(v) && f == DirectHead(v, tail)
    ensures var s, d := |v.source|, |Text(v.destination)|;
            && |f| == 26 + s + d + |tail|
            && f[..16] == v.messageId && Value(f[16..24]) == v.sentAtMs
            && f[24] == s && f[25..25 + s] == Encoded(v.source)
            && f[25 + s] == d && f[26 + s..26 + s + d] == Encoded(Text(v.destination))
            && f[26 + s + d..] == tail
  {
    Widths();
    var dst := Field(1, Encoded(Text(v.destination)), tail);
    var src := Field(1, Encoded(v.source), dst);
    ValueOfBigEndian(v.sentAtMs, 8);
    assert f[16..24] == BigEndian(v.sentAtMs, 8) && f[24..] == src;
    TextAt(f, 24, v.source, dst);
    TextAt(f, 25 + |v.source|, Text(v.destination), tail);
  }

  lemma DirectHeadThen(v: Direct, rest: seq<Byte>, tail: seq<Byte>)
    requires DirectHeadSound(v)
    ensures DirectHead(v, rest) + tail == DirectHead(v, rest + tail)
    ensures |DirectHead(v, rest)| == 26 + |v.source| + |Text(v.destination)| + |rest|
  {
    Widths();
    var dst := Encoded(Text(v.destination));
    var last := Field(1, dst, rest);
    var src := Field(1, Encoded(v.source), last);
    FieldThen(1, dst, rest, tail);
    FieldThen(1, Encoded(v.source), last, tail);
    Reassociate(BigEndian(v.sentAtMs, 8), src, tail);
    Reassociate(v.messageId, BigEndian(v.sentAtMs, 8) + src, tail);
  }

  lemma DirectHeadPeels(v: Direct, s: seq<Byte>, w: Direct, t: seq<Byte>)
    requires DirectHeadSound(v) && DirectHeadSound(w) && DirectHead(v, s) == DirectHead(w, t)
    ensures v.messageId == w.messageId && v.sentAtMs == w.sentAtMs && v.source == w.source
    ensures Text(v.destination) == Text(w.destination) && s == t
  {
    Widths();
    var vd, wd := Field(1, Encoded(Text(v.destination)), s), Field(1, Encoded(Text(w.destination)), t);
    var vs, ws := Field(1, Encoded(v.source), vd), Field(1, Encoded(w.source), wd);
    Peel(v.messageId, BigEndian(v.sentAtMs, 8) + vs, w.messageId, BigEndian(w.sentAtMs, 8) + ws);
    NumberPeels(v.sentAtMs, w.sentAtMs, 8, vs, ws);
    FieldPeels(1, Encoded(v.source), vd, Encoded(w.source), wd);
    EncodedIsOneToOne(v.source, w.source);
    FieldPeels(1, Encoded(Text(v.destination)), s, Encoded(Text(w.destination)), t);
    EncodedIsOneToOne(Text(v.destination), Text(w.destination));
  }

  /** The same message, an empty destination being no destination. */
  ghost predicate SameDirect(v: Direct, w: Direct) {
    && v.messageId == w.messageId && v.sentAtMs == w.sentAtMs && v.source == w.source
    && Text(v.destination) == Text(w.destination)
    && v.media == w.media && v.payload == w.payload
  }

  /** Whatever follows them, two frames that read alike carry one message and
      end together. */
  lemma DirectFramesPeel(v: Direct, s: seq<Byte>, w: Direct, t: seq<Byte>)
    requires DirectSound(v) && DirectSound(w)
    ensures DirectFrame(v) + s == DirectFrame(w) + t <==> SameDirect(v, w) && s == t
  {
    DirectSoundParts(v);
    DirectSoundParts(w);
    DirectHeadThen(v, Ending(v.media, v.payload, []), s);
    DirectHeadThen(w, Ending(w.media, w.payload, []), t);
    EndingThen(v.media, v.payload, s);
    EndingThen(w.media, w.payload, t);
    if DirectFrame(v) + s == DirectFrame(w) + t {
      DirectHeadPeels(v, Ending(v.media, v.payload, s), w, Ending(w.media, w.payload, t));
      EndingPeels(v.media, v.payload, s, w.media, w.payload, t);
    }
  }

  /** One frame for two different messages, and only through a destination
      that is present and empty. */
  lemma DirectFrameIsOneToOne(v: Direct, w: Direct)
    requires DirectSound(v) && DirectSound(w) && v.frameLen == w.frameLen
    ensures DirectFrame(v) == DirectFrame(w) && v != w
       <==> SameDirect(v, w) && v.destination != w.destination
    ensures DirectFrame(v) == DirectFrame(w) && v != w
        ==> v.destination == Some("") || w.destination == Some("")
  {
    DirectFramesPeel(v, [], w, []);
    assert DirectFrame(v) + [] == DirectFrame(v) && DirectFrame(w) + [] == DirectFrame(w);
  }

  /** A message to no endpoint, and the same with an empty one named. */
  const UNADDRESSED: Direct :=
    Direct([0, 0, 0, 0, 0, 0, 0, 0, 0, 0, 0, 0, 0, 0, 0, 0], 0, "a", None, None, [], None)
  const ADDRESSED_EMPTY: Direct := UNADDRESSED.(destination := Some(""))

  lemma EmptyDestinationIsLost()
    ensures UNADDRESSED != ADDRESSED_EMPTY && DirectSound(UNADDRESSED) && DirectSound(ADDRESSED_EMPTY)
    ensures DirectFrame(UNADDRESSED) == DirectFrame(ADDRESSED_EMPTY)
  {
    DirectFrameIsOneToOne(UNADDRESSED, ADDRESSED_EMPTY);
  }

  /** No direct frame is a proper prefix of another. */
  lemma DirectFramesAreNotPrefixes(v: Direct, w: Direct)
    requires DirectSound(v) && DirectSound(w)
    ensures !(DirectFrame(v) < DirectFrame(w))
  {
    if DirectFrame(v) < DirectFrame(w) {
      var s := DirectFrame(w)[|DirectFrame(v)|..];
      assert DirectFrame(v) + s == DirectFrame(w) + [];
      DirectFramesPeel(v, s, w, []);
      assert false;
    }
  }

  lemma DirectFrameLength(v: Direct)
    requires DirectSound(v)
    ensures |DirectFrame(v)| == DirectLength(v)
  {
    DirectSoundParts(v);
    DirectHeadThen(v, Ending(v.media, v.payload, []), []);
    EndingThen(v.media, v.payload, []);
  }

  /** Refused for the first fault there is, and only for a fault. */
  ghost predicate FirstFault(v: Direct, e: Refusal) {
    DirectFault(v, e) && forall f :: DirectFault(v, f) ==> Rank(e) <= Rank(f)
  }

  lemma HeadIsBuilt(v: Direct, out: seq<Byte>)
    requires DirectHeadSound(v)
    requires Pow256(8) == 0x1_0000_0000_0000_0000
    requires out == v.messageId + BigEndian(v.sentAtMs, 8)
                  + ([|v.source|] + Encoded(v.source))
                  + ([|Text(v.destination)|] + Encoded(Text(v.destination)))
    ensures out == DirectHead(v, [])
  {
    Widths();
    OneByteLength(|v.source|);
    OneByteLength(|Text(v.destination)|);
    var dst := Encoded(Text(v.destination));
    assert dst + [] == dst;
    var last := [|dst|] + dst;
    Appended(v.messageId + BigEndian(v.sentAtMs, 8), [|v.source|], Encoded(v.source), last);
    Reassociate(v.messageId, BigEndian(v.sentAtMs, 8), [|v.source|] + (Encoded(v.source) + last));
  }

  method EncodeDirectHead(v: Direct) returns (r: Result<seq<Byte>, Refusal>)
    ensures r.Ok? <==> DirectHeadSound(v)
    ensures r.Ok? ==> r.value == DirectHead(v, [])
    ensures r.Err? ==> FirstFault(v, r.error)
  {
    Widths();
    if |v.messageId| != 16 {
      assert FirstFault(v, WrongIdLength);
      return Err(WrongIdLength);
    }
    var sent := ToBytes(v.sentAtMs, 8);
    if sent.None? {
      assert FirstFault(v, SentDoesNotFit);
      return Err(SentDoesNotFit);
    }
    var out := v.messageId + sent.value;
    var src := EncodeAscii(v.source);
    if src.None? {
      assert FirstFault(v, SourceNotAscii);
      return Err(SourceNotAscii);
    }
    if !(1 <= |src.value| <= 64) {
      assert FirstFault(v, BadSource);
      return Err(BadSource);
    }
    out := out + ([|src.value|] + src.value);
    var dst := EncodeAscii(Text(v.destination));
    if dst.None? {
      assert FirstFault(v, DestinationNotAscii);
      return Err(DestinationNotAscii);
    }
    if |dst.value| > 64 {
      assert FirstFault(v, BadDestination);
      return Err(BadDestination);
    }
    out := out + ([|dst.value|] + dst.value);
    HeadIsBuilt(v, out);
    return Ok(out);
  }

  method EncodeDirect(v: Direct) returns (r: Result<seq<Byte>, Refusal>)
    ensures r.Ok? <==> DirectSound(v)
    ensures r.Ok? ==> r.value == DirectFrame(v)
    ensures r.Err? ==> FirstFault(v, r.error)
  {
    var head := EncodeDirectHead(v);
    if head.Err? {
      return head;
    }
    var whole := AppendEnding(head.value, v.media, v.payload);
    if whole.Err? {
      assert FirstFault(v, whole.error);
      return whole;
    }
    ghost var ending := Ending(v.media, v.payload, []);
    EndingThen(v.media, v.payload, []);
    DirectHeadThen(v, [], ending);
    assert [] + ending == ending;
    assert whole.value == DirectHead(v, ending);
    if v.frameLen.Some? && v.frameLen.value != |whole.value| {
      assert FirstFault(v, LengthDisagrees);
      return Err(LengthDisagrees);
    }
    assert DirectSound(v);
    return whole;
  }

  // -----------------------------------------------------------------
  // The broadcast envelope

  datatype Broadcast = Broadcast(
    version: int, messageId: seq<Byte>, sentAtMs: int,
    media: Option<string>, payload: seq<Byte>, frameLen: Option<int>)

  ghost function BroadcastLength(v: Broadcast): nat {
    30 + |Text(v.media)| + |v.payload|
  }

  ghost predicate BroadcastFault(v: Broadcast, e: Refusal) {
    match e
    case WrongVersion => v.version != 1
    case WrongIdLength => |v.messageId| != 16
    case SentDoesNotFit => !(0 <= v.sentAtMs < 0x1_0000_0000_0000_0000)
    case MediaNotAscii => !Ascii(Text(v.media))
    case BadMedia => v.media.Some? && !(1 <= |v.media.value| <= 128)
    case PayloadDoesNotFit => !PayloadFits(v.payload)
    case LengthDisagrees => v.frameLen.Some? && v.frameLen.value != BroadcastLength(v)
    case _ => false
  }

  ghost predicate BroadcastSound(v: Broadcast) {
    forall e :: !BroadcastFault(v, e)
  }

  ghost predicate FirstBroadcastFault(v: Broadcast, e: Refusal) {
    BroadcastFault(v, e) && forall f :: BroadcastFault(v, f) ==> Rank(e) <= Rank(f)
  }

  lemma BroadcastSoundParts(v: Broadcast)
    requires BroadcastSound(v)
    ensures v.version == 1 && |v.messageId| == 16 && 0 <= v.sentAtMs < 0x1_0000_0000_0000_0000
    ensures MediaSound(v.media) && PayloadFits(v.payload)
  {
    assert !BroadcastFault(v, WrongVersion) && !BroadcastFault(v, WrongIdLength);
    assert !BroadcastFault(v, SentDoesNotFit) && !BroadcastFault(v, PayloadDoesNotFit);
    assert !BroadcastFault(v, MediaNotAscii) && !BroadcastFault(v, BadMedia);
  }

  ghost function BroadcastFrame(v: Broadcast): seq<Byte>
    requires BroadcastSound(v)
  {
    BroadcastSoundParts(v);
    Widths();
    [1] + v.messageId + BigEndian(v.sentAtMs, 8) + Ending(v.media, v.payload, [])
  }

  /** The layout of a broadcast envelope, byte by byte: the version, 16 of the id,
      8 of the time, media behind a byte of length, the payload behind four. */
  lemma BroadcastLayout(v: Broadcast)
    requires BroadcastSound(v)
    ensures Ascii(Text(v.media)) && |v.messageId| == 16
    ensures var f, m := BroadcastFrame(v), |Text(v.media)|;
            && |f| == 30 + m + |v.payload|
            && f[0] == 1 && f[1..17] == v.messageId && Value(f[17..25]) == v.sentAtMs
            && f[25] == m && f[26..26 + m] == Encoded(Text(v.media))
            && Value(f[26 + m..30 + m]) == |v.payload| && f[30 + m..] == v.payload
  {
    BroadcastSoundParts(v);
    Widths();
    var f := BroadcastFrame(v);
    ValueOfBigEndian(v.sentAtMs, 8);
    assert f[17..25] == BigEndian(v.sentAtMs, 8) && f[25..] == Ending(v.media, v.payload, []);
    EndingAt(f, 25, v.media, v.payload);
  }

  /** Whatever follows them, two envelopes that read alike carry one message
      and end together. */
  lemma BroadcastFramesPeel(v: Broadcast, s: seq<Byte>, w: Broadcast, t: seq<Byte>)
    requires BroadcastSound(v) && BroadcastSound(w)
    ensures BroadcastFrame(v) + s == BroadcastFrame(w) + t
       <==> v.(frameLen := None) == w.(frameLen := None) && s == t
  {
    BroadcastSoundParts(v);
    BroadcastSoundParts(w);
    Widths();
    var vh, wh := [1] + v.messageId, [1] + w.messageId;
    var vn, wn := BigEndian(v.sentAtMs, 8), BigEndian(w.sentAtMs, 8);
    EndingThen(v.media, v.payload, s);
    EndingThen(w.media, w.payload, t);
    var ve, we := Ending(v.media, v.payload, s), Ending(w.media, w.payload, t);
    Reassociate(vh + vn, Ending(v.media, v.payload, []), s);
    Reassociate(wh + wn, Ending(w.media, w.payload, []), t);
    Reassociate(vh, vn, ve);
    Reassociate(wh, wn, we);
    if BroadcastFrame(v) + s == BroadcastFrame(w) + t {
      Peel(vh, vn + ve, wh, wn + we);
      Peel([1], v.messageId, [1], w.messageId);
      NumberPeels(v.sentAtMs, w.sentAtMs, 8, ve, we);
      EndingPeels(v.media, v.payload, s, w.media, w.payload, t);
    }
  }

  /** No broadcast envelope is a proper prefix of another. */
  lemma BroadcastFramesAreNotPrefixes(v: Broadcast, w: Broadcast)
    requires BroadcastSound(v) && BroadcastSound(w)
    ensures !(BroadcastFrame(v) < BroadcastFrame(w))
  {
    if BroadcastFrame(v) < BroadcastFrame(w) {
      var s := BroadcastFrame(w)[|BroadcastFrame(v)|..];
      assert BroadcastFrame(v) + s == BroadcastFrame(w) + [];
      BroadcastFramesPeel(v, s, w, []);
      assert false;
    }
  }

  method EncodeBroadcast(v: Broadcast) returns (r: Result<seq<Byte>, Refusal>)
    ensures r.Ok? <==> BroadcastSound(v)
    ensures r.Ok? ==> r.value == BroadcastFrame(v) && |r.value| == BroadcastLength(v)
    ensures r.Err? ==> FirstBroadcastFault(v, r.error)
  {
    Widths();
    if v.version != 1 {
      assert FirstBroadcastFault(v, WrongVersion);
      return Err(WrongVersion);
    }
    var out: seq<Byte> := [v.version];
    if |v.messageId| != 16 {
      assert FirstBroadcastFault(v, WrongIdLength);
      return Err(WrongIdLength);
    }
    out := out + v.messageId;
    if !(0 <= v.sentAtMs < 0x1_0000_0000_0000_0000) {
      assert FirstBroadcastFault(v, SentDoesNotFit);
      return Err(SentDoesNotFit);
    }
    out := out + BigEndian(v.sentAtMs, 8);
    var whole := AppendEnding(out, v.media, v.payload);
    if whole.Err? {
      assert FirstBroadcastFault(v, whole.error);
      return whole;
    }
    EndingThen(v.media, v.payload, []);
    if v.frameLen.Some? && v.frameLen.value != |whole.value| {
      assert FirstBroadcastFault(v, LengthDisagrees);
      return Err(LengthDisagrees);
    }
    assert BroadcastSound(v);
    return whole;
  }

  // -----------------------------------------------------------------
  // The buffer under a content fingerprint

  const DOMAIN: string := "interweave/" + "direct-content-" + "fingerprint/v1\0"

  lemma DomainIsAscii()
    ensures Ascii(DOMAIN)
  {
  }

  /** A tag tells an absent media type from a present one. */
  ghost function Tagged(media: Option<string>, payload: seq<Byte>, tail: seq<Byte>): seq<Byte>
    requires MediaSound(media) && PayloadFits(payload)
  {
    Widths();
    if media.None? then [0] + Field(4, payload, tail)
    else [1] + Field(2, Encoded(media.value), Field(4, payload, tail))
  }

  ghost function Prehash(media: Option<string>, payload: seq<Byte>): seq<Byte>
    requires MediaSound(media) && PayloadFits(payload)
  {
    DomainIsAscii();
    Encoded(DOMAIN) + Tagged(media, payload, [])
  }

  /** Where the tag, the media type and the payload stand. */
  ghost predicate TaggedReads(f: seq<Byte>, at: nat, media: Option<string>, payload: seq<Byte>)
    requires MediaSound(media)
  {
    if media.None? then
      |f| == at + 5 + |payload| && f[at] == 0 && Value(f[at + 1..at + 5]) == |payload| && f[at + 5..] == payload
    else
      var m := |media.value|;
      && |f| == at + 7 + m + |payload|
      && f[at] == 1 && Value(f[at + 1..at + 3]) == m && f[at + 3..at + 3 + m] == Encoded(media.value)
      && Value(f[at + 3 + m..at + 7 + m]) == |payload| && f[at + 7 + m..] == payload
  }

  lemma TaggedAt(f: seq<Byte>, at: nat, media: Option<string>, payload: seq<Byte>)
    requires MediaSound(media) && PayloadFits(payload) && at <= |f| && f[at..] == Tagged(media, payload, [])
    ensures TaggedReads(f, at, media, payload)
  {
    Widths();
    var last := Field(4, payload, []);
    assert f[at] == f[at..][0];
    if media.None? {
      assert f[at + 1..] == f[at..][1..] == last;
      FieldAt(f, at + 1, 4, payload, []);
    } else {
      assert f[at + 1..] == f[at..][1..] == Field(2, Encoded(media.value), last);
      FieldAt(f, at + 1, 2, Encoded(media.value), last);
      FieldAt(f, at + 3 + |media.value|, 4, payload, []);
    }
  }

  /** The layout of the buffer under a fingerprint: the domain and its zero byte,
      then 0 for no media type or 1 with it behind two bytes of length, then the
      payload behind four. */
  lemma PrehashLayout(media: Option<string>, payload: seq<Byte>)
    requires MediaSound(media) && PayloadFits(payload)
    ensures var domain, f := "interweave/direct-content-fingerprint/v1\0", Prehash(media, payload);
            && |domain| == 41 <= |f| && (forall i :: 0 <= i < 41 ==> f[i] == domain[i] as int)
            && TaggedReads(f, 41, media, payload)
  {
    DomainIsAscii();
    DomainReads();
    var f := Prehash(media, payload);
    assert f[41..] == Tagged(media, payload, []);
    TaggedAt(f, 41, media, payload);
  }

  lemma DomainReads()
    ensures DOMAIN == "interweave/direct-content-fingerprint/v1\0"
  {
  }

  lemma TaggedThen(media: Option<string>, payload: seq<Byte>, tail: seq<Byte>)
    requires MediaSound(media) && PayloadFits(payload)
    ensures Tagged(media, payload, []) + tail == Tagged(media, payload, tail)
  {
    Widths();
    FieldThen(4, payload, [], tail);
    assert [] + tail == tail;
    if media.None? {
      Reassociate([0], Field(4, payload, []), tail);
    } else {
      FieldThen(2, Encoded(media.value), Field(4, payload, []), tail);
      Reassociate([1], Field(2, Encoded(media.value), Field(4, payload, [])), tail);
    }
  }

  lemma TaggedPeels(m: Option<string>, p: seq<Byte>, s: seq<Byte>, n: Option<string>, q: seq<Byte>, t: seq<Byte>)
    requires MediaSound(m) && PayloadFits(p) && MediaSound(n) && PayloadFits(q)
    requires Tagged(m, p, s) == Tagged(n, q, t)
    ensures m == n && p == q && s == t
  {
    Widths();
    assert Tagged(m, p, s)[0] == Tagged(n, q, t)[0];
    if m.None? {
      Peel([0], Field(4, p, s), [0], Field(4, q, t));
    } else {
      var a, b := Encoded(m.value), Encoded(n.value);
      Peel([1], Field(2, a, Field(4, p, s)), [1], Field(2, b, Field(4, q, t)));
      FieldPeels(2, a, Field(4, p, s), b, Field(4, q, t));
      EncodedIsOneToOne(m.value, n.value);
    }
    FieldPeels(4, p, s, q, t);
  }

  /** Two contents share the bytes under their fingerprints, whatever follows,
      only by being the same content. */
  lemma PrehashesPeel(m: Option<string>, p: seq<Byte>, s: seq<Byte>, n: Option<string>, q: seq<Byte>, t: seq<Byte>)
    requires MediaSound(m) && PayloadFits(p) && MediaSound(n) && PayloadFits(q)
    ensures Prehash(m, p) + s == Prehash(n, q) + t <==> m == n && p == q && s == t
  {
    DomainIsAscii();
    var d := Encoded(DOMAIN);
    Reassociate(d, Tagged(m, p, []), s);
    Reassociate(d, Tagged(n, q, []), t);
    TaggedThen(m, p, s);
    TaggedThen(n, q, t);
    if Prehash(m, p) + s == Prehash(n, q) + t {
      Peel(d, Tagged(m, p, s), d, Tagged(n, q, t));
      TaggedPeels(m, p, s, n, q, t);
    }
  }

  method EncodePrehash(media: Option<string>, payload: seq<Byte>) returns (r: Result<seq<Byte>, Refusal>)
    ensures r.Ok? <==> MediaSound(media) && PayloadFits(payload)
    ensures r.Ok? ==> r.value == Prehash(media, payload)
    ensures r == Err(MediaNotAscii) <==> !Ascii(Text(media))
    ensures r == Err(BadMedia) <==> Ascii(Text(media)) && !MediaSound(media)
    ensures r == Err(PayloadDoesNotFit) <==> MediaSound(media) && !PayloadFits(payload)
  {
    Widths();
    DomainIsAscii();
    var domain := EncodeAscii(DOMAIN);
    var tagged: seq<Byte> := [0];
    if media.Some? {
      var m := EncodeAscii(media.value);
      if m.None? {
        return Err(MediaNotAscii);
      }
      if !(1 <= |m.value| <= 128) {
        return Err(BadMedia);
      }
      tagged := [1] + (BigEndian(|m.value|, 2) + m.value);
    }
    var length := ToBytes(|payload|, 4);
    if length.None? {
      return Err(PayloadDoesNotFit);
    }
    var rest := length.value + payload;
    r := Ok(domain.value + tagged + rest);
    assert payload + [] == payload;
    Reassociate(domain.value, tagged, rest);
    if media.Some? {
      Appended([1], BigEndian(|media.value|, 2), Encoded(media.value), rest);
    }
  }
}
