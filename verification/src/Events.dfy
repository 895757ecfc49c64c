/** The event catalogue (crates/api/ipc-protocol/src/event.rs): what a server
    may send at a negotiated minor, and what a client at that minor accepts.
    The body of an event crosses as named fields; a body with any other field
    is refused. */
module Events {
  import opened Common
  import opened Catalogue

  const MAX_REASON_CLASS_CHARS: nat := 128
  const ROUTE_NOTICE_SINCE_MINOR: nat := 4

  datatype PeerPath = Relayed | Straight

  datatype SessionEvent =
    | Direct(sourcePeer: string, sourceEndpoint: string, destinationEndpoint: string,
             messageId: string, payload: seq<int>, receivedAt: nat)
    | Broadcast(publisher: string, channel: string, messageId: string, payload: seq<int>, receivedAt: nat)
    | EndpointLeaseChanged(endpoint: string, revokedEpoch: string)
    | PeerDisconnected(peer: string, reasonClass: string)
    | PeerPathChanged(peer: string, previous: Option<PeerPath>, current: PeerPath,
                      reasonClass: string, observedAt: nat)
    | ServerState(health: string)

  datatype EventType = MessageDirect | MessageBroadcast | LeaseChanged | Disconnected | PathChanged

  /** An event of the catalogue. */
  datatype Event =
    | DirectReceived(messageId: string, sourcePeer: string, sourceEndpoint: string,
                     destinationEndpoint: string, payload: seq<int>, receivedAt: nat)
    | BroadcastReceived(messageId: string, publisher: string, channel: string,
                        payload: seq<int>, receivedAt: nat)
    | LeaseEnded(endpoint: string, revokedEpoch: string)
    | PeerGone(peer: string, reasonClass: string)
    | PathMoved(peer: string, previous: Option<PeerPath>, current: PeerPath,
                reasonClass: string, observedAt: nat)

  datatype Field =
    | FMessageId
    | FMode
    | FSourcePeer
    | FSourceEndpoint
    | FDestinationEndpoint
    | FChannel
    | FPayload
    | FReceivedAt
    | FEndpoint
    | FRevokedEpoch
    | FPeer
    | FReasonClass
    | FPrevious
    | FCurrent
    | FObservedAt

  datatype Value =
    | Text(text: string)
    | Number(number: nat)
    | Payload(bytes: seq<int>)

  type Body = map<Field, Value>

  const U64_LIMIT: nat := 0x1_0000_0000_0000_0000

  /** What a text or a payload must be to be one of the protocol's. */
  datatype Grammar = Grammar(
    peer: string -> bool, endpoint: string -> bool, channel: string -> bool,
    messageId: string -> bool, epoch: string -> bool, payload: seq<int> -> bool)

  datatype EventFrame = EventFrame(sequence: nat, eventType: string, data: Option<Body>)

  // -----------------------------------------------------------------
  // Types

  function TypeName(t: EventType): string {
    match t
    case MessageDirect => "message.direct"
    case MessageBroadcast => "message.broadcast"
    case LeaseChanged => "endpoint.lease_changed"
    case Disconnected => "peer.disconnected"
    case PathChanged => "peer.path_changed"
  }

  const TYPES: seq<EventType> := [MessageDirect, MessageBroadcast, LeaseChanged, Disconnected, PathChanged]

  function SearchType(types: seq<EventType>, name: string): (t: Option<EventType>)
    ensures t.Some? ==> t.value in types && TypeName(t.value) == name
    ensures t.None? ==> forall u :: u in types ==> TypeName(u) != name
  {
    if types == [] then None
    else if TypeName(types[0]) == name then Some(types[0])
    else SearchType(types[1..], name)
  }

  function ParseType(name: string): Option<EventType> {
    SearchType(TYPES, name)
  }

  function TypeSince(t: EventType): nat {
    if t.PathChanged? then 1 else 0
  }

  lemma TypeNamesDiffer(t: EventType, u: EventType, name: string)
    requires name == TypeName(t) && name == TypeName(u)
    ensures t == u
  {
    assert "peer.disconnected"[5] == 'd' && "peer.path_changed"[5] == 'p' && "message.broadcast"[5] == 'g';
  }

  lemma ParseInvertsTypeName(name: string, t: EventType)
    ensures ParseType(name) == Some(t) <==> name == TypeName(t)
  {
    assert t in TYPES by {
      match t
      case MessageDirect => assert TYPES[0] == t;
      case MessageBroadcast => assert TYPES[1] == t;
      case LeaseChanged => assert TYPES[2] == t;
      case Disconnected => assert TYPES[3] == t;
      case PathChanged => assert TYPES[4] == t;
    }
    if name == TypeName(t) {
      TypeNamesDiffer(t, ParseType(name).value, name);
    }
  }

  // -----------------------------------------------------------------
  // The server's side

  function OfSession(e: SessionEvent): Option<EventType> {
    match e
    case Direct(_, _, _, _, _, _) => Some(MessageDirect)
    case Broadcast(_, _, _, _, _) => Some(MessageBroadcast)
    case EndpointLeaseChanged(_, _) => Some(LeaseChanged)
    case PeerDisconnected(_, _) => Some(Disconnected)
    case PeerPathChanged(_, _, _, _, _) => Some(PathChanged)
    case ServerState(_) => None
  }

  /** Whether a connection at `version` may be sent the event at all. */
  predicate AvailableTo(e: SessionEvent, version: IpcVersion) {
    var kind := OfSession(e);
    if kind.None? then true
    else if version.minor < TypeSince(kind.value) then false
    else !(e.PeerPathChanged? && e.previous.None?) || version.minor >= ROUTE_NOTICE_SINCE_MINOR
  }

  predicate LegalReason(reason: string) {
    0 < |reason| <= MAX_REASON_CLASS_CHARS
  }

  function FromSession(e: SessionEvent): Result<Option<Event>, TransportError> {
    match e
    case Direct(peer, source, destination, id, payload, at) =>
      Ok(Some(DirectReceived(id, peer, source, destination, payload, at)))
    case Broadcast(publisher, channel, id, payload, at) =>
      Ok(Some(BroadcastReceived(id, publisher, channel, payload, at)))
    case EndpointLeaseChanged(endpoint, epoch) => Ok(Some(LeaseEnded(endpoint, epoch)))
    case PeerDisconnected(peer, reason) =>
      if LegalReason(reason) then Ok(Some(PeerGone(peer, reason))) else Err(Internal)
    case PeerPathChanged(peer, previous, current, reason, at) =>
      if LegalReason(reason) then Ok(Some(PathMoved(peer, previous, current, reason, at))) else Err(Internal)
    case ServerState(_) => Ok(None)
  }

  function TypeOf(e: Event): EventType {
    match e
    case DirectReceived(_, _, _, _, _, _) => MessageDirect
    case BroadcastReceived(_, _, _, _, _) => MessageBroadcast
    case LeaseEnded(_, _) => LeaseChanged
    case PeerGone(_, _) => Disconnected
    case PathMoved(_, _, _, _, _) => PathChanged
  }

  function PathName(path: PeerPath): string {
    match path
    case Relayed => "relayed"
    case Straight => "direct"
  }

  function BodyOf(e: Event): Body {
    match e
    case DirectReceived(id, peer, source, destination, payload, at) =>
      map[FMessageId := Text(id), FMode := Text("direct"), FSourcePeer := Text(peer),
          FSourceEndpoint := Text(source), FDestinationEndpoint := Text(destination),
          FPayload := Payload(payload), FReceivedAt := Number(at)]
    case BroadcastReceived(id, publisher, channel, payload, at) =>
      map[FMessageId := Text(id), FMode := Text("broadcast"), FSourcePeer := Text(publisher),
          FChannel := Text(channel), FPayload := Payload(payload), FReceivedAt := Number(at)]
    case LeaseEnded(endpoint, epoch) =>
      map[FEndpoint := Text(endpoint), FRevokedEpoch := Text(epoch)]
    case PeerGone(peer, reason) =>
      map[FPeer := Text(peer), FReasonClass := Text(reason)]
    case PathMoved(peer, previous, current, reason, at) =>
      var body := map[FPeer := Text(peer), FCurrent := Text(PathName(current)),
                      FReasonClass := Text(reason), FObservedAt := Number(at)];
      if previous.None? then body else body[FPrevious := Text(PathName(previous.value))]
  }

  function IntoFrame(e: Event, sequence: nat): EventFrame {
    EventFrame(sequence, TypeName(TypeOf(e)), Some(BodyOf(e)))
  }

  // -----------------------------------------------------------------
  // The client's side

  /** The reason class an event carries, if it carries one, is legal. */
  predicate Legal(e: Event) {
    match e
    case PeerGone(_, reason) => LegalReason(reason)
    case PathMoved(_, _, _, reason, _) => LegalReason(reason)
    case _ => true
  }

  /** Its texts are of their grammars, and its numbers of 64 bits. */
  predicate Proper(g: Grammar, e: Event) {
    match e
    case DirectReceived(id, peer, source, destination, payload, at) =>
      && g.messageId(id) && g.peer(peer) && g.endpoint(source) && g.endpoint(destination)
      && g.payload(payload) && at < U64_LIMIT
    case BroadcastReceived(id, publisher, channel, payload, at) =>
      g.messageId(id) && g.peer(publisher) && g.channel(channel) && g.payload(payload) && at < U64_LIMIT
    case LeaseEnded(endpoint, epoch) => g.endpoint(endpoint) && g.epoch(epoch)
    case PeerGone(peer, _) => g.peer(peer)
    case PathMoved(peer, _, _, _, at) => g.peer(peer) && at < U64_LIMIT
  }

  /** What the runtime's own types make of every event it gives. */
  predicate Formed(g: Grammar, e: SessionEvent) {
    match e
    case Direct(peer, source, destination, id, payload, at) =>
      && g.messageId(id) && g.peer(peer) && g.endpoint(source) && g.endpoint(destination)
      && g.payload(payload) && at < U64_LIMIT
    case Broadcast(publisher, channel, id, payload, at) =>
      g.messageId(id) && g.peer(publisher) && g.channel(channel) && g.payload(payload) && at < U64_LIMIT
    case EndpointLeaseChanged(endpoint, epoch) => g.endpoint(endpoint) && g.epoch(epoch)
    case PeerDisconnected(peer, _) => g.peer(peer)
    case PeerPathChanged(peer, _, _, _, at) => g.peer(peer) && at < U64_LIMIT
    case ServerState(_) => true
  }

  predicate TextAt(body: Body, f: Field) {
    f in body && body[f].Text?
  }

  predicate NumberAt(body: Body, f: Field) {
    f in body && body[f].Number?
  }

  predicate PayloadAt(body: Body, f: Field) {
    f in body && body[f].Payload?
  }

  function ReadPath(name: string): Option<PeerPath> {
    if name == "relayed" then Some(Relayed)
    else if name == "direct" then Some(Straight)
    else None
  }

  function ReadDirect(g: Grammar, body: Body): Option<Event> {
    if && body.Keys == {FMessageId, FMode, FSourcePeer, FSourceEndpoint, FDestinationEndpoint, FPayload, FReceivedAt}
       && TextAt(body, FMessageId) && body[FMode] == Text("direct") && TextAt(body, FSourcePeer)
       && TextAt(body, FSourceEndpoint) && TextAt(body, FDestinationEndpoint)
       && PayloadAt(body, FPayload) && NumberAt(body, FReceivedAt)
    then
      var e := DirectReceived(
        body[FMessageId].text, body[FSourcePeer].text, body[FSourceEndpoint].text,
        body[FDestinationEndpoint].text, body[FPayload].bytes, body[FReceivedAt].number);
      if Proper(g, e) then Some(e) else None
    else None
  }

  function ReadBroadcast(g: Grammar, body: Body): Option<Event> {
    if && body.Keys == {FMessageId, FMode, FSourcePeer, FChannel, FPayload, FReceivedAt}
       && TextAt(body, FMessageId) && body[FMode] == Text("broadcast") && TextAt(body, FSourcePeer)
       && TextAt(body, FChannel) && PayloadAt(body, FPayload) && NumberAt(body, FReceivedAt)
    then
      var e := BroadcastReceived(
        body[FMessageId].text, body[FSourcePeer].text, body[FChannel].text,
        body[FPayload].bytes, body[FReceivedAt].number);
      if Proper(g, e) then Some(e) else None
    else None
  }

  function ReadLease(g: Grammar, body: Body): Option<Event> {
    if body.Keys == {FEndpoint, FRevokedEpoch} && TextAt(body, FEndpoint) && TextAt(body, FRevokedEpoch) then
      var e := LeaseEnded(body[FEndpoint].text, body[FRevokedEpoch].text);
      if Proper(g, e) then Some(e) else None
    else None
  }

  function ReadGone(g: Grammar, body: Body): Option<Event> {
    if body.Keys == {FPeer, FReasonClass} && TextAt(body, FPeer) && TextAt(body, FReasonClass) then
      var e := PeerGone(body[FPeer].text, body[FReasonClass].text);
      if Proper(g, e) && Legal(e) then Some(e) else None
    else None
  }

  /** Absent is `None`; a field that is there must be a path. */
  function ReadPrevious(body: Body): Option<Option<PeerPath>> {
    if FPrevious !in body then Some(None)
    else if !TextAt(body, FPrevious) then None
    else
      var path := ReadPath(body[FPrevious].text);
      if path.None? then None else Some(path)
  }

  function ReadMoved(g: Grammar, body: Body): Option<Event> {
    if && body.Keys - {FPrevious} == {FPeer, FCurrent, FReasonClass, FObservedAt}
       && TextAt(body, FPeer) && TextAt(body, FCurrent) && ReadPath(body[FCurrent].text).Some?
       && TextAt(body, FReasonClass) && NumberAt(body, FObservedAt) && ReadPrevious(body).Some?
    then
      var e := PathMoved(
        body[FPeer].text, ReadPrevious(body).value, ReadPath(body[FCurrent].text).value,
        body[FReasonClass].text, body[FObservedAt].number);
      if Proper(g, e) && Legal(e) then Some(e) else None
    else None
  }

  function Typed(g: Grammar, t: EventType, body: Body): Option<Event> {
    match t
    case MessageDirect => ReadDirect(g, body)
    case MessageBroadcast => ReadBroadcast(g, body)
    case LeaseChanged => ReadLease(g, body)
    case Disconnected => ReadGone(g, body)
    case PathChanged => ReadMoved(g, body)
  }

  function Decode(g: Grammar, eventType: string, data: Option<Body>, version: IpcVersion)
    : Result<Event, TransportError>
  {
    var kind := ParseType(eventType);
    if kind.None? || version.minor < TypeSince(kind.value) then Err(ProtocolViolation)
    else if data.None? then Err(ProtocolViolation)
    else
      var event := Typed(g, kind.value, data.value);
      if event.None? then Err(ProtocolViolation)
      else if event.value.PathMoved? && event.value.previous.None? && version.minor < ROUTE_NOTICE_SINCE_MINOR
      then Err(ProtocolViolation)
      else Ok(event.value)
  }

  function IntoSession(e: Event): SessionEvent {
    match e
    case DirectReceived(id, peer, source, destination, payload, at) =>
      Direct(peer, source, destination, id, payload, at)
    case BroadcastReceived(id, publisher, channel, payload, at) =>
      Broadcast(publisher, channel, id, payload, at)
    case LeaseEnded(endpoint, epoch) => EndpointLeaseChanged(endpoint, epoch)
    case PeerGone(peer, reason) => PeerDisconnected(peer, reason)
    case PathMoved(peer, previous, current, reason, at) => PeerPathChanged(peer, previous, current, reason, at)
  }

  // -----------------------------------------------------------------
  // The two sides agree

  lemma PathsAreNamed(path: PeerPath)
    ensures ReadPath(PathName(path)) == Some(path)
  {
  }

  lemma MovedInvertsBody(g: Grammar, e: Event)
    requires e.PathMoved?
    ensures ReadMoved(g, BodyOf(e)) == if Proper(g, e) && Legal(e) then Some(e) else None
  {
    PathsAreNamed(e.current);
    if e.previous.Some? {
      PathsAreNamed(e.previous.value);
    }
    assert BodyOf(e).Keys - {FPrevious} == {FPeer, FCurrent, FReasonClass, FObservedAt};
  }

  /** A body is read back as the event it was written from. */
  lemma TypedInvertsBody(g: Grammar, e: Event)
    ensures Typed(g, TypeOf(e), BodyOf(e)) == if Proper(g, e) && Legal(e) then Some(e) else None
  {
    if e.PathMoved? {
      MovedInvertsBody(g, e);
    }
  }

  /** And nothing but such a body is read. */
  lemma BodyInvertsTyped(g: Grammar, t: EventType, body: Body)
    requires Typed(g, t, body).Some?
    ensures var e := Typed(g, t, body).value;
            TypeOf(e) == t && Proper(g, e) && Legal(e) && BodyOf(e) == body
  {
    var e := Typed(g, t, body).value;
    if t.PathChanged? {
      assert body.Keys == {FPeer, FCurrent, FReasonClass, FObservedAt} + (body.Keys * {FPrevious});
      assert BodyOf(e).Keys == body.Keys;
    }
  }

  lemma SessionAndWire(g: Grammar, e: SessionEvent)
    requires OfSession(e).Some? && FromSession(e).Ok?
    ensures FromSession(e).value.Some?
    ensures var wire := FromSession(e).value.value;
            && IntoSession(wire) == e && Some(TypeOf(wire)) == OfSession(e) && Legal(wire)
            && (Proper(g, wire) <==> Formed(g, e))
  {
  }

  lemma WireAndSession(g: Grammar, e: Event)
    requires Legal(e)
    ensures FromSession(IntoSession(e)) == Ok(Some(e)) && OfSession(IntoSession(e)) == Some(TypeOf(e))
    ensures Formed(g, IntoSession(e)) <==> Proper(g, e)
  {
  }

  /** Each catalogue event the protocol can carry is sent exactly when the
      client, at the minor they share, accepts its frame; and then the client
      holds the session's own event. */
  lemma FilterAgreesWithDecode(g: Grammar, e: SessionEvent, version: IpcVersion, sequence: nat)
    requires OfSession(e).Some? && FromSession(e).Ok? && Formed(g, e)
    ensures FromSession(e).value.Some?
    ensures var frame := IntoFrame(FromSession(e).value.value, sequence);
            var r := Decode(g, frame.eventType, frame.data, version);
            && (AvailableTo(e, version) <==> r.Ok?)
            && (r.Ok? ==> IntoSession(r.value) == e)
  {
    SessionAndWire(g, e);
    var wire := FromSession(e).value.value;
    ParseInvertsTypeName(TypeName(TypeOf(wire)), TypeOf(wire));
    TypedInvertsBody(g, wire);
  }

  /** A client accepts nothing but what a server would send it: every frame it
      accepts is the frame of an event of the runtime's that is available to
      it. */
  lemma DecodeAcceptsOnlyWhatIsSent(g: Grammar, frame: EventFrame, version: IpcVersion)
    requires Decode(g, frame.eventType, frame.data, version).Ok?
    ensures var e := Decode(g, frame.eventType, frame.data, version).value;
            && frame == IntoFrame(e, frame.sequence)
            && FromSession(IntoSession(e)) == Ok(Some(e))
            && Formed(g, IntoSession(e)) && AvailableTo(IntoSession(e), version)
  {
    var e := Decode(g, frame.eventType, frame.data, version).value;
    ParseInvertsTypeName(frame.eventType, ParseType(frame.eventType).value);
    BodyInvertsTyped(g, ParseType(frame.eventType).value, frame.data.value);
    WireAndSession(g, e);
  }

  // -----------------------------------------------------------------
  // By minor and by name

  /** What a minor is sent: path changes from 2.1, those that begin a route from
      2.4, and everything else always. */
  lemma AvailableByMinor(e: SessionEvent, version: IpcVersion)
    ensures AvailableTo(e, version) <==>
            (e.PeerPathChanged? ==> version.minor >= 1 && (e.previous.None? ==> version.minor >= 4))
  {
  }

  /** An event's type on the wire. */
  ghost predicate NamedFor(name: string, e: Event) {
    match e
    case DirectReceived(_, _, _, _, _, _) => name == "message.direct"
    case BroadcastReceived(_, _, _, _, _) => name == "message.broadcast"
    case LeaseEnded(_, _) => name == "endpoint.lease_changed"
    case PeerGone(_, _) => name == "peer.disconnected"
    case PathMoved(_, _, _, _, _) => name == "peer.path_changed"
  }

  /** When it was received or seen, if it says. */
  ghost function Time(e: Event): Option<nat> {
    match e
    case DirectReceived(_, _, _, _, _, at) => Some(at)
    case BroadcastReceived(_, _, _, _, at) => Some(at)
    case PathMoved(_, _, _, _, at) => Some(at)
    case _ => None
  }

  /** What a client accepts comes under its event's own name, with a reason of 1
      to 128 characters where it has one and a time of 64 bits. */
  lemma AcceptedByName(g: Grammar, frame: EventFrame, version: IpcVersion)
    requires Decode(g, frame.eventType, frame.data, version).Ok?
    ensures var e := Decode(g, frame.eventType, frame.data, version).value;
            && NamedFor(frame.eventType, e)
            && (e.PeerGone? || e.PathMoved? ==> 1 <= |e.reasonClass| <= 128)
            && (Time(e).Some? ==> Time(e).value < 0x1_0000_0000_0000_0000)
  {
    DecodeAcceptsOnlyWhatIsSent(g, frame, version);
  }

  /** The one event a server owes and cannot carry: a reason that is empty or of
      more than 128 characters. */
  lemma UncarriedIsAReason(e: SessionEvent)
    ensures FromSession(e).Err? <==>
            (e.PeerDisconnected? || e.PeerPathChanged?) && (|e.reasonClass| == 0 || |e.reasonClass| > 128)
    ensures FromSession(e).Err? ==> FromSession(e).error == Internal
  {
  }
}
