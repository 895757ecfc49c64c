/** The server's send loop (crates/local/ipc-server/src/connection.rs): events
    drained from a session become numbered frames. What the client decodes is
    the session's own run of events, less those that are not its to see; a
    number is missing exactly where the protocol refused an event. */
module EventPump {
  import opened Common
  import opened Catalogue
  import opened Events
  import opened Numbering

  /** The event is the client's to see, and crosses as an event frame. */
  predicate Owed(e: SessionEvent, version: IpcVersion) {
    AvailableTo(e, version) && OfSession(e).Some?
  }

  /** It is owed, and the protocol can carry it. */
  predicate Carried(e: SessionEvent, version: IpcVersion) {
    Owed(e, version) && FromSession(e).Ok?
  }

  /** The client, at this version, reads the frame as the event. */
  predicate ReadsAs(g: Grammar, frame: EventFrame, e: SessionEvent, version: IpcVersion) {
    var r := Decode(g, frame.eventType, frame.data, version);
    r.Ok? && IntoSession(r.value) == e
  }

  ghost function RulesAt(g: Grammar, version: IpcVersion): Rules<SessionEvent, EventFrame> {
    Rules(e => Owed(e, version), e => Carried(e, version),
          (frame, e) => ReadsAs(g, frame, e, version), (frame: EventFrame) => frame.sequence)
  }

  lemma FrameIsRead(g: Grammar, e: SessionEvent, version: IpcVersion, sequence: nat)
    requires Carried(e, version) && Formed(g, e)
    ensures FromSession(e).value.Some?
    ensures ReadsAs(g, IntoFrame(FromSession(e).value.value, sequence), e, version)
    ensures IntoFrame(FromSession(e).value.value, sequence).sequence == sequence
  {
    FilterAgreesWithDecode(g, e, version, sequence);
  }

  /** What the loop makes of one event. */
  datatype Turn = Skip | Refuse | Write(event: Event)

  function TurnFor(e: SessionEvent, version: IpcVersion): (turn: Turn)
    ensures turn.Skip? <==> !Owed(e, version)
    ensures turn.Refuse? <==> Owed(e, version) && !Carried(e, version)
    ensures turn.Write? ==> FromSession(e) == Ok(Some(turn.event))
  {
    if !AvailableTo(e, version) then Skip
    else
      var wire := FromSession(e);
      if wire.Err? then Refuse
      else if wire.value.None? then Skip
      else Write(wire.value.value)
  }

  /** One event of a batch. */
  method Take(lane: Lane<SessionEvent, EventFrame>, ghost g: Grammar, version: IpcVersion, e: SessionEvent)
    requires lane.Valid() && lane.rules == RulesAt(g, version) && Formed(g, e)
    modifies lane
    ensures lane.Valid() && lane.drained == old(lane.drained) + [e]
    ensures old(lane.written) <= lane.written && |lane.written| <= |old(lane.written)| + 1
  {
    match TurnFor(e, version) {
      case Skip => lane.Skip(e);
      case Refuse => lane.Refuse(e);
      case Write(event) =>
        FrameIsRead(g, e, version, lane.sequence);
        lane.Write(e, IntoFrame(event, lane.sequence));
    }
  }

  /** One batch, which the session keeps within the slots reserved for it:
      every frame finds one. */
  method Pump(
    lane: Lane<SessionEvent, EventFrame>, ghost g: Grammar, version: IpcVersion, events: seq<SessionEvent>,
    reserved: nat)
    requires lane.Valid() && lane.rules == RulesAt(g, version) && |events| <= reserved
    requires forall i :: 0 <= i < |events| ==> Formed(g, events[i])
    modifies lane
    ensures lane.Valid() && lane.drained == old(lane.drained) + events
    ensures old(lane.written) <= lane.written && |lane.written| <= |old(lane.written)| + reserved
  {
    for i := 0 to |events|
      invariant lane.Valid() && lane.drained == old(lane.drained) + events[..i]
      invariant old(lane.written) <= lane.written && |lane.written| <= |old(lane.written)| + i
    {
      Take(lane, g, version, events[i]);
      assert old(lane.drained) + events[..i] + [events[i]] == old(lane.drained) + events[..i + 1];
    }
    assert events[..|events|] == events;
  }

  /** What a client makes of everything written to its lane: every frame is
      accepted at its version, and the events read are those of the session's
      run that are its to see and that the protocol can carry, in order. */
  lemma ClientReadsItsRun(g: Grammar, frames: seq<EventFrame>, run: seq<SessionEvent>, version: IpcVersion, i: nat)
    requires Delivers(RulesAt(g, version), frames, run) && i < |frames|
    ensures |frames| == |Kept(RulesAt(g, version), run)|
    ensures var r := Decode(g, frames[i].eventType, frames[i].data, version);
            r.Ok? && IntoSession(r.value) == Kept(RulesAt(g, version), run)[i]
  {
    var rules := RulesAt(g, version);
    ReaderReadsWhatWasKept(rules, frames, run);
    assert rules.means(frames[i], Kept(rules, run)[i]);
  }
}
