/** The daemon as the bridge meets it: sessions it opens, whose answers are its
    to choose. Every choice is left open (`*`) inside what the daemon promises:
    its join and leave are idempotent, so a channel it holds is never refused a
    join and one it does not hold never refused a leave; a refusal changes
    nothing; a cancelled call may or may not have landed, but lands before any
    later call on its session or not at all; an ended session holds nothing and
    never comes back. The bridge asks for `events` and `commands`
    with every open, and a session it is given holds both: `events` is refused
    only by the session's end.

    What is said of a run is said against the daemon's own record, which only
    the daemon's side writes. */
module DataSession {
  import opened Common

  type ChannelId = string

  /** What the bridge may ask of its session. */
  datatype Call =
    | Join(channel: ChannelId)
    | Leave(channel: ChannelId)
    | Broadcast(to: ChannelId, payload: nat)
    | SendDirect(peer: string, payload: nat)

  datatype Answer = Taken | Refused(error: TransportError)

  /** A call made, and its answer unless it was cancelled in flight. */
  datatype Made = Made(call: Call, answer: Option<Answer>)

  datatype Lease = Lease(endpoint: string, epoch: nat)

  /** A message, or one of the notices that are the bridge's own state. */
  datatype Event =
    | Message(id: nat)
    | LeaseRevoked(epoch: nat)
    | Notice

  /** The messages among the first `n` of `events`. */
  ghost function MessagesTo(events: seq<Event>, n: nat): seq<Event>
    requires n <= |events|
  {
    if n == 0 then []
    else MessagesTo(events, n - 1) + if events[n - 1].Message? then [events[n - 1]] else []
  }

  ghost function Messages(events: seq<Event>): seq<Event> {
    MessagesTo(events, |events|)
  }

  lemma {:induction false} MessagesStand(events: seq<Event>, e: Event, n: nat)
    requires n <= |events|
    ensures MessagesTo(events + [e], n) == MessagesTo(events, n)
  {
    if n > 0 {
      MessagesStand(events, e, n - 1);
    }
  }

  lemma MessagesSnoc(events: seq<Event>, e: Event)
    ensures Messages(events + [e]) == Messages(events) + if e.Message? then [e] else []
  {
    MessagesStand(events, e, |events|);
  }

  // -----------------------------------------------------------------
  // The daemon's record

  /** Over all sessions, in order: the calls that reached the daemon, the
      events it gave, the joins and leaves it refused on a session still up,
      when it was asked for a session and whether it refused the latest, how many
      messages it had given when the latest session opened, and how often it was
      asked for events and answered with a session's end. */
  datatype Record = Record(
    calls: seq<Made>, given: seq<Event>,
    joinRefusals: multiset<ChannelId>, leaveRefusals: multiset<ChannelId>,
    asked: seq<nat>, refused: Option<TransportError>, earlier: nat, polled: nat, ends: nat)

  ghost const NOTHING := Record([], [], multiset{}, multiset{}, [], None, 0, 0, 0)

  /** Between the two a session that was up refused to join `c`. */
  ghost predicate JoinRefused(before: Record, after: Record, c: ChannelId) {
    before.joinRefusals[c] < after.joinRefusals[c]
  }

  ghost predicate LeaveRefused(before: Record, after: Record, c: ChannelId) {
    before.leaveRefusals[c] < after.leaveRefusals[c]
  }

  /** No refusal is forgotten. */
  ghost predicate Grew(before: Record, after: Record) {
    before.joinRefusals <= after.joinRefusals && before.leaveRefusals <= after.leaveRefusals
  }

  ghost predicate SameRefusals(before: Record, after: Record) {
    after.joinRefusals == before.joinRefusals && after.leaveRefusals == before.leaveRefusals
  }

  /** No session was asked for. */
  ghost predicate SameOpens(before: Record, after: Record) {
    after.asked == before.asked && after.refused == before.refused && after.earlier == before.earlier
  }

  /** `call` was made, and a refusal that left the session up is recorded. */
  ghost predicate Recorded(before: Record, after: Record, call: Call, answer: Option<Answer>, alive: bool) {
    && after.calls == before.calls + [Made(call, answer)]
    && SameOpens(before, after)
    && Grew(before, after)
    && (alive && answer.Some? && answer.value.Refused? && call.Join? ==> JoinRefused(before, after, call.channel))
    && (alive && answer.Some? && answer.value.Refused? && call.Leave? ==> LeaveRefused(before, after, call.channel))
  }

  // -----------------------------------------------------------------
  // What it promises

  /** The joins the daemon holds after answering `call`. */
  ghost predicate Honest(call: Call, answer: Answer, before: set<ChannelId>, after: set<ChannelId>) {
    match call
    case Join(c) => if answer.Taken? then after == before + {c} else c !in before && after == before
    case Leave(c) => if answer.Taken? then after == before - {c} else c in before && after == before
    case Broadcast(_, _) => after == before
    case SendDirect(_, _) => after == before
  }

  /** The joins the daemon may hold after `call` was cancelled in flight. */
  ghost predicate Advisory(call: Call, before: set<ChannelId>, after: set<ChannelId>) {
    after == before || Honest(call, Taken, before, after)
  }

  class Daemon {
    var sessions: nat
    ghost var record: Record

    constructor ()
      ensures sessions == 0 && record == NOTHING
    {
      sessions, record := 0, NOTHING;
    }

    /** Asked for a session at `now`: a new one, which holds nothing, or a
        refusal. */
    method Open(now: nat) returns (r: Result<Session, TransportError>)
      modifies this
      ensures r.Ok? ==> fresh(r.value) && r.value.Valid() && r.value.held == {}
      ensures r.Ok? ==> r.value.daemon == this && r.value.epoch == sessions == old(sessions) + 1
      ensures r.Err? ==> sessions == old(sessions)
      ensures record == old(record).(
                asked := old(record).asked + [now],
                refused := if r.Ok? then None else Some(r.error),
                earlier := if r.Ok? then |Messages(old(record).given)| else old(record).earlier)
    {
      var refused: Option<TransportError> := *;
      record := record.(asked := record.asked + [now], refused := refused);
      if refused.Some? {
        return Err(refused.value);
      }
      sessions := sessions + 1;
      record := record.(earlier := |Messages(record.given)|);
      var s := new Session(this, sessions);
      return Ok(s);
    }
  }

  class Session {
    const daemon: Daemon
    const epoch: nat
    var alive: bool
    var held: set<ChannelId>

    ghost predicate Valid()
      reads this
    {
      !alive ==> held == {}
    }

    constructor (daemon: Daemon, epoch: nat)
      ensures Valid() && alive && held == {} && this.daemon == daemon && this.epoch == epoch
    {
      this.daemon, this.epoch := daemon, epoch;
      alive, held := true, {};
    }

    /** Whatever is awaited, the session may have ended meanwhile. */
    method MayEnd()
      requires Valid()
      modifies this
      ensures Valid()
      ensures alive ==> old(alive) && held == old(held)
    {
      if * {
        alive := false;
        held := {};
      }
    }

    /** `call` runs to its answer. */
    method Answered(call: Call) returns (answer: Answer)
      requires Valid()
      modifies this, daemon`record
      ensures Valid()
      ensures alive ==> old(alive) && Honest(call, answer, old(held), held)
      ensures !old(alive) ==> answer.Refused?
      ensures Recorded(old(daemon.record), daemon.record, call, Some(answer), alive)
      ensures daemon.record.given == old(daemon.record.given)
      ensures !old(alive) || answer.Taken? ==>
                daemon.record == old(daemon.record).(calls := old(daemon.record).calls + [Made(call, Some(answer))])
    {
      MayEnd();
      var willing: bool := *;
      var why: TransportError := *;
      answer := Refused(why);
      ghost var record := daemon.record;
      if alive {
        if call.Join? {
          if call.channel in held || willing {
            held, answer := held + {call.channel}, Taken;
          } else {
            record := record.(joinRefusals := record.joinRefusals + multiset{call.channel});
          }
        } else if call.Leave? {
          if call.channel !in held || willing {
            held, answer := held - {call.channel}, Taken;
          } else {
            record := record.(leaveRefusals := record.leaveRefusals + multiset{call.channel});
          }
        } else if willing {
          answer := Taken;
        }
      }
      daemon.record := record.(calls := record.calls + [Made(call, Some(answer))]);
      MayEnd();
    }

    /** `call` is dropped in flight: the cancel is advisory. */
    method Cancelled(call: Call)
      requires Valid()
      modifies this, daemon`record
      ensures Valid()
      ensures alive ==> old(alive) && Advisory(call, old(held), held)
      ensures daemon.record == old(daemon.record).(calls := old(daemon.record).calls + [Made(call, None)])
    {
      daemon.record := daemon.record.(calls := daemon.record.calls + [Made(call, None)]);
      MayEnd();
      var landed: bool := *;
      if alive && landed {
        if call.Join? {
          held := held + {call.channel};
        } else if call.Leave? {
          held := held - {call.channel};
        }
      }
    }

    /** Resolves once something waits or the session has ended, and fails only
        then. */
    method Ready() returns (ok: bool)
      requires Valid()
      modifies this, daemon`record
      ensures Valid()
      ensures alive ==> old(alive) && held == old(held)
      ensures !ok ==> !alive
      ensures daemon.record == old(daemon.record).(ends := old(daemon.record).ends + if ok then 0 else 1)
    {
      MayEnd();
      ok := *;
      ok := ok || alive;
      daemon.record := daemon.record.(ends := daemon.record.ends + if ok then 0 else 1);
    }

    /** At most `max` waiting events, or none once the session has ended:
        with a positive `max` what was buffered comes first, and `events(0)`
        answers the end at once. */
    method Events(max: nat) returns (events: Option<seq<Event>>)
      requires Valid()
      modifies this, daemon`record
      ensures Valid()
      ensures alive ==> old(alive) && held == old(held)
      ensures events.Some? ==> |events.value| <= max
      ensures events.None? ==> !alive
      ensures max == 0 ==> (events.None? <==> !alive)
      ensures daemon.record == old(daemon.record).(
                given := old(daemon.record).given + (if events.Some? then events.value else []),
                polled := old(daemon.record).polled + (if max > 0 then 1 else 0),
                ends := old(daemon.record).ends + if max > 0 && events.None? then 1 else 0)
    {
      daemon.record := daemon.record.(polled := daemon.record.polled + if max > 0 then 1 else 0);
      MayEnd();
      var drained: bool := *;
      if !alive && (max == 0 || drained) {
        daemon.record := daemon.record.(ends := daemon.record.ends + if max > 0 then 1 else 0);
        return None;
      }
      var taken: seq<Event> := *;
      events := Some(if |taken| <= max then taken else taken[..max]);
      daemon.record := daemon.record.(given := daemon.record.given + events.value);
    }
  }
}
