/** What turns a session's events into the host's lines, and keeps a call on
    that session from waiting behind them (`Emit` and `drive` in
    apps/claude-channel/src/serve.rs). */
module EmitEvents {
  import opened Common
  import opened DataSession
  import opened HostSide
  import opened PullQueue
  import opened BridgeSpec

  const EVENT_BATCH: nat := 64

  class Emit {
    const delivery: Delivery
    const converts: Conversion
    const daemon: Daemon
    const host: Host
    /** Pull mode's queue, made at the first session and kept since. */
    const pull: Pull
    /** The lease the session's open granted, until it ends. */
    var lease: Option<Lease>
    /** The epoch of the latest session. */
    var epoch: nat
    /** The loop's clock, in milliseconds. */
    var now: nat

    /** Pull mode's messages: those that left the queue for the host, then the
        queue. */
    ghost function Backlog(): seq<Pulled>
      reads this, pull, host
    {
      Dequeued(host.received) + pull.items
    }

    /** All of `given` was passed on or is held. */
    ghost predicate Took(given: seq<Event>)
      reads this, pull, host
    {
      && pull.Valid() && (pull.Made() ==> delivery.PullMode?)
      && Conserved(converts, delivery, Backlog(), host.said, given) && Received(converts, host.received)
    }

    /** Leases are as old as the sessions they came with. */
    ghost predicate Stamped(earlier: nat)
      reads this, pull, host
    {
      && Dated(Backlog(), earlier, epoch)
      && (delivery.PullMode? ==> earlier <= |Backlog()|)
      && (lease.Some? ==> lease.value.epoch == epoch)
    }

    ghost predicate Valid()
      reads this, pull, host, daemon
    {
      Took(daemon.record.given) && Stamped(daemon.record.earlier) && epoch == daemon.sessions
    }

    /** A session's events may be taken: in pull mode there is a queue. */
    ghost predicate Ready()
      reads this, pull, host, daemon
    {
      Valid() && (delivery.PullMode? ==> pull.Made())
    }

    /** Whether pull mode's queue is full, so the draining is paused. */
    predicate Paused()
      requires |pull.items| <= pull.bound
      reads this, pull
    {
      pull.IsFull()
    }

    constructor (delivery: Delivery, converts: Conversion, start: nat)
      ensures Valid() && this.delivery == delivery && this.converts == converts
      ensures now == start && lease.None? && !pull.Made()
      ensures fresh(daemon) && fresh(host) && fresh(pull)
      ensures daemon.record == NOTHING && host.asked == [] && host.told == []
    {
      this.delivery, this.converts := delivery, converts;
      lease, epoch, now := None, 0, start;
      daemon := new Daemon();
      host := new Host();
      pull := new Pull();
    }

    method Elapse()
      modifies this`now
      ensures old(now) <= now
    {
      var later: nat :| now <= later;
      now := later;
    }

    /** The daemon is asked for a session, once, however long it takes. */
    method Ask() returns (r: Result<Session, TransportError>)
      requires Valid()
      modifies this`now, daemon
      ensures old(now) <= now
      ensures r.Err? ==> Valid()
      ensures r.Ok? ==> fresh(r.value) && r.value.Valid() && r.value.held == {} && r.value.daemon == daemon
      ensures r.Ok? ==> epoch < r.value.epoch == daemon.sessions
      ensures r.Ok? ==> Took(daemon.record.given) && daemon.record.earlier == |Messages(daemon.record.given)|
      ensures daemon.record.asked == old(daemon.record.asked) + [old(now)]
      ensures daemon.record.refused == if r.Ok? then None else Some(r.error)
      ensures daemon.record.calls == old(daemon.record.calls) && SameRefusals(old(daemon.record), daemon.record)
    {
      r := daemon.Open(now);
      Elapse();
    }

    /** A session opened: the queue is made if this is the first, and the
        lease is the one it granted, if any. */
    method SessionOpened(s: Session, eventQueue: nat, granted: Option<string>, ghost earlier: nat)
      requires Took(daemon.record.given) && Dated(Backlog(), earlier, epoch) && lease.None?
      requires s.epoch == daemon.sessions && epoch < s.epoch
      requires daemon.record.earlier == |Messages(daemon.record.given)|
      modifies this`lease, this`epoch, pull
      ensures Ready() && epoch == s.epoch
      ensures pull.items == old(pull.items) && (old(pull.Made()) ==> pull.bound == old(pull.bound))
      ensures lease == if granted.Some? then Some(Lease(granted.value, s.epoch)) else None
    {
      DatedAnew(Backlog(), earlier, epoch, s.epoch);
      if delivery.PullMode? && !pull.Made() {
        pull.Make(eventQueue);
        assert Backlog() == old(Backlog());
      }
      epoch := s.epoch;
      if granted.Some? {
        lease := Some(Lease(granted.value, s.epoch));
      }
    }

    /** How many events to take now: a batch, and in pull mode no more than
        the queue has room for. */
    function Room(): (room: nat)
      requires pull.Valid()
      reads this, pull
      ensures pull.Made() ==> room <= pull.Room()
      ensures room == 64 || (pull.Made() && room == pull.Room() < 64)
      ensures room == 0 <==> Paused()
    {
      if !pull.Made() then EVENT_BATCH else Min(pull.Room(), EVENT_BATCH)
    }

    /** Pull mode: `event` is queued as taken, under the lease held now. No
        more is taken than the queue has room for, so it is never refused. */
    method Enqueue(event: Event, ghost given: seq<Event>, ghost earlier: nat)
      requires Took(given) && Stamped(earlier) && event.Message? && pull.Made() && !pull.IsFull()
      modifies pull`items, pull`pausedSince
      ensures Took(given + [event]) && Stamped(earlier)
      ensures Backlog() == old(Backlog()) + [Pulled(event, lease)]
      ensures pull.Room() == old(pull.Room()) - 1
    {
      var pulled := Pulled(event, lease);
      ConservedQueued(converts, Backlog(), given, pulled);
      DatedQueued(Backlog(), earlier, epoch, pulled);
      var nowMs: nat :| true;
      var queued := pull.Push(pulled, nowMs);
      assert Backlog() == old(Backlog()) + [pulled];
    }

    /** Push mode: `event` becomes a line, or its refusal is said. */
    method Tell(event: Event, ghost given: seq<Event>, ghost earlier: nat)
      requires Took(given) && Stamped(earlier) && event.Message? && !pull.Made() && delivery.PushMode?
      modifies host`said
      ensures Took(given + [event]) && Stamped(earlier)
    {
      var said := if converts(event) then Line(event) else Dropped(event);
      ConservedSaid(converts, host.said, given, said);
      host.Say(said);
    }

    /** A notice is the bridge's own state: a revocation ends the lease it
        names. */
    method Observe(notice: Event, ghost given: seq<Event>, ghost earlier: nat)
      requires Took(given) && Stamped(earlier) && !notice.Message?
      modifies this`lease
      ensures Took(given + [notice]) && Stamped(earlier)
      ensures lease == if notice.LeaseRevoked? && old(lease).Some? && old(lease).value.epoch == notice.epoch
                       then None else old(lease)
    {
      ConservedNotice(converts, delivery, Backlog(), host.said, given, notice);
      if notice.LeaseRevoked? && lease.Some? && lease.value.epoch == notice.epoch {
        lease := None;
      }
    }

    /** Turn what was taken from the session into queue items or lines. */
    method Events(events: seq<Event>, ghost given: seq<Event>, ghost earlier: nat)
      requires Took(given) && Stamped(earlier)
      requires delivery.PullMode? ==> pull.Made() && |events| <= pull.Room()
      modifies this`lease, pull`items, pull`pausedSince, host`said
      ensures Took(given + events) && Stamped(earlier)
      ensures pull.Made() ==> pull.Room() <= old(pull.Room())
    {
      assert given + events[..0] == given;
      for i := 0 to |events|
        invariant Took(given + events[..i]) && Stamped(earlier)
        invariant pull.Made() ==> |events| - i <= pull.Room() <= old(pull.Room())
      {
        assert given + events[..i + 1] == given + events[..i] + [events[i]];
        if !events[i].Message? {
          Observe(events[i], given + events[..i], earlier);
        } else if pull.Made() {
          Enqueue(events[i], given + events[..i], earlier);
        } else {
          Tell(events[i], given + events[..i], earlier);
        }
      }
      assert events[..|events|] == events;
    }

    /** One wake of the session: what waits is taken, at most what there is
        room for. False once the session has ended with nothing left. */
    method TakeWaiting(s: Session) returns (more: bool)
      requires Ready() && s.Valid() && s.daemon == daemon
      modifies s, daemon`record, this`lease, pull`items, pull`pausedSince, host`said
      ensures Ready() && s.Valid()
      ensures old(Paused()) ==> Paused()
      ensures s.alive ==> old(s.alive) && s.held == old(s.held)
      ensures !more ==> !s.alive
      ensures daemon.record == old(daemon.record).(
                given := daemon.record.given, polled := daemon.record.polled, ends := daemon.record.ends)
      ensures daemon.record.polled == old(daemon.record.polled) + if old(Paused()) then 0 else 1
      ensures daemon.record.ends == old(daemon.record.ends) + if old(Paused()) || more then 0 else 1
    {
      ghost var record := daemon.record;
      var events := s.Events(Room());
      more := events.Some?;
      if more {
        Events(events.value, record.given, record.earlier);
      } else {
        assert daemon.record.given == record.given;
      }
    }

    /** While a call is in flight on `s` and `wakes` more times something waits, its
        events are taken, until the call is answered, the session ends or the
        queue is full. */
    method Drain(s: Session, wakes: nat) returns (filled: bool)
      requires Ready() && s.Valid() && s.daemon == daemon
      modifies s, daemon`record, this`lease, this`now, pull`items, pull`pausedSince, host`said
      ensures Ready() && s.Valid() && old(now) <= now
      ensures old(Paused()) ==> Paused()
      ensures s.alive ==> old(s.alive) && s.held == old(s.held)
      ensures daemon.record == old(daemon.record).(
                given := daemon.record.given, polled := daemon.record.polled, ends := daemon.record.ends)
      ensures filled ==> Paused()
      ensures !filled && s.alive ==>
                (wakes > 0 ==> !Paused()) && daemon.record.polled == old(daemon.record.polled) + wakes
    {
      var draining := true;
      for i := 0 to wakes
        invariant Ready() && s.Valid() && old(now) <= now
        invariant daemon.record == old(daemon.record).(
                given := daemon.record.given, polled := daemon.record.polled, ends := daemon.record.ends)
        invariant s.alive ==> old(s.alive) && s.held == old(s.held)
        invariant old(Paused()) ==> Paused()
        invariant s.alive ==> draining && (i > 0 ==> !Paused()) && daemon.record.polled == old(daemon.record.polled) + i
      {
        Elapse();
        if draining {
          draining := TakeWaiting(s);
          if draining && Paused() {
            return true;
          }
        }
      }
      filled := false;
    }

    /** `call` on `s`, its events taken and written meanwhile: answered, or
        none when the pull queue filled first and the call was cancelled. */
    method Drive(s: Session, call: Call) returns (answer: Option<Answer>)
      requires Ready() && s.Valid() && s.daemon == daemon
      modifies s, daemon`record, this`lease, this`now, pull`items, pull`pausedSince, host`said
      ensures Ready() && s.Valid() && old(now) <= now
      ensures old(Paused()) ==> Paused()
      ensures s.alive ==> old(s.alive) && Outcome(call, answer, old(s.held), s.held)
      ensures !old(s.alive) && answer.Some? ==> answer.value.Refused?
      ensures answer.None? ==> Paused()
      ensures Recorded(old(daemon.record), daemon.record, call, answer, s.alive)
    {
      var wakes: nat :| true;
      var filled := Drain(s, wakes);
      if filled {
        s.Cancelled(call);
        return None;
      }
      var answered := s.Answered(call);
      return Some(answered);
    }

    /** What left the queue, each item converted or its refusal said. */
    method Convert(taken: seq<Pulled>) returns (receipts: seq<Receipt>)
      ensures Dequeued(receipts) == taken && Received(converts, receipts)
    {
      receipts := [];
      for i := 0 to |taken|
        invariant Dequeued(receipts) == taken[..i] && Received(converts, receipts)
      {
        var receipt := if converts(taken[i].event) then Item(taken[i]) else Withheld(taken[i]);
        ReceivedMore(converts, receipts, [receipt]);
        receipts := receipts + [receipt];
      }
    }

    /** `receive(max)`: at most `max` of the oldest waiting messages leave the
        queue for the host, `max` defaulting to the queue's bound. None queued
        yet is an empty answer. */
    method Receive(max: Option<nat>) returns (r: Reported)
      requires Valid()
      modifies host`received, host`told, pull`items, pull`pausedSince
      ensures Valid() && Backlog() == old(Backlog())
      ensures host.told == old(host.told) + [r]
      ensures old(host.received) <= host.received && r.Items?
      ensures r.items == Delivered(host.received[|old(host.received)|..])
      ensures pull.Made() ==> |host.received| - |old(host.received)| ==
                               Min(if max.Some? then max.value else pull.bound, old(|pull.items|))
      ensures pull.Made() ==> r.remaining == |pull.items|
      ensures !pull.Made() ==> host.received == old(host.received) && r.remaining == 0
      ensures r.paused <==> Paused()
    {
      ghost var queue, received := pull.items, host.received;
      var taken, remaining := [], 0;
      if pull.Made() {
        taken, remaining := pull.Take(if max.Some? then max.value else pull.bound);
      }
      var receipts := Convert(taken);
      DequeuedInPlace(received, receipts, queue, pull.items);
      ReceivedMore(converts, received, receipts);
      r := host.Give(receipts, remaining, Paused());
      assert host.received[|received|..] == receipts;
    }
  }
}
