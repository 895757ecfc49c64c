/** A connection past its hello (crates/local/ipc-server/src/connection.rs):
    requests are handed to the port up to a limit, wait behind those up to
    another, may be cancelled, outlive their deadlines, or be refused. However
    these interleave, each request is answered once, and what is owed to a
    client that does not read stays within a bound. */
module ServerConnection {
  import opened Common
  import opened RequestBooks
  import opened OutboxQueue
  import opened KeepaliveClock

  /** A refusal, read while the outbox was empty, beside every request that can
      be without an answer. */
  const MOST_OWED: nat := MAX_IN_FLIGHT + MAX_PENDING + 1

  /** The most misses a profile may allow. */
  const MAX_MAX_MISSED: nat := 10

  /** A request's frame as it was read, and what it is once admitted. */
  type Body = string
  type Command = string

  datatype Waiting = Waiting(id: Id, request: Command, deadline: nat)

  ghost function Ids(pending: seq<Waiting>): (ids: seq<Id>)
    ensures |ids| == |pending| && forall i :: 0 <= i < |ids| ==> ids[i] == pending[i].id
  {
    seq(|pending|, i requires 0 <= i < |pending| => pending[i].id)
  }

  ghost function Requests(pending: seq<Waiting>): seq<Command> {
    seq(|pending|, i requires 0 <= i < |pending| => pending[i].request)
  }

  ghost function Unexpired(pending: seq<Waiting>, now: nat): seq<Waiting> {
    if pending == [] then []
    else
      var n := |pending| - 1;
      Unexpired(pending[..n], now) + if pending[n].deadline > now then [pending[n]] else []
  }

  /** Of what waited, the first `n` have been looked at and `k` of them kept. */
  ghost predicate Sifting(was: seq<Waiting>, now: nat, n: nat, pending: seq<Waiting>, k: nat) {
    && n <= |was| && k <= |pending|
    && pending == Unexpired(was[..n], now) + was[n..]
    && k == |Unexpired(was[..n], now)|
  }

  /** Awaited, with its deadline past. */
  ghost predicate Late(pending: seq<Waiting>, flight: map<Id, Held>, now: nat, id: Id) {
    || (exists i :: 0 <= i < |pending| && pending[i].id == id && pending[i].deadline <= now)
    || (id in flight && !flight[id].answered && flight[id].deadline <= now)
  }

  ghost predicate AllLate(pending: seq<Waiting>, flight: map<Id, Held>, now: nat, ids: seq<Id>) {
    forall j :: 0 <= j < |ids| ==> Late(pending, flight, now, ids[j])
  }

  lemma OneMoreLate(pending: seq<Waiting>, flight: map<Id, Held>, now: nat, ids: seq<Id>, id: Id)
    requires AllLate(pending, flight, now, ids) && Late(pending, flight, now, id)
    ensures AllLate(pending, flight, now, ids + [id])
  {
  }

  lemma SiftNone(was: seq<Waiting>, now: nat)
    ensures Sifting(was, now, 0, was, 0)
  {
    assert was[..0] == [] && [] + was[0..] == was;
  }

  lemma SiftOne(was: seq<Waiting>, now: nat, n: nat, pending: seq<Waiting>, k: nat)
    requires Sifting(was, now, n, pending, k) && k < |pending|
    ensures n < |was| && pending[k] == was[n]
    ensures was[n].deadline > now ==> Sifting(was, now, n + 1, pending, k + 1)
    ensures was[n].deadline <= now ==> Sifting(was, now, n + 1, pending[..k] + pending[k + 1..], k)
  {
    var kept := Unexpired(was[..n], now);
    assert was[..n + 1][..n] == was[..n];
    assert was[n..] == [was[n]] + was[n + 1..];
    Regroup(kept, was[n], was[n + 1..]);
    assert pending[..k] == kept && pending[k + 1..] == was[n + 1..];
  }

  lemma Sifted(was: seq<Waiting>, now: nat, n: nat, pending: seq<Waiting>)
    requires Sifting(was, now, n, pending, |pending|)
    ensures pending == Unexpired(was, now)
  {
    assert was[..n] == was;
  }

  ghost function Timeouts(ids: seq<Id>): seq<Frame> {
    seq(|ids|, i requires 0 <= i < |ids| => Response(ids[i], Some(Timeout)))
  }

  lemma TimeoutsOn(log: seq<Frame>, ids: seq<Id>, i: nat)
    requires i < |ids|
    ensures multiset(ids[i..]) == multiset(ids[i + 1..]) + multiset{ids[i]}
    ensures log + Timeouts(ids[..i]) + [Response(ids[i], Some(Timeout))] == log + Timeouts(ids[..i + 1])
  {
    assert ids[i..] == [ids[i]] + ids[i + 1..];
    assert Timeouts(ids[..i + 1]) == Timeouts(ids[..i]) + [Response(ids[i], Some(Timeout))];
  }

  lemma {:induction false} UnexpiredIsNoLonger(pending: seq<Waiting>, now: nat)
    ensures |Unexpired(pending, now)| <= |pending|
  {
    if pending != [] {
      UnexpiredIsNoLonger(pending[..|pending| - 1], now);
    }
  }

  const MIN_DEADLINE: nat := 1000
  const MAX_DEADLINE: nat := 60000

  /** The command deadline a request may have. */
  function Clamped(wait: nat): nat {
    if wait < MIN_DEADLINE then MIN_DEADLINE else if wait > MAX_DEADLINE then MAX_DEADLINE else wait
  }

  lemma IdsWithout(pending: seq<Waiting>, k: nat)
    requires k < |pending|
    ensures Ids(pending[..k] + pending[k + 1..]) == Ids(pending)[..k] + Ids(pending)[k + 1..]
  {
  }

  lemma IdsMembers(pending: seq<Waiting>, id: Id)
    ensures id in Ids(pending) <==> exists i :: 0 <= i < |pending| && pending[i].id == id
  {
    if i :| 0 <= i < |pending| && pending[i].id == id {
      assert Ids(pending)[i] == id;
    }
  }

  lemma NowhereWithout(pending: seq<Waiting>, k: nat)
    requires k < |pending|
    requires forall i :: 0 <= i < |pending| && i != k ==> pending[i].id != pending[k].id
    ensures var rest := pending[..k] + pending[k + 1..];
            forall i :: 0 <= i < |rest| ==> rest[i].id != pending[k].id
  {
  }

  /** A frame from the client. */
  datatype ClientFrame =
    | Request(id: Id, body: Body, deadline: Option<nat>)
    | Cancel(id: Id)
    | Pong(nonce: string)
    | OutOfPhase  // a frame that is not the client's to send now
    | Garbled     // bytes that are no frame

  /** How often each id was asked. */
  ghost function AskedIn(frames: seq<ClientFrame>): multiset<Id> {
    if frames == [] then multiset{}
    else
      var n := |frames| - 1;
      AskedIn(frames[..n]) + if frames[n].Request? then multiset{frames[n].id} else multiset{}
  }

  lemma AskedSnoc(frames: seq<ClientFrame>, f: ClientFrame)
    ensures AskedIn(frames + [f]) == AskedIn(frames) + if f.Request? then multiset{f.id} else multiset{}
  {
    assert (frames + [f])[..|frames|] == frames;
  }

  /** The client's end of the stream: every frame read from it, and whether it
      has ended or failed. */
  class Client {
    ghost var sent: seq<ClientFrame>
    ghost var left: bool

    constructor ()
      ensures sent == [] && !left
    {
      sent, left := [], false;
    }

    method Next() returns (frame: Option<ClientFrame>)
      modifies this
      ensures if frame.Some? then sent == old(sent) + [frame.value] && left == old(left)
              else sent == old(sent) && left
    {
      frame := *;
      if frame.Some? {
        sent := sent + [frame.value];
      } else {
        left := true;
      }
    }
  }

  /** A task that ended, with its answer or by panicking. */
  datatype Outcome = Outcome(task: nat, answer: Option<Option<TransportError>>)

  /** The port's side: the tasks that run, every request handed to it, and how
      each task ended. */
  class Port {
    var running: set<nat>
    var spawned: nat
    ghost var handed: seq<Command>
    ghost var ended: seq<Outcome>

    constructor ()
      ensures running == {} && spawned == 0 && handed == [] && ended == []
    {
      running, spawned, handed, ended := {}, 0, [], [];
    }

    method Spawn(request: Command) returns (t: nat)
      modifies this
      ensures t == old(spawned) && spawned == old(spawned) + 1
      ensures running == old(running) + {t} && handed == old(handed) + [request] && ended == old(ended)
    {
      t := spawned;
      running, spawned, handed := running + {t}, spawned + 1, handed + [request];
    }

    method Join() returns (outcome: Outcome)
      requires running != {}
      modifies this`running, this`ended
      ensures outcome.task in old(running) && running == old(running) - {outcome.task}
      ensures ended == old(ended) + [outcome]
    {
      var t :| t in running;
      running := running - {t};
      var answer: Option<Option<TransportError>> := *;
      outcome := Outcome(t, answer);
      ended := ended + [outcome];
    }
  }

  function Refusal(admitted: Result<Command, TransportError>): Option<TransportError> {
    if admitted.Err? then Some(admitted.error) else None
  }

  /** The arms of the loop that move requests, answers and probes. */
  datatype Arm = Drains | Reads | Finishes | Expires | Wakes(nonce: string) | Shuts | Stops

  class Connection {
    const client: Client
    const port: Port
    const outbox: Outbox
    const keepalive: Keepalive
    /** What a request's body comes to on this connection. */
    const admit: Body -> Result<Command, TransportError>
    const defaultDeadline: nat
    var pending: seq<Waiting>
    var flight: map<Id, Held>
    var tasks: map<nat, Id>

    ghost function Accounts(): Books
      reads this, outbox, outbox.lane, client
    {
      Books(Ids(pending), flight, tasks, AskedIn(client.sent), Answers(outbox.Log()))
    }

    ghost predicate Tracked()
      reads this, port
    {
      && port.running == tasks.Keys && |port.running| <= MAX_IN_FLIGHT && |pending| <= MAX_PENDING
      && forall t :: t in tasks ==> t < port.spawned
    }

    /** The accounts balance, `owing` the requests asked that are neither
        answered nor outstanding. */
    ghost predicate Keeps(owing: multiset<Id>)
      reads this, outbox, outbox.lane, client, port
    {
      && Tracked()
      && Sound(Accounts(), owing)
      && Responses(outbox.frames) + Open(Accounts()) + |owing| <= MOST_OWED
    }

    /** Every probe the clock asked for is in the log, once and in order, and
        those that wait are not yet satisfied. */
    ghost predicate Probing()
      reads outbox, outbox.lane, keepalive
    {
      && Pings(outbox.Log()) == keepalive.sent
      && keepalive.Valid() && keepalive.maxMissed <= MAX_MAX_MISSED
      && Probes(outbox.frames) <= keepalive.Unsatisfied()
    }

    /** Nothing waits while there is room in flight. */
    ghost predicate Busy()
      reads this, port
    {
      pending != [] ==> |port.running| == MAX_IN_FLIGHT
    }

    ghost predicate Valid()
      reads this, outbox, outbox.lane, client, port, keepalive
    {
      Keeps(multiset{}) && Probing() && Busy()
    }

    /** The requests the port has been handed, then those that wait. */
    ghost function Flow(): seq<Command>
      reads this, port
    {
      port.handed + Requests(pending)
    }

    constructor (
      admit: Body -> Result<Command, TransportError>, defaultDeadline: nat,
      interval: nat, responseTimeout: nat, maxMissed: nat, now: nat)
      requires 1 <= maxMissed <= MAX_MAX_MISSED
      ensures Valid() && client.sent == [] && outbox.Log() == [] && port.handed == []
      ensures fresh(client) && fresh(port) && fresh(outbox) && fresh(outbox.lane) && fresh(keepalive)
      ensures this.admit == admit && this.defaultDeadline == defaultDeadline
      ensures keepalive.interval == interval && keepalive.responseTimeout == responseTimeout
      ensures keepalive.maxMissed == maxMissed && keepalive.nextProbe == now + interval
    {
      this.admit, this.defaultDeadline := admit, defaultDeadline;
      client := new Client();
      port := new Port();
      outbox := new Outbox();
      keepalive := new Keepalive(interval, responseTimeout, maxMissed, now);
      pending, flight, tasks := [], map[], map[];
    }

    // ---------------------------------------------------------------
    // Answering

    /** An answer owed is pushed. The outbox's limit is never reached. */
    method Respond(id: Id, error: Option<TransportError>, ghost owing: multiset<Id>) returns (end: Option<End>)
      requires Keeps(owing + multiset{id}) && Probing()
      modifies outbox, outbox.lane
      ensures end.None? ==> Keeps(owing) && Probing() && outbox.Log() == old(outbox.Log()) + [Response(id, error)]
      ensures end.None? || (end == Some(Gone) && outbox.lane.shut)
    {
      ghost var before, books := outbox.frames, Accounts();
      ResponsesSnoc(before, Response(id, error));
      AnswersSnoc(outbox.Log(), Response(id, error));
      PingsSnoc(outbox.Log(), Response(id, error));
      Answered(books, owing, id);
      end := outbox.Push(Response(id, error));
    }

    // ---------------------------------------------------------------
    // Requests

    /** The request is handed to the port, in a task of its own. */
    method Dispatch(id: Id, request: Command, deadline: nat)
      requires Tracked() && |port.running| < MAX_IN_FLIGHT
      modifies this`flight, this`tasks, port
      ensures Tracked() && |port.running| == |old(port.running)| + 1
      ensures old(port.spawned) !in old(tasks) && tasks == old(tasks)[old(port.spawned) := id]
      ensures flight == old(flight)[id := Held(false, deadline)]
      ensures port.handed == old(port.handed) + [request] && port.ended == old(port.ended)
    {
      flight := flight[id := Held(false, deadline)];
      var t := port.Spawn(request);
      tasks := tasks[t := id];
    }

    predicate Awaiting(id: Id)
      reads this
    {
      (id in flight && !flight[id].answered) || exists i :: 0 <= i < |pending| && pending[i].id == id
    }

    /** What becomes of a request whose id is not awaited. An id the port still
        works on, though its client was answered, is refused; so is what is not
        admitted, with its own code. An admitted request is handed to the port at
        once while fewer than 16 run, waits behind the rest while fewer than 48
        do, and past that is refused. */
    twostate predicate Dealt(id: Id, new admitted: Result<Command, TransportError>, deadline: nat)
      reads this, port, outbox, outbox.lane
    {
      if id in old(flight) then Refused(id, InvalidArgument)
      else if admitted.Err? then Refused(id, admitted.error)
      else if |old(port.running)| < 16 then
        && outbox.Log() == old(outbox.Log()) && pending == old(pending)
        && port.handed == old(port.handed) + [admitted.value]
        && flight == old(flight)[id := Held(false, deadline)]
      else if |old(pending)| < 48 then
        && outbox.Log() == old(outbox.Log()) && port.handed == old(port.handed) && flight == old(flight)
        && pending == old(pending) + [Waiting(id, admitted.value, deadline)]
      else Refused(id, Overloaded)
    }

    /** It is answered with an error, and nothing else changes. */
    twostate predicate Refused(id: Id, error: TransportError)
      reads this, port, outbox, outbox.lane
    {
      && outbox.Log() == old(outbox.Log()) + [Response(id, Some(error))]
      && port.handed == old(port.handed) && pending == old(pending) && flight == old(flight)
    }

    /** A request just read is handed over at once. */
    method Start(id: Id, request: Command, deadline: nat)
      requires Keeps(multiset{id}) && Probing() && Busy() && outbox.frames == []
      requires |port.running| < MAX_IN_FLIGHT && id !in flight && id !in Ids(pending)
      modifies this`flight, this`tasks, port
      ensures Valid() && flight == old(flight)[id := Held(false, deadline)]
      ensures port.handed == old(port.handed) + [request]
    {
      assert pending == [];
      assert multiset{} + multiset{id} == multiset{id};
      Dispatched(Accounts(), multiset{}, id, port.spawned, deadline);
      Dispatch(id, request, deadline);
      OpenIsBounded(Accounts());
    }

    /** A request just read is left to wait. */
    method Enqueue(id: Id, request: Command, deadline: nat)
      requires Keeps(multiset{id}) && Probing() && Busy() && outbox.frames == []
      requires |port.running| == MAX_IN_FLIGHT && |pending| < MAX_PENDING && id !in flight && id !in Ids(pending)
      modifies this`pending
      ensures Valid() && pending == old(pending) + [Waiting(id, request, deadline)]
    {
      assert multiset{} + multiset{id} == multiset{id};
      Enqueued(Accounts(), multiset{}, id);
      ghost var was := pending;
      pending := pending + [Waiting(id, request, deadline)];
      assert Ids(pending) == Ids(was) + [id];
      OpenIsBounded(Accounts());
    }

    /** A request just read is answered at once. */
    method Refuse(id: Id, error: TransportError) returns (end: Option<End>)
      requires Keeps(multiset{id}) && Probing() && Busy() && outbox.frames == []
      modifies outbox, outbox.lane
      ensures end.None? ==> Valid() && Refused(id, error)
      ensures end.None? || (end == Some(Gone) && outbox.lane.shut)
    {
      assert multiset{} + multiset{id} == multiset{id};
      end := Respond(id, Some(error), multiset{});
    }

    /** A request just read. One that reuses an id still awaited ends the
        connection; any other is answered at once or left outstanding. */
    method Ask(id: Id, admitted: Result<Command, TransportError>, deadline: nat) returns (end: Option<End>)
      requires Keeps(multiset{id}) && Probing() && Busy() && outbox.frames == []
      modifies this, port, outbox, outbox.lane
      ensures end == Some(Violation) <==> old(Awaiting(id))
      ensures end.None? || (end == Some(Gone) && outbox.lane.shut) || end == Some(Violation)
      ensures end.None? ==> Valid() && Dealt(id, admitted, deadline)
    {
      if Awaiting(id) {
        return Some(Violation);
      }
      IdsMembers(pending, id);
      if id in flight {
        end := Refuse(id, InvalidArgument);
      } else if admitted.Err? {
        end := Refuse(id, admitted.error);
      } else if |port.running| < MAX_IN_FLIGHT {
        Start(id, admitted.value, deadline);
        end := None;
      } else if |pending| < MAX_PENDING {
        Enqueue(id, admitted.value, deadline);
        end := None;
      } else {
        end := Refuse(id, Overloaded);
      }
    }

    // ---------------------------------------------------------------
    // Answers decided before the port's

    /** The one at `k` waits no longer, and is owed an answer. */
    method Drop(k: nat, ghost owing: multiset<Id>)
      requires Keeps(owing) && k < |pending|
      modifies this`pending
      ensures Keeps(owing + multiset{old(pending)[k].id}) && pending == old(pending)[..k] + old(pending)[k + 1..]
    {
      Dropped(Accounts(), owing, k);
      IdsWithout(pending, k);
      pending := pending[..k] + pending[k + 1..];
    }

    /** One in flight is owed an answer, and its outcome will be discarded. */
    method Settle(id: Id, ghost owing: multiset<Id>)
      requires Keeps(owing) && id in flight && !flight[id].answered
      modifies this`flight
      ensures Keeps(owing + multiset{id})
      ensures flight == old(flight)[id := old(flight)[id].(answered := true)]
    {
      Settled(Accounts(), owing, id);
      flight := flight[id := flight[id].(answered := true)];
    }

    method Position(id: Id) returns (k: nat)
      ensures k <= |pending| && (forall i :: 0 <= i < k ==> pending[i].id != id)
      ensures k < |pending| ==> pending[k].id == id
    {
      k := 0;
      while k < |pending| && pending[k].id != id
        invariant k <= |pending| && forall i :: 0 <= i < k ==> pending[i].id != id
      {
        k := k + 1;
      }
    }

    method CancelWaiting(k: nat) returns (end: Option<End>)
      requires Valid() && k < |pending|
      modifies this`pending, outbox, outbox.lane
      ensures end.None? ==> Valid() && !Awaiting(old(pending)[k].id)
      ensures old(pending)[k].id !in flight && pending == old(pending)[..k] + old(pending)[k + 1..]
      ensures end.None? ==>
                outbox.Log() == old(outbox.Log()) + [Response(old(pending)[k].id, Some(CancelledBeforeDispatch))]
      ensures end.None? || (end == Some(Gone) && outbox.lane.shut)
    {
      var id := pending[k].id;
      ghost var none: multiset<Id> := multiset{};
      OnePlace(k);
      NowhereWithout(pending, k);
      Drop(k, none);
      assert none + multiset{id} == multiset{id};
      end := Respond(id, Some(CancelledBeforeDispatch), none);
    }

    method CancelHeld(id: Id) returns (end: Option<End>)
      requires Valid() && id in flight && !flight[id].answered
      requires forall i :: 0 <= i < |pending| ==> pending[i].id != id
      modifies this`flight, outbox, outbox.lane
      ensures end.None? ==> Valid() && !Awaiting(id)
      ensures end.None? ==> outbox.Log() == old(outbox.Log()) + [Response(id, Some(CancellationRaced))]
      ensures end.None? || (end == Some(Gone) && outbox.lane.shut)
    {
      ghost var none: multiset<Id> := multiset{};
      Settle(id, none);
      assert none + multiset{id} == multiset{id};
      end := Respond(id, Some(CancellationRaced), none);
    }

    /** A cancel is advisory: one still waiting is dropped, one in flight has its
        outcome discarded, and any other id changes nothing. */
    twostate predicate Withdrawn(id: Id)
      reads this, outbox, outbox.lane
    {
      && !Awaiting(id)
      && (if old(Awaiting(id))
          then outbox.Log() == old(outbox.Log()) + [Response(id, Some(
                 if id in old(flight) then CancellationRaced else CancelledBeforeDispatch))]
          else pending == old(pending) && flight == old(flight) && outbox.Log() == old(outbox.Log()))
    }

    method Cancel(id: Id) returns (end: Option<End>)
      requires Valid()
      modifies this`pending, this`flight, outbox, outbox.lane
      ensures end.None? ==> Valid() && Withdrawn(id)
      ensures end.None? || (end == Some(Gone) && outbox.lane.shut)
    {
      var k := Position(id);
      if k < |pending| {
        assert Awaiting(id);
        end := CancelWaiting(k);
      } else if id in flight && !flight[id].answered {
        assert Awaiting(id);
        end := CancelHeld(id);
      } else {
        assert !Awaiting(id);
        end := None;
      }
    }

    /** A request that waits is nowhere else. */
    lemma OnePlace(k: nat)
      requires Valid() && k < |pending|
      ensures pending[k].id !in flight
      ensures forall i :: 0 <= i < |pending| && i != k ==> pending[i].id != pending[k].id
    {
      WaitsApart(Accounts(), k);
    }

    // ---------------------------------------------------------------
    // The port's answers

    /** What a task that ended with `o` has the client told: its answer, or
        `Internal` for a panic, unless a cancel or the deadline answered it. */
    ghost function Tells(o: Outcome): seq<Frame>
      requires o.task in tasks && tasks[o.task] in flight
      reads this
    {
      var id := tasks[o.task];
      if flight[id].answered then []
      else [Response(id, if o.answer.Some? then o.answer.value else Some(Internal))]
    }

    /** A task ended. */
    method Finished() returns (end: Option<End>, ghost o: Outcome)
      requires Valid() && port.running != {}
      modifies this`tasks, this`flight, port`running, port`ended, outbox, outbox.lane
      ensures end.None? ==> Keeps(multiset{}) && Probing() && |port.running| == |old(port.running)| - 1
      ensures end.None? || (end == Some(Gone) && outbox.lane.shut)
      ensures port.ended == old(port.ended) + [o] && o.task in old(tasks) && old(tasks)[o.task] in old(flight)
      ensures end.None? ==> outbox.Log() == old(outbox.Log()) + old(Tells(o))
    {
      ghost var none: multiset<Id> := multiset{};
      var id, held, outcome, owing := Release();
      o := outcome;
      assert none + multiset{id} == multiset{id};
      if held.answered {
        return None, o;
      }
      end := Respond(id, if outcome.answer.Some? then outcome.answer.value else Some(Internal), none);
    }

    /** A task that ended is released, its answer told if it is owed, and those
        that have waited longest take the room. */
    twostate predicate Released(o: Outcome, end: Option<End>)
      requires old(Valid())
      reads this, port, outbox, outbox.lane
    {
      && o.task in old(tasks) && old(tasks)[o.task] in old(flight)
      && (end.None? ==> outbox.Log() == old(outbox.Log()) + old(Tells(o)) && Flow() == old(Flow()))
    }

    method Finish() returns (end: Option<End>)
      requires Valid() && port.running != {}
      modifies this, port, outbox, outbox.lane
      ensures end.None? ==> Valid()
      ensures |port.ended| == |old(port.ended)| + 1 && Released(port.ended[|old(port.ended)|], end)
      ensures end.None? || (end == Some(Gone) && outbox.lane.shut)
    {
      ghost var o;
      end, o := Finished();
      if end.None? {
        Promote();
      }
    }

    /** A task's bookkeeping goes, whatever became of it. */
    method Release() returns (id: Id, held: Held, outcome: Outcome, ghost owing: multiset<Id>)
      requires Keeps(multiset{}) && port.running != {}
      modifies this`tasks, this`flight, port`running, port`ended
      ensures Keeps(owing) && owing == if held.answered then multiset{} else multiset{id}
      ensures port.ended == old(port.ended) + [outcome] && outcome.task in old(tasks)
      ensures id == old(tasks)[outcome.task] && id in old(flight) && held == old(flight)[id]
      ensures |port.running| == |old(port.running)| - 1
    {
      ghost var books := Accounts();
      outcome := port.Join();
      var t := outcome.task;
      Ended(books, multiset{}, t);
      id := tasks[t];
      held := flight[id];
      assert multiset{} + multiset{id} == multiset{id};
      owing := if held.answered then multiset{} else multiset{id};
      tasks, flight := tasks - {t}, flight - {id};
      assert Accounts() == books.(tasks := books.tasks - {t}, flight := books.flight - {id});
      assert Tracked();
    }

    /** Those that have waited longest are handed over while there is room. */
    method Promote()
      requires Keeps(multiset{}) && Probing()
      modifies this, port
      ensures Valid() && Flow() == old(Flow()) && port.ended == old(port.ended)
    {
      while |port.running| < MAX_IN_FLIGHT && pending != []
        invariant Keeps(multiset{}) && Probing() && Flow() == old(Flow()) && port.ended == old(port.ended)
        decreases |pending|
      {
        HandOver();
      }
    }

    method HandOver()
      requires Keeps(multiset{}) && Probing() && |port.running| < MAX_IN_FLIGHT && pending != []
      modifies this, port
      ensures Keeps(multiset{}) && Probing() && Flow() == old(Flow()) && port.ended == old(port.ended)
      ensures |pending| == |old(pending)| - 1
    {
      var next := pending[0];
      Promoted(Accounts(), multiset{}, port.spawned, next.deadline);
      assert Ids(pending[1..]) == Ids(pending)[1..];
      assert Requests(pending) == [next.request] + Requests(pending[1..]);
      Regroup(port.handed, next.request, Requests(pending[1..]));
      Dispatch(next.id, next.request, next.deadline);
      pending := pending[1..];
    }

    // ---------------------------------------------------------------
    // Deadlines

    method DropLate(k: nat, timed: seq<Id>) returns (more: seq<Id>)
      requires Keeps(multiset(timed)) && k < |pending|
      modifies this`pending
      ensures Keeps(multiset(more)) && pending == old(pending)[..k] + old(pending)[k + 1..]
      ensures more == timed + [old(pending)[k].id]
    {
      more := timed + [pending[k].id];
      assert multiset(more) == multiset(timed) + multiset{pending[k].id};
      Drop(k, multiset(timed));
    }

    /** The one at `k`, the `n`-th of those that waited, is kept or dropped. */
    method SiftNext(now: nat, k: nat, timed: seq<Id>, ghost was: seq<Waiting>, ghost n: nat)
      returns (k': nat, more: seq<Id>)
      requires Keeps(multiset(timed)) && Sifting(was, now, n, pending, k) && k < |pending|
      requires AllLate(was, flight, now, timed)
      modifies this`pending
      ensures Keeps(multiset(more)) && Sifting(was, now, n + 1, pending, k')
      ensures AllLate(was, flight, now, more)
      ensures |pending| - k' < |old(pending)| - k
    {
      SiftOne(was, now, n, pending, k);
      if pending[k].deadline <= now {
        assert Late(was, flight, now, was[n].id);
        OneMoreLate(was, flight, now, timed, was[n].id);
        more := DropLate(k, timed);
        k' := k;
      } else {
        more, k' := timed, k + 1;
      }
    }

    /** Those whose deadline passed while they waited are dropped, in order. */
    method ExpireWaiting(now: nat) returns (timed: seq<Id>)
      requires Keeps(multiset{})
      modifies this`pending
      ensures Keeps(multiset(timed)) && pending == Unexpired(old(pending), now)
      ensures AllLate(old(pending), flight, now, timed)
    {
      var k: nat := 0;
      ghost var n: nat := 0;
      timed := [];
      SiftNone(pending, now);
      while k < |pending|
        invariant Keeps(multiset(timed)) && Sifting(old(pending), now, n, pending, k)
        invariant AllLate(old(pending), flight, now, timed)
        decreases |pending| - k
      {
        k, timed := SiftNext(now, k, timed, old(pending), n);
        n := n + 1;
      }
      Sifted(old(pending), now, n, pending);
    }

    method SettleLate(id: Id, timed: seq<Id>) returns (more: seq<Id>)
      requires Keeps(multiset(timed)) && id in flight && !flight[id].answered
      modifies this`flight
      ensures Keeps(multiset(more)) && more == timed + [id]
      ensures flight == old(flight)[id := old(flight)[id].(answered := true)]
    {
      more := timed + [id];
      assert multiset(more) == multiset(timed) + multiset{id};
      Settle(id, multiset(timed));
    }

    /** Those in flight whose deadline passed have their outcomes discarded. */
    method ExpireHeld(now: nat, late: seq<Id>, ghost was: seq<Waiting>) returns (timed: seq<Id>)
      requires Keeps(multiset(late)) && AllLate(was, flight, now, late)
      modifies this`flight
      ensures AllLate(was, old(flight), now, timed)
      ensures Keeps(multiset(timed)) && flight.Keys == old(flight).Keys
      ensures forall id :: id in flight ==> flight[id].answered || flight[id].deadline > now
    {
      timed := late;
      var left := flight.Keys;
      while left != {}
        invariant Keeps(multiset(timed)) && left <= flight.Keys == old(flight).Keys
        invariant forall id :: id in flight && id !in left ==> flight[id].answered || flight[id].deadline > now
        invariant forall id :: id in left ==> flight[id] == old(flight)[id]
        invariant AllLate(was, old(flight), now, timed)
        decreases left
      {
        var id :| id in left;
        left := left - {id};
        if !flight[id].answered && flight[id].deadline <= now {
          OneMoreLate(was, old(flight), now, timed, id);
          timed := SettleLate(id, timed);
        }
      }
    }

    /** Every answer owed is a timeout, pushed in order. */
    method AnswerLate(timed: seq<Id>) returns (end: Option<End>)
      requires Keeps(multiset(timed)) && Probing()
      modifies outbox, outbox.lane
      ensures end.None? ==> Keeps(multiset{}) && Probing() && outbox.Log() == old(outbox.Log()) + Timeouts(timed)
      ensures end.None? || (end == Some(Gone) && outbox.lane.shut)
    {
      assert timed[0..] == timed;
      for i := 0 to |timed|
        invariant Keeps(multiset(timed[i..])) && Probing()
        invariant outbox.Log() == old(outbox.Log()) + Timeouts(timed[..i])
      {
        TimeoutsOn(old(outbox.Log()), timed, i);
        end := Respond(timed[i], Some(Timeout), multiset(timed[i + 1..]));
        if end.Some? {
          return;
        }
      }
      assert timed[..|timed|] == timed && timed[|timed|..] == [];
      end := None;
    }

    /** Nothing is awaited past its deadline, and exactly what was is answered. */
    twostate predicate Expired(now: nat)
      reads this, outbox, outbox.lane
    {
      && pending == Unexpired(old(pending), now)
      && (forall id :: id in flight ==> flight[id].answered || flight[id].deadline > now)
      && exists timed :: AllLate(old(pending), old(flight), now, timed)
                         && outbox.Log() == old(outbox.Log()) + Timeouts(timed)
    }

    /** Every request whose deadline has passed is answered `Timeout`, and no
        other; none is left awaited past its deadline. */
    method Expire(now: nat) returns (end: Option<End>, ghost timed: seq<Id>)
      requires Valid()
      modifies this`pending, this`flight, outbox, outbox.lane
      ensures end.None? ==> Valid() && outbox.Log() == old(outbox.Log()) + Timeouts(timed)
      ensures AllLate(old(pending), old(flight), now, timed)
      ensures end.None? ==> Expired(now)
      ensures end.None? || (end == Some(Gone) && outbox.lane.shut)
    {
      var late := ExpireWaiting(now);
      UnexpiredIsNoLonger(old(pending), now);
      late := ExpireHeld(now, late, old(pending));
      timed := late;
      end := AnswerLate(late);
    }

    // ---------------------------------------------------------------
    // Probes

    twostate predicate Woken(now: nat, nonce: string, end: Option<End>)
      reads outbox, outbox.lane
    {
      var action := old(keepalive.ActionAt(now, nonce));
      && (end == Some(Closing(Timeout)) <==> action == Close)
      && (end.None? ==> outbox.Log() == if action == Ping(nonce) then old(outbox.Log()) + [Pinged(nonce)]
                                        else old(outbox.Log()))
    }

    /** The keepalive's turn: a probe joins the outbox exactly when the clock
        says one goes out, and the connection closes exactly when it says so. */
    method Wake(now: nat, nonce: string) returns (end: Option<End>)
      requires Valid()
      modifies keepalive, outbox, outbox.lane
      ensures end.None? ==> Valid()
      ensures Woken(now, nonce, end)
      ensures end.None? || (end == Some(Gone) && outbox.lane.shut) || end == Some(Closing(Timeout))
    {
      var action := keepalive.Wake(now, nonce);
      match action {
        case Nothing => end := None;
        case Close => end := Some(Closing(Timeout));
        case Ping(probe) => end := SendProbe(probe, old(keepalive.sent));
      }
    }

    method SendProbe(nonce: string, ghost before: seq<string>) returns (end: Option<End>)
      requires Keeps(multiset{}) && Busy() && keepalive.Valid() && keepalive.maxMissed <= MAX_MAX_MISSED
      requires Probes(outbox.frames) + 1 <= keepalive.Unsatisfied()
      requires Pings(outbox.Log()) == before && keepalive.sent == before + [nonce]
      modifies outbox, outbox.lane
      ensures end.None? ==> Valid() && outbox.Log() == old(outbox.Log()) + [Pinged(nonce)]
      ensures end.None? || (end == Some(Gone) && outbox.lane.shut)
    {
      ResponsesSnoc(outbox.frames, Pinged(nonce));
      AnswersSnoc(outbox.Log(), Pinged(nonce));
      PingsSnoc(outbox.Log(), Pinged(nonce));
      assert Answers(outbox.Log()) + multiset{} == Answers(outbox.Log());
      end := outbox.Push(Pinged(nonce));
    }

    // ---------------------------------------------------------------
    // The loop

    /** What each arm of the loop does. */
    twostate predicate Stepped(arm: Arm, now: nat, end: Option<End>)
      requires old(Valid())
      reads this, client, port, outbox, outbox.lane, keepalive
    {
      match arm
      case Drains =>
        if end.None?
        then old(outbox.frames) != [] && outbox.Log() == old(outbox.Log())
             && outbox.lane.written == old(outbox.lane.written) + [old(outbox.frames)[0]]
        else end == Some(Gone) && outbox.lane.shut
      case Reads =>
        if |client.sent| == |old(client.sent)| then client.left && end == Some(Gone)
        else |client.sent| == |old(client.sent)| + 1 && HandledAs(client.sent[|old(client.sent)|], now, end)
      case Finishes => |port.ended| == |old(port.ended)| + 1 && Released(port.ended[|old(port.ended)|], end)
      case Expires => end.None? ==> Expired(now)
      case Wakes(nonce) => Woken(now, nonce, end)
      case Shuts => end == Some(Gone)
      case Stops => end == Some(Closing(ShuttingDown))
    }

    /** One turn of the loop, on an arm that is ready. The client's own frames
        are read only while nothing waits in the outbox. */
    method Turn(arm: Arm, now: nat) returns (end: Option<End>)
      requires Valid() && Ready(arm)
      modifies this, client, port, outbox, outbox.lane, keepalive
      ensures end.None? ==> Valid()
      ensures Stepped(arm, now, end)
      ensures end != Some(Stalled) && (end == Some(Gone) ==> outbox.lane.shut || client.left)
    {
      match arm {
        case Drains => end := outbox.Drain();
        case Reads => end := Read(now);
        case Finishes => end := Finish();
        case Expires =>
          ghost var timed;
          end, timed := Expire(now);
        case Wakes(nonce) => end := Wake(now, nonce);
        case Shuts => end := Some(Gone);
        case Stops => end := Some(Closing(ShuttingDown));
      }
    }

    /** The arm may be taken. */
    predicate Ready(arm: Arm)
      reads this, port, outbox, outbox.lane
    {
      match arm
      case Drains => outbox.frames != []
      case Reads => outbox.frames == []
      case Finishes => port.running != {}
      case Shuts => outbox.lane.shut
      case _ => true
    }

    /** The next frame is taken from the client: a request it carries is now
        owed an answer. */
    method Take() returns (frame: Option<ClientFrame>)
      requires Valid() && outbox.frames == []
      modifies client
      ensures frame.Some? ==>
                && client.sent == old(client.sent) + [frame.value]
                && Keeps(if frame.value.Request? then multiset{frame.value.id} else multiset{})
      ensures frame.None? ==> client.sent == old(client.sent) && client.left
    {
      ghost var books := Accounts();
      frame := client.Next();
      if frame.None? {
        return;
      }
      AskedSnoc(old(client.sent), frame.value);
      OpenIsBounded(books);
      if frame.value.Request? {
        Asked(books, multiset{}, frame.value.id);
        assert multiset{} + multiset{frame.value.id} == multiset{frame.value.id};
      } else {
        assert books.asked + multiset{} == books.asked;
      }
    }

    /** When a request read at `now` is due. */
    function Deadline(asked: Option<nat>, now: nat): (due: nat)
      ensures now + 1000 <= due <= now + 60_000
      ensures var wait := if asked.Some? then asked.value else defaultDeadline;
              due == now + wait || (wait < 1000 && due == now + 1000) || (wait > 60_000 && due == now + 60_000)
    {
      now + Clamped(if asked.Some? then asked.value else defaultDeadline)
    }

    /** What a frame of the client's does: a request is asked under its clamped
        deadline, a cancelled one is awaited no longer, an echo of the current
        nonce satisfies its probe, and nothing else is in phase. */
    twostate predicate HandledAs(frame: ClientFrame, now: nat, end: Option<End>)
      reads this, port, outbox, outbox.lane, keepalive
    {
      match frame
      case Request(id, body, deadline) =>
        && (end == Some(Violation) <==> old(Awaiting(id)))
        && (end.None? ==> Dealt(id, admit(body), Deadline(deadline, now)))
      case Cancel(id) => end.None? ==> Withdrawn(id)
      case Pong(nonce) =>
        && end.None? && outbox.Log() == old(outbox.Log()) && pending == old(pending) && flight == old(flight)
        && (if old(keepalive.outstanding).Some? && old(keepalive.outstanding).value.nonce == nonce
            then keepalive.outstanding == None && keepalive.missed == 0
            else keepalive.outstanding == old(keepalive.outstanding) && keepalive.missed == old(keepalive.missed))
      case OutOfPhase => end == Some(Closing(ProtocolViolation))
      case Garbled => end == Some(Violation)
    }

    method Handle(frame: ClientFrame, now: nat) returns (end: Option<End>)
      requires Keeps(if frame.Request? then multiset{frame.id} else multiset{})
      requires Probing() && Busy() && outbox.frames == []
      modifies this, port, outbox, outbox.lane, keepalive
      ensures end.None? ==> Valid()
      ensures HandledAs(frame, now, end)
      ensures end != Some(Stalled) && (end == Some(Gone) ==> outbox.lane.shut)
    {
      match frame {
        case Request(id, body, deadline) =>
          end := Ask(id, admit(body), Deadline(deadline, now));
        case Cancel(id) =>
          end := Cancel(id);
        case Pong(nonce) =>
          keepalive.Pong(nonce);
          end := None;
        case OutOfPhase =>
          end := Some(Closing(ProtocolViolation));
        case Garbled =>
          end := Some(Violation);
      }
    }

    method Read(now: nat) returns (end: Option<End>)
      requires Valid() && outbox.frames == []
      modifies this, client, port, outbox, outbox.lane, keepalive
      ensures end.None? ==> Valid()
      ensures Stepped(Reads, now, end)
      ensures end != Some(Stalled) && (end == Some(Gone) ==> outbox.lane.shut || client.left)
    {
      var frame := Take();
      if frame.None? {
        return Some(Gone);
      }
      end := Handle(frame.value, now);
    }

    /** However long the connection lasts, until something ends it: at every
        turn each request the client sent has been answered once or is
        outstanding; and it is given up only once its client or its writer
        was, and once it is told to stop. */
    method Serve(arms: seq<Arm>) returns (end: Option<End>)
      requires Valid()
      modifies this, client, port, outbox, outbox.lane, keepalive
      ensures end.None? ==> Valid()
      ensures Stops in arms ==> end.Some?
      ensures end != Some(Stalled) && (end == Some(Gone) ==> outbox.lane.shut || client.left)
    {
      end := None;
      for i := 0 to |arms|
        invariant Valid() && end == None && Stops !in arms[..i]
      {
        var now: nat :| true;
        if Ready(arms[i]) {
          end := Turn(arms[i], now);
        }
        if end.Some? {
          return;
        }
      }
    }

    // ---------------------------------------------------------------
    // What holds at every turn

    /** Each request the client sent has been answered exactly once, or is
        awaited. */
    lemma EachIsAnsweredOnce(id: Id)
      requires Valid()
      ensures AskedIn(client.sent)[id] == Answers(outbox.Log())[id] + if Awaiting(id) then 1 else 0
    {
      assert BalancedAt(Accounts(), multiset{}, id);
      IdsMembers(pending, id);
    }

    /** What waits for the writer is within its limit, with room to spare. */
    lemma OutboxIsBounded()
      requires Valid()
      ensures |outbox.frames| <= 75 < OUTBOX_LIMIT
    {
    }
  }
}
