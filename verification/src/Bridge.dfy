/** The Claude Channel bridge's one loop (apps/claude-channel/src/serve.rs):
    the host's calls in, the session's events out, and the session kept open
    across the daemon going away. */
module Bridge {
  import opened Common
  import opened DataSession
  import opened HostSide
  import opened CallBooks
  import opened Backoff
  import opened BridgeSpec
  import opened EmitEvents

  /** What a session-bound call that is no reply asks of the session. */
  ghost function Asks(call: ToolCall): Call
    requires SessionBound(call) && !call.Reply?
  {
    match call
    case JoinChannel(c) => Join(c)
    case LeaveChannel(c) => Leave(c)
    case Publish(to, payload) => Broadcast(to, payload)
    case Send(peer, payload) => SendDirect(peer, payload)
  }

  /** What the host is told of a join or a leave is what became of its row: done;
      its outcome unknown; or not done, and at most a refusal no longer shown. */
  ghost predicate Told(call: ToolCall, r: Reported, a: Books, b: Books) {
    call.JoinChannel? || call.LeaveChannel? ==>
      var was, row := a.Of(call.channel), b.Of(call.channel);
      match r
      case Text => row == Row(call.JoinChannel?, None, false)
      case QueueFullCancelled =>
        row == was.(pending := Some(if call.JoinChannel? then PendingJoin else PendingLeave))
      case _ => row == was || (call.JoinChannel? && row == was.(refused := false))
  }

  /** What the host means by a call that needs the session, `lease` held and
      `joined` joined: a reply goes to the peer its token names while the lease
      it was minted under is held, or to its channel while that is joined; all
      else is as it is asked. */
  ghost function Meaning(call: ToolCall, lease: Option<Lease>, joined: set<ChannelId>): Result<Call, TransportError>
    requires SessionBound(call)
  {
    match call
    case JoinChannel(c) => Ok(Join(c))
    case LeaveChannel(c) => Ok(Leave(c))
    case Send(peer, x) => Ok(SendDirect(peer, x))
    case Publish(c, x) => Ok(Broadcast(c, x))
    case Reply(None, _) => Err(InvalidArgument)
    case Reply(Some(DirectRoute(epoch, peer)), x) =>
      if lease.Some? && lease.value.epoch == epoch then Ok(SendDirect(peer, x)) else Err(InvalidArgument)
    case Reply(Some(BroadcastRoute(c)), x) =>
      if c in joined then Ok(Broadcast(c, x)) else Err(ChannelNotJoined)
  }

  /** What becomes of a call: one that needs the session is refused while the
      queue is full, and told of its own fault; without a session a leave is
      taken at once and anything else told why not; and on the one there is what
      it means is made, once, and a send told as it was answered. */
  ghost predicate Acted(
    call: ToolCall, up: bool, paused: bool, lease: Option<Lease>, joined: set<ChannelId>, why: TransportError,
    r: Reported, before: seq<Made>, after: seq<Made>)
  {
    if !SessionBound(call) then after == before
    else if paused then after == before && r == QueueFull
    else
      var ask := Meaning(call, lease, joined);
      if ask.Ok? && up
      then AddedOne(before, after, ask.value) && (IsSend(ask.value) ==> r == Report(Last(after).answer))
      else after == before && r == if ask.Err? then Failed(ask.error)
                                   else if call.LeaveChannel? then Text else Failed(why)
  }

  /** So the account of sends is kept, and no channel but the host's concerned. */
  lemma ActedKeepsTheBooks(
    a: Books, b: Books, r: Record, s: Record, asked: seq<ToolCall>, told: seq<Reported>, call: ToolCall, x: Reported,
    up: bool, paused: bool, lease: Option<Lease>, joined: set<ChannelId>, why: TransportError)
    requires Acted(call, up, paused, lease, joined, why, x, r.calls, s.calls)
    requires Accounted(asked, told, Sends(r.calls)) && Meant(a, r.calls, NamedIn(asked))
    requires Faithful(a, b, r, s, Named(call))
    ensures Accounted(asked + [call], told + [x], Sends(s.calls)) && Meant(b, s.calls, NamedIn(asked + [call]))
  {
    AccountedCall(asked, told, r.calls, call, x, s.calls);
    MeantHost(a, b, r, s, asked, call);
  }

  /** At how many of the first `n` turns a line of the host was ready. */
  ghost function Times(ready: seq<bool>, n: nat): nat
    requires n <= |ready|
  {
    if n == 0 then 0 else Times(ready, n - 1) + if ready[n - 1] then 1 else 0
  }

  /** An open refused because of the endpoint, not the daemon. */
  predicate EndpointRefusal(error: TransportError) {
    error in {EndpointInUse, EndpointUnknown, EndpointDisabled, EndpointClientKindDenied}
  }

  class Bridge {
    const emit: Emit
    const backoff: Reconnect
    var joined: set<ChannelId>
    var session: Session?
    /** Re-joins the daemon refused, each until the next join or leave. */
    var rejoinRefused: map<ChannelId, TransportError>
    /** Joins and leaves cancelled in flight, the latest wanted each. */
    var pending: map<ChannelId, PendingOp>
    var lastOpenError: Option<TransportError>

    ghost function Account(): Books
      reads this
    {
      Books(joined, pending, rejoinRefused.Keys)
    }

    /** Everything the daemon gave was passed on or is held; no session, no
        lease; and a lease is this session's. */
    ghost predicate EmitInv()
      reads this, emit, emit.pull, emit.host, emit.daemon, session
    {
      && emit.Valid()
      && (session == null ==> emit.lease.None?)
      && (session != null ==> emit.Ready() && session.epoch == emit.epoch && session.daemon == emit.daemon)
    }

    ghost predicate JoinInv()
      reads this, session
    {
      session != null ==>
        && session.Valid()
        && (session.alive ==> Agree(Account(), session.held))
        && Consistent(Account())
    }

    /** What the host's calls and the session's events rest on. */
    ghost predicate Sound()
      reads this, emit, emit.pull, emit.host, emit.daemon, session
    {
      EmitInv() && JoinInv()
    }

    /** The opens the daemon saw are those the backoff paced. */
    ghost predicate PaceInv()
      reads this, emit, emit.daemon, backoff
    {
      && backoff.Valid(if session == null then Waiting else Up) && backoff.pace.seen <= emit.now
      && emit.daemon.record.asked == backoff.asks
    }

    /** The sends the daemon saw are the host's, told as they were answered, and
        it was asked to join and leave no channel but the host's. */
    ghost predicate CallInv()
      reads this, emit, emit.host, emit.daemon
    {
      && Accounted(emit.host.asked, emit.host.told, Sends(emit.daemon.record.calls))
      && Meant(Account(), emit.daemon.record.calls, NamedIn(emit.host.asked))
    }

    /** In the midst of an open. */
    ghost predicate Asking()
      reads this, emit, emit.daemon, backoff
    {
      && session == null && backoff.Valid(Opening) && backoff.pace.seen <= emit.now
      && emit.daemon.record.asked == backoff.asks
    }

    /** Time has passed and no session was asked for. */
    ghost predicate Kept(now: nat, record: Record)
      reads emit, emit.daemon
    {
      now <= emit.now && SameOpens(record, emit.daemon.record)
    }

    /** What the bridge says of the last open is what the daemon said, or that the
        session it gave ended. */
    ghost predicate ErrorInv()
      reads this, emit, emit.daemon
    {
      if emit.daemon.record.refused.Some? then lastOpenError == emit.daemon.record.refused
      else lastOpenError.None? || lastOpenError == Some(BackendUnavailable)
    }

    /** Everything that holds whenever the loop is at its head. */
    ghost predicate AtHead()
      reads this, emit, emit.pull, emit.host, emit.daemon, session, backoff
    {
      Sound() && PaceInv() && ErrorInv()
    }

    constructor (delivery: Delivery, converts: Conversion, start: nat)
      ensures fresh(emit) && fresh(backoff) && fresh(emit.daemon) && fresh(emit.host) && fresh(emit.pull)
      ensures AtHead() && CallInv() && session == null && emit.daemon.record == NOTHING
      ensures emit.delivery == delivery && emit.converts == converts
      ensures joined == {} && |pending| == 0 && |rejoinRefused| == 0
    {
      emit := new Emit(delivery, converts, start);
      joined, session := {}, null;
      rejoinRefused, pending, lastOpenError := map[], map[], None;
      backoff := new Reconnect(start);
      new;
      assert forall c :: MeantAt(Account(), [], {}, c);
    }

    /** Whether `s` has ended, asked of the session itself. */
    static method Ended(s: Session) returns (ended: bool)
      requires s.Valid()
      modifies s, s.daemon`record
      ensures s.Valid() && s.daemon.record == old(s.daemon.record)
      ensures s.alive ==> old(s.alive) && s.held == old(s.held)
      ensures ended <==> !s.alive
    {
      var none := s.Events(0);
      ended := none.None?;
      assert s.daemon.record.given == old(s.daemon.record.given);
    }

    // ---------------------------------------------------------------
    // One channel's row

    /** `c` is joined: no outcome is unknown and no refusal on show. */
    method Joined(c: ChannelId)
      modifies this`joined, this`rejoinRefused, this`pending
      ensures OnlyChanged(old(Account()), Account(), c) && Account().Of(c) == Row(true, None, false)
      ensures pending == old(pending) - {c}
    {
      rejoinRefused := rejoinRefused - {c};
      pending := pending - {c};
      joined := joined + {c};
    }

    /** `c` is left, and its refusal row goes with it. */
    method Left(c: ChannelId)
      modifies this`joined, this`rejoinRefused, this`pending
      ensures OnlyChanged(old(Account()), Account(), c) && Account().Of(c) == Row(false, None, false)
      ensures pending == old(pending) - {c}
    {
      joined := joined - {c};
      rejoinRefused := rejoinRefused - {c};
      pending := pending - {c};
    }

    /** A re-join was cancelled: `c` is not joined until its re-issue says so. */
    method Postponed(c: ChannelId)
      modifies this`joined, this`pending
      ensures OnlyChanged(old(Account()), Account(), c)
      ensures Account().Of(c) == old(Account()).Of(c).(joined := false, pending := Some(PendingJoin))
    {
      joined := joined - {c};
      pending := pending[c := PendingJoin];
    }

    /** The outcome of `op` on `c` is unknown; else its row stands. */
    method Unknown(c: ChannelId, op: PendingOp)
      modifies this`pending
      ensures OnlyChanged(old(Account()), Account(), c)
      ensures Account().Of(c) == old(Account()).Of(c).(pending := Some(op))
    {
      pending := pending[c := op];
    }

    /** The outcome of a call on `c` is known; else its row stands. */
    method Known(c: ChannelId)
      modifies this`pending
      ensures OnlyChanged(old(Account()), Account(), c)
      ensures Account().Of(c) == old(Account()).Of(c).(pending := None)
      ensures pending == old(pending) - {c}
    {
      pending := pending - {c};
    }

    /** A join of `c` was answered with an error: no refusal stays on show. */
    method Unshown(c: ChannelId)
      modifies this`rejoinRefused, this`pending
      ensures OnlyChanged(old(Account()), Account(), c)
      ensures Account().Of(c) == old(Account()).Of(c).(pending := None, refused := false)
    {
      rejoinRefused := rejoinRefused - {c};
      pending := pending - {c};
    }

    /** What a join's answer makes of its row, and what is told of it. */
    method NoteJoin(c: ChannelId, answer: Option<Answer>) returns (r: Reported)
      modifies this`joined, this`rejoinRefused, this`pending
      ensures OnlyChanged(old(Account()), Account(), c) && r == Report(answer)
      ensures Account().Of(c) == if answer.None? then old(Account()).Of(c).(pending := Some(PendingJoin))
                                 else if answer.value.Taken? then Row(true, None, false)
                                 else old(Account()).Of(c).(pending := None, refused := false)
    {
      if answer.None? {
        Unknown(c, PendingJoin);
        r := QueueFullCancelled;
      } else if answer.value.Refused? {
        Unshown(c);
        r := Failed(answer.value.error);
      } else {
        Joined(c);
        r := Text;
      }
    }

    /** What a leave's does, `ended` if the session took the join with it. */
    method NoteLeave(c: ChannelId, answer: Option<Answer>, ended: bool) returns (r: Reported)
      modifies this`joined, this`rejoinRefused, this`pending
      ensures OnlyChanged(old(Account()), Account(), c)
      ensures r == if answer.Some? && ended then Text else Report(answer)
      ensures Account().Of(c) == if answer.None? then old(Account()).Of(c).(pending := Some(PendingLeave))
                                 else if answer.value.Taken? || ended then Row(false, None, false)
                                 else old(Account()).Of(c).(pending := None)
    {
      if answer.None? {
        Unknown(c, PendingLeave);
        r := QueueFullCancelled;
      } else if answer.value.Refused? && !ended {
        Known(c);
        r := Failed(answer.value.error);
      } else {
        Left(c);
        r := Text;
      }
    }

    /** A session that was up, and since `before` refused to join `c`: a
        status row. */
    method Refuse(s: Session, c: ChannelId, error: TransportError, ghost before: Record)
      requires s.alive && JoinRefused(before, s.daemon.record, c)
      modifies this`joined, this`rejoinRefused, this`pending
      ensures OnlyChanged(old(Account()), Account(), c) && Account().Of(c) == Row(false, None, true)
      ensures pending == old(pending) - {c} && rejoinRefused[c] == error
    {
      joined := joined - {c};
      rejoinRefused := rejoinRefused[c := error];
      pending := pending - {c};
    }

    // ---------------------------------------------------------------
    // The session's life

    /** The session ended: its lease with it, and a fresh one is sought. */
    method Lost()
      requires AtHead() && session != null
      modifies this`session, emit`lease, backoff
      ensures AtHead() && session == null
      ensures backoff.pace == PaceAfter(old(backoff.pace), backoff.openedAt, emit.now)
      ensures backoff.openedAt == old(backoff.openedAt)
    {
      session := null;
      emit.lease := None;
      backoff.Lost(emit.now);
    }

    /** A new session holds no joins: what was pending is the intent. */
    method FoldPending()
      modifies this`joined, this`rejoinRefused, this`pending
      ensures joined == old(Account().Intent()) && |pending| == 0
      ensures Folding(old(Account()), Account(), {})
    {
      ghost var was := Account();
      var ops, todo := pending, pending.Keys;
      pending := map[];
      FoldingStarts(was, Account());
      while todo != {}
        invariant |pending| == 0 && todo <= ops.Keys
        invariant Folding(was, Account(), todo)
        decreases |todo|
      {
        var c :| c in todo;
        ghost var before := Account();
        assert FoldingAt(was, before, todo, c);
        if ops[c] == PendingJoin {
          joined := joined + {c};
        } else {
          Left(c);
        }
        FoldingStep(was, before, Account(), todo, c);
        todo := todo - {c};
      }
      FoldedJoins(was, Account());
    }

    /** One re-join of an open: `c` is taken again on the new session `s`.
        True when the session ended under it, which refuses nothing. */
    method Rejoin(s: Session, c: ChannelId) returns (died: bool)
      requires emit.Ready() && s.Valid() && s.daemon == emit.daemon
      requires c in joined && c !in pending
      modifies s, emit.daemon`record, emit`lease, emit`now, emit.pull, emit.host`said
      modifies this`joined, this`rejoinRefused, this`pending
      ensures emit.Ready() && s.Valid() && old(emit.now) <= emit.now
      ensures s.alive ==> old(s.alive) && OnlyTouched(old(s.held), s.held, c)
      ensures Grew(old(emit.daemon.record), emit.daemon.record)
      ensures SameOpens(old(emit.daemon.record), emit.daemon.record)
      ensures AddedOne(old(emit.daemon.record.calls), emit.daemon.record.calls, Join(c))
      ensures old(emit.Paused()) || (!died && c in pending) ==> emit.Paused()
      ensures died ==> !s.alive && Account() == old(Account())
      ensures !died ==> OnlyChanged(old(Account()), Account(), c)
      ensures !died ==> Account().Of(c).Settled(JoinRefused(old(emit.daemon.record), emit.daemon.record, c))
      ensures !died && s.alive && c !in old(s.held) ==> Account().Of(c).Agrees(c in s.held)
      ensures !died ==> match Last(emit.daemon.record.calls).answer
                        case None => c in pending
                        case Some(Taken) => c in joined
                        case Some(Refused(e)) => c in rejoinRefused && rejoinRefused[c] == e
    {
      var answer := emit.Drive(s, Join(c));
      if answer.None? {
        Postponed(c);
        return false;
      }
      if answer.value.Taken? {
        Joined(c);
        return false;
      }
      died := Ended(s);
      if !died {
        Refuse(s, c, answer.value.error, old(emit.daemon.record));
      }
    }

    /** The joins taken again on a new session, one by one, until all are
        settled or the session ends under one. */
    method RejoinAll(s: Session) returns (died: bool, ghost left: set<ChannelId>)
      requires emit.Ready() && s.Valid() && s.daemon == emit.daemon && s.held == {} && |pending| == 0
      modifies s, emit.daemon`record, emit`lease, emit`now, emit.pull, emit.host`said
      modifies this`joined, this`rejoinRefused, this`pending
      ensures emit.Ready() && s.Valid() && old(emit.now) <= emit.now
      ensures SameOpens(old(emit.daemon.record), emit.daemon.record)
      ensures Added(old(emit.daemon.record.calls), emit.daemon.record.calls, Rejoins(old(joined)))
      ensures |pending| == 0 || emit.Paused()
      ensures if died then !s.alive else left == {}
      ensures Rejoining(old(Account()), Account(), old(emit.daemon.record), emit.daemon.record, left)
      ensures !died && s.alive ==> Agree(Account(), s.held)
    {
      ghost var was, record := Account(), emit.daemon.record;
      var todo := joined;
      died := false;
      RejoiningStarts(was, record);
      AgreeButStarts(was);
      AddedNothing(record.calls, Rejoins(was.joined));
      while todo != {}
        invariant emit.Ready() && s.Valid() && old(emit.now) <= emit.now
        invariant SameOpens(record, emit.daemon.record) && (|pending| == 0 || emit.Paused())
        invariant Added(record.calls, emit.daemon.record.calls, Rejoins(was.joined))
        invariant Rejoining(was, Account(), record, emit.daemon.record, todo)
        invariant s.alive ==> AgreeBut(Account(), s.held, todo)
        decreases |todo|
      {
        var c :| c in todo;
        ghost var before, held, mid := Account(), s.held, emit.daemon.record;
        assert RejoiningAt(was, before, record, mid, todo, c);
        died := Rejoin(s, c);
        if !died && c !in pending && |before.pending| == 0 {
          NonePending(before, Account(), c);
        }
        AddedNext(record.calls, mid.calls, emit.daemon.record.calls, Rejoins(was.joined), Join(c));
        if died {
          RejoiningStops(was, before, record, mid, emit.daemon.record, todo);
          return true, todo;
        }
        RejoiningStep(was, before, Account(), record, mid, emit.daemon.record, todo, c);
        if s.alive {
          assert AgreesButAt(before, held, todo, c);
          AgreeButStep(before, Account(), held, s.held, todo, c);
        }
        todo := todo - {c};
      }
      left := {};
      if s.alive {
        AgreeButEnds(Account(), s.held);
      }
    }

    /** The new session `s` takes up the intent. */
    method TakeUp(s: Session) returns (died: bool)
      requires emit.Ready() && s.Valid() && s.daemon == emit.daemon && s.held == {}
      modifies s, emit.daemon`record, emit`lease, emit`now, emit.pull, emit.host`said
      modifies this`joined, this`rejoinRefused, this`pending
      ensures emit.Ready() && s.Valid() && old(emit.now) <= emit.now
      ensures SameOpens(old(emit.daemon.record), emit.daemon.record)
      ensures Added(old(emit.daemon.record.calls), emit.daemon.record.calls, Rejoins(old(Account().Intent())))
      ensures Faithful(old(Account()), Account(), old(emit.daemon.record), emit.daemon.record, {})
      ensures |pending| == 0 || emit.Paused()
      ensures died ==> !s.alive
      ensures !died && s.alive ==> Agree(Account(), s.held)
      ensures !died ==> Consistent(Account())
      ensures !died ==> TakenUp(old(Account()), Account(), old(emit.daemon.record), emit.daemon.record)
    {
      ghost var was, record := Account(), emit.daemon.record;
      FoldPending();
      ghost var folded := Account();
      ghost var left;
      died, left := RejoinAll(s);
      OpenIsFaithful(was, folded, Account(), record, emit.daemon.record, left);
    }

    /** The open the wait was for begins: the daemon is asked. */
    method Ask() returns (r: Result<Session, TransportError>)
      requires AtHead() && session == null && backoff.reconnectAt <= emit.now
      modifies emit`now, emit.daemon, backoff
      ensures Asking() && old(emit.now) <= emit.now
      ensures backoff.pace == PaceOpened(old(backoff.pace), old(emit.now), old(emit.now), true)
      ensures r.Err? ==> emit.Valid()
      ensures r.Ok? ==> fresh(r.value) && r.value.Valid() && r.value.held == {} && r.value.daemon == emit.daemon
      ensures r.Ok? ==> emit.epoch < r.value.epoch == emit.daemon.sessions
      ensures r.Ok? ==> emit.Took(emit.daemon.record.given)
      ensures r.Ok? ==> emit.daemon.record.earlier == |Messages(emit.daemon.record.given)|
      ensures emit.daemon.record.asked == old(emit.daemon.record.asked) + [old(emit.now)]
      ensures emit.daemon.record.refused == if r.Ok? then None else Some(r.error)
      ensures emit.daemon.record.calls == old(emit.daemon.record.calls)
      ensures SameRefusals(old(emit.daemon.record), emit.daemon.record)
    {
      backoff.Open(emit.now);
      r := emit.Ask();
    }

    /** The open came to nothing: another is due after this attempt's wait. */
    method Retry(error: TransportError)
      requires EmitInv() && Asking()
      requires emit.daemon.record.refused == Some(error)
               || (emit.daemon.record.refused.None? && error == BackendUnavailable)
      modifies this`lastOpenError, backoff
      ensures AtHead() && lastOpenError == Some(error)
      ensures backoff.pace == old(backoff.pace).(scheduled := old(backoff.pace).scheduled + 1, seen := emit.now)
    {
      lastOpenError := Some(error);
      backoff.Schedule(emit.now, Opening);
    }

    /** The open came to its end: `s`, which took up the joins, is the session. */
    method Keep(s: Session)
      requires emit.Ready() && s.epoch == emit.epoch && s.daemon == emit.daemon && Asking()
      requires emit.daemon.record.refused.None?
      requires s.Valid() && (s.alive ==> Agree(Account(), s.held)) && Consistent(Account())
      modifies this`session, this`lastOpenError, backoff
      ensures AtHead() && session == s && lastOpenError.None?
      ensures backoff.pace == old(backoff.pace).(seen := emit.now) && backoff.openedAt == emit.now
    {
      session := s;
      lastOpenError := None;
      backoff.Opened(emit.now);
    }

    /** The fresh claim of an open: the session it gave, or none and a wait
        scheduled. */
    method Claim() returns (s: Session?)
      requires AtHead() && session == null && backoff.reconnectAt <= emit.now
      modifies this`lastOpenError, emit, emit.pull, emit.daemon, backoff
      ensures old(emit.now) <= emit.now
      ensures s == null ==> AtHead() && lastOpenError.Some? && lastOpenError == emit.daemon.record.refused
      ensures s != null ==> fresh(s) && s.Valid() && s.held == {}
      ensures s != null ==> s.epoch == emit.epoch && s.daemon == emit.daemon
      ensures s != null ==> emit.Ready() && Asking() && emit.daemon.record.refused.None?
      ensures emit.daemon.record.asked == old(emit.daemon.record.asked) + [old(emit.now)]
      ensures emit.daemon.record.calls == old(emit.daemon.record.calls)
      ensures SameRefusals(old(emit.daemon.record), emit.daemon.record)
      ensures backoff.pace == PaceOpened(old(backoff.pace), old(emit.now), backoff.pace.seen, s != null)
      ensures s == null ==> backoff.pace.seen == emit.now
    {
      var r := Ask();
      if r.Err? {
        Retry(r.error);
        return null;
      }
      s := r.value;
      var eventQueue: nat :| true;
      var granted: Option<string> := *;
      emit.SessionOpened(s, eventQueue, granted, old(emit.daemon.record.earlier));
    }

    /** `s` is kept, unless it ended while it took up the joins. */
    method Conclude(s: Session, died: bool)
      requires emit.Ready() && s.epoch == emit.epoch && s.daemon == emit.daemon && Asking()
      requires emit.daemon.record.refused.None? && s.Valid()
      requires !died ==> (s.alive ==> Agree(Account(), s.held)) && Consistent(Account())
      modifies this`session, this`lastOpenError, emit`lease, backoff
      ensures AtHead() && session == (if died then null else s)
      ensures lastOpenError == if died then Some(BackendUnavailable) else None
      ensures !died ==> backoff.openedAt == emit.now
      ensures backoff.pace == old(backoff.pace).(
                scheduled := old(backoff.pace).scheduled + (if died then 1 else 0), seen := emit.now)
    {
      if died {
        emit.lease := None;
        Retry(BackendUnavailable);
      } else {
        Keep(s);
      }
    }

    /** The joins taken again on `s`, and `s` kept unless it ended under
        them: then it is a reconnect, the joins kept. */
    method Settle(s: Session)
      requires s.Valid() && s.held == {} && s.epoch == emit.epoch && s.daemon == emit.daemon
      requires emit.Ready() && Asking() && emit.daemon.record.refused.None?
      modifies this, s, emit.daemon`record, emit`lease, emit`now, emit.pull, emit.host`said, backoff
      ensures AtHead() && (session == null || session == s)
      ensures old(emit.now) <= emit.now
      ensures Faithful(old(Account()), Account(), old(emit.daemon.record), emit.daemon.record, {})
      ensures session != null ==> TakenUp(old(Account()), Account(), old(emit.daemon.record), emit.daemon.record)
      ensures Added(old(emit.daemon.record.calls), emit.daemon.record.calls, Rejoins(old(Account().Intent())))
      ensures SameOpens(old(emit.daemon.record), emit.daemon.record)
      ensures lastOpenError == if session != null then None else Some(BackendUnavailable)
      ensures session != null ==> backoff.openedAt == emit.now && (|pending| == 0 || emit.Paused())
      ensures backoff.pace == old(backoff.pace).(
                scheduled := old(backoff.pace).scheduled + (if session != null then 0 else 1), seen := emit.now)
    {
      var died := TakeUp(s);
      Conclude(s, died);
    }

    /** Open a session: a fresh claim, then the bridge's joins taken again. */
    method Open()
      requires AtHead() && session == null && backoff.reconnectAt <= emit.now
      modifies this, emit, emit.pull, emit.host`said, emit.daemon, backoff
      ensures AtHead()
      ensures session != null ==> fresh(session)
      ensures old(emit.now) <= emit.now
      ensures Faithful(old(Account()), Account(), old(emit.daemon.record), emit.daemon.record, {})
      ensures session != null ==> TakenUp(old(Account()), Account(), old(emit.daemon.record), emit.daemon.record)
      ensures Added(old(emit.daemon.record.calls), emit.daemon.record.calls, Rejoins(old(Account().Intent())))
      ensures emit.daemon.record.asked == old(emit.daemon.record.asked) + [old(emit.now)]
      ensures session != null <==> lastOpenError.None?
      ensures session != null ==> backoff.openedAt == emit.now && (|pending| == 0 || emit.Paused())
      ensures backoff.pace == PaceOpened(old(backoff.pace), old(emit.now), emit.now, session != null)
    {
      ghost var was, record := Account(), emit.daemon.record;
      var s := Claim();
      FaithfulNothing(was, record, emit.daemon.record);
      AddedNothing(record.calls, Rejoins(was.Intent()));
      if s != null {
        ghost var claimed := emit.daemon.record;
        Settle(s);
        OpenedSince(was, Account(), record, claimed, emit.daemon.record, session != null);
      }
    }

    /** Take what waits, or learn that the session ended. */
    method Pump()
      requires AtHead() && session != null && !emit.Paused()
      modifies this`session, session, emit.daemon`record, emit`lease, emit.pull, emit.host`said, backoff
      ensures AtHead() && Account() == old(Account())
      ensures session == null || session == old(session)
      ensures session == null ==> !old(session).alive
      ensures backoff.pace == if session != null then old(backoff.pace)
                              else PaceAfter(old(backoff.pace), backoff.openedAt, emit.now)
      ensures backoff.openedAt == old(backoff.openedAt)
      ensures emit.daemon.record ==
              old(emit.daemon.record).(
                given := emit.daemon.record.given, polled := old(emit.daemon.record).polled + 1,
                ends := old(emit.daemon.record).ends + if session == null then 1 else 0)
    {
      var more := emit.TakeWaiting(session);
      if !more {
        Lost();
      }
    }

    // ---------------------------------------------------------------
    // The host's calls

    /** `call` on the session, driven to its answer or cancelled. */
    method Driven(call: Call) returns (answer: Option<Answer>)
      requires EmitInv() && session != null && session.Valid()
      modifies session, emit.daemon`record, emit`lease, emit`now, emit.pull, emit.host`said
      ensures EmitInv() && session.Valid() && Kept(old(emit.now), old(emit.daemon.record))
      ensures session.alive ==> old(session.alive) && Outcome(call, answer, old(session.held), session.held)
      ensures answer.None? ==> emit.Paused()
      ensures AddedOne(old(emit.daemon.record.calls), emit.daemon.record.calls, call)
      ensures Last(emit.daemon.record.calls).answer == answer
      ensures Recorded(old(emit.daemon.record), emit.daemon.record, call, answer, session.alive)
    {
      answer := emit.Drive(session, call);
    }

    /** The same, asking of a refusal whether the session ended with it. */
    method Tried(call: Call) returns (answer: Option<Answer>, ended: bool)
      requires EmitInv() && session != null && session.Valid()
      modifies session, emit.daemon`record, emit`lease, emit`now, emit.pull, emit.host`said
      ensures EmitInv() && session.Valid() && Kept(old(emit.now), old(emit.daemon.record))
      ensures session.alive ==> old(session.alive) && Outcome(call, answer, old(session.held), session.held)
      ensures answer.None? ==> emit.Paused()
      ensures ended <==> answer.Some? && answer.value.Refused? && !session.alive
      ensures AddedOne(old(emit.daemon.record.calls), emit.daemon.record.calls, call)
      ensures Last(emit.daemon.record.calls).answer == answer
      ensures Recorded(old(emit.daemon.record), emit.daemon.record, call, answer, session.alive)
    {
      answer := Driven(call);
      ended := false;
      if answer.Some? && answer.value.Refused? {
        ended := Ended(session);
      }
    }

    /** `join` on a session with no outcome unknown. */
    method RunJoin(c: ChannelId) returns (r: Reported)
      requires Sound() && session != null && |pending| == 0
      modifies session, emit.daemon`record, emit`lease, emit`now, emit.pull, emit.host`said
      modifies this`joined, this`rejoinRefused, this`pending
      ensures Kept(old(emit.now), old(emit.daemon.record))
      ensures Sound() && OnlyChanged(old(Account()), Account(), c)
      ensures Grew(old(emit.daemon.record), emit.daemon.record)
      ensures AddedOne(old(emit.daemon.record.calls), emit.daemon.record.calls, Join(c))
      ensures r == Report(Last(emit.daemon.record.calls).answer)
      ensures r == QueueFullCancelled ==>
                emit.Paused() && Account().Of(c) == old(Account()).Of(c).(pending := Some(PendingJoin))
      ensures r == Text ==> Account().Of(c) == Row(true, None, false)
      ensures r.Failed? ==> Account().Of(c) == old(Account()).Of(c).(refused := false)
      ensures r == Text || r.Failed? || r == QueueFullCancelled
    {
      ghost var was, held := Account(), session.held;
      assert ConsistentAt(was, c) && (session.alive ==> AgreesAt(was, held, c));
      var answer := Driven(Join(c));
      r := NoteJoin(c, answer);
      RowStep(was, Account(), held, session.held, c, session.alive);
    }

    /** `leave` on a session with no outcome unknown. A session still up that
        refused it still holds the join, so the bridge keeps it; a session
        that ended took the join with it. */
    method RunLeave(c: ChannelId) returns (r: Reported)
      requires Sound() && session != null && |pending| == 0
      modifies session, emit.daemon`record, emit`lease, emit`now, emit.pull, emit.host`said
      modifies this`joined, this`rejoinRefused, this`pending
      ensures Kept(old(emit.now), old(emit.daemon.record))
      ensures Sound() && OnlyChanged(old(Account()), Account(), c)
      ensures Grew(old(emit.daemon.record), emit.daemon.record)
      ensures AddedOne(old(emit.daemon.record.calls), emit.daemon.record.calls, Leave(c))
      ensures r == Report(Last(emit.daemon.record.calls).answer) || (r == Text && !session.alive)
      ensures r == QueueFullCancelled ==>
                emit.Paused() && Account().Of(c) == old(Account()).Of(c).(pending := Some(PendingLeave))
      ensures r == Text ==> Account().Of(c) == Row(false, None, false)
      ensures r.Failed? ==> Account().Of(c) == old(Account()).Of(c)
      ensures r.Failed? ==> LeaveRefused(old(emit.daemon.record), emit.daemon.record, c)
      ensures r == Text || r.Failed? || r == QueueFullCancelled
    {
      ghost var was, held := Account(), session.held;
      assert ConsistentAt(was, c) && (session.alive ==> AgreesAt(was, held, c));
      var answer, ended := Tried(Leave(c));
      r := NoteLeave(c, answer, ended);
      RowStep(was, Account(), held, session.held, c, session.alive);
    }

    /** A call that changes no membership. */
    method RunOther(call: Call) returns (r: Reported)
      requires Sound() && session != null && (call.SendDirect? || call.Broadcast?)
      modifies session, emit.daemon`record, emit`lease, emit`now, emit.pull, emit.host`said
      ensures Kept(old(emit.now), old(emit.daemon.record))
      ensures Sound() && Account() == old(Account())
      ensures Grew(old(emit.daemon.record), emit.daemon.record)
      ensures AddedOne(old(emit.daemon.record.calls), emit.daemon.record.calls, call)
      ensures r == Report(Last(emit.daemon.record.calls).answer)
      ensures r == QueueFullCancelled ==> emit.Paused()
    {
      var answer := Driven(call);
      r := if answer.None? then QueueFullCancelled
           else if answer.value.Taken? then Text
           else Failed(answer.value.error);
    }

    /** Why there is no session to call. */
    function Absent(): TransportError
      reads this
    {
      if lastOpenError.Some? && EndpointRefusal(lastOpenError.value) then lastOpenError.value
      else BackendUnavailable
    }

    /** Without a session a leave is taken at once; nothing else can be. */
    method RunAbsent(call: ToolCall) returns (r: Reported)
      requires Sound() && session == null
      modifies this`joined, this`rejoinRefused, this`pending
      ensures Sound()
      ensures if call.LeaveChannel?
              then r == Text && OnlyChanged(old(Account()), Account(), call.channel)
                   && Account().Of(call.channel) == Row(false, None, false)
              else r == Failed(Absent()) && Account() == old(Account())
    {
      if call.LeaveChannel? {
        Left(call.channel);
        return Text;
      }
      return Failed(Absent());
    }

    /** Where a reply goes: the exact route its token was minted for, while
        the lease it names is held or its channel joined. */
    function Routed(call: ToolCall): Result<ToolCall, TransportError>
      reads this, emit
    {
      if !call.Reply? then Ok(call)
      else if call.route.None? then Err(InvalidArgument)
      else match call.route.value
        case DirectRoute(epoch, peer) =>
          if emit.lease.Some? && emit.lease.value.epoch == epoch then Ok(Send(peer, call.payload))
          else Err(InvalidArgument)
        case BroadcastRoute(c) =>
          if c in joined then Ok(Publish(c, call.payload)) else Err(ChannelNotJoined)
    }

    /** A direct message taken before the current session opened, or while
        there is none, is never replied to on its token: the lease it arrived
        under is not the one held. */
    lemma EarlierDirectTokenIsStale(i: nat, peer: string, payload: nat)
      requires AtHead() && i < |emit.Backlog()| && emit.Backlog()[i].lease.Some?
      requires session == null || i < emit.daemon.record.earlier
      ensures var route := DirectRoute(emit.Backlog()[i].lease.value.epoch, peer);
              Routed(Reply(Some(route), payload)) == Err(InvalidArgument)
    {
      assert DatedAt(emit.Backlog(), emit.daemon.record.earlier, emit.epoch, i);
    }

    // ---------------------------------------------------------------
    // Outcomes unknown

    /** One pending join or leave re-issued. */
    method Reissue(c: ChannelId) returns (cancelled: bool, ended: bool)
      requires Sound() && session != null && c in pending
      modifies session, emit.daemon`record, emit`lease, emit`now, emit.pull, emit.host`said
      modifies this`joined, this`rejoinRefused, this`pending
      ensures Kept(old(emit.now), old(emit.daemon.record))
      ensures Sound()
      ensures Grew(old(emit.daemon.record), emit.daemon.record)
      ensures AddedOne(old(emit.daemon.record.calls), emit.daemon.record.calls,
                       if old(pending)[c] == PendingJoin then Join(c) else Leave(c))
      ensures cancelled ==> emit.Paused()
      ensures ended ==> !session.alive
      ensures cancelled || ended ==> Account() == old(Account())
      ensures !cancelled && !ended ==>
                && pending == old(pending) - {c}
                && OnlyChanged(old(Account()), Account(), c)
                && RowResolved(old(Account()).Of(c), Account().Of(c),
                               JoinRefused(old(emit.daemon.record), emit.daemon.record, c),
                               LeaveRefused(old(emit.daemon.record), emit.daemon.record, c))
    {
      ghost var was, held := Account(), session.held;
      assert ConsistentAt(was, c) && (session.alive ==> AgreesAt(was, held, c));
      var op := pending[c];
      var answer;
      answer, ended := Tried(if op == PendingJoin then Join(c) else Leave(c));
      cancelled := answer.None?;
      NoteReissue(c, answer, ended, old(emit.daemon.record));
      RowStep(was, Account(), held, session.held, c, session.alive);
    }

    /** What a re-issued call's answer makes of its row: nothing while it is not
        known, or the session ended with it. */
    method NoteReissue(c: ChannelId, answer: Option<Answer>, ended: bool, ghost before: Record)
      requires session != null && c in pending
      requires answer.Some? && answer.value.Refused? && !ended ==>
                 && session.alive
                 && (pending[c] == PendingJoin ==> JoinRefused(before, session.daemon.record, c))
                 && (pending[c] == PendingLeave ==> LeaveRefused(before, session.daemon.record, c))
      modifies this`joined, this`rejoinRefused, this`pending
      ensures OnlyChanged(old(Account()), Account(), c)
      ensures if answer.None? || ended then Account() == old(Account())
              else pending == old(pending) - {c} && Account().Of(c) == ResolvedRow(old(Account()).Of(c), answer.value)
    {
      if answer.Some? && !ended {
        Resolved(c, answer.value, before);
      }
    }

    /** A pending outcome's answer, from a session that did not end with it. */
    method Resolved(c: ChannelId, answer: Answer, ghost before: Record)
      requires session != null && c in pending
      requires answer.Refused? ==> session.alive
      requires answer.Refused? && pending[c] == PendingJoin ==> JoinRefused(before, session.daemon.record, c)
      requires answer.Refused? && pending[c] == PendingLeave ==> LeaveRefused(before, session.daemon.record, c)
      modifies this`joined, this`rejoinRefused, this`pending
      ensures pending == old(pending) - {c} && OnlyChanged(old(Account()), Account(), c)
      ensures Account().Of(c) == ResolvedRow(old(Account()).Of(c), answer)
    {
      if pending[c] == PendingJoin && answer.Taken? {
        Joined(c);
      } else if pending[c] == PendingJoin {
        Refuse(session, c, answer.error, before);
      } else if answer.Taken? {
        Left(c);
      } else {
        Known(c);
      }
    }

    /** Re-issue each pending join and leave until one is cancelled again or
        the session ends. True when it ended. Whatever happens, the reason
        the loop came here is gone: nothing is pending, the queue is full
        again, or there is no session to ask. */
    method ResolvePending() returns (ended: bool)
      requires Sound() && session != null
      modifies session, emit.daemon`record, emit`lease, emit`now, emit.pull, emit.host`said
      modifies this`joined, this`rejoinRefused, this`pending
      ensures Kept(old(emit.now), old(emit.daemon.record))
      ensures Sound()
      ensures Resolving(old(Account()), Account(), old(emit.daemon.record), emit.daemon.record)
      ensures Added(old(emit.daemon.record.calls), emit.daemon.record.calls, Reissues(old(pending)))
      ensures ended ==> !session.alive
      ensures !ended ==> |pending| == 0 || emit.Paused()
    {
      ghost var was, record := Account(), emit.daemon.record;
      ResolvingStarts(was, record);
      AddedNothing(record.calls, Reissues(was.pending));
      while |pending| != 0
        invariant Kept(old(emit.now), record)
        invariant Sound() && Resolving(was, Account(), record, emit.daemon.record)
        invariant Added(record.calls, emit.daemon.record.calls, Reissues(was.pending))
        invariant Reissues(pending) <= Reissues(was.pending)
        decreases |pending|
      {
        var c :| c in pending;
        ghost var before, mid := Account(), emit.daemon.record;
        var cancelled;
        ghost var call := if pending[c] == PendingJoin then Join(c) else Leave(c);
        cancelled, ended := Reissue(c);
        AddedNext(record.calls, mid.calls, emit.daemon.record.calls, Reissues(was.pending), call);
        if cancelled {
          ResolvingStops(was, before, record, mid, emit.daemon.record);
          return false;
        }
        if ended {
          ResolvingStops(was, before, record, mid, emit.daemon.record);
          return true;
        }
        ResolvingStep(was, before, Account(), record, mid, emit.daemon.record, c);
      }
      ended := false;
    }

    // ---------------------------------------------------------------
    // The loop

    /** The loop's first question: outcomes are unknown and can be asked. */
    predicate Owed()
      requires |emit.pull.items| <= emit.pull.bound
      reads this, emit, emit.pull
    {
      session != null && !emit.Paused() && |pending| != 0
    }

    /** A call that needs a session, on the one there is. */
    method RunBound(call: ToolCall) returns (r: Reported)
      requires Sound() && session != null && |pending| == 0 && SessionBound(call) && !call.Reply?
      modifies session, emit.daemon`record, emit`lease, emit`now, emit.pull, emit.host`said
      modifies this`joined, this`rejoinRefused, this`pending
      ensures Kept(old(emit.now), old(emit.daemon.record))
      ensures Sound()
      ensures Faithful(old(Account()), Account(), old(emit.daemon.record), emit.daemon.record, Named(call))
      ensures AddedOne(old(emit.daemon.record.calls), emit.daemon.record.calls, Asks(call))
      ensures IsSend(Asks(call)) ==> r == Report(Last(emit.daemon.record.calls).answer)
      ensures Told(call, r, old(Account()), Account()) && (r == QueueFullCancelled ==> emit.Paused())
      ensures r == Text || r.Failed? || r == QueueFullCancelled
    {
      ghost var was, record := Account(), emit.daemon.record;
      if call.JoinChannel? {
        r := RunJoin(call.channel);
        OnlyChangedIsFaithful(was, Account(), record, emit.daemon.record, call.channel);
      } else if call.LeaveChannel? {
        r := RunLeave(call.channel);
        OnlyChangedIsFaithful(was, Account(), record, emit.daemon.record, call.channel);
      } else {
        r := RunOther(if call.Publish? then Broadcast(call.to, call.payload) else SendDirect(call.peer, call.payload));
        FaithfulNothing(was, record, emit.daemon.record);
      }
    }

    /** A call that needs a session, whether or not there is one. */
    method Run(call: ToolCall) returns (r: Reported)
      requires Sound() && (session != null ==> |pending| == 0) && SessionBound(call) && !call.Reply?
      modifies session, emit.daemon`record, emit`lease, emit`now, emit.pull, emit.host`said
      modifies this`joined, this`rejoinRefused, this`pending
      ensures Kept(old(emit.now), old(emit.daemon.record))
      ensures Sound()
      ensures Faithful(old(Account()), Account(), old(emit.daemon.record), emit.daemon.record, Named(call))
      ensures if session != null then AddedOne(old(emit.daemon.record.calls), emit.daemon.record.calls, Asks(call))
              else emit.daemon.record.calls == old(emit.daemon.record.calls)
      ensures session != null && IsSend(Asks(call)) ==> r == Report(Last(emit.daemon.record.calls).answer)
      ensures session == null ==> r == if call.LeaveChannel? then Text else Failed(Absent())
      ensures Told(call, r, old(Account()), Account()) && (r == QueueFullCancelled ==> emit.Paused())
      ensures r == Text || r.Failed? || r == QueueFullCancelled
    {
      if session != null {
        r := RunBound(call);
      } else {
        r := RunAbsent(call);
        if call.LeaveChannel? {
          OnlyChangedIsFaithful(old(Account()), Account(), emit.daemon.record, emit.daemon.record, call.channel);
        } else {
          FaithfulNothing(Account(), emit.daemon.record, emit.daemon.record);
        }
      }
    }

    /** With or without a session: what was taken before the daemon went away
        is still the host's. */
    method RunReceive(max: Option<nat>) returns (r: Reported)
      requires Sound()
      modifies emit.host`received, emit.host`told, emit.pull
      ensures Sound() && emit.host.told == old(emit.host.told) + [r]
      ensures r.Items? && old(emit.host.received) <= emit.host.received
      ensures r.items == Delivered(emit.host.received[|old(emit.host.received)|..])
    {
      r := emit.Receive(max);
    }

    /** The answer to a call that is no `receive`. */
    method Perform(call: ToolCall) returns (r: Reported)
      requires Sound() && !Owed() && !call.Receive?
      modifies session, emit`lease, emit`now, emit.pull, emit.host`said, emit.daemon`record
      modifies this`joined, this`rejoinRefused, this`pending
      ensures Kept(old(emit.now), old(emit.daemon.record))
      ensures Sound()
      ensures Faithful(old(Account()), Account(), old(emit.daemon.record), emit.daemon.record, Named(call))
      ensures Acted(call, session != null, old(emit.Paused()), old(emit.lease), old(joined), Absent(), r,
                    old(emit.daemon.record.calls), emit.daemon.record.calls)
      ensures r == QueueFull ==> Account() == old(Account())
      ensures !r.Items? && Told(call, r, old(Account()), Account()) && (r == QueueFullCancelled ==> emit.Paused())
    {
      FaithfulNothing(Account(), emit.daemon.record, emit.daemon.record);
      if !SessionBound(call) {
        return Text;
      }
      if emit.Paused() {
        return QueueFull;
      }
      var routed := Routed(call);
      if routed.Err? {
        return Failed(routed.error);
      }
      r := Run(routed.value);
    }

    /** One call from the host. While any outcome is unknown no call of it
        reaches the daemon; while the queue is full a call that needs the
        session is refused at once; and one that goes, goes once, as it is. */
    method HostCall(call: ToolCall) returns (r: Reported)
      requires Sound() && !Owed()
      modifies session, emit`lease, emit`now, emit.pull, emit.daemon`record
      modifies emit.host`told, emit.host`received, emit.host`said
      modifies this`joined, this`rejoinRefused, this`pending
      ensures Kept(old(emit.now), old(emit.daemon.record))
      ensures Sound() && emit.host.told == old(emit.host.told) + [r]
      ensures Faithful(old(Account()), Account(), old(emit.daemon.record), emit.daemon.record, Named(call))
      ensures Acted(call, session != null, old(emit.Paused()), old(emit.lease), old(joined), Absent(), r,
                    old(emit.daemon.record.calls), emit.daemon.record.calls)
      ensures r == QueueFull ==> Account() == old(Account())
      ensures call.Receive? <==> r.Items?
      ensures old(emit.host.received) <= emit.host.received
      ensures if r.Items? then r.items == Delivered(emit.host.received[|old(emit.host.received)|..])
              else emit.host.received == old(emit.host.received)
      ensures Told(call, r, old(Account()), Account()) && (r == QueueFullCancelled ==> emit.Paused())
    {
      if call.Receive? {
        r := RunReceive(call.max);
        FaithfulNothing(Account(), emit.daemon.record, emit.daemon.record);
      } else {
        r := Perform(call);
        emit.host.Tell(r);
      }
    }

    /** Unknown outcomes are asked before anything else, and never twice in
        a row: afterwards the loop owes nothing. */
    method Resolve()
      requires AtHead() && Owed()
      modifies this, session, emit, emit.pull, emit.host`said, emit.daemon`record, backoff
      ensures AtHead() && !Owed()
      ensures session == null || session == old(session)
      ensures session == null ==> !old(session).alive
      ensures Faithful(old(Account()), Account(), old(emit.daemon.record), emit.daemon.record, {})
      ensures Added(old(emit.daemon.record.calls), emit.daemon.record.calls, Reissues(old(pending)))
      ensures SameOpens(old(emit.daemon.record), emit.daemon.record)
      ensures backoff.pace == if session != null then old(backoff.pace)
                              else PaceAfter(old(backoff.pace), backoff.openedAt, emit.now)
      ensures backoff.openedAt == old(backoff.openedAt)
    {
      ghost var was, record := Account(), emit.daemon.record;
      var ended := ResolvePending();
      ResolvingIsFaithful(was, Account(), record, emit.daemon.record);
      if ended {
        Lost();
      }
    }

    /** The session's wake: what waits is taken, or the session is found to
        have ended. */
    method Woken()
      requires AtHead() && session != null && !emit.Paused()
      modifies this`session, session, emit.daemon`record, emit`lease, emit.pull, emit.host`said, backoff
      ensures AtHead() && Account() == old(Account())
      ensures session == null || session == old(session)
      ensures backoff.pace == if session != null then old(backoff.pace)
                              else PaceAfter(old(backoff.pace), backoff.openedAt, emit.now)
      ensures backoff.openedAt == old(backoff.openedAt)
      ensures session == null ==> !old(session).alive
      ensures emit.daemon.record ==
              old(emit.daemon.record).(
                given := emit.daemon.record.given, polled := emit.daemon.record.polled,
                ends := old(emit.daemon.record).ends + if session == null then 1 else 0)
      ensures session == null || emit.daemon.record.polled == old(emit.daemon.record.polled) + 1
    {
      var ok := session.Ready();
      if ok {
        Pump();
      } else {
        Lost();
      }
    }

    /** What the loop may ask of a session of itself: to re-issue what is
        pending, and on a new one to take up the intent. */
    ghost function Unasked(): set<Call>
      requires |emit.pull.items| <= emit.pull.bound
      reads this, emit, emit.pull
    {
      if Owed() then Reissues(pending) else if session == null then Rejoins(Account().Intent()) else {}
    }

    /** The host's next call, answered. */
    method Exchange() returns (ghost call: ToolCall, ghost r: Reported)
      requires Sound() && CallInv() && !Owed()
      modifies session, emit`lease, emit`now, emit.pull, emit.host, emit.daemon`record
      modifies this`joined, this`rejoinRefused, this`pending
      ensures Sound() && CallInv()
      ensures emit.host.asked == old(emit.host.asked) + [call] && emit.host.told == old(emit.host.told) + [r]
      ensures Told(call, r, old(Account()), Account())
      ensures Kept(old(emit.now), old(emit.daemon.record))
      ensures Faithful(old(Account()), Account(), old(emit.daemon.record), emit.daemon.record, Named(call))
      ensures Acted(call, session != null, old(emit.Paused()), old(emit.lease), old(joined), Absent(), r,
                    old(emit.daemon.record.calls), emit.daemon.record.calls)
    {
      var next := emit.host.Next();
      var answer := HostCall(next);
      call, r := next, answer;
      ActedKeepsTheBooks(
        old(Account()), Account(), old(emit.daemon.record), emit.daemon.record, old(emit.host.asked),
        old(emit.host.told), call, r, session != null, old(emit.Paused()), old(emit.lease), old(joined), Absent());
    }

    /** What the loop does of itself: what is unknown is asked first, then what
        waits is taken, and without a session one is asked for when due. */
    method OwnArm()
      requires AtHead()
      modifies this, session, emit, emit.pull, emit.host`said, emit.daemon, backoff
      ensures AtHead()
      ensures session == null || session == old(session) || fresh(session)
      ensures !Owed()
      ensures Faithful(old(Account()), Account(), old(emit.daemon.record), emit.daemon.record, {})
      ensures Added(old(emit.daemon.record.calls), emit.daemon.record.calls, old(Unasked()))
      ensures PaceMoved(old(session) != null, session != null, old(backoff.pace), backoff.pace,
                        old(backoff.openedAt), backoff.openedAt,
                        old(emit.daemon.record.asked), emit.daemon.record.asked, emit.now)
      ensures !old(Owed()) && old(session) == null && old(backoff.reconnectAt) <= old(emit.now) ==>
                emit.daemon.record.asked == old(emit.daemon.record.asked) + [old(emit.now)]
      ensures old(session) != null && session == null ==> !old(session).alive
      ensures !old(Owed()) && old(session) != null && !old(emit.Paused()) ==>
                && (session == null <==> emit.daemon.record.ends > old(emit.daemon.record.ends))
                && (session != null ==> emit.daemon.record.polled == old(emit.daemon.record.polled) + 1)
    {
      AddedNothing(emit.daemon.record.calls, Unasked());
      FaithfulNothing(Account(), emit.daemon.record, emit.daemon.record);
      if Owed() {
        Resolve();
      } else if session != null && !emit.Paused() {
        Woken();
        FaithfulNothing(Account(), old(emit.daemon.record), emit.daemon.record);
      } else if session == null && backoff.reconnectAt <= emit.now {
        Open();
      }
    }

    /** What the loop asks of itself keeps the host's books. */
    twostate lemma OwnCallsAreMeant()
      requires |old(emit.pull.items)| <= old(emit.pull.bound)
      requires old(CallInv())
      requires emit.host.asked == old(emit.host.asked) && emit.host.told == old(emit.host.told)
      requires Faithful(old(Account()), Account(), old(emit.daemon.record), emit.daemon.record, {})
      requires Added(old(emit.daemon.record.calls), emit.daemon.record.calls, old(Unasked()))
      ensures CallInv()
    {
      NoSendsAdded(old(emit.daemon.record.calls), emit.daemon.record.calls, old(Unasked()));
      MeantOwn(old(Account()), Account(), old(emit.daemon.record), emit.daemon.record,
               NamedIn(emit.host.asked), old(Unasked()));
    }

    /** What a turn does: while outcomes are unknown it asks them, and the host
        is not heard; a call of the host's that goes, goes once, as it is, and
        the host is told what came of it; and the loop asks no more of itself
        than what is pending or, on a new session, wanted. */
    twostate predicate Stepped()
      requires old(Sound())
      reads this, emit, emit.host, emit.daemon, backoff
    {
      && (old(Owed()) ==> emit.host.asked == old(emit.host.asked))
      && FaithfulSince(old(Account()), Account(), old(emit.daemon.record), emit.daemon.record,
                       old(emit.host.asked), emit.host.asked)
      && (if emit.host.asked == old(emit.host.asked)
          then emit.host.told == old(emit.host.told) && emit.host.received == old(emit.host.received)
               && Added(old(emit.daemon.record.calls), emit.daemon.record.calls, old(Unasked()))
          else Heard(emit.host.asked, emit.host.told))
      && (emit.host.asked == old(emit.host.asked) && !old(Owed()) ==>
            && (old(session) == null && old(backoff.reconnectAt) <= old(emit.now) ==>
                  emit.daemon.record.asked == old(emit.daemon.record.asked) + [old(emit.now)])
            && (old(session) != null && !old(emit.Paused()) ==>
                  && (session == null <==> emit.daemon.record.ends > old(emit.daemon.record.ends))
                  && (session != null ==> emit.daemon.record.polled == old(emit.daemon.record.polled) + 1)))
      && PaceMoved(old(session) != null, session != null, old(backoff.pace), backoff.pace,
                   old(backoff.openedAt), backoff.openedAt,
                   old(emit.daemon.record.asked), emit.daemon.record.asked, emit.now)
    }

    /** The last of the host's calls and what it was told of it. */
    twostate predicate Heard(asked: seq<ToolCall>, told: seq<Reported>)
      requires old(Sound())
      reads this, emit, emit.daemon
    {
      && |asked| == |old(emit.host.asked)| + 1 && |told| == |asked|
      && Told(asked[|asked| - 1], told[|told| - 1], old(Account()), Account())
      && Acted(asked[|asked| - 1], old(session) != null, old(emit.Paused()), old(emit.lease), old(joined), Absent(),
               told[|told| - 1], old(emit.daemon.record.calls), emit.daemon.record.calls)
    }

    /** The host's turn. */
    method HostTurn()
      requires AtHead() && CallInv() && !Owed()
      modifies session, emit`lease, emit`now, emit.pull, emit.host, emit.daemon`record
      modifies this`joined, this`rejoinRefused, this`pending
      ensures AtHead() && CallInv() && Stepped() && |emit.host.asked| == |old(emit.host.asked)| + 1
    {
      ghost var call, r;
      call, r := Exchange();
      FaithfulCall(old(Account()), Account(), old(emit.daemon.record), emit.daemon.record,
                   old(emit.host.asked), call);
    }

    /** The loop's own turn. */
    method OwnTurn()
      requires AtHead() && CallInv()
      modifies this, session, emit, emit.pull, emit.host`said, emit.daemon, backoff
      ensures AtHead() && CallInv() && Stepped() && !Owed() && emit.host.asked == old(emit.host.asked)
      ensures old(session) != null && session == null ==> !old(session).alive
      ensures session == null || session == old(session) || fresh(session)
    {
      OwnArm();
      OwnCallsAreMeant();
      FaithfulUnasked(old(Account()), Account(), old(emit.daemon.record), emit.daemon.record, emit.host.asked);
    }

    /** One turn of the loop: the host's if a line of it is what is ready (`hosts`)
        and no outcome is unknown, else the loop's own, after which none is. */
    method Turn(hosts: bool)
      requires AtHead() && CallInv()
      modifies this, session, emit, emit.pull, emit.host, emit.daemon, backoff
      ensures AtHead() && CallInv() && Stepped()
      ensures if hosts && !old(Owed()) then |emit.host.asked| == |old(emit.host.asked)| + 1
              else !Owed() && emit.host.asked == old(emit.host.asked)
      ensures old(session) != null && session == null ==> !old(session).alive
      ensures session == null || session == old(session) || fresh(session)
    {
      if hosts && !Owed() {
        HostTurn();
      } else {
        OwnTurn();
      }
    }

    /** A turn, as far as a run of them is concerned. */
    method Round(hosts: bool)
      requires AtHead() && CallInv()
      modifies this, session, emit, emit.pull, emit.host, emit.daemon, backoff
      ensures AtHead() && CallInv()
      ensures if hosts && !old(Owed()) then |emit.host.asked| == |old(emit.host.asked)| + 1
              else !Owed() && emit.host.asked == old(emit.host.asked)
      ensures FaithfulSince(old(Account()), Account(), old(emit.daemon.record), emit.daemon.record,
                            old(emit.host.asked), emit.host.asked)
      ensures session == null || session == old(session) || fresh(session)
    {
      Turn(hosts);
    }

    /** Time passes before the next turn. */
    method Later()
      requires AtHead() && CallInv()
      modifies emit`now
      ensures AtHead() && CallInv() && old(emit.now) <= emit.now
    {
      emit.Elapse();
    }

    /** Any run of the loop, from its start and with any time between its
        turns. At its head, whatever the host called and whatever the daemon
        did: the bridge's joins are the daemon's, nothing the daemon gave was
        lost, repeated or reordered, the daemon was asked for sessions at the
        backoff's pace, the sends it saw are the host's, and what the host
        wanted of a channel it did not name since still stands; of every
        channel, if it made no call. Of the turns at which a line of the host
        was `ready` at least every other heard one. */
    method Serve(ready: seq<bool>)
      requires AtHead() && CallInv()
      modifies this, session, emit, emit.pull, emit.host, emit.daemon, backoff
      ensures AtHead() && CallInv()
      ensures FaithfulSince(old(Account()), Account(), old(emit.daemon.record), emit.daemon.record,
                            old(emit.host.asked), emit.host.asked)
      ensures emit.host.asked == old(emit.host.asked) ==>
                Faithful(old(Account()), Account(), old(emit.daemon.record), emit.daemon.record, {})
      ensures 2 * (|emit.host.asked| - |old(emit.host.asked)|) + 1 >= Times(ready, |ready|)
    {
      ghost var was, record, host := Account(), emit.daemon.record, emit.host.asked;
      FaithfulNothing(was, record, record);
      FaithfulUnasked(was, was, record, record, host);
      for turn := 0 to |ready|
        invariant AtHead() && CallInv()
        invariant session == null || session == old(session) || fresh(session)
        invariant FaithfulSince(was, Account(), record, emit.daemon.record, host, emit.host.asked)
        invariant Times(ready, turn) <= 2 * (|emit.host.asked| - |host|) + if Owed() then 0 else 1
      {
        ghost var before, mid, asked := Account(), emit.daemon.record, emit.host.asked;
        Later();
        Round(ready[turn]);
        FaithfulSinceCompose(
          was, before, Account(), record, mid, emit.daemon.record, host, asked, emit.host.asked);
      }
      FaithfulUnasked(was, Account(), record, emit.daemon.record, host);
    }

    // ---------------------------------------------------------------
    // What holds at every head

    /** In pull mode what left the queue for the host and what is queued are the
        messages the daemon gave over all its sessions, in order, and no line
        was written; of what left it exactly what can be converted is an item;
        the pause is on exactly while the queue is full. */
    lemma NothingIsLost(i: nat)
      requires AtHead() && emit.delivery.PullMode?
      ensures |emit.Backlog()| == |Messages(emit.daemon.record.given)| && emit.host.said == []
      ensures i < |emit.Backlog()| ==> emit.Backlog()[i].event == Messages(emit.daemon.record.given)[i]
      ensures i < |emit.host.received| ==>
                var e := Messages(emit.daemon.record.given)[i];
                emit.host.received[i].pulled.event == e && (emit.host.received[i].Item? <==> emit.converts(e))
      ensures emit.pull.Made() ==> (emit.pull.pausedSince.Some? <==> |emit.pull.items| == emit.pull.bound)
    {
      assert CarriesAt(emit.Backlog(), Messages(emit.daemon.record.given), i);
      assert ReceivedAt(emit.converts, emit.host.received, i);
      assert i < |emit.host.received| ==> emit.Backlog()[i] == Dequeued(emit.host.received)[i];
    }

    /** In push mode every message the daemon gave, over all its sessions and in
        order, became a line, or a word exactly when it cannot be converted. */
    lemma EveryMessageIsTold(i: nat)
      requires AtHead() && emit.delivery.PushMode?
      ensures |emit.host.said| == |Messages(emit.daemon.record.given)| && emit.Backlog() == []
      ensures i < |emit.host.said| ==>
                var e := Messages(emit.daemon.record.given)[i];
                emit.host.said[i] == if emit.converts(e) then Line(e) else Dropped(e)
    {
      assert SaysAt(emit.converts, emit.host.said, Messages(emit.daemon.record.given), i);
    }

    /** On a session that is up, a channel with no outcome unknown is joined
        exactly when the daemon holds its join. */
    lemma JoinsAreTheDaemons(c: ChannelId)
      requires AtHead() && session != null && session.alive && c !in pending
      ensures c in joined <==> c in session.held
      ensures !(c in joined && c in rejoinRefused)
    {
      assert AgreesAt(Account(), session.held, c) && ConsistentAt(Account(), c);
    }

    /** Since a lost session reset the backoff the daemon was asked for its
        k-th session no sooner than 250 (2^k - 1) ms after for the first seven,
        and for later ones a whole ceiling after the one before. */
    lemma DaemonIsAskedAtItsPace(k: nat)
      requires AtHead() && backoff.pace.base == 1 && 1 <= k <= |backoff.pace.opens|
      ensures var asked, n := emit.daemon.record.asked, |backoff.pace.before|;
              && |asked| == n + |backoff.pace.opens|
              && (k <= 7 ==> backoff.pace.resetAt + 250 * (Pow2(k) - 1) <= asked[n + k - 1])
              && (k >= 8 ==> asked[n + k - 2] + 30_000 <= asked[n + k - 1])
    {
      OpensKeepTheirDistance(backoff.pace, backoff.attempt, backoff.reconnectAt, session == null, k);
    }

    /** Whatever became of its sessions: where the daemon was asked for one less
        than 30 s after the last, and again and again, the m-th gap is at least
        the m-th wait, so that there are at most seven of them. */
    lemma DaemonIsNeverPressed(i: nat, m: nat)
      requires AtHead() && Pressing(emit.daemon.record.asked, i, m)
      ensures m <= 7
      ensures var asked := emit.daemon.record.asked;
              i + m + 1 < |asked| ==> asked[i + m] + Wait(m + if i == 0 then 0 else 1) <= asked[i + m + 1]
    {
      PressingIsShort(emit.daemon.record.asked, i, m);
      if i + m + 1 < |emit.daemon.record.asked| {
        StretchIsPaced(emit.daemon.record.asked, i, m);
      }
    }

    /** Without a session the host is told the endpoint's own refusal when that was
        the daemon's answer to the last open, and of the daemon's absence
        otherwise. */
    lemma AbsenceIsTheDaemons()
      requires AtHead()
      ensures var e := emit.daemon.record.refused;
              Absent() ==
                if e == Some(EndpointInUse) || e == Some(EndpointUnknown) || e == Some(EndpointDisabled)
                   || e == Some(EndpointClientKindDenied)
                then e.value else BackendUnavailable
    {
    }

    /** The daemon was asked to join or leave no channel but one the host named. */
    lemma OnlyNamedChannelsAreAsked(i: nat)
      requires CallInv() && i < |emit.daemon.record.calls|
      ensures var call := emit.daemon.record.calls[i].call;
              call.Join? || call.Leave? ==> call.channel in NamedIn(emit.host.asked)
    {
      var call := emit.daemon.record.calls[i].call;
      if call.Join? || call.Leave? {
        assert MeantAt(Account(), emit.daemon.record.calls, NamedIn(emit.host.asked), call.channel);
        assert Concerns(emit.daemon.record.calls, i, call.channel);
      }
    }

    /** The daemon saw no send more often than the host asked for it. */
    lemma NoSendIsTheBridges(send: Call)
      requires CallInv()
      ensures var sends := Sends(emit.daemon.record.calls);
              TimesMade(sends, send, |sends|) <= TimesAsked(emit.host.asked, send, |emit.host.asked|)
    {
      NoSendIsMadeAgain(emit.host.asked, emit.host.told, Sends(emit.daemon.record.calls), send);
    }
  }
}
