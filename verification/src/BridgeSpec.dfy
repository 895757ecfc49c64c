/** What the bridge's loop is held to: the relations its methods are proved
    against, and how they compose over a run. */
module BridgeSpec {
  import opened Common
  import opened DataSession
  import opened HostSide
  import opened CallBooks

  datatype Delivery = PushMode | PullMode

  datatype PendingOp = PendingJoin | PendingLeave

  // -----------------------------------------------------------------
  // Messages

  ghost predicate CarriesAt(items: seq<Pulled>, events: seq<Event>, i: nat) {
    i < |items| && i < |events| ==> items[i].event == events[i]
  }

  /** `items` are exactly the messages `events`, in order. */
  ghost predicate Carries(items: seq<Pulled>, events: seq<Event>) {
    |items| == |events| && forall i: nat :: CarriesAt(items, events, i)
  }

  ghost predicate SaysAt(converts: Conversion, said: seq<Said>, events: seq<Event>, i: nat) {
    i < |said| && i < |events| ==> said[i] == if converts(events[i]) then Line(events[i]) else Dropped(events[i])
  }

  /** Each of `events` became a line, or a word of its refusal exactly when it
      cannot be converted, in order. */
  ghost predicate Says(converts: Conversion, said: seq<Said>, events: seq<Event>) {
    |said| == |events| && forall i: nat :: SaysAt(converts, said, events, i)
  }

  /** What the daemon gave is what the bridge passed on or holds: in pull mode
      every message is in the backlog, received by the host or queued, and no
      line was written; in push mode every message was told. */
  ghost predicate Conserved(
    converts: Conversion, delivery: Delivery, backlog: seq<Pulled>, said: seq<Said>, given: seq<Event>)
  {
    if delivery.PullMode? then said == [] && Carries(backlog, Messages(given))
    else backlog == [] && Says(converts, said, Messages(given))
  }

  lemma ConservedNotice(
    converts: Conversion, delivery: Delivery, backlog: seq<Pulled>, said: seq<Said>, given: seq<Event>, e: Event)
    requires Conserved(converts, delivery, backlog, said, given) && !e.Message?
    ensures Conserved(converts, delivery, backlog, said, given + [e])
  {
    MessagesSnoc(given, e);
    assert Messages(given) + [] == Messages(given);
  }

  lemma ConservedQueued(converts: Conversion, backlog: seq<Pulled>, given: seq<Event>, p: Pulled)
    requires Conserved(converts, PullMode, backlog, [], given) && p.event.Message?
    ensures Conserved(converts, PullMode, backlog + [p], [], given + [p.event])
  {
    MessagesSnoc(given, p.event);
    forall i: nat
      ensures CarriesAt(backlog + [p], Messages(given) + [p.event], i)
    {
      assert CarriesAt(backlog, Messages(given), i);
    }
  }

  lemma ConservedSaid(converts: Conversion, said: seq<Said>, given: seq<Event>, x: Said)
    requires Conserved(converts, PushMode, [], said, given) && x.event.Message?
    requires x.Line? <==> converts(x.event)
    ensures Conserved(converts, PushMode, [], said + [x], given + [x.event])
  {
    MessagesSnoc(given, x.event);
    forall i: nat
      ensures SaysAt(converts, said + [x], Messages(given) + [x.event], i)
    {
      assert SaysAt(converts, said, Messages(given), i);
    }
  }

  ghost predicate DatedAt(items: seq<Pulled>, n: nat, epoch: nat, i: nat) {
    i < |items| && items[i].lease.Some? ==>
      items[i].lease.value.epoch <= epoch && (i < n ==> items[i].lease.value.epoch < epoch)
  }

  /** No item's lease is younger than the session of `epoch`, and the first
      `n`, taken before it opened, never carry its lease: a reply token minted
      for one of them is stale. */
  ghost predicate Dated(items: seq<Pulled>, n: nat, epoch: nat) {
    forall i: nat :: DatedAt(items, n, epoch, i)
  }

  lemma DatedQueued(items: seq<Pulled>, n: nat, epoch: nat, p: Pulled)
    requires Dated(items, n, epoch) && n <= |items| && (p.lease.Some? ==> p.lease.value.epoch == epoch)
    ensures Dated(items + [p], n, epoch)
  {
    forall i: nat
      ensures DatedAt(items + [p], n, epoch, i)
    {
      assert DatedAt(items, n, epoch, i);
    }
  }

  lemma DatedAnew(items: seq<Pulled>, n: nat, epoch: nat, next: nat)
    requires Dated(items, n, epoch) && epoch < next
    ensures Dated(items, |items|, next)
  {
    forall i: nat
      ensures DatedAt(items, |items|, next, i)
    {
      assert DatedAt(items, n, epoch, i);
    }
  }

  // -----------------------------------------------------------------
  // Joins

  /** What a live daemon holds after `call` was driven to `answer`, or was
      cancelled in flight. */
  ghost predicate Outcome(call: Call, answer: Option<Answer>, before: set<ChannelId>, after: set<ChannelId>) {
    if answer.Some? then Honest(call, answer.value, before, after) else Advisory(call, before, after)
  }

  /** One channel, as the bridge has it. */
  datatype Row = Row(joined: bool, pending: Option<PendingOp>, refused: bool) {
    /** The host wants it joined: it is joined or being joined, and not
        being left. */
    predicate Wanted() {
      pending == Some(PendingJoin) || (joined && pending.None?)
    }

    /** Against whether a live daemon holds the join: equal when no outcome
        is unknown, and a leave of unknown outcome never hides a join the
        bridge does not know of. */
    predicate Agrees(held: bool) {
      && (pending.None? ==> joined == held)
      && (pending == Some(PendingLeave) && held ==> joined)
    }

    /** Where a (re-)join stands once its session answered: joined and no
        refusal on show, refused by a session still up and on show, or
        cancelled and not joined until its re-issue says so. */
    predicate Settled(joinRefused: bool) {
      || this == Row(true, None, false)
      || (this == Row(false, None, true) && joinRefused)
      || (!joined && pending == Some(PendingJoin))
    }
  }

  /** The bridge's account of its channels. */
  datatype Books = Books(joined: set<ChannelId>, pending: map<ChannelId, PendingOp>, refused: set<ChannelId>) {
    ghost function Of(c: ChannelId): Row {
      Row(c in joined, if c in pending then Some(pending[c]) else None, c in refused)
    }

    /** What the host wants joined. */
    ghost function Intent(): set<ChannelId> {
      set c | c in joined + pending.Keys && Of(c).Wanted()
    }
  }

  ghost predicate AgreesAt(b: Books, held: set<ChannelId>, c: ChannelId) {
    b.Of(c).Agrees(c in held)
  }

  /** The bridge's account agrees with what a live daemon holds. */
  ghost predicate Agree(b: Books, held: set<ChannelId>) {
    forall c :: AgreesAt(b, held, c)
  }

  ghost predicate ConsistentAt(b: Books, c: ChannelId) {
    !(b.Of(c).joined && b.Of(c).refused)
  }

  /** No channel is both joined and shown as refused. */
  ghost predicate Consistent(b: Books) {
    forall c :: ConsistentAt(b, c)
  }

  ghost predicate SameAt(a: Books, b: Books, x: ChannelId) {
    b.Of(x) == a.Of(x)
  }

  /** Only `c`'s row changed. */
  ghost predicate OnlyChanged(a: Books, b: Books, c: ChannelId) {
    forall x :: x != c ==> SameAt(a, b, x)
  }

  /** `after` follows from `before` without the host naming the channel. What
      it wanted joined is still wanted, unless meanwhile a session still up
      refused the join and the refusal is on show. What it did not want is not
      taken up. What it was leaving is being left or is left, unless meanwhile
      a session still up refused the leave. */
  predicate RowFaithful(before: Row, after: Row, joinRefused: bool, leaveRefused: bool) {
    && (before.Wanted() ==> after.Wanted() || (after.refused && after.pending.None? && joinRefused))
    && (!before.Wanted() && before.pending.None? ==>
          !after.Wanted() && after.pending.None? && after.refused == before.refused)
    && (before.pending == Some(PendingLeave) && !leaveRefused ==>
          !after.Wanted() && (after.pending.None? ==> !after.refused))
  }

  ghost predicate FaithfulAt(a: Books, b: Books, r: Record, s: Record, c: ChannelId) {
    RowFaithful(a.Of(c), b.Of(c), JoinRefused(r, s, c), LeaveRefused(r, s, c))
  }

  /** The same over every channel the host did not name, from the account `a`
      and the daemon's record `r` to `b` and `s`. */
  ghost predicate Faithful(a: Books, b: Books, r: Record, s: Record, named: set<ChannelId>) {
    Grew(r, s) && forall c :: c !in named ==> FaithfulAt(a, b, r, s, c)
  }

  lemma FaithfulNothing(a: Books, r: Record, s: Record)
    requires Grew(r, s)
    ensures Faithful(a, a, r, s, {})
  {
    forall c
      ensures FaithfulAt(a, a, r, s, c)
    {
    }
  }

  lemma RowsCompose(
    a: Row, b: Row, c: Row, join1: bool, leave1: bool, join2: bool, leave2: bool, join: bool, leave: bool)
    requires RowFaithful(a, b, join1, leave1) && RowFaithful(b, c, join2, leave2)
    requires (join1 || join2 ==> join) && (leave1 || leave2 ==> leave)
    ensures RowFaithful(a, c, join, leave)
  {
    if a.pending == Some(PendingLeave) && !leave {
      match b.pending
      case None =>
      case Some(op) => assert op == PendingLeave;
    }
  }

  /** Faithfulness composes, so it holds over any run. */
  lemma FaithfulCompose(
    a: Books, b: Books, c: Books, r: Record, s: Record, t: Record,
    first: set<ChannelId>, second: set<ChannelId>)
    requires Faithful(a, b, r, s, first) && Faithful(b, c, s, t, second)
    ensures Faithful(a, c, r, t, first + second)
  {
    forall x | x !in first + second
      ensures FaithfulAt(a, c, r, t, x)
    {
      assert FaithfulAt(a, b, r, s, x) && FaithfulAt(b, c, s, t, x);
      RowsCompose(
        a.Of(x), b.Of(x), c.Of(x), JoinRefused(r, s, x), LeaveRefused(r, s, x),
        JoinRefused(s, t, x), LeaveRefused(s, t, x), JoinRefused(r, t, x), LeaveRefused(r, t, x));
    }
  }

  /** The same from when the host had made the calls `asked` to when it has made
      `asked'`: it named the channels of the calls between. */
  ghost predicate FaithfulSince(
    a: Books, b: Books, r: Record, s: Record, asked: seq<ToolCall>, asked': seq<ToolCall>)
  {
    asked <= asked' && Faithful(a, b, r, s, NamedBetween(asked', |asked|, |asked'|))
  }

  /** If it made none, nothing was named. */
  lemma FaithfulUnasked(a: Books, b: Books, r: Record, s: Record, asked: seq<ToolCall>)
    ensures FaithfulSince(a, b, r, s, asked, asked) <==> Faithful(a, b, r, s, {})
  {
  }

  lemma FaithfulCall(a: Books, b: Books, r: Record, s: Record, asked: seq<ToolCall>, call: ToolCall)
    requires Faithful(a, b, r, s, Named(call))
    ensures FaithfulSince(a, b, r, s, asked, asked + [call])
  {
    var n := |asked|;
    assert NamedBetween(asked + [call], n, n + 1) == NamedBetween(asked + [call], n, n) + Named(call);
    assert NamedBetween(asked + [call], n, n) == {};
    assert {} + Named(call) == Named(call);
  }

  lemma FaithfulSinceCompose(
    a: Books, b: Books, c: Books, r: Record, s: Record, t: Record,
    asked: seq<ToolCall>, asked': seq<ToolCall>, asked'': seq<ToolCall>)
    requires FaithfulSince(a, b, r, s, asked, asked') && FaithfulSince(b, c, s, t, asked', asked'')
    ensures FaithfulSince(a, c, r, t, asked, asked'')
  {
    var i, j, n := |asked|, |asked'|, |asked''|;
    NamedStand(asked', asked'', i, j);
    NamedOn(asked'', i, j, n);
    FaithfulCompose(a, b, c, r, s, t, NamedBetween(asked'', i, j), NamedBetween(asked'', j, n));
  }

  // -----------------------------------------------------------------
  // An open

  /** A row with its pending outcome folded in: what was wanted is joined,
      and a folded leave takes its refusal with it. */
  function FoldedRow(r: Row): Row {
    Row(r.Wanted(), None, r.refused && r.pending != Some(PendingLeave))
  }

  ghost predicate FoldingAt(a: Books, b: Books, todo: set<ChannelId>, c: ChannelId) {
    b.Of(c) == if c in todo then a.Of(c).(pending := None) else FoldedRow(a.Of(c))
  }

  /** Pending outcomes folded into the account, but for those of `todo`. */
  ghost predicate Folding(a: Books, b: Books, todo: set<ChannelId>) {
    forall c :: FoldingAt(a, b, todo, c)
  }

  lemma FoldingStarts(a: Books, b: Books)
    requires b == a.(pending := map[])
    ensures Folding(a, b, a.pending.Keys)
  {
    forall c
      ensures FoldingAt(a, b, a.pending.Keys, c)
    {
    }
  }

  lemma FoldingStep(a: Books, b: Books, b': Books, todo: set<ChannelId>, c: ChannelId)
    requires Folding(a, b, todo) && c in todo
    requires OnlyChanged(b, b', c) && b'.Of(c) == FoldedRow(a.Of(c))
    ensures Folding(a, b', todo - {c})
  {
    forall x
      ensures FoldingAt(a, b', todo - {c}, x)
    {
      assert FoldingAt(a, b, todo, x) && (x != c ==> SameAt(b, b', x));
    }
  }

  lemma FoldedJoins(a: Books, b: Books)
    requires Folding(a, b, {})
    ensures b.joined == a.Intent()
  {
    forall c
      ensures c in b.joined <==> c in a.Intent()
    {
      assert FoldingAt(a, b, {}, c);
    }
  }

  ghost predicate RejoiningAt(a: Books, b: Books, r: Record, s: Record, todo: set<ChannelId>, c: ChannelId) {
    if c in a.joined && c !in todo then b.Of(c).Settled(JoinRefused(r, s, c)) else b.Of(c) == a.Of(c)
  }

  /** Part-way through the re-joins of an open, `todo` still to come: each
      other joined channel is settled, and no other row has changed. */
  ghost predicate Rejoining(a: Books, b: Books, r: Record, s: Record, todo: set<ChannelId>) {
    Grew(r, s) && todo <= a.joined && forall c :: RejoiningAt(a, b, r, s, todo, c)
  }

  lemma RejoiningStarts(a: Books, r: Record)
    ensures Rejoining(a, a, r, r, a.joined)
  {
    forall c
      ensures RejoiningAt(a, a, r, r, a.joined, c)
    {
    }
  }

  ghost predicate AgreesButAt(b: Books, held: set<ChannelId>, todo: set<ChannelId>, c: ChannelId) {
    if c in todo then c !in held else b.Of(c).Agrees(c in held)
  }

  /** A session being taken up: nothing of `todo` is held yet, and the rest
      agrees. */
  ghost predicate AgreeBut(b: Books, held: set<ChannelId>, todo: set<ChannelId>) {
    forall c :: AgreesButAt(b, held, todo, c)
  }

  lemma AgreeButStarts(b: Books)
    requires |b.pending| == 0
    ensures AgreeBut(b, {}, b.joined)
  {
    forall c
      ensures AgreesButAt(b, {}, b.joined, c)
    {
    }
  }

  lemma AgreeButEnds(b: Books, held: set<ChannelId>)
    requires AgreeBut(b, held, {})
    ensures Agree(b, held)
  {
    forall c
      ensures AgreesAt(b, held, c)
    {
      assert AgreesButAt(b, held, {}, c);
    }
  }

  /** The daemon's holding of no channel but `c` changed. */
  ghost predicate OnlyTouched(held: set<ChannelId>, held': set<ChannelId>, c: ChannelId) {
    held' - {c} == held - {c}
  }

  lemma AgreeButStep(
    b: Books, b': Books, held: set<ChannelId>, held': set<ChannelId>, todo: set<ChannelId>, c: ChannelId)
    requires AgreeBut(b, held, todo) && c in todo
    requires OnlyChanged(b, b', c) && OnlyTouched(held, held', c)
    requires b'.Of(c).Agrees(c in held')
    ensures AgreeBut(b', held', todo - {c})
  {
    forall x
      ensures AgreesButAt(b', held', todo - {c}, x)
    {
      assert AgreesButAt(b, held, todo, x) && (x != c ==> SameAt(b, b', x));
      assert x != c ==> (x in held' <==> x in held' - {c}) && (x in held <==> x in held - {c});
    }
  }

  lemma RejoiningStep(
    a: Books, b: Books, b': Books, r: Record, s: Record, s': Record, todo: set<ChannelId>, c: ChannelId)
    requires Rejoining(a, b, r, s, todo) && c in todo && Grew(s, s')
    requires OnlyChanged(b, b', c) && b'.Of(c).Settled(JoinRefused(s, s', c))
    ensures Rejoining(a, b', r, s', todo - {c})
  {
    forall x
      ensures RejoiningAt(a, b', r, s', todo - {c}, x)
    {
      assert RejoiningAt(a, b, r, s, todo, x) && (x != c ==> SameAt(b, b', x));
    }
  }

  /** The session ended under a re-join: the account stands as it was. */
  lemma RejoiningStops(a: Books, b: Books, r: Record, s: Record, s': Record, todo: set<ChannelId>)
    requires Rejoining(a, b, r, s, todo) && Grew(s, s')
    ensures Rejoining(a, b, r, s', todo)
  {
    forall x
      ensures RejoiningAt(a, b, r, s', todo, x)
    {
      assert RejoiningAt(a, b, r, s, todo, x);
    }
  }

  ghost predicate TakenUpAt(a: Books, b: Books, r: Record, s: Record, c: ChannelId) {
    if a.Of(c).Wanted() then b.Of(c).Settled(JoinRefused(r, s, c)) else b.Of(c) == FoldedRow(a.Of(c))
  }

  /** An open that came to its end: every channel wanted is settled, and no
      other is taken up. */
  ghost predicate TakenUp(a: Books, b: Books, r: Record, s: Record) {
    forall c :: TakenUpAt(a, b, r, s, c)
  }

  /** What an open does to the account, however far its re-joins came. */
  lemma OpenIsFaithful(a: Books, folded: Books, b: Books, r: Record, s: Record, left: set<ChannelId>)
    requires Folding(a, folded, {}) && Rejoining(folded, b, r, s, left)
    ensures Faithful(a, b, r, s, {})
    ensures left == {} ==> Consistent(b) && TakenUp(a, b, r, s)
  {
    forall c
      ensures FaithfulAt(a, b, r, s, c)
      ensures left == {} ==> ConsistentAt(b, c) && TakenUpAt(a, b, r, s, c)
    {
      assert FoldingAt(a, folded, {}, c) && RejoiningAt(folded, b, r, s, left, c);
      assert folded.Of(c).joined == (c in folded.joined);
    }
  }

  /** What is so since the session was given is so since it was asked for. */
  lemma OpenedSince(a: Books, b: Books, r: Record, given: Record, s: Record, kept: bool)
    requires SameRefusals(r, given) && Faithful(a, b, given, s, {}) && (kept ==> TakenUp(a, b, given, s))
    ensures Faithful(a, b, r, s, {}) && (kept ==> TakenUp(a, b, r, s))
  {
    forall c
      ensures FaithfulAt(a, b, r, s, c) && (kept ==> TakenUpAt(a, b, r, s, c))
    {
      assert FaithfulAt(a, b, given, s, c) && (kept ==> TakenUpAt(a, b, given, s, c));
    }
  }

  /** An open whose session ended under a re-join shows a channel as both
      joined and refused exactly when its re-join was still to come and it had
      come into the open wanted with a refusal on show. */
  lemma DyingOpenShowsBoth(
    a: Books, folded: Books, b: Books, r: Record, s: Record, left: set<ChannelId>, c: ChannelId)
    requires Folding(a, folded, {}) && Rejoining(folded, b, r, s, left)
    ensures !ConsistentAt(b, c) <==> c in left && a.Of(c).Wanted() && a.Of(c).refused
  {
    assert FoldingAt(a, folded, {}, c) && RejoiningAt(folded, b, r, s, left, c);
    assert folded.Of(c).joined == (c in folded.joined);
  }

  /** It happens: a re-join of `c` was refused, the host's own join of `c` was
      then cancelled in flight, and the open after that lost its session before
      `c` was answered. The account going in shows nothing wrong. */
  lemma DyingOpenMayShowBoth(c: ChannelId, r: Record)
    ensures var a := Books({}, map[c := PendingJoin], {c});
            var b := Books({c}, map[], {c});
            && Consistent(a)
            && Folding(a, b, {}) && Rejoining(b, b, r, r, {c})
            && !Consistent(b)
  {
    var a := Books({}, map[c := PendingJoin], {c});
    var b := Books({c}, map[], {c});
    forall x
      ensures ConsistentAt(a, x) && FoldingAt(a, b, {}, x) && RejoiningAt(b, b, r, r, {c}, x)
    {
    }
    assert !ConsistentAt(b, c);
  }

  // -----------------------------------------------------------------
  // Outcomes unknown

  /** A pending outcome answered: a join is joined, or refused by a session
      still up and on show; a leave is left, with no refusal on show, or was
      refused by one and the row stands as it was. */
  predicate RowResolved(before: Row, after: Row, joinRefused: bool, leaveRefused: bool) {
    if before.pending == Some(PendingJoin)
    then after == Row(true, None, false) || (after == Row(false, None, true) && joinRefused)
    else after == Row(false, None, false) || (after == before.(pending := None) && leaveRefused)
  }

  /** What each answer makes of it. */
  function ResolvedRow(before: Row, answer: Answer): Row {
    if before.pending == Some(PendingJoin)
    then if answer.Taken? then Row(true, None, false) else Row(false, None, true)
    else if answer.Taken? then Row(false, None, false) else before.(pending := None)
  }

  ghost predicate ResolvingAt(a: Books, b: Books, r: Record, s: Record, c: ChannelId) {
    || b.Of(c) == a.Of(c)
    || (a.Of(c).pending.Some? && RowResolved(a.Of(c), b.Of(c), JoinRefused(r, s, c), LeaveRefused(r, s, c)))
  }

  /** A pass over the pending outcomes: each was answered or stands, and no
      other row changed. */
  ghost predicate Resolving(a: Books, b: Books, r: Record, s: Record) {
    Grew(r, s) && forall c :: ResolvingAt(a, b, r, s, c)
  }

  lemma ResolvingStarts(a: Books, r: Record)
    ensures Resolving(a, a, r, r)
  {
    forall c
      ensures ResolvingAt(a, a, r, r, c)
    {
    }
  }

  lemma ResolvingStep(a: Books, b: Books, b': Books, r: Record, s: Record, s': Record, c: ChannelId)
    requires Resolving(a, b, r, s) && b.Of(c).pending.Some? && Grew(s, s')
    requires OnlyChanged(b, b', c)
    requires RowResolved(b.Of(c), b'.Of(c), JoinRefused(s, s', c), LeaveRefused(s, s', c))
    ensures Resolving(a, b', r, s')
  {
    forall x
      ensures ResolvingAt(a, b', r, s', x)
    {
      assert ResolvingAt(a, b, r, s, x) && (x != c ==> SameAt(b, b', x));
    }
  }

  lemma ResolvingStops(a: Books, b: Books, r: Record, s: Record, s': Record)
    requires Resolving(a, b, r, s) && Grew(s, s')
    ensures Resolving(a, b, r, s')
  {
    forall x
      ensures ResolvingAt(a, b, r, s', x)
    {
      assert ResolvingAt(a, b, r, s, x);
    }
  }

  lemma ResolvingIsFaithful(a: Books, b: Books, r: Record, s: Record)
    requires Resolving(a, b, r, s)
    ensures Faithful(a, b, r, s, {})
  {
    forall c
      ensures FaithfulAt(a, b, r, s, c)
    {
      assert ResolvingAt(a, b, r, s, c);
    }
  }

  // -----------------------------------------------------------------
  // One row

  /** A row changed by name keeps every other channel's. */
  lemma OnlyChangedIsFaithful(a: Books, b: Books, r: Record, s: Record, c: ChannelId)
    requires OnlyChanged(a, b, c) && Grew(r, s)
    ensures Faithful(a, b, r, s, {c})
  {
    forall x | x !in {c}
      ensures FaithfulAt(a, b, r, s, x)
    {
      assert SameAt(a, b, x);
    }
  }

  /** Nothing was pending, and the one row that changed is not. */
  lemma NonePending(a: Books, b: Books, c: ChannelId)
    requires |a.pending| == 0 && OnlyChanged(a, b, c) && c !in b.pending
    ensures |b.pending| == 0
  {
    forall x
      ensures x !in b.pending
    {
      assert x != c ==> SameAt(a, b, x);
      assert a.Of(x).pending.None?;
    }
  }

  /** One channel's row and holding change together: the account still
      agrees and stays consistent. */
  lemma RowStep(a: Books, b: Books, held: set<ChannelId>, held': set<ChannelId>, c: ChannelId, alive: bool)
    requires Consistent(a) && OnlyChanged(a, b, c) && ConsistentAt(b, c)
    requires alive ==> Agree(a, held) && OnlyTouched(held, held', c) && AgreesAt(b, held', c)
    ensures Consistent(b)
    ensures alive ==> Agree(b, held')
  {
    forall x
      ensures ConsistentAt(b, x)
      ensures alive ==> AgreesAt(b, held', x)
    {
      assert ConsistentAt(a, x) && (x != c ==> SameAt(a, b, x));
      assert alive ==> AgreesAt(a, held, x);
      assert alive && x != c ==> (x in held' <==> x in held' - {c}) && (x in held <==> x in held - {c});
    }
  }

  // -----------------------------------------------------------------
  // Calls

  /** What re-issuing `pending` may ask of a session. */
  ghost function Reissues(pending: map<ChannelId, PendingOp>): set<Call> {
    set c | c in pending :: if pending[c] == PendingJoin then Join(c) else Leave(c)
  }

  /** What taking up `intent` may. */
  ghost function Rejoins(intent: set<ChannelId>): set<Call> {
    set c | c in intent :: Join(c)
  }

  ghost predicate MeantAt(b: Books, calls: seq<Made>, named: set<ChannelId>, c: ChannelId) {
    c !in named ==>
      !b.Of(c).joined && b.Of(c).pending.None? && forall i: nat :: !Concerns(calls, i, c)
  }

  ghost predicate Concerns(calls: seq<Made>, i: nat, c: ChannelId) {
    i < |calls| && (calls[i].call == Join(c) || calls[i].call == Leave(c))
  }

  /** A channel the host never named is neither joined nor being joined or left,
      and the daemon was never asked to. */
  ghost predicate Meant(b: Books, calls: seq<Made>, named: set<ChannelId>) {
    forall c :: MeantAt(b, calls, named, c)
  }

  lemma MeantOwn(a: Books, b: Books, r: Record, s: Record, named: set<ChannelId>, allowed: set<Call>)
    requires Meant(a, r.calls, named) && Faithful(a, b, r, s, {}) && Added(r.calls, s.calls, allowed)
    requires allowed == Reissues(a.pending) || allowed == Rejoins(a.Intent()) || allowed == {}
    ensures Meant(b, s.calls, named)
  {
    forall c
      ensures MeantAt(b, s.calls, named, c)
    {
      assert MeantAt(a, r.calls, named, c) && FaithfulAt(a, b, r, s, c);
      if c !in named {
        forall i: nat
          ensures !Concerns(s.calls, i, c)
        {
          assert !Concerns(r.calls, i, c) && AddedAt(s.calls, |r.calls|, allowed, i);
        }
      }
    }
  }

  /** One call of the host's adds nothing, or one call that concerns no channel
      but the one it names. */
  ghost predicate AddsOwn(call: ToolCall, before: seq<Made>, after: seq<Made>) {
    || after == before
    || (&& |after| == |before| + 1 && before <= after
        && var made := after[|before|].call;
           made.Join? || made.Leave? ==> made.channel in Named(call))
  }

  lemma MeantHost(a: Books, b: Books, r: Record, s: Record, asked: seq<ToolCall>, call: ToolCall)
    requires Meant(a, r.calls, NamedIn(asked)) && Faithful(a, b, r, s, Named(call))
    requires AddsOwn(call, r.calls, s.calls)
    ensures Meant(b, s.calls, NamedIn(asked + [call]))
  {
    NamedStand(asked, asked + [call], 0, |asked|);
    forall c
      ensures MeantAt(b, s.calls, NamedIn(asked + [call]), c)
    {
      assert MeantAt(a, r.calls, NamedIn(asked), c);
      if c !in NamedIn(asked + [call]) {
        assert FaithfulAt(a, b, r, s, c);
        forall i: nat
          ensures !Concerns(s.calls, i, c)
        {
          assert !Concerns(r.calls, i, c);
        }
      }
    }
  }
}
