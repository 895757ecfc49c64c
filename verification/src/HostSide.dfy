/** The host at the other end of the bridge (the tools of
    apps/claude-channel/src/serve.rs): what it may call, what it reads back and
    what it is given. Which call comes next is its own to choose.

    What is said of a run is said against the host's own record, which only the
    host's side writes. */
module HostSide {
  import opened Common
  import opened DataSession

  /** A message taken from a session, with the lease it arrived under. */
  datatype Pulled = Pulled(event: Event, lease: Option<Lease>)

  /** What became of a message in push mode: a line, or a word that its
      conversion was refused. */
  datatype Said = Line(event: Event) | Dropped(event: Event)

  /** What became of one in pull mode once it left the queue: an item of the
      answer, or a word that its conversion was refused. */
  datatype Receipt = Item(pulled: Pulled) | Withheld(pulled: Pulled)

  /** Whether a message can be converted for the host, whatever decides it. */
  type Conversion = Event -> bool

  ghost predicate ReceivedAt(converts: Conversion, receipts: seq<Receipt>, i: nat) {
    i < |receipts| ==> (receipts[i].Item? <==> converts(receipts[i].pulled.event))
  }

  /** Exactly what could be converted was. */
  ghost predicate Received(converts: Conversion, receipts: seq<Receipt>) {
    forall i: nat :: ReceivedAt(converts, receipts, i)
  }

  lemma ReceivedMore(converts: Conversion, receipts: seq<Receipt>, more: seq<Receipt>)
    requires Received(converts, receipts) && Received(converts, more)
    ensures Received(converts, receipts + more)
  {
    forall i: nat
      ensures ReceivedAt(converts, receipts + more, i)
    {
      assert ReceivedAt(converts, receipts, i) && (i >= |receipts| ==> ReceivedAt(converts, more, i - |receipts|));
    }
  }

  /** The messages the receipts are of. */
  ghost function Dequeued(receipts: seq<Receipt>): seq<Pulled> {
    seq(|receipts|, i requires 0 <= i < |receipts| => receipts[i].pulled)
  }

  /** What leaves the queue for the host stays in its place. */
  lemma DequeuedInPlace(receipts: seq<Receipt>, more: seq<Receipt>, queue: seq<Pulled>, rest: seq<Pulled>)
    requires queue == Dequeued(more) + rest
    ensures Dequeued(receipts + more) + rest == Dequeued(receipts) + queue
  {
    assert Dequeued(receipts + more) == Dequeued(receipts) + Dequeued(more);
  }

  function Delivered(receipts: seq<Receipt>): seq<Pulled> {
    if receipts == [] then []
    else
      var n := |receipts| - 1;
      Delivered(receipts[..n]) + if receipts[n].Item? then [receipts[n].pulled] else []
  }

  ghost function Items(receipts: seq<Receipt>): nat {
    if receipts == [] then 0
    else Items(receipts[..|receipts| - 1]) + match receipts[|receipts| - 1] case Item(_) => 1 case Withheld(_) => 0
  }

  /** What is delivered is each item, in its place among them, and nothing else. */
  lemma {:induction false} DeliveredAre(receipts: seq<Receipt>, k: nat)
    requires k <= |receipts|
    ensures |Delivered(receipts)| == Items(receipts) && Items(receipts[..k]) <= Items(receipts)
    ensures k < |receipts| && receipts[k].Item? ==>
              Items(receipts[..k]) < Items(receipts) && Delivered(receipts)[Items(receipts[..k])] == receipts[k].pulled
  {
    if receipts == [] {
    } else {
      var n := |receipts| - 1;
      if k <= n {
        DeliveredAre(receipts[..n], k);
        assert receipts[..n][..k] == receipts[..k];
      } else {
        DeliveredAre(receipts[..n], n);
        assert receipts[..k] == receipts;
      }
    }
  }

  /** The route a reply token names, as the token table resolved it. */
  datatype ReplyRoute = DirectRoute(epoch: nat, peer: string) | BroadcastRoute(channel: ChannelId)

  datatype ToolCall =
    | Identity
    | Status
    | Receive(max: Option<nat>)
    | Send(peer: string, payload: nat)
    | Publish(to: ChannelId, payload: nat)
    | Reply(route: Option<ReplyRoute>, payload: nat)
    | JoinChannel(channel: ChannelId)
    | LeaveChannel(channel: ChannelId)

  /** What the host reads back. */
  datatype Reported =
    | Text
    | Items(items: seq<Pulled>, remaining: nat, paused: bool)
    | Failed(error: TransportError)
    | QueueFull
    | QueueFullCancelled

  predicate SessionBound(call: ToolCall) {
    !call.Identity? && !call.Status? && !call.Receive?
  }

  /** The channel whose membership the host is changing, if any. */
  ghost function Named(call: ToolCall): set<ChannelId> {
    if call.JoinChannel? || call.LeaveChannel? then {call.channel} else {}
  }

  /** The channels named in the calls from the `i`-th up to the `n`-th. */
  ghost function NamedBetween(calls: seq<ToolCall>, i: nat, n: nat): set<ChannelId>
    requires n <= |calls|
  {
    if n <= i then {} else NamedBetween(calls, i, n - 1) + Named(calls[n - 1])
  }

  ghost function NamedIn(calls: seq<ToolCall>): set<ChannelId> {
    NamedBetween(calls, 0, |calls|)
  }

  lemma {:induction false} NamedStand(calls: seq<ToolCall>, more: seq<ToolCall>, i: nat, n: nat)
    requires calls <= more && n <= |calls|
    ensures NamedBetween(more, i, n) == NamedBetween(calls, i, n)
  {
    if i < n {
      NamedStand(calls, more, i, n - 1);
    }
  }

  lemma {:induction false} NamedOn(calls: seq<ToolCall>, i: nat, j: nat, n: nat)
    requires i <= j <= n <= |calls|
    ensures NamedBetween(calls, i, n) == NamedBetween(calls, i, j) + NamedBetween(calls, j, n)
  {
    if j < n {
      NamedOn(calls, i, j, n - 1);
    }
  }

  class Host {
    ghost var asked: seq<ToolCall>
    ghost var told: seq<Reported>
    ghost var received: seq<Receipt>
    ghost var said: seq<Said>

    constructor ()
      ensures asked == [] && told == [] && received == [] && said == []
    {
      asked, told, received, said := [], [], [], [];
    }

    /** The call the host makes next. */
    method Next() returns (call: ToolCall)
      modifies this`asked
      ensures asked == old(asked) + [call]
    {
      call := *;
      asked := asked + [call];
    }

    /** The answer to a call that is no `receive`. */
    method Tell(r: Reported)
      requires !r.Items?
      modifies this`told
      ensures told == old(told) + [r]
    {
      told := told + [r];
    }

    /** The answer to a `receive`: what was converted of what left the queue. */
    method Give(receipts: seq<Receipt>, remaining: nat, paused: bool) returns (r: Reported)
      modifies this`told, this`received
      ensures r == Items(Delivered(receipts), remaining, paused)
      ensures told == old(told) + [r] && received == old(received) + receipts
    {
      r := Items(Delivered(receipts), remaining, paused);
      told, received := told + [r], received + receipts;
    }

    /** A line, or a word that there will be none. */
    method Say(said: Said)
      modifies this`said
      ensures this.said == old(this.said) + [said]
    {
      this.said := this.said + [said];
    }
  }
}
