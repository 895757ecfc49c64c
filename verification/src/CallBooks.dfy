/** The calls that reached the daemon, against what the host asked: which ones a
    step may add, and what became of every send the host asked for. */
module CallBooks {
  import opened Common
  import opened DataSession
  import opened HostSide

  // -----------------------------------------------------------------
  // What a step adds

  ghost predicate AddedAt(after: seq<Made>, n: nat, allowed: set<Call>, i: nat) {
    n <= i < |after| ==> after[i].call in allowed
  }

  /** Nothing but calls of `allowed` was added. */
  ghost predicate Added(before: seq<Made>, after: seq<Made>, allowed: set<Call>) {
    before <= after && forall i: nat :: AddedAt(after, |before|, allowed, i)
  }

  /** `call` was added, and nothing else. */
  ghost predicate AddedOne(before: seq<Made>, after: seq<Made>, call: Call) {
    |after| == |before| + 1 && before <= after && after[|before|].call == call
  }

  ghost function Last(calls: seq<Made>): Made
    requires calls != []
  {
    calls[|calls| - 1]
  }

  lemma AddedNothing(calls: seq<Made>, allowed: set<Call>)
    ensures Added(calls, calls, allowed)
  {
    forall i: nat
      ensures AddedAt(calls, |calls|, allowed, i)
    {
    }
  }

  lemma AddedNext(before: seq<Made>, mid: seq<Made>, after: seq<Made>, allowed: set<Call>, call: Call)
    requires Added(before, mid, allowed) && AddedOne(mid, after, call) && call in allowed
    ensures Added(before, after, allowed)
  {
    forall i: nat
      ensures AddedAt(after, |before|, allowed, i)
    {
      assert AddedAt(mid, |before|, allowed, i);
    }
  }

  predicate IsSend(call: Call) {
    call.Broadcast? || call.SendDirect?
  }

  /** The sends among the first `n` of `calls`. */
  ghost function SendsTo(calls: seq<Made>, n: nat): seq<Made>
    requires n <= |calls|
  {
    if n == 0 then [] else SendsTo(calls, n - 1) + if IsSend(calls[n - 1].call) then [calls[n - 1]] else []
  }

  ghost function Sends(calls: seq<Made>): seq<Made> {
    SendsTo(calls, |calls|)
  }

  lemma {:induction false} SendsStand(before: seq<Made>, after: seq<Made>, n: nat)
    requires before <= after && n <= |before|
    ensures SendsTo(after, n) == SendsTo(before, n)
  {
    if n > 0 {
      SendsStand(before, after, n - 1);
    }
  }

  lemma {:induction false} NoSendsBetween(before: seq<Made>, after: seq<Made>, allowed: set<Call>, n: nat)
    requires Added(before, after, allowed) && (forall call :: call in allowed ==> !IsSend(call))
    requires |before| <= n <= |after|
    ensures SendsTo(after, n) == SendsTo(after, |before|)
  {
    if n > |before| {
      NoSendsBetween(before, after, allowed, n - 1);
      assert AddedAt(after, |before|, allowed, n - 1);
    }
  }

  /** A step that may only join and leave sends nothing. */
  lemma NoSendsAdded(before: seq<Made>, after: seq<Made>, allowed: set<Call>)
    requires Added(before, after, allowed) && forall call :: call in allowed ==> !IsSend(call)
    ensures Sends(after) == Sends(before)
  {
    NoSendsBetween(before, after, allowed, |after|);
    SendsStand(before, after, |before|);
  }

  // -----------------------------------------------------------------
  // The host's sends

  /** The send the host asks for, if it asks for one; a reply goes to the exact
      route its token names. */
  ghost function AskedSend(call: ToolCall): Option<Call> {
    match call
    case Send(peer, payload) => Some(SendDirect(peer, payload))
    case Publish(to, payload) => Some(Broadcast(to, payload))
    case Reply(Some(DirectRoute(_, peer)), payload) => Some(SendDirect(peer, payload))
    case Reply(Some(BroadcastRoute(c)), payload) => Some(Broadcast(c, payload))
    case _ => None
  }

  /** What the host is told of a call answered, or cancelled in flight. */
  ghost function Report(answer: Option<Answer>): Reported {
    match answer
    case None => QueueFullCancelled
    case Some(Taken) => Text
    case Some(Refused(error)) => Failed(error)
  }

  /** The first `n` calls of the host's, what it was told of each, and the first
      `m` sends the daemon saw: every one of these is one of those, once and in
      the order asked, and the host was told what the daemon answered; every
      other send it asked for it was told did not go. */
  ghost predicate Matched(asked: seq<ToolCall>, told: seq<Reported>, sends: seq<Made>, n: nat, m: nat)
    requires n <= |asked| == |told| && m <= |sends|
    decreases n
  {
    if n == 0 then m == 0
    else
      var send, r := AskedSend(asked[n - 1]), told[n - 1];
      || (Matched(asked, told, sends, n - 1, m) && (send.Some? ==> r.QueueFull? || r.Failed?))
      || (&& m > 0 && send == Some(sends[m - 1].call) && r == Report(sends[m - 1].answer)
          && Matched(asked, told, sends, n - 1, m - 1))
  }

  ghost predicate Accounted(asked: seq<ToolCall>, told: seq<Reported>, sends: seq<Made>) {
    |told| == |asked| && Matched(asked, told, sends, |asked|, |sends|)
  }

  lemma {:induction false} MatchedStands(
    asked: seq<ToolCall>, told: seq<Reported>, sends: seq<Made>,
    asked': seq<ToolCall>, told': seq<Reported>, sends': seq<Made>, n: nat, m: nat)
    requires |asked| == |told| && |asked'| == |told'| && asked <= asked' && told <= told' && sends <= sends'
    requires n <= |asked| && m <= |sends|
    ensures Matched(asked', told', sends', n, m) <==> Matched(asked, told, sends, n, m)
    decreases n
  {
    if n > 0 {
      MatchedStands(asked, told, sends, asked', told', sends', n - 1, m);
      if m > 0 {
        MatchedStands(asked, told, sends, asked', told', sends', n - 1, m - 1);
      }
    }
  }

  lemma AccountedKept(asked: seq<ToolCall>, told: seq<Reported>, sends: seq<Made>, call: ToolCall, r: Reported)
    requires Accounted(asked, told, sends)
    requires AskedSend(call).Some? ==> r.QueueFull? || r.Failed?
    ensures Accounted(asked + [call], told + [r], sends)
  {
    MatchedStands(asked, told, sends, asked + [call], told + [r], sends, |asked|, |sends|);
  }

  lemma AccountedSent(asked: seq<ToolCall>, told: seq<Reported>, sends: seq<Made>, call: ToolCall, made: Made)
    requires Accounted(asked, told, sends) && AskedSend(call) == Some(made.call)
    ensures Accounted(asked + [call], told + [Report(made.answer)], sends + [made])
  {
    MatchedStands(
      asked, told, sends, asked + [call], told + [Report(made.answer)], sends + [made], |asked|, |sends|);
  }

  /** What one call of the host's may add: nothing, and then a send it asked for
      is told not to have gone; or one call, which is that send and is told as
      answered, or is no send. */
  ghost predicate Answers(call: ToolCall, r: Reported, before: seq<Made>, after: seq<Made>) {
    var send := AskedSend(call);
    if after == before then send.Some? ==> r.QueueFull? || r.Failed?
    else
      && |after| == |before| + 1 && before <= after
      && var made := after[|before|];
         if send.Some? then made.call == send.value && r == Report(made.answer) else !IsSend(made.call)
  }

  lemma AccountedCall(
    asked: seq<ToolCall>, told: seq<Reported>, calls: seq<Made>, call: ToolCall, r: Reported, calls': seq<Made>)
    requires Accounted(asked, told, Sends(calls)) && Answers(call, r, calls, calls')
    ensures Accounted(asked + [call], told + [r], Sends(calls'))
  {
    SendsStand(calls, calls', |calls|);
    if calls' != calls && AskedSend(call).Some? {
      AccountedSent(asked, told, Sends(calls), call, calls'[|calls|]);
    } else {
      assert Sends(calls') == Sends(calls);
      AccountedKept(asked, told, Sends(calls), call, r);
    }
  }

  ghost function TimesAsked(asked: seq<ToolCall>, send: Call, n: nat): nat
    requires n <= |asked|
  {
    if n == 0 then 0 else TimesAsked(asked, send, n - 1) + if AskedSend(asked[n - 1]) == Some(send) then 1 else 0
  }

  ghost function TimesMade(sends: seq<Made>, send: Call, m: nat): nat
    requires m <= |sends|
  {
    if m == 0 then 0 else TimesMade(sends, send, m - 1) + if sends[m - 1].call == send then 1 else 0
  }

  lemma {:induction false} NoSendIsAgain(
    asked: seq<ToolCall>, told: seq<Reported>, sends: seq<Made>, send: Call, n: nat, m: nat)
    requires n <= |asked| == |told| && m <= |sends| && Matched(asked, told, sends, n, m)
    ensures TimesMade(sends, send, m) <= TimesAsked(asked, send, n)
    decreases n
  {
    if n > 0 {
      if Matched(asked, told, sends, n - 1, m) {
        NoSendIsAgain(asked, told, sends, send, n - 1, m);
      } else {
        NoSendIsAgain(asked, told, sends, send, n - 1, m - 1);
      }
    }
  }

  /** No send is the bridge's own and none is made again: the daemon saw it no
      more often than the host asked for it. */
  lemma NoSendIsMadeAgain(asked: seq<ToolCall>, told: seq<Reported>, sends: seq<Made>, send: Call)
    requires Accounted(asked, told, sends)
    ensures TimesMade(sends, send, |sends|) <= TimesAsked(asked, send, |asked|)
  {
    NoSendIsAgain(asked, told, sends, send, |asked|, |sends|);
  }

  lemma {:induction false} ToldSentIsThere(
    asked: seq<ToolCall>, told: seq<Reported>, sends: seq<Made>, k: nat, n: nat, m: nat)
    returns (j: nat)
    requires n <= |asked| == |told| && m <= |sends| && Matched(asked, told, sends, n, m)
    requires k < n && AskedSend(asked[k]).Some? && told[k] == Text
    ensures j < m && sends[j] == Made(AskedSend(asked[k]).value, Some(Taken))
    decreases n
  {
    if k == n - 1 {
      j := m - 1;
    } else if Matched(asked, told, sends, n - 1, m) {
      j := ToldSentIsThere(asked, told, sends, k, n - 1, m);
    } else {
      j := ToldSentIsThere(asked, told, sends, k, n - 1, m - 1);
    }
  }

  /** The host is told that a send went only of one the daemon took. */
  lemma ToldSentWasTaken(asked: seq<ToolCall>, told: seq<Reported>, sends: seq<Made>, k: nat) returns (j: nat)
    requires Accounted(asked, told, sends) && k < |asked| && AskedSend(asked[k]).Some? && told[k] == Text
    ensures j < |sends| && sends[j] == Made(AskedSend(asked[k]).value, Some(Taken))
  {
    j := ToldSentIsThere(asked, told, sends, k, |asked|, |sends|);
  }
}
