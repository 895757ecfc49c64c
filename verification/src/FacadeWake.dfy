/** How the facade thread wakes the window (`out`, `take` and `close` in
    apps/human-desktop/src/facade_thread.rs): a bounded channel, one flag, and
    two threads whose atomic steps interleave in every way. */
module FacadeWake {

  datatype Message = Update(id: nat) | Closed

  /** Where the facade thread is in `out`. */
  datatype Sender =
    | Idle
    | Sending(message: Message)  // in `send`, waiting for room
    | Sent(last: bool)           // in the channel, the flag not yet swapped
    | Notifying(last: bool)      // the flag was clear: a wake is owed
    | Ended                      // the thread is over, its end dropped

  /** Where the window is. */
  datatype Window =
    | Away      // not looking
    | Turning   // a turn began; the flag is not yet cleared
    | Draining  // the flag cleared, taking what waits
    | Closing   // in `close`, taking until the end
    | Gone      // the receiver is dropped

  datatype State = State(
    capacity: nat,
    channel: seq<Message>,
    woken: bool,
    sender: Sender,
    window: Window,
    turns: nat,           // turns notified and not yet begun
    notifies: nat,
    takes: nat,
    sent: seq<Message>,   // everything that entered the channel
    taken: seq<Message>)  // everything that left it

  datatype Step =
    | BeginOut(message: Message)
    | Send
    | SendFails
    | Swap
    | Notify
    | NotifiedTurn
    | OwnTurn
    | Clear
    | Pop
    | EndTake
    | BeginClose
    | EndClose

  function Start(capacity: nat): State {
    State(capacity, [], false, Idle, Away, 0, 0, 0, [], [])
  }

  /** After `message` was handed over the thread goes on, or ends. */
  function After(last: bool): Sender {
    if last then Ended else Idle
  }

  predicate Receiving(s: State) {
    s.window == Draining || s.window == Closing
  }

  /** A channel of no capacity hands a message from a waiting sender straight
      to a receiver that asks for it. */
  predicate Rendezvous(s: State) {
    s.capacity == 0 && s.sender.Sending?
  }

  predicate Enabled(s: State, step: Step) {
    match step
    case BeginOut(_) => s.sender == Idle
    case Send => s.sender.Sending? && s.window != Gone && |s.channel| < s.capacity
    case SendFails => s.sender.Sending? && s.window == Gone
    case Swap => s.sender.Sent?
    case Notify => s.sender.Notifying?
    case NotifiedTurn => s.window == Away && s.turns > 0
    case OwnTurn => s.window == Away
    case Clear => s.window == Turning
    case Pop => Receiving(s) && (s.channel != [] || Rendezvous(s))
    case EndTake => s.window == Draining && s.channel == [] && !Rendezvous(s)
    case BeginClose => s.window == Away
    case EndClose => s.window == Closing
  }

  function Apply(s: State, step: Step): State
    requires Enabled(s, step)
  {
    match step
    case BeginOut(m) => s.(sender := Sending(m))
    case Send =>
      s.(channel := s.channel + [s.sender.message], sent := s.sent + [s.sender.message],
         sender := Sent(s.sender.message.Closed?))
    case SendFails => s.(sender := After(s.sender.message.Closed?))
    case Swap => s.(woken := true, sender := if s.woken then After(s.sender.last) else Notifying(s.sender.last))
    case Notify => s.(turns := s.turns + 1, notifies := s.notifies + 1, sender := After(s.sender.last))
    case NotifiedTurn => s.(turns := s.turns - 1, window := Turning)
    case OwnTurn => s.(window := Turning)
    case Clear => s.(woken := false, takes := s.takes + 1, window := Draining)
    case Pop =>
      if s.channel != [] then s.(channel := s.channel[1..], taken := s.taken + [s.channel[0]])
      else s.(sent := s.sent + [s.sender.message], taken := s.taken + [s.sender.message],
              sender := Sent(s.sender.message.Closed?))
    case EndTake => s.(window := Away)
    case BeginClose => s.(window := Closing)
    case EndClose => s.(window := Gone)
  }

  /** `t` is reached from `s` by `steps`, an interleaving of the threads. */
  predicate Reaches(s: State, steps: seq<Step>, t: State)
    decreases |steps|
  {
    if steps == [] then s == t
    else Enabled(s, steps[0]) && Reaches(Apply(s, steps[0]), steps[1..], t)
  }

  ghost predicate Reachable(capacity: nat, t: State) {
    exists steps :: Reaches(Start(capacity), steps, t)
  }

  /** The sender is between its send and the wake it may owe. */
  predicate InOut(s: State) {
    s.sender.Sent? || s.sender.Notifying?
  }

  /** The thread has sent its last message, or ended without one to tell. */
  predicate Finishing(s: State) {
    s.sender == Ended || (InOut(s) && s.sender.last)
  }

  predicate Inv(s: State) {
    // The channel is a bounded queue: nothing is lost or reordered.
    && |s.channel| <= s.capacity
    && s.sent == s.taken + s.channel
    // The flag is set only while a wake is on its way or a turn will clear it.
    && (s.woken ==> s.turns > 0 || s.sender.Notifying? || s.window != Away)
    && (s.woken && s.window == Draining ==> s.turns > 0 || s.sender.Notifying?)
    // What waits has a wake asked for it, or is about to, or will be taken.
    && (s.channel != [] ==> s.woken || s.sender.Sent? || s.window != Away)
    // `Closed` is the last thing sent, and the thread then ends.
    && (forall i :: 0 <= i < |s.sent| && s.sent[i].Closed? ==> i == |s.sent| - 1 && Finishing(s))
    && (Finishing(s) && InOut(s) ==> s.sent != [] && s.sent[|s.sent| - 1].Closed?)
    // Each wake after the first answers a take.
    && s.notifies + (if s.sender.Notifying? then 1 else 0) <= s.takes + (if s.woken then 1 else 0)
  }

  /** The sender's steps. */
  predicate OfSender(step: Step) {
    step.BeginOut? || step.Send? || step.SendFails? || step.Swap? || step.Notify?
  }

  lemma SenderStepKeepsInv(s: State, step: Step)
    requires Inv(s) && Enabled(s, step) && OfSender(step)
    ensures Inv(Apply(s, step))
  {
  }

  lemma WindowStepKeepsInv(s: State, step: Step)
    requires Inv(s) && Enabled(s, step) && !OfSender(step)
    ensures Inv(Apply(s, step))
  {
    if step.Pop? && s.channel != [] {
      assert s.taken + s.channel == (s.taken + [s.channel[0]]) + s.channel[1..];
    }
  }

  lemma StepKeepsInv(s: State, step: Step)
    requires Inv(s) && Enabled(s, step)
    ensures Inv(Apply(s, step))
  {
    if OfSender(step) {
      SenderStepKeepsInv(s, step);
    } else {
      WindowStepKeepsInv(s, step);
    }
  }

  lemma {:induction false} ReachableKeepsInv(s: State, steps: seq<Step>, t: State)
    requires Inv(s) && Reaches(s, steps, t)
    ensures Inv(t) && t.capacity == s.capacity
    decreases |steps|
  {
    if steps != [] {
      StepKeepsInv(s, steps[0]);
      ReachableKeepsInv(Apply(s, steps[0]), steps[1..], t);
    }
  }

  /** The messages handed to `out` over `steps`, in order. */
  ghost function HandedTo(steps: seq<Step>): seq<Message> {
    if steps == [] then []
    else (if steps[0].BeginOut? then [steps[0].message] else []) + HandedTo(steps[1..])
  }

  /** What is in `out`'s hands, not yet in the channel. */
  function InHand(s: State): seq<Message> {
    if s.sender.Sending? then [s.sender.message] else []
  }

  ghost function Times(steps: seq<Step>, step: Step): nat {
    if steps == [] then 0 else (if steps[0] == step then 1 else 0) + Times(steps[1..], step)
  }

  lemma {:induction false} RunCounts(s: State, steps: seq<Step>, t: State)
    requires Reaches(s, steps, t)
    ensures t.notifies == s.notifies + Times(steps, Notify) && t.takes == s.takes + Times(steps, Clear)
    decreases |steps|
  {
    if steps != [] {
      RunCounts(Apply(s, steps[0]), steps[1..], t);
    }
  }

  /** `handed` came to `out` before `s`: all of it is in the channel, through it
      or in hand, while there is a window to take it. */
  ghost predicate Delivered(s: State, handed: seq<Message>) {
    s.sent <= handed && (s.window != Gone ==> handed == s.sent + InHand(s))
  }

  lemma StepDelivers(s: State, step: Step, handed: seq<Message>)
    requires Inv(s) && Enabled(s, step) && Delivered(s, handed)
    ensures Delivered(Apply(s, step), handed + if step.BeginOut? then [step.message] else [])
  {
    assert handed + [] == handed;
  }

  lemma {:induction false} RunDelivers(s: State, steps: seq<Step>, t: State, handed: seq<Message>)
    requires Inv(s) && Reaches(s, steps, t) && Delivered(s, handed)
    ensures Delivered(t, handed + HandedTo(steps))
    decreases |steps|
  {
    if steps == [] {
      assert handed + [] == handed;
    } else {
      var first := if steps[0].BeginOut? then [steps[0].message] else [];
      StepKeepsInv(s, steps[0]);
      StepDelivers(s, steps[0], handed);
      RunDelivers(Apply(s, steps[0]), steps[1..], t, handed + first);
      assert handed + HandedTo(steps) == handed + first + HandedTo(steps[1..]);
    }
  }

  /** No lost wake, in any interleaving: whenever the window is away, the
      sender is not inside `out` past its send, and something waits, a
      notified turn is still outstanding. Wakes never exceed takes by more
      than one; what was handed to `out` is what the window took, then what
      waits, then what is being sent, and once the window is gone what was
      sent is the beginning of it; and once the window took `Closed` the
      thread has nothing left to send. */
  lemma NoLostWake(capacity: nat, steps: seq<Step>, t: State)
    requires Reaches(Start(capacity), steps, t)
    ensures t.window == Away && !InOut(t) && t.channel != [] ==> t.turns > 0
    ensures Times(steps, Notify) == t.notifies && Times(steps, Clear) == t.takes && t.notifies <= t.takes + 1
    ensures t.sent == t.taken + t.channel && |t.channel| <= t.capacity == capacity
    ensures t.window != Gone ==>
              HandedTo(steps) == t.taken + t.channel + if t.sender.Sending? then [t.sender.message] else []
    ensures t.sent <= HandedTo(steps)
    ensures Closed in t.taken ==> Finishing(t) && t.channel == []
  {
    ReachableKeepsInv(Start(capacity), steps, t);
    RunCounts(Start(capacity), steps, t);
    RunDelivers(Start(capacity), steps, t, []);
    assert [] + HandedTo(steps) == HandedTo(steps);
    if Closed in t.taken {
      var i :| 0 <= i < |t.taken| && t.taken[i] == Closed;
      assert t.sent[i] == Closed;
    }
  }

  /** The thread waits for room and nothing will make the window look. */
  predicate Stalled(s: State) {
    s.sender.Sending? && s.window == Away && |s.channel| == s.capacity && s.turns == 0
  }

  /** The backpressure never stalls the thread behind a window that was not
      asked to look -- exactly when the channel has room for a message at
      all. With none, a send waits for a turn that only a finished send would
      have notified. */
  lemma StallsOnlyWithoutCapacity(capacity: nat)
    ensures (forall t :: Reachable(capacity, t) ==> !Stalled(t)) <==> capacity >= 1
  {
    if capacity == 0 {
      var steps, t := [BeginOut(Closed)], Apply(Start(0), BeginOut(Closed));
      assert Reaches(t, steps[1..], t);
      assert Reaches(Start(0), steps, t);
      assert Reachable(capacity, t) && Stalled(t);
    } else {
      forall t | Reachable(capacity, t)
        ensures !Stalled(t)
      {
        var steps :| Reaches(Start(capacity), steps, t);
        NoLostWake(capacity, steps, t);
      }
    }
  }

  /** A thread waiting for room gets it from the window's own next steps: the
      turn it was notified of, or the close it is in. */
  lemma WaitingSenderIsServed(capacity: nat, steps: seq<Step>, t: State)
    requires Reaches(Start(capacity), steps, t) && capacity >= 1
    requires t.sender.Sending? && |t.channel| == capacity
    ensures t.window == Away ==>
              exists u :: Reaches(t, [NotifiedTurn, Clear, Pop, Send], u) && u.sent == t.sent + [t.sender.message]
    ensures t.window == Draining || t.window == Closing ==>
              exists u :: Reaches(t, [Pop, Send], u) && u.sent == t.sent + [t.sender.message]
  {
    NoLostWake(capacity, steps, t);
    if t.window == Away {
      var a := Apply(Apply(t, NotifiedTurn), Clear);
      var u := Apply(Apply(a, Pop), Send);
      assert Reaches(a, [Pop, Send], u) by { ReachesTwo(a, Pop, Send); }
      assert [NotifiedTurn, Clear, Pop, Send][1..] == [Clear, Pop, Send];
      assert [Clear, Pop, Send][1..] == [Pop, Send];
      assert Reaches(t, [NotifiedTurn, Clear, Pop, Send], u);
    } else if Receiving(t) {
      ReachesTwo(t, Pop, Send);
    }
  }

  lemma ReachesTwo(s: State, first: Step, second: Step)
    requires Enabled(s, first) && Enabled(Apply(s, first), second)
    ensures Reaches(s, [first, second], Apply(Apply(s, first), second))
  {
    assert [first, second][1..] == [second] && [second][1..] == [];
    assert Reaches(Apply(s, first), [second], Apply(Apply(s, first), second));
  }

  // -----------------------------------------------------------------
  // Each thread's own code, run through

  lemma ReachesOne(s: State, step: Step)
    requires Enabled(s, step)
    ensures Reaches(s, [step], Apply(s, step))
  {
    assert [step][1..] == [];
  }

  lemma {:induction false} ReachesOn(s: State, first: seq<Step>, t: State, second: seq<Step>, u: State)
    requires Reaches(s, first, t) && Reaches(t, second, u)
    ensures Reaches(s, first + second, u)
    decreases |first|
  {
    if first == [] {
      assert first + second == second;
    } else {
      ReachesOn(Apply(s, first[0]), first[1..], t, second, u);
      assert (first + second)[1..] == first[1..] + second;
    }
  }

  /** One `out` with room in the channel: the message is behind all before it,
      the flag is set, the window is notified exactly when it was clear, and the
      thread goes on, or ends with `Closed`. */
  lemma OutRuns(s: State, m: Message)
    requires s.sender == Idle && s.window != Gone && |s.channel| < s.capacity
    ensures var wakes := if s.woken then 0 else 1;
            Reaches(s, [BeginOut(m), Send, Swap] + (if s.woken then [] else [Notify]),
                    s.(channel := s.channel + [m], sent := s.sent + [m], woken := true,
                       turns := s.turns + wakes, notifies := s.notifies + wakes,
                       sender := if m.Closed? then Ended else Idle))
  {
    var a := Apply(Apply(s, BeginOut(m)), Send);
    ReachesTwo(s, BeginOut(m), Send);
    ReachesOne(a, Swap);
    ReachesOn(s, [BeginOut(m), Send], a, [Swap], Apply(a, Swap));
    assert [BeginOut(m), Send] + [Swap] == [BeginOut(m), Send, Swap];
    if s.woken {
      assert [BeginOut(m), Send, Swap] + [] == [BeginOut(m), Send, Swap];
    } else {
      ReachesOne(Apply(a, Swap), Notify);
      ReachesOn(s, [BeginOut(m), Send, Swap], Apply(a, Swap), [Notify], Apply(Apply(a, Swap), Notify));
    }
  }

  /** One `out` with the window gone: nothing to tell, and the thread goes on. */
  lemma OutFails(s: State, m: Message)
    requires s.sender == Idle && s.window == Gone
    ensures Reaches(s, [BeginOut(m), SendFails], s.(sender := if m.Closed? then Ended else Idle))
  {
    ReachesTwo(s, BeginOut(m), SendFails);
  }

  /** What a window that is taking may pop: what waits, oldest first, and from a
      channel of no capacity the message a sender waits with; and a `take` is
      over exactly when there is neither. */
  lemma PopTakes(s: State)
    requires Receiving(s)
    ensures s.channel != [] ==> Reaches(s, [Pop], s.(channel := s.channel[1..], taken := s.taken + [s.channel[0]]))
    ensures s.channel == [] && s.capacity == 0 && s.sender.Sending? ==>
              Reaches(s, [Pop], s.(sent := s.sent + [s.sender.message], taken := s.taken + [s.sender.message],
                                   sender := Sent(s.sender.message.Closed?)))
    ensures s.channel == [] && (s.capacity > 0 || !s.sender.Sending?) ==>
              !Enabled(s, Pop) && (s.window == Draining ==> Enabled(s, EndTake))
  {
    if Enabled(s, Pop) {
      ReachesOne(s, Pop);
    }
  }

  ghost function Pops(n: nat): seq<Step> {
    seq(n, _ => Pop)
  }

  lemma {:induction false} PopsRun(s: State)
    requires Receiving(s)
    ensures Reaches(s, Pops(|s.channel|), s.(channel := [], taken := s.taken + s.channel))
    decreases |s.channel|
  {
    if s.channel == [] {
      assert s.taken + [] == s.taken;
    } else {
      var t := Apply(s, Pop);
      PopsRun(t);
      ReachesOne(s, Pop);
      ReachesOn(s, [Pop], t, Pops(|t.channel|), t.(channel := [], taken := t.taken + t.channel));
      assert [Pop] + Pops(|t.channel|) == Pops(|s.channel|);
      assert t.taken + t.channel == s.taken + s.channel;
    }
  }

  lemma DrainRuns(s: State)
    requires s.window == Draining && !Rendezvous(s)
    ensures Reaches(s, Pops(|s.channel|) + [EndTake],
                    s.(channel := [], taken := s.taken + s.channel, window := Away))
  {
    var t := s.(channel := [], taken := s.taken + s.channel);
    PopsRun(s);
    ReachesOne(t, EndTake);
    ReachesOn(s, Pops(|s.channel|), t, [EndTake], Apply(t, EndTake));
  }

  /** One `take`, whether the window was notified or looks of itself: the flag
      is cleared first, all that waits is taken in order, and the window is away
      again. */
  lemma TakeRuns(s: State, turn: Step)
    requires s.window == Away && (turn == OwnTurn || (turn == NotifiedTurn && s.turns > 0)) && !Rendezvous(s)
    ensures Reaches(s, [turn, Clear] + (Pops(|s.channel|) + [EndTake]),
                    s.(channel := [], taken := s.taken + s.channel, woken := false, takes := s.takes + 1,
                       turns := if turn == OwnTurn then s.turns else s.turns - 1))
  {
    var t := s.(window := Draining, woken := false, takes := s.takes + 1,
                turns := if turn == OwnTurn then s.turns else s.turns - 1);
    ReachesTwo(s, turn, Clear);
    DrainRuns(t);
    ReachesOn(s, [turn, Clear], t, Pops(|s.channel|) + [EndTake],
              t.(channel := [], taken := t.taken + t.channel, window := Away));
  }

  /** A close takes what waits, and then the window is gone. */
  lemma CloseRuns(s: State)
    requires s.window == Away
    ensures Reaches(s, [BeginClose] + Pops(|s.channel|) + [EndClose],
                    s.(channel := [], taken := s.taken + s.channel, window := Gone))
  {
    var a := Apply(s, BeginClose);
    var b := a.(channel := [], taken := a.taken + a.channel);
    ReachesOne(s, BeginClose);
    PopsRun(a);
    ReachesOn(s, [BeginClose], a, Pops(|s.channel|), b);
    ReachesOne(b, EndClose);
    ReachesOn(s, [BeginClose] + Pops(|s.channel|), b, [EndClose], Apply(b, EndClose));
  }
}
