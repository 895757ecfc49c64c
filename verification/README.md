# InterWeave, verified

A Dafny model of the parts of InterWeave whose correctness is not visible in any one function: the Claude Channel
bridge, the desktop's facade thread, the local IPC v2 protocol with its server, and three algorithms of the tree
checks. `dafny verify dfyconfig.toml` checks all of it.

**The bridge** (`Bridge`, `BridgeSpec`, `CallBooks`, `EmitEvents`, `PullQueue`, `Backoff`, between `HostSide` and
`DataSession`). One loop serves a host while the daemon behind it comes and goes. The daemon answers as it likes
within its promises: join and leave are idempotent, a refusal changes nothing, a cancelled call may or may not have
landed, an ended session holds nothing, a new one starts empty. It keeps its own record, over all sessions, of the
calls that reached it with its answers, the events it gave, the joins and leaves it refused on a session still up, and
when it was asked for a session; the host keeps what it called, what it was told and what it was given. Over every run
of the loop, against those records:

- each channel with no outcome unknown is in the bridge's joined set exactly when the daemon holds its join;
- what the host wanted of a channel it did not name since is still wanted, or a session still up refused it since and
  the refusal is on show; with no call of the host, that is every channel;
- pull mode loses, repeats and reorders nothing;
- every send the daemon saw is one the host asked for, once and in order, and the host was told what the daemon
  answered; while an outcome is unknown nothing reaches the daemon but the joins and leaves that are pending;
- the daemon is asked for sessions at the backoff's pace: where each ask comes less than 30 s after the last, the m-th
  gap is at least the m-th wait, so at most seven such gaps follow each other.

**The facade thread** (`FacadeWake`). Two threads, a bounded channel and one flag, as interleaved atomic steps. No
wake is lost in any interleaving, and the thread cannot stall behind a window that was not asked to look, exactly
when the channel has room for a message at all.

**The local IPC v2 protocol.** Cursor paging over a list that changes between reads (`Paging`, `PageWalk`,
`PagedLists`); the length-prefixed stream under any chunking (`Framing`, `FrameReader`); authority, from the hello to
each admitted request (`Catalogue`, `Handshake`, `Admission`); events, where the server's filter and the client's
decoder agree at every minor (`Events`, `Numbering`, `EventPump`); and the server's connection, which answers each
request its client sent once however cancels, deadlines, panics and a client that does not read interleave
(`RequestBooks`, `OutboxQueue`, `KeepaliveClock`, `ServerConnection`).

**The tree checks.** base58btc in both directions (sections 3 and 4 of draft-msporny-base58-03) and the binary frame
layouts (`Positional`, `Base58`, `WireFrames`), the anchor disambiguator (`Anchors`), and the blanker of Rust comments
and literals (`CodeOnly`).

## How to read it

- What the code mutates is a class; its methods are proved against relations on values (`BridgeSpec`,
  `RequestBooks`, `Numbering`), and those relations compose over a run. Loops that serve for ever take their number of
  turns, or what is ready at each, as a parameter, so a claim about all of these is a claim about every prefix of a run.
- Where the environment chooses, the model leaves the choice open (`*`, `:|`): the daemon's answers, which arm of a
  loop is ready, the clock, the order in which a set is visited, whether a lane has room. What the environment did
  is recorded by the environment's own objects (`Daemon`, `Host`, `Client`, `Port`, `Lane`, `Socket`), so a claim
  about a run is not about what the code says of itself.
- Promises that turned out not to hold everywhere are stated with the exact condition: a direct message whose
  destination is present and empty has the frame of one with none (`WireFrames.DirectFrameIsOneToOne`,
  `WireFrames.EmptyDestinationIsLost`); a rendezvous channel stalls the facade thread
  (`FacadeWake.StallsOnlyWithoutCapacity`); the keepalive's documented threshold, `max_missed × interval +
  response_timeout`, holds exactly when the timeout is no longer than the interval or one miss closes
  (`KeepaliveClock.WedgedClient`), which the profile's validation ensures.
- `OUTBOX_LIMIT` is documented as a backstop. It is never reached: with the misses a profile allows, no more than 75
  frames can wait (`ServerConnection.Connection.OutboxIsBounded`).

## Model

| member | source | states |
|---|---|---|
| DataSession.Daemon.Open | apps/claude-channel/src/serve.rs:478-496 | the time it was asked and whether it refused are recorded; a session it gives is new, holds nothing and has the next epoch |
| DataSession.Session.Answered | apps/claude-channel/src/serve.rs:154-159 | any answer an honest daemon may give: a held channel's join and a free channel's leave are never refused, a refusal changes nothing, an ended session refuses; the call is recorded with its answer, and a refusal that left the session up |
| DataSession.Session.Cancelled | apps/claude-channel/src/serve.rs:154-159 | a cancelled call is recorded as made and unanswered, landed by now or never will, and touched no other channel |
| DataSession.Session.Events | crates/api/local-client-api/src/binding.rs:222-248 | at most `max` events, recorded as given, and the ask itself; with `max` 0 the end is told exactly when the session has ended |
| DataSession.Session.Ready | crates/api/local-client-api/src/binding.rs:250-262 | resolves once something waits or the session has ended, and fails only then, which is recorded |
| HostSide.NamedOn | apps/claude-channel/src/serve.rs:287-319 | the channels named over a run are those named in its parts |
| HostSide.DequeuedInPlace | apps/claude-channel/src/serve.rs:913-944 | what leaves the queue for the host keeps its place in the order of messages |
| HostSide.DeliveredAre | apps/claude-channel/src/serve.rs:925-944 | what is delivered is each converted item, in its place, and nothing else |
| HostSide.Host.Next | apps/claude-channel/src/serve.rs:304-308 | whatever the host calls next is recorded as asked |
| HostSide.Host.Tell | apps/claude-channel/src/serve.rs:304-308 | the answer to a call is recorded as told |
| HostSide.Host.Give | apps/claude-channel/src/serve.rs:945-957 | the answer to a `receive` is what was converted of what left the queue, and both are recorded |
| CallBooks.NoSendsAdded | apps/claude-channel/src/serve.rs:154-159 | a step that may only join and leave makes no send |
| CallBooks.AccountedCall | apps/claude-channel/src/serve.rs:645-689 | one call answered keeps the account of sends: one that went is told as answered, one that did not is told so |
| CallBooks.NoSendIsMadeAgain | apps/claude-channel/src/serve.rs:154-159 | under that account the daemon saw each send no more often than the host asked for it |
| CallBooks.ToldSentWasTaken | apps/claude-channel/src/serve.rs:799-826 | under it the host is told that a send went only of one the daemon took |
| PullQueue.Pull.constructor | apps/claude-channel/src/serve.rs:118-122 | no queue yet |
| PullQueue.Pull.Make | apps/claude-channel/src/serve.rs:497-503 | an empty queue whose bound is the session's, and at least one |
| PullQueue.Pull.Push | apps/claude-channel/src/serve.rs:134-143 | refused exactly when full, nothing evicted; the pause begins with the push that fills the queue and is not moved |
| PullQueue.Pull.Take | apps/claude-channel/src/serve.rs:145-151 | the oldest items, as many as asked for and held; what is left stays in order; the pause ends exactly when there is room |
| Backoff.DelayDoublesToItsCeiling | apps/claude-channel/src/serve.rs:204-208 | min(250·2^n ms, 30 s) for every attempt, the clamped shift never showing |
| Backoff.SaturationIsInvisible | apps/claude-channel/src/serve.rs:589-592 | the saturating 32-bit counter waits exactly as an unbounded doubling counter would |
| Backoff.PaceClosedForm | apps/claude-channel/src/serve.rs:204-208 | k waits take 250·(2^k − 1) ms up to seven and 30 s for each after |
| Backoff.Reconnect.Schedule | apps/claude-channel/src/serve.rs:589-592 | the next open is due after this attempt's wait, and the record of opens stays paced |
| Backoff.Reconnect.Open | apps/claude-channel/src/serve.rs:478-494 | an open that its wait allows keeps the record paced, and the times asked |
| Backoff.Reconnect.Opened | apps/claude-channel/src/serve.rs:567-572 | the session's start is recorded, the pace unchanged |
| Backoff.Reconnect.Lost | apps/claude-channel/src/serve.rs:581-592 | the backoff starts over exactly after a session that lived a whole ceiling |
| Backoff.OpensAfterTheirWaits | apps/claude-channel/src/serve.rs:204-221 | in any run, an open comes no sooner after the reset than all the waits before it take |
| Backoff.OpensKeepTheirDistance | apps/claude-channel/src/serve.rs:204-221 | after a lost session reset the backoff the k-th open is at least 250·(2^k − 1) ms later for k up to 7, and later opens at least 30 s apart |
| Backoff.StretchIsPaced | apps/claude-channel/src/serve.rs:204-221 | among the times asked, in any stretch each less than 30 s after the one before, the m-th gap is at least the m-th wait, and the next one where the stretch is not the first |
| Backoff.PressingIsShort | apps/claude-channel/src/serve.rs:204-221 | no more than seven gaps in a row are below 30 s |
| BridgeSpec.FaithfulCompose | apps/claude-channel/src/serve.rs:258-319 | keeping the host's intent composes over turns, each loss of it answered for by a refusal the daemon recorded in between |
| BridgeSpec.FaithfulSinceCompose | apps/claude-channel/src/serve.rs:258-319 | the same from one point of the host's calls to a later one, the channels named being those of the calls between |
| BridgeSpec.FoldedJoins | apps/claude-channel/src/serve.rs:507-520 | pending outcomes folded in, the joined set is the intent: joined plus pending joins less pending leaves |
| BridgeSpec.OpenIsFaithful | apps/claude-channel/src/serve.rs:507-577 | an open loses no intent however far its re-joins came; finished, every wanted channel is settled and none is both joined and shown refused |
| BridgeSpec.DyingOpenShowsBoth | apps/claude-channel/src/serve.rs:537-573 | an open cut off by its session shows a channel as joined and refused exactly when its re-join was still to come and it came in wanted with a refusal on show |
| BridgeSpec.DyingOpenMayShowBoth | apps/claude-channel/src/serve.rs:537-573 | such an account, from one that shows nothing wrong |
| BridgeSpec.ResolvingIsFaithful | apps/claude-channel/src/serve.rs:841-901 | a pass over pending outcomes loses no intent, and takes up no channel being left unless a session still up refused the leave |
| BridgeSpec.RowStep | apps/claude-channel/src/serve.rs:759-798 | one channel's row and the daemon's holding of it change together and the account still agrees and is consistent |
| BridgeSpec.MeantOwn | apps/claude-channel/src/serve.rs:287-319 | what the loop does of itself concerns no channel the host never named |
| BridgeSpec.MeantHost | apps/claude-channel/src/serve.rs:645-689 | and a call of the host concerns its own |
| EmitEvents.Emit.SessionOpened | apps/claude-channel/src/serve.rs:497-506 | a new epoch, the lease granted under it, and the queue made once, with what it holds kept |
| EmitEvents.Emit.Room | apps/claude-channel/src/serve.rs:351-357 | never more than the queue holds room for, and none exactly when paused |
| EmitEvents.Emit.Enqueue | apps/claude-channel/src/serve.rs:365-392 | within the room the queue never refuses; the item carries the lease held when it was taken |
| EmitEvents.Emit.Tell | apps/claude-channel/src/serve.rs:393-407 | in push mode a message becomes a line, or a word exactly when it cannot be converted, once and in order |
| EmitEvents.Emit.Observe | apps/claude-channel/src/serve.rs:366-377 | a revocation ends the lease it names and no other notice does |
| EmitEvents.Emit.Events | apps/claude-channel/src/serve.rs:365-411 | all of a batch is passed on or held: every message once, in order, queued in pull mode and told in push mode |
| EmitEvents.Emit.TakeWaiting | apps/claude-channel/src/serve.rs:436-443 | the session is asked for what waits unless the queue is full; whatever it gave is passed on or held, no more than fits is taken, and the end is reported only of an ended session |
| EmitEvents.Emit.Drain | apps/claude-channel/src/serve.rs:430-448 | while a call is in flight the session is asked for its events each time something waits, until it ends or the queue fills, and a full queue is reported |
| EmitEvents.Emit.Drive | apps/claude-channel/src/serve.rs:419-450 | a call reaches the daemon once and is answered, or cancelled only with the queue full; what the session gave meanwhile is passed on or held; a live session's joins are then what its answer or the advisory cancel allows |
| EmitEvents.Emit.Ask | apps/claude-channel/src/serve.rs:478-496 | the daemon is asked once, however long it takes, and what was taken stands |
| EmitEvents.Emit.Convert | apps/claude-channel/src/serve.rs:925-944 | each message that left the queue is an item of the answer exactly when it can be converted, or its refusal is said, in order |
| EmitEvents.Emit.Receive | apps/claude-channel/src/serve.rs:913-957 | the oldest of the queue leave it for the host, at most the asked number, defaulting to the bound; the host is told those that converted; what left the queue and the queue together are unchanged |
| Bridge.Bridge.constructor | apps/claude-channel/src/serve.rs:258-285 | the loop's invariants hold at its start |
| Bridge.Bridge.Ended | apps/claude-channel/src/serve.rs:457-461 | asks the session itself and is right about it |
| Bridge.Bridge.Joined | apps/claude-channel/src/serve.rs:760-772 | the channel is joined, with nothing pending and no refusal shown, and no other row changes |
| Bridge.Bridge.Left | apps/claude-channel/src/serve.rs:773-798 | the channel is left, its refusal row with it, and no other row changes |
| Bridge.Bridge.Refuse | apps/claude-channel/src/serve.rs:555-558 | only for a session still up whose refusal the daemon recorded: not joined, shown with its error, and no other row changes |
| Bridge.Bridge.Lost | apps/claude-channel/src/serve.rs:581-588 | no session and no lease, the account untouched, the pace continued or started over by how long the session lived |
| Bridge.Bridge.FoldPending | apps/claude-channel/src/serve.rs:507-520 | joined becomes the intent, nothing stays pending, a folded leave takes its refusal row |
| Bridge.Bridge.Rejoin | apps/claude-channel/src/serve.rs:538-566 | one re-join settles its channel as the daemon answered it, or the session ended and nothing changed |
| Bridge.Bridge.RejoinAll | apps/claude-channel/src/serve.rs:521-566 | every joined channel settled and the account agreeing with the daemon, or the session ended part-way with the rest untouched; the daemon was asked for nothing but joins of those channels |
| Bridge.Bridge.TakeUp | apps/claude-channel/src/serve.rs:507-566 | a session that survives leaves the account agreeing, consistent, and every wanted channel settled |
| Bridge.Bridge.Ask | apps/claude-channel/src/serve.rs:478-486 | the open its wait allowed is made and recorded, by the daemon and by the backoff alike |
| Bridge.Bridge.Retry | apps/claude-channel/src/serve.rs:487-493 | an open that came to nothing keeps its error, which is the daemon's own or that the session ended, and schedules exactly this attempt's wait |
| Bridge.Bridge.Keep | apps/claude-channel/src/serve.rs:574-577 | a session that took up the joins is held, the error gone, the pace as it was |
| Bridge.Bridge.Conclude | apps/claude-channel/src/serve.rs:567-577 | kept or given up, with the error and the pace of each |
| Bridge.Bridge.Claim | apps/claude-channel/src/serve.rs:478-506 | the daemon is asked once, at the time the backoff allowed, however long it takes: a fresh session that holds nothing and one more open on the pace, or the daemon's own error kept and a wait scheduled after it |
| Bridge.Bridge.Settle | apps/claude-channel/src/serve.rs:507-577 | the session is kept exactly when the re-joins did not end it, with no intent lost; if it ended, one more wait is scheduled and the backoff does not start over; the daemon was asked for nothing but joins of channels wanted |
| Bridge.Bridge.Open | apps/claude-channel/src/serve.rs:478-578 | one open, at the head again: invariants, no intent lost, every wanted channel settled if a session is held, the error shown exactly when none is; one more open on the pace, with a wait after it exactly when there is no session |
| Bridge.Bridge.Pump | apps/claude-channel/src/serve.rs:595-626 | the session is asked for what waits, what it gave is passed on or held, the account is untouched, and the session is given up exactly when it answered with its end, the pace then as for any loss |
| Bridge.Bridge.Woken | apps/claude-channel/src/serve.rs:310-317 | a session that is ready is asked for its events; it is given up exactly when it answered with its end |
| Bridge.Bridge.Driven | apps/claude-channel/src/serve.rs:419-450 | a call on the session reaches the daemon once and is answered, or cancelled only with the queue full |
| Bridge.Bridge.Tried | apps/claude-channel/src/serve.rs:457-461 | and a refusal is told apart from the session's end |
| Bridge.Bridge.NoteJoin | apps/claude-channel/src/serve.rs:760-772 | the row each answer to a join leaves, and what is told of it |
| Bridge.Bridge.NoteLeave | apps/claude-channel/src/serve.rs:773-798 | the row each answer to a leave leaves, a session's end taking the join with it |
| Bridge.Bridge.RunJoin | apps/claude-channel/src/serve.rs:760-772 | a join's three outcomes, each with the exact row it leaves, agreeing with the daemon, and told as the daemon answered |
| Bridge.Bridge.RunLeave | apps/claude-channel/src/serve.rs:773-798 | a leave's three outcomes; one a live daemon refused stays joined, one that ended with its session is left |
| Bridge.Bridge.RunOther | apps/claude-channel/src/serve.rs:799-826 | the send or the publish reaches the daemon as it is, once, changes no row, and is told as the daemon answered it |
| Bridge.Bridge.RunAbsent | apps/claude-channel/src/serve.rs:691-751 | without a session a leave is taken at once and anything else fails with the endpoint's refusal or `BackendUnavailable` |
| Bridge.Bridge.EarlierDirectTokenIsStale | apps/claude-channel/src/serve.rs:713-732 | a direct message taken before the current session opened is never replied to on its token |
| Bridge.ActedKeepsTheBooks | apps/claude-channel/src/serve.rs:691-834 | what became of a call keeps the account of sends, and concerns no channel but the one it names |
| Bridge.Bridge.Reissue | apps/claude-channel/src/serve.rs:841-901 | one pending outcome answered, cancelled again with the queue full, or cut off by the session's end, which changes nothing |
| Bridge.Bridge.NoteReissue | apps/claude-channel/src/serve.rs:870-898 | an outcome still unknown, or a session's end, changes no row |
| Bridge.Bridge.Resolved | apps/claude-channel/src/serve.rs:880-898 | the row each of the four answers leaves, a refusal being one the daemon recorded on a session still up |
| Bridge.Bridge.ResolvePending | apps/claude-channel/src/serve.rs:841-901 | one pass empties pending, ends with the session, or leaves the queue full; the daemon was asked for nothing but what was pending |
| Bridge.Bridge.RunBound | apps/claude-channel/src/serve.rs:752-827 | the call reaches the daemon as it is, and what the host is told is the answer to a send, and of a join or leave what became of its row |
| Bridge.Bridge.Run | apps/claude-channel/src/serve.rs:698-834 | the same with or without a session |
| Bridge.Bridge.RunReceive | apps/claude-channel/src/serve.rs:709-712 | the host is told what was converted of what left the queue, session or none |
| Bridge.Bridge.Perform | apps/claude-channel/src/serve.rs:668-834 | what becomes of a call that is no `receive`: what it means, by its own words and the lease and joins held, is made once on the session there is; a reply's token decides its peer or its channel; a full queue, a token that does not stand and an absent session are each told as themselves |
| Bridge.Bridge.HostCall | apps/claude-channel/src/serve.rs:645-834 | the same of every call: a send that went is told as the daemon answered it; only the named channel's row may change, as told |
| Bridge.Bridge.Resolve | apps/claude-channel/src/serve.rs:287-300 | the loop-head guard cannot spin: afterwards nothing is owed |
| Bridge.Bridge.Exchange | apps/claude-channel/src/serve.rs:303-308 | the host's next call is recorded, answered and told once, and the account of sends is kept |
| Bridge.Bridge.OwnArm | apps/claude-channel/src/serve.rs:287-318 | what the loop does of itself: unknown outcomes first; without a session the daemon is asked for one as soon as the wait is over; with one and room the session is asked for its events; intent kept, the daemon asked for nothing but what is pending or, on a new session, wanted; the pace moved by a loss or an open and by nothing else; and then nothing is owed |
| Bridge.Bridge.OwnCallsAreMeant | apps/claude-channel/src/serve.rs:287-318 | and the account of sends and of channels named is kept |
| Bridge.Bridge.Turn | apps/claude-channel/src/serve.rs:287-319 | the host is heard whenever a line of it is ready and no outcome is unknown; every turn keeps the loop's invariants and the intent of channels its call, if it was the host's, did not name; what it adds to the daemon's calls is what the host's call means or what the loop may ask of itself, and with outcomes unknown only those pending; a session is sought when due, asked for its events, and given up only once ended |
| Bridge.Bridge.Serve | apps/claude-channel/src/serve.rs:258-319 | over any run, with any time between turns: joins agree with the daemon, no channel both joined and shown refused under a session, all the daemon gave passed on or held, intent of channels not named in the host's calls since kept but for recorded refusals, and of every channel if it made none; the sends the daemon saw are the host's; the daemon asked at the backoff's pace; the host heard at no less than every other turn at which it was ready |
| Bridge.Bridge.NothingIsLost | apps/claude-channel/src/serve.rs:347-392 | in pull mode what left the queue for the host followed by the queue is every message the daemon gave over all sessions, in order; of what left it exactly what can be converted is an item; no line was written; paused exactly while full |
| Bridge.Bridge.EveryMessageIsTold | apps/claude-channel/src/serve.rs:393-411 | in push mode every message the daemon gave over all sessions, in order, became a line, or a word exactly when it cannot be converted |
| Bridge.Bridge.JoinsAreTheDaemons | apps/claude-channel/src/serve.rs:478-578 | at every head, on a session that is up, a channel with no outcome unknown is joined exactly when the daemon holds it, and never also shown refused |
| Bridge.Bridge.DaemonIsAskedAtItsPace | apps/claude-channel/src/serve.rs:204-221 | since a lost session reset the backoff, the daemon's own record of when it was asked for sessions keeps the backoff's distances |
| Bridge.Bridge.DaemonIsNeverPressed | apps/claude-channel/src/serve.rs:204-221 | on the daemon's record alone, whatever became of its sessions: in any stretch of asks each less than 30 s after the last the m-th gap is at least the m-th wait, and there are at most seven |
| Bridge.Bridge.AbsenceIsTheDaemons | apps/claude-channel/src/serve.rs:691-696 | without a session the host is told one of four refusals of the endpoint exactly when that was the daemon's answer to the last open, and `BackendUnavailable` otherwise |
| Bridge.Bridge.OnlyNamedChannelsAreAsked | apps/claude-channel/src/serve.rs:287-319 | the daemon was asked to join or leave no channel but one the host named |
| Bridge.Bridge.NoSendIsTheBridges | apps/claude-channel/src/serve.rs:154-159 | the daemon saw no send more often than the host asked for it: none is the bridge's own and none is re-issued |
| FacadeWake.StepKeepsInv | apps/human-desktop/src/facade_thread.rs:129-156 | every atomic step of either thread keeps the protocol's invariant |
| FacadeWake.NoLostWake | apps/human-desktop/src/facade_thread.rs:142-156 | in every interleaving what waits has a turn outstanding and notifies never exceed takes plus one; what was handed to `out` is what the window took, what waits and what is being sent, in order, and once the window is gone what was sent is the beginning of it; `Closed` is last |
| FacadeWake.StallsOnlyWithoutCapacity | apps/human-desktop/src/facade_thread.rs:118-156 | no reachable state stalls the thread exactly when the capacity is at least one |
| FacadeWake.WaitingSenderIsServed | apps/human-desktop/src/facade_thread.rs:253-283 | a thread waiting for room gets it from the window's own next turn or from the close it is in |
| FacadeWake.OutRuns | apps/human-desktop/src/facade_thread.rs:142-156 | one `out` with room: the message behind all before it, the flag set, a notify exactly when it was clear |
| FacadeWake.OutFails | apps/human-desktop/src/facade_thread.rs:142-149 | one `out` with the window gone: nothing is told and the thread goes on |
| FacadeWake.TakeRuns | apps/human-desktop/src/facade_thread.rs:250-256 | one `take`: the flag cleared, all that waits taken in order |
| FacadeWake.PopTakes | apps/human-desktop/src/facade_thread.rs:250-256 | the window takes the oldest that waits, or from a rendezvous channel what a sender waits with, and is done exactly when there is neither |
| FacadeWake.CloseRuns | apps/human-desktop/src/facade_thread.rs:253-283 | a close takes what waits before the window is gone |
| PeerOrder.Total | crates/api/ipc-protocol/src/result.rs:417-424 | any two peers are ordered one way or equal |
| PeerOrder.FirstDifferenceDecides | crates/api/ipc-protocol/src/result.rs:417-424 | the first character that differs decides, the lower code first, and a prefix comes before what it begins |
| Paging.SortIsStable | crates/api/ipc-protocol/src/result.rs:418-421 | the sort orders the rows, keeps each of them, and leaves each peer's first row first |
| Paging.Dedup | crates/api/ipc-protocol/src/result.rs:421-422 | strictly ascending, saying of each peer what the listing said |
| Paging.Filter | crates/api/ipc-protocol/src/result.rs:423-426 | exactly the rows past the cursor, a tail of the ordered list |
| Paging.TakePage | crates/api/ipc-protocol/src/result.rs:417-451 | only listed rows past the cursor, none skipped, `next` exactly when more remain and then a full page |
| PagedLists.TrustRowAt | crates/api/ipc-protocol/src/result.rs:648-686 | a source on a persisted row and on no other, neither below minor 3 |
| PagedLists.TrustPage | crates/api/ipc-protocol/src/result.rs:405-482 | the page of the allowlist in the shape its minor negotiated, the local peer on the first only, passing the reader's own checks |
| PagedLists.PeerPage | crates/api/ipc-protocol/src/result.rs:503-554 | the page of the dial gate, passing the reader's own checks |
| PageWalk.WalkAscends | crates/api/ipc-protocol/src/result.rs:405-451 | everything read over changing views is strictly ascending overall |
| PageWalk.WalkInventsNone | crates/api/ipc-protocol/src/result.rs:405-451 | each row read is what the view of its own read said |
| PageWalk.WalkIsComplete | crates/api/ipc-protocol/src/result.rs:405-451 | once the pages end, a peer listed in every view read was read exactly once |
| PageWalk.WalkIsShort | crates/api/ipc-protocol/src/result.rs:405-451 | for a finite universe U a walk ends within (size of U) / max + 1 pages |
| Framing.EncodedDecodes | crates/api/ipc-protocol/src/framing.rs:107-203 | decoding inverts encoding whatever bytes follow, consuming exactly the frame |
| Framing.DecodedEncodes | crates/api/ipc-protocol/src/framing.rs:157-203 | what decodes is the encoding of its body: a body has one frame |
| Framing.SettledIsStable | crates/api/ipc-protocol/src/framing.rs:157-203 | a success and every error but incompleteness are unchanged by more bytes |
| Framing.NeededIsExact | crates/api/ipc-protocol/src/framing.rs:157-203 | `needed` never reaches past the current frame, and the buffer stays incomplete until it arrives |
| Framing.FramesAre | crates/api/ipc-protocol/src/framing.rs:107-137 | a body is framed exactly when it is an object of 1 to 131072 bytes, behind the four big-endian bytes of its length; any other gets its own error, its length judged first |
| Framing.FramesAreJudged | crates/api/ipc-protocol/src/framing.rs:157-203 | what each declared length and each body on the wire decodes to |
| Framing.StreamRoundTrips | crates/api/ipc-protocol/src/framing.rs:107-203 | the concatenated frames of any bodies decode to those bodies and then to what follows |
| FrameReader.Reader.Next | crates/local/ipc-server/src/frames.rs:51-79 | under any chunking the next body, the end, the truncation or the violation is the stream's own; it fails only with the socket |
| FrameReader.Reader.ReadAll | crates/local/ipc-server/src/frames.rs:34-79 | repeated reads give the stream's bodies in order and its ending |
| FrameReader.ReadBack | crates/local/ipc-server/src/frames.rs:34-79 | what was written is read back, all of it, whatever the chunks |
| Catalogue.SaturationIsInvisible | crates/api/ipc-protocol/src/version.rs:28-76 | saturating a version to 64 bits changes no negotiation |
| Catalogue.SidesAreApart | crates/api/ipc-protocol/src/handshake.rs:187-211 | a capability maps to a data grant or an admin grant, never both, and to its own |
| Catalogue.TableIsCoherent | crates/api/ipc-protocol/src/catalogue.rs:105-134 | a method's capability is of its own socket and never newer than the method |
| Catalogue.ParseInvertsName | crates/api/ipc-protocol/src/catalogue.rs:138-162 | a wire name parses to a method exactly when it is that method's name |
| Catalogue.TableIsTheNames | crates/api/ipc-protocol/src/catalogue.rs:105-162 | a method's capability and minor are those under which its wire name is listed, capability by capability |
| Handshake.EvaluateGrantsAllOrNothing | crates/api/ipc-protocol/src/handshake.rs:441-538 | accepted exactly within bounds, of one side and with an allowed claim; then granted exactly what it named, the other side's grants empty |
| Handshake.EvaluateNamesTheFault | crates/api/ipc-protocol/src/handshake.rs:441-538 | which of the three errors a refused hello gets |
| Handshake.LabelsDecideNothing | crates/api/ipc-protocol/src/handshake.rs:441-538 | hellos that differ in a legal client kind or version string get the same outcome |
| Handshake.ConnectionHoldsOnlyWhatItNamed | crates/local/ipc-server/src/hello.rs:158-250 | behind any narrowing binding a connection holds only capabilities its hello named, of its socket, at a minor both speak; the other side's grants are empty |
| Handshake.HelloIsRefused | crates/local/ipc-server/src/hello.rs:162-184 | another major, then trust below its minor, then the hello's own fault |
| Handshake.BindingIsAskedWhatTheHelloSays | crates/local/ipc-server/src/hello.rs:185-250 | what is behind the server is asked under the client's kind and endpoint for exactly the capabilities it named, and its answer is what the connection holds |
| Admission.AdmitDecides | crates/api/ipc-protocol/src/request.rs:441-458 | a named method is admitted exactly when known at the minor, of the socket, granted and its params read; each refusal exactly when its check is the first to fail |
| Admission.UnnamedIsUnsupported | crates/api/ipc-protocol/src/request.rs:441-458 | a name outside the catalogue is `Unsupported` |
| Admission.ParamsDecideNothingUnauthorised | crates/api/ipc-protocol/src/request.rs:433-458 | without the authority, requests that differ in params get the same refusal, never one about params |
| Admission.Answers | crates/local/ipc-server/src/connection.rs:359-388 | each request of a run is judged against the same connection |
| Admission.AdmittedIsWarranted | crates/local/ipc-server/src/connection.rs:359-388 | over any run of requests after any hello, an admitted method's capability was named, its domain is the socket's, its minor at most min(client, server) |
| Admission.WarrantedIsAdmitted | crates/api/ipc-protocol/src/request.rs:441-458 | and conversely, where policy takes nothing away |
| Admission.AdmittedByName | crates/api/ipc-protocol/src/request.rs:441-458 | by wire name: only names listed under the capabilities the hello named, at the minor both speak, are admitted, and all of them where policy takes nothing away |
| Admission.OneCapabilityAdmits | crates/api/ipc-protocol/src/catalogue.rs:105-134 | a hello that names one capability is admitted exactly to that capability's names |
| Admission.NewerLosesNothing | crates/api/ipc-protocol/src/version.rs:5-12 | minors are additive: raising the client's minor keeps the connection, its grants and every admitted request |
| Events.ParseInvertsTypeName | crates/api/ipc-protocol/src/event.rs:108-126 | an event type's name parses to it and to nothing else |
| Events.TypedInvertsBody | crates/api/ipc-protocol/src/event.rs:363-453 | a body is read back as its event, exactly when its identifiers are of their grammars, its numbers of 64 bits and its reason class legal |
| Events.BodyInvertsTyped | crates/api/ipc-protocol/src/event.rs:363-395 | nothing but an event's own body is read: no unknown, missing or mistyped field |
| Events.FilterAgreesWithDecode | crates/api/ipc-protocol/src/event.rs:59-71 | at every minor the server's filter admits an event exactly when the client accepts its frame, and the client recovers the session's event |
| Events.DecodeAcceptsOnlyWhatIsSent | crates/api/ipc-protocol/src/event.rs:363-395 | every frame a client accepts is the frame of an event the runtime's types allow and a server would send it |
| Events.AvailableByMinor | crates/api/ipc-protocol/src/event.rs:48-71 | path changes from minor 1, those that begin a route from 4, everything else always |
| Events.AcceptedByName | crates/api/ipc-protocol/src/event.rs:363-395 | an accepted frame comes under its event's own name, with a reason of 1 to 128 characters and a time of 64 bits |
| Events.UncarriedIsAReason | crates/api/ipc-protocol/src/event.rs:398-453 | an event is owed and not carried exactly for a reason that is empty or too long |
| Numbering.ReaderReadsWhatWasKept | crates/local/ipc-server/src/connection.rs:501-556 | the frames written are read as the events carried, in order, none lost, repeated or added |
| Numbering.NumbersCountRefusals | crates/local/ipc-server/src/connection.rs:526-550 | a frame's number is the frames and refusals before it modulo 2^64: skipped events leave no gap, refused ones do |
| Numbering.Lane.Skip | crates/local/ipc-server/src/connection.rs:526-537 | an event not owed leaves no trace |
| Numbering.Lane.Refuse | crates/local/ipc-server/src/connection.rs:538-547 | an event owed and not carried takes a number and writes nothing |
| Numbering.Lane.Write | crates/local/ipc-server/src/connection.rs:548-554 | an event carried is written once under the next number |
| EventPump.TurnFor | crates/local/ipc-server/src/connection.rs:526-547 | skipped exactly when not owed, refused exactly when owed and not carried |
| EventPump.Take | crates/local/ipc-server/src/connection.rs:526-554 | one event of a batch keeps the lane's account of the run |
| EventPump.Pump | crates/local/ipc-server/src/connection.rs:501-556 | a batch within the reserved slots is taken whole, every frame finding a slot |
| EventPump.ClientReadsItsRun | crates/local/ipc-server/src/connection.rs:501-556 | each frame on a lane decodes, at the client's version, to the next event of the session's run that is its to see |
| RequestBooks.Ended | crates/local/ipc-server/src/connection.rs:307-323 | a finished task leaves its request owed an answer exactly when nothing answered it before |
| RequestBooks.Promoted | crates/local/ipc-server/src/connection.rs:491-498 | handing over the first that waits keeps the balance of asked, answered, owed and outstanding |
| RequestBooks.Dropped | crates/local/ipc-server/src/connection.rs:401-408 | dropping one that waits moves it from outstanding to owed |
| RequestBooks.Settled | crates/local/ipc-server/src/connection.rs:409-416 | answering one in flight early moves it from outstanding to owed |
| OutboxQueue.Outbox.Push | crates/local/ipc-server/src/connection.rs:287-298 | a frame enters the lane or the outbox behind all before it; the limit ends the connection only when already full, and it is gone only once the lane is shut |
| OutboxQueue.Outbox.Drain | crates/local/ipc-server/src/connection.rs:243-251 | what waited longest is handed to the writer first, and nothing else changes, unless the lane is shut |
| KeepaliveClock.Keepalive.constructor | crates/local/ipc-server/src/keepalive.rs:44-51 | nothing outstanding, the first probe an interval away |
| KeepaliveClock.Keepalive.Wake | crates/local/ipc-server/src/keepalive.rs:62-80 | what the clock says of the time: one probe at a time; a miss exactly when its answer is late; a close exactly at the last miss allowed; each probe's nonce kept |
| KeepaliveClock.Keepalive.Pong | crates/local/ipc-server/src/keepalive.rs:84-93 | the current nonce clears the misses and no other changes anything |
| KeepaliveClock.WedgedClient | crates/local/ipc-server/src/keepalive.rs:36-93 | when a client that satisfies no probe is closed, exactly, and when that is the documented threshold |
| ServerConnection.Connection.constructor | crates/local/ipc-server/src/connection.rs:145-158 | the accounts balance at the start; the misses allowed are the profile's (crates/config/profile-config/src/ipc.rs:122) |
| ServerConnection.Connection.Respond | crates/local/ipc-server/src/connection.rs:300-302 | an answer owed is pushed once, and never meets the outbox's limit |
| ServerConnection.Connection.Ask | crates/local/ipc-server/src/connection.rs:341-399 | a reused id still awaited ends the connection; an id the port still works on is `InvalidArgument`; what is not admitted gets its own code; an admitted request is handed to the port at once below 16, waits last below 48 more, and is `Overloaded` past that |
| ServerConnection.Connection.Cancel | crates/local/ipc-server/src/connection.rs:401-421 | one waiting is dropped and answered `CancelledBeforeDispatch`, one in flight `CancellationRaced`, any other id changes nothing |
| ServerConnection.Connection.Finished | crates/local/ipc-server/src/connection.rs:307-323 | the answer the port gave, or `Internal` for a panic, goes out unless the request was answered before |
| ServerConnection.Connection.Promote | crates/local/ipc-server/src/connection.rs:491-498 | first come, first handed over, until no room is left or nothing waits |
| ServerConnection.Connection.Finish | crates/local/ipc-server/src/connection.rs:257-261 | a task that ended is released, told, and replaced by those that waited longest |
| ServerConnection.Connection.Expire | crates/local/ipc-server/src/connection.rs:467-488 | exactly late requests are answered `Timeout`; none is awaited past its deadline after |
| ServerConnection.Connection.Deadline | crates/local/ipc-server/src/connection.rs:631-635 | the time the client asked for, or the profile's, held between one second and a minute |
| ServerConnection.Connection.Wake | crates/local/ipc-server/src/connection.rs:264-268 | a probe with its nonce joins the outbox exactly when the clock says one goes out, and the connection closes with `Timeout` exactly when it says so |
| ServerConnection.Connection.SendProbe | crates/local/ipc-server/src/connection.rs:264-268 | the probe is pushed once, behind all before it, and the log holds every probe the clock asked for |
| ServerConnection.Connection.Take | crates/local/ipc-server/src/connection.rs:252-256 | a request read from the client is owed an answer from then on; a stream that ended is recorded so |
| ServerConnection.Connection.Handle | crates/local/ipc-server/src/connection.rs:326-339 | each frame of the client has its effect: a request asked under its clamped deadline, a cancelled one awaited no longer, an echo satisfying its probe, anything else the end |
| ServerConnection.Connection.Read | crates/local/ipc-server/src/connection.rs:252-256 | a frame read leaves the accounts balanced against all the client sent |
| ServerConnection.Connection.Turn | crates/local/ipc-server/src/connection.rs:242-284 | each arm does its own: the longest waiting frame is written, a frame read and handled, an ended task released and told, late requests timed out, a probe sent or the connection closed by the clock; the accounts balance again, every probe the clock asked for is in the log, and it is given up only once its client or its writer was |
| ServerConnection.Connection.Serve | crates/local/ipc-server/src/connection.rs:222-285 | over any run, on whichever arms are ready; told to stop, it ends |
| ServerConnection.Connection.EachIsAnsweredOnce | crates/local/ipc-server/src/connection.rs:178-205 | at every turn each request the client sent has been answered exactly once or is awaited |
| ServerConnection.Connection.OutboxIsBounded | crates/local/ipc-server/src/connection.rs:64-72 | at most 75 frames ever wait, below the limit of 80 |
| Base58.TextIsUnique | tools/checks/verify_fixture_vectors.py:263-274 | one text spells a byte string |
| Base58.DataIsUnique | tools/checks/verify_fixture_vectors.py:317-334 | one byte string is spelt by a text |
| Base58.WidthIsExact | tools/checks/verify_fixture_vectors.py:331 | the width computed from the bit length is the number of base-256 digits |
| Base58.Encode | tools/checks/verify_fixture_vectors.py:263-274 | the text writes the same number with as many leading zero digits as there are zero bytes |
| Base58.Decode | tools/checks/verify_fixture_vectors.py:317-334 | refused exactly on a character outside the alphabet, naming the first; otherwise the bytes the text spells |
| Base58.AlphabetIsOne | tools/checks/verify_fixture_vectors.py:264 | the alphabet is 58 different characters with '1' as zero |
| Base58.AlphabetIsLegible | tools/checks/verify_fixture_vectors.py:264 | the alphabet is the digits and letters in the order of their codes, without 0, O, I and l |
| Base58.DecodeOfEncode | tools/checks/verify_fixture_vectors.py:263-334 | decoding inverts encoding for every byte string |
| Base58.EncodeOfDecode | tools/checks/verify_fixture_vectors.py:263-334 | encoding inverts decoding for every text over the alphabet |
| WireFrames.EncodeAscii | tools/checks/verify_fixture_vectors.py:89 | strict: the bytes of an ASCII text, and nothing for any other |
| WireFrames.AppendEnding | tools/checks/verify_fixture_vectors.py:126-133 | media and payload fields appended, each refusal exactly for its own fault |
| WireFrames.EncodeDirect | tools/checks/verify_fixture_vectors.py:100-143 | a frame exactly for a vector without faults, and otherwise the first fault there is |
| WireFrames.DirectFramesPeel | tools/checks/verify_fixture_vectors.py:100-143 | whatever follows them, two frames read alike exactly when they carry one message and end together |
| WireFrames.DirectFrameIsOneToOne | tools/checks/verify_fixture_vectors.py:120-124 | two different vectors share a frame exactly through an empty destination against none |
| WireFrames.EmptyDestinationIsLost | tools/checks/verify_fixture_vectors.py:120-124 | the two vectors that show it |
| WireFrames.DirectFramesAreNotPrefixes | tools/checks/verify_fixture_vectors.py:100-143 | no frame is a proper prefix of another |
| WireFrames.DirectFrameLength | tools/checks/verify_fixture_vectors.py:135-142 | the length that the stored `frame_len` is held to |
| WireFrames.DirectLayout | tools/checks/verify_fixture_vectors.py:100-143 | what stands at each offset of a direct frame |
| WireFrames.EncodeBroadcast | tools/checks/verify_fixture_vectors.py:216-260 | an envelope exactly for a vector without faults, and otherwise the first fault there is |
| WireFrames.BroadcastLayout | tools/checks/verify_fixture_vectors.py:216-260 | what stands at each offset of an envelope |
| WireFrames.BroadcastFramesPeel | tools/checks/verify_fixture_vectors.py:231-253 | whatever follows them, two envelopes read alike exactly when they carry one message and end together |
| WireFrames.BroadcastFramesAreNotPrefixes | tools/checks/verify_fixture_vectors.py:231-253 | no envelope is a proper prefix of another |
| WireFrames.EncodePrehash | tools/checks/verify_fixture_vectors.py:81-97 | the buffer under a fingerprint, each refusal exactly for its own fault |
| WireFrames.PrehashLayout | tools/checks/verify_fixture_vectors.py:78-97 | the domain text and what stands at each offset behind it |
| WireFrames.PrehashesPeel | tools/checks/verify_fixture_vectors.py:81-97 | two buffers read alike, whatever follows, exactly for one content |
| Anchors.CandidatesDiffer | tools/checks/check_docs_integrity.py:175-181 | no two suffixes of a slug read alike |
| Anchors.CandidateReads | tools/checks/check_docs_integrity.py:177-181 | the slug, or the slug, a hyphen and the number in decimal |
| Anchors.RuleIsUnique | tools/checks/check_docs_integrity.py:153-172 | the smallest-free-suffix rule leaves no choice |
| Anchors.RuleGivesDistinctIds | tools/checks/check_docs_integrity.py:153-172 | under the rule no two headings share an id |
| Anchors.Disambiguate | tools/checks/check_docs_integrity.py:177-181 | the search from the remembered counter ends, at the smallest suffix free of all ids emitted |
| Anchors.AnchorIds | tools/checks/check_docs_integrity.py:173-184 | the ids are exactly those of the rule, one for each heading |
| CodeOnly.FitsAlone | tools/checks/check_security_matrix.py:79-128 | one lexical piece fits at each place of the source |
| CodeOnly.PairStands | tools/checks/check_security_matrix.py:92-104 | a comment mark stands exactly where its two characters do, at the end of the source too |
| CodeOnly.RawOpens | tools/checks/check_security_matrix.py:76 | a raw string opens exactly at r, br or cr, hashes and a quote |
| CodeOnly.RawStands | tools/checks/check_security_matrix.py:105 | and is read as one exactly when it does not stand in the middle of a word |
| CodeOnly.CharacterStands | tools/checks/check_security_matrix.py:75 | a character literal stands exactly where its pattern matches, and is as long |
| CodeOnly.WhatIsLeft | tools/checks/check_security_matrix.py:92-126 | literals leave their quotes and line breaks, comments blanks, comment marks nothing |
| CodeOnly.OneReading | tools/checks/check_security_matrix.py:79-128 | a source has one reading as pieces |
| CodeOnly.PieceKeepsLines | tools/checks/check_security_matrix.py:92-126 | a piece leaves as many line breaks as it spans |
| CodeOnly.LinesKept | tools/checks/check_security_matrix.py:88-128 | at every loop head the output holds as many line breaks as the source read |
| CodeOnly.CodeKeepsItsLine | tools/checks/check_security_matrix.py:79-85 | every character of code is in the output, on the line it was on |
| CodeOnly.OnlyCodeIsKept | tools/checks/check_security_matrix.py:79-85 | but for blanks, empty quotes and line breaks every character of the output is one of code |
| CodeOnly.StringEnd | tools/checks/check_security_matrix.py:113-118 | the scan stops at the first quote that an even run of backslashes precedes, or at the end |
| CodeOnly.RawEnd | tools/checks/check_security_matrix.py:106-112 | a raw string ends past the first quote with its hashes, or at the end |
| CodeOnly.Turn | tools/checks/check_security_matrix.py:89-126 | each turn writes what the one fitting piece leaves and moves past it |
| CodeOnly.Split | tools/checks/check_security_matrix.py:128 | one line more than there are line breaks, none holding one, joining to the text |
| CodeOnly.CodeLines | tools/checks/check_security_matrix.py:79-128 | on every input: ends, with the reading's rendering split into as many lines as the source has |

## Left out

- JSON text, serde and its strictness: parsed frames are datatypes, an event's body is a map of fields, and "valid
  UTF-8" and "parses as an object" are parameters of the frame codec.
- Sockets, tasks, timers and threads as such: only the order of steps and a clock that does not go back.
- A host call that never returns, the host's own lines, and the text of `mcp.rs`, status and identity.
- The order in which an open re-joins its channels, and in which pending outcomes are re-issued: any order is covered.
- Reply tokens, metadata and content conversion of `channel-core`: a token is the route it resolved to, and
  which messages can be converted is a parameter.
- DataSession.Session.Cancelled: a call that lands after a later call on its session, because the server runs each
  request in a task of its own; the model's cancelled calls have landed by then or never do.
- A session without the `events` capability: the bridge asks for it with every open, and the model's sessions hold it.
- The facade thread's commands, daemon probe and waiting text: one loop of timers and strings.
- Params of each method and the payload ceiling: a decoder is a parameter, so admission is proved for every one.
- The grammars of peers, endpoints, channels, message ids, epochs and payloads: parameters, so agreement on events is
  proved for every choice of them.
- Which less a binding grants: any narrowing of what it is offered is covered.
- The end of a server connection, where finished answers are flushed ahead of the `close`, and the writer's lanes
  beyond their room.
- The words and entropy of identity vectors, SHA-256, Ed25519 and the other fixture algorithms: foreign calls, or
  fields that repeat those of the direct frame.
- Slugs, link scanning and `test_fns`: driven by regular expressions; the disambiguator starts from the slugs.
- CodeOnly.CodeLines: takes what counts as alphanumeric as a parameter, so it holds for any such test.
- Discovery, Kademlia control, the endpoint directory, Android, the window, logging and start-up: no part of the
  protocols modelled here rests on them.
