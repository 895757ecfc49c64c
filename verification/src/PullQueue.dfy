/** Pull mode's one bounded queue and the pause it puts on the drain
    (crates/claude/channel-core/src/pull.rs and `Pull` in
    apps/claude-channel/src/serve.rs, whose two layers are one object here). */
module PullQueue {
  import opened Common
  import opened HostSide

  /** The queue, and before the first session says how much it holds none yet. */
  class Pull {
    var bound: nat
    var items: seq<Pulled>
    var pausedSince: Option<nat>

    ghost predicate Valid()
      reads this
    {
      && |items| <= bound
      && (pausedSince.Some? <==> Made() && |items| == bound)
    }

    constructor ()
      ensures Valid() && !Made()
    {
      bound, items, pausedSince := 0, [], None;
    }

    predicate Made()
      reads this
    {
      bound > 0
    }

    /** The first session's own limit, or one. */
    method Make(eventQueue: nat)
      requires Valid() && !Made()
      modifies this
      ensures Valid() && Made() && items == []
      ensures bound == if eventQueue == 0 then 1 else eventQueue
    {
      bound := if eventQueue < 1 then 1 else eventQueue;
    }

    function Room(): (room: nat)
      requires |items| <= bound
      reads this
    {
      bound - |items|
    }

    predicate IsFull()
      requires |items| <= bound
      reads this
    {
      Made() && Room() == 0
    }

    /** Queue `pulled`; refused only when full, and nothing held is evicted.
        The pause starts with the push that fills the queue and its start is
        not moved by a later one. */
    method Push(pulled: Pulled, nowMs: nat) returns (queued: bool)
      requires Valid() && Made()
      modifies this`items, this`pausedSince
      ensures Valid()
      ensures queued <==> old(|items|) < bound
      ensures items == if queued then old(items) + [pulled] else old(items)
      ensures pausedSince == if queued && |items| == bound then Some(nowMs) else old(pausedSince)
    {
      if IsFull() {
        return false;
      }
      items := items + [pulled];
      if IsFull() && pausedSince.None? {
        pausedSince := Some(nowMs);
      }
      queued := true;
    }

    /** The oldest items, at most `max` of them, clamped to the bound. */
    method Take(max: nat) returns (taken: seq<Pulled>, remaining: nat)
      requires Valid() && Made()
      modifies this`items, this`pausedSince
      ensures Valid()
      ensures old(items) == taken + items
      ensures |taken| == Min(max, old(|items|))
      ensures remaining == |items|
      ensures pausedSince == if |items| == bound then old(pausedSince) else None
    {
      var n := Min(Min(max, bound), |items|);
      taken := items[..n];
      items := items[n..];
      remaining := |items|;
      if !IsFull() {
        pausedSince := None;
      }
    }
  }
}
