/** The reconnect backoff: the delay each attempt waits, and how far apart
    it keeps the opens (apps/claude-channel/src/serve.rs). Milliseconds. */
module Backoff {
  import opened Common

  const RECONNECT_FIRST: nat := 250
  const RECONNECT_CEILING: nat := 30_000
  const U32_MAX: nat := 0xFFFF_FFFF

  function Pow2(n: nat): (p: nat)
    ensures 1 <= p
  {
    if n == 0 then 1 else 2 * Pow2(n - 1)
  }

  /** The delay before reconnect attempt `attempt`; the shift is clamped so
      that it never overflows. */
  function ReconnectDelay(attempt: nat): nat {
    Min(RECONNECT_FIRST * Pow2(Min(attempt, 16)), RECONNECT_CEILING)
  }

  /** The attempt after a session that lived `lived`: back to the first
      only when it stayed up a whole ceiling. */
  function AttemptAfter(attempt: nat, lived: nat): nat {
    if lived >= RECONNECT_CEILING then 0 else attempt
  }

  lemma {:induction false} Pow2Monotone(m: nat, n: nat)
    requires m <= n
    ensures Pow2(m) <= Pow2(n)
    decreases n
  {
    if m < n {
      Pow2Monotone(m, n - 1);
    }
  }

  lemma Pow2Small()
    ensures Pow2(1) == 2 && Pow2(2) == 4 && Pow2(3) == 8 && Pow2(4) == 16
    ensures Pow2(5) == 32 && Pow2(6) == 64 && Pow2(7) == 128
  {
    assert Pow2(1) == 2;
    assert Pow2(3) == 8;
    assert Pow2(5) == 32;
  }

  /** The clamp never shows: the delay is the doubling one, capped. */
  lemma DelayDoublesToItsCeiling(attempt: nat)
    ensures ReconnectDelay(attempt) == Min(250 * Pow2(attempt), 30_000)
    ensures attempt >= 7 ==> ReconnectDelay(attempt) == 30_000
    ensures attempt < 7 ==> ReconnectDelay(attempt) == 250 * Pow2(attempt)
  {
    Pow2Small();
    if attempt >= 7 {
      Pow2Monotone(7, attempt);
      Pow2Monotone(7, Min(attempt, 16));
    } else {
      Pow2Monotone(attempt, 6);
    }
  }

  /** The backoff said simply: double, and stay at the ceiling. */
  ghost function Wait(attempt: nat): nat {
    if attempt == 0 then RECONNECT_FIRST else Min(2 * Wait(attempt - 1), RECONNECT_CEILING)
  }

  lemma {:induction false} DelayIsTheWait(attempt: nat)
    ensures ReconnectDelay(attempt) == Wait(attempt)
  {
    DelayDoublesToItsCeiling(attempt);
    if attempt > 0 {
      DelayIsTheWait(attempt - 1);
      DelayDoublesToItsCeiling(attempt - 1);
      Pow2Small();
    }
  }

  /** The least time `k` consecutive waits take. */
  ghost function Pace(k: nat): nat {
    if k == 0 then 0 else Pace(k - 1) + Wait(k - 1)
  }

  /** In closed form: 250 (2^k - 1) ms for the first seven waits, and a
      whole ceiling for each one after them. */
  lemma {:induction false} PaceClosedForm(k: nat)
    ensures k <= 7 ==> Pace(k) == 250 * (Pow2(k) - 1)
    ensures k >= 7 ==> Pace(k) == 31_750 + 30_000 * (k - 7)
  {
    Pow2Small();
    if k > 0 {
      PaceClosedForm(k - 1);
      DelayIsTheWait(k - 1);
      DelayDoublesToItsCeiling(k - 1);
    }
  }

  /** The saturating counter waits exactly as an unbounded one would. */
  lemma SaturationIsInvisible(scheduled: nat)
    ensures ReconnectDelay(Min(scheduled, U32_MAX)) == Wait(scheduled)
  {
    DelayIsTheWait(scheduled);
    if scheduled > U32_MAX {
      DelayDoublesToItsCeiling(U32_MAX);
      DelayDoublesToItsCeiling(scheduled);
    }
  }

  // -----------------------------------------------------------------
  // The times at which a session was asked for

  /** How many waits the backoff must have grown by at the ask `n`: one more for
      each gap since a whole ceiling last passed between two, which is the least
      a reset takes. */
  ghost function Rank(asks: seq<nat>, n: nat): nat {
    if n == 0 || n >= |asks| then 0
    else if asks[n] < asks[n - 1] + RECONNECT_CEILING then Rank(asks, n - 1) + 1
    else 1
  }

  ghost predicate AskIsPaced(asks: seq<nat>, n: nat) {
    0 < n < |asks| ==> asks[n - 1] + Wait(Rank(asks, n - 1)) <= asks[n]
  }

  /** Each ask comes no sooner after the one before than the wait of its rank. */
  ghost predicate PacedAsks(asks: seq<nat>) {
    forall n: nat :: AskIsPaced(asks, n)
  }

  lemma {:induction false} RankStands(asks: seq<nat>, now: nat, n: nat)
    requires n < |asks|
    ensures Rank(asks + [now], n) == Rank(asks, n)
  {
    if n > 0 {
      RankStands(asks, now, n - 1);
    }
  }

  lemma {:induction false} WaitGrows(m: nat, n: nat)
    requires m <= n
    ensures Wait(m) <= Wait(n) <= RECONNECT_CEILING
    decreases n
  {
    if m < n {
      WaitGrows(m, n - 1);
    } else if n > 0 {
      WaitGrows(n - 1, n - 1);
    }
  }

  lemma SevenWaits()
    ensures Wait(7) == RECONNECT_CEILING && Wait(6) < RECONNECT_CEILING
  {
    DelayIsTheWait(7);
    DelayIsTheWait(6);
    DelayDoublesToItsCeiling(7);
    DelayDoublesToItsCeiling(6);
    Pow2Small();
  }

  lemma {:induction false} RankIsSmall(asks: seq<nat>, n: nat)
    requires PacedAsks(asks)
    ensures Rank(asks, n) <= 7
  {
    if n > 0 {
      RankIsSmall(asks, n - 1);
      assert AskIsPaced(asks, n);
      SevenWaits();
    }
  }

  /** The ask at `i` and the `m` after it, each less than a ceiling after the
      one before. */
  ghost predicate Pressing(asks: seq<nat>, i: nat, m: nat) {
    i + m < |asks| && forall k :: i <= k < i + m ==> GapIsShort(asks, k)
  }

  ghost predicate GapIsShort(asks: seq<nat>, k: nat) {
    k + 1 < |asks| && asks[k + 1] < asks[k] + RECONNECT_CEILING
  }

  lemma {:induction false} PressingRanks(asks: seq<nat>, i: nat, m: nat)
    requires Pressing(asks, i, m)
    ensures Rank(asks, i + m) >= m + if i == 0 then 0 else 1
    decreases m
  {
    if m > 0 {
      assert GapIsShort(asks, i + m - 1);
      PressingRanks(asks, i, m - 1);
    }
  }

  /** In any stretch of asks each less than 30 s after the one before, the m-th
      gap is at least the m-th wait, and the one after it where the stretch does
      not begin with the first ask of all. */
  lemma StretchIsPaced(asks: seq<nat>, i: nat, m: nat)
    requires PacedAsks(asks) && Pressing(asks, i, m) && i + m + 1 < |asks|
    ensures asks[i + m] + Wait(m + if i == 0 then 0 else 1) <= asks[i + m + 1]
  {
    PressingRanks(asks, i, m);
    WaitGrows(m + if i == 0 then 0 else 1, Rank(asks, i + m));
    assert AskIsPaced(asks, i + m + 1);
  }

  /** No more than seven gaps in a row are below the ceiling. */
  lemma PressingIsShort(asks: seq<nat>, i: nat, m: nat)
    requires PacedAsks(asks) && Pressing(asks, i, m)
    ensures m <= 7
  {
    PressingRanks(asks, i, m);
    RankIsSmall(asks, i + m);
  }

  // -----------------------------------------------------------------
  // The reconnect's state against them

  /** Between asks, in one, with the session it gave, or past one that lived a
      whole ceiling by `since`. */
  datatype Phase = Waiting | Opening | Up | Rested(since: nat)

  ghost predicate SteadyAt(
    asks: seq<nat>, attempt: nat, reconnectAt: nat, openedAt: nat, phase: Phase, last: nat)
  {
    last + 1 == |asks| ==>
      match phase
      case Waiting =>
        && asks[last] + Wait(Rank(asks, last)) <= reconnectAt
        && attempt >= 1 && (attempt >= Rank(asks, last) + 1 || asks[last] + RECONNECT_CEILING <= reconnectAt)
      case Opening => attempt >= Rank(asks, last)
      case Up => attempt >= Rank(asks, last) && asks[last] <= openedAt
      case Rested(since) => asks[last] + RECONNECT_CEILING <= since
  }

  /** The next ask will keep the pace. */
  ghost predicate Steady(asks: seq<nat>, attempt: nat, reconnectAt: nat, openedAt: nat, phase: Phase) {
    && PacedAsks(asks)
    && (asks == [] ==> phase.Waiting?)
    && forall last: nat :: SteadyAt(asks, attempt, reconnectAt, openedAt, phase, last)
  }

  lemma SteadyAsked(asks: seq<nat>, attempt: nat, reconnectAt: nat, openedAt: nat, now: nat)
    requires Steady(asks, attempt, reconnectAt, openedAt, Waiting) && reconnectAt <= now
    ensures Steady(asks + [now], attempt, reconnectAt, openedAt, Opening)
  {
    var asks' := asks + [now];
    forall n: nat
      ensures AskIsPaced(asks', n) && SteadyAt(asks', attempt, reconnectAt, openedAt, Opening, n)
    {
      if 0 < n <= |asks| {
        assert AskIsPaced(asks, n) && SteadyAt(asks, attempt, reconnectAt, openedAt, Waiting, n - 1);
        RankStands(asks, now, n - 1);
      }
    }
  }

  lemma SteadyScheduled(
    asks: seq<nat>, attempt: nat, was: nat, openedAt: nat, phase: Phase, now: nat, next: nat, at: nat)
    requires Steady(asks, attempt, was, openedAt, phase) && !phase.Waiting? && attempt <= U32_MAX
    requires asks[|asks| - 1] <= now && (phase.Rested? ==> phase.since <= now)
    requires next == Min(attempt + 1, U32_MAX) && at == now + ReconnectDelay(attempt)
    ensures Steady(asks, next, at, openedAt, Waiting)
  {
    var last, rank := |asks| - 1, Rank(asks, |asks| - 1);
    assert SteadyAt(asks, attempt, was, openedAt, phase, last);
    RankIsSmall(asks, last);
    DelayIsTheWait(attempt);
    WaitGrows(rank, if phase.Rested? then rank else attempt);
    forall n: nat
      ensures SteadyAt(asks, next, at, openedAt, Waiting, n)
    {
    }
  }

  lemma SteadyOpened(asks: seq<nat>, attempt: nat, reconnectAt: nat, openedAt: nat, now: nat)
    requires Steady(asks, attempt, reconnectAt, openedAt, Opening) && asks[|asks| - 1] <= now
    ensures Steady(asks, attempt, reconnectAt, now, Up)
  {
    forall n: nat
      ensures SteadyAt(asks, attempt, reconnectAt, now, Up, n)
    {
      assert SteadyAt(asks, attempt, reconnectAt, openedAt, Opening, n);
    }
  }

  lemma SteadyRested(asks: seq<nat>, attempt: nat, reconnectAt: nat, openedAt: nat, now: nat)
    requires Steady(asks, attempt, reconnectAt, openedAt, Up) && openedAt + RECONNECT_CEILING <= now
    ensures Steady(asks, 0, reconnectAt, openedAt, Rested(now)) && asks[|asks| - 1] + RECONNECT_CEILING <= now
  {
    assert SteadyAt(asks, attempt, reconnectAt, openedAt, Up, |asks| - 1);
    forall n: nat
      ensures SteadyAt(asks, 0, reconnectAt, openedAt, Rested(now), n)
    {
    }
  }

  /** Since the backoff last started over: when that was, the opens since and
      those before it, the waits scheduled since, whether a lost session (1) or
      the bridge's start (0) began it, and the latest time seen. */
  datatype PaceLog = PaceLog(
    resetAt: nat, opens: seq<nat>, before: seq<nat>, scheduled: nat, base: nat, seen: nat)

  ghost predicate OpenIsPaced(p: PaceLog, reconnectAt: nat, waiting: bool, i: nat) {
    i < |p.opens| ==>
      && p.opens[i] <= p.seen
      && (i == 0 ==> p.resetAt + Pace(p.base) <= p.opens[0])
      && (i + 1 < |p.opens| ==> p.opens[i] + Wait(i + p.base) <= p.opens[i + 1])
      && (waiting && i + 1 == |p.opens| ==> p.opens[i] + Wait(i + p.base) <= reconnectAt)
  }

  /** Each open came no sooner after the one before it than its own wait, and
      the start over no sooner than a whole ceiling after the last open before
      it; `waiting` between a scheduled reconnect and the open that answers it. */
  ghost predicate Paced(p: PaceLog, attempt: nat, reconnectAt: nat, waiting: bool) {
    && attempt == Min(p.scheduled, U32_MAX)
    && p.base == (if p.before == [] then 0 else 1)
    && p.scheduled + (if waiting then 0 else 1) == |p.opens| + p.base
    && p.resetAt <= p.seen
    && (p.before != [] ==> p.before[|p.before| - 1] + RECONNECT_CEILING <= p.resetAt)
    && (waiting && p.opens == [] ==> p.resetAt + Pace(p.base) <= reconnectAt)
    && forall i: nat :: OpenIsPaced(p, reconnectAt, waiting, i)
  }

  lemma PacedLater(p: PaceLog, attempt: nat, reconnectAt: nat, waiting: bool, now: nat)
    requires Paced(p, attempt, reconnectAt, waiting) && p.seen <= now
    ensures Paced(p.(seen := now), attempt, reconnectAt, waiting)
  {
    forall i: nat
      ensures OpenIsPaced(p.(seen := now), reconnectAt, waiting, i)
    {
      assert OpenIsPaced(p, reconnectAt, waiting, i);
    }
  }

  lemma PacedScheduled(p: PaceLog, attempt: nat, was: nat, now: nat, q: PaceLog, next: nat, at: nat)
    requires Paced(p, attempt, was, false) && p.seen <= now
    requires q == p.(scheduled := p.scheduled + 1, seen := now)
    requires next == Min(attempt + 1, U32_MAX) && at == now + ReconnectDelay(attempt)
    ensures Paced(q, next, at, true) && at == now + Wait(p.scheduled)
  {
    SaturationIsInvisible(p.scheduled);
    forall i: nat
      ensures OpenIsPaced(q, at, true, i)
    {
      assert OpenIsPaced(p, was, false, i);
    }
    assert Pace(1) == Wait(0) && Pace(0) == 0;
  }

  lemma PacedOpen(p: PaceLog, attempt: nat, reconnectAt: nat, now: nat)
    requires Paced(p, attempt, reconnectAt, true) && p.seen <= now && reconnectAt <= now
    ensures Paced(p.(opens := p.opens + [now], seen := now), attempt, reconnectAt, false)
  {
    var q := p.(opens := p.opens + [now], seen := now);
    forall i: nat
      ensures OpenIsPaced(q, reconnectAt, false, i)
    {
      assert OpenIsPaced(p, reconnectAt, true, i);
    }
  }

  lemma PacedReset(p: PaceLog, attempt: nat, at: nat, reconnectAt: nat, now: nat)
    requires Paced(p, attempt, at, false) && p.before + p.opens != []
    requires (p.before + p.opens)[|p.before + p.opens| - 1] + RECONNECT_CEILING <= now
    ensures Paced(PaceLog(now, [], p.before + p.opens, 0, 1, now), 0, reconnectAt, false)
  {
    forall i: nat
      ensures OpenIsPaced(PaceLog(now, [], p.before + p.opens, 0, 1, now), reconnectAt, false, i)
    {
    }
  }

  /** What the loss at `now` of a session up since `openedAt` makes of the
      pace: it starts over exactly after one that lived a whole ceiling. */
  ghost function PaceAfter(p: PaceLog, openedAt: nat, now: nat): PaceLog {
    if now - openedAt >= RECONNECT_CEILING then PaceLog(now, [], p.before + p.opens, 1, 1, now)
    else p.(scheduled := p.scheduled + 1, seen := now)
  }

  /** What an open asked for at `asked` and over at `now` makes of it, a wait
      being scheduled unless it gave a session. */
  ghost function PaceOpened(p: PaceLog, asked: nat, now: nat, given: bool): PaceLog {
    p.(opens := p.opens + [asked], scheduled := p.scheduled + (if given then 0 else 1), seen := now)
  }

  /** How a turn moves the pace, with a session before it (`had`) and after
      (`has`): a session lost schedules a wait, from the start if it lived a
      whole ceiling; an open is one more, with a wait after it unless it gave a
      session; and nothing else moves it. */
  ghost predicate PaceMoved(
    had: bool, has: bool, before: PaceLog, after: PaceLog, openedAt: nat, openedAt': nat,
    asked: seq<nat>, asked': seq<nat>, now: nat)
  {
    if asked' != asked then
      && !had && |asked'| == |asked| + 1 && asked <= asked'
      && after == PaceOpened(before, asked'[|asked|], now, has)
    else if had && !has then after == PaceAfter(before, openedAt, now)
    else had == has && after == before && openedAt' == openedAt
  }

  /** The reconnect's own state: which attempt is next, when, and since when
      the current session has been up. */
  class Reconnect {
    var attempt: nat
    var reconnectAt: nat
    var openedAt: nat
    /** For the specification. */
    ghost var pace: PaceLog

    /** Every ask so far, for the specification. */
    ghost var asks: seq<nat>

    ghost predicate Valid(phase: Phase)
      reads this
    {
      && Paced(pace, attempt, reconnectAt, phase.Waiting?) && openedAt <= pace.seen
      && asks == pace.before + pace.opens && (asks != [] ==> asks[|asks| - 1] <= pace.seen)
      && Steady(asks, attempt, reconnectAt, openedAt, phase)
    }

    constructor (start: nat)
      ensures Valid(Waiting) && reconnectAt == start && asks == []
      ensures pace == PaceLog(start, [], [], 0, 0, start)
    {
      attempt, reconnectAt, openedAt := 0, start, start;
      pace, asks := PaceLog(start, [], [], 0, 0, start), [];
    }

    method Schedule(now: nat, ghost phase: Phase)
      requires Valid(phase) && !phase.Waiting? && pace.seen <= now && (phase.Rested? ==> phase.since <= now)
      modifies this`reconnectAt, this`attempt, this`pace
      ensures Valid(Waiting)
      ensures reconnectAt == now + Wait(old(pace).scheduled)
      ensures pace == old(pace).(scheduled := old(pace).scheduled + 1, seen := now)
    {
      var at, next := now + ReconnectDelay(attempt), Min(attempt + 1, U32_MAX);
      ghost var q := pace.(scheduled := pace.scheduled + 1, seen := now);
      PacedScheduled(pace, attempt, reconnectAt, now, q, next, at);
      SteadyScheduled(asks, attempt, reconnectAt, openedAt, phase, now, next, at);
      reconnectAt, attempt, pace := at, next, q;
    }

    /** The open the wait was for begins. */
    method Open(now: nat)
      requires Valid(Waiting) && pace.seen <= now && reconnectAt <= now
      modifies this`pace, this`asks
      ensures Valid(Opening) && asks == old(asks) + [now]
      ensures pace == old(pace).(opens := old(pace).opens + [now], seen := now)
    {
      PacedOpen(pace, attempt, reconnectAt, now);
      SteadyAsked(asks, attempt, reconnectAt, openedAt, now);
      pace, asks := pace.(opens := pace.opens + [now], seen := now), asks + [now];
    }

    /** The open succeeded. */
    method Opened(now: nat)
      requires Valid(Opening) && pace.seen <= now
      modifies this`openedAt, this`pace
      ensures Valid(Up) && openedAt == now && pace == old(pace).(seen := now)
    {
      PacedLater(pace, attempt, reconnectAt, false, now);
      SteadyOpened(asks, attempt, reconnectAt, openedAt, now);
      openedAt := now;
      pace := pace.(seen := now);
    }

    /** The session ended: the backoff starts over only after one that lived
        a whole ceiling. */
    method Lost(now: nat)
      requires Valid(Up) && pace.seen <= now
      modifies this`reconnectAt, this`attempt, this`pace
      ensures Valid(Waiting)
      ensures pace == PaceAfter(old(pace), openedAt, now)
    {
      ghost var phase := Up;
      if now - openedAt >= RECONNECT_CEILING {
        SteadyRested(asks, attempt, reconnectAt, openedAt, now);
        PacedReset(pace, attempt, reconnectAt, reconnectAt, now);
      }
      attempt := AttemptAfter(attempt, now - openedAt);
      if now - openedAt >= RECONNECT_CEILING {
        pace, phase := PaceLog(now, [], pace.before + pace.opens, 0, 1, now), Rested(now);
      }
      Schedule(now, phase);
    }
  }

  /** An open comes no sooner than all the waits before it take. */
  lemma {:induction false} OpensAfterTheirWaits(p: PaceLog, attempt: nat, reconnectAt: nat, waiting: bool, i: nat)
    requires Paced(p, attempt, reconnectAt, waiting) && i < |p.opens|
    ensures p.resetAt + Pace(i + p.base) <= p.opens[i]
  {
    assert OpenIsPaced(p, reconnectAt, waiting, i);
    if i > 0 {
      OpensAfterTheirWaits(p, attempt, reconnectAt, waiting, i - 1);
      assert OpenIsPaced(p, reconnectAt, waiting, i - 1);
    }
  }

  /** The k-th open after the backoff started over comes no sooner than
      250 (2^k - 1) ms for the first seven, and later ones are a whole
      ceiling apart. */
  lemma OpensKeepTheirDistance(p: PaceLog, attempt: nat, reconnectAt: nat, waiting: bool, k: nat)
    requires Paced(p, attempt, reconnectAt, waiting)
    requires p.base == 1 && 1 <= k <= |p.opens|
    ensures k <= 7 ==> p.resetAt + 250 * (Pow2(k) - 1) <= p.opens[k - 1]
    ensures k >= 8 ==> p.opens[k - 2] + 30_000 <= p.opens[k - 1]
  {
    PaceClosedForm(k);
    OpensAfterTheirWaits(p, attempt, reconnectAt, waiting, k - 1);
    if k >= 8 {
      DelayDoublesToItsCeiling(k - 1);
      DelayIsTheWait(k - 1);
      assert OpenIsPaced(p, reconnectAt, waiting, k - 2);
    }
  }
}
