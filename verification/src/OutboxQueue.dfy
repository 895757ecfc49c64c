/** Frames owed to a client that its writer's lane could not take yet
    (crates/local/ipc-server/src/connection.rs). What was pushed leaves in the
    order it was pushed. */
module OutboxQueue {
  import opened Common
  import opened RequestBooks

  const MAX_IN_FLIGHT: nat := 16
  const MAX_PENDING: nat := 48
  const OUTBOX_LIMIT: nat := MAX_IN_FLIGHT + MAX_PENDING + 16

  datatype Frame = Response(id: Id, error: Option<TransportError>) | Pinged(nonce: string)

  datatype End = Gone | Closing(code: TransportError) | Violation | Stalled

  ghost function Responses(frames: seq<Frame>): nat {
    if frames == [] then 0
    else Responses(frames[1..]) + if frames[0].Response? then 1 else 0
  }

  ghost function Answers(frames: seq<Frame>): multiset<Id> {
    if frames == [] then multiset{}
    else
      var n := |frames| - 1;
      Answers(frames[..n]) + if frames[n].Response? then multiset{frames[n].id} else multiset{}
  }

  ghost function Probes(frames: seq<Frame>): int {
    |frames| - Responses(frames)
  }

  lemma {:induction false} ResponsesSnoc(frames: seq<Frame>, f: Frame)
    ensures Responses(frames + [f]) == Responses(frames) + if f.Response? then 1 else 0
    ensures Responses(frames) <= |frames|
  {
    if frames == [] {
      assert frames + [f] == [f];
    } else {
      assert (frames + [f])[1..] == frames[1..] + [f];
      ResponsesSnoc(frames[1..], f);
    }
  }

  /** The nonces of the probes among them, in order. */
  ghost function Pings(frames: seq<Frame>): seq<string> {
    if frames == [] then []
    else
      var n := |frames| - 1;
      Pings(frames[..n]) + if frames[n].Pinged? then [frames[n].nonce] else []
  }

  lemma PingsSnoc(frames: seq<Frame>, f: Frame)
    ensures Pings(frames + [f]) == if f.Pinged? then Pings(frames) + [f.nonce] else Pings(frames)
  {
    assert (frames + [f])[..|frames|] == frames;
  }

  lemma AnswersSnoc(frames: seq<Frame>, f: Frame)
    ensures Answers(frames + [f])
         == Answers(frames) + if f.Response? then multiset{f.id} else multiset{}
  {
    assert (frames + [f])[..|frames|] == frames;
  }

  /** What the writer's lane says to a frame. */
  datatype Offered = Room | Full | Shut

  /** The writer's side of the lane: all it was handed for the client, and
      whether it gave up on it. */
  class Lane {
    var shut: bool
    ghost var written: seq<Frame>

    constructor ()
      ensures written == [] && !shut
    {
      shut, written := false, [];
    }

    method MayShut()
      modifies this`shut
      ensures old(shut) ==> shut
    {
      if * {
        shut := true;
      }
    }

    method Offer(frame: Frame) returns (r: Offered)
      modifies this
      ensures (r.Shut? <==> shut) && (old(shut) ==> shut)
      ensures written == if r.Room? then old(written) + [frame] else old(written)
    {
      MayShut();
      var room: bool := *;
      r := if shut then Shut else if room then Room else Full;
      if r.Room? {
        written := written + [frame];
      }
    }

    /** A slot, once there is one. */
    method Reserve() returns (ok: bool)
      modifies this`shut
      ensures (ok <==> !shut) && (old(shut) ==> shut)
    {
      MayShut();
      ok := !shut;
    }

    /** A slot was reserved before. */
    method Send(frame: Frame)
      modifies this`written
      ensures written == old(written) + [frame]
    {
      written := written + [frame];
    }
  }

  class Outbox {
    const lane: Lane
    var frames: seq<Frame>

    /** Everything pushed: what the lane took, then what waits for it. */
    ghost function Log(): seq<Frame>
      reads this, lane
    {
      lane.written + frames
    }

    constructor ()
      ensures fresh(lane) && frames == [] && Log() == []
    {
      lane := new Lane();
      frames := [];
    }

    /** Into the lane if it has room and nothing is ahead, else to wait. */
    method Push(frame: Frame) returns (end: Option<End>)
      modifies this, lane
      ensures end.None? ==> Log() == old(Log()) + [frame]
      ensures end.None? ==> frames == old(frames) + [frame] || (old(frames) == [] && frames == [])
      ensures end.None? || end == Some(Gone) || end == Some(Stalled)
      ensures end == Some(Gone) <==> old(frames) == [] && lane.shut
      ensures end == Some(Stalled) <==> |old(frames)| >= 80
      ensures old(lane.shut) ==> lane.shut
    {
      if frames == [] {
        var r := lane.Offer(frame);
        match r {
          case Room => return None;
          case Shut => return Some(Gone);
          case Full => frames := [frame];
        }
      } else {
        frames := frames + [frame];
      }
      end := if |frames| > OUTBOX_LIMIT then Some(Stalled) else None;
    }

    /** The lane has a slot for the frame that has waited longest, or is shut. */
    method Drain() returns (end: Option<End>)
      requires frames != []
      modifies this, lane
      ensures Log() == old(Log())
      ensures end.None? ==> frames == old(frames)[1..] && lane.written == old(lane.written) + [old(frames)[0]]
      ensures end == if lane.shut then Some(Gone) else None
    {
      var reserved := lane.Reserve();
      if !reserved {
        return Some(Gone);
      }
      lane.Send(frames[0]);
      frames := frames[1..];
      end := None;
    }
  }
}
