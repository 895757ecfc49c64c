/** Numbering a run: events of which some are owed to a reader and some of
    those can be carried to it, each carried one in a frame of its own under
    the count of numbers taken before it. What can be said of it rests on
    nothing the events or frames are made of. */
module Numbering {

  const WRAP: nat := 0x1_0000_0000_0000_0000

  /** Which events take a number, which of those are carried, what a reader
      makes of a frame, and the number on it. */
  datatype Rules<!E, !F> = Rules(owed: E -> bool, carried: E -> bool, means: (F, E) -> bool, number: F -> nat)

  ghost function Kept<E, F>(r: Rules<E, F>, events: seq<E>): seq<E> {
    if events == [] then []
    else
      var n := |events| - 1;
      Kept(r, events[..n]) + if r.carried(events[n]) then [events[n]] else []
  }

  /** How many were owed and not carried. */
  ghost function Refused<E, F>(r: Rules<E, F>, events: seq<E>): nat {
    if events == [] then 0
    else
      var n := |events| - 1;
      Refused(r, events[..n]) + if r.owed(events[n]) && !r.carried(events[n]) then 1 else 0
  }

  /** The numbers taken so far. */
  ghost function Taken<E, F>(r: Rules<E, F>, events: seq<E>): nat {
    |Kept(r, events)| + Refused(r, events)
  }

  /** A frame for each event carried and for no other, numbered by the numbers
      taken before it. */
  ghost predicate Delivers<E, F>(r: Rules<E, F>, frames: seq<F>, events: seq<E>)
    decreases |events|
  {
    if events == [] then frames == []
    else
      var n := |events| - 1;
      if r.carried(events[n]) then
        && frames != []
        && Delivers(r, frames[..|frames| - 1], events[..n])
        && r.means(frames[|frames| - 1], events[n])
        && r.number(frames[|frames| - 1]) == Taken(r, events[..n]) % WRAP
      else Delivers(r, frames, events[..n])
  }

  /** The reader reads the events kept, in order: none lost, none repeated,
      none beside them. */
  lemma {:induction false} ReaderReadsWhatWasKept<E, F>(r: Rules<E, F>, frames: seq<F>, events: seq<E>)
    requires Delivers(r, frames, events)
    ensures |frames| == |Kept(r, events)|
    ensures forall i :: 0 <= i < |frames| ==> r.means(frames[i], Kept(r, events)[i])
    decreases |events|
  {
    if events != [] {
      var n := |events| - 1;
      if r.carried(events[n]) {
        var m := |frames| - 1;
        ReaderReadsWhatWasKept(r, frames[..m], events[..n]);
        assert forall i :: 0 <= i < m ==> r.means(frames[..m][i], Kept(r, events[..n])[i]);
      } else {
        ReaderReadsWhatWasKept(r, frames, events[..n]);
      }
    }
  }

  /** The frame of an event carried holds the number of frames and refusals
      before it, so a missing number is a refused event. */
  lemma {:induction false} NumbersCountRefusals<E, F>(r: Rules<E, F>, frames: seq<F>, events: seq<E>, k: nat)
    requires Delivers(r, frames, events) && k < |events| && r.carried(events[k])
    ensures var i := |Kept(r, events[..k])|;
            i < |frames| && r.number(frames[i]) == (i + Refused(r, events[..k])) % 0x1_0000_0000_0000_0000
    decreases |events|
  {
    var n := |events| - 1;
    if k < n {
      assert events[..n][..k] == events[..k];
      NumbersCountRefusals(
        r, if r.carried(events[n]) then frames[..|frames| - 1] else frames, events[..n], k);
    } else {
      ReaderReadsWhatWasKept(r, frames[..|frames| - 1], events[..n]);
    }
  }

  lemma DeliversStill<E, F>(r: Rules<E, F>, frames: seq<F>, events: seq<E>, e: E)
    requires Delivers(r, frames, events) && !r.carried(e)
    ensures Delivers(r, frames, events + [e])
    ensures Taken(r, events + [e]) == Taken(r, events) + if r.owed(e) then 1 else 0
  {
    assert (events + [e])[..|events|] == events;
  }

  lemma DeliversOneMore<E, F>(r: Rules<E, F>, frames: seq<F>, events: seq<E>, e: E, frame: F)
    requires Delivers(r, frames, events) && r.carried(e)
    requires r.means(frame, e) && r.number(frame) == Taken(r, events) % WRAP
    ensures Delivers(r, frames + [frame], events + [e])
    ensures Taken(r, events + [e]) == Taken(r, events) + 1
  {
    assert (events + [e])[..|events|] == events;
    assert (frames + [frame])[..|frames|] == frames;
  }

  lemma WrapsOn(n: nat)
    ensures (n % WRAP + 1) % WRAP == (n + 1) % WRAP
  {
  }

  /** A connection's event lane: the frames written to it and the number the
      next one takes. */
  class Lane<!E(!new), F> {
    ghost const rules: Rules<E, F>
    var sequence: nat
    var written: seq<F>
    ghost var drained: seq<E>

    ghost predicate Valid()
      reads this
    {
      Delivers(rules, written, drained) && sequence == Taken(rules, drained) % WRAP
    }

    constructor (ghost rules: Rules<E, F>)
      ensures Valid() && this.rules == rules && drained == [] && written == []
    {
      this.rules := rules;
      sequence, drained, written := 0, [], [];
    }

    /** An event that is not owed leaves no trace. */
    method Skip(ghost e: E)
      requires Valid() && !rules.owed(e) && !rules.carried(e)
      modifies this
      ensures Valid() && drained == old(drained) + [e] && written == old(written)
    {
      DeliversStill(rules, written, drained, e);
      drained := drained + [e];
    }

    /** One owed and not carried takes a number. */
    method Refuse(ghost e: E)
      requires Valid() && rules.owed(e) && !rules.carried(e)
      modifies this
      ensures Valid() && drained == old(drained) + [e] && written == old(written)
    {
      DeliversStill(rules, written, drained, e);
      WrapsOn(Taken(rules, drained));
      sequence, drained := (sequence + 1) % WRAP, drained + [e];
    }

    method Write(ghost e: E, frame: F)
      requires Valid() && rules.carried(e) && rules.means(frame, e) && rules.number(frame) == sequence
      modifies this
      ensures Valid() && drained == old(drained) + [e] && written == old(written) + [frame]
    {
      DeliversOneMore(rules, written, drained, e, frame);
      WrapsOn(Taken(rules, drained));
      sequence, drained, written := (sequence + 1) % WRAP, drained + [e], written + [frame];
    }
  }
}
