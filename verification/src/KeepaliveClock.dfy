/** The negotiated keepalive (crates/local/ipc-server/src/keepalive.rs): one
    probe at a time, a miss once its answer is late, a close after enough
    misses in a row. Times are milliseconds. */
module KeepaliveClock {
  import opened Common

  datatype Probe = Probe(nonce: string, sent: nat)

  datatype Action = Nothing | Ping(nonce: string) | Close

  function Max(a: nat, b: nat): nat {
    if a < b then b else a
  }

  class Keepalive {
    const interval: nat
    const responseTimeout: nat
    const maxMissed: nat
    var outstanding: Option<Probe>
    var missed: nat
    var nextProbe: nat
    /** The nonces of the probes it asked for, in order. */
    ghost var sent: seq<string>

    /** Fewer misses than close the connection, and only the latest probe may
        be outstanding. */
    ghost predicate Valid()
      reads this
    {
      && missed < maxMissed
      && (outstanding.Some? ==> sent != [] && outstanding.value.nonce == sent[|sent| - 1])
    }

    /** What the clock says at `now`: a late answer is a miss, and closes if it
        is one too many; with no probe outstanding, or its answer late, the next
        goes out once it is due. */
    ghost function ActionAt(now: nat, nonce: string): Action
      reads this
    {
      var late := outstanding.Some? && now >= outstanding.value.sent + responseTimeout;
      if outstanding.Some? && !late then Nothing
      else if late && missed + 1 >= maxMissed then Close
      else if now < nextProbe then Nothing
      else Ping(nonce)
    }

    /** The probes sent and not satisfied since the last that was. */
    ghost function Unsatisfied(): nat
      reads this
    {
      missed + if outstanding.Some? then 1 else 0
    }

    constructor (interval: nat, responseTimeout: nat, maxMissed: nat, now: nat)
      requires maxMissed >= 1
      ensures Valid() && outstanding == None && missed == 0 && nextProbe == now + interval && sent == []
      ensures this.interval == interval && this.responseTimeout == responseTimeout
      ensures this.maxMissed == maxMissed
    {
      this.interval, this.responseTimeout, this.maxMissed := interval, responseTimeout, maxMissed;
      outstanding, missed, nextProbe, sent := None, 0, now + interval, [];
    }

    function NextWake(): nat
      reads this
    {
      if outstanding.None? then nextProbe else outstanding.value.sent + responseTimeout
    }

    /** `nonce` is freshly minted. A probe goes out only with none outstanding,
        so at most one is; each miss is of one probe. */
    method Wake(now: nat, nonce: string) returns (action: Action)
      requires Valid()
      modifies this
      ensures action == old(ActionAt(now, nonce)) && (action == Close || Valid())
      ensures sent == if action.Ping? then old(sent) + [nonce] else old(sent)
      ensures action == Close <==> && old(outstanding).Some? && old(missed) + 1 == maxMissed
                                   && now >= old(outstanding).value.sent + responseTimeout
      ensures action.Ping? ==> && Unsatisfied() == old(Unsatisfied()) + 1 && now >= old(nextProbe)
                               && action.nonce == nonce && outstanding == Some(Probe(nonce, now))
                               && nextProbe == now + interval
      ensures action.Nothing? ==> Unsatisfied() == old(Unsatisfied()) && nextProbe == old(nextProbe)
      ensures action.Nothing? ==> now < NextWake()
      ensures !action.Close? && old(outstanding).Some? && now >= old(outstanding).value.sent + responseTimeout
          ==> missed == old(missed) + 1
      ensures !(old(outstanding).Some? && now >= old(outstanding).value.sent + responseTimeout)
          ==> missed == old(missed)
      ensures old(outstanding).Some? && now < old(outstanding).value.sent + responseTimeout
          ==> action == Nothing && outstanding == old(outstanding)
    {
      if outstanding.Some? {
        if now < outstanding.value.sent + responseTimeout {
          return Nothing;
        }
        outstanding := None;
        missed := missed + 1;
        if missed >= maxMissed {
          return Close;
        }
      }
      if now < nextProbe {
        return Nothing;
      }
      outstanding := Some(Probe(nonce, now));
      nextProbe := now + interval;
      sent := sent + [nonce];
      action := Ping(nonce);
    }

    /** Only the current nonce, exactly, satisfies. */
    method Pong(nonce: string)
      requires Valid()
      modifies this
      ensures Valid() && nextProbe == old(nextProbe) && sent == old(sent)
      ensures if old(outstanding).Some? && old(outstanding).value.nonce == nonce
              then outstanding == None && missed == 0
              else outstanding == old(outstanding) && missed == old(missed)
    {
      if outstanding.Some? && outstanding.value.nonce == nonce {
        outstanding, missed := None, 0;
      }
    }
  }

  /** A client that satisfies no probe: its connection is closed when the last
      probe it may miss is late, probes having gone out an interval apart, or a
      timeout apart when that is longer. */
  method WedgedClient(start: nat, interval: nat, responseTimeout: nat, maxMissed: nat, nonce: string)
    returns (closed: nat, probes: nat)
    requires maxMissed >= 1
    ensures probes == maxMissed
    ensures closed == start + interval + (maxMissed - 1) * Max(interval, responseTimeout) + responseTimeout
    ensures closed == start + maxMissed * interval + responseTimeout <==> responseTimeout <= interval || maxMissed == 1
  {
    var k := new Keepalive(interval, responseTimeout, maxMissed, start);
    var now := k.NextWake();
    var action := k.Wake(now, nonce);
    probes := 1;
    ghost var step := Max(interval, responseTimeout);
    while action != Close
      invariant 1 <= probes <= maxMissed && k.maxMissed == maxMissed
      invariant k.interval == interval && k.responseTimeout == responseTimeout
      invariant action != Close ==> k.Valid() && probes == k.missed + 1 && k.outstanding.Some?
      invariant action != Close ==> k.outstanding.value.sent == start + interval + (probes - 1) * step
      invariant action != Close ==> k.nextProbe == k.outstanding.value.sent + interval
      invariant action == Close ==>
                  probes == maxMissed && now == start + interval + (maxMissed - 1) * step + responseTimeout
      decreases maxMissed - probes, action != Close
    {
      now := k.NextWake();
      action := k.Wake(now, nonce);
      if action == Nothing {
        now := k.NextWake();
        action := k.Wake(now, nonce);
      }
      if action != Close {
        OneStepMore(probes, step);
        probes := probes + 1;
      }
    }
    closed := now;
    OneStepMore(maxMissed, interval);
    if responseTimeout > interval && maxMissed > 1 {
      LongerSteps(maxMissed - 1, interval, responseTimeout);
    }
  }

  lemma OneStepMore(n: nat, step: nat)
    requires n >= 1
    ensures n * step == (n - 1) * step + step
  {
  }

  lemma LongerSteps(n: nat, short: nat, long: nat)
    requires n >= 1 && short < long
    ensures n * short < n * long
  {
  }
}
