/** Types every part of the model shares: absence, and the repository's one
    closed set of local errors (crates/api/transport-api/src/status.rs). */
module Common {

  datatype Option<+T> = None | Some(value: T)

  datatype Result<+T, +E> = Ok(value: T) | Err(error: E)

  datatype TransportError =
    | InvalidArgument
    | PayloadTooLarge
    | ChannelNotJoined
    | EndpointNotRegistered
    | EndpointUnknown
    | EndpointInUse
    | EndpointDisabled
    | EndpointClientKindDenied
    | CapabilityDenied
    | UnauthorizedPeer
    | PeerUnknown
    | PeerUnreachable
    | RemoteEndpointUnavailable
    | Timeout
    | CancelledBeforeDispatch
    | CancellationRaced
    | Overloaded
    | BackendUnavailable
    | ProtocolUnsupported
    | ProtocolViolation
    | VersionIncompatible
    | ShuttingDown
    | Internal

  function Min(a: int, b: int): int {
    if a < b then a else b
  }

  /** A sequence put back together at its head. */
  lemma HeadAndRest<T>(s: seq<T>, t: seq<T>)
    requires s != []
    ensures [s[0]] + (s[1..] + t) == s + t
  {
  }

  lemma Regroup<T>(s: seq<T>, x: T, t: seq<T>)
    ensures s + ([x] + t) == (s + [x]) + t
  {
  }

  lemma {:induction false} SubsetsAreSmaller<T>(a: set<T>, b: set<T>)
    requires a <= b
    ensures |a| <= |b|
  {
    if a != {} {
      var x :| x in a;
      SubsetsAreSmaller(a - {x}, b - {x});
    }
  }
}
