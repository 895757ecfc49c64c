/** IPC versions and the method catalogue
    (crates/api/ipc-protocol/src/version.rs, catalogue.rs). */
module Catalogue {
  import opened Common

  const IPC_MAJOR: nat := 2
  const IPC_MAX_MINOR: nat := 5
  const U64_MAX: nat := 0xFFFF_FFFF_FFFF_FFFF

  datatype IpcVersion = IpcVersion(major: nat, minor: nat)

  datatype Domain = Data | Admin

  datatype Capability =
    | Events
    | Commands
    | EndpointsQuery
    | AdminStatus
    | AdminEndpoints
    | AdminShutdown
    | AdminTrust

  datatype DataCapability = DataEvents | DataCommands | DataEndpointsQuery

  datatype AdminCapability = Status | Endpoints | Shutdown | Trust

  datatype Method =
    | ChannelJoin
    | ChannelLeave
    | BroadcastPublish
    | DirectSend
    | QueryEndpoints
    | ReadStatus
    | EndpointsList
    | EndpointsRevoke
    | EndpointsSetEnabled
    | EndpointsSetDefault
    | ShutDown
    | TrustList
    | TrustSet
    | PeersList

  // -----------------------------------------------------------------
  // Versions

  /** A number of any size, as the 64 bits that hold it. */
  function Saturated(wire: nat): nat {
    Min(wire, U64_MAX)
  }

  function Negotiate(proposed: IpcVersion): Result<IpcVersion, nat> {
    if proposed.major != IPC_MAJOR then Err(proposed.major)
    else Ok(IpcVersion(IPC_MAJOR, Min(proposed.minor, IPC_MAX_MINOR)))
  }

  /** No decision reads what saturation loses. */
  lemma SaturationIsInvisible(major: nat, minor: nat)
    ensures var read := Negotiate(IpcVersion(Saturated(major), Saturated(minor)));
            var wide := Negotiate(IpcVersion(major, minor));
            && (read.Ok? <==> wide.Ok?)
            && (wide.Ok? ==> read == wide && wide.value == IpcVersion(2, Min(minor, 5)))
  {
  }

  // -----------------------------------------------------------------
  // Capabilities

  function AsData(c: Capability): Option<DataCapability> {
    match c
    case Events => Some(DataEvents)
    case Commands => Some(DataCommands)
    case EndpointsQuery => Some(DataEndpointsQuery)
    case _ => None
  }

  function AsAdmin(c: Capability): Option<AdminCapability> {
    match c
    case AdminStatus => Some(Status)
    case AdminEndpoints => Some(Endpoints)
    case AdminShutdown => Some(Shutdown)
    case AdminTrust => Some(Trust)
    case _ => None
  }

  /** The socket a capability belongs to. */
  function Side(c: Capability): Domain {
    if AsData(c).Some? then Data else Admin
  }

  /** A capability is of one side and maps to a grant of that side alone, and
      no two capabilities map to one grant. */
  lemma SidesAreApart(c: Capability, d: Capability)
    ensures AsData(c).Some? <==> AsAdmin(c).None?
    ensures AsData(c).Some? && AsData(c) == AsData(d) ==> c == d
    ensures AsAdmin(c).Some? && AsAdmin(c) == AsAdmin(d) ==> c == d
  {
  }

  function CapabilitySince(c: Capability): nat {
    if c.AdminTrust? then 1 else 0
  }

  // -----------------------------------------------------------------
  // Methods

  const ALL: seq<Method> := [
    ChannelJoin, ChannelLeave, BroadcastPublish, DirectSend, QueryEndpoints, ReadStatus, EndpointsList,
    EndpointsRevoke, EndpointsSetEnabled, EndpointsSetDefault, ShutDown, TrustList, TrustSet, PeersList]

  datatype Entry = Entry(domain: Domain, capability: Capability, sinceMinor: nat)

  function EntryOf(m: Method): Entry {
    var (domain, capability) :=
      match m
      case ChannelJoin => (Data, Commands)
      case ChannelLeave => (Data, Commands)
      case BroadcastPublish => (Data, Commands)
      case DirectSend => (Data, Commands)
      case QueryEndpoints => (Data, EndpointsQuery)
      case ReadStatus => (Admin, AdminStatus)
      case PeersList => (Admin, AdminStatus)
      case EndpointsList => (Admin, AdminEndpoints)
      case EndpointsRevoke => (Admin, AdminEndpoints)
      case EndpointsSetEnabled => (Admin, AdminEndpoints)
      case EndpointsSetDefault => (Admin, AdminEndpoints)
      case ShutDown => (Admin, AdminShutdown)
      case TrustList => (Admin, AdminTrust)
      case TrustSet => (Admin, AdminTrust);
    var since := match m case TrustList => 1 case TrustSet => 1 case PeersList => 2 case _ => 0;
    Entry(domain, capability, since)
  }

  /** The table is coherent: a method's capability is of its own socket, is
      never newer than it, and every minor is one this build speaks. */
  lemma TableIsCoherent(m: Method)
    ensures var e := EntryOf(m);
            && Side(e.capability) == e.domain
            && CapabilitySince(e.capability) <= e.sinceMinor <= IPC_MAX_MINOR
  {
  }

  function Name(m: Method): string {
    match m
    case ChannelJoin => "channel.join"
    case ChannelLeave => "channel.leave"
    case BroadcastPublish => "broadcast.publish"
    case DirectSend => "direct.send"
    case QueryEndpoints => "endpoints.query"
    case ReadStatus => "admin.status"
    case EndpointsList => "admin.endpoints.list"
    case EndpointsRevoke => "admin.endpoints.revoke"
    case EndpointsSetEnabled => "admin.endpoints.set_enabled"
    case EndpointsSetDefault => "admin.endpoints.set_default"
    case ShutDown => "admin.shutdown"
    case TrustList => "admin.trust.list"
    case TrustSet => "admin.trust.set"
    case PeersList => "admin.peers.list"
  }

  function Search(methods: seq<Method>, name: string): (m: Option<Method>)
    ensures m.Some? ==> m.value in methods && Name(m.value) == name
    ensures m.None? ==> forall n :: n in methods ==> Name(n) != name
  {
    if methods == [] then None
    else if Name(methods[0]) == name then Some(methods[0])
    else Search(methods[1..], name)
  }

  function Parse(name: string): Option<Method> {
    Search(ALL, name)
  }

  lemma Listed(m: Method)
    ensures m in ALL
  {
    match m
    case ChannelJoin => assert ALL[0] == m;
    case ChannelLeave => assert ALL[1] == m;
    case BroadcastPublish => assert ALL[2] == m;
    case DirectSend => assert ALL[3] == m;
    case QueryEndpoints => assert ALL[4] == m;
    case ReadStatus => assert ALL[5] == m;
    case EndpointsList => assert ALL[6] == m;
    case EndpointsRevoke => assert ALL[7] == m;
    case EndpointsSetEnabled => assert ALL[8] == m;
    case EndpointsSetDefault => assert ALL[9] == m;
    case ShutDown => assert ALL[10] == m;
    case TrustList => assert ALL[11] == m;
    case TrustSet => assert ALL[12] == m;
    case PeersList => assert ALL[13] == m;
  }

  /** What tells names of one length apart. */
  function Mark(m: Method): (nat, char, char)
  {
    match m
    case ChannelJoin => (12, 'l', 'n')
    case ChannelLeave => (13, 'l', 'e')
    case BroadcastPublish => (17, 'a', 'h')
    case DirectSend => (11, '.', 'd')
    case QueryEndpoints => (15, 'n', 'y')
    case ReadStatus => (12, 's', 's')
    case EndpointsList => (20, 'e', 't')
    case EndpointsRevoke => (22, 'e', 'e')
    case EndpointsSetEnabled => (27, 'e', 'd')
    case EndpointsSetDefault => (27, 'e', 't')
    case ShutDown => (14, 's', 'n')
    case TrustList => (16, 't', 't')
    case TrustSet => (15, 't', 't')
    case PeersList => (16, 'p', 't')
  }

  lemma NameIsMarked(m: Method, name: string)
    requires name == Name(m)
    ensures |name| > 6 && Mark(m) == (|name|, name[6], name[|name| - 1])
  {
  }

  lemma MarksDiffer(a: Method, b: Method)
    requires Mark(a) == Mark(b)
    ensures a == b
  {
  }

  lemma SearchInvertsName(methods: seq<Method>, name: string, m: Method)
    requires m in methods
    ensures Search(methods, name) == Some(m) <==> name == Name(m)
  {
    var found := Search(methods, name);
    if name == Name(m) {
      NameIsMarked(m, name);
      NameIsMarked(found.value, name);
      MarksDiffer(m, found.value);
    }
  }

  /** A name names one method, and every method has a name that names it. */
  lemma ParseInvertsName(name: string, m: Method)
    ensures Parse(name) == Some(m) <==> name == Name(m)
  {
    Listed(m);
    SearchInvertsName(ALL, name, m);
  }

  // -----------------------------------------------------------------
  // The table, read the other way

  /** What a capability is for, by wire name: all that a connection that holds it
      and nothing else may ask for at `minor`. */
  ghost function NamesOf(c: Capability, minor: nat): set<string> {
    match c
    case Events => {}
    case Commands => {"channel.join", "channel.leave", "broadcast.publish", "direct.send"}
    case EndpointsQuery => {"endpoints.query"}
    case AdminStatus => {"admin.status"} + if minor >= 2 then {"admin.peers.list"} else {}
    case AdminEndpoints =>
      {"admin.endpoints.list", "admin.endpoints.revoke", "admin.endpoints.set_enabled", "admin.endpoints.set_default"}
    case AdminShutdown => {"admin.shutdown"}
    case AdminTrust => if minor >= 1 then {"admin.trust.list", "admin.trust.set"} else {}
  }

  lemma MethodIsNamed(m: Method, minor: nat)
    requires EntryOf(m).sinceMinor <= minor
    ensures Name(m) in NamesOf(EntryOf(m).capability, minor)
  {
  }

  lemma NameIsAMethods(c: Capability, minor: nat, name: string) returns (m: Method)
    requires name in NamesOf(c, minor)
    ensures Name(m) == name && EntryOf(m).capability == c && EntryOf(m).sinceMinor <= minor
  {
    match c
    case Commands =>
      m := if name == "channel.join" then ChannelJoin else if name == "channel.leave" then ChannelLeave
           else if name == "broadcast.publish" then BroadcastPublish else DirectSend;
    case EndpointsQuery => m := QueryEndpoints;
    case AdminStatus => m := if name == "admin.status" then ReadStatus else PeersList;
    case AdminEndpoints =>
      m := if name == "admin.endpoints.list" then EndpointsList
           else if name == "admin.endpoints.revoke" then EndpointsRevoke
           else if name == "admin.endpoints.set_enabled" then EndpointsSetEnabled else EndpointsSetDefault;
    case AdminShutdown => m := ShutDown;
    case AdminTrust => m := if name == "admin.trust.list" then TrustList else TrustSet;
  }

  /** A method's capability and minor are those under which its name is listed. */
  lemma TableIsTheNames(m: Method, c: Capability, minor: nat)
    ensures Name(m) in NamesOf(c, minor) <==> EntryOf(m).capability == c && EntryOf(m).sinceMinor <= minor
  {
    if Name(m) in NamesOf(c, minor) {
      var n := NameIsAMethods(c, minor, Name(m));
      ParseInvertsName(Name(m), m);
      ParseInvertsName(Name(m), n);
    } else if EntryOf(m).capability == c && EntryOf(m).sinceMinor <= minor {
      MethodIsNamed(m, minor);
    }
  }
}
