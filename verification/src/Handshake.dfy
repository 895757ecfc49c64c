/** The hello exchange (crates/api/ipc-protocol/src/handshake.rs, and the
    server's hello phase, crates/local/ipc-server/src/hello.rs): what a
    connection may hold, decided from its frame and the socket it came by. */
module Handshake {
  import opened Common
  import opened Catalogue

  const MAX_REQUESTED: nat := 8
  const MAX_CLIENT_KIND_CHARS: nat := 64
  const MAX_GRANTED_CAPABILITIES: nat := 8
  const FEATURE_KEEPALIVE: string := "keepalive"

  datatype ClientInfo = ClientInfo(kind: string, version: Option<string>)

  datatype Hello = Hello(
    ipcVersion: IpcVersion, client: ClientInfo, endpoint: Option<string>,
    requested: set<Capability>, features: set<string>)

  datatype Outcome = Outcome(
    grantedData: set<DataCapability>, grantedAdmin: set<AdminCapability>, endpoint: Option<string>)

  function CapabilitiesAvailable(h: Hello, version: IpcVersion): bool {
    forall c :: c in h.requested ==> version.minor >= CapabilitySince(c)
  }

  function DataAsked(h: Hello): set<DataCapability> {
    set c | c in h.requested && AsData(c).Some? :: AsData(c).value
  }

  function AdminAsked(h: Hello): set<AdminCapability> {
    set c | c in h.requested && AsAdmin(c).Some? :: AsAdmin(c).value
  }

  predicate LegalKind(kind: string) {
    0 < |kind| <= MAX_CLIENT_KIND_CHARS
  }

  /** `wellFormed` is the grammar of endpoint ids. */
  function Evaluate(h: Hello, domain: Domain, keepaliveRequired: bool, wellFormed: string -> bool)
    : Result<Outcome, TransportError>
  {
    if h.ipcVersion.major != IPC_MAJOR then Err(VersionIncompatible)
    else if !LegalKind(h.client.kind) then Err(InvalidArgument)
    else if |h.requested| > MAX_REQUESTED || |h.features| > MAX_REQUESTED then Err(InvalidArgument)
    else
      var wantsAdmin := exists c :: c in h.requested && AsAdmin(c).Some?;
      var wantsData := exists c :: c in h.requested && AsData(c).Some?;
      match domain
      case Data =>
        if h.endpoint.Some? && !wellFormed(h.endpoint.value) then Err(InvalidArgument)
        else if wantsAdmin then Err(CapabilityDenied)
        else if h.endpoint.Some? && keepaliveRequired && FEATURE_KEEPALIVE !in h.features then
          Err(CapabilityDenied)
        else Ok(Outcome(DataAsked(h), {}, h.endpoint))
      case Admin =>
        if h.endpoint.Some? then Err(CapabilityDenied)
        else if wantsData then Err(CapabilityDenied)
        else Ok(Outcome({}, AdminAsked(h), None))
  }

  // -----------------------------------------------------------------
  // What it decides

  /** The grant a capability maps to is held. */
  ghost predicate Granted(o: Outcome, c: Capability) {
    || (AsData(c).Some? && AsData(c).value in o.grantedData)
    || (AsAdmin(c).Some? && AsAdmin(c).value in o.grantedAdmin)
  }

  ghost predicate WithinBounds(h: Hello) {
    h.ipcVersion.major == 2 && 1 <= |h.client.kind| <= 64 && |h.features| <= 8
  }

  /** The capabilities a socket serves. */
  ghost function Served(domain: Domain): set<Capability> {
    match domain
    case Data => {Events, Commands, EndpointsQuery}
    case Admin => {AdminStatus, AdminEndpoints, AdminShutdown, AdminTrust}
  }

  ghost predicate OfOneSide(h: Hello, domain: Domain) {
    h.requested <= Served(domain)
  }

  ghost predicate ClaimAllowed(h: Hello, domain: Domain, keepaliveRequired: bool, wellFormed: string -> bool) {
    h.endpoint.Some? ==>
      && domain == Data
      && wellFormed(h.endpoint.value)
      && (keepaliveRequired ==> "keepalive" in h.features)
  }

  /** There are not more capabilities than a hello may name. */
  lemma CapabilitiesAreFew(asked: set<Capability>)
    ensures |asked| <= 7
  {
    var all := {Events, Commands, EndpointsQuery, AdminStatus, AdminEndpoints, AdminShutdown, AdminTrust};
    forall c | c in asked
      ensures c in all
    {
      match c case Events => case Commands => case EndpointsQuery => case AdminStatus =>
      case AdminEndpoints => case AdminShutdown => case AdminTrust =>
    }
    SubsetsAreSmaller(asked, all);
  }

  /** A hello is granted all it names or refused: everything it names is of
      the socket it came by, and nothing it did not name is granted. */
  lemma EvaluateGrantsAllOrNothing(
    h: Hello, domain: Domain, keepaliveRequired: bool, wellFormed: string -> bool)
    ensures var r := Evaluate(h, domain, keepaliveRequired, wellFormed);
            && (r.Ok? <==>
                  && WithinBounds(h) && OfOneSide(h, domain)
                  && ClaimAllowed(h, domain, keepaliveRequired, wellFormed))
            && (r.Ok? ==> (forall c :: Granted(r.value, c) <==> c in h.requested) && r.value.endpoint == h.endpoint)
            && (r.Ok? && domain == Data ==> r.value.grantedAdmin == {})
            && (r.Ok? && domain == Admin ==> r.value.grantedData == {} && r.value.endpoint == None)
  {
    CapabilitiesAreFew(h.requested);
  }

  /** Which refusal: the frame's own faults first, then a malformed claim on
      the data socket; every other refusal is of a capability. */
  lemma EvaluateNamesTheFault(
    h: Hello, domain: Domain, keepaliveRequired: bool, wellFormed: string -> bool)
    requires Evaluate(h, domain, keepaliveRequired, wellFormed).Err?
    ensures var e := Evaluate(h, domain, keepaliveRequired, wellFormed).error;
            var badClaim := domain == Data && h.endpoint.Some? && !wellFormed(h.endpoint.value);
            && (e == VersionIncompatible <==> h.ipcVersion.major != IPC_MAJOR)
            && (e == InvalidArgument <==> h.ipcVersion.major == IPC_MAJOR && (!WithinBounds(h) || badClaim))
            && (e == CapabilityDenied <==> WithinBounds(h) && !badClaim)
  {
    CapabilitiesAreFew(h.requested);
  }

  /** What a client calls itself decides nothing. */
  lemma LabelsDecideNothing(
    h: Hello, client: ClientInfo, domain: Domain, keepaliveRequired: bool, wellFormed: string -> bool)
    requires LegalKind(h.client.kind) && LegalKind(client.kind)
    ensures Evaluate(h.(client := client), domain, keepaliveRequired, wellFormed)
         == Evaluate(h, domain, keepaliveRequired, wellFormed)
  {
    var g := h.(client := client);
    assert DataAsked(g) == DataAsked(h) && AdminAsked(g) == AdminAsked(h);
  }

  lemma DataOffered(h: Hello)
    ensures |DataAsked(h)| <= 3
  {
    var all := {DataEvents, DataCommands, DataEndpointsQuery};
    forall c | c in DataAsked(h)
      ensures c in all
    {
      match c case DataEvents => case DataCommands => case DataEndpointsQuery =>
    }
    SubsetsAreSmaller(DataAsked(h), all);
  }

  // -----------------------------------------------------------------
  // The hello phase

  /** What opens sessions and administrative ports behind the server; it may
      grant less than it is offered. */
  datatype Binding = Binding(
    data: (string, Option<string>, set<DataCapability>) -> Result<set<DataCapability>, TransportError>,
    admin: set<AdminCapability> -> Result<set<AdminCapability>, TransportError>)

  ghost predicate Narrows(b: Binding) {
    && (forall kind, endpoint, offered ::
          b.data(kind, endpoint, offered).Ok? ==> b.data(kind, endpoint, offered).value <= offered)
    && (forall offered :: b.admin(offered).Ok? ==> b.admin(offered).value <= offered)
  }

  /** A connection past its hello. */
  datatype Connection = Connection(
    domain: Domain, version: IpcVersion,
    grantedData: set<DataCapability>, grantedAdmin: set<AdminCapability>)

  function Establish(
    h: Hello, domain: Domain, keepaliveRequired: bool, wellFormed: string -> bool, b: Binding)
    : Result<Connection, TransportError>
  {
    var version := Negotiate(h.ipcVersion);
    if version.Err? then Err(VersionIncompatible)
    else if !CapabilitiesAvailable(h, version.value) then Err(ProtocolViolation)
    else
      var outcome := Evaluate(h, domain, keepaliveRequired, wellFormed);
      if outcome.Err? then Err(outcome.error)
      else
        match domain
        case Data =>
          var offered := outcome.value.grantedData;
          if !LegalKind(h.client.kind) || |offered| > MAX_GRANTED_CAPABILITIES then Err(InvalidArgument)
          else
            var session := b.data(h.client.kind, outcome.value.endpoint, offered);
            if session.Err? then Err(session.error)
            else Ok(Connection(Data, version.value, session.value, {}))
        case Admin =>
          var port := b.admin(outcome.value.grantedAdmin);
          if port.Err? then Err(port.error)
          else Ok(Connection(Admin, version.value, {}, port.value))
  }

  ghost predicate Holds(conn: Connection, c: Capability) {
    Granted(Outcome(conn.grantedData, conn.grantedAdmin, None), c)
  }

  /** Whatever stands behind the server, a connection holds only what its
      hello named, of its own socket, at a minor both ends speak. */
  lemma ConnectionHoldsOnlyWhatItNamed(
    h: Hello, domain: Domain, keepaliveRequired: bool, wellFormed: string -> bool, b: Binding)
    requires Narrows(b) && Establish(h, domain, keepaliveRequired, wellFormed, b).Ok?
    ensures var conn := Establish(h, domain, keepaliveRequired, wellFormed, b).value;
            && conn.domain == domain
            && conn.version == IpcVersion(IPC_MAJOR, Min(h.ipcVersion.minor, IPC_MAX_MINOR))
            && (domain == Data ==> conn.grantedAdmin == {})
            && (domain == Admin ==> conn.grantedData == {})
            && forall c :: Holds(conn, c) ==>
                 c in h.requested && Side(c) == domain && CapabilitySince(c) <= conn.version.minor
  {
    EvaluateGrantsAllOrNothing(h, domain, keepaliveRequired, wellFormed);
    var conn := Establish(h, domain, keepaliveRequired, wellFormed, b).value;
    var outcome := Evaluate(h, domain, keepaliveRequired, wellFormed).value;
    forall c | Holds(conn, c)
      ensures c in h.requested && Side(c) == domain && CapabilitySince(c) <= conn.version.minor
    {
      assert Granted(outcome, c);
    }
  }

  /** The grants a hello's capabilities stand for, one by one. */
  ghost function DataNamed(h: Hello): set<DataCapability> {
    (if Events in h.requested then {DataEvents} else {})
    + (if Commands in h.requested then {DataCommands} else {})
    + (if EndpointsQuery in h.requested then {DataEndpointsQuery} else {})
  }

  ghost function AdminNamed(h: Hello): set<AdminCapability> {
    (if AdminStatus in h.requested then {Status} else {})
    + (if AdminEndpoints in h.requested then {Endpoints} else {})
    + (if AdminShutdown in h.requested then {Shutdown} else {})
    + (if AdminTrust in h.requested then {Trust} else {})
  }

  lemma AskedIsNamed(h: Hello)
    ensures DataAsked(h) == DataNamed(h) && AdminAsked(h) == AdminNamed(h)
  {
  }

  /** A hello of another major is refused as such; one that names trust below
      the minor that brought it is a violation, whatever else is wrong with it;
      and any other is refused for its own fault. */
  lemma HelloIsRefused(
    h: Hello, domain: Domain, keepaliveRequired: bool, wellFormed: string -> bool, b: Binding)
    ensures var r := Establish(h, domain, keepaliveRequired, wellFormed, b);
            var own := Evaluate(h, domain, keepaliveRequired, wellFormed);
            && (h.ipcVersion.major != 2 ==> r == Err(VersionIncompatible))
            && (h.ipcVersion.major == 2 && AdminTrust in h.requested && h.ipcVersion.minor < 1 ==>
                  r == Err(ProtocolViolation))
            && (h.ipcVersion.major == 2 && !(AdminTrust in h.requested && h.ipcVersion.minor < 1) && own.Err? ==>
                  r == Err(own.error))
  {
  }

  /** What is behind the server is asked what the hello says: under the kind the
      client calls itself, for the endpoint it names, and for exactly the
      capabilities it names; and what it answers is what the connection holds. */
  lemma BindingIsAskedWhatTheHelloSays(
    h: Hello, domain: Domain, keepaliveRequired: bool, wellFormed: string -> bool, b: Binding)
    requires Evaluate(h, domain, keepaliveRequired, wellFormed).Ok?
    requires AdminTrust in h.requested ==> h.ipcVersion.minor >= 1
    ensures var r := Establish(h, domain, keepaliveRequired, wellFormed, b);
            var version := IpcVersion(2, Min(h.ipcVersion.minor, 5));
            match domain
            case Data =>
              var granted := b.data(h.client.kind, h.endpoint, DataNamed(h));
              r == if granted.Ok? then Ok(Connection(Data, version, granted.value, {})) else Err(granted.error)
            case Admin =>
              var granted := b.admin(AdminNamed(h));
              r == if granted.Ok? then Ok(Connection(Admin, version, {}, granted.value)) else Err(granted.error)
  {
    AskedIsNamed(h);
    DataOffered(h);
  }
}
