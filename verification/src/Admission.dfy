/** Admitting requests (crates/api/ipc-protocol/src/request.rs) on connections
    that the hello exchange established: authority is the socket, the hello and
    the negotiated minor, and is judged before the params are looked at. */
module Admission {
  import opened Common
  import opened Catalogue
  import opened Handshake

  datatype Refusal = Unsupported | CrossDomain | NotGranted | Params(code: TransportError)

  datatype RequestFrame<P> = RequestFrame(name: string, params: Option<P>)

  /** How a method's params are read; what a request is then is not modelled. */
  type Decoder<!P, !R> = (Method, Option<P>) -> Result<R, TransportError>

  function Admit<P, R>(conn: Connection, frame: RequestFrame<P>, decode: Decoder<P, R>): Result<R, Refusal> {
    var parsed := Parse(frame.name);
    if parsed.None? || conn.version.minor < EntryOf(parsed.value).sinceMinor then Err(Unsupported)
    else
      var entry := EntryOf(parsed.value);
      if entry.domain != conn.domain then Err(CrossDomain)
      else
        var granted :=
          match (AsData(entry.capability), AsAdmin(entry.capability))
          case (Some(data), _) => data in conn.grantedData
          case (None, Some(admin)) => admin in conn.grantedAdmin
          case (None, None) => false;
        if !granted then Err(NotGranted)
        else
          var request := decode(parsed.value, frame.params);
          if request.Ok? then Ok(request.value) else Err(Params(request.error))
  }

  // -----------------------------------------------------------------
  // Authority

  ghost predicate Known(conn: Connection, m: Method) {
    EntryOf(m).sinceMinor <= conn.version.minor
  }

  /** The connection may ask for `m`, whatever the params. */
  ghost predicate Authorised(conn: Connection, m: Method) {
    Known(conn, m) && EntryOf(m).domain == conn.domain && Holds(conn, EntryOf(m).capability)
  }

  /** A named method is admitted exactly when it is authorised and its params
      are read, and each refusal says how far it came. */
  lemma AdmitDecides<P, R>(conn: Connection, m: Method, params: Option<P>, decode: Decoder<P, R>)
    ensures var r := Admit(conn, RequestFrame(Name(m), params), decode);
            && (r.Ok? <==> Authorised(conn, m) && decode(m, params).Ok?)
            && (r.Ok? ==> r.value == decode(m, params).value)
            && (Authorised(conn, m) && decode(m, params).Err? ==> r == Err(Params(decode(m, params).error)))
            && (r == Err(Unsupported) <==> !Known(conn, m))
            && (r == Err(CrossDomain) <==> Known(conn, m) && EntryOf(m).domain != conn.domain)
            && (r == Err(NotGranted) <==>
                  Known(conn, m) && EntryOf(m).domain == conn.domain && !Holds(conn, EntryOf(m).capability))
  {
    ParseInvertsName(Name(m), m);
    SidesAreApart(EntryOf(m).capability, EntryOf(m).capability);
  }

  /** A name outside the catalogue is never admitted. */
  lemma UnnamedIsUnsupported<P, R>(conn: Connection, frame: RequestFrame<P>, decode: Decoder<P, R>)
    requires forall m :: frame.name != Name(m)
    ensures Admit(conn, frame, decode) == Err(Unsupported)
  {
    if Parse(frame.name).Some? {
      ParseInvertsName(frame.name, Parse(frame.name).value);
    }
  }

  /** A connection without the authority learns nothing of its params. */
  lemma ParamsDecideNothingUnauthorised<P, R>(
    conn: Connection, name: string, p: Option<P>, q: Option<P>, decode: Decoder<P, R>)
    requires forall m :: name == Name(m) ==> !Authorised(conn, m)
    ensures Admit(conn, RequestFrame(name, p), decode) == Admit(conn, RequestFrame(name, q), decode)
    ensures Admit(conn, RequestFrame(name, p), decode).Err?
    ensures !Admit(conn, RequestFrame(name, p), decode).error.Params?
  {
    var parsed := Parse(name);
    if parsed.Some? {
      var m := parsed.value;
      ParseInvertsName(name, m);
      AdmitDecides(conn, m, p, decode);
      AdmitDecides(conn, m, q, decode);
    }
  }

  // -----------------------------------------------------------------
  // From the hello to the requests

  /** What the server answers to a run of requests on one connection. */
  function Answers<P, R>(conn: Connection, frames: seq<RequestFrame<P>>, decode: Decoder<P, R>)
    : (answers: seq<Result<R, Refusal>>)
    ensures |answers| == |frames|
    ensures forall i :: 0 <= i < |frames| ==> answers[i] == Admit(conn, frames[i], decode)
  {
    if frames == [] then []
    else Answers(conn, frames[..|frames| - 1], decode) + [Admit(conn, frames[|frames| - 1], decode)]
  }

  /** The hello named the method's capability, the method is of the socket the
      hello came by, and both ends speak the minor that brought it. */
  ghost predicate Warranted(h: Hello, domain: Domain, m: Method) {
    && EntryOf(m).capability in h.requested
    && EntryOf(m).domain == domain
    && EntryOf(m).sinceMinor <= Min(h.ipcVersion.minor, IPC_MAX_MINOR)
  }

  /** Nothing a client sends is admitted beyond what its hello warrants. */
  lemma AdmittedIsWarranted<P, R>(
    h: Hello, domain: Domain, keepaliveRequired: bool, wellFormed: string -> bool, b: Binding,
    frames: seq<RequestFrame<P>>, decode: Decoder<P, R>, i: nat)
    requires Narrows(b) && Establish(h, domain, keepaliveRequired, wellFormed, b).Ok? && i < |frames|
    requires Answers(Establish(h, domain, keepaliveRequired, wellFormed, b).value, frames, decode)[i].Ok?
    ensures exists m :: frames[i].name == Name(m) && Warranted(h, domain, m) && decode(m, frames[i].params).Ok?
  {
    var conn := Establish(h, domain, keepaliveRequired, wellFormed, b).value;
    ConnectionHoldsOnlyWhatItNamed(h, domain, keepaliveRequired, wellFormed, b);
    var m := Parse(frames[i].name).value;
    ParseInvertsName(frames[i].name, m);
    AdmitDecides(conn, m, frames[i].params, decode);
    assert frames[i] == RequestFrame(Name(m), frames[i].params);
  }

  /** A binding that grants all it is offered. */
  ghost predicate GrantsAll(b: Binding) {
    && (forall kind, endpoint, offered :: b.data(kind, endpoint, offered) == Ok(offered))
    && (forall offered :: b.admin(offered) == Ok(offered))
  }

  /** And all of it is, where policy takes nothing away. */
  lemma WarrantedIsAdmitted<P, R>(
    h: Hello, domain: Domain, keepaliveRequired: bool, wellFormed: string -> bool, b: Binding,
    m: Method, params: Option<P>, decode: Decoder<P, R>)
    requires GrantsAll(b) && Evaluate(h, domain, keepaliveRequired, wellFormed).Ok?
    requires CapabilitiesAvailable(h, IpcVersion(IPC_MAJOR, Min(h.ipcVersion.minor, IPC_MAX_MINOR)))
    requires Warranted(h, domain, m) && decode(m, params).Ok?
    ensures Establish(h, domain, keepaliveRequired, wellFormed, b).Ok?
    ensures Admit(Establish(h, domain, keepaliveRequired, wellFormed, b).value, RequestFrame(Name(m), params), decode)
         == Ok(decode(m, params).value)
  {
    DataOffered(h);
    EvaluateGrantsAllOrNothing(h, domain, keepaliveRequired, wellFormed);
    var outcome := Evaluate(h, domain, keepaliveRequired, wellFormed).value;
    var conn := Establish(h, domain, keepaliveRequired, wellFormed, b).value;
    assert Granted(outcome, EntryOf(m).capability);
    assert Holds(conn, EntryOf(m).capability);
    AdmitDecides(conn, m, params, decode);
  }

  /** By wire name, whatever the hello: the admitted are those listed under the
      capabilities it named at the minor both speak, and where policy takes
      nothing away all of those. */
  lemma AdmittedByName<P, R>(
    h: Hello, domain: Domain, keepaliveRequired: bool, wellFormed: string -> bool, b: Binding,
    name: string, params: Option<P>, decode: Decoder<P, R>)
    requires Narrows(b) && Establish(h, domain, keepaliveRequired, wellFormed, b).Ok?
    requires forall m :: decode(m, params).Ok?
    ensures var r := Admit(Establish(h, domain, keepaliveRequired, wellFormed, b).value,
                           RequestFrame(name, params), decode);
            var listed := exists c :: c in h.requested && name in NamesOf(c, Min(h.ipcVersion.minor, 5));
            (r.Ok? ==> listed) && (GrantsAll(b) && listed ==> r.Ok?)
  {
    var minor := Min(h.ipcVersion.minor, IPC_MAX_MINOR);
    var conn := Establish(h, domain, keepaliveRequired, wellFormed, b).value;
    if Admit(conn, RequestFrame(name, params), decode).Ok? {
      AdmittedIsWarranted(h, domain, keepaliveRequired, wellFormed, b, [RequestFrame(name, params)], decode, 0);
      var m :| name == Name(m) && Warranted(h, domain, m);
      TableIsTheNames(m, EntryOf(m).capability, minor);
    }
    if c :| GrantsAll(b) && c in h.requested && name in NamesOf(c, minor) {
      var m := NameIsAMethods(c, minor, name);
      TableIsCoherent(m);
      EvaluateGrantsAllOrNothing(h, domain, keepaliveRequired, wellFormed);
      WarrantedIsAdmitted(h, domain, keepaliveRequired, wellFormed, b, m, params, decode);
    }
  }

  /** A hello that names one capability is admitted exactly to its names. */
  lemma OneCapabilityAdmits<P, R>(
    h: Hello, c: Capability, domain: Domain, keepaliveRequired: bool, wellFormed: string -> bool, b: Binding,
    name: string, params: Option<P>, decode: Decoder<P, R>)
    requires h.requested == {c} && GrantsAll(b)
    requires Establish(h, domain, keepaliveRequired, wellFormed, b).Ok? && forall m :: decode(m, params).Ok?
    ensures Admit(Establish(h, domain, keepaliveRequired, wellFormed, b).value, RequestFrame(name, params), decode).Ok?
       <==> name in NamesOf(c, Min(h.ipcVersion.minor, 5))
  {
    AdmittedByName(h, domain, keepaliveRequired, wellFormed, b, name, params, decode);
  }

  // -----------------------------------------------------------------
  // Minors are additive

  /** The same hello from a newer client. */
  function Newer(h: Hello, minor: nat): Hello {
    h.(ipcVersion := IpcVersion(h.ipcVersion.major, minor))
  }

  /** A newer client is established wherever the older one is, with the same
      grants, and every request admitted for the older is admitted for it. */
  lemma NewerLosesNothing<P, R>(
    h: Hello, minor: nat, domain: Domain, keepaliveRequired: bool, wellFormed: string -> bool, b: Binding,
    frame: RequestFrame<P>, decode: Decoder<P, R>)
    requires minor >= h.ipcVersion.minor && Establish(h, domain, keepaliveRequired, wellFormed, b).Ok?
    ensures var older := Establish(h, domain, keepaliveRequired, wellFormed, b).value;
            var newer := Establish(Newer(h, minor), domain, keepaliveRequired, wellFormed, b);
            && newer.Ok?
            && newer.value.grantedData == older.grantedData && newer.value.grantedAdmin == older.grantedAdmin
            && (Admit(older, frame, decode).Ok? ==>
                  Admit(newer.value, frame, decode) == Admit(older, frame, decode))
  {
    var g := Newer(h, minor);
    assert DataAsked(g) == DataAsked(h) && AdminAsked(g) == AdminAsked(h);
    assert Evaluate(g, domain, keepaliveRequired, wellFormed) == Evaluate(h, domain, keepaliveRequired, wellFormed);
    var older := Establish(h, domain, keepaliveRequired, wellFormed, b).value;
    var newer := Establish(g, domain, keepaliveRequired, wellFormed, b).value;
    if Admit(older, frame, decode).Ok? {
      var m := Parse(frame.name).value;
      ParseInvertsName(frame.name, m);
      assert frame == RequestFrame(Name(m), frame.params);
      AdmitDecides(older, m, frame.params, decode);
      AdmitDecides(newer, m, frame.params, decode);
    }
  }
}
