/**
 * The Single Logout orchestrator of lib/logout.js, on the Identity
 * Provider's side. One handler serves three kinds of request: a
 * LogoutRequest from a Service Provider (SP-initiated), a LogoutResponse
 * from a Service Provider that was sent a LogoutRequest (continuation),
 * and anything else (IdP-initiated). Between requests the state lives in
 * the mutable options object (destination, binding, RelayState and
 * signature location of the next message), the session-participant
 * registry and the transaction store.
 *
 * Each step is a function from the state before to the state after and
 * the HTTP reply; the methods of `LogoutHandler` change the objects in
 * place and are proved to do what these functions say.
 */
module Logout {
  import opened Js
  import opened Saml
  import opened Utils
  import opened Participants
  import opened MemoryStore
  import TrimXml

  /** The part of an SP's LogoutRequest kept for the final LogoutResponse. */
  datatype ParsedRequest = ParsedRequest(id: Option<string>, serviceProviderLogoutURL: Option<string>)

  /**
   * A value of the transaction store. A transaction is `{}` (IdP-initiated)
   * or holds the originating request and its RelayState; the state of an
   * outstanding LogoutRequest holds the transaction key and the identity of
   * the participant; `global_status` is set to "failed" on the transaction
   * when a participant does not log out.
   */
  datatype StateObject = StateObject(
    transactionId: Option<string>,
    sessionIndex: Option<string>,
    issuer: Option<string>,
    nameId: Option<string>,
    parsedRequest: Option<ParsedRequest>,
    relayState: Option<string>,
    globalStatus: Option<string>)

  /** `{}`. */
  const EmptyState := StateObject(None, None, None, None, None, None, None)

  /** The in-memory store indexes its dictionary by `String(key)`: an absent key is "undefined". */
  function StoreKey(k: Option<string>): string {
    Printed(k)
  }

  /** The `options.error` object of `sendLogoutError`. */
  datatype ErrorInfo = ErrorInfo(code: Option<string>, description: Option<string>)

  /**
   * The options the core reads but never writes. `signingCert` is `None`
   * when the options object has no such property.
   */
  datatype Config = Config(
    deflate: bool,
    issuer: Option<string>,
    nonce: Option<string>,
    samlStatusMessage: Option<string>,
    signingCert: Option<string>,
    thumbprints: Option<string>,
    inResponseTo: Option<string>,
    error: Option<ErrorInfo>)

  /** The options the core overwrites to address the next outgoing message. */
  datatype OptState = OptState(
    destination: Option<string>,
    protocolBinding: Option<string>,
    relayState: Option<string>,
    reference: Option<string>)

  /** The reply written to the HTTP response, or the error handed to `next`. */
  datatype Reply =
    | Failed(error: LogoutError)
    | Ok200
    | PostForm(prop: string, callback: Option<string>, relayState: string, token: string, nonce: string)
    | Redirect(destination: Option<string>, params: Obj)

  /**
   * What the handler draws from randomness and the clock in one request:
   * the store keys of a new transaction and of a new LogoutRequest state
   * (`uid` in the store), and the ID and IssueInstant of the message it
   * builds.
   */
  datatype Draws = Draws(transactionKey: string, relayKey: string, uniqueId: string, instant: string)

  /** Everything a request can change: the registry, the store's dictionary and the mutable options. */
  datatype World = World(participants: seq<Participant>, memory: map<string, StateObject>, opts: OptState)

  /** `trimXML(token)`: parse, drop the blank text nodes, serialise. */
  function TrimmedToken(env: Env, token: string): string {
    env.serializeDom(TrimXml.Pruned(env.parseDom(token)))
  }

  /** `send(params)`: an auto-submitting form for HTTP-POST, a redirect for HTTP-Redirect. */
  function Send(cfg: Config, o: OptState, prop: string, params: Obj): (r: Reply)
    ensures r.PostForm? <==> o.protocolBinding != Some(HttpRedirect)
    ensures r.Redirect? <==> o.protocolBinding == Some(HttpRedirect)
    ensures r.PostForm? ==> r.callback == o.destination && r.prop == prop
    ensures r.Redirect? ==> r.destination == o.destination && r.params == params
  {
    if o.protocolBinding != Some(HttpRedirect) then
      PostForm(prop, o.destination, OrEmpty(ObjGet(params, "RelayState")), OrEmpty(ObjGet(params, prop)),
               if Truthy(cfg.nonce) then cfg.nonce.value else "")
    else Redirect(o.destination, params)
  }

  /**
   * `prepareAndSendToken`: the `params` object starts as the message
   * placeholder and `RelayState` (`options.relayState || ""`). For POST, or
   * Redirect without DEFLATE, the trimmed token is signed in place and
   * base64-encoded. For Redirect with DEFLATE it is deflated and encoded, an
   * empty RelayState is deleted, and `SigAlg` and the detached `Signature`
   * over the serialised parameters are appended.
   */
  function TokenReply(env: Env, cfg: Config, o: OptState, kind: MessageKind, token: string): Reply {
    var prop := Prop(kind);
    var rs := if Truthy(o.relayState) then o.relayState.value else "";
    var params := ObjSet(ObjSet([], prop, ""), "RelayState", rs);
    var xml := TrimmedToken(env, token);
    if o.protocolBinding != Some(HttpRedirect) || !cfg.deflate then
      match env.signXml(o.reference, xml)
      case None => Failed(SigningFailed)
      case Some(signed) => Send(cfg, o, prop, ObjSet(params, prop, env.encodeBase64(env.utf8Encode(signed))))
    else
      match env.deflateRaw(env.utf8Encode(xml))
      case None => Failed(DeflateFailed)
      case Some(bytes) =>
        var p1 := ObjSet(params, prop, env.encodeBase64(bytes));
        var p2 := if ObjGet(p1, "RelayState") == Some("") then ObjDelete(p1, "RelayState") else p1;
        var p3 := ObjSet(p2, "SigAlg", env.sigAlg);
        Send(cfg, o, prop, ObjSet(p3, "Signature", env.sign(env.stringify(p3))))
  }

  /** The state saved for the LogoutRequest sent to `p` within transaction `tid`. */
  function RequestState(tid: Option<string>, p: Participant): (st: StateObject)
    ensures st.transactionId == tid && st.issuer == p.serviceProviderId
    ensures st.sessionIndex == p.sessionIndex && st.nameId == p.nameId
    ensures st.parsedRequest.None? && st.globalStatus.None?
  {
    EmptyState.(transactionId := tid, sessionIndex := p.sessionIndex, issuer := p.serviceProviderId, nameId := p.nameId)
  }

  /** The LogoutRequest template fields for participant `p`. */
  function RequestFields(cfg: Config, draws: Draws, p: Participant): LogoutRequestFields {
    LogoutRequestFields(draws.uniqueId, draws.instant, cfg.issuer, p.nameId, p.nameIdFormat, p.sessionIndex,
                        p.serviceProviderLogoutURL)
  }

  /** The status a final LogoutResponse carries. */
  function FinalStatus(partial: bool): string {
    if partial then StatusPartialLogout else StatusSuccess
  }

  /** The LogoutResponse template fields of `finalize`, answering the stored request `data`. */
  function FinalResponseFields(cfg: Config, o: OptState, data: ParsedRequest, draws: Draws, partial: bool): LogoutResponseFields {
    LogoutResponseFields("_" + draws.uniqueId, draws.instant, data.id, Or(data.serviceProviderLogoutURL, o.destination), cfg.issuer,
                         Some(FinalStatus(partial)), cfg.samlStatusMessage)
  }

  /**
   * `finalize(transactionId)`: load and destroy the transaction. Without a
   * transaction or without an originating request (IdP-initiated) the reply
   * is a bare 200. Otherwise a LogoutResponse goes to the originator:
   * PartialLogout when the transaction is marked failed or the IdP session
   * could not be cleared, Success otherwise. The binding is left as the
   * last dispatch set it, since the stored request has no binding.
   */
  function FinalizeStep(env: Env, cfg: Config, w: World, tid: Option<string>, draws: Draws, clearFails: bool): (r: (World, Reply))
    ensures r.0.participants == w.participants
    ensures r.0.memory == w.memory - {StoreKey(tid)}
    ensures r.0.opts.protocolBinding == w.opts.protocolBinding
    ensures r.1 == Ok200 <==> StoreKey(tid) !in w.memory || w.memory[StoreKey(tid)].parsedRequest.None?
    ensures r.1 == Ok200 ==> r.0.opts == w.opts
  {
    var key := StoreKey(tid);
    var tx := Lookup(w.memory, key);
    var memory := AfterLoad(w.memory, key, Some(LoadOptions(true)));
    var partial := (tx.Some? && tx.value.globalStatus == Some("failed")) || clearFails;
    if tx.None? || tx.value.parsedRequest.None? then (w.(memory := memory), Ok200)
    else
      var data := tx.value.parsedRequest.value;
      var xml := env.logoutResponseXml(FinalResponseFields(cfg, w.opts, data, draws, partial));
      var o := w.opts.(reference := Some(env.responseSignatureLocation),
                       destination := Or(data.serviceProviderLogoutURL, w.opts.destination),
                       relayState := tx.value.relayState);
      var reply := TokenReply(env, cfg, o, LogoutResponse, xml);
      assert reply != Ok200;
      (w.(memory := memory, opts := o), reply)
  }

  /**
   * `prepareAndSendLogoutRequest(transactionId)`: with no participant left,
   * finalize. Otherwise save the state of a LogoutRequest to the first
   * participant under a new key, address the options to that participant
   * (its URL, its binding when it has one, the new key as RelayState) and
   * send the request. The registry itself is never changed here.
   */
  function DispatchStep(env: Env, cfg: Config, w: World, tid: Option<string>, draws: Draws, clearFails: bool): (r: (World, Reply))
    ensures r.0.participants == w.participants
    ensures w.participants == [] ==> r == FinalizeStep(env, cfg, w, tid, draws, clearFails)
    ensures w.participants != [] ==>
              var p := w.participants[0];
              && r.0.memory == w.memory[draws.relayKey := RequestState(tid, p)]
              && r.0.opts == w.opts.(destination := p.serviceProviderLogoutURL,
                                     protocolBinding := Or(p.serviceProviderLogoutBinding, w.opts.protocolBinding),
                                     relayState := Some(draws.relayKey))
              && r.1 == TokenReply(env, cfg, r.0.opts, LogoutRequest, env.logoutRequestXml(RequestFields(cfg, draws, p)))
  {
    if w.participants == [] then FinalizeStep(env, cfg, w, tid, draws, clearFails)
    else
      var p := w.participants[0];
      var memory := w.memory[draws.relayKey := RequestState(tid, p)];
      var xml := env.logoutRequestXml(RequestFields(cfg, draws, p));
      var o := w.opts.(destination := p.serviceProviderLogoutURL,
                       protocolBinding := Or(p.serviceProviderLogoutBinding, w.opts.protocolBinding),
                       relayState := Some(draws.relayKey));
      (World(w.participants, memory, o), TokenReply(env, cfg, o, LogoutRequest, xml))
  }

  /**
   * The `getCredentials` resolver of the SP-initiated branch: an unknown
   * participant is an error (ignored by the caller, so the request is not
   * checked), a participant without a certificate hands back nothing, and
   * otherwise its certificate and its single thumbprint are handed back.
   */
  function LogoutCredentials(ps: seq<Participant>, issuer: Option<string>, sessionIndex: Option<string>, nameId: Option<string>): (r: ResolverReply)
    ensures r.credentials.Some? <==> (var p := Find(ps, issuer, sessionIndex, nameId); p.Some? && Truthy(p.value.cert))
    ensures r.credentials.Some? ==> r.credentials.value == Credentials(Find(ps, issuer, sessionIndex, nameId).value.cert,
                                                                   Find(ps, issuer, sessionIndex, nameId).value.thumbprint, None)
    ensures r.err.Some? <==> Find(ps, issuer, sessionIndex, nameId).None?
  {
    match Find(ps, issuer, sessionIndex, nameId)
    case None => ResolverReply(Some(InvalidSessionParticipant), None)
    case Some(session) =>
      if !Truthy(session.cert) then ResolverReply(None, None)
      else ResolverReply(None, Some(Credentials(session.cert, session.thumbprint, None)))
  }

  function LogoutResolver(ps: seq<Participant>): Resolver {
    (issuer, sessionIndex, nameId) => LogoutCredentials(ps, issuer, sessionIndex, nameId)
  }

  /** The options the SP-initiated branch passes to `parseSamlRequest`: the resolver and nothing else. */
  function LogoutCredState(ps: seq<Participant>): CredState {
    CredState(None, None, None, None, Some(LogoutResolver(ps)))
  }

  /** The data `parseIncomingLogoutRequest` reads from the request document. */
  datatype RequestData = RequestData(
    issuer: Option<string>, sessionIndex: Option<string>, nameId: Option<string>, nameIdFormat: Option<string>,
    destination: Option<string>, id: Option<string>, signature: Option<string>)

  function NonEmpty(s: string): (r: Option<string>)
    ensures r.Some? ==> r.value == s
    ensures r.None? <==> s == ""
  {
    if s != "" then Some(s) else None
  }

  /** `parseIncomingLogoutRequest`'s data: the Destination and ID attributes only when non-empty, the format only with a NameID. */
  function ReadRequest(doc: XmlDoc): (d: RequestData)
    ensures d.issuer == doc.issuer && d.sessionIndex == doc.sessionIndex && d.nameId == doc.nameId
    ensures d.nameIdFormat.Some? <==> doc.nameId.Some?
    ensures d.id.Some? <==> doc.idAttr != ""
  {
    RequestData(doc.issuer, doc.sessionIndex, doc.nameId, if doc.nameId.Some? then Some(doc.nameIdFormat) else None,
                NonEmpty(doc.destinationAttr), NonEmpty(doc.idAttr), doc.signature)
  }

  /**
   * `validateSamlResponse`: decode the SAMLResponse (inflating it unless it
   * came in the body or DEFLATE is off), read its status, and check its
   * signature only when the participant has a certificate. The check uses
   * the options with the participant's certificate as a default that an
   * own `signingCert` option overrides, and the RelayState the options hold
   * now.
   */
  function ResponseCheck(env: Env, cfg: Config, o: OptState, req: HttpRequest, p: Participant): (r: Result<ParsedResponse>)
    ensures r.Ok? ==> var bytes := ResponseBytes(env, cfg, req);
                      && bytes.Some? && env.parseXml(env.utf8Decode(bytes.value)).Some?
                      && r.value == ReadResponse(env.parseXml(env.utf8Decode(bytes.value)).value)
    ensures r.Ok? && Truthy(p.cert) ==>
              var doc := env.parseXml(env.utf8Decode(ResponseBytes(env, cfg, req).value)).value;
              ValidateSignature(env, req, LogoutResponse, doc, ResponseOptions(cfg, o, p)).Valid?
    ensures !Truthy(p.cert) ==>
              (r.Ok? <==> var bytes := ResponseBytes(env, cfg, req);
                          bytes.Some? && env.parseXml(env.utf8Decode(bytes.value)).Some?)
    ensures r == Err(InflateFailed) <==> ResponseBytes(env, cfg, req).None?
    ensures var bytes := ResponseBytes(env, cfg, req);
            bytes.Some? && env.parseXml(env.utf8Decode(bytes.value)).None? ==> r == Err(XmlParseFailed)
    ensures var bytes := ResponseBytes(env, cfg, req);
            bytes.Some? && env.parseXml(env.utf8Decode(bytes.value)).Some? && Truthy(p.cert) ==>
              var doc := env.parseXml(env.utf8Decode(bytes.value)).value;
              var verdict := ValidateSignature(env, req, LogoutResponse, doc, ResponseOptions(cfg, o, p));
              r == if verdict.Valid? then Ok(ReadResponse(doc)) else Err(verdict.error)
  {
    match ResponseBytes(env, cfg, req)
    case None => Err(InflateFailed)
    case Some(bytes) =>
      match env.parseXml(env.utf8Decode(bytes))
      case None => Err(XmlParseFailed)
      case Some(doc) =>
        var parsed := ReadResponse(doc);
        if !Truthy(p.cert) then Ok(parsed)
        else match ValidateSignature(env, req, LogoutResponse, doc, ResponseOptions(cfg, o, p))
          case Valid => Ok(parsed)
          case Invalid(e) => Err(e)
  }

  /** The decoded SAMLResponse bytes, inflated on the Redirect-with-DEFLATE path. */
  function ResponseBytes(env: Env, cfg: Config, req: HttpRequest): Option<seq<byte>> {
    var input := env.decodeBase64(OrEmpty(Param(req, "SAMLResponse")));
    if Truthy(Body(req, "SAMLResponse")) || !cfg.deflate then Some(input) else env.inflateRaw(input)
  }

  /** `xtend({signingCert: participant.cert}, options)`, as the signature check reads it. */
  function ResponseOptions(cfg: Config, o: OptState, p: Participant): (v: ValidationOptions)
    ensures v.signingCert == if cfg.signingCert.Some? then cfg.signingCert else p.cert
    ensures v.relayState == o.relayState && v.deflate == cfg.deflate && v.thumbprints == cfg.thumbprints
  {
    ValidationOptions(if cfg.signingCert.Some? then cfg.signingCert else p.cert, cfg.thumbprints, cfg.deflate, o.relayState)
  }

  /**
   * The SP-initiated branch: parse the LogoutRequest, refuse one without an
   * issuer, and refuse an unknown sender unless `options.destination` is
   * set. Otherwise save a transaction with the request's ID, the address of
   * the reply and the request's RelayState, remove the sender from the
   * registry and dispatch to the others.
   */
  function SpInitiatedStep(env: Env, cfg: Config, w: World, req: HttpRequest, draws: Draws, clearFails: bool): (r: (World, Reply))
    requires Truthy(Param(req, "SAMLRequest"))
  {
    var (outcome, _) := ParseRequest(env, req, Param(req, "SAMLRequest"), LogoutRequest, LogoutCredState(w.participants));
    match outcome
    case NoMessage => assert false; (w, Ok200)
    case Rejected(e) => (w, Failed(e))
    case Parsed(doc) =>
      var data := ReadRequest(doc);
      if !Truthy(data.issuer) then (w, Failed(MissingIssuer))
      else
        var session := Find(w.participants, data.issuer, data.sessionIndex, data.nameId);
        if session.None? && !Truthy(w.opts.destination) then (w, Failed(InvalidSessionParticipant))
        else
          var url := Or(if session.Some? then session.value.serviceProviderLogoutURL else None, w.opts.destination);
          var spData := EmptyState.(parsedRequest := Some(ParsedRequest(data.id, url)), relayState := Param(req, "RelayState"));
          var memory := w.memory[draws.transactionKey := spData];
          var participants := Removal(w.participants, data.issuer, data.sessionIndex, data.nameId).0;
          DispatchStep(env, cfg, World(participants, memory, w.opts), Some(draws.transactionKey), draws, clearFails)
  }

  /** `process(state, transactionId)`: remove the participant the state names and dispatch to the next. */
  function ProcessStep(env: Env, cfg: Config, w: World, st: StateObject, draws: Draws, clearFails: bool): (r: (World, Reply)) {
    var participants := Removal(w.participants, st.issuer, st.sessionIndex, st.nameId).0;
    DispatchStep(env, cfg, w.(participants := participants), st.transactionId, draws, clearFails)
  }

  /**
   * The continuation branch: the RelayState must name a saved LogoutRequest
   * state (destroyed on reading), the participant it names must still be
   * registered and its LogoutResponse must pass. A status other than
   * Success marks the transaction failed first; a transaction that is gone
   * by then makes that marking throw.
   */
  function ContinuationStep(env: Env, cfg: Config, w: World, req: HttpRequest, draws: Draws, clearFails: bool): (r: (World, Reply))
  {
    var key := StoreKey(Param(req, "RelayState"));
    var state := Lookup(w.memory, key);
    var w1 := w.(memory := AfterLoad(w.memory, key, Some(LoadOptions(true))));
    if state.None? then (w1, Failed(InvalidRelayState))
    else
      var st := state.value;
      var session := Find(w1.participants, st.issuer, st.sessionIndex, st.nameId);
      if session.None? then (w1, Failed(InvalidSessionParticipant))
      else
        match ResponseCheck(env, cfg, w1.opts, req, session.value)
        case Err(e) => (w1, Failed(e))
        case Ok(response) =>
          if response.status == Some(StatusSuccess) then ProcessStep(env, cfg, w1, st, draws, clearFails)
          else
            var tkey := StoreKey(st.transactionId);
            match Lookup(w1.memory, tkey)
            case None => (w1, Failed(NoGlobalState))
            case Some(g) =>
              var memory := w1.memory[tkey := g.(globalStatus := Some("failed"))];
              ProcessStep(env, cfg, w1.(memory := memory), st, draws, clearFails)
  }

  /** The IdP-initiated branch: save an empty transaction and dispatch. */
  function IdpInitiatedStep(env: Env, cfg: Config, w: World, draws: Draws, clearFails: bool): (r: (World, Reply))
    ensures r == DispatchStep(env, cfg, w.(memory := w.memory[draws.transactionKey := EmptyState]), Some(draws.transactionKey), draws, clearFails)
  {
    DispatchStep(env, cfg, w.(memory := w.memory[draws.transactionKey := EmptyState]), Some(draws.transactionKey), draws, clearFails)
  }

  /** The handler returned by `logout(options)`: the branch is chosen by the parameters present. */
  function HandleStep(env: Env, cfg: Config, w: World, req: HttpRequest, draws: Draws, clearFails: bool): (r: (World, Reply)) {
    if Truthy(Param(req, "SAMLRequest")) then SpInitiatedStep(env, cfg, w, req, draws, clearFails)
    else if Truthy(Param(req, "SAMLResponse")) then ContinuationStep(env, cfg, w, req, draws, clearFails)
    else IdpInitiatedStep(env, cfg, w, draws, clearFails)
  }

  /** The LogoutResponse template fields of `sendLogoutError`: the configured error code, Responder by default. */
  function ErrorResponseFields(cfg: Config, o: OptState, draws: Draws): LogoutResponseFields {
    var error := if cfg.error.Some? then cfg.error.value else ErrorInfo(None, None);
    LogoutResponseFields("_" + draws.uniqueId, draws.instant, cfg.inResponseTo, o.destination, cfg.issuer,
                         Or(error.code, Some(StatusResponder)), error.description)
  }

  /**
   * The handler returned by `sendLogoutError(options)`: without a
   * destination it fails; otherwise a LogoutResponse with the configured
   * error code (Responder by default) and description, signed at the
   * response location, carrying the first truthy of the options', the
   * query's and the body's RelayState.
   */
  function LogoutErrorStep(env: Env, cfg: Config, o: OptState, req: HttpRequest, draws: Draws): (r: (OptState, Reply))
    ensures !Truthy(o.destination) ==> r == (o, Failed(DestinationNotSpecified))
    ensures Truthy(o.destination) ==>
              r.0 == o.(reference := Some(env.responseSignatureLocation),
                        relayState := Or(Or(o.relayState, Query(req, "RelayState")), Body(req, "RelayState")))
  {
    if !Truthy(o.destination) then (o, Failed(DestinationNotSpecified))
    else
      var xml := env.logoutResponseXml(ErrorResponseFields(cfg, o, draws));
      var o' := o.(reference := Some(env.responseSignatureLocation),
                   relayState := Or(Or(o.relayState, Query(req, "RelayState")), Body(req, "RelayState")));
      (o', TokenReply(env, cfg, o', LogoutResponse, xml))
  }

  /** The options object: the fields the core overwrites, and the rest as configured. */
  class LogoutOptions {
    var destination: Option<string>
    var protocolBinding: Option<string>
    var relayState: Option<string>
    var reference: Option<string>
    const config: Config

    function State(): OptState
      reads this
    {
      OptState(destination, protocolBinding, relayState, reference)
    }

    constructor (config: Config, o: OptState)
      ensures State() == o && this.config == config
    {
      destination := o.destination;
      protocolBinding := o.protocolBinding;
      relayState := o.relayState;
      reference := o.reference;
      this.config := config;
    }
  }

  /**
   * `sendLogoutError(options)(req, res, next)`; see `LogoutErrorStep`.
   */
  method SendLogoutError(env: Env, options: LogoutOptions, req: HttpRequest, draws: Draws) returns (reply: Reply)
    modifies options
    ensures (options.State(), reply) == LogoutErrorStep(env, options.config, old(options.State()), req, draws)
  {
    if !Truthy(options.destination) {
      return Failed(DestinationNotSpecified);
    }
    var logoutResponse := env.logoutResponseXml(ErrorResponseFields(options.config, options.State(), draws));
    options.reference := Some(env.responseSignatureLocation);
    options.relayState := Or(Or(options.relayState, Query(req, "RelayState")), Body(req, "RelayState"));
    reply := TokenReply(env, options.config, options.State(), LogoutResponse, logoutResponse);
  }

  /**
   * The closure `logout(options)` returns, with the registry and the store
   * it captured. `clearFails` says whether `clearIdPSession` reports an
   * error on this request.
   */
  class LogoutHandler {
    const options: LogoutOptions
    const registry: SessionParticipants
    const store: InMemoryStore<StateObject>
    const env: Env

    function Snapshot(): World
      reads options, registry, store
    {
      World(registry.participants, store.memory, options.State())
    }

    constructor (options: LogoutOptions, registry: SessionParticipants, store: InMemoryStore<StateObject>, env: Env)
      ensures this.options == options && this.registry == registry && this.store == store && this.env == env
    {
      this.options := options;
      this.registry := registry;
      this.store := store;
      this.env := env;
    }

    /** `finalize`; see `FinalizeStep`. */
    method Finalize(transactionId: Option<string>, draws: Draws, clearFails: bool) returns (reply: Reply)
      modifies options, store
      ensures (Snapshot(), reply) == FinalizeStep(env, options.config, old(Snapshot()), transactionId, draws, clearFails)
    {
      ghost var w := Snapshot();
      var transaction := store.Load(StoreKey(transactionId), Some(LoadOptions(true)));
      assert Snapshot() == w.(memory := w.memory - {StoreKey(transactionId)});
      var isPartialLogout := transaction.Some? && transaction.value.globalStatus == Some("failed");
      if clearFails {
        isPartialLogout := true;
      }
      if transaction.None? || transaction.value.parsedRequest.None? {
        return Ok200;
      }
      var data := transaction.value.parsedRequest.value;
      var logoutResponse := env.logoutResponseXml(FinalResponseFields(options.config, options.State(), data, draws, isPartialLogout));
      options.reference := Some(env.responseSignatureLocation);
      options.destination := Or(data.serviceProviderLogoutURL, options.destination);
      options.relayState := transaction.value.relayState;
      assert options.State() == w.opts.(reference := Some(env.responseSignatureLocation),
                                        destination := Or(data.serviceProviderLogoutURL, w.opts.destination),
                                        relayState := transaction.value.relayState);
      reply := TokenReply(env, options.config, options.State(), LogoutResponse, logoutResponse);
    }

    /** `prepareAndSendLogoutRequest`; see `DispatchStep`. */
    method PrepareAndSendLogoutRequest(transactionId: Option<string>, draws: Draws, clearFails: bool) returns (reply: Reply)
      modifies options, store
      ensures (Snapshot(), reply) == DispatchStep(env, options.config, old(Snapshot()), transactionId, draws, clearFails)
    {
      var has := registry.HasElements();
      if !has {
        reply := Finalize(transactionId, draws, clearFails);
        return;
      }
      var participant := registry.GetFirst();
      var p := participant.value;
      var relayState := store.Save(draws.relayKey, RequestState(transactionId, p));
      var logoutRequest := env.logoutRequestXml(RequestFields(options.config, draws, p));
      options.destination := p.serviceProviderLogoutURL;
      options.protocolBinding := Or(p.serviceProviderLogoutBinding, options.protocolBinding);
      options.relayState := Some(relayState);
      reply := TokenReply(env, options.config, options.State(), LogoutRequest, logoutRequest);
    }

    /** `validateSamlResponse`; see `ResponseCheck`. */
    method ValidateSamlResponse(req: HttpRequest, participant: Participant) returns (r: Result<ParsedResponse>)
      ensures r == ResponseCheck(env, options.config, options.State(), req, participant)
    {
      var bytes := ResponseBytes(env, options.config, req);
      if bytes.None? {
        return Err(InflateFailed);
      }
      var xml := env.parseXml(env.utf8Decode(bytes.value));
      if xml.None? {
        return Err(XmlParseFailed);
      }
      var parsedResponse := ReadResponse(xml.value);
      if !Truthy(participant.cert) {
        return Ok(parsedResponse);
      }
      var verdict := ValidateSignature(env, req, LogoutResponse, xml.value, ResponseOptions(options.config, options.State(), participant));
      r := if verdict.Valid? then Ok(parsedResponse) else Err(verdict.error);
    }

    /** The SP-initiated branch; see `SpInitiatedStep`. */
    method SpInitiated(req: HttpRequest, draws: Draws, clearFails: bool) returns (reply: Reply)
      requires Truthy(Param(req, "SAMLRequest"))
      modifies options, registry, store
      ensures (Snapshot(), reply) == SpInitiatedStep(env, options.config, old(Snapshot()), req, draws, clearFails)
    {
      var opts := new CredentialOptions(LogoutCredState(registry.participants));
      var outcome := ParseSamlRequest(env, req, Param(req, "SAMLRequest"), LogoutRequest, opts);
      if outcome.NoMessage? {
        assert false;
      }
      if outcome.Rejected? {
        return Failed(outcome.error);
      }
      var requestData := ReadRequest(outcome.doc);
      if !Truthy(requestData.issuer) {
        return Failed(MissingIssuer);
      }
      var session := registry.Get(requestData.issuer, requestData.sessionIndex, requestData.nameId);
      if session.None? && !Truthy(options.destination) {
        return Failed(InvalidSessionParticipant);
      }
      var url := Or(if session.Some? then session.value.serviceProviderLogoutURL else None, options.destination);
      var spData := EmptyState.(parsedRequest := Some(ParsedRequest(requestData.id, url)), relayState := Param(req, "RelayState"));
      var transactionId := store.Save(draws.transactionKey, spData);
      var _ := registry.Remove(requestData.issuer, requestData.sessionIndex, requestData.nameId);
      reply := PrepareAndSendLogoutRequest(Some(transactionId), draws, clearFails);
    }

    /** `process(state, transactionId)`; see `ProcessStep`. */
    method Process(state: StateObject, draws: Draws, clearFails: bool) returns (reply: Reply)
      modifies options, registry, store
      ensures (Snapshot(), reply) == ProcessStep(env, options.config, old(Snapshot()), state, draws, clearFails)
    {
      var _ := registry.Remove(state.issuer, state.sessionIndex, state.nameId);
      reply := PrepareAndSendLogoutRequest(state.transactionId, draws, clearFails);
    }

    /** The continuation branch; see `ContinuationStep`. */
    method Continuation(req: HttpRequest, draws: Draws, clearFails: bool) returns (reply: Reply)
      modifies options, registry, store
      ensures (Snapshot(), reply) == ContinuationStep(env, options.config, old(Snapshot()), req, draws, clearFails)
    {
      var h := Param(req, "RelayState");
      var state := store.Load(StoreKey(h), Some(LoadOptions(true)));
      if state.None? {
        return Failed(InvalidRelayState);
      }
      var sessionParticipant := registry.Get(state.value.issuer, state.value.sessionIndex, state.value.nameId);
      if sessionParticipant.None? {
        return Failed(InvalidSessionParticipant);
      }
      var logoutResponse := ValidateSamlResponse(req, sessionParticipant.value);
      if logoutResponse.Err? {
        return Failed(logoutResponse.error);
      }
      var transactionId := state.value.transactionId;
      if logoutResponse.value.status == Some(StatusSuccess) {
        reply := Process(state.value, draws, clearFails);
        return;
      }
      var globalState := store.Load(StoreKey(transactionId), None);
      if globalState.None? {
        return Failed(NoGlobalState);
      }
      var _ := store.Update(StoreKey(transactionId), globalState.value.(globalStatus := Some("failed")));
      reply := Process(state.value, draws, clearFails);
    }

    /** The IdP-initiated branch; see `IdpInitiatedStep`. */
    method IdpInitiated(draws: Draws, clearFails: bool) returns (reply: Reply)
      modifies options, registry, store
      ensures (Snapshot(), reply) == IdpInitiatedStep(env, options.config, old(Snapshot()), draws, clearFails)
    {
      var transactionId := store.Save(draws.transactionKey, EmptyState);
      reply := PrepareAndSendLogoutRequest(Some(transactionId), draws, clearFails);
    }

    /** `(req, res, next)`: choose the branch; see `HandleStep`. */
    method Handle(req: HttpRequest, draws: Draws, clearFails: bool) returns (reply: Reply)
      modifies options, registry, store
      ensures (Snapshot(), reply) == HandleStep(env, options.config, old(Snapshot()), req, draws, clearFails)
    {
      if Truthy(Param(req, "SAMLRequest")) {
        reply := SpInitiated(req, draws, clearFails);
      } else if Truthy(Param(req, "SAMLResponse")) {
        reply := Continuation(req, draws, clearFails);
      } else {
        reply := IdpInitiated(draws, clearFails);
      }
    }
  }
}
