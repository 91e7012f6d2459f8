/**
 * Properties of the Single Logout orchestrator: the shape of every
 * outgoing message, the rules for the final status, the failures, the
 * flows of a whole logout, and the behaviours the source exhibits as
 * written (a participant with no issuer is dispatched again; a stale
 * destination lets an unknown sender through).
 */
module LogoutProperties {
  import opened Js
  import opened Saml
  import opened Utils
  import opened Participants
  import opened MemoryStore
  import opened Logout

  /** `options.relayState || ""`. */
  function RelayOrEmpty(o: OptState): string {
    if Truthy(o.relayState) then o.relayState.value else ""
  }

  /** `options.nonce || ""`. */
  function NonceOrEmpty(cfg: Config): string {
    if Truthy(cfg.nonce) then cfg.nonce.value else ""
  }

  /** The parameter names never clash with the name of the message parameter. */
  lemma PropIsDistinct(kind: MessageKind)
    ensures Prop(kind) != "RelayState" && Prop(kind) != "SigAlg" && Prop(kind) != "Signature"
  {
  }

  /** The `params` object after the message is put in: the message first, then the RelayState. */
  lemma ParamsWithMessage(kind: MessageKind, rs: string, message: string)
    ensures ObjSet(ObjSet(ObjSet([], Prop(kind), ""), "RelayState", rs), Prop(kind), message)
            == [(Prop(kind), message), ("RelayState", rs)]
    ensures ObjGet([(Prop(kind), message), ("RelayState", rs)], "RelayState") == Some(rs)
    ensures ObjGet([(Prop(kind), message), ("RelayState", rs)], Prop(kind)) == Some(message)
  {
    PropIsDistinct(kind);
    SetSecond((Prop(kind), ""), "RelayState", rs);
    SetFirstOfTwo((Prop(kind), ""), ("RelayState", rs), message);
  }

  /**
   * HTTP-POST: the form carries the signed, base64-encoded token, the
   * configured RelayState or "", and the nonce or "", and posts to the
   * destination; a signer failure is passed on.
   */
  lemma PostBindingForm(env: Env, cfg: Config, o: OptState, kind: MessageKind, token: string)
    requires o.protocolBinding != Some(HttpRedirect)
    ensures TokenReply(env, cfg, o, kind, token)
            == match env.signXml(o.reference, TrimmedToken(env, token))
               case None => Failed(SigningFailed)
               case Some(signed) =>
                 PostForm(Prop(kind), o.destination, RelayOrEmpty(o), env.encodeBase64(env.utf8Encode(signed)), NonceOrEmpty(cfg))
  {
    match env.signXml(o.reference, TrimmedToken(env, token))
    case None =>
    case Some(signed) =>
      ParamsWithMessage(kind, RelayOrEmpty(o), env.encodeBase64(env.utf8Encode(signed)));
  }

  /**
   * HTTP-Redirect without DEFLATE: the query carries the signed,
   * base64-encoded token and the RelayState, even when that is "".
   */
  lemma RedirectWithoutDeflate(env: Env, cfg: Config, o: OptState, kind: MessageKind, token: string)
    requires o.protocolBinding == Some(HttpRedirect) && !cfg.deflate
    ensures TokenReply(env, cfg, o, kind, token)
            == match env.signXml(o.reference, TrimmedToken(env, token))
               case None => Failed(SigningFailed)
               case Some(signed) =>
                 Redirect(o.destination, [(Prop(kind), env.encodeBase64(env.utf8Encode(signed))), ("RelayState", RelayOrEmpty(o))])
  {
    match env.signXml(o.reference, TrimmedToken(env, token))
    case None =>
    case Some(signed) =>
      ParamsWithMessage(kind, RelayOrEmpty(o), env.encodeBase64(env.utf8Encode(signed)));
  }

  /** The parameters a Redirect signature covers, in the order of section 3.4.4.1 of SAML 2.0 Bindings. */
  function SignedPart(kind: MessageKind, message: string, rs: string, sigAlg: string): Obj {
    [(Prop(kind), message)] + (if rs != "" then [("RelayState", rs)] else []) + [("SigAlg", sigAlg)]
  }

  /** The DEFLATE path with an empty RelayState: it is deleted before the algorithm is appended. */
  lemma DeflateParamsNoRelay(kind: MessageKind, message: string, sigAlg: string)
    ensures var p1 := [(Prop(kind), message), ("RelayState", "")];
            ObjSet(ObjDelete(p1, "RelayState"), "SigAlg", sigAlg) == [(Prop(kind), message), ("SigAlg", sigAlg)]
  {
    PropIsDistinct(kind);
    DeleteSecond((Prop(kind), message), ("RelayState", ""));
    SetSecond((Prop(kind), message), "SigAlg", sigAlg);
  }

  /** The deletion and the append of the DEFLATE path give the signed part. */
  lemma DeflateParams(kind: MessageKind, message: string, rs: string, sigAlg: string)
    ensures var p1 := [(Prop(kind), message), ("RelayState", rs)];
            var p2 := if ObjGet(p1, "RelayState") == Some("") then ObjDelete(p1, "RelayState") else p1;
            ObjSet(p2, "SigAlg", sigAlg) == SignedPart(kind, message, rs, sigAlg)
  {
    PropIsDistinct(kind);
    var m := (Prop(kind), message);
    var r := ("RelayState", rs);
    var a := ("SigAlg", sigAlg);
    ParamsWithMessage(kind, rs, message);
    if rs == "" {
      DeflateParamsNoRelay(kind, message, sigAlg);
      assert SignedPart(kind, message, rs, sigAlg) == [m, a];
    } else {
      SetThird(m, r, a.0, a.1);
      assert SignedPart(kind, message, rs, sigAlg) == [m, r, a];
    }
  }

  /** The signature is appended as a new, last parameter. */
  lemma SignatureAppended(kind: MessageKind, message: string, rs: string, sigAlg: string, signature: string)
    ensures var signed := SignedPart(kind, message, rs, sigAlg);
            ObjSet(signed, "Signature", signature) == signed + [("Signature", signature)]
  {
    PropIsDistinct(kind);
    var signed := SignedPart(kind, message, rs, sigAlg);
    if rs == "" {
      assert Keys(signed) == [Prop(kind), "SigAlg"];
    } else {
      assert Keys(signed) == [Prop(kind), "RelayState", "SigAlg"];
    }
  }

  /**
   * HTTP-Redirect with DEFLATE: the query carries the deflated,
   * base64-encoded token, the RelayState only when it is not empty, the
   * algorithm, and last the detached signature over exactly those
   * parameters, serialised in that order.
   */
  lemma RedirectDetachedSignature(env: Env, cfg: Config, o: OptState, kind: MessageKind, token: string)
    requires o.protocolBinding == Some(HttpRedirect) && cfg.deflate
    ensures TokenReply(env, cfg, o, kind, token)
            == match env.deflateRaw(env.utf8Encode(TrimmedToken(env, token)))
               case None => Failed(DeflateFailed)
               case Some(bytes) =>
                 var signed := SignedPart(kind, env.encodeBase64(bytes), RelayOrEmpty(o), env.sigAlg);
                 Redirect(o.destination, signed + [("Signature", env.sign(env.stringify(signed)))])
  {
    match env.deflateRaw(env.utf8Encode(TrimmedToken(env, token)))
    case None =>
    case Some(bytes) =>
      var message := env.encodeBase64(bytes);
      ParamsWithMessage(kind, RelayOrEmpty(o), message);
      DeflateParams(kind, message, RelayOrEmpty(o), env.sigAlg);
      var signed := SignedPart(kind, message, RelayOrEmpty(o), env.sigAlg);
      SignatureAppended(kind, message, RelayOrEmpty(o), env.sigAlg, env.sign(env.stringify(signed)));
  }

  /** Sending a message fails only when the signer or the deflater does, and never yields a bare 200. */
  lemma TokenReplyFailures(env: Env, cfg: Config, o: OptState, kind: MessageKind, token: string)
    ensures var r := TokenReply(env, cfg, o, kind, token);
            r != Ok200 && (r.Failed? ==> r.error == SigningFailed || r.error == DeflateFailed)
  {
    var xml := TrimmedToken(env, token);
    if o.protocolBinding != Some(HttpRedirect) || !cfg.deflate {
      match env.signXml(o.reference, xml)
      case None =>
      case Some(signed) =>
        var params := ObjSet(ObjSet(ObjSet([], Prop(kind), ""), "RelayState", RelayOrEmpty(o)), Prop(kind),
                             env.encodeBase64(env.utf8Encode(signed)));
        var r := Send(cfg, o, Prop(kind), params);
        assert r.PostForm? || r.Redirect?;
    } else {
      match env.deflateRaw(env.utf8Encode(xml))
      case None =>
      case Some(bytes) =>
        RedirectDetachedSignature(env, cfg, o, kind, token);
    }
  }

  /** Dispatching fails only when sending does, and touches the registry never and the store only by adding the new state or deleting the transaction. */
  lemma DispatchEffects(env: Env, cfg: Config, w: World, tid: Option<string>, draws: Draws, clearFails: bool)
    ensures var r := DispatchStep(env, cfg, w, tid, draws, clearFails);
            && r.0.participants == w.participants
            && (r.1.Failed? ==> r.1.error == SigningFailed || r.1.error == DeflateFailed)
            && forall k :: k in r.0.memory && k != draws.relayKey ==> k in w.memory && r.0.memory[k] == w.memory[k]
  {
    if w.participants == [] {
      var key := StoreKey(tid);
      if key in w.memory && w.memory[key].parsedRequest.Some? {
        var tx := w.memory[key];
        var o := w.opts.(reference := Some(env.responseSignatureLocation),
                         destination := Or(tx.parsedRequest.value.serviceProviderLogoutURL, w.opts.destination),
                         relayState := tx.relayState);
        var xml := env.logoutResponseXml(FinalResponseFields(cfg, w.opts, tx.parsedRequest.value, draws,
                                                             tx.globalStatus == Some("failed") || clearFails));
        TokenReplyFailures(env, cfg, o, LogoutResponse, xml);
      }
    } else {
      var p := w.participants[0];
      var o := w.opts.(destination := p.serviceProviderLogoutURL,
                       protocolBinding := Or(p.serviceProviderLogoutBinding, w.opts.protocolBinding),
                       relayState := Some(draws.relayKey));
      TokenReplyFailures(env, cfg, o, LogoutRequest, env.logoutRequestXml(RequestFields(cfg, draws, p)));
    }
  }

  /**
   * The final LogoutResponse: it answers the stored request (its ID, its
   * address or else the current destination), is signed at the response
   * location, carries the stored RelayState, and has status PartialLogout
   * exactly when the transaction was marked failed or the IdP session could
   * not be cleared.
   */
  lemma FinalResponse(env: Env, cfg: Config, w: World, tid: Option<string>, draws: Draws, clearFails: bool)
    requires StoreKey(tid) in w.memory && w.memory[StoreKey(tid)].parsedRequest.Some?
    ensures var tx := w.memory[StoreKey(tid)];
            var data := tx.parsedRequest.value;
            var partial := tx.globalStatus == Some("failed") || clearFails;
            var fields := FinalResponseFields(cfg, w.opts, data, draws, partial);
            var r := FinalizeStep(env, cfg, w, tid, draws, clearFails);
            && r.1 == TokenReply(env, cfg, r.0.opts, LogoutResponse, env.logoutResponseXml(fields))
            && r.0.participants == w.participants
            && r.0.memory == w.memory - {StoreKey(tid)}
            && r.0.opts.relayState == tx.relayState
            && r.0.opts.destination == Or(data.serviceProviderLogoutURL, w.opts.destination)
            && r.0.opts.reference == Some(env.responseSignatureLocation)
            && fields.inResponseTo == data.id
            && fields.destination == r.0.opts.destination
            && (fields.statusCode == Some(StatusPartialLogout) <==> partial)
            && (fields.statusCode == Some(StatusSuccess) <==> !partial)
  {
  }

  /** Without an originating request (IdP-initiated, or no transaction at all) the flow ends with a bare 200 and the transaction is gone. */
  lemma IdpInitiatedEndsWith200(env: Env, cfg: Config, w: World, tid: Option<string>, draws: Draws, clearFails: bool)
    requires StoreKey(tid) !in w.memory || w.memory[StoreKey(tid)].parsedRequest.None?
    ensures FinalizeStep(env, cfg, w, tid, draws, clearFails) == (w.(memory := w.memory - {StoreKey(tid)}), Ok200)
  {
  }

  /** A LogoutRequest without an issuer is refused, and nothing changes. */
  lemma MissingIssuerRejected(env: Env, cfg: Config, w: World, req: HttpRequest, draws: Draws, clearFails: bool)
    requires Truthy(Param(req, "SAMLRequest"))
    ensures var parsed := ParseRequest(env, req, Param(req, "SAMLRequest"), LogoutRequest, LogoutCredState(w.participants)).0;
            var r := SpInitiatedStep(env, cfg, w, req, draws, clearFails);
            && (r.1 == Failed(MissingIssuer) <==> parsed.Parsed? && !Truthy(parsed.doc.issuer))
            && (r.1 == Failed(MissingIssuer) ==> r.0 == w)
  {
    var parsed := ParseRequest(env, req, Param(req, "SAMLRequest"), LogoutRequest, LogoutCredState(w.participants)).0;
    if parsed.Parsed? && Truthy(parsed.doc.issuer) {
      var data := ReadRequest(parsed.doc);
      var session := Find(w.participants, data.issuer, data.sessionIndex, data.nameId);
      if session.Some? || Truthy(w.opts.destination) {
        var url := Or(if session.Some? then session.value.serviceProviderLogoutURL else None, w.opts.destination);
        var spData := EmptyState.(parsedRequest := Some(ParsedRequest(data.id, url)), relayState := Param(req, "RelayState"));
        var participants := Removal(w.participants, data.issuer, data.sessionIndex, data.nameId).0;
        DispatchEffects(env, cfg, World(participants, w.memory[draws.transactionKey := spData], w.opts),
                        Some(draws.transactionKey), draws, clearFails);
      }
    }
  }

  /** The parsed request of an SP-initiated logout, for the lemmas below. */
  predicate ParsesTo(env: Env, req: HttpRequest, doc: XmlDoc) {
    && Truthy(Param(req, "SAMLRequest"))
    && var text := XmlText(env, env.decodeBase64(Param(req, "SAMLRequest").value));
    && text.Ok? && env.parseXml(text.value) == Some(doc) && doc.hasRoot
  }

  /**
   * The resolver of the logout handler finds no credentials for a sender
   * that is not registered, so its request is accepted without any
   * signature check.
   */
  lemma UnknownSenderNotChecked(env: Env, req: HttpRequest, ps: seq<Participant>, doc: XmlDoc)
    requires ParsesTo(env, req, doc)
    requires Find(ps, doc.issuer, doc.sessionIndex, doc.nameId).None?
    ensures ParseRequest(env, req, Param(req, "SAMLRequest"), LogoutRequest, LogoutCredState(ps)).0 == Parsed(doc)
  {
    var s := LogoutCredState(ps);
    assert s.getCredentials.value(doc.issuer, doc.sessionIndex, doc.nameId) == LogoutCredentials(ps, doc.issuer, doc.sessionIndex, doc.nameId);
  }

  /** The handler's resolver never supplies `thumbprints`: after parsing, the option is always unset. */
  lemma ThumbprintsNeverAdopted(env: Env, req: HttpRequest, samlRequest: Option<string>, kind: MessageKind, ps: seq<Participant>)
    ensures ParseRequest(env, req, samlRequest, kind, LogoutCredState(ps)).1.thumbprints == None
  {
    var s := LogoutCredState(ps);
    if Truthy(samlRequest) {
      var t := XmlText(env, env.decodeBase64(samlRequest.value));
      if t.Ok? && env.parseXml(t.value).Some? && env.parseXml(t.value).value.hasRoot {
        var doc := env.parseXml(t.value).value;
        var (i, si, ni) := CredentialKeys(kind, doc);
        assert s.getCredentials.value(i, si, ni) == LogoutCredentials(ps, i, si, ni);
      }
    }
  }

  /** An unknown sender is refused when no destination is configured, and nothing changes. */
  lemma UnknownSenderRejected(env: Env, cfg: Config, w: World, req: HttpRequest, draws: Draws, clearFails: bool, doc: XmlDoc)
    requires ParsesTo(env, req, doc) && Truthy(doc.issuer)
    requires Find(w.participants, doc.issuer, doc.sessionIndex, doc.nameId).None?
    requires !Truthy(w.opts.destination)
    ensures SpInitiatedStep(env, cfg, w, req, draws, clearFails) == (w, Failed(InvalidSessionParticipant))
  {
    UnknownSenderNotChecked(env, req, w.participants, doc);
  }

  /**
   * As written, the presence test reads `options.destination`, which every
   * dispatch overwrites with the last participant's URL. Once it is set, a
   * LogoutRequest from a sender that is not registered is accepted unchecked:
   * a transaction answering it at that stale address is saved, the registry
   * is left as it is, and logout of all participants begins.
   */
  lemma StaleDestinationAdmitsUnknownSender(env: Env, cfg: Config, w: World, req: HttpRequest, draws: Draws, clearFails: bool, doc: XmlDoc)
    requires ParsesTo(env, req, doc) && Truthy(doc.issuer)
    requires Find(w.participants, doc.issuer, doc.sessionIndex, doc.nameId).None?
    requires Truthy(w.opts.destination)
    ensures var spData := EmptyState.(parsedRequest := Some(ParsedRequest(NonEmpty(doc.idAttr), w.opts.destination)),
                                      relayState := Param(req, "RelayState"));
            SpInitiatedStep(env, cfg, w, req, draws, clearFails)
            == DispatchStep(env, cfg, w.(memory := w.memory[draws.transactionKey := spData]), Some(draws.transactionKey), draws, clearFails)
  {
    UnknownSenderNotChecked(env, req, w.participants, doc);
  }

  /** A RelayState that names no saved state is refused, and nothing changes. */
  lemma InvalidRelayStateRejected(env: Env, cfg: Config, w: World, req: HttpRequest, draws: Draws, clearFails: bool)
    requires StoreKey(Param(req, "RelayState")) !in w.memory
    ensures ContinuationStep(env, cfg, w, req, draws, clearFails) == (w, Failed(InvalidRelayState))
  {
    assert w.memory - {StoreKey(Param(req, "RelayState"))} == w.memory;
  }

  /**
   * A saved state whose participant is no longer in the registry fails with
   * Invalid Session Participant; the loaded state is destroyed all the same.
   */
  lemma UnknownResponderRejected(env: Env, cfg: Config, w: World, req: HttpRequest, draws: Draws, clearFails: bool)
    requires StoreKey(Param(req, "RelayState")) in w.memory
    requires var st := w.memory[StoreKey(Param(req, "RelayState"))];
             Find(w.participants, st.issuer, st.sessionIndex, st.nameId).None?
    ensures var key := StoreKey(Param(req, "RelayState"));
            ContinuationStep(env, cfg, w, req, draws, clearFails)
            == (w.(memory := w.memory - {key}), Failed(InvalidSessionParticipant))
  {
  }

  /**
   * A LogoutResponse from the saved state's participant that fails its
   * check is handed on as that error, with the saved state destroyed.
   */
  lemma RefusedResponseHandedOn(env: Env, cfg: Config, w: World, req: HttpRequest, draws: Draws, clearFails: bool, p: Participant)
    requires StoreKey(Param(req, "RelayState")) in w.memory
    requires var st := w.memory[StoreKey(Param(req, "RelayState"))];
             Find(w.participants, st.issuer, st.sessionIndex, st.nameId) == Some(p)
    requires ResponseCheck(env, cfg, w.opts, req, p).Err?
    ensures var key := StoreKey(Param(req, "RelayState"));
            ContinuationStep(env, cfg, w, req, draws, clearFails)
            == (w.(memory := w.memory - {key}), Failed(ResponseCheck(env, cfg, w.opts, req, p).error))
  {
  }

  /** A LogoutResponse that passes from the participant a saved state names continues with that participant's removal; the state is gone. */
  lemma ContinuationOnSuccess(env: Env, cfg: Config, w: World, req: HttpRequest, draws: Draws, clearFails: bool, p: Participant)
    requires StoreKey(Param(req, "RelayState")) in w.memory
    requires var st := w.memory[StoreKey(Param(req, "RelayState"))];
             Find(w.participants, st.issuer, st.sessionIndex, st.nameId) == Some(p)
    requires ResponseCheck(env, cfg, w.opts, req, p).Ok? && ResponseCheck(env, cfg, w.opts, req, p).value.status == Some(StatusSuccess)
    ensures var key := StoreKey(Param(req, "RelayState"));
            ContinuationStep(env, cfg, w, req, draws, clearFails)
            == ProcessStep(env, cfg, w.(memory := w.memory - {key}), w.memory[key], draws, clearFails)
  {
  }

  /**
   * A LogoutResponse with any other status marks the transaction failed
   * before the participant is removed; when the transaction is gone the
   * marking fails.
   */
  lemma ContinuationOnFailure(env: Env, cfg: Config, w: World, req: HttpRequest, draws: Draws, clearFails: bool, p: Participant)
    requires StoreKey(Param(req, "RelayState")) in w.memory
    requires var st := w.memory[StoreKey(Param(req, "RelayState"))];
             Find(w.participants, st.issuer, st.sessionIndex, st.nameId) == Some(p)
    requires ResponseCheck(env, cfg, w.opts, req, p).Ok? && ResponseCheck(env, cfg, w.opts, req, p).value.status != Some(StatusSuccess)
    ensures var key := StoreKey(Param(req, "RelayState"));
            var st := w.memory[key];
            var m := w.memory - {key};
            var tkey := StoreKey(st.transactionId);
            var r := ContinuationStep(env, cfg, w, req, draws, clearFails);
            && (tkey !in m ==> r == (w.(memory := m), Failed(NoGlobalState)))
            && (tkey in m ==> r == ProcessStep(env, cfg, w.(memory := m[tkey := m[tkey].(globalStatus := Some("failed"))]), st, draws, clearFails))
  {
  }

  /** The one participant of the list, looked up or removed by its own identity. */
  lemma SingleParticipant(p: Participant)
    requires Truthy(p.serviceProviderId)
    ensures Find([p], p.serviceProviderId, p.sessionIndex, p.nameId) == Some(p)
    ensures Removal([p], p.serviceProviderId, p.sessionIndex, p.nameId) == ([], Some(p))
  {
  }

  /** The first request of an IdP-initiated logout: an empty transaction, and a LogoutRequest to the first participant. */
  lemma IdpFirstStep(env: Env, cfg: Config, p: Participant, o: OptState, req: HttpRequest, draws: Draws, clearFails: bool)
    requires !Truthy(Param(req, "SAMLRequest")) && !Truthy(Param(req, "SAMLResponse"))
    ensures var s := HandleStep(env, cfg, World([p], map[], o), req, draws, clearFails);
            && s.0.participants == [p]
            && s.0.memory == map[draws.transactionKey := EmptyState][draws.relayKey := RequestState(Some(draws.transactionKey), p)]
            && s.0.opts.destination == p.serviceProviderLogoutURL
            && s.0.opts.relayState == Some(draws.relayKey)
            && s.1 == TokenReply(env, cfg, s.0.opts, LogoutRequest, env.logoutRequestXml(RequestFields(cfg, draws, p)))
  {
    var w := World([p], map[], o);
    assert HandleStep(env, cfg, w, req, draws, clearFails) == IdpInitiatedStep(env, cfg, w, draws, clearFails);
  }

  /** The Success response of the only participant of an IdP-initiated logout ends the logout with an empty store. */
  lemma IdpLastStep(env: Env, cfg: Config, p: Participant, w: World, req: HttpRequest, draws: Draws, clearFails: bool, tk: string)
    requires Truthy(p.serviceProviderId)
    requires !Truthy(Param(req, "SAMLRequest")) && Truthy(Param(req, "SAMLResponse"))
    requires var rk := StoreKey(Param(req, "RelayState"));
             tk != rk && w.participants == [p] && w.memory == map[tk := EmptyState][rk := RequestState(Some(tk), p)]
    requires ResponseCheck(env, cfg, w.opts, req, p).Ok? && ResponseCheck(env, cfg, w.opts, req, p).value.status == Some(StatusSuccess)
    ensures var s := HandleStep(env, cfg, w, req, draws, clearFails);
            s.0.participants == [] && s.0.memory == map[] && s.1 == Ok200
  {
    var rk := StoreKey(Param(req, "RelayState"));
    SingleParticipant(p);
    assert HandleStep(env, cfg, w, req, draws, clearFails) == ContinuationStep(env, cfg, w, req, draws, clearFails);
    ContinuationOnSuccess(env, cfg, w, req, draws, clearFails, p);
    var m := w.memory - {rk};
    assert m == map[tk := EmptyState];
    assert m - {tk} == map[];
    var w2 := World([], m, w.opts);
    assert ContinuationStep(env, cfg, w, req, draws, clearFails) == FinalizeStep(env, cfg, w2, Some(tk), draws, clearFails);
    IdpInitiatedEndsWith200(env, cfg, w2, Some(tk), draws, clearFails);
  }

  /**
   * IdP-initiated logout of a single participant from start to end: the
   * first request saves an empty transaction and the state of a
   * LogoutRequest to the participant and sends it; when the participant's
   * LogoutResponse comes back with Success the registry is empty, the store
   * is empty again, and the reply is a bare 200.
   */
  lemma IdpInitiatedTrace(env: Env, cfg: Config, p: Participant, o: OptState, req1: HttpRequest, req2: HttpRequest,
                          draws1: Draws, draws2: Draws, clearFails: bool)
    requires Truthy(p.serviceProviderId)
    requires !Truthy(Param(req1, "SAMLRequest")) && !Truthy(Param(req1, "SAMLResponse"))
    requires draws1.transactionKey != draws1.relayKey
    requires !Truthy(Param(req2, "SAMLRequest")) && Truthy(Param(req2, "SAMLResponse"))
    requires Param(req2, "RelayState") == Some(draws1.relayKey)
    ensures var w1 := HandleStep(env, cfg, World([p], map[], o), req1, draws1, clearFails).0;
            var check := ResponseCheck(env, cfg, w1.opts, req2, p);
            check.Ok? && check.value.status == Some(StatusSuccess) ==>
              var s2 := HandleStep(env, cfg, w1, req2, draws2, clearFails);
              s2.0.participants == [] && s2.0.memory == map[] && s2.1 == Ok200
  {
    IdpFirstStep(env, cfg, p, o, req1, draws1, clearFails);
    var w1 := HandleStep(env, cfg, World([p], map[], o), req1, draws1, clearFails).0;
    var check := ResponseCheck(env, cfg, w1.opts, req2, p);
    if check.Ok? && check.value.status == Some(StatusSuccess) {
      IdpLastStep(env, cfg, p, w1, req2, draws2, clearFails, draws1.transactionKey);
    }
  }

  /** The store after the last LogoutResponse of a transaction, before the transaction itself is destroyed. */
  function StoreBeforeFinalize(m: map<string, StateObject>, rk: string, tk: string, success: bool): map<string, StateObject>
    requires tk in m && tk != rk
  {
    var m1 := m - {rk};
    if success then m1 else m1[tk := m1[tk].(globalStatus := Some("failed"))]
  }

  /** The last outstanding LogoutResponse empties the registry and finalizes the transaction its state names. */
  lemma LastResponseFinalizes(env: Env, cfg: Config, w: World, req: HttpRequest, draws: Draws, clearFails: bool,
                              b: Participant, tk: string)
    requires w.participants == [b] && Truthy(b.serviceProviderId)
    requires !Truthy(Param(req, "SAMLRequest")) && Truthy(Param(req, "SAMLResponse"))
    requires var rk := StoreKey(Param(req, "RelayState"));
             rk != tk && rk in w.memory && w.memory[rk] == RequestState(Some(tk), b) && tk in w.memory
    requires ResponseCheck(env, cfg, w.opts, req, b).Ok?
    ensures var success := ResponseCheck(env, cfg, w.opts, req, b).value.status == Some(StatusSuccess);
            var m := StoreBeforeFinalize(w.memory, StoreKey(Param(req, "RelayState")), tk, success);
            HandleStep(env, cfg, w, req, draws, clearFails) == FinalizeStep(env, cfg, World([], m, w.opts), Some(tk), draws, clearFails)
  {
    SingleParticipant(b);
    assert HandleStep(env, cfg, w, req, draws, clearFails) == ContinuationStep(env, cfg, w, req, draws, clearFails);
    if ResponseCheck(env, cfg, w.opts, req, b).value.status == Some(StatusSuccess) {
      ContinuationOnSuccess(env, cfg, w, req, draws, clearFails, b);
    } else {
      ContinuationOnFailure(env, cfg, w, req, draws, clearFails, b);
    }
  }

  /**
   * The last outstanding LogoutResponse of an SP-initiated logout: the
   * responder is removed, its state and the transaction are destroyed, and
   * the originator gets its LogoutResponse, PartialLogout when this response
   * or an earlier one was not Success or the IdP session could not be
   * cleared, Success otherwise.
   */
  lemma LastResponseAnswersOriginator(env: Env, cfg: Config, w: World, req: HttpRequest, draws: Draws, clearFails: bool,
                                      b: Participant, tk: string, data: ParsedRequest)
    requires w.participants == [b] && Truthy(b.serviceProviderId)
    requires !Truthy(Param(req, "SAMLRequest")) && Truthy(Param(req, "SAMLResponse"))
    requires var rk := StoreKey(Param(req, "RelayState"));
             rk != tk && rk in w.memory && w.memory[rk] == RequestState(Some(tk), b)
    requires tk in w.memory && w.memory[tk].parsedRequest == Some(data)
    requires ResponseCheck(env, cfg, w.opts, req, b).Ok?
    ensures var rk := StoreKey(Param(req, "RelayState"));
            var partial := ResponseCheck(env, cfg, w.opts, req, b).value.status != Some(StatusSuccess)
                           || w.memory[tk].globalStatus == Some("failed") || clearFails;
            var r := HandleStep(env, cfg, w, req, draws, clearFails);
            && r.0.participants == []
            && r.0.memory == w.memory - {rk, tk}
            && r.0.opts.destination == Or(data.serviceProviderLogoutURL, w.opts.destination)
            && r.0.opts.relayState == w.memory[tk].relayState
            && r.1 == TokenReply(env, cfg, r.0.opts, LogoutResponse,
                                 env.logoutResponseXml(FinalResponseFields(cfg, w.opts, data, draws, partial)))
  {
    var rk := StoreKey(Param(req, "RelayState"));
    var success := ResponseCheck(env, cfg, w.opts, req, b).value.status == Some(StatusSuccess);
    LastResponseFinalizes(env, cfg, w, req, draws, clearFails, b, tk);
    FinalizeAfterLast(env, cfg, w.memory, w.opts, rk, tk, success, data, draws, clearFails);
  }

  /** Finalizing after the last response, the half of the trace above that does not depend on the request. */
  lemma FinalizeAfterLast(env: Env, cfg: Config, memory: map<string, StateObject>, o: OptState, rk: string, tk: string,
                          success: bool, data: ParsedRequest, draws: Draws, clearFails: bool)
    requires tk != rk && tk in memory && memory[tk].parsedRequest == Some(data)
    ensures var partial := !success || memory[tk].globalStatus == Some("failed") || clearFails;
            var r := FinalizeStep(env, cfg, World([], StoreBeforeFinalize(memory, rk, tk, success), o), Some(tk), draws, clearFails);
            && r.0.participants == []
            && r.0.memory == memory - {rk, tk}
            && r.0.opts.destination == Or(data.serviceProviderLogoutURL, o.destination)
            && r.0.opts.relayState == memory[tk].relayState
            && r.1 == TokenReply(env, cfg, r.0.opts, LogoutResponse,
                                 env.logoutResponseXml(FinalResponseFields(cfg, o, data, draws, partial)))
  {
    var w2 := World([], StoreBeforeFinalize(memory, rk, tk, success), o);
    StoreBeforeFinalizeFacts(memory, rk, tk, success);
    FinalResponse(env, cfg, w2, Some(tk), draws, clearFails);
  }

  /** What the continuation leaves in the store for `finalize` to read. */
  lemma StoreBeforeFinalizeFacts(memory: map<string, StateObject>, rk: string, tk: string, success: bool)
    requires tk != rk && tk in memory
    ensures var m := StoreBeforeFinalize(memory, rk, tk, success);
            && tk in m
            && m[tk].parsedRequest == memory[tk].parsedRequest
            && m[tk].relayState == memory[tk].relayState
            && (m[tk].globalStatus == Some("failed") <==> !success || memory[tk].globalStatus == Some("failed"))
            && m - {tk} == memory - {rk, tk}
  {
    var m := StoreBeforeFinalize(memory, rk, tk, success);
    assert m - {tk} == memory - {rk, tk};
  }

  /**
   * As written, removing a participant whose `serviceProviderId` is falsy
   * does nothing, so after its Success response the same participant is
   * addressed again with a new LogoutRequest, and the registry never
   * shrinks.
   */
  lemma FalsyIssuerIsDispatchedAgain(env: Env, cfg: Config, w: World, req: HttpRequest, draws: Draws, clearFails: bool, p: Participant)
    requires |w.participants| > 0 && w.participants[0] == p && !Truthy(p.serviceProviderId)
    requires StoreKey(Param(req, "RelayState")) in w.memory
    requires var st := w.memory[StoreKey(Param(req, "RelayState"))];
             st.issuer == p.serviceProviderId && st.sessionIndex == p.sessionIndex && st.nameId == p.nameId
    requires ResponseCheck(env, cfg, w.opts, req, p).Ok? && ResponseCheck(env, cfg, w.opts, req, p).value.status == Some(StatusSuccess)
    ensures var key := StoreKey(Param(req, "RelayState"));
            var r := ContinuationStep(env, cfg, w, req, draws, clearFails);
            && r.0.participants == w.participants
            && r.0.memory == (w.memory - {key})[draws.relayKey := RequestState(w.memory[key].transactionId, p)]
            && r.0.opts.destination == p.serviceProviderLogoutURL
            && r.1 == TokenReply(env, cfg, r.0.opts, LogoutRequest, env.logoutRequestXml(RequestFields(cfg, draws, p)))
  {
    var st := w.memory[StoreKey(Param(req, "RelayState"))];
    assert Matches(w.participants[0], st.issuer, st.sessionIndex, st.nameId);
    assert Find(w.participants, st.issuer, st.sessionIndex, st.nameId) == Some(p);
    ContinuationOnSuccess(env, cfg, w, req, draws, clearFails, p);
  }

  /**
   * A LogoutResponse that gets through from a participant with a truthy
   * identity removes exactly that participant: the registry shrinks by one.
   */
  lemma ResponderRemoved(env: Env, cfg: Config, w: World, req: HttpRequest, draws: Draws, clearFails: bool, p: Participant)
    requires StoreKey(Param(req, "RelayState")) in w.memory
    requires var st := w.memory[StoreKey(Param(req, "RelayState"))];
             Truthy(st.issuer) && Find(w.participants, st.issuer, st.sessionIndex, st.nameId) == Some(p)
    requires ResponseCheck(env, cfg, w.opts, req, p).Ok?
    requires var key := StoreKey(Param(req, "RelayState"));
             ResponseCheck(env, cfg, w.opts, req, p).value.status == Some(StatusSuccess)
             || StoreKey(w.memory[key].transactionId) in w.memory - {key}
    ensures var st := w.memory[StoreKey(Param(req, "RelayState"))];
            var r := ContinuationStep(env, cfg, w, req, draws, clearFails);
            && r.0.participants == Removal(w.participants, st.issuer, st.sessionIndex, st.nameId).0
            && |r.0.participants| == |w.participants| - 1
  {
    if ResponseCheck(env, cfg, w.opts, req, p).value.status == Some(StatusSuccess) {
      ContinuationOnSuccess(env, cfg, w, req, draws, clearFails, p);
    } else {
      ContinuationOnFailure(env, cfg, w, req, draws, clearFails, p);
    }
  }

  /**
   * A LogoutRequest from a registered sender that passes parsing is
   * accepted: a transaction answering it at the sender's address (or the
   * current destination) is saved, the sender leaves the registry, and
   * logout of the others begins.
   */
  lemma KnownSenderAccepted(env: Env, cfg: Config, w: World, req: HttpRequest, draws: Draws, clearFails: bool, doc: XmlDoc, p: Participant)
    requires Truthy(Param(req, "SAMLRequest"))
    requires ParseRequest(env, req, Param(req, "SAMLRequest"), LogoutRequest, LogoutCredState(w.participants)).0 == Parsed(doc)
    requires Truthy(doc.issuer) && Find(w.participants, doc.issuer, doc.sessionIndex, doc.nameId) == Some(p)
    ensures var rest := Removal(w.participants, doc.issuer, doc.sessionIndex, doc.nameId).0;
            var spData := EmptyState.(parsedRequest := Some(ParsedRequest(NonEmpty(doc.idAttr), Or(p.serviceProviderLogoutURL, w.opts.destination))),
                                      relayState := Param(req, "RelayState"));
            && |rest| == |w.participants| - 1
            && SpInitiatedStep(env, cfg, w, req, draws, clearFails)
               == DispatchStep(env, cfg, World(rest, w.memory[draws.transactionKey := spData], w.opts), Some(draws.transactionKey), draws, clearFails)
  {
  }

  /** The transaction at `k` is gone or marked failed. */
  predicate MarkedOrGone(memory: map<string, StateObject>, k: string) {
    k in memory ==> memory[k].globalStatus == Some("failed")
  }

  lemma DispatchKeepsMark(env: Env, cfg: Config, w: World, tid: Option<string>, draws: Draws, clearFails: bool, k: string)
    requires MarkedOrGone(w.memory, k) && draws.relayKey != k
    ensures MarkedOrGone(DispatchStep(env, cfg, w, tid, draws, clearFails).0.memory, k)
  {
    DispatchEffects(env, cfg, w, tid, draws, clearFails);
  }

  lemma SpInitiatedKeepsMark(env: Env, cfg: Config, w: World, req: HttpRequest, draws: Draws, clearFails: bool, k: string)
    requires Truthy(Param(req, "SAMLRequest"))
    requires MarkedOrGone(w.memory, k) && draws.transactionKey != k && draws.relayKey != k
    ensures MarkedOrGone(SpInitiatedStep(env, cfg, w, req, draws, clearFails).0.memory, k)
  {
    var parsed := ParseRequest(env, req, Param(req, "SAMLRequest"), LogoutRequest, LogoutCredState(w.participants)).0;
    if parsed.Parsed? && Truthy(parsed.doc.issuer) {
      var data := ReadRequest(parsed.doc);
      var session := Find(w.participants, data.issuer, data.sessionIndex, data.nameId);
      if session.Some? || Truthy(w.opts.destination) {
        var url := Or(if session.Some? then session.value.serviceProviderLogoutURL else None, w.opts.destination);
        var spData := EmptyState.(parsedRequest := Some(ParsedRequest(data.id, url)), relayState := Param(req, "RelayState"));
        var participants := Removal(w.participants, data.issuer, data.sessionIndex, data.nameId).0;
        DispatchKeepsMark(env, cfg, World(participants, w.memory[draws.transactionKey := spData], w.opts),
                          Some(draws.transactionKey), draws, clearFails, k);
      }
    }
  }

  lemma ContinuationKeepsMark(env: Env, cfg: Config, w: World, req: HttpRequest, draws: Draws, clearFails: bool, k: string)
    requires MarkedOrGone(w.memory, k) && draws.relayKey != k
    ensures MarkedOrGone(ContinuationStep(env, cfg, w, req, draws, clearFails).0.memory, k)
  {
    var key := StoreKey(Param(req, "RelayState"));
    if key in w.memory {
      var st := w.memory[key];
      var m := w.memory - {key};
      var session := Find(w.participants, st.issuer, st.sessionIndex, st.nameId);
      if session.Some? && ResponseCheck(env, cfg, w.opts, req, session.value).Ok? {
        var participants := Removal(w.participants, st.issuer, st.sessionIndex, st.nameId).0;
        if ResponseCheck(env, cfg, w.opts, req, session.value).value.status == Some(StatusSuccess) {
          ContinuationOnSuccess(env, cfg, w, req, draws, clearFails, session.value);
          DispatchKeepsMark(env, cfg, World(participants, m, w.opts), st.transactionId, draws, clearFails, k);
        } else {
          ContinuationOnFailure(env, cfg, w, req, draws, clearFails, session.value);
          var tkey := StoreKey(st.transactionId);
          if tkey in m {
            var m2 := m[tkey := m[tkey].(globalStatus := Some("failed"))];
            DispatchKeepsMark(env, cfg, World(participants, m2, w.opts), st.transactionId, draws, clearFails, k);
          }
        }
      }
    }
  }

  /**
   * Once a transaction is marked failed it stays so until it is destroyed,
   * whatever request comes in, as long as the new keys drawn differ from its
   * key: the final status of a logout in which one participant failed is
   * PartialLogout.
   */
  lemma FailedMarkPersists(env: Env, cfg: Config, w: World, req: HttpRequest, draws: Draws, clearFails: bool, k: string)
    requires MarkedOrGone(w.memory, k)
    requires draws.transactionKey != k && draws.relayKey != k
    ensures MarkedOrGone(HandleStep(env, cfg, w, req, draws, clearFails).0.memory, k)
  {
    if Truthy(Param(req, "SAMLRequest")) {
      SpInitiatedKeepsMark(env, cfg, w, req, draws, clearFails, k);
    } else if Truthy(Param(req, "SAMLResponse")) {
      ContinuationKeepsMark(env, cfg, w, req, draws, clearFails, k);
    } else {
      DispatchKeepsMark(env, cfg, w.(memory := w.memory[draws.transactionKey := EmptyState]), Some(draws.transactionKey), draws, clearFails, k);
    }
  }

  /**
   * The error LogoutResponse answers the configured request at the current
   * destination and carries the configured error code, or Responder when
   * none is configured, with the configured description.
   */
  lemma ErrorResponseCarriesCode(env: Env, cfg: Config, o: OptState, req: HttpRequest, draws: Draws)
    requires Truthy(o.destination)
    ensures var fields := ErrorResponseFields(cfg, o, draws);
            var r := LogoutErrorStep(env, cfg, o, req, draws);
            && r.1 == TokenReply(env, cfg, r.0, LogoutResponse, env.logoutResponseXml(fields))
            && fields.inResponseTo == cfg.inResponseTo && fields.destination == o.destination
            && fields.statusCode.Some?
            && (cfg.error.None? || !Truthy(cfg.error.value.code) ==> fields.statusCode == Some(StatusResponder))
            && (cfg.error.Some? && Truthy(cfg.error.value.code) ==> fields.statusCode == cfg.error.value.code)
            && fields.statusMessage == (if cfg.error.Some? then cfg.error.value.description else None)
  {
  }

  /**
   * The HTTP-Redirect encoding with DEFLATE reads back: when base64, UTF-8
   * and raw DEFLATE round-trip and the deflated bytes do not start with
   * `<`, decoding the message parameter of the redirect the way
   * `parseSamlRequest` does gives back the trimmed token.
   */
  lemma RedirectMessageDecodes(env: Env, cfg: Config, o: OptState, kind: MessageKind, token: string)
    requires o.protocolBinding == Some(HttpRedirect) && cfg.deflate
    requires var bytes := env.utf8Encode(TrimmedToken(env, token));
             && env.deflateRaw(bytes).Some?
             && !IsPlainXml(env.deflateRaw(bytes).value)
             && env.decodeBase64(env.encodeBase64(env.deflateRaw(bytes).value)) == env.deflateRaw(bytes).value
             && env.inflateRaw(env.deflateRaw(bytes).value) == Some(bytes)
             && env.utf8Decode(bytes) == TrimmedToken(env, token)
    ensures var r := TokenReply(env, cfg, o, kind, token);
            && r.Redirect?
            && ObjGet(r.params, Prop(kind)).Some?
            && XmlText(env, env.decodeBase64(ObjGet(r.params, Prop(kind)).value)) == Ok(TrimmedToken(env, token))
  {
    var bytes := env.utf8Encode(TrimmedToken(env, token));
    var message := env.encodeBase64(env.deflateRaw(bytes).value);
    RedirectDetachedSignature(env, cfg, o, kind, token);
    var signed := SignedPart(kind, message, RelayOrEmpty(o), env.sigAlg);
    PropIsDistinct(kind);
    assert ObjGet(signed + [("Signature", env.sign(env.stringify(signed)))], Prop(kind)) == Some(message);
  }
}
