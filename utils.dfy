/**
 * `parseSamlRequest` and `validateSignature` of lib/utils.js: decoding an
 * incoming SAML message (base64, then raw DEFLATE unless the bytes already
 * start with `<`), resolving the signing credentials, and checking either
 * the embedded XML signature or the detached signature of the
 * HTTP-Redirect binding (section 3.4.4.1 of SAML 2.0 Bindings).
 */
module Utils {
  import opened Js
  import opened Saml

  /** What a signature check decides: pass, or the error it throws. */
  datatype Verdict = Valid | Invalid(error: LogoutError)

  /** The errors a signature check throws. */
  predicate IsSignatureError(e: LogoutError) {
    e.SignatureCheckErrors? || e.SignatureAlgorithmMissing? || e.InvalidSignatureAlgorithm? || e.SignatureMismatch? || e.MustBeSigned?
  }

  /** The errors decoding a message raises before any signature check. */
  predicate IsDecodeError(e: LogoutError) {
    e.InflateFailed? || e.XmlParseFailed? || e.InvalidSamlRequest?
  }

  /** The own keys of `algorithmSignatures`: the algorithms the detached check means to accept. */
  predicate IsSupportedSigAlg(alg: string) {
    alg == RsaSha256 || alg == RsaSha1
  }

  /** The properties every plain object inherits from `Object.prototype`; each one's value is truthy. */
  predicate IsObjectPrototypeMember(name: string) {
    name in {"constructor", "toString", "toLocaleString", "valueOf", "hasOwnProperty", "isPrototypeOf",
             "propertyIsEnumerable", "__proto__", "__defineGetter__", "__defineSetter__",
             "__lookupGetter__", "__lookupSetter__"}
  }

  /**
   * The test as written, `algorithmSignatures[alg]` being truthy: the
   * lookup also finds the inherited properties.
   */
  predicate AlgorithmLookupTruthy(alg: string) {
    IsSupportedSigAlg(alg) || IsObjectPrototypeMember(alg)
  }

  /** Whether the message counts as signed: by a `Signature` query parameter when deflated, by a signature node otherwise. */
  predicate IsSigned(req: HttpRequest, doc: XmlDoc, opts: ValidationOptions) {
    if opts.deflate then Truthy(Query(req, "Signature")) else doc.signature.Some?
  }

  /** Whether a signed message is checked by its embedded signature (POST, or Redirect without DEFLATE). */
  predicate UsesEmbeddedSignature(req: HttpRequest, kind: MessageKind, opts: ValidationOptions) {
    Truthy(Body(req, Prop(kind))) || !opts.deflate
  }

  /** The RelayState the detached signature covers: the query's, else the one in the options. */
  function SignedRelayState(req: HttpRequest, opts: ValidationOptions): Option<string> {
    Or(Query(req, "RelayState"), opts.relayState)
  }

  /**
   * The `signedContent` object: the message, the RelayState and the
   * algorithm, built by assignment, then the RelayState deleted when it and
   * the options' RelayState are both falsy. An `undefined` value is
   * written as "", as the query-string serialiser prints it.
   */
  function SignedContent(req: HttpRequest, kind: MessageKind, opts: ValidationOptions): Obj {
    var c1 := ObjSet([], Prop(kind), OrEmpty(Query(req, Prop(kind))));
    var rs := SignedRelayState(req, opts);
    var c2 := ObjSet(c1, "RelayState", OrEmpty(rs));
    var c3 := ObjSet(c2, "SigAlg", OrEmpty(Query(req, "SigAlg")));
    if !Truthy(rs) && !Truthy(opts.relayState) then ObjDelete(c3, "RelayState") else c3
  }

  lemma PropIsNotRelayOrAlg(kind: MessageKind)
    ensures Prop(kind) != "RelayState" && Prop(kind) != "SigAlg"
  {
  }

  /** The three assignments append the three properties in order. */
  lemma SignedContentBuilt(req: HttpRequest, kind: MessageKind, opts: ValidationOptions)
    ensures var m := (Prop(kind), OrEmpty(Query(req, Prop(kind))));
            var r := ("RelayState", OrEmpty(SignedRelayState(req, opts)));
            var a := ("SigAlg", OrEmpty(Query(req, "SigAlg")));
            SignedContent(req, kind, opts)
            == if !Truthy(SignedRelayState(req, opts)) && !Truthy(opts.relayState) then ObjDelete([m, r, a], r.0) else [m, r, a]
  {
    var t := Prop(kind);
    var m := (t, OrEmpty(Query(req, t)));
    var r := ("RelayState", OrEmpty(SignedRelayState(req, opts)));
    var a := ("SigAlg", OrEmpty(Query(req, "SigAlg")));
    assert ObjSet([], t, m.1) == [m];
    PropIsNotRelayOrAlg(kind);
    SetSecond(m, r.0, r.1);
    SetThird(m, r, a.0, a.1);
  }

  /**
   * The parameters the detached signature covers, in order: the message,
   * then the RelayState exactly when the query or the options carry a
   * truthy one, then the algorithm.
   */
  lemma SignedContentShape(req: HttpRequest, kind: MessageKind, opts: ValidationOptions)
    ensures var withRelay := Truthy(Query(req, "RelayState")) || Truthy(opts.relayState);
            SignedContent(req, kind, opts)
            == [(Prop(kind), OrEmpty(Query(req, Prop(kind))))]
               + (if withRelay then [("RelayState", OrEmpty(SignedRelayState(req, opts)))] else [])
               + [("SigAlg", OrEmpty(Query(req, "SigAlg")))]
  {
    var m := (Prop(kind), OrEmpty(Query(req, Prop(kind))));
    var r := ("RelayState", OrEmpty(SignedRelayState(req, opts)));
    var a := ("SigAlg", OrEmpty(Query(req, "SigAlg")));
    SignedContentBuilt(req, kind, opts);
    if Truthy(Query(req, "RelayState")) || Truthy(opts.relayState) {
      assert Truthy(SignedRelayState(req, opts));
      assert [m] + [r] + [a] == [m, r, a];
    } else {
      assert !Truthy(SignedRelayState(req, opts));
      DeleteMiddle(m, r, a);
      assert [m] + [] + [a] == [m, a];
    }
  }

  /**
   * `validateSignature`, with the algorithm test a parameter so that the
   * test as written and the intended one can be compared.
   */
  function ValidateSignatureWith(accepted: string -> bool, env: Env, req: HttpRequest, kind: MessageKind, doc: XmlDoc,
                                 opts: ValidationOptions): Verdict
  {
    if IsSigned(req, doc, opts) then
      if UsesEmbeddedSignature(req, kind, opts) then
        var errors := env.validateEmbedded(doc, opts);
        if |errors| > 0 then Invalid(SignatureCheckErrors(errors)) else Valid
      else
        var alg := Query(req, "SigAlg");
        if !Truthy(alg) then Invalid(SignatureAlgorithmMissing)
        else if !accepted(alg.value) then Invalid(InvalidSignatureAlgorithm)
        else if !env.isValidDetached(env.stringify(SignedContent(req, kind, opts)), Query(req, "Signature"), opts.signingCert, alg)
        then Invalid(SignatureMismatch(Query(req, "Signature")))
        else Valid
    else if Truthy(opts.signingCert) then Invalid(MustBeSigned(Prop(kind)))
    else Valid
  }

  /**
   * `validateSignature` with the intended algorithm test. A message passes
   * only if: unsigned, it has no signing certificate to answer to; signed
   * inline, the embedded check reports no error; signed for the Redirect
   * binding, it names a supported algorithm and the signer accepts the
   * signature over exactly the signed content.
   */
  function ValidateSignature(env: Env, req: HttpRequest, kind: MessageKind, doc: XmlDoc, opts: ValidationOptions): (r: Verdict)
    ensures !IsSigned(req, doc, opts) ==> (r.Valid? <==> !Truthy(opts.signingCert))
    ensures !IsSigned(req, doc, opts) && Truthy(opts.signingCert) ==> r == Invalid(MustBeSigned(Prop(kind)))
    ensures IsSigned(req, doc, opts) && UsesEmbeddedSignature(req, kind, opts) ==>
              (r.Valid? <==> env.validateEmbedded(doc, opts) == [])
    ensures IsSigned(req, doc, opts) && UsesEmbeddedSignature(req, kind, opts) && env.validateEmbedded(doc, opts) != [] ==>
              r == Invalid(SignatureCheckErrors(env.validateEmbedded(doc, opts)))
    ensures IsSigned(req, doc, opts) && !UsesEmbeddedSignature(req, kind, opts) && !Truthy(Query(req, "SigAlg")) ==>
              r == Invalid(SignatureAlgorithmMissing)
    ensures IsSigned(req, doc, opts) && !UsesEmbeddedSignature(req, kind, opts)
            && Truthy(Query(req, "SigAlg")) && IsSupportedSigAlg(Query(req, "SigAlg").value) ==>
              r == if env.isValidDetached(env.stringify(SignedContent(req, kind, opts)), Query(req, "Signature"), opts.signingCert, Query(req, "SigAlg"))
                   then Valid else Invalid(SignatureMismatch(Query(req, "Signature")))
    ensures r.Valid? && IsSigned(req, doc, opts) && !UsesEmbeddedSignature(req, kind, opts) ==>
              var alg := Query(req, "SigAlg");
              alg.Some? && IsSupportedSigAlg(alg.value)
              && env.isValidDetached(env.stringify(SignedContent(req, kind, opts)), Query(req, "Signature"), opts.signingCert, alg)
    ensures r.Invalid? && r.error.SignatureMismatch? ==> r.error.signature == Query(req, "Signature")
    ensures r.Invalid? ==> IsSignatureError(r.error)
  {
    ValidateSignatureWith(IsSupportedSigAlg, env, req, kind, doc, opts)
  }

  /**
   * The intended test refuses a Redirect signature whose algorithm is not one
   * of the two supported, whatever the signature and the certificate.
   */
  lemma UnsupportedAlgorithmRejected(env: Env, req: HttpRequest, kind: MessageKind, doc: XmlDoc, opts: ValidationOptions)
    requires IsSigned(req, doc, opts) && !UsesEmbeddedSignature(req, kind, opts)
    requires Truthy(Query(req, "SigAlg")) && !IsSupportedSigAlg(Query(req, "SigAlg").value)
    ensures ValidateSignature(env, req, kind, doc, opts) == Invalid(InvalidSignatureAlgorithm)
  {
  }

  /**
   * As written, an algorithm named after an inherited property such as
   * "toString" passes the algorithm test and reaches the signer, while the
   * intended test refuses it.
   */
  lemma PrototypeAlgorithmReachesSigner(env: Env, req: HttpRequest, kind: MessageKind, doc: XmlDoc, opts: ValidationOptions)
    requires opts.deflate && Truthy(Query(req, "Signature")) && !Truthy(Body(req, Prop(kind)))
    requires Query(req, "SigAlg") == Some("toString")
    ensures AlgorithmLookupTruthy("toString") && !IsSupportedSigAlg("toString")
    ensures ValidateSignatureWith(AlgorithmLookupTruthy, env, req, kind, doc, opts)
            == if env.isValidDetached(env.stringify(SignedContent(req, kind, opts)), Query(req, "Signature"), opts.signingCert, Some("toString"))
               then Valid else Invalid(SignatureMismatch(Query(req, "Signature")))
    ensures ValidateSignature(env, req, kind, doc, opts) == Invalid(InvalidSignatureAlgorithm)
  {
    assert IsObjectPrototypeMember("toString");
  }

  /** The reply of a `getCredentials` resolver: an error, which the caller ignores, and credentials or nothing. */
  datatype Credentials = Credentials(cert: Option<string>, thumbprint: Option<string>, thumbprints: Option<string>)
  datatype ResolverReply = ResolverReply(err: Option<LogoutError>, credentials: Option<Credentials>)

  /** `getCredentials(issuer, sessionIndex, nameId, cb)`, as the reply it calls back with. */
  type Resolver = (Option<string>, Option<string>, Option<string>) -> ResolverReply

  /**
   * The options `parseSamlRequest` reads and writes. `thumprints` is the
   * property name the credential check tests, as spelled in the source;
   * `thumbprints` is the one it writes and hands to the signature check.
   */
  datatype CredState = CredState(
    signingCert: Option<string>,
    thumbprints: Option<string>,
    thumprints: Option<string>,
    relayState: Option<string>,
    getCredentials: Option<Resolver>)

  /** The issuer, session index and NameID the credential lookup is keyed by; a LogoutResponse is looked up by its issuer alone. */
  function CredentialKeys(kind: MessageKind, doc: XmlDoc): (Option<string>, Option<string>, Option<string>) {
    match kind
    case LogoutRequest => (doc.issuer, doc.sessionIndex, doc.nameId)
    case LogoutResponse => (doc.issuer, None, None)
  }

  /**
   * `configureSigningCredentials`: whether the signature must be checked,
   * and the options afterwards. Configured credentials (a certificate, or
   * the misspelled `thumprints`) decide at once; otherwise the resolver is
   * asked, and only credentials it hands back switch the check on, after
   * replacing the certificate and `thumbprints`.
   */
  function Configure(s: CredState, kind: MessageKind, doc: XmlDoc): (r: (bool, CredState))
    ensures Truthy(s.signingCert) || Truthy(s.thumprints) ==> r == (true, s)
    ensures !r.0 ==> r.1 == s
    ensures r.1.thumprints == s.thumprints && r.1.relayState == s.relayState && r.1.getCredentials == s.getCredentials
    ensures r.1 != s ==> r.0 && s.getCredentials.Some?
    ensures s.getCredentials.None? ==> r == (Truthy(s.signingCert) || Truthy(s.thumprints), s)
    ensures !Truthy(s.signingCert) && !Truthy(s.thumprints) && s.getCredentials.Some? ==>
              var keys := CredentialKeys(kind, doc);
              var reply := s.getCredentials.value(keys.0, keys.1, keys.2);
              && (r.0 <==> (Truthy(keys.0) || Truthy(keys.1) || Truthy(keys.2)) && reply.credentials.Some?)
              && (r.0 ==> r.1 == s.(signingCert := reply.credentials.value.cert, thumbprints := reply.credentials.value.thumbprints))
  {
    if Truthy(s.signingCert) || Truthy(s.thumprints) then (true, s)
    else if s.getCredentials.None? then (false, s)
    else
      var (issuer, sessionIndex, nameId) := CredentialKeys(kind, doc);
      if !Truthy(issuer) && !Truthy(sessionIndex) && !Truthy(nameId) then (false, s)
      else
        var reply := s.getCredentials.value(issuer, sessionIndex, nameId);
        if reply.credentials.None? then (false, s)
        else (true, s.(signingCert := reply.credentials.value.cert, thumbprints := reply.credentials.value.thumbprints))
  }

  /** The options of `checkSignature`: deflated exactly when the query carries a truthy `Signature`. */
  function CheckOptions(s: CredState, req: HttpRequest): (o: ValidationOptions)
    ensures o.deflate <==> Truthy(Query(req, "Signature"))
    ensures o.signingCert == s.signingCert && o.thumbprints == s.thumbprints && o.relayState == s.relayState
  {
    ValidationOptions(s.signingCert, s.thumbprints, Truthy(Query(req, "Signature")), s.relayState)
  }

  /** What `parseSamlRequest` calls back with: nothing, the document, or an error. */
  datatype ParseOutcome = NoMessage | Parsed(doc: XmlDoc) | Rejected(error: LogoutError)

  /** Whether the decoded bytes are sent as plain XML: they start with `<` (byte 60). */
  predicate IsPlainXml(input: seq<byte>) {
    |input| > 0 && input[0] == 60
  }

  /** The XML text of a message: the decoded bytes as they are, or inflated. */
  function XmlText(env: Env, input: seq<byte>): (r: Result<string>)
    ensures IsPlainXml(input) ==> r == Ok(env.utf8Decode(input))
    ensures !IsPlainXml(input) ==> (r.Err? <==> env.inflateRaw(input).None?)
    ensures !IsPlainXml(input) && env.inflateRaw(input).Some? ==> r == Ok(env.utf8Decode(env.inflateRaw(input).value))
    ensures r.Err? ==> r.error == InflateFailed
  {
    if IsPlainXml(input) then Ok(env.utf8Decode(input))
    else match env.inflateRaw(input)
      case None => Err(InflateFailed)
      case Some(bytes) => Ok(env.utf8Decode(bytes))
  }

  /**
   * `parseSamlRequest`: the outcome and the options afterwards. A falsy
   * message yields nothing; a text that does not parse, or parses without a
   * root element, fails; otherwise the credentials are configured and the
   * signature is checked only when they say so.
   */
  function ParseRequest(env: Env, req: HttpRequest, samlRequest: Option<string>, kind: MessageKind, s: CredState): (r: (ParseOutcome, CredState))
    ensures r.0.NoMessage? <==> !Truthy(samlRequest)
    ensures r.0.Parsed? ==> r.0.doc.hasRoot
    ensures r.0.Rejected? ==> IsDecodeError(r.0.error) || IsSignatureError(r.0.error)
    ensures r.1.thumprints == s.thumprints && r.1.relayState == s.relayState && r.1.getCredentials == s.getCredentials
    ensures Truthy(samlRequest) && XmlText(env, env.decodeBase64(samlRequest.value)).Err? ==> r == (Rejected(InflateFailed), s)
    ensures Truthy(samlRequest) ==>
              var t := XmlText(env, env.decodeBase64(samlRequest.value));
              t.Ok? && env.parseXml(t.value).None? ==> r == (Rejected(XmlParseFailed), s)
    ensures Truthy(samlRequest) ==>
              var t := XmlText(env, env.decodeBase64(samlRequest.value));
              t.Ok? && env.parseXml(t.value).Some? && !env.parseXml(t.value).value.hasRoot ==> r == (Rejected(InvalidSamlRequest), s)
    ensures Truthy(samlRequest) ==>
              var t := XmlText(env, env.decodeBase64(samlRequest.value));
              t.Ok? && env.parseXml(t.value).Some? && env.parseXml(t.value).value.hasRoot ==>
                var doc := env.parseXml(t.value).value;
                var (validate, s') := Configure(s, kind, doc);
                var verdict := ValidateSignature(env, req, kind, doc, CheckOptions(s', req));
                && r.1 == s'
                && (r.0 == Parsed(doc) <==> !validate || verdict.Valid?)
                && (r.0 != Parsed(doc) ==> verdict.Invalid? && r.0 == Rejected(verdict.error))
  {
    if !Truthy(samlRequest) then (NoMessage, s)
    else
      match XmlText(env, env.decodeBase64(samlRequest.value))
      case Err(e) => (Rejected(e), s)
      case Ok(text) =>
        match env.parseXml(text)
        case None => (Rejected(XmlParseFailed), s)
        case Some(doc) =>
          if !doc.hasRoot then (Rejected(InvalidSamlRequest), s)
          else
            var (validate, s') := Configure(s, kind, doc);
            if !validate then (Parsed(doc), s')
            else match ValidateSignature(env, req, kind, doc, CheckOptions(s', req))
              case Valid => (Parsed(doc), s')
              case Invalid(e) => (Rejected(e), s')
  }

  /** The options object `parseSamlRequest` is handed; it writes the certificate and thumbprints back into it. */
  class CredentialOptions {
    var signingCert: Option<string>
    var thumbprints: Option<string>
    const thumprints: Option<string>
    const relayState: Option<string>
    const getCredentials: Option<Resolver>

    function State(): CredState
      reads this
    {
      CredState(signingCert, thumbprints, thumprints, relayState, getCredentials)
    }

    constructor (s: CredState)
      ensures State() == s
    {
      signingCert := s.signingCert;
      thumbprints := s.thumbprints;
      thumprints := s.thumprints;
      relayState := s.relayState;
      getCredentials := s.getCredentials;
    }

    /** `configureSigningCredentials`; see `Configure`. */
    method ConfigureSigningCredentials(kind: MessageKind, doc: XmlDoc) returns (shouldValidate: bool)
      modifies this
      ensures (shouldValidate, State()) == Configure(old(State()), kind, doc)
    {
      if Truthy(signingCert) || Truthy(thumprints) {
        return true;
      }
      if getCredentials.None? {
        return false;
      }
      var (issuer, sessionIndex, nameId) := CredentialKeys(kind, doc);
      if !Truthy(issuer) && !Truthy(sessionIndex) && !Truthy(nameId) {
        return false;
      }
      var reply := getCredentials.value(issuer, sessionIndex, nameId);
      if reply.credentials.None? {
        return false;
      }
      signingCert := reply.credentials.value.cert;
      thumbprints := reply.credentials.value.thumbprints;
      shouldValidate := true;
    }

    /** `checkSignature`: the signature check under the current credentials. */
    method CheckSignature(env: Env, req: HttpRequest, kind: MessageKind, doc: XmlDoc) returns (outcome: ParseOutcome)
      ensures outcome == match ValidateSignature(env, req, kind, doc, CheckOptions(State(), req))
                         case Valid => Parsed(doc)
                         case Invalid(e) => Rejected(e)
    {
      var opts := ValidationOptions(signingCert, thumbprints, Truthy(Query(req, "Signature")), relayState);
      var verdict := ValidateSignature(env, req, kind, doc, opts);
      outcome := if verdict.Valid? then Parsed(doc) else Rejected(verdict.error);
    }
  }

  /** `parseSamlRequest(req, samlRequest, type, options, callback)`; see `ParseRequest`. */
  method ParseSamlRequest(env: Env, req: HttpRequest, samlRequest: Option<string>, kind: MessageKind, options: CredentialOptions)
    returns (outcome: ParseOutcome)
    modifies options
    ensures (outcome, options.State()) == ParseRequest(env, req, samlRequest, kind, old(options.State()))
  {
    if !Truthy(samlRequest) {
      return NoMessage;
    }
    var input := env.decodeBase64(samlRequest.value);
    var text: string;
    if input != [] && input[0] == 60 {
      text := env.utf8Decode(input);
    } else {
      var inflated := env.inflateRaw(input);
      if inflated.None? {
        return Rejected(InflateFailed);
      }
      text := env.utf8Decode(inflated.value);
    }
    var xml := env.parseXml(text);
    if xml.None? {
      return Rejected(XmlParseFailed);
    }
    if !xml.value.hasRoot {
      return Rejected(InvalidSamlRequest);
    }
    var shouldValidate := options.ConfigureSigningCredentials(kind, xml.value);
    if !shouldValidate {
      return Parsed(xml.value);
    }
    outcome := options.CheckSignature(env, req, kind, xml.value);
  }

  /**
   * Without a configured certificate, `thumprints` or resolver, nothing is
   * checked: every parsable request with a root element is accepted as it
   * is, signed or not. A `thumbprints` option alone, spelled correctly,
   * does not switch the check on.
   */
  lemma NoCredentialsNoCheck(env: Env, req: HttpRequest, samlRequest: Option<string>, kind: MessageKind, s: CredState, doc: XmlDoc)
    requires !Truthy(s.signingCert) && !Truthy(s.thumprints) && s.getCredentials.None?
    requires Truthy(samlRequest) && XmlText(env, env.decodeBase64(samlRequest.value)).Ok?
    requires env.parseXml(XmlText(env, env.decodeBase64(samlRequest.value)).value) == Some(doc) && doc.hasRoot
    ensures ParseRequest(env, req, samlRequest, kind, s) == (Parsed(doc), s)
  {
  }

  /**
   * Bytes that start with `<` are parsed as they are: the outcome does not
   * depend on the inflater at all.
   */
  lemma PlainXmlSkipsInflate(env: Env, inflate: seq<byte> -> Option<seq<byte>>, req: HttpRequest, samlRequest: Option<string>,
                             kind: MessageKind, s: CredState)
    requires Truthy(samlRequest) && IsPlainXml(env.decodeBase64(samlRequest.value))
    ensures ParseRequest(env.(inflateRaw := inflate), req, samlRequest, kind, s) == ParseRequest(env, req, samlRequest, kind, s)
  {
    var env' := env.(inflateRaw := inflate);
    var input := env.decodeBase64(samlRequest.value);
    assert XmlText(env', input) == XmlText(env, input);
    match env.parseXml(XmlText(env, input).value)
    case None =>
    case Some(doc) =>
      if doc.hasRoot {
        var (v, s') := Configure(s, kind, doc);
        assert ValidateSignature(env', req, kind, doc, CheckOptions(s', req)) == ValidateSignature(env, req, kind, doc, CheckOptions(s', req));
      }
  }

  /**
   * The resolver's error is ignored: two resolvers that hand back the same
   * credentials for every key lead to the same outcome and options, whatever
   * errors they report.
   */
  lemma ResolverErrorIgnored(env: Env, req: HttpRequest, samlRequest: Option<string>, kind: MessageKind, s: CredState, g: Resolver)
    requires s.getCredentials.Some?
    requires forall i, si, ni :: g(i, si, ni).credentials == s.getCredentials.value(i, si, ni).credentials
    ensures var r1 := ParseRequest(env, req, samlRequest, kind, s);
            var r2 := ParseRequest(env, req, samlRequest, kind, s.(getCredentials := Some(g)));
            r1.0 == r2.0 && r1.1.signingCert == r2.1.signingCert && r1.1.thumbprints == r2.1.thumbprints
  {
    var s2 := s.(getCredentials := Some(g));
    if Truthy(samlRequest) {
      var t := XmlText(env, env.decodeBase64(samlRequest.value));
      if t.Ok? && env.parseXml(t.value).Some? && env.parseXml(t.value).value.hasRoot {
        var doc := env.parseXml(t.value).value;
        var c1 := Configure(s, kind, doc);
        var c2 := Configure(s2, kind, doc);
        assert c1.0 == c2.0 && c1.1.signingCert == c2.1.signingCert && c1.1.thumbprints == c2.1.thumbprints;
        assert CheckOptions(c1.1, req) == CheckOptions(c2.1, req);
      }
    }
  }

  /**
   * When the resolver hands back credentials, the check runs with exactly
   * their certificate and their `thumbprints` (the previous values are
   * dropped), and its verdict decides the outcome.
   */
  lemma ResolvedCredentialsAreUsed(env: Env, req: HttpRequest, samlRequest: Option<string>, kind: MessageKind, s: CredState,
                                   doc: XmlDoc, cred: Credentials)
    requires !Truthy(s.signingCert) && !Truthy(s.thumprints) && s.getCredentials.Some?
    requires Truthy(samlRequest) && XmlText(env, env.decodeBase64(samlRequest.value)).Ok?
    requires env.parseXml(XmlText(env, env.decodeBase64(samlRequest.value)).value) == Some(doc) && doc.hasRoot
    requires var (i, si, ni) := CredentialKeys(kind, doc); Truthy(i) || Truthy(si) || Truthy(ni)
    requires var (i, si, ni) := CredentialKeys(kind, doc); s.getCredentials.value(i, si, ni).credentials == Some(cred)
    ensures var r := ParseRequest(env, req, samlRequest, kind, s);
            var o := ValidationOptions(cred.cert, cred.thumbprints, Truthy(Query(req, "Signature")), s.relayState);
            r.1 == s.(signingCert := cred.cert, thumbprints := cred.thumbprints)
            && (r.0.Parsed? <==> ValidateSignature(env, req, kind, doc, o).Valid?)
  {
  }
}
