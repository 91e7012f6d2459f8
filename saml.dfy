/**
 * What the logout core shares: the two message kinds and the query
 * parameter each travels in, the incoming HTTP request, the view of a
 * parsed SAML document the core reads through XPath and DOM calls, the
 * errors it raises, and the foreign code it calls (base64, UTF-8, raw
 * DEFLATE, the XML parser and serialiser, the templates and the signers),
 * which the model takes as given functions.
 */
module Saml {
  import opened Js
  import TrimXml

  /** The two protocol messages of SAML 2.0 Single Logout. */
  datatype MessageKind = LogoutRequest | LogoutResponse

  /** The query or form parameter that carries a message of this kind. */
  function Prop(kind: MessageKind): (p: string)
    ensures p == "SAMLRequest" || p == "SAMLResponse"
    ensures kind.LogoutRequest? <==> p == "SAMLRequest"
    ensures p[..4] == "SAML" && |p| >= 11
  {
    match kind
    case LogoutRequest => "SAMLRequest"
    case LogoutResponse => "SAMLResponse"
  }

  /** The status codes of section 3.2.2.2 of SAML 2.0 Core. */
  const StatusSuccess := "urn:oasis:names:tc:SAML:2.0:status:Success"
  const StatusPartialLogout := "urn:oasis:names:tc:SAML:2.0:status:PartialLogout"
  const StatusResponder := "urn:oasis:names:tc:SAML:2.0:status:Responder"

  /** The HTTP-Redirect binding of section 3.4 of SAML 2.0 Bindings. */
  const HttpRedirect := "urn:oasis:names:tc:SAML:2.0:bindings:HTTP-Redirect"

  /** The two signature algorithms the detached (Redirect) signature check accepts. */
  const RsaSha256 := "http://www.w3.org/2001/04/xmldsig-more#rsa-sha256"
  const RsaSha1 := "http://www.w3.org/2000/09/xmldsig#rsa-sha1"

  /**
   * The incoming request: its query string and its form body, each a
   * dictionary of single string values. A missing parameter is `undefined`.
   */
  datatype HttpRequest = HttpRequest(query: map<string, string>, body: map<string, string>)

  function Query(req: HttpRequest, name: string): Option<string> {
    Get(req.query, name)
  }

  function Body(req: HttpRequest, name: string): Option<string> {
    Get(req.body, name)
  }

  /**
   * `req.query[name] || req.body[name]`, the way every entry point reads a
   * parameter that may come by either binding.
   */
  function Param(req: HttpRequest, name: string): (r: Option<string>)
    ensures Truthy(r) <==> Truthy(Query(req, name)) || Truthy(Body(req, name))
  {
    Or(Query(req, name), Body(req, name))
  }

  /**
   * What the core reads from a parsed SAML document. `None` stands for a
   * node the XPath query or DOM lookup does not find; the attributes read
   * with `getAttribute` are "" when absent, as the DOM has it.
   */
  datatype XmlDoc = XmlDoc(
    hasRoot: bool,                    // `documentElement` exists
    issuer: Option<string>,           // text of the first Issuer
    sessionIndex: Option<string>,     // text of the first SessionIndex
    nameId: Option<string>,           // text of the first NameID
    nameIdFormat: string,             // its Format attribute
    destinationAttr: string,          // Destination attribute of the root
    idAttr: string,                   // ID attribute of the root
    signature: Option<string>,        // text of the first node on the signature path
    statusCodes: seq<string>,         // Value attributes of the StatusCode elements, in document order
    statusMessage: Option<string>,    // text of the first StatusMessage
    statusDetail: Option<string>,     // text of the first StatusDetail
    assertionIssuer: Option<string>)  // text of the first Issuer in the assertion namespace

  /** The options the signature checks read. */
  datatype ValidationOptions = ValidationOptions(
    signingCert: Option<string>,
    thumbprints: Option<string>,
    deflate: bool,
    relayState: Option<string>)

  /** The fields the LogoutRequest template is filled with. */
  datatype LogoutRequestFields = LogoutRequestFields(
    id: string, instant: string, issuer: Option<string>, nameId: Option<string>,
    nameIdFormat: Option<string>, sessionIndex: Option<string>, destination: Option<string>)

  /** The fields the LogoutResponse template is filled with. */
  datatype LogoutResponseFields = LogoutResponseFields(
    id: string, instant: string, inResponseTo: Option<string>, destination: Option<string>,
    issuer: Option<string>, statusCode: Option<string>, statusMessage: Option<string>)

  /**
   * The foreign code the core calls, as functions. A `None` result is a
   * thrown exception or an error handed to a callback.
   */
  datatype Env = Env(
    decodeBase64: string -> seq<byte>,                // `Buffer.from(s, "base64")`: lenient, never fails
    encodeBase64: seq<byte> -> string,
    utf8Decode: seq<byte> -> string,                   // `buffer.toString()`
    utf8Encode: string -> seq<byte>,                   // `Buffer.from(s)`
    inflateRaw: seq<byte> -> Option<seq<byte>>,
    deflateRaw: seq<byte> -> Option<seq<byte>>,
    parseXml: string -> Option<XmlDoc>,
    parseDom: string -> TrimXml.XmlNode,               // the DOM parser as trimXML uses it
    serializeDom: TrimXml.XmlNode -> string,
    stringify: Obj -> string,                          // `querystring.stringify`
    signXml: (Option<string>, string) -> Option<string>,  // embedded signature at `options.reference`
    sigAlg: string,                                    // `signers.getSigAlg(options)`
    sign: string -> string,                            // `signers.sign(options, content)`
    validateEmbedded: (XmlDoc, ValidationOptions) -> seq<string>,  // the error list, empty when valid
    isValidDetached: (string, Option<string>, Option<string>, Option<string>) -> bool,
    logoutRequestXml: LogoutRequestFields -> string,
    logoutResponseXml: LogoutResponseFields -> string,
    responseSignatureLocation: string)                 // where a LogoutResponse carries its signature

  /** The errors the core raises or passes on. */
  datatype LogoutError =
    | InvalidSamlRequest
    | InflateFailed
    | XmlParseFailed
    | SignatureCheckErrors(errors: seq<string>)
    | SignatureAlgorithmMissing
    | InvalidSignatureAlgorithm
    | SignatureMismatch(signature: Option<string>)
    | MustBeSigned(prop: string)
    | MissingIssuer
    | InvalidSessionParticipant
    | InvalidRelayState
    | NoGlobalState
    | SigningFailed
    | DeflateFailed
    | DestinationNotSpecified

  /** `String(v)` in a concatenation: `undefined` prints as "undefined". */
  function Printed(v: Option<string>): string {
    if v.Some? then v.value else "undefined"
  }

  /**
   * The message of the `Error` each case is raised with. The failures of
   * foreign code carry that code's own message, which the model does not
   * know; they get a description.
   */
  function Message(e: LogoutError): (m: string)
  {
    match e
    case InvalidSamlRequest => "Invalid SAML Request"
    case InflateFailed => "inflate failed"
    case XmlParseFailed => "XML parse failed"
    case SignatureCheckErrors(errors) => "Signature check errors: " + Join(errors, "; ")
    case SignatureAlgorithmMissing => "Signature Algorithm is missing"
    case InvalidSignatureAlgorithm =>
      "Invalid signature algorithm. Supported algorithms are http://www.w3.org/2001/04/xmldsig-more#rsa-sha1 and http://www.w3.org/2001/04/xmldsig-more#rsa-sha256"
    case SignatureMismatch(signature) =>
      "Signature check errors: The signature provided (" + Printed(signature) + ") does not match the one calculated"
    case MustBeSigned(prop) => prop + " message MUST be signed when using an asynchronous binding (POST or Redirect)"
    case MissingIssuer => "SAML Request with no issuer. Issuer is a mandatory element."
    case InvalidSessionParticipant => "Invalid Session Participant"
    case InvalidRelayState => "Invalid RelayState"
    case NoGlobalState => "Cannot set properties of undefined (setting 'global_status')"
    case SigningFailed => "signing failed"
    case DeflateFailed => "deflate failed"
    case DestinationNotSpecified => "Destination not specified"
  }

  /** The status part of a LogoutResponse, as `validateSamlResponse` collects it. */
  datatype ParsedResponse = ParsedResponse(
    status: Option<string>, subCode: Option<string>, message: Option<string>,
    detail: Option<string>, issuer: Option<string>)

  /**
   * The fields read from a LogoutResponse: the first StatusCode is the
   * status and the second the sub-code (nested codes come in document
   * order); message, detail and issuer are present when their elements are.
   */
  function ReadResponse(doc: XmlDoc): (r: ParsedResponse)
    ensures r.status.Some? <==> |doc.statusCodes| >= 1
    ensures r.subCode.Some? <==> |doc.statusCodes| >= 2
    ensures r.status.Some? ==> r.status.value == doc.statusCodes[0]
    ensures r.subCode.Some? ==> r.subCode.value == doc.statusCodes[1]
    ensures r.message == doc.statusMessage && r.detail == doc.statusDetail && r.issuer == doc.assertionIssuer
  {
    var cs := doc.statusCodes;
    ParsedResponse(
      if |cs| >= 1 then Some(cs[0]) else None,
      if |cs| >= 2 then Some(cs[1]) else None,
      doc.statusMessage, doc.statusDetail, doc.assertionIssuer)
  }

  /** The result of a step that either yields a value or fails with an error. */
  datatype Result<T> = Ok(value: T) | Err(error: LogoutError)
}
