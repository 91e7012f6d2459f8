# SAML 2.0 Single Logout, Identity Provider side

A Dafny model of the logout core of node-samlp (`lib/logout.js` and the modules it relies on). An identity provider (IdP) keeps a registry of the service providers (SPs) a browser principal is logged in to. It logs that principal out of each of them in turn.

The handler returned by `logout(options)` has three branches:

- **SP-initiated.** An incoming `SAMLRequest` is parsed and its signature checked. A transaction answering it is saved, the sender is removed from the registry, and a LogoutRequest goes to each remaining participant.
- **Continuation.** An incoming `SAMLResponse` is matched, through its `RelayState`, to the saved state of the LogoutRequest it answers. Its signature is checked, the participant is removed, and the next participant is addressed.
- **IdP-initiated.** Neither parameter is present. An empty transaction is saved and dispatching begins.

When no participant is left, `finalize` destroys the transaction. The originator gets a LogoutResponse with status Success, or PartialLogout when some participant failed or the IdP session could not be cleared. An IdP-initiated logout ends with a bare 200 instead.

`sendLogoutError` answers with an error LogoutResponse. Outgoing messages are trimmed of blank text nodes and sent in one of two ways:

- as a signed auto-submitting form (HTTP-POST);
- as a redirect (HTTP-Redirect). With DEFLATE, the redirect carries a detached signature over the raw-deflated, base64-encoded message, the RelayState when non-empty, and `SigAlg`, in that order. Without DEFLATE it carries the signed, base64-encoded message without a detached signature.

Layout, one module per source component:

- **`Js`.** JavaScript values the code relies on: `undefined` as `Option`, truthiness, `||` on strings, and plain objects as ordered property lists. Those lists give insertion order, assignment and `delete`.
- **`Participants`.** `lib/sessionParticipants/index.js`: the registry as a class over a sequence.
- **`MemoryStore`.** `test/inMemoryStore.js`: the transaction store as a class over a map.
- **`Encoders`.** `removeHeaders` of `lib/encoders.js`, with the regular expression written out as a scanner.
- **`TrimXml`.** `lib/trim_xml.js`: one pass of `removeEmptyNodes` as a method with a loop, on a value tree.
- **`XmlDateTime`.** `formatXmlDateTime` of `lib/utils.js`, with an inverse.
- **`Saml`.** Shared types: the request, the parsed-document view, the errors, and the foreign code as given functions.
- **`Utils`.** `parseSamlRequest`, `configureSigningCredentials` and `validateSignature` of `lib/utils.js`.
- **`Logout`.** The handler. Each step is a function from the state before (registry, store dictionary, mutable options) to the state after and the HTTP reply. The methods of the `LogoutHandler` and `LogoutOptions` classes change those objects in place. Each method is proved to end in the state its step function gives.
- **`LogoutProperties`.** Lemmas about the whole flow.

Foreign code enters as fields of `Saml.Env`: base64, UTF-8, raw DEFLATE/INFLATE, the XML parser and serialiser, the XPath reads, the templates, the signers and the query-string serialiser. The values the handler draws from randomness and the clock enter as a `Logout.Draws` record: the store keys, the message ID and the instant. Whether `clearIdPSession` fails is a boolean input.

Behaviour the model keeps as the code has it, though it looks unintended (the model's departures from the code are listed under "Left out"; the `SigAlg` one is also a Finding):

- **Misspelt property.** The credential check tests `options.thumprints`, not `thumbprints`. The resolver result it adopts is read from `credentials.thumbprints`. The logout resolver hands back `thumbprint`, so the adopted thumbprints are always unset (`LogoutProperties.ThumbprintsNeverAdopted`).
- **Unregistered senders.** A failed resolver lookup is only an error handed to a callback that ignores it. A LogoutRequest from an unregistered sender is therefore not signature-checked (`LogoutProperties.UnknownSenderNotChecked`).
- **Stale destination.** The presence test reads `options.destination`, which every dispatch overwrites. Once it is set, an unregistered sender is accepted and will be answered at the last participant's address (`LogoutProperties.StaleDestinationAdmitsUnknownSender`).
- **Falsy `serviceProviderId`.** `remove` does nothing for such a participant. After its Success response it is addressed again, and the registry does not shrink (`LogoutProperties.FalsyIssuerIsDispatchedAgain`).
- **Binding and reference.** `finalize` never changes the binding, because the stored request has no binding. It leaves `options.reference` set for later requests.

## Model

| member | source | states |
|---|---|---|
| Participants.FindIndex | lib/sessionParticipants/index.js:14-46 | the index of the first participant the `matchingIndex` predicate accepts, or -1 exactly when none does |
| Participants.Matches | lib/sessionParticipants/index.js:14-46 | no contract of its own: the `matchingIndex` predicate, described by `Participants.FindIndex` and `Participants.RegistryExamples` |
| Participants.Find | lib/sessionParticipants/index.js:58-73 | `get` hands back nothing exactly when no participant matches; otherwise it hands back the first match in list order |
| Participants.Removal | lib/sessionParticipants/index.js:107-134 | an empty list or a falsy issuer removes nothing; otherwise the first match, if any, is spliced out, the list shrinks by one and the removed element is handed back |
| Participants.SessionParticipants.constructor | lib/sessionParticipants/index.js:10-12 | the registry starts as the given sessions, or empty |
| Participants.SessionParticipants.Get | lib/sessionParticipants/index.js:58-73 | returns the first match and leaves the list unchanged |
| Participants.SessionParticipants.HasElements | lib/sessionParticipants/index.js:79-81 | true exactly when a participant is left |
| Participants.SessionParticipants.GetFirst | lib/sessionParticipants/index.js:90-98 | the earliest participant without removing it, undefined when empty |
| Participants.SessionParticipants.Remove | lib/sessionParticipants/index.js:107-134 | the new list and the removed element are those of `Removal` of the old list |
| Participants.RegistryExamples | lib/sessionParticipants/index.js:14-46 | issuer mismatch refuses, a missing issuer matches on session index and NameID alone, a missing issuer removes nothing |
| Participants.NoIssuerIsNeverRemoved | lib/sessionParticipants/index.js:113-115 | a participant without a truthy `serviceProviderId` is found by its own fields but never removed by them |
| MemoryStore.Lookup | test/inMemoryStore.js:30 | `load` reads the stored value exactly when the key is present (own keys only, see "Left out") |
| MemoryStore.AfterLoad | test/inMemoryStore.js:32-34 | with `destroy`, only the loaded key is gone and every other entry is kept; without it, nothing changes |
| MemoryStore.InMemoryStore.constructor | test/inMemoryStore.js:6-8 | the dictionary starts empty |
| MemoryStore.InMemoryStore.Save | test/inMemoryStore.js:10-14 | stores the data under the new key and returns that key; other keys keep their values |
| MemoryStore.InMemoryStore.Update | test/inMemoryStore.js:16-22 | stores the data under the given key and returns it; other keys keep their values |
| MemoryStore.InMemoryStore.Load | test/inMemoryStore.js:24-37 | returns the stored value or undefined, and deletes only that key when `destroy` is asked for |
| MemoryStore.InMemoryStore.Clear | test/inMemoryStore.js:39-45 | the dictionary is empty afterwards |
| Encoders.FirstMatchSound | lib/encoders.js:4-6 | the position `exec` reports is one where the armour pattern matches, with the groups found there |
| Encoders.FirstMatch | lib/encoders.js:4-6 | the `exec` of the armour pattern: a position and group bounds inside the text; described by `Encoders.FirstMatchSound` and `Encoders.FirstMatchLeftmost` |
| Encoders.FirstMatchLeftmost | lib/encoders.js:4-6 | no earlier position matches, and when `exec` reports nothing no position matches at all |
| Encoders.Strip | lib/encoders.js:8 | the result has no `\n`, `\r` or `\|` left and only characters of the input |
| Encoders.RemoveHeaders | lib/encoders.js:3-13 | an absent certificate gives ""; the result never holds a line break, `\|` or `-` |
| Encoders.MatchAtSound | lib/encoders.js:4-6 | every match the scanner reports is a `-----BEGIN w-----body-----END w-----` armour in the sense of the regular expression |
| Encoders.MatchAtComplete | lib/encoders.js:4-6 | every armour of the regular expression is found by the scanner at its position with the same groups |
| Encoders.NoArmourGivesEmpty | lib/encoders.js:10-12 | text without an armour yields "" |
| Encoders.FirstArmourBody | lib/encoders.js:3-13 | the result is the body of the first armour with the line breaks and `\|` removed |
| Encoders.StripConcat | lib/encoders.js:8 | the global replace works character by character: it commutes with concatenation |
| Encoders.StripKeeps | lib/encoders.js:8 | text with nothing to remove is returned unchanged |
| Encoders.LeadingArmour | lib/encoders.js:3-13 | a certificate that starts with an armour yields that armour's body, stripped, whatever follows |
| TrimXml.Pruned | lib/trim_xml.js:9-19 | one pass keeps the node's type and value and recurses into element children |
| TrimXml.PruneFrom | lib/trim_xml.js:10-18 | the loop from index `i` on, with its index skipping the sibling after each removal |
| TrimXml.PruneFromThins | lib/trim_xml.js:10-18 | the children after the pass are the original ones with some whitespace-only text nodes dropped and each survivor kept, or pruned when it is an element |
| TrimXml.PrunedThins | lib/trim_xml.js:9-19 | the same for a whole node |
| TrimXml.RemoveEmptyNodes | lib/trim_xml.js:9-19 | the loop with in-place `removeChild`, index advancing past the sibling after a removal, ends with exactly `Pruned(node)` |
| TrimXml.PruneFromBlank | lib/trim_xml.js:13-14 | a whitespace-only text child is removed and its right-hand sibling is not visited |
| TrimXml.IsWhitespaceOnly | lib/trim_xml.js:7 | no contract of its own: `/^\s+$/`, one or more characters of the JavaScript `\s` class; used by `TrimXml.IsBlankText` |
| TrimXml.IsBlankText | lib/trim_xml.js:7-13 | no contract of its own: a text node (type 3) whose value is whitespace only; described by `TrimXml.PruneFromBlank` and `TrimXml.ThinnedKeepsNonBlank` |
| TrimXml.PruneFromElement | lib/trim_xml.js:15-16 | an element child is pruned in its turn |
| TrimXml.PruneFromOther | lib/trim_xml.js:10-18 | any other child stays unchanged |
| TrimXml.TrimXml | lib/trim_xml.js:21-28 | `trimXML` is serialise after one pass over the parsed document |
| TrimXml.ThinnedKeepsNonBlank | lib/trim_xml.js:9-19 | the pass never adds children, and never drops one that is not a whitespace-only text node |
| TrimXml.NoBlankChildrenAllVisited | lib/trim_xml.js:10-18 | with no blank text among the children, every child is visited and kept in place |
| TrimXml.SkippedSiblingExamples | lib/trim_xml.js:12-14 | two adjacent blank text nodes leave the second one in place; a second pass removes it |
| XmlDateTime.NatToString | lib/utils.js:183 | the decimal form of a number: digits only, one digit exactly below 10 |
| XmlDateTime.IntToString | lib/utils.js:183 | `String(year)`: at least one character, a leading minus exactly for a negative year; read back by `XmlDateTime.IntToStringValue` |
| XmlDateTime.Pad2 | lib/utils.js:185-193 | no contract of its own: `("0" + n).slice(-2)`; described by `XmlDateTime.Pad2Below100` |
| XmlDateTime.Pad3 | lib/utils.js:195 | no contract of its own: `("00" + n).slice(-3)`; described by `XmlDateTime.Pad3Below1000` |
| XmlDateTime.FormatXmlDateTime | lib/utils.js:181-198 | no contract of its own; described by `XmlDateTime.FormatRoundTrip` and `XmlDateTime.EpochExample` |
| XmlDateTime.SliceLast | lib/utils.js:185 | `slice(-k)` keeps the last k characters, or all when shorter |
| XmlDateTime.Pad2Below100 | lib/utils.js:185-193 | `("0" + n).slice(-2)` is the two digits of n below 100 |
| XmlDateTime.Pad3Below1000 | lib/utils.js:195 | `("00" + n).slice(-3)` is the three digits of n below 1000 |
| XmlDateTime.ParseXmlDateTime | lib/utils.js:181-198 | the inverse of the format: a text it accepts ends in `Z` after more than 20 characters |
| XmlDateTime.NatToStringValue | lib/utils.js:183 | the digits written read back as the number |
| XmlDateTime.IntToStringValue | lib/utils.js:183 | the year, with its sign, reads back |
| XmlDateTime.FormatRoundTrip | lib/utils.js:181-198 | for the field ranges a `Date` keeps to, the formatted instant is the year plus 20 characters and parses back to the same fields |
| XmlDateTime.EpochExample | lib/utils.js:181-198 | the epoch formats as `1970-01-01T00:00:00.000Z` |
| Saml.Prop | lib/logout.js:697 | a request travels in `SAMLRequest` and a response in `SAMLResponse`, and the two are never swapped |
| Saml.Param | lib/logout.js:310 | `req.query[n] \|\| req.body[n]` is truthy exactly when either is |
| Saml.ReadResponse | lib/logout.js:220-268 | the status is the first StatusCode and the sub-code the second; message, detail and assertion issuer are present when their elements are |
| Utils.SignedContentBuilt | lib/utils.js:243-251 | the signed content object holds the message, the RelayState and the algorithm, in that order, with the RelayState deleted when it and the configured one are both falsy |
| Utils.SignedContent | lib/utils.js:243-251 | no contract of its own; described by `Utils.SignedContentBuilt` and `Utils.SignedContentShape` |
| Utils.SignedRelayState | lib/utils.js:246 | no contract of its own: `req.query.RelayState || options.relayState`; described by `Utils.SignedContentShape` |
| Utils.IsSupportedSigAlg | lib/utils.js:12-15 | no contract of its own: the two own keys of `algorithmSignatures`, the corrected test of lib/utils.js:257; described by `Utils.UnsupportedAlgorithmRejected` |
| Utils.AlgorithmLookupTruthy | lib/utils.js:257 | no contract of its own: the test as written, also true for the names inherited from `Object.prototype`; described by `Utils.PrototypeAlgorithmReachesSigner` |
| Utils.IsSigned | lib/utils.js:224-226 | no contract of its own: `isRequestSigned`, by the `Signature` query parameter when deflated and by a signature node otherwise; described by `Utils.ValidateSignature` |
| Utils.UsesEmbeddedSignature | lib/utils.js:229 | no contract of its own: the embedded check for a POST body or a Redirect without DEFLATE; described by `Utils.ValidateSignature` |
| Utils.SignedContentShape | lib/utils.js:243-251 | the signed content includes RelayState exactly when the query's or the configured RelayState is truthy, and its value is the query's, else the configured one |
| Utils.ValidateSignature | lib/utils.js:217-286 | an unsigned message passes exactly when there is no certificate, and otherwise fails with MUST be signed; an embedded signature passes exactly when the embedded check reports no error, and otherwise fails with those errors; a detached one without `SigAlg` fails with the missing-algorithm error; with a supported algorithm it passes when the signer accepts the signature over exactly the signed content, and otherwise fails with a mismatch naming the signature; it passes only with a supported algorithm; every failure is a signature error |
| Utils.ValidateSignatureWith | lib/utils.js:217-286 | no contract of its own: `validateSignature` with the algorithm test as a parameter; with the test as written it is described by `Utils.PrototypeAlgorithmReachesSigner`, with the intended one it is `Utils.ValidateSignature` |
| Utils.UnsupportedAlgorithmRejected | lib/utils.js:253-261 | a detached signature with any other algorithm is refused with the invalid-algorithm error |
| Utils.PrototypeAlgorithmReachesSigner | lib/utils.js:257-270 | as written, `SigAlg=toString` passes the algorithm test and its verdict is the signer's; the corrected test refuses it |
| Utils.Configure | lib/utils.js:43-100 | a configured certificate or `thumprints` means check; without a resolver, no check; with a resolver, check exactly when some key (issuer, session index, NameID) is truthy and the resolver hands back credentials, whatever error it reports, and then its certificate and `thumbprints` replace the options' ones; without a check the options are unchanged |
| Utils.CredentialKeys | lib/utils.js:52-81 | no contract of its own: the issuer, session index and NameID the resolver is called with; described by `Utils.Configure` and `Utils.ResolvedCredentialsAreUsed` |
| Utils.CheckOptions | lib/utils.js:18-25 | the check options carry the configured certificate, thumbprints and RelayState, with DEFLATE on exactly when the query has a Signature |
| Utils.XmlText | lib/utils.js:105-135 | input starting with `<` is read as it is; anything else is inflated and the inflated bytes are read; an inflate error is the only error |
| Utils.IsPlainXml | lib/utils.js:107 | no contract of its own: the first decoded byte is 60; described by `Utils.XmlText` and `Utils.PlainXmlSkipsInflate` |
| Utils.ParseRequest | lib/utils.js:17-153 | no message exactly when the input is falsy; an inflate error, a text that does not parse, and a document without a root ("Invalid SAML Request") are refused with those errors and leave the options alone; a rooted document is handed back exactly when the credentials say no check is needed or the signature check passes, and is otherwise refused with the check's error; the options afterwards are those the credential step leaves; the resolver, RelayState and `thumprints` options are never changed |
| Utils.CredentialOptions.ConfigureSigningCredentials | lib/utils.js:43-100 | the options object after the call and the decision are those of `Configure` |
| Utils.CredentialOptions.constructor | lib/utils.js:17 | the `options` object handed to `parseSamlRequest` holds exactly the given credential state |
| Utils.CredentialOptions.CheckSignature | lib/utils.js:18-33 | the document is handed on exactly when `validateSignature` with the check options passes, and the error is handed on otherwise |
| Utils.ParseSamlRequest | lib/utils.js:17-153 | the outcome and the options afterwards are those of `ParseRequest` |
| Utils.NoCredentialsNoCheck | lib/utils.js:44-50 | with no certificate, no `thumprints` and no resolver, any well-formed message is accepted unchecked, including one configured with `thumbprints` alone |
| Utils.PlainXmlSkipsInflate | lib/utils.js:105-122 | a message whose decoded bytes start with `<` never reaches INFLATE |
| Utils.ResolverErrorIgnored | lib/utils.js:87-99 | the outcome depends on the resolver's credentials only, never on the error it reports |
| Utils.ResolvedCredentialsAreUsed | lib/utils.js:87-99 | credentials handed back are adopted, and the message is checked against their certificate |
| Logout.Send | lib/logout.js:699-725 | POST unless the binding is HTTP-Redirect, to the current destination under the message's parameter; a redirect carries the parameters as built |
| Logout.TrimmedToken | lib/logout.js:733 | no contract of its own: `trimXML(token)`; described by `LogoutProperties.PostBindingForm`, `RedirectWithoutDeflate` and `RedirectDetachedSignature` |
| Logout.TokenReply | lib/logout.js:696-766 | no contract of its own; described by `LogoutProperties.PostBindingForm`, `RedirectWithoutDeflate`, `RedirectDetachedSignature`, `TokenReplyFailures` and `RedirectMessageDecodes` |
| Logout.RequestState | lib/logout.js:55-60 | the state of a LogoutRequest records the transaction and the participant's issuer, session index and NameID |
| Logout.RequestFields | lib/logout.js:76-87 | no contract of its own: the LogoutRequest template fields of the participant; described by `LogoutProperties.IdpFirstStep` and `LogoutProperties.FalsyIssuerIsDispatchedAgain` |
| Logout.StoreKey | test/inMemoryStore.js:17-30 | no contract of its own: the dictionary is indexed by `String(key)`, so an absent key is "undefined"; described by `LogoutProperties.InvalidRelayStateRejected` |
| Logout.FinalizeStep | lib/logout.js:117-197 | the transaction is destroyed and nothing else in the store or registry changes; the binding is kept; the reply is a bare 200 exactly when there is no transaction or it has no originating request, and then the options are unchanged |
| Logout.FinalStatus | lib/logout.js:161-163 | no contract of its own: PartialLogout when partial, Success otherwise; described by `LogoutProperties.FinalResponse` |
| Logout.FinalResponseFields | lib/logout.js:154-166 | no contract of its own: the LogoutResponse template fields of `finalize`; described by `LogoutProperties.FinalResponse` |
| Logout.DispatchStep | lib/logout.js:36-115 | with nobody left, finalize; otherwise the state of a LogoutRequest to the first participant is stored under the new key, the options are addressed to it (its URL, its binding or the current one, the new key as RelayState), the request is sent, and the registry is left as it is |
| Logout.LogoutCredentials | lib/logout.js:312-357 | an unknown participant is an error; an uncertified one hands back nothing; otherwise its certificate and single thumbprint are handed back, never `thumbprints` |
| Logout.LogoutResolver | lib/logout.js:312-357 | no contract of its own: the resolver as a function value, described by `Logout.LogoutCredentials` and `LogoutProperties.ThumbprintsNeverAdopted` |
| Logout.ReadRequest | lib/logout.js:639-692 | issuer, session index and NameID as found; the NameID format only with a NameID; the ID only when non-empty |
| Logout.ResponseCheck | lib/logout.js:199-305 | a response is accepted only if it decodes and parses, with its status read from the document; bytes that do not parse give the parse error; with a certificate, a parsed response is accepted exactly when its signature passes and otherwise refused with the check's error; without one, it passes once parsed; an inflate failure is reported as such |
| Logout.ResponseBytes | lib/logout.js:298-304 | no contract of its own: the base64-decoded bytes, inflated only on the Redirect-with-DEFLATE path; described by `Logout.ResponseCheck` |
| Logout.SpInitiatedStep | lib/logout.js:310-474 | no contract of its own; described by `LogoutProperties.MissingIssuerRejected`, `UnknownSenderNotChecked`, `UnknownSenderRejected`, `StaleDestinationAdmitsUnknownSender`, `KnownSenderAccepted` and `SpInitiatedKeepsMark` |
| Logout.ProcessStep | lib/logout.js:478-506 | no contract of its own; described by `LogoutProperties.ContinuationOnSuccess`, `ResponderRemoved` and `FalsyIssuerIsDispatchedAgain` |
| Logout.ContinuationStep | lib/logout.js:477-597 | no contract of its own; described by `LogoutProperties.InvalidRelayStateRejected`, `UnknownResponderRejected`, `RefusedResponseHandedOn`, `ContinuationOnSuccess`, `ContinuationOnFailure`, `ResponderRemoved` and `ContinuationKeepsMark` |
| Logout.IdpInitiatedStep | lib/logout.js:600-610 | the dispatch it performs on the store with an empty transaction saved; described by `LogoutProperties.IdpFirstStep` and `IdpInitiatedTrace` |
| Logout.HandleStep | lib/logout.js:307-614 | no contract of its own: the choice of branch; described by `LogoutProperties.IdpInitiatedTrace`, `LastResponseAnswersOriginator` and `FailedMarkPersists` |
| Logout.ResponseOptions | lib/logout.js:285-288 | the participant's certificate is a default that an own `signingCert` option overrides; the other options are the current ones |
| Logout.LogoutErrorStep | lib/logout.js:768-802 | without a destination, the error and no change; otherwise signed at the response location, with the first truthy of the options', query's and body's RelayState |
| Logout.ErrorResponseFields | lib/logout.js:774-784 | no contract of its own: the configured error code or Responder, and the configured description; described by `LogoutProperties.ErrorResponseCarriesCode` |
| Logout.SendLogoutError | lib/logout.js:768-802 | the options afterwards and the reply are those of `LogoutErrorStep` |
| Logout.LogoutHandler.Finalize | lib/logout.js:117-197 | registry, store and options afterwards, and the reply, are those of `FinalizeStep` |
| Logout.LogoutHandler.PrepareAndSendLogoutRequest | lib/logout.js:36-115 | the new state and reply are those of `DispatchStep` |
| Logout.LogoutHandler.ValidateSamlResponse | lib/logout.js:199-305 | the verdict is that of `ResponseCheck` on the current options |
| Logout.LogoutHandler.SpInitiated | lib/logout.js:310-474 | the new state and reply are those of `SpInitiatedStep` |
| Logout.LogoutHandler.Process | lib/logout.js:478-506 | the new state and reply are those of `ProcessStep` |
| Logout.LogoutHandler.Continuation | lib/logout.js:477-597 | the new state and reply are those of `ContinuationStep` |
| Logout.LogoutHandler.IdpInitiated | lib/logout.js:600-610 | the new state and reply are those of `IdpInitiatedStep` |
| Logout.LogoutHandler.Handle | lib/logout.js:307-614 | the new state and reply are those of `HandleStep` |
| Logout.LogoutOptions.constructor | lib/logout.js:24-33 | the `options` object the handler closes over starts with the given destination, binding, RelayState and reference |
| Logout.LogoutHandler.constructor | lib/logout.js:24-33 | the handler closes over exactly the given options, registry and store |
| LogoutProperties.PostBindingForm | lib/logout.js:735-745 | for POST: the form carries the signed, base64-encoded message, the RelayState or "", and the nonce or ""; signing failures fail |
| LogoutProperties.RedirectWithoutDeflate | lib/logout.js:735-745 | for Redirect without DEFLATE: the signed, base64-encoded message and the RelayState, with no detached signature |
| LogoutProperties.RedirectDetachedSignature | lib/logout.js:748-765 | for Redirect with DEFLATE: the deflated, base64-encoded message, the RelayState only when non-empty, `SigAlg`, then a `Signature` over exactly those, in that order |
| LogoutProperties.TokenReplyFailures | lib/logout.js:735-750 | sending fails only by signing or by DEFLATE, never with a bare 200 |
| LogoutProperties.DispatchEffects | lib/logout.js:36-115 | dispatching fails only when sending does; the registry is untouched; every store entry other than the new key is kept or destroyed, never changed |
| LogoutProperties.FinalResponse | lib/logout.js:117-197 | the final LogoutResponse answers the stored ID at the stored URL or the destination, carries the stored RelayState, is signed at the response location, and is PartialLogout exactly when the transaction is marked failed or the IdP session could not be cleared, Success otherwise |
| LogoutProperties.IdpInitiatedEndsWith200 | lib/logout.js:144-150 | without an originating request the flow ends with a bare 200 and the transaction is gone |
| LogoutProperties.MissingIssuerRejected | lib/logout.js:376-387 | a LogoutRequest is refused for a missing issuer exactly when it parses without one, and then nothing changes |
| LogoutProperties.UnknownSenderNotChecked | lib/logout.js:312-357 | a request from a sender that is not registered is accepted without a signature check |
| LogoutProperties.ThumbprintsNeverAdopted | lib/logout.js:351-354 | after parsing with the handler's resolver, the thumbprints option is always unset |
| LogoutProperties.UnknownSenderRejected | lib/logout.js:404-412 | an unknown sender with no destination set is refused and nothing changes |
| LogoutProperties.StaleDestinationAdmitsUnknownSender | lib/logout.js:404-426 | with the destination left by an earlier dispatch, an unknown sender is accepted: a transaction answering it at that address is saved, the registry is unchanged, and dispatching begins |
| LogoutProperties.KnownSenderAccepted | lib/logout.js:414-470 | a registered sender's parsed request saves a transaction answering it at its URL or the destination, removes the sender (the registry shrinks by one) and dispatches |
| LogoutProperties.InvalidRelayStateRejected | lib/logout.js:509-524 | a RelayState naming no saved state is refused and nothing changes |
| LogoutProperties.UnknownResponderRejected | lib/logout.js:526-542 | a saved state whose participant is not in the registry fails with Invalid Session Participant, and the loaded state is destroyed |
| LogoutProperties.RefusedResponseHandedOn | lib/logout.js:544-556 | a response from the state's participant that fails its check is handed on as that error, and the loaded state is destroyed |
| LogoutProperties.ContinuationOnSuccess | lib/logout.js:545-563 | a passing Success response destroys the state and continues with the participant's removal |
| LogoutProperties.ContinuationOnFailure | lib/logout.js:565-593 | any other status marks the transaction failed before the removal, and fails when the transaction is gone |
| LogoutProperties.IdpFirstStep | lib/logout.js:600-610 | the first request of an IdP-initiated logout saves an empty transaction and the state of a LogoutRequest to the participant, addresses it and sends it |
| LogoutProperties.IdpLastStep | lib/logout.js:477-597 | the only participant's Success response empties registry and store and ends with a bare 200 |
| LogoutProperties.IdpInitiatedTrace | lib/logout.js:307-614 | an IdP-initiated logout of one participant, from start to end, leaves an empty registry, an empty store and a bare 200 |
| LogoutProperties.LastResponseFinalizes | lib/logout.js:477-597 | the last outstanding response empties the registry and finalizes the transaction its state names |
| LogoutProperties.LastResponseAnswersOriginator | lib/logout.js:117-197 | the last response of an SP-initiated logout destroys its state and the transaction and answers the originator, with PartialLogout exactly when this or an earlier response failed or the session could not be cleared |
| LogoutProperties.FinalizeAfterLast | lib/logout.js:117-197 | finalizing after the last response, in store terms |
| LogoutProperties.FalsyIssuerIsDispatchedAgain | lib/logout.js:478-506 | as written, after the Success response of a participant with a falsy `serviceProviderId` the same participant is sent a new LogoutRequest and the registry is unchanged |
| LogoutProperties.ResponderRemoved | lib/logout.js:478-506 | a response that gets through from a participant with a truthy identity removes exactly that participant |
| LogoutProperties.DispatchKeepsMark | lib/logout.js:55-62 | dispatching never clears a failed mark |
| LogoutProperties.SpInitiatedKeepsMark | lib/logout.js:428 | an SP-initiated request never clears a failed mark |
| LogoutProperties.ContinuationKeepsMark | lib/logout.js:565-593 | a continuation never clears a failed mark |
| LogoutProperties.FailedMarkPersists | lib/logout.js:565-593 | once marked failed, a transaction stays marked until it is destroyed, whatever request comes in |
| LogoutProperties.ErrorResponseCarriesCode | lib/logout.js:774-784 | the error response answers the configured request at the destination with the configured code, Responder by default, and the configured description |
| LogoutProperties.RedirectMessageDecodes | lib/logout.js:748-765 | when the encodings round-trip and the deflated bytes do not start with `<`, decoding the redirect's message parameter the way `parseSamlRequest` does gives back the trimmed message |

## Left out

- Express, the HTTP response object and logging: a reply is a value (`Logout.Reply`). `appendQueryString` is not modelled: a redirect carries its destination and its parameter list.
- Foreign code: zlib, base64, UTF-8, xmldom, xpath, `xtend`, the templates, the signers, `thumbprint` and `querystring`. Each is a function of `Saml.Env`, and the model proves nothing about its insides.
- `lib/constants.js` is not part of this model:
  - the element-to-parameter map is written out in `Saml.Prop`;
  - the XPath expressions are replaced by the fields of `Saml.XmlDoc`;
  - the status and binding URNs are written out as constants;
  - `Utils.CredentialKeys` takes a LogoutResponse to be looked up by its issuer alone.
- A custom `options.signaturePath` is not modelled; the default signature path is assumed.
- `generateUniqueID`, `generateInstant` and `uid(8)` are inputs (`Logout.Draws`), and `clearIdPSession` is a boolean input.
- Concurrency and interleaving of callbacks are not modelled: each request runs to its end before the next, as in the in-memory store.
- The store never reports an error, so the `if (err)` branches after `save`, `load`, `update` and `remove` cannot be taken and are left out. The flowstate store is replaced by this in-memory store.
- Two exceptions that escape asynchronously in the source are modelled as errors handed on:
  - a parse exception inside the INFLATE callback;
  - the `TypeError` from marking a transaction that is gone (`NoGlobalState`).
- The foreign error messages are described, not reproduced: the texts of `Saml.Message` for INFLATE, parsing, signing and DEFLATE failures.
- `req.body` is taken to be an object, and each query or body value a single string.
- An options object whose `signingCert` key is present but undefined is treated as one without the key.
- The in-place DOM: `TrimXml` works on a value tree. The aliasing of a node inside the DOM that the parser and serialiser share is not captured.
- `signXml` is taken to depend only on `options.reference` and the token.
- Logout.IdpInitiatedStep: its contract only names the dispatch it performs; what that dispatch does is stated by `Logout.DispatchStep` and the lemmas about it.
- Utils.ValidateSignature: the handler's flow (`Utils.ParseRequest`, `Logout.ResponseCheck`, and through them every step of `Logout`) uses the intended algorithm test, an own-property lookup of the two supported algorithms. The code as written also lets the names of `Object.prototype` members such as `toString` through to the signer (see "Findings"), so for a Redirect with DEFLATE and such a `SigAlg` the model refuses with InvalidSignatureAlgorithm where the code lets the signer decide.
- MemoryStore.Lookup: `this._memoryStore[key]` on a plain object also finds the members every object inherits from `Object.prototype` (`toString`, `constructor`, `__proto__`, ...), and `delete` of such a key does nothing. The model looks up own keys only. The store keys the handler writes are random, but a `RelayState` of the request is looked up as it comes. As written, `RelayState=toString` gets past the "Invalid RelayState" test at lib/logout.js:522 with a state whose fields are all undefined, then fails with "Invalid Session Participant", or goes on to check the response when some participant has neither a session index nor a NameID. The model refuses it with InvalidRelayState (`MemoryStore.InMemoryStore.Load` likewise).
- LogoutProperties.RedirectMessageDecodes: holds only when the deflated bytes do not start with byte 60 (`<`). Raw DEFLATE output can start with that byte (a non-final block with dynamic Huffman codes), and lib/utils.js:107 would then read the compressed bytes as plain XML. The deflater is foreign code, so the model cannot say how often this happens.
- Saml.Message: carries no contract; it only lists the texts the errors are raised with.

## Findings

| source | as written | input that shows it | evidently intended | confidence | as-written member | corrected member |
|---|---|---|---|---|---|---|
| lib/utils.js:257 | `algorithmSignatures[SigAlg]` is also truthy for a property every object inherits from `Object.prototype` | a Redirect request with DEFLATE, a `Signature` query parameter and `SigAlg=toString` reaches the signer instead of being refused | only the two listed algorithms pass the test (an own-property check) | not executed; the signer's reaction to such an algorithm name is outside the model | Utils.PrototypeAlgorithmReachesSigner | Utils.UnsupportedAlgorithmRejected |
