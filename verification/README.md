# torus-cli daemon trust boundary, modelled in Dafny

This project models three sequential pieces of the torus-cli daemon, the local
process that holds a user's or machine's login and talks to the remote
registry on its behalf:

- **Session store** (`session.dfy`, module `Session`). The daemon keeps a
  single session. It is either logged out (`no_session`) or logged in as a
  `user` or a `machine`, and then holds an identity envelope, an auth
  envelope, a token and a passphrase. `Set` logs in after a fixed sequence of
  checks. `Logout` resets the session. `MasterKey` returns the master-key
  material of the auth body, chosen by session type. Each call is one atomic
  step on an immutable `State`. A transition returns a `Step` that holds the
  next state and the error, if there is one.
- **Registry transport** (`registry.dfy`, module `Registry`). This part covers:
  - how a request's URL and headers are built from the client prefix, path,
    query, token and versions;
  - how a response is sorted into success, a structured registry error, a
    malformed error body, a status-only error, a transport failure or an
    undecodable success body.
- **Credential API** (`credentials.dfy`, module `Credentials`). This part
  covers:
  - decoding one credential response through a closed table keyed by
    envelope version (1 is `BaseCredential`, 2 is `CredentialV2`, anything
    else is refused);
  - the list worker, which decodes every item and fails on the first bad
    one;
  - the query key that `Get` (`path`) and `Search` (`pathexp`) send;
  - `Create`, which always sends a version-2 envelope.

`common.dfy` holds `Option`, `Result` and bytes. `query.dfy` models
`url.Values.Set`, which the code uses to build queries. It also has a reader,
`GetValue`, which is used only to state what a query holds.
`url.Values.Encode` is a parameter.

Collaborators that the modelled code calls but does not define are parameters.
This covers JSON marshalling and unmarshalling, URL query encoding, the
validity check in `http.NewRequest`, the HTTP exchange, and the daemon round
trip in the API client. Each is a total function. A decoder answers `None`
(or `Failure`) where the Go one returns an error.

The model follows the code in two places where the documented design says
something else:

- A non-2xx response whose content length is unknown (-1) and whose body is
  empty is reported as a malformed error body, not as a status-only error.
  This is because the code tests `ContentLength != 0`
  (`Registry.UnknownLengthEmptyBodyIsMalformed`).
- `Create` puts version 2 on the envelope whatever body shape it is given, so
  a base credential goes out as an inconsistent envelope
  (`Credentials.CreateSendsVersion2`).

## Model

| member | source | states |
|---|---|---|
| Session.NewSession | daemon/session/session.go:53-55 | A fresh session is valid and logged out, with type `no_session` and no identity or auth ID. HasToken and HasPassphrase are both false. |
| Session.Type | daemon/session/session.go:57-61 | Type is "no_session" exactly when logged out, "user" exactly when logged in as a user, and "machine" exactly when logged in as a machine. |
| Session.ID | daemon/session/session.go:63-74 | ID is present exactly when there is an identity envelope and that envelope carries an ID, and it is then that ID. On a valid logged-out session it is always missing. |
| Session.AuthID | daemon/session/session.go:76-87 | AuthID is present exactly when there is an auth envelope and that envelope carries an ID, and it is then that ID. On a valid logged-out session it is always missing. |
| Session.Token | daemon/session/session.go:89-95 | On a valid session, the token is non-empty exactly when logged in. |
| Session.Passphrase | daemon/session/session.go:97-103 | On a valid session, the passphrase is non-empty exactly when logged in. |
| Session.HasToken | daemon/session/session.go:105-107 | On a valid session, HasToken holds exactly when the session is logged in. |
| Session.HasPassphrase | daemon/session/session.go:109-111 | On a valid session, HasPassphrase holds exactly when the session is logged in. |
| Session.Set | daemon/session/session.go:125-174 | A failing Set leaves the whole session unchanged. On a logged-in session it always fails with the error whose text is "Cannot overwrite existing session". On a logged-out session with a missing envelope it fails with the nil-envelope error, whose text is "identity and auth cannot be null". Set never returns the Unauthorized error. A successful Set makes Type, Token, Passphrase, identity and auth equal to the supplied values. |
| Session.SetFollowsCheckOrder | daemon/session/session.go:130-165 | Set's error is the error of the first failing check in this order: already logged in, nil envelope, identity shape, auth shape, empty passphrase, empty token. Set succeeds exactly when no check fails. |
| Session.SetSucceedsIff | daemon/session/session.go:130-173 | Set succeeds if and only if all of these hold: the session is logged out, both envelopes are present, the bodies match the session type (user needs User/User, machine needs Machine/MachineToken), and passphrase and token are non-empty. |
| Session.SetPreservesValid | daemon/session/session.go:159-173 | Set keeps the session invariant: logged in exactly when both secrets are non-empty and both envelopes are present with the shapes the type requires. |
| Session.Logout | daemon/session/session.go:199-214 | Logout fails exactly when the session is logged out. It then returns the Unauthorized "Please login to perform that command" error and changes nothing. Otherwise it returns the session to its initial state. |
| Session.LogoutPreservesValid | daemon/session/session.go:208-213 | Logout keeps the session invariant. |
| Session.LoggedInIffSecrets | daemon/session/session.go:105-111 | On a valid session, these all coincide: being logged in, HasToken, HasPassphrase, and having both an identity envelope and an auth envelope. |
| Session.SecondSetFails | daemon/session/session.go:130-132 | After a successful Set, every further Set fails with AlreadyLoggedIn. |
| Session.LogoutAfterSetRestores | daemon/session/session.go:200-214 | After a successful Set, Logout succeeds and clears both secrets. The same Set is then allowed again. |
| Session.IDsAfterSetAndLogout | daemon/session/session.go:63-87 | After a successful Set, ID and AuthID report the IDs carried by the supplied identity and auth envelopes. After the Logout that follows, both are missing again. |
| Session.MasterKey | daemon/session/session.go:184-197 | MasterKey fails with the Unauthorized not-logged-in error exactly when the session is logged out. Otherwise it returns the master value of the auth body, which is a User or a MachineToken. |
| Session.MasterKeyAfterSet | daemon/session/session.go:192-196 | After logging in as a user, MasterKey returns the User auth body's master. After logging in as a machine, it returns the MachineToken body's master. |
| Session.DescribeHidesSecrets | daemon/session/session.go:114-120 | The printable form (`Describe`, the session's String()) depends only on the type and on whether each secret is present. It never depends on the token or passphrase text. |
| Session.RunPreservesValid | daemon/session/session.go:125-214 | Every session reached from a valid one by any sequence of Set and Logout calls is valid. |
| Session.NoOverwriteWithoutLogout | daemon/session/session.go:130-132 | A logged-in session is unchanged by any sequence of Set calls that contains no Logout. |
| Registry.NewTokenRequest | daemon/registry/client.go:86-118 | The request fails with an encoding error when the body does not encode. It succeeds exactly when the body encodes and the method and URL are accepted. The method is kept as given, except that an empty method becomes GET, as http.NewRequest does. The URL is prefix + path + "?" + the encoded query, with a nil query encoded as empty. The header keys are Host, User-Agent, Content-Type and X-Registry-Version, plus Authorization exactly when the token is non-empty. The Bearer token read back from the header is the token. Host is the prefix, User-Agent is "Ag-Daemon/" + version, Content-Type is application/json, and X-Registry-Version is the API version. |
| Registry.NewRequest | daemon/registry/client.go:77-80 | The request carries the session's token: Authorization is present exactly when the session has a token, and the Bearer value read back is that token. |
| Registry.NilQueryIsEmpty | daemon/registry/client.go:98-102 | A nil query and an empty query build the same request. |
| Registry.CheckResponseCode | daemon/registry/client.go:149-166 | This is the corrected check from the finding below. There is no error exactly when 200 <= status < 300. For a non-2xx response: a content length of 0 gives the status-only error; a non-zero length with an undecodable body gives the malformed error; a non-zero length with a decodable body gives a registry Error whose StatusCode is the response status. |
| Registry.DecodedErrorExposed | daemon/registry/client.go:15-25 | The registry error decoded from a non-2xx body carries the body's type and messages. Its error text (`ErrorText`, the Error() method, reached through `ClientErrorText`) is its type. |
| Registry.UnknownLengthEmptyBodyIsMalformed | daemon/registry/client.go:155-160 | A non-2xx response of unknown length (-1) with an empty body gives the malformed-error-body error. |
| Registry.InvalidRequestExample | daemon/registry/client.go:154-162 | A 400 response with body {"type":"invalid_request","error":["bad path"]} becomes a registry error with that type, that message list and status 400. |
| Registry.CheckResponseCodeAsWritten | daemon/registry/client.go:149-166 | As written: no error exactly on 2xx. For a non-2xx response: a content length of 0 gives the status-only error; a non-zero length with an undecodable body gives the malformed error; a non-zero length with a decodable body gives a registry Error. That Error's type and messages are the body's (empty when absent). Its StatusCode is the status the body names, if any, and otherwise the response status. |
| Registry.AsWrittenStatusOverwritten | daemon/registry/client.go:154-162 | As written, a 500 response whose error body names status 200 yields an Error with StatusCode 200. The corrected check yields 500. |
| Registry.AsWrittenDiffersOnlyInStatus | daemon/registry/client.go:154-162 | On every response, the as-written and corrected checks both report an error or both report none, of the same class. Every error other than a registry error is identical. Two registry errors have the same type and messages, so they can differ only in StatusCode. |
| Registry.AsWrittenAgreesWithoutStatusKey | daemon/registry/client.go:154-162 | The as-written and corrected checks agree on every response whose error body does not name a status code. |
| Registry.Do | daemon/registry/client.go:125-147 | Do is modelled as written. A transport failure gives no response and the transport error. A non-2xx status gives the response together with the as-written response check's error. A 2xx whose body fails to decode into a requested target gives no response and the decoder's error. Otherwise Do succeeds and returns the response, plus the decoded value exactly when a target was requested. |
| Registry.DoCorrected | daemon/registry/client.go:133-135 | This is Do with the corrected check. It has the same transport, 2xx and decode outcomes as Do. On a non-2xx status it returns the corrected check's error, and a registry error always carries the HTTP status of the response. |
| Registry.DoDiffersOnlyInStatus | daemon/registry/client.go:125-147 | On every exchange, Do and DoCorrected return the same response and the same decoded value. Both report an error or both report none, of the same class. The errors are identical except that two registry errors may differ in StatusCode; their type and messages are equal. |
| Registry.DoAgreesWithoutStatusKey | daemon/registry/client.go:125-147 | Do and DoCorrected give the same result on every exchange whose error body names no status code. |
| Query.SetValue | api/credentials.go:20-21 | After setting a key, that key holds exactly the one given value. Every other key is unchanged, and the keys are the old keys plus this one. |
| Credentials.CreateEnvelopeFromResp | api/credentials.go:79-109 | Any version other than 1 and 2 fails with UnknownVersion. For a known version, the result succeeds exactly when that version's unmarshaller accepts the body; otherwise the unmarshal failure is returned. On success the envelope keeps the response's ID and Version, and its body has the shape its version names and is the unmarshalled value. |
| Credentials.DecodeRoundTrip | api/credentials.go:82-107 | If each version's unmarshaller inverts its marshaller, every envelope whose version matches its shape decodes back to itself from its wire form. |
| Credentials.InconsistentNeverRoundTrips | api/credentials.go:82-101 | An envelope whose version does not match its body's shape never decodes back to itself. Decoding never falls back to another shape. |
| Credentials.DecodeAll | api/credentials.go:47-56 | The list decode succeeds exactly when every item decodes. It then has one envelope per item, in order, each the item's own decoding. Otherwise it fails with the error of the first item that fails. |
| Credentials.ListWorker | api/credentials.go:34-57 | A failure of the GET /credentials request is returned as is. Otherwise the loop's result equals the list decode of the returned items. |
| Credentials.Search | api/credentials.go:18-24 | Search is the list call on the query that sets `pathexp` to its argument. |
| Credentials.Get | api/credentials.go:26-32 | Get is the list call on the query that sets `path` to its argument. |
| Credentials.ListQueries | api/credentials.go:19-35 | Both calls issue GET /credentials with no body. Get's query has exactly the key `path` and Search's exactly the key `pathexp`, each holding the argument, so the two queries differ. |
| Credentials.Create | api/credentials.go:59-77 | A request failure is returned as is. Otherwise the daemon's answer is decoded like a listed item, so a successful result is a consistent envelope. |
| Credentials.CreateSendsVersion2 | api/credentials.go:63 | The envelope Create sends always has version 2 and carries the given body unchanged. It is consistent exactly when that body is a CredentialV2. |
| Credentials.CreateEchoRoundTrip | api/credentials.go:59-77 | Suppose the daemon echoes the version-2 envelope back with an ID, and the version-2 codec round-trips. Then Create returns exactly that envelope. |

## Left out

- Locking in `session.go` is not modelled. Every operation is one atomic step, and the unlocked reads in `Type`, `HasToken` and `HasPassphrase` are not distinguished.
- The panic on an unrecognised session type cannot happen in the model: the type given to `Set` is the closed enum `Kind` (user or machine).
- Session.MasterKey: requires the session invariant `Valid`. The Go code would panic on a failed type assertion, but only in a state that `Set` never produces (`Session.RunPreservesValid`).
- `NewClient` and the sub-client wiring are left out. The client is modelled only as its prefix, API version and version.
- JSON encoding and decoding, `url.Values.Encode`, and the validity check in `http.NewRequest` are abstract functions. Their internals are not modelled.
- Header names are stored canonically, as `Header.Set` does (`Content-type` becomes `Content-Type`). How Go's transport treats a `Host` header set this way is not modelled.
- The text of transport errors and JSON decoder errors is an abstract string.
- The text of the daemon's Unauthorized error is `apitypes.Error`'s, which is not part of this model. `Session.Message` gives text only for the session's own errors, and the Unauthorized error is kept as its list of messages.
- Closing the response body is not modelled.
- `DoWithProgress`, the progress callback of `Create`, context cancellation and `apiRoundTripper`/`NewDaemonRequest` are left out because their code is not part of this model. The daemon round trip is a function parameter: either a request failure or the decoded responses.
- The keyring engine, claim chain, encryption and key wrapping are left out: their code is not part of this model.
- The CLI code generator and tests, the daemon's config and route table, and Windows root-path resolution are left out. They are I/O or command wiring.

## Findings

| source | as written | input that shows it | evidently intended | confidence | as-written member | corrected member |
|---|---|---|---|---|---|---|
| daemon/registry/client.go:154-162 | The error record is seeded with the HTTP status, and then the JSON body is decoded into it. `StatusCode` has no JSON tag, so Go's decoder fills it from a body key that matches `StatusCode` case-insensitively, which replaces the HTTP status. | A 500 response with body `{"type":"internal","error":[],"statusCode":200}` gives an Error with StatusCode 200. | StatusCode is always the HTTP response status. | not executed; medium (relies on encoding/json matching untagged exported fields by name) | Registry.CheckResponseCodeAsWritten | Registry.CheckResponseCode |

`Registry.Do` uses the as-written check, as the code does. `Registry.DoCorrected` uses the corrected one. `Registry.DoDiffersOnlyInStatus` proves that the two differ at most in the StatusCode of a registry error.
