/**
  The daemon's client for the registry's REST API: how a request's URL and
  headers are built, and how a response is sorted into success, a structured
  registry error, a malformed error body, or a status-only error.

  JSON encoding and decoding, URL query encoding, request-line validation and
  the HTTP exchange itself are collaborators passed in as functions: each is
  total, and a decoder answers None where the real one returns an error.
 */
module Registry {
  import opened Common
  import opened Query
  import Session

  /** The read-only configuration of a client. */
  datatype Client = Client(prefix: string, apiVersion: string, version: string)

  type Header = map<string, string>

  /** Header names as Go's Header.Set stores them (canonical form). */
  const AuthorizationKey := "Authorization"
  const HostKey := "Host"
  const UserAgentKey := "User-Agent"
  const ContentTypeKey := "Content-Type"
  const RegistryVersionKey := "X-Registry-Version"

  const BearerPrefix := "Bearer "
  const UserAgentPrefix := "Ag-Daemon/"
  const JsonContentType := "application/json"

  datatype Request = Request(verb: string, url: string, header: Header, body: Bytes)

  datatype RequestError =
    | BodyEncodingFailed   // the JSON encoder refused the body
    | RequestRejected      // http.NewRequest refused the method or URL

  /** The header keys every request carries, whatever the token. */
  function FixedKeys(): set<string> {
    {HostKey, UserAgentKey, ContentTypeKey, RegistryVersionKey}
  }

  /** How the registry reads the caller's token back out of a header: the text
      after "Bearer " in Authorization, or "" when there is none. */
  function BearerToken(h: Header): string {
    if AuthorizationKey in h && |BearerPrefix| <= |h[AuthorizationKey]|
       && h[AuthorizationKey][..|BearerPrefix|] == BearerPrefix
    then h[AuthorizationKey][|BearerPrefix|..]
    else ""
  }

  function Headers(c: Client, token: string): Header {
    var fixed := map[HostKey := c.prefix,
                     UserAgentKey := UserAgentPrefix + c.version,
                     ContentTypeKey := JsonContentType,
                     RegistryVersionKey := c.apiVersion];
    if token != "" then fixed[AuthorizationKey := BearerPrefix + token] else fixed
  }

  /** Builds the request for `verb` on `path`, authorised with `token`.
      The body, when given, is JSON-encoded first; a nil query is encoded as
      an empty one. */
  function NewTokenRequest<B>(c: Client, token: string, verb: string, path: string,
                              query: Option<Values>, body: Option<B>,
                              encodeBody: B -> Option<Bytes>, encodeQuery: Values -> string,
                              accepts: (string, string) -> bool): (r: Result<Request, RequestError>)
    ensures body.Some? && encodeBody(body.value).None? ==> r == Failure(BodyEncodingFailed)
    ensures r.Success? <==>
              (body.None? || encodeBody(body.value).Some?)
              && accepts(verb, c.prefix + path + "?" + encodeQuery(ValueOr(query, map[])))
    ensures r.Success? ==>
              && r.value.verb == (if verb == "" then "GET" else verb)
              && r.value.url == c.prefix + path + "?" + encodeQuery(ValueOr(query, map[]))
              && r.value.body == (if body.Some? then encodeBody(body.value).value else [])
    ensures r.Success? ==>
              var h := r.value.header;
              && h.Keys == FixedKeys() + (if token != "" then {AuthorizationKey} else {})
              && (AuthorizationKey in h <==> token != "")
              && BearerToken(h) == token
              && h[HostKey] == c.prefix
              && h[UserAgentKey] == UserAgentPrefix + c.version
              && h[ContentTypeKey] == JsonContentType
              && h[RegistryVersionKey] == c.apiVersion
  {
    var encoded := if body.Some? then encodeBody(body.value) else Some([]);
    if encoded.None? then Failure(BodyEncodingFailed)
    else
      var q := if query.None? then map[] else query.value;
      var fullPath := c.prefix + path + "?" + encodeQuery(q);
      if !accepts(verb, fullPath) then Failure(RequestRejected)
      else
        var h := Headers(c, token);
        assert token != "" ==> h[AuthorizationKey][..|BearerPrefix|] == BearerPrefix;
        Success(Request(if verb == "" then "GET" else verb, fullPath, h, encoded.value))
  }

  /** Builds a request authorised with whatever token the session holds. */
  function NewRequest<B>(c: Client, sess: Session.State, verb: string, path: string,
                         query: Option<Values>, body: Option<B>,
                         encodeBody: B -> Option<Bytes>, encodeQuery: Values -> string,
                         accepts: (string, string) -> bool): (r: Result<Request, RequestError>)
    ensures r.Success? ==> BearerToken(r.value.header) == Session.Token(sess)
    ensures r.Success? ==> (AuthorizationKey in r.value.header <==> Session.HasToken(sess))
    ensures r.Success? <==>
              (body.None? || encodeBody(body.value).Some?)
              && accepts(verb, c.prefix + path + "?" + encodeQuery(ValueOr(query, map[])))
  {
    NewTokenRequest(c, Session.Token(sess), verb, path, query, body, encodeBody, encodeQuery, accepts)
  }

  /** A nil query and an empty one build the same request. */
  lemma NilQueryIsEmpty<B>(c: Client, token: string, verb: string, path: string, body: Option<B>,
                           encodeBody: B -> Option<Bytes>, encodeQuery: Values -> string,
                           accepts: (string, string) -> bool)
    ensures NewTokenRequest(c, token, verb, path, None, body, encodeBody, encodeQuery, accepts)
         == NewTokenRequest(c, token, verb, path, Some(map[]), body, encodeBody, encodeQuery, accepts)
  {
  }

  // ---------------------------------------------------------------- responses

  /** What the client sees of an HTTP response. A content length of -1 means
      the length is unknown. */
  datatype Response = Response(statusCode: int, contentLength: int, body: Bytes)

  /** The fields a JSON error body sets; an absent key leaves a field as it was. */
  datatype ErrorFields = ErrorFields(statusCode: Option<int>, typ: Option<string>, messages: Option<seq<string>>)

  /** A structured error from the registry. */
  datatype Error = Error(statusCode: int, typ: string, messages: seq<string>)

  datatype ClientError =
    | Transport(cause: string)
    | RegistryError(err: Error)
    | MalformedErrorResponse
    | StatusOnly
    | UndecodableBody(cause: string)

  const MalformedMessage := "Malformed error response from registry"
  const StatusOnlyMessage := "Error from registry. Check status code"

  /** A registry error reads as its type. */
  function ErrorText(e: Error): string {
    e.typ
  }

  function ClientErrorText(f: ClientError): string {
    match f
    case Transport(cause) => cause
    case RegistryError(e) => ErrorText(e)
    case MalformedErrorResponse => MalformedMessage
    case StatusOnly => StatusOnlyMessage
    case UndecodableBody(cause) => cause
  }

  predicate IsSuccessStatus(code: int) {
    200 <= code < 300
  }

  /** Decoding JSON into an existing record: every field the body names is
      overwritten, the others keep their value. */
  function DecodeInto(base: Error, f: ErrorFields): Error {
    Error(ValueOr(f.statusCode, base.statusCode), ValueOr(f.typ, base.typ), ValueOr(f.messages, base.messages))
  }

  /** The response check as the code is written: the error record is seeded
      with the HTTP status and the body is decoded over it, so a body that
      names a status code replaces the HTTP one. */
  function CheckResponseCodeAsWritten(r: Response, decodeError: Bytes -> Option<ErrorFields>): (f: Option<ClientError>)
    ensures f.None? <==> IsSuccessStatus(r.statusCode)
    ensures f.Some? ==> (f.value.RegistryError? || f.value.MalformedErrorResponse? || f.value.StatusOnly?)
    ensures f.Some? && f.value.RegistryError? <==>
              !IsSuccessStatus(r.statusCode) && r.contentLength != 0 && decodeError(r.body).Some?
    ensures f.Some? && f.value.RegistryError? ==>
              && f.value.err.statusCode == ValueOr(decodeError(r.body).value.statusCode, r.statusCode)
              && f.value.err.typ == ValueOr(decodeError(r.body).value.typ, "")
              && f.value.err.messages == ValueOr(decodeError(r.body).value.messages, [])
    ensures f.Some? && f.value.StatusOnly? <==> !IsSuccessStatus(r.statusCode) && r.contentLength == 0
    ensures f.Some? && f.value.MalformedErrorResponse? <==>
              !IsSuccessStatus(r.statusCode) && r.contentLength != 0 && decodeError(r.body).None?
  {
    if IsSuccessStatus(r.statusCode) then None
    else if r.contentLength != 0 then
      match decodeError(r.body)
      case None => Some(MalformedErrorResponse)
      case Some(fields) => Some(RegistryError(DecodeInto(Error(r.statusCode, "", []), fields)))
    else Some(StatusOnly)
  }

  /** The response check with the status taken from the HTTP response only. */
  function CheckResponseCode(r: Response, decodeError: Bytes -> Option<ErrorFields>): (f: Option<ClientError>)
    ensures f.None? <==> IsSuccessStatus(r.statusCode)
    ensures f.Some? ==> (f.value.RegistryError? || f.value.MalformedErrorResponse? || f.value.StatusOnly?)
    ensures f.Some? && f.value.RegistryError? ==>
              && r.contentLength != 0
              && decodeError(r.body).Some?
              && f.value.err.statusCode == r.statusCode
    ensures f.Some? && f.value.StatusOnly? <==> !IsSuccessStatus(r.statusCode) && r.contentLength == 0
    ensures f.Some? && f.value.MalformedErrorResponse? <==>
              !IsSuccessStatus(r.statusCode) && r.contentLength != 0 && decodeError(r.body).None?
  {
    if IsSuccessStatus(r.statusCode) then None
    else if r.contentLength != 0 then
      match decodeError(r.body)
      case None => Some(MalformedErrorResponse)
      case Some(fields) => Some(RegistryError(Error(r.statusCode, ValueOr(fields.typ, ""), ValueOr(fields.messages, []))))
    else Some(StatusOnly)
  }

  /** A decodable error body's type and messages reach the caller, and the
      error reads as its type. */
  lemma DecodedErrorExposed(r: Response, decodeError: Bytes -> Option<ErrorFields>)
    requires !IsSuccessStatus(r.statusCode) && r.contentLength != 0
    requires decodeError(r.body).Some?
    ensures CheckResponseCode(r, decodeError).Some?
    ensures CheckResponseCode(r, decodeError).value.RegistryError?
    ensures ClientErrorText(CheckResponseCode(r, decodeError).value) == ValueOr(decodeError(r.body).value.typ, "")
    ensures CheckResponseCode(r, decodeError).value.err.messages == ValueOr(decodeError(r.body).value.messages, [])
  {
  }

  /** A response of unknown length with an empty body is not treated as
      empty: the decoder is run, fails on the empty input, and the result is
      the malformed-body error rather than the status-only one. */
  lemma UnknownLengthEmptyBodyIsMalformed(status: int, decodeError: Bytes -> Option<ErrorFields>)
    requires !IsSuccessStatus(status)
    requires decodeError([]).None?
    ensures CheckResponseCode(Response(status, -1, []), decodeError) == Some(MalformedErrorResponse)
  {
  }

  /** The body {"type":"invalid_request","error":["bad path"]} on a 400
      response becomes a registry error of that type and message list. */
  lemma InvalidRequestExample(body: Bytes, decodeError: Bytes -> Option<ErrorFields>)
    requires |body| > 0
    requires decodeError(body) == Some(ErrorFields(None, Some("invalid_request"), Some(["bad path"])))
    ensures CheckResponseCode(Response(400, |body|, body), decodeError)
         == Some(RegistryError(Error(400, "invalid_request", ["bad path"])))
    ensures ClientErrorText(CheckResponseCode(Response(400, |body|, body), decodeError).value) == "invalid_request"
  {
  }

  /** The code as written lets an error body's "StatusCode" key replace the
      HTTP status: a 500 response whose body names 200 reports status 200. */
  lemma AsWrittenStatusOverwritten(body: Bytes, decodeError: Bytes -> Option<ErrorFields>)
    requires |body| > 0
    requires decodeError(body) == Some(ErrorFields(Some(200), Some("internal"), Some([])))
    ensures CheckResponseCodeAsWritten(Response(500, |body|, body), decodeError)
         == Some(RegistryError(Error(200, "internal", [])))
    ensures CheckResponseCode(Response(500, |body|, body), decodeError)
         == Some(RegistryError(Error(500, "internal", [])))
  {
  }

  /** The two versions agree whenever the error body does not name a status. */
  lemma AsWrittenAgreesWithoutStatusKey(r: Response, decodeError: Bytes -> Option<ErrorFields>)
    requires r.contentLength != 0 ==> decodeError(r.body).None? || decodeError(r.body).value.statusCode.None?
    ensures CheckResponseCodeAsWritten(r, decodeError) == CheckResponseCode(r, decodeError)
  {
  }

  /** On every response the two versions report the same class of outcome,
      and the same error except for the status of a registry error. */
  lemma AsWrittenDiffersOnlyInStatus(r: Response, decodeError: Bytes -> Option<ErrorFields>)
    ensures CheckResponseCodeAsWritten(r, decodeError).Some? <==> CheckResponseCode(r, decodeError).Some?
    ensures CheckResponseCodeAsWritten(r, decodeError).Some? ==>
              var w, c := CheckResponseCodeAsWritten(r, decodeError).value, CheckResponseCode(r, decodeError).value;
              && (w.RegistryError? <==> c.RegistryError?)
              && (!w.RegistryError? ==> w == c)
              && (w.RegistryError? ==> w.err.typ == c.err.typ && w.err.messages == c.err.messages)
  {
  }

  // --------------------------------------------------------------------- Do

  /** The result of handing a request to the HTTP transport. */
  datatype Exchange = TransportFailed(cause: string) | Received(resp: Response)

  /** What Do hands back: the response (or nil), the decoded target when one
      was asked for, and the error (or nil). */
  datatype DoResult<T> = DoResult(resp: Option<Response>, value: Option<T>, err: Option<ClientError>)

  /** Runs an exchange, sorting a received response with `check`. */
  function DoWith<T>(ex: Exchange, wantBody: bool, check: Response -> Option<ClientError>,
                     decodeBody: Bytes -> Result<T, string>): DoResult<T>
  {
    match ex
    case TransportFailed(cause) => DoResult(None, None, Some(Transport(cause)))
    case Received(resp) =>
      var checked := check(resp);
      if checked.Some? then DoResult(Some(resp), None, checked)
      else if wantBody then
        match decodeBody(resp.body)
        case Failure(cause) => DoResult(None, None, Some(UndecodableBody(cause)))
        case Success(v) => DoResult(Some(resp), Some(v), None)
      else DoResult(Some(resp), None, None)
  }

  /** Runs an exchange as the code is written: a transport failure returns no
      response; a non-2xx status returns the response with the as-written
      check's error; a 2xx whose body does not decode into the requested
      target returns no response. */
  function Do<T>(ex: Exchange, wantBody: bool, decodeError: Bytes -> Option<ErrorFields>,
                 decodeBody: Bytes -> Result<T, string>): (r: DoResult<T>)
    ensures ex.TransportFailed? ==> r == DoResult(None, None, Some(Transport(ex.cause)))
    ensures ex.Received? && !IsSuccessStatus(ex.resp.statusCode) ==>
              && r.resp == Some(ex.resp)
              && r.err == CheckResponseCodeAsWritten(ex.resp, decodeError)
              && r.value.None?
    ensures r.err.None? <==>
              ex.Received? && IsSuccessStatus(ex.resp.statusCode)
              && (!wantBody || decodeBody(ex.resp.body).Success?)
    ensures r.resp.None? <==>
              ex.TransportFailed?
              || (IsSuccessStatus(ex.resp.statusCode) && wantBody && decodeBody(ex.resp.body).Failure?)
    ensures r.resp.Some? ==> ex.Received? && r.resp.value == ex.resp
    ensures r.value.Some? <==> r.err.None? && wantBody
    ensures r.value.Some? ==> decodeBody(ex.resp.body) == Success(r.value.value)
    ensures r.err.Some? && r.err.value.UndecodableBody? ==>
              decodeBody(ex.resp.body) == Failure(r.err.value.cause)
  {
    DoWith(ex, wantBody, resp => CheckResponseCodeAsWritten(resp, decodeError), decodeBody)
  }

  /** Do with the corrected response check: identical except that a registry
      error keeps the HTTP status. */
  function DoCorrected<T>(ex: Exchange, wantBody: bool, decodeError: Bytes -> Option<ErrorFields>,
                          decodeBody: Bytes -> Result<T, string>): (r: DoResult<T>)
    ensures ex.TransportFailed? ==> r == DoResult(None, None, Some(Transport(ex.cause)))
    ensures ex.Received? && !IsSuccessStatus(ex.resp.statusCode) ==>
              && r.resp == Some(ex.resp)
              && r.err == CheckResponseCode(ex.resp, decodeError)
              && r.value.None?
    ensures r.err.Some? && r.err.value.RegistryError? ==> ex.Received? && r.err.value.err.statusCode == ex.resp.statusCode
    ensures r.err.None? <==>
              ex.Received? && IsSuccessStatus(ex.resp.statusCode)
              && (!wantBody || decodeBody(ex.resp.body).Success?)
    ensures r.resp.None? <==>
              ex.TransportFailed?
              || (IsSuccessStatus(ex.resp.statusCode) && wantBody && decodeBody(ex.resp.body).Failure?)
    ensures r.resp.Some? ==> ex.Received? && r.resp.value == ex.resp
    ensures r.value.Some? <==> r.err.None? && wantBody
    ensures r.value.Some? ==> decodeBody(ex.resp.body) == Success(r.value.value)
    ensures r.err.Some? && r.err.value.UndecodableBody? ==>
              decodeBody(ex.resp.body) == Failure(r.err.value.cause)
  {
    DoWith(ex, wantBody, resp => CheckResponseCode(resp, decodeError), decodeBody)
  }

  /** On every exchange the two versions of Do return the same response, value
      and class of error; they differ at most in the status a registry error
      carries. */
  lemma DoDiffersOnlyInStatus<T>(ex: Exchange, wantBody: bool, decodeError: Bytes -> Option<ErrorFields>,
                                 decodeBody: Bytes -> Result<T, string>)
    ensures Do(ex, wantBody, decodeError, decodeBody).resp == DoCorrected(ex, wantBody, decodeError, decodeBody).resp
    ensures Do(ex, wantBody, decodeError, decodeBody).value == DoCorrected(ex, wantBody, decodeError, decodeBody).value
    ensures Do(ex, wantBody, decodeError, decodeBody).err.Some? <==> DoCorrected(ex, wantBody, decodeError, decodeBody).err.Some?
    ensures Do(ex, wantBody, decodeError, decodeBody).err.Some? ==>
              var w, c := Do(ex, wantBody, decodeError, decodeBody).err.value,
                          DoCorrected(ex, wantBody, decodeError, decodeBody).err.value;
              && (w.RegistryError? <==> c.RegistryError?)
              && (!w.RegistryError? ==> w == c)
              && (w.RegistryError? ==> w.err.typ == c.err.typ && w.err.messages == c.err.messages)
  {
  }

  /** The two versions of Do agree on every exchange whose error body, if any,
      names no status code. */
  lemma DoAgreesWithoutStatusKey<T>(ex: Exchange, wantBody: bool, decodeError: Bytes -> Option<ErrorFields>,
                                    decodeBody: Bytes -> Result<T, string>)
    requires ex.Received? && ex.resp.contentLength != 0 && decodeError(ex.resp.body).Some? ==>
               decodeError(ex.resp.body).value.statusCode.None?
    ensures Do(ex, wantBody, decodeError, decodeBody) == DoCorrected(ex, wantBody, decodeError, decodeBody)
  {
  }
}
