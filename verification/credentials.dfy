/**
  The daemon API's credential calls: decoding a credential response through a
  closed table keyed by envelope version, decoding a whole list with the first
  failure aborting it, choosing the query key for Get and Search, and wrapping
  a new credential for Create.

  The two credential shapes are type parameters: V1 is the version-1 body
  (BaseCredential) and V2 the version-2 body (CredentialV2). JSON unmarshalling
  per version and the round trip to the daemon are passed in as functions.
 */
module Credentials {
  import opened Common
  import opened Query

  type CredentialID = Bytes

  /** A credential as the daemon returns it: id and version decoded, body
      still raw JSON. */
  datatype CredentialResp = CredentialResp(id: Option<CredentialID>, version: int, body: Bytes)

  /** A decoded credential body, one variant per known version. */
  datatype Credential<V1, V2> = BaseCredential(base: V1) | CredentialV2(v2: V2)

  datatype Envelope<V1, V2> = Envelope(id: Option<CredentialID>, version: int, body: Credential<V1, V2>)

  /** The JSON unmarshaller of each known version; None is a decoding error. */
  datatype Codec<V1, V2> = Codec(v1: Bytes -> Option<V1>, v2: Bytes -> Option<V2>)

  /** The JSON marshaller of each known version. */
  datatype Marshal<!V1, !V2> = Marshal(v1: V1 -> Bytes, v2: V2 -> Bytes)

  datatype Error =
    | RequestFailed(cause: string)   // building or running the daemon request failed
    | UnknownVersion                 // "Unknown credential version"
    | UnmarshalFailed(version: int)

  const CredentialsPath := "/credentials"
  const PathKey := "path"
  const PathExpKey := "pathexp"

  /** A request to the daemon: verb, path, optional query, optional body. */
  datatype DaemonRequest<V1, V2> =
    DaemonRequest(verb: string, path: string, query: Option<Values>, body: Option<Envelope<V1, V2>>)

  function KnownVersions(): set<int> {
    {1, 2}
  }

  /** An envelope whose version is the one its body's shape belongs to. */
  predicate Consistent<V1, V2>(e: Envelope<V1, V2>) {
    (e.version == 1 && e.body.BaseCredential?) || (e.version == 2 && e.body.CredentialV2?)
  }

  // ------------------------------------------------------------- one item

  /** Decodes one response: version 1 as a BaseCredential, version 2 as a
      CredentialV2, any other version refused. */
  function CreateEnvelopeFromResp<V1, V2>(c: CredentialResp, codec: Codec<V1, V2>): (r: Result<Envelope<V1, V2>, Error>)
    ensures c.version !in KnownVersions() ==> r == Failure(UnknownVersion)
    ensures c.version in KnownVersions() && r.Failure? ==> r.error == UnmarshalFailed(c.version)
    ensures c.version == 1 ==> (r.Success? <==> codec.v1(c.body).Some?)
    ensures c.version == 2 ==> (r.Success? <==> codec.v2(c.body).Some?)
    ensures r.Success? ==> r.value.id == c.id && r.value.version == c.version && Consistent(r.value)
    ensures r.Success? && r.value.body.BaseCredential? ==> codec.v1(c.body) == Some(r.value.body.base)
    ensures r.Success? && r.value.body.CredentialV2? ==> codec.v2(c.body) == Some(r.value.body.v2)
  {
    if c.version == 1 then
      match codec.v1(c.body)
      case None => Failure(UnmarshalFailed(1))
      case Some(b) => Success(Envelope(c.id, c.version, BaseCredential(b)))
    else if c.version == 2 then
      match codec.v2(c.body)
      case None => Failure(UnmarshalFailed(2))
      case Some(b) => Success(Envelope(c.id, c.version, CredentialV2(b)))
    else Failure(UnknownVersion)
  }

  /** The wire form of an envelope: its body marshalled by its own shape. */
  function ToResp<V1, V2>(e: Envelope<V1, V2>, m: Marshal<V1, V2>): CredentialResp {
    match e.body
    case BaseCredential(b) => CredentialResp(e.id, e.version, m.v1(b))
    case CredentialV2(b) => CredentialResp(e.id, e.version, m.v2(b))
  }

  /** Every consistent envelope survives marshalling and decoding, provided
      each version's unmarshaller inverts its marshaller. */
  lemma DecodeRoundTrip<V1, V2>(e: Envelope<V1, V2>, m: Marshal<V1, V2>, codec: Codec<V1, V2>)
    requires Consistent(e)
    requires forall b :: codec.v1(m.v1(b)) == Some(b)
    requires forall b :: codec.v2(m.v2(b)) == Some(b)
    ensures CreateEnvelopeFromResp(ToResp(e, m), codec) == Success(e)
  {
  }

  /** An envelope whose version does not match its shape never round-trips:
      decoding never guesses a shape other than the one its version names. */
  lemma InconsistentNeverRoundTrips<V1, V2>(e: Envelope<V1, V2>, m: Marshal<V1, V2>, codec: Codec<V1, V2>)
    requires !Consistent(e)
    ensures CreateEnvelopeFromResp(ToResp(e, m), codec) != Success(e)
  {
  }

  // ------------------------------------------------------------ many items

  /** Decodes every item in order; the first item that fails fails the whole. */
  function DecodeAll<V1, V2>(items: seq<CredentialResp>, codec: Codec<V1, V2>): (r: Result<seq<Envelope<V1, V2>>, Error>)
    ensures r.Success? <==> forall i :: 0 <= i < |items| ==> CreateEnvelopeFromResp(items[i], codec).Success?
    ensures r.Success? ==> |r.value| == |items|
    ensures r.Success? ==> forall i :: 0 <= i < |items| ==> CreateEnvelopeFromResp(items[i], codec) == Success(r.value[i])
    ensures r.Failure? ==>
              exists i :: 0 <= i < |items| && CreateEnvelopeFromResp(items[i], codec) == Failure(r.error)
                          && forall j :: 0 <= j < i ==> CreateEnvelopeFromResp(items[j], codec).Success?
    decreases |items|
  {
    if |items| == 0 then Success([])
    else
      assert forall i :: 1 <= i < |items| ==> items[1..][i - 1] == items[i];
      match CreateEnvelopeFromResp(items[0], codec)
      case Failure(e) => Failure(e)
      case Success(v) =>
        var rest := DecodeAll(items[1..], codec);
        match rest
        case Failure(e) =>
          ghost var k :| 0 <= k < |items[1..]| && CreateEnvelopeFromResp(items[1..][k], codec) == Failure(e)
                         && forall j :: 0 <= j < k ==> CreateEnvelopeFromResp(items[1..][j], codec).Success?;
          assert CreateEnvelopeFromResp(items[k + 1], codec) == Failure(e);
          Failure(e)
        case Success(vs) =>
          assert forall i :: 1 <= i < |items| ==> ([v] + vs)[i] == vs[i - 1];
          Success([v] + vs)
  }

  /** Prepends already-decoded envelopes to a list result. */
  function Prefixed<V1, V2>(done: seq<Envelope<V1, V2>>, r: Result<seq<Envelope<V1, V2>>, Error>): Result<seq<Envelope<V1, V2>>, Error> {
    match r
    case Success(vs) => Success(done + vs)
    case Failure(e) => Failure(e)
  }

  /** What a list call yields: the request's own failure, or the decoded items. */
  function ListOutcome<V1, V2>(fetched: Result<seq<CredentialResp>, Error>, codec: Codec<V1, V2>): Result<seq<Envelope<V1, V2>>, Error> {
    match fetched
    case Failure(e) => Failure(e)
    case Success(items) => DecodeAll(items, codec)
  }

  function ListRequest<V1, V2>(v: Values): DaemonRequest<V1, V2> {
    DaemonRequest("GET", CredentialsPath, Some(v), None)
  }

  /** Issues GET /credentials with query `v` and decodes the returned items
      one by one, stopping at the first that fails. */
  method ListWorker<V1, V2>(v: Values, roundTrip: DaemonRequest<V1, V2> -> Result<seq<CredentialResp>, Error>,
                            codec: Codec<V1, V2>) returns (r: Result<seq<Envelope<V1, V2>>, Error>)
    ensures roundTrip(ListRequest(v)).Failure? ==> r == Failure(roundTrip(ListRequest(v)).error)
    ensures roundTrip(ListRequest(v)).Success? ==> r == DecodeAll(roundTrip(ListRequest(v)).value, codec)
  {
    var fetched := roundTrip(ListRequest(v));
    if fetched.Failure? {
      return Failure(fetched.error);
    }
    var items := fetched.value;
    var creds: seq<Envelope<V1, V2>> := [];
    var i := 0;
    assert items[0..] == items;
    assert DecodeAll(items, codec) == Prefixed([], DecodeAll(items, codec)) by {
      if DecodeAll(items, codec).Success? {
        assert [] + DecodeAll(items, codec).value == DecodeAll(items, codec).value;
      }
    }
    while i < |items|
      invariant 0 <= i <= |items|
      invariant DecodeAll(items, codec) == Prefixed(creds, DecodeAll(items[i..], codec))
    {
      var one := CreateEnvelopeFromResp(items[i], codec);
      assert items[i..][0] == items[i] && items[i..][1..] == items[i + 1..];
      assert DecodeAll(items[i..], codec)
          == if one.Failure? then Failure(one.error) else Prefixed([one.value], DecodeAll(items[i + 1..], codec));
      if one.Failure? {
        return Failure(one.error);
      }
      assert forall vs: seq<Envelope<V1, V2>> :: creds + ([one.value] + vs) == (creds + [one.value]) + vs;
      creds := creds + [one.value];
      i := i + 1;
    }
    assert items[i..] == [] && creds + [] == creds;
    r := Success(creds);
  }

  function SearchQuery(pathexp: string): Values {
    SetValue(map[], PathExpKey, pathexp)
  }

  function GetQuery(path: string): Values {
    SetValue(map[], PathKey, path)
  }

  /** All credentials matching the path expression. */
  method Search<V1, V2>(pathexp: string, roundTrip: DaemonRequest<V1, V2> -> Result<seq<CredentialResp>, Error>,
                        codec: Codec<V1, V2>) returns (r: Result<seq<Envelope<V1, V2>>, Error>)
    ensures r == ListOutcome(roundTrip(ListRequest(SearchQuery(pathexp))), codec)
  {
    r := ListWorker(SearchQuery(pathexp), roundTrip, codec);
  }

  /** All credentials filed at exactly this path. */
  method Get<V1, V2>(path: string, roundTrip: DaemonRequest<V1, V2> -> Result<seq<CredentialResp>, Error>,
                     codec: Codec<V1, V2>) returns (r: Result<seq<Envelope<V1, V2>>, Error>)
    ensures r == ListOutcome(roundTrip(ListRequest(GetQuery(path))), codec)
  {
    r := ListWorker(GetQuery(path), roundTrip, codec);
  }

  /** Get and Search both issue GET /credentials without a body; each query
      holds exactly one key, which carries the argument, and the two keys
      differ, so an exact lookup is never read as a pattern. */
  lemma ListQueries<V1, V2>(s: string)
    ensures var g: DaemonRequest<V1, V2> := ListRequest(GetQuery(s));
            g.verb == "GET" && g.path == CredentialsPath && g.body.None?
    ensures GetQuery(s).Keys == {PathKey} && GetValue(GetQuery(s), PathKey) == s
    ensures SearchQuery(s).Keys == {PathExpKey} && GetValue(SearchQuery(s), PathExpKey) == s
    ensures GetQuery(s) != SearchQuery(s)
  {
    GetAfterSet(map[], PathKey, s);
    GetAfterSet(map[], PathExpKey, s);
    assert PathKey in GetQuery(s) && PathKey !in SearchQuery(s);
  }

  // ---------------------------------------------------------------- Create

  /** The request Create sends: POST /credentials with the credential wrapped
      in a version-2 envelope that has no id yet. */
  function CreateRequest<V1, V2>(cred: Credential<V1, V2>): DaemonRequest<V1, V2> {
    DaemonRequest("POST", CredentialsPath, None, Some(Envelope(None, 2, cred)))
  }

  /** Creates a credential and decodes the daemon's answer like any listed item. */
  function Create<V1, V2>(cred: Credential<V1, V2>, roundTrip: DaemonRequest<V1, V2> -> Result<CredentialResp, Error>,
                          codec: Codec<V1, V2>): (r: Result<Envelope<V1, V2>, Error>)
    ensures roundTrip(CreateRequest(cred)).Failure? ==> r == Failure(roundTrip(CreateRequest(cred)).error)
    ensures roundTrip(CreateRequest(cred)).Success? ==>
              r == CreateEnvelopeFromResp(roundTrip(CreateRequest(cred)).value, codec)
    ensures r.Success? ==> Consistent(r.value)
  {
    match roundTrip(CreateRequest(cred))
    case Failure(e) => Failure(e)
    case Success(resp) => CreateEnvelopeFromResp(resp, codec)
  }

  /** The envelope Create sends always says version 2 and carries the given
      body unchanged; it is consistent exactly when that body is a
      CredentialV2, since the shape is not checked. */
  lemma CreateSendsVersion2<V1, V2>(cred: Credential<V1, V2>)
    ensures CreateRequest(cred).body.Some?
    ensures CreateRequest(cred).body.value.version == 2
    ensures CreateRequest(cred).body.value.body == cred
    ensures Consistent(CreateRequest(cred).body.value) <==> cred.CredentialV2?
  {
  }

  /** When the daemon answers with the envelope it was sent, given an id,
      Create hands back exactly that envelope for a CredentialV2 body. */
  lemma CreateEchoRoundTrip<V1, V2>(body: V2, id: CredentialID, m: Marshal<V1, V2>, codec: Codec<V1, V2>,
                                    roundTrip: DaemonRequest<V1, V2> -> Result<CredentialResp, Error>)
    requires forall b :: codec.v2(m.v2(b)) == Some(b)
    requires roundTrip(CreateRequest(CredentialV2(body))) == Success(CredentialResp(Some(id), 2, m.v2(body)))
    ensures Create(CredentialV2(body), roundTrip, codec) == Success(Envelope(Some(id), 2, CredentialV2(body)))
  {
  }
}
