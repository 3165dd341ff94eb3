/**
 The Service Fabric client: construction, URL assembly (getURL), the two
 request helpers (getHTTP, getHTTPRaw) and the status probes built on them
 (nameExists, GetClusterHealth).
 */
module ServiceFabric {
  import opened Wrappers
  import opened Model
  import opened Query

  /** The API version used when the caller gives none. */
  const DefaultAPIVersion: string := "3.0"

  /** ServiceFabricClient; `hasTransport` is false when the HTTP client is nil. */
  datatype Client = Client(endpoint: string, apiVersion: string, hasTransport: bool)

  /** NewServiceFabricClient. */
  function NewServiceFabricClient(hasTransport: bool, endpoint: string, apiVersion: string): (r: Result<Client, Error>)
    ensures r.Failure? <==> endpoint == ""
    ensures r.Failure? ==> r.error == MissingEndpoint
    ensures r.Success? ==> r.value.endpoint == endpoint && r.value.hasTransport == hasTransport
    ensures r.Success? && apiVersion == "" ==> r.value.apiVersion == DefaultAPIVersion
    ensures r.Success? && apiVersion != "" ==> r.value.apiVersion == apiVersion
    ensures r.Success? ==> r.value.apiVersion != ""
  {
    if endpoint == "" then Failure(MissingEndpoint)
    else Success(Client(endpoint, if apiVersion == "" then DefaultAPIVersion else apiVersion, hasTransport))
  }

  /** getString: a nil string pointer reads as "". */
  function GetString(s: Option<string>): (r: string)
    ensures s.None? ==> r == ""
    ensures s.Some? ==> r == s.value
    ensures r != "" ==> s == Some(r)
  {
    match s
    case None => ""
    case Some(v) => v
  }

  /** The list getURL starts from: the API version alone. */
  function InitialParams(c: Client): seq<string>
  {
    ["api-version=" + c.apiVersion]
  }

  /** The URL getURL builds for a base path and a list of injectors. */
  function URL(c: Client, basePath: string, injs: seq<Injector>): string
  {
    c.endpoint + "/" + basePath + "?" + Join(ApplyAll(injs, InitialParams(c)), "&")
  }

  /** The URL always carries the API version first, then what the injectors add, in order. */
  lemma URLShape(c: Client, basePath: string, injs: seq<Injector>)
    ensures URL(c, basePath, injs)
         == c.endpoint + "/" + basePath + "?api-version=" + c.apiVersion + Prefixed(Added(injs), "&")
  {
    ApplyAllAppends(injs, InitialParams(c));
    JoinCons("api-version=" + c.apiVersion, Added(injs), "&");
  }

  /** A request with an empty continuation token has no `continue` parameter. */
  lemma ContinueURL(c: Client, basePath: string, token: string)
    ensures URL(c, basePath, [WithContinue(token)])
         == c.endpoint + "/" + basePath + "?api-version=" + c.apiVersion
            + (if token == "" then "" else "&continue=" + token)
  {
    ContinuePrefixed(token);
    URLShape(c, basePath, [WithContinue(token)]);
  }

  /** A fixed parameter after the token comes last, after the optional `continue`. */
  lemma ContinueThenParamURL(c: Client, basePath: string, token: string, name: string, value: string)
    ensures URL(c, basePath, [WithContinue(token), WithParam(name, value)])
         == c.endpoint + "/" + basePath + "?api-version=" + c.apiVersion
            + (if token == "" then "" else "&continue=" + token) + ("&" + name + "=" + value)
  {
    var first := [WithContinue(token)];
    var second := [WithParam(name, value)];
    assert Prefixed(Added(first + second), "&")
        == Prefixed(Added(first), "&") + Prefixed(Added(second), "&") by {
      AddedConcat(first, second);
      PrefixedConcat(Added(first), Added(second), "&");
    }
    ContinuePrefixed(token);
    ParamPrefixed(name, value);
    assert first + second == [WithContinue(token), WithParam(name, value)];
    URLShape(c, basePath, first + second);
  }

  /** getURL, with its loop over the injectors. */
  method GetURL(c: Client, basePath: string, injectors: seq<Injector>) returns (url: string)
    ensures url == URL(c, basePath, injectors)
  {
    var params := ["api-version=" + c.apiVersion];
    for i := 0 to |injectors|
      invariant ApplyAll(injectors[i..], params) == ApplyAll(injectors, InitialParams(c))
    {
      assert injectors[i..][1..] == injectors[i + 1..];
      params := Apply(injectors[i], params);
    }
    assert injectors[|injectors|..] == [];
    url := c.endpoint + "/" + basePath + "?" + Join(params, "&");
  }

  /** getHTTP: the body of a successful GET, or the error kind that stopped it. */
  function GetHTTP(c: Client, raw: RawReply): (r: Result<string, Error>)
    ensures r.Success? <==> c.hasTransport && raw.Answer? && raw.status == 200 && raw.body != ""
    ensures r.Success? ==> r.value == raw.body
    ensures !c.hasTransport ==> r == Failure(InvalidClient)
    ensures c.hasTransport && raw.TransportFailure? ==> r == Failure(Connectivity)
    ensures c.hasTransport && raw.Answer? && raw.status != 200 ==> r == Failure(UpstreamStatus(raw.status))
    ensures c.hasTransport && raw.Answer? && raw.status == 200 && raw.body == "" ==> r == Failure(EmptyResponse)
  {
    if !c.hasTransport then Failure(InvalidClient)
    else match raw
      case TransportFailure => Failure(Connectivity)
      case Answer(status, body) =>
        if status != 200 then Failure(UpstreamStatus(status))
        else if |body| == 0 then Failure(EmptyResponse)
        else Success(body)
  }

  /** getHTTP followed by json.Unmarshal into the page shape P. */
  function Fetch<P>(c: Client, reply: Reply<P>): (r: Result<P, Error>)
    ensures r.Success? <==> GetHTTP(c, reply.raw).Success? && reply.decoded.Some?
    ensures r.Success? ==> r.value == reply.decoded.value
    ensures GetHTTP(c, reply.raw).Failure? ==> r == Failure(GetHTTP(c, reply.raw).error)
    ensures GetHTTP(c, reply.raw).Success? && reply.decoded.None? ==> r == Failure(JsonDeserialization)
  {
    match GetHTTP(c, reply.raw)
    case Failure(e) => Failure(e)
    case Success(_) =>
      match reply.decoded
      case None => Failure(JsonDeserialization)
      case Some(p) => Success(p)
  }

  /** getHTTPRaw: the status of a GET whatever it is; only a failed call is an error. */
  function GetHTTPRaw(c: Client, raw: RawReply): (r: Result<int, Error>)
    ensures r.Success? <==> c.hasTransport && raw.Answer?
    ensures r.Success? ==> r.value == raw.status
    ensures !c.hasTransport ==> r == Failure(InvalidClient)
    ensures c.hasTransport && raw.TransportFailure? ==> r == Failure(Connectivity)
  {
    if !c.hasTransport then Failure(InvalidClient)
    else match raw
      case TransportFailure => Failure(Connectivity)
      case Answer(status, _) => Success(status)
  }

  /** nameExists: true exactly on status 200; a failed probe passes its error on. */
  function NameExists(c: Client, probe: RawReply): (r: Result<bool, Error>)
    ensures r == Success(true) <==> c.hasTransport && probe.Answer? && probe.status == 200
    ensures r == Success(false) <==> c.hasTransport && probe.Answer? && probe.status != 200
    ensures r.Failure? ==> GetHTTPRaw(c, probe) == Failure(r.error)
  {
    match GetHTTPRaw(c, probe)
    case Failure(e) => Failure(e)
    case Success(status) => Success(status == 200)
  }

  /** GetClusterHealth: healthy exactly on status 200, whatever the body; a failed probe is its own error. */
  function GetClusterHealth(c: Client, probe: RawReply): (r: Result<bool, Error>)
    ensures r == Success(true) <==> c.hasTransport && probe.Answer? && probe.status == 200
    ensures r == Success(false) <==> c.hasTransport && probe.Answer? && probe.status != 200
    ensures r.Failure? <==> !c.hasTransport || probe.TransportFailure?
    ensures r.Failure? ==> r.error == ClusterHealthUnavailable
  {
    match GetHTTPRaw(c, probe)
    case Failure(_) => Failure(ClusterHealthUnavailable)
    case Success(status) => Success(status == 200)
  }
}
