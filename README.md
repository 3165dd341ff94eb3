# Service Fabric client — a Dafny model

This project models the Go client for the Service Fabric cluster management
REST API (`servicefabric.go`). It covers:

- constructing a client;
- assembling request URLs from an API version and a chain of query-parameter
  injectors (`withParam`, `withContinue`, `noOp`);
- the two GET helpers (`getHTTP`, `getHTTPRaw`) and the status probes built
  on them (`nameExists`, `GetClusterHealth`);
- the continuation-token loops of `GetApplications`, `GetServices` and
  `GetProperties`;
- the extension lookup of `GetServiceExtension` and the label flattening of
  `GetServiceExtensionMap`.

The transport is an input. Each request's answer is a `RawReply`: the
transport failed, or it answered with a status and a body. What
`json.Unmarshal` makes of a body is also an input: each `Reply<P>` carries
an `Option<P>`, where `None` means the body does not decode. What
`xml.Unmarshal` makes of an extension value is an input in the same way,
carried by the `KeyValuePair`. A nil `httpClient` is `Client.hasTransport ==
false`.

Every method that sends requests also returns `requests`: the URLs it sent,
in order. The contracts can then say which requests go out as well as what
comes back.

Modules, one per concern:

- `Wrappers`: `Option`, `Result`.
- `Model`: the decoded structures the logic reads, the error kinds, and the
  reply shapes.
- `Query`: the injectors and `strings.Join`.
- `ServiceFabric`: the client, `getURL`, `getHTTP`, `getHTTPRaw`,
  `nameExists` and `GetClusterHealth`.
- `Pagination`: the token protocol, stated once over the sequence of fetch
  outcomes.
- `Listing`: `GetApplications` and `GetServices`, which share one generic
  loop.
- `Properties`: `GetProperties`.
- `Extensions`: `GetServiceExtension` and `GetServiceExtensionMap`.

How the pagination loops are proved:

- Each loop is a `while` loop proved against `Pagination.Outcome`. That
  function is the first error, or all items of every page up to the first
  page without a token.
- `Pagination.RequestURLs` gives the URLs the loop sends.
- Lemmas about `Outcome` and `RequestURLs` state what the source promises:
  order of items, number of fetches, tokens sent, failure aborts.

## Model

| member | source | states |
|---|---|---|
| Query.WithParam | servicefabric.go:472-476 | the injector appends exactly `name=value` to any parameter list |
| Query.WithContinue | servicefabric.go:465-470 | an empty token leaves any parameter list unchanged (noOp); a non-empty one appends exactly `continue=<token>` |
| Query.ApplyAllAppends | servicefabric.go:423-427 | running the injectors in order only appends: the original parameters stay first, followed by each injector's additions in order |
| Query.ContinuePrefixed | servicefabric.go:465-470 | once joined with `&`, withContinue contributes nothing for an empty token and `&continue=<token>` otherwise |
| Query.ParamPrefixed | servicefabric.go:472-476 | once joined with `&`, withParam contributes `&name=value` |
| ServiceFabric.NewServiceFabricClient | servicefabric.go:189-202 | fails (missing endpoint) exactly when the endpoint is empty; otherwise keeps endpoint and transport, substitutes "3.0" for an empty API version, keeps a non-empty one, so the version is never empty |
| ServiceFabric.GetString | servicefabric.go:458-463 | a nil string reads as ""; a present one as its value; a non-empty result means the string was present |
| ServiceFabric.URLShape | servicefabric.go:422-430 | every URL is `endpoint/basePath?api-version=<v>` followed by `&`-prefixed injector additions in order |
| ServiceFabric.ContinueURL | servicefabric.go:465-470 | a request with an empty token carries only the API version; otherwise exactly one `&continue=<token>` after it |
| ServiceFabric.ContinueThenParamURL | servicefabric.go:340 | with a token injector followed by a parameter injector, the optional `&continue=` comes before `&name=value`, which is last |
| ServiceFabric.GetURL | servicefabric.go:422-430 | the loop over the injectors yields the URL of the specification function URL |
| ServiceFabric.GetHTTP | servicefabric.go:377-402 | succeeds exactly on a non-nil client, an answer, status 200 and a non-empty body, returning that body; otherwise distinguishes invalid client, connectivity, the upstream status, and an empty body, in that order |
| ServiceFabric.Fetch | servicefabric.go:208-217 | getHTTP then JSON decoding: succeeds exactly when both do, with the decoded page; a getHTTP error passes through unchanged; a body that does not decode is a deserialisation error |
| ServiceFabric.GetHTTPRaw | servicefabric.go:404-420 | succeeds with the status, whatever it is, exactly when the client is non-nil and the transport answered |
| ServiceFabric.NameExists | servicefabric.go:367-375 | true exactly on status 200, false exactly on any other answered status; a failed probe passes on getHTTPRaw's error |
| ServiceFabric.GetClusterHealth | servicefabric.go:254-261 | healthy exactly on status 200, unhealthy on any other answered status; fails exactly when the client is nil or the transport fails, always with its own error |
| Pagination.FirstStop | servicefabric.go:207-225 | the index of the first fetch that fails or returns no token; no earlier fetch stops the loop |
| Pagination.RequestURLAt | servicefabric.go:208 | the j-th request carries the token returned by page j-1 ("" for the first one), then the fixed parameters |
| Pagination.Advance | servicefabric.go:219-224 | a page with a token is not the last; its items extend the aggregate and its token is the next one sent |
| Pagination.Finish | servicefabric.go:209-226 | the fetch that stops the loop is the last one; its error is the outcome, or the aggregate including its items is |
| Pagination.StopBoundsFetches | servicefabric.go:207-225 | any failing or tokenless fetch bounds the number of fetches |
| Pagination.TokensSent | servicefabric.go:221-224 | only the first request goes out without a token; every later one carries the previous page's non-empty token |
| Pagination.FailureAborts | servicefabric.go:208-211 | a failing fetch reached by the loop ends it, and the loop returns that fetch's error |
| Pagination.OutcomeFails | servicefabric.go:207-226 | the loop fails exactly when the last fetch it performs fails; a success ends on a tokenless page |
| Pagination.SingleFetch | servicefabric.go:221-224 | a first page without a token means one fetch, whose items are the result |
| Pagination.GatheredAt | servicefabric.go:219 | item i of page j sits in the aggregate right after the items of all earlier pages, so order is kept |
| Pagination.GatheredLength | servicefabric.go:219 | n pages of m items aggregate to n*m items |
| Pagination.UniformPages | servicefabric.go:204-227 | n pages of m items whose tokens run out on page n: n fetches and n*m items |
| Listing.CollectPages | servicefabric.go:204-227 | a nil client fails with no request sent; otherwise the result is the pagination outcome and the requests are exactly one URL per fetch up to the last one |
| Listing.GetApplications | servicefabric.go:204-227 | as CollectPages, with the requests under `Applications/` |
| Listing.GetServices | servicefabric.go:229-252 | as CollectPages, with the requests under `Applications/<app>/$/GetServices` |
| Listing.ListingRequestURL | servicefabric.go:208 | request j is `endpoint/basePath?api-version=<v>`, plus `&continue=<token of page j-1>` when j > 0, a token that is then non-empty |
| Properties.AbsorbAppend | servicefabric.go:351-356 | absorbing two pages one after the other equals absorbing their concatenation |
| Properties.AbsorbNextPage | servicefabric.go:339-362 | the map after one more page is that page absorbed into the map before it |
| Properties.AbsorbKeys | servicefabric.go:351-356 | a name is in the map exactly when it was before or some String-kind property carries it |
| Properties.AbsorbLastWins | servicefabric.go:355 | a name maps to the data of its last String-kind property |
| Properties.AbsorbKeeps | servicefabric.go:352-354 | a name no String-kind property carries keeps its old value |
| Properties.PropertiesFailed | servicefabric.go:340-349 | a failing fetch reached by the loop is the error GetProperties returns |
| Properties.PropertiesDone | servicefabric.go:358-364 | the page without a token is the last; the map is completed with its properties |
| Properties.AbsorbPage | servicefabric.go:351-356 | the inner loop over one page inserts its String-kind properties in order |
| Properties.CollectProperties | servicefabric.go:338-364 | the loop's result is the absorbed map over all fetched pages, or the first error; one request per fetch up to the last |
| Properties.GetProperties | servicefabric.go:326-365 | a failed probe returns its error; any non-200 answer returns "absent" with no further request; otherwise the result and requests of the property loop under `Names/<name>/$/GetProperties` with IncludeValues |
| Properties.FoundProperties | servicefabric.go:336-364 | a found map holds exactly the names of the String-kind properties of all pages, each with the data of its last occurrence |
| Properties.PropertiesRequestURL | servicefabric.go:340 | request j is `.../GetProperties?api-version=<v>`, then `&continue=<token of page j-1>` when j > 0, then `&IncludeValues=true` |
| Extensions.ToLower | servicefabric.go:296 | the folded character is never an upper-case ASCII letter; it is a lower-case letter exactly when the input was an ASCII letter of either case; it differs from the input only for an upper-case letter, and then by the offset from `A` to `a` |
| Extensions.ToLowerIdempotent | servicefabric.go:296 | folding an already folded character changes nothing |
| Extensions.EqualFoldCaseOnly | servicefabric.go:296 | two keys match exactly when they have the same length and each pair of characters is equal or the same ASCII letter in different case |
| Extensions.EqualFoldEquivalence | servicefabric.go:296 | case-insensitive key comparison is reflexive, symmetric and transitive |
| Extensions.FirstKeyFrom | servicefabric.go:295-302 | the first extension whose key matches case-insensitively, or none exactly when no key matches |
| Extensions.FirstHit | servicefabric.go:293-305 | none exactly when no extension of a service type with that exact name matches; otherwise a match, and the first in scan order (type, then extension) |
| Extensions.GetServiceExtension | servicefabric.go:281-307 | the nested scan decodes the first hit: a request error is wrapped; a body that does not decode, or an extension value that does not, is a deserialisation error; no hit leaves the target as it was; one request with `ApplicationTypeVersion` goes out unless the client is nil |
| Extensions.LabelMapKeys | servicefabric.go:316-321 | the label map's keys are exactly the label keys |
| Extensions.LabelMapLastWins | servicefabric.go:318-320 | a key maps to the value of the last label carrying it |
| Extensions.GetServiceExtensionMap | servicefabric.go:309-324 | the loop flattens the decoded labels into the label map; errors of GetServiceExtension pass through; same single request |
| Extensions.NoExtensionNoLabels | servicefabric.go:309-323 | when no extension matches, the map is empty and there is no error |
| Extensions.ExtensionMapContents | servicefabric.go:316-323 | a successful map holds exactly the decoded label keys, each with its last value |

## Left out

- postHTTP, DeleteService, DeleteApplication (servicefabric.go:263-279 and 432-457): this code does not compile as written. postHTTP declares `body` twice and uses an undeclared `status`, and the Delete functions call postHTTP without its body argument. There is no behaviour to model.
- HTTP transport, JSON decoding and XML decoding are inputs (`RawReply`, `Reply.decoded`, `KeyValuePair.xml`), not modelled codecs. The only HTTP status distinguished is 200.
- Error messages (the `fmt.Errorf` text) are not modelled. Errors are kinds (`Model.Error`). The wrapping in GetServiceExtension is kept as `ExtensionRequest`.
- GetClusterHealth's literal path (servicefabric.go:255) is not modelled: no URL is produced for it. getURL adds the client's API version after a path that already has a query string, which doubles `?api-version=`.
- GetReplicaData and the plain data structs (servicefabric.go:19-177) are not modelled beyond the fields the logic reads.
- Extensions.EqualFold: ASCII case folding only. Go's `strings.EqualFold` also folds non-ASCII Unicode letters.
- Extensions.GetServiceExtensionMap: a nil `service` or `app` pointer, which makes the Go function panic when it reads their type fields (servicefabric.go:311), is not modelled. The model takes both as values.
- Extensions.GetServiceExtension: `xml.Unmarshal` into a target that already holds data merges into it. The model replaces the target with the decoded value. Callers in this file always pass a fresh, empty target.
- Listing.CollectPages: the Go loop has no bound. The model requires the supplied answers to contain one that ends the loop (a failure or a page without a token). A server that returns tokens forever is not modelled.
- Listing.CollectPages: the nil-client check that getHTTP makes on the first iteration is made once, before the loop. Both behave the same: the first request is refused, nothing is sent, and the error is returned.
- Listing.GetApplications and Listing.GetServices return the items as a sequence. The Go functions return an aggregate page whose `ContinuationToken` is always nil.
- Properties.GetProperties: the URL of the existence probe (`Names/<name>`) is not part of `requests`. Only the property-page requests are listed.
- Concurrency and cancellation: none in this code.
