# goreq request building and response checks, in Dafny

This project models the core of `goreq`, a small convenience HTTP client for
Go (`req.go`). It covers how one request is built and what the returned
`Response` answers:

- **extra arguments**: every variadic extra is a query-parameter map `P`, a
  per-call header map `H`, or ignored; the last `P` and the last `H` win
  (`extras.dfy`);
- **query**: the effective `P` is copied into `url.Values`, form-encoded and
  appended after `?`, or after `&` when the URL already has a `?`
  (`query.dfy`);
- **body**: the shape of the body picks the payload and the automatic
  Content-Type (`body.dfy`);
- **headers**: a copy of the session's headers, every per-call header `Set`
  over it, then the automatic Content-Type only where `Content-Type` is still
  empty (`assembly.dfy`). Header names are canonicalised as Go's `http.Header`
  does (`header.dfy`);
- **sessions and globals**: `NewSession` copies the global defaults,
  `SetHeader` changes one entry of one map, building a request changes
  nothing, and the package-level verbs use a fresh session each time
  (`client.dfy`);
- **responses**: `OK`, `RaiseForStatus`, `Text`/`Bytes`, and `Save`'s
  status guard (`response.dfy`).

Go strings and byte slices are both `seq<byte>`. Functions from Go's
libraries that the package only calls (`url.Values.Encode`, `json.Marshal`)
are fields of a `Library` value passed in, so every property holds for any
encoder. The network is a `send` parameter from the built request to an
outcome: a transport error or a reply. Header canonicalisation (`Canon`) is
written out: a name made only of token bytes gets its first letter and every
letter after a hyphen upper-cased and the others lower-cased; any other name
is kept as it is. It is proved idempotent and insensitive to letter case.

Go walks a map in an unspecified order. When two per-call header names share
a canonical form, either value may end up in the request. The header step is
therefore specified as a relation (`Assembly.Assembled`). When no two
per-call names collide, the result is unique (`Assembly.OverridesDetermined`).

A URL with a fragment gets its parameters after the fragment, as the source
does. `Query.QueryOf` reads what follows the first `?`, which is the query of
a URL without a `#`.

## Model

| member | source | states |
|---|---|---|
| `HttpHeader.Canon` | req.go:169-172 | the canonical name differs from the given one only in letter case, and a name with a non-token byte is kept as it is |
| `HttpHeader.CanonIdempotent` | req.go:169-172 | a canonical header name is its own canonical form |
| `HttpHeader.CanonIgnoresCase` | req.go:169-172 | two token names that differ only in letter case canonicalise alike (section 5.1 of RFC 9110) |
| `HttpHeader.Set` | req.go:90 | `Header.Set` stores the single value under the canonical name; every other entry is kept |
| `HttpHeader.Get` | req.go:171 | `Get` gives the first value stored under the canonical name, and the empty string when there is none |
| `HttpHeader.GetAfterSet` | req.go:171 | after `Set(k, v)`, `Get` under any spelling of `k` gives `v`; any other name reads as before |
| `HttpHeader.GetStoredName` | req.go:169-172 | the canonical name that `Set` stored finds the value again |
| `HttpHeader.GetIgnoresCase` | req.go:171 | `Get` gives the same answer for two spellings of a token name that differ only in case |
| `HttpHeader.ContentTypeIsCanonical` | req.go:171-172 | "Content-Type" is stored under that exact spelling |
| `Responses.FromOutcome` | req.go:175-182 | a transport failure yields a Response carrying the error, with no embedded response and no body; a reply yields its status, headers and whole body with no error |
| `Responses.StatusCodeAsWritten` | req.go:41 | reading `StatusCode` panics exactly when there is no embedded response |
| `Responses.StatusCode` | req.go:41 | the status of a reply; 0 for a Response that carries a transport error |
| `Responses.OKAsWritten` | req.go:40-42 | as written: panics without an embedded response, otherwise true iff 200 <= status < 300 |
| `Responses.OK` | req.go:40-42 | true iff there is a status and it is in [200, 300), the 2xx class of section 15.3 of RFC 9110 |
| `Responses.OKAgreesWhenResponded` | req.go:40-42 | on every Response with a status the two versions of `OK` agree |
| `Responses.TransportFailureOK` | req.go:40-42 | on a transport failure `OK` as written panics, the corrected `OK` is false |
| `Responses.Text` | req.go:50 | the text view is the body, byte for byte |
| `Responses.Bytes` | req.go:51 | the bytes view is the body |
| `Responses.TextIsBytes` | req.go:50-51 | the text is the body, byte for byte, with no decoding |
| `Responses.RaiseForStatusAsWritten` | req.go:44-48 | as written: panics on the nil embedded response when there is no status; otherwise panics with the status and the body text exactly when the status is outside 2xx |
| `Responses.RaiseForStatus` | req.go:44-48 | panics exactly when the response is not OK, with the status and the body text; otherwise returns |
| `Responses.RaiseForStatusAgreesWhenResponded` | req.go:44-48 | on every Response with a status the two versions of `RaiseForStatus` agree |
| `Responses.WriteBody` | req.go:59-68 | every filesystem step succeeding writes exactly the body and reports no error; a failing `MkdirAll` or `Create` writes no file; a failing copy leaves a prefix of the body in the file |
| `Responses.SaveAsWritten` | req.go:55-69 | as written: panics on the nil embedded response when there is no status; refuses a non-2xx status before touching the filesystem; otherwise succeeds exactly when the filesystem does |
| `Responses.Save` | req.go:55-69 | a non-OK response gives a bad-status error and leaves the filesystem untouched; an OK one writes exactly the body to the path when every filesystem step succeeds, and reports the failing step's error otherwise |
| `Responses.SaveAgreesWhenResponded` | req.go:55-69 | on every Response with a status the two versions of `Save` agree |
| `Responses.TransportFailureRaiseAndSave` | req.go:44-58 | on a transport failure `RaiseForStatus` and `Save` as written panic; the corrected ones report status 0, `Save` without touching the filesystem |
| `Extras.ResolveExtras` | req.go:101-116 | the loop over the extras yields the effective `P` and the effective `H` |
| `Extras.EffectiveWhenAbsent` | req.go:98-116 | with no extra of a kind, the map of that kind stays nil |
| `Extras.EffectiveIsLast` | req.go:101-116 | the effective map of a kind is the one supplied by the last extra of that kind |
| `Extras.IgnoredExtraHasNoEffect` | req.go:103-115 | an untyped nil or a value of any other type, wherever it stands, changes neither result |
| `Extras.OtherKindHasNoEffect` | req.go:105-113 | an `H` never changes the effective `P`, and a `P` never changes the effective `H` |
| `Query.AsValues` | req.go:120-123 | the `url.Values` built from a string map has its keys, each holding exactly its one value |
| `Query.CopyToValues` | req.go:120-123 | the copying loop builds exactly that `url.Values`, whatever the walk order |
| `Query.Separator` | req.go:124-127 | the separator is `&` iff the URL contains `?`, and `?` iff it does not |
| `Query.AppendQuery` | req.go:119-129 | no `P` or a nil `P` leaves the URL unchanged; otherwise URL, separator and encoded parameters |
| `Query.AppendQueryExtends` | req.go:119-129 | the original URL is always a prefix of the result, and a URL that received parameters contains `?` |
| `Query.EmptyParamsBareSeparator` | req.go:119-128 | a non-nil empty `P` appends a bare separator |
| `Query.AppendedQuery` | req.go:124-128 | what follows the first `?` of the new URL is the encoded parameters, after what followed it before and `&` when there was a `?`; for a URL without `#` that is its query |
| `RequestBody.EncodeBody` | req.go:135-164 | the body table is total and exclusive: JSON maps give JSON text and `application/json`; form maps give the form encoding and `application/x-www-form-urlencoded`; strings and byte slices are sent verbatim with no Content-Type; nil and other shapes give neither |
| `RequestBody.EncodeBodyStep` | req.go:135-164 | the type switch with its copying loops computes exactly that table |
| `RequestBody.MarshalErrorKeepsJsonType` | req.go:137-144 | a JSON map that fails to marshal is sent as an empty body that still announces `application/json` |
| `Assembly.OverrideStep` | req.go:168-170 | one more per-call `Set` keeps the override relation |
| `Assembly.WithAutoContentType` | req.go:171-173 | the automatic step changes nothing when there is no automatic type or a Content-Type is already set; otherwise Content-Type holds exactly the automatic type |
| `Assembly.AssembleHeaders` | req.go:166-173 | clone, per-call `Set` loop and conditional Content-Type produce a header map in the assembly relation |
| `Assembly.OverridesDetermined` | req.go:168-170 | with no colliding per-call names, the result does not depend on the walk order |
| `Assembly.AutoContentType` | req.go:171-173 | Content-Type afterwards is the existing non-empty one, else the automatic one; the automatic name is added only when there is an automatic type; nothing else changes |
| `Assembly.AssembledHeaders` | req.go:166-173 | per-call headers hold their values (one of the colliding ones when names collide); other session headers are unchanged; Content-Type is per-call, else session, else automatic; no other names appear |
| `Assembly.NothingToAssemble` | req.go:166-173 | without per-call headers or an automatic Content-Type the request carries exactly the session's headers |
| `Client.Defaults.constructor` | req.go:21-25 | the globals start as a 30-second timeout, no proxy and no headers |
| `Client.Defaults.SetHeader` | req.go:213 | the package-level `SetHeader` applies `Set` to the global headers |
| `Client.Session.constructor` | req.go:77-88 | a new session holds a copy of the global headers, the global timeout, and a proxy only when the global one is not empty |
| `Client.Session.SetHeader` | req.go:90 | changes this session's headers by `Set` and nothing else |
| `Client.Session.Request` | req.go:97-183 | the request sent has the method, the URL with the last `P`, the payload of the body table and the assembled headers; the Response wraps the network outcome; the error returned is the Response's |
| `Client.Session.Do` | req.go:92-95 | the same request and Response, with the error dropped |
| `Client.Session.Get` | req.go:185 | a GET with no payload and hence no automatic Content-Type |
| `Client.Session.Post` | req.go:186-188 | a POST of the given body |
| `Client.Session.Put` | req.go:189-191 | a PUT of the given body |
| `Client.Session.Delete` | req.go:192-194 | a DELETE of the given body |
| `Client.Do` | req.go:197-202 | a one-off request built over the current global headers |
| `Client.Get` | req.go:204 | a GET with no payload over the global headers |
| `Client.Post` | req.go:205-207 | a POST of the given body over the global headers |
| `Client.Put` | req.go:208 | a PUT of the given body over the global headers |
| `Client.Delete` | req.go:209-211 | a DELETE of the given body over the global headers |
| `Client.SentContentType` | req.go:135-173 | when neither the session nor the call names a Content-Type, the request carries the one the body's shape gives |
| `Client.SessionHeaderIsSent` | req_test.go:280-285 | a header set on a session reaches its next request, and sending leaves the session's headers as they were |
| `Client.ParamsAndHeaderAreSent` | req_test.go:250-263 | `Get(url, P{k: v}, H{hk: hv})` sends the encoded parameters as the whole query and the header with its value |

## Left out

- `Response.Json` (req.go:52): it hands the body to the `gjson` parser, which is not part of this model.
- The cookie jar, the timeout enforcement and the proxy transport (req.go:78-86): the session records its timeout and proxy URL but nothing uses them; a proxy URL that fails to parse is not modelled.
- `client.Do` (req.go:175): the network is the `send` parameter. Reading the reply body (req.go:181) is folded into the outcome, and its ignored read error is not modelled.
- `os.MkdirAll`, `os.Create` and `io.Copy` in `Save` (req.go:59-68): the `FsOutcome` parameter says which of them fails, if any, and how many bytes the copy wrote first. Which directories `MkdirAll` creates, and `path.Dir`, are not modelled.
- `url.Values.Encode` and `json.Marshal`: uninterpreted functions of `Library`. JSON numbers are integers in `Json`.
- `http.NewRequest` (req.go:166): its error is dropped. With an unparseable URL `req` is nil, and the next line panics. URL parsing is not part of this model, so every request is built.
- Reflection on type names (req.go:103-105): replaced by the `Extra` and `Body` datatypes.
- Unsynchronised access to the globals `Timeout`, `Proxy` and `Headers` (req.go:21-25): the globals are one `Defaults` object, with no concurrency.
- `Client.Session.Request`: does not state in its `ensures` that the session is unchanged. It has no `modifies` clause, so Dafny already forbids any change.

## Findings

| source | as written | input that shows it | evidently intended | confidence | as-written member | corrected member |
|---|---|---|---|---|---|---|
| req.go:40-42 | `OK` reads `r.StatusCode` through the embedded `*http.Response`. That pointer is nil on the Response built after a transport failure (req.go:177), so `OK` panics. So do `RaiseForStatus` and `Save`, which call it first. A caller can avoid this only by testing `resp.Response == nil` before calling any of them. | `Get` on a URL whose connection is refused, then `resp.OK()`, `resp.RaiseForStatus()` or `resp.Save(p)` | `request` returns this Response as an ordinary value (req.go:177), and the tests read its error to detect a timeout (req_test.go:334-335); such a Response reads as status 0, is not OK, and `RaiseForStatus`/`Save` report that status | medium; not executed | `Responses.OKAsWritten`, `Responses.RaiseForStatusAsWritten`, `Responses.SaveAsWritten` | `Responses.OK`, `Responses.RaiseForStatus`, `Responses.Save` |
