/** Sessions, the process-wide defaults, and the request dispatcher they
    share. The send itself is the `send` parameter: whatever the network
    does with the request it is given. */
module Client {
  import opened GoTypes
  import HttpHeader
  import opened Responses
  import opened Extras
  import opened Query
  import opened RequestBody
  import opened Assembly

  datatype Method = GET | POST | PUT | DELETE

  /** What `request` hands to `client.Do`. */
  datatype HttpRequest = HttpRequest(verb: Method, url: ByteSeq, payload: Option<ByteSeq>, header: HttpHeader.Header)

  /** The default timeout, 30 seconds, in Go's nanosecond durations. */
  const DefaultTimeout: int := 30_000_000_000

  /** The request `request` builds from its arguments and the session's
      headers `base`: the URL with the last `P` appended, the body the
      body's shape gives, and the headers assembled from `base`, the last
      `H` and the automatic Content-Type. */
  ghost predicate BuiltFrom(r: HttpRequest, base: HttpHeader.Header, m: Method, rawurl: ByteSeq,
                            body: Body, extra: seq<Extra>, lib: Library)
  {
    && r.verb == m
    && r.url == AppendQuery(rawurl, Effective(extra, ParamsKind), lib)
    && r.payload == EncodeBody(body, lib).payload
    && Assembled(base, Effective(extra, HeadersKind).Entries(), EncodeBody(body, lib).contentType, r.header)
  }

  /** The package globals `Timeout`, `Proxy` and `Headers`. */
  class Defaults {
    var timeout: int
    var proxy: ByteSeq
    var headers: HttpHeader.Header

    /** The values the globals start with. */
    constructor ()
      ensures timeout == DefaultTimeout && proxy == [] && headers == map[]
    {
      timeout, proxy, headers := DefaultTimeout, [], map[];
    }

    /** The package-level `SetHeader`: `Headers.Set(k, v)`. */
    method SetHeader(k: ByteSeq, v: ByteSeq)
      modifies this`headers
      ensures headers == HttpHeader.Set(old(headers), k, v)
    {
      headers := HttpHeader.Set(headers, k, v);
    }
  }

  class Session {
    var headers: HttpHeader.Header
    const timeout: int
    /** The proxy URL the transport is configured with, if any. */
    const proxy: Option<ByteSeq>

    /** `NewSession`: a private copy of the global headers, the global
        timeout, and a proxy only when the global one is not empty. */
    constructor (g: Defaults)
      ensures headers == g.headers && timeout == g.timeout
      ensures proxy == if g.proxy == [] then None else Some(g.proxy)
    {
      headers, timeout := g.headers, g.timeout;
      proxy := if g.proxy == [] then None else Some(g.proxy);
    }

    /** `SetHeader`: changes only this session's header map, and in it only
        the entry under the canonical name of `k`. */
    method SetHeader(k: ByteSeq, v: ByteSeq)
      modifies this`headers
      ensures headers == HttpHeader.Set(old(headers), k, v)
    {
      headers := HttpHeader.Set(headers, k, v);
    }

    /** `request`: resolve the extras, build the URL, the body and the
        headers, send, and wrap the outcome. It reads the session's headers
        and changes nothing. */
    method Request(m: Method, rawurl: ByteSeq, body: Body, extra: seq<Extra>, lib: Library,
                   send: HttpRequest -> Outcome)
      returns (resp: Response, err: Option<ByteSeq>, sent: HttpRequest)
      ensures BuiltFrom(sent, headers, m, rawurl, body, extra, lib)
      ensures resp == FromOutcome(send(sent))
      ensures err == resp.err
    {
      var params, perCall := ResolveExtras(extra);
      var url := rawurl;
      if params.MapOf? {
        var q := CopyToValues(params.entries);
        var sep := if Question in rawurl then Ampersand else Question;
        url := url + [sep] + lib.encode(q);
      }
      var payload, contentType := EncodeBodyStep(body, lib);
      var header := AssembleHeaders(headers, perCall.Entries(), contentType);
      sent := HttpRequest(m, url, payload, header);
      var outcome := send(sent);
      resp := FromOutcome(outcome);
      err := if outcome.TransportError? then Some(outcome.reason) else None;
    }

    /** `do`: `request` with its error dropped; the Response still carries it. */
    method Do(m: Method, rawurl: ByteSeq, body: Body, extra: seq<Extra>, lib: Library,
              send: HttpRequest -> Outcome)
      returns (resp: Response, sent: HttpRequest)
      ensures BuiltFrom(sent, headers, m, rawurl, body, extra, lib)
      ensures resp == FromOutcome(send(sent))
    {
      var err;
      resp, err, sent := Request(m, rawurl, body, extra, lib, send);
    }

    /** `Get` sends no body, so no automatic Content-Type either. */
    method Get(u: ByteSeq, extra: seq<Extra>, lib: Library, send: HttpRequest -> Outcome)
      returns (resp: Response, sent: HttpRequest)
      ensures sent.verb == GET && sent.payload.None?
      ensures BuiltFrom(sent, headers, GET, u, NoBody, extra, lib)
      ensures Assembled(headers, Effective(extra, HeadersKind).Entries(), [], sent.header)
      ensures resp == FromOutcome(send(sent))
    {
      resp, sent := Do(GET, u, NoBody, extra, lib, send);
    }

    method Post(u: ByteSeq, data: Body, extra: seq<Extra>, lib: Library, send: HttpRequest -> Outcome)
      returns (resp: Response, sent: HttpRequest)
      ensures sent.verb == POST
      ensures BuiltFrom(sent, headers, POST, u, data, extra, lib)
      ensures resp == FromOutcome(send(sent))
    {
      resp, sent := Do(POST, u, data, extra, lib, send);
    }

    method Put(u: ByteSeq, data: Body, extra: seq<Extra>, lib: Library, send: HttpRequest -> Outcome)
      returns (resp: Response, sent: HttpRequest)
      ensures sent.verb == PUT
      ensures BuiltFrom(sent, headers, PUT, u, data, extra, lib)
      ensures resp == FromOutcome(send(sent))
    {
      resp, sent := Do(PUT, u, data, extra, lib, send);
    }

    method Delete(u: ByteSeq, data: Body, extra: seq<Extra>, lib: Library, send: HttpRequest -> Outcome)
      returns (resp: Response, sent: HttpRequest)
      ensures sent.verb == DELETE
      ensures BuiltFrom(sent, headers, DELETE, u, data, extra, lib)
      ensures resp == FromOutcome(send(sent))
    {
      resp, sent := Do(DELETE, u, data, extra, lib, send);
    }
  }

  /** The package-level `do`: a fresh session over a copy of the global
      headers, used once. */
  method Do(g: Defaults, m: Method, u: ByteSeq, body: Body, extra: seq<Extra>, lib: Library,
            send: HttpRequest -> Outcome)
    returns (resp: Response, sent: HttpRequest)
    ensures BuiltFrom(sent, g.headers, m, u, body, extra, lib)
    ensures resp == FromOutcome(send(sent))
  {
    var s := new Session(g);
    s.headers := g.headers;
    var err;
    resp, err, sent := s.Request(m, u, body, extra, lib, send);
  }

  method Get(g: Defaults, u: ByteSeq, extra: seq<Extra>, lib: Library, send: HttpRequest -> Outcome)
    returns (resp: Response, sent: HttpRequest)
    ensures sent.verb == GET && sent.payload.None?
    ensures BuiltFrom(sent, g.headers, GET, u, NoBody, extra, lib)
    ensures resp == FromOutcome(send(sent))
  {
    resp, sent := Do(g, GET, u, NoBody, extra, lib, send);
  }

  method Post(g: Defaults, u: ByteSeq, data: Body, extra: seq<Extra>, lib: Library, send: HttpRequest -> Outcome)
    returns (resp: Response, sent: HttpRequest)
    ensures sent.verb == POST
    ensures BuiltFrom(sent, g.headers, POST, u, data, extra, lib)
    ensures resp == FromOutcome(send(sent))
  {
    resp, sent := Do(g, POST, u, data, extra, lib, send);
  }

  method Put(g: Defaults, u: ByteSeq, data: Body, extra: seq<Extra>, lib: Library, send: HttpRequest -> Outcome)
    returns (resp: Response, sent: HttpRequest)
    ensures sent.verb == PUT
    ensures BuiltFrom(sent, g.headers, PUT, u, data, extra, lib)
    ensures resp == FromOutcome(send(sent))
  {
    resp, sent := Do(g, PUT, u, data, extra, lib, send);
  }

  method Delete(g: Defaults, u: ByteSeq, data: Body, extra: seq<Extra>, lib: Library, send: HttpRequest -> Outcome)
    returns (resp: Response, sent: HttpRequest)
    ensures sent.verb == DELETE
    ensures BuiltFrom(sent, g.headers, DELETE, u, data, extra, lib)
    ensures resp == FromOutcome(send(sent))
  {
    resp, sent := Do(g, DELETE, u, data, extra, lib, send);
  }

  /** The automatic Content-Type reaches the wire whenever neither the
      session nor the per-call headers name one: `application/json` for a
      JSON body, `application/x-www-form-urlencoded` for a form body. */
  lemma SentContentType(sent: HttpRequest, base: HttpHeader.Header, m: Method, rawurl: ByteSeq,
                        body: Body, extra: seq<Extra>, lib: Library)
    requires BuiltFrom(sent, base, m, rawurl, body, extra, lib)
    requires HttpHeader.Get(base, HttpHeader.ContentType) == []
    requires HttpHeader.ContentType !in CanonNames(Effective(extra, HeadersKind).Entries())
    ensures HttpHeader.Get(sent.header, HttpHeader.ContentType) == EncodeBody(body, lib).contentType
    ensures (body.J? || body.AnyMap?) ==> HttpHeader.Get(sent.header, HttpHeader.ContentType) == ApplicationJson
    ensures (body.F? || body.StringMap?) ==> HttpHeader.Get(sent.header, HttpHeader.ContentType) == FormUrlEncoded
  {
    AssembledHeaders(base, Effective(extra, HeadersKind).Entries(), EncodeBody(body, lib).contentType, sent.header);
  }

  /** A header set on a session reaches every request of that session, and
      sending a request leaves the session's headers as they were. */
  method SessionHeaderIsSent(s: Session, k: ByteSeq, v: ByteSeq, u: ByteSeq, lib: Library,
                             send: HttpRequest -> Outcome)
    returns (sent: HttpRequest)
    modifies s
    ensures HttpHeader.Get(sent.header, k) == v
    ensures s.headers == HttpHeader.Set(old(s.headers), k, v)
  {
    s.SetHeader(k, v);
    var before := s.headers;
    var resp;
    resp, sent := s.Get(u, [], lib, send);
    assert s.headers == before;
    assert CanonNames(map[]) == {};
    HttpHeader.ContentTypeIsCanonical();
    AssembledHeaders(s.headers, map[], [], sent.header);
  }

  /** A shortcut `Get(url, P{k: v}, H{hk: hv})` on a URL without a query:
      the parameters become the whole query and the header is sent with
      its value. */
  method ParamsAndHeaderAreSent(g: Defaults, u: ByteSeq, k: ByteSeq, v: ByteSeq, hk: ByteSeq, hv: ByteSeq,
                                lib: Library, send: HttpRequest -> Outcome)
    returns (sent: HttpRequest)
    requires Question !in u
    ensures QueryOf(sent.url) == lib.encode(map[k := [v]])
    ensures HttpHeader.Get(sent.header, hk) == hv
  {
    var extra := [Params(MapOf(map[k := v])), Headers(MapOf(map[hk := hv]))];
    var resp;
    resp, sent := Get(g, u, extra, lib, send);
    assert extra[..1] == [extra[0]];
    assert Effective(extra, ParamsKind) == MapOf(map[k := v]);
    assert Effective(extra, HeadersKind) == MapOf(map[hk := hv]);
    AppendedQuery(u, map[k := v], lib);
    assert AsValues(map[k := v]) == map[k := [v]];
    ghost var p := map[hk := hv];
    assert CanonInjective(p);
    HttpHeader.ContentTypeIsCanonical();
    AssembledHeaders(g.headers, p, [], sent.header);
    assert hk in p;
  }
}
