/** The query step of `request`: the effective `P` map is copied into
    `url.Values`, form-encoded, and appended to the URL after `?` or `&`. */
module Query {
  import opened GoTypes

  const Question: byte := 63
  const Ampersand: byte := 38

  /** The `url.Values` that `q.Set(k, v)` for every entry builds: each key
      holds exactly its one value. */
  function AsValues(m: map<ByteSeq, ByteSeq>): (q: Values)
    ensures q.Keys == m.Keys
    ensures forall k | k in m :: q[k] == [m[k]]
  {
    map k | k in m :: [m[k]]
  }

  /** The copying loop `for k, v := range params { q.Set(k, v) }`, in
      whatever order the map is walked. */
  method CopyToValues(m: map<ByteSeq, ByteSeq>) returns (q: Values)
    ensures q == AsValues(m)
  {
    q := map[];
    var todo := m.Keys;
    while todo != {}
      invariant todo <= m.Keys
      invariant q.Keys == m.Keys - todo
      invariant forall k | k in q :: q[k] == [m[k]]
      decreases todo
    {
      var k :| k in todo;
      q := q[k := [m[k]]];
      todo := todo - {k};
    }
  }

  /** The separator goes before the new parameters: `&` when the URL
      already has a query, `?` otherwise. */
  function Separator(rawurl: ByteSeq): (sep: byte)
    ensures sep == Ampersand <==> Question in rawurl
    ensures sep == Question <==> Question !in rawurl
  {
    if Question in rawurl then Ampersand else Question
  }

  /** The URL a request goes to: unchanged when no `P` (or a nil `P`) was
      supplied; otherwise the original URL, the separator and the encoded
      parameters. A non-nil empty `P` still gets its separator. */
  function AppendQuery(rawurl: ByteSeq, params: GoMap<ByteSeq>, lib: Library): (u: ByteSeq)
    ensures params.NilMap? ==> u == rawurl
    ensures params.MapOf? ==> u == rawurl + [Separator(rawurl)] + lib.encode(AsValues(params.entries))
  {
    if params.NilMap? then rawurl
    else rawurl + [Separator(rawurl)] + lib.encode(AsValues(params.entries))
  }

  /** The original URL is always kept as a prefix, and a URL that received
      parameters always has a query. */
  lemma AppendQueryExtends(rawurl: ByteSeq, params: GoMap<ByteSeq>, lib: Library)
    ensures rawurl <= AppendQuery(rawurl, params, lib)
    ensures params.MapOf? ==> Question in AppendQuery(rawurl, params, lib)
  {
  }

  /** With a `url.Values.Encode` that gives nothing for no values, an empty
      non-nil `P` appends a bare separator. */
  lemma EmptyParamsBareSeparator(rawurl: ByteSeq, lib: Library)
    requires EncodesEmptyAsEmpty(lib)
    ensures AppendQuery(rawurl, MapOf(map[]), lib) == rawurl + [Separator(rawurl)]
  {
  }

  /** What follows the first `?` of a URL, empty when there is none. For a
      URL without a `#` this is its query component; in a URL whose `#`
      comes first it is text inside the fragment. */
  function QueryOf(u: ByteSeq): ByteSeq {
    if u == [] then []
    else if u[0] == Question then u[1..]
    else QueryOf(u[1..])
  }

  lemma {:induction false} QueryOfConcat(a: ByteSeq, t: ByteSeq)
    ensures QueryOf(a + t) == if Question in a then QueryOf(a) + t else QueryOf(t)
  {
    if a == [] {
      assert a + t == t;
    } else {
      assert (a + t)[0] == a[0] && (a + t)[1..] == a[1..] + t;
      if a[0] == Question {
        assert Question in a;
      } else {
        assert (Question in a) == (Question in a[1..]);
        QueryOfConcat(a[1..], t);
      }
    }
  }

  /** Where the parameters land: what follows the first `?` of the new URL
      is the encoded parameters, after what followed it in the old URL and
      an `&` when there was one. */
  lemma AppendedQuery(rawurl: ByteSeq, m: map<ByteSeq, ByteSeq>, lib: Library)
    ensures var enc := lib.encode(AsValues(m));
      QueryOf(AppendQuery(rawurl, MapOf(m), lib))
        == if Question in rawurl then QueryOf(rawurl) + [Ampersand] + enc else enc
  {
    var enc := lib.encode(AsValues(m));
    var sep := Separator(rawurl);
    assert AppendQuery(rawurl, MapOf(m), lib) == rawurl + ([sep] + enc);
    QueryOfConcat(rawurl, [sep] + enc);
    if Question !in rawurl {
      assert ([sep] + enc)[1..] == enc;
    }
  }
}
