/** The header step of `request`: start from a copy of the session's
    headers, `Set` every per-call header over it, then add the automatic
    Content-Type only when `Content-Type` is still empty. Go walks a map in
    an unspecified order, so when two per-call names share a canonical form
    either value may win; the specification below is a relation for that
    reason. */
module Assembly {
  import opened GoTypes
  import opened HttpHeader

  /** The canonical names the per-call headers are stored under. */
  function CanonNames(p: map<ByteSeq, ByteSeq>): set<ByteSeq> {
    set k | k in p :: Canon(k)
  }

  /** No two per-call names are spellings of the same header. */
  predicate CanonInjective(p: map<ByteSeq, ByteSeq>) {
    forall k1, k2 | k1 in p && k2 in p && Canon(k1) == Canon(k2) :: k1 == k2
  }

  /** `vs` is what `Set` stores for one of the per-call headers whose
      canonical name is `n`. */
  ghost predicate SetByOneOf(p: map<ByteSeq, ByteSeq>, n: ByteSeq, vs: seq<ByteSeq>) {
    exists k | k in p && Canon(k) == n :: vs == [p[k]]
  }

  /** `h` is `base` after `Set(k, p[k])` for every per-call header `k`, in
      some order: the names are those of `base` and the canonical per-call
      names; a per-call name holds the value of one of the per-call headers
      spelled like it; every other name keeps its `base` values. */
  ghost predicate OverridesApplied(base: Header, p: map<ByteSeq, ByteSeq>, h: Header) {
    && h.Keys == base.Keys + CanonNames(p)
    && (forall n | n in CanonNames(p) :: n in h && SetByOneOf(p, n, h[n]))
    && (forall n | n in base && n !in CanonNames(p) :: h[n] == base[n])
  }

  /** One more `Set` keeps the relation, with the header added to those
      applied. */
  lemma OverrideStep(base: Header, p: map<ByteSeq, ByteSeq>, h: Header, k: ByteSeq, v: ByteSeq)
    requires OverridesApplied(base, p, h)
    ensures OverridesApplied(base, p[k := v], Set(h, k, v))
  {
    var p', h' := p[k := v], Set(h, k, v);
    CanonNamesUpdate(p, k, v);
    forall n | n in CanonNames(p') ensures n in h' && SetByOneOf(p', n, h'[n]) {
      if n == Canon(k) {
        assert h'[n] == [p'[k]];
      } else {
        SetByOneOfOther(p, k, v, n, h[n]);
      }
    }
  }

  /** Adding a per-call header adds its canonical name. */
  lemma CanonNamesUpdate(p: map<ByteSeq, ByteSeq>, k: ByteSeq, v: ByteSeq)
    ensures CanonNames(p[k := v]) == CanonNames(p) + {Canon(k)}
  {
  }

  /** Adding a per-call header under another canonical name keeps the
      witness of every other name. */
  lemma SetByOneOfOther(p: map<ByteSeq, ByteSeq>, k: ByteSeq, v: ByteSeq, n: ByteSeq, vs: seq<ByteSeq>)
    requires n != Canon(k) && SetByOneOf(p, n, vs)
    ensures SetByOneOf(p[k := v], n, vs)
  {
  }

  /** The automatic Content-Type step: `Set` it only when there is one and
      `Get` finds no Content-Type yet. */
  function WithAutoContentType(h: Header, ct: ByteSeq): (r: Header)
    ensures ct == [] ==> r == h
    ensures Get(h, ContentType) != [] ==> r == h
    ensures ct != [] && Get(h, ContentType) == [] ==> Canon(ContentType) in r && r[Canon(ContentType)] == [ct]
  {
    if ct != [] && Get(h, ContentType) == [] then Set(h, ContentType, ct) else h
  }

  /** The whole step, as a relation between the session headers, the
      per-call headers, the automatic Content-Type and the result. */
  ghost predicate Assembled(base: Header, p: map<ByteSeq, ByteSeq>, ct: ByteSeq, h: Header) {
    exists mid :: OverridesApplied(base, p, mid) && h == WithAutoContentType(mid, ct)
  }

  /** `req.Header = s.headers.Clone()`, the `Set` loop and the conditional
      `Set` of Content-Type. */
  method AssembleHeaders(base: Header, perCall: map<ByteSeq, ByteSeq>, ct: ByteSeq) returns (h: Header)
    ensures Assembled(base, perCall, ct, h)
  {
    h := base;
    var todo := perCall.Keys;
    ghost var done: map<ByteSeq, ByteSeq> := map[];
    assert CanonNames(done) == {};
    while todo != {}
      invariant todo <= perCall.Keys
      invariant done.Keys == perCall.Keys - todo
      invariant forall k | k in done :: done[k] == perCall[k]
      invariant OverridesApplied(base, done, h)
      decreases todo
    {
      var k :| k in todo;
      OverrideStep(base, done, h, k, perCall[k]);
      h := Set(h, k, perCall[k]);
      done := done[k := perCall[k]];
      todo := todo - {k};
    }
    assert done == perCall;
    ghost var mid := h;
    if ct != [] && Get(h, ContentType) == [] {
      h := Set(h, ContentType, ct);
    }
    assert OverridesApplied(base, perCall, mid) && h == WithAutoContentType(mid, ct);
  }

  /** The result of `OverridesApplied` is unique when no two per-call names
      collide: the walk order then does not matter. */
  lemma OverridesDetermined(base: Header, p: map<ByteSeq, ByteSeq>, h1: Header, h2: Header)
    requires CanonInjective(p)
    requires OverridesApplied(base, p, h1) && OverridesApplied(base, p, h2)
    ensures h1 == h2
  {
  }

  /** Content-Type after the automatic step: the one already there when it
      is not empty, the automatic one otherwise; all other names keep
      their values. */
  lemma AutoContentType(h: Header, ct: ByteSeq)
    ensures Get(WithAutoContentType(h, ct), ContentType)
              == if Get(h, ContentType) != [] then Get(h, ContentType) else ct
    ensures WithAutoContentType(h, ct).Keys == h.Keys + (if ct != [] then {ContentType} else {})
    ensures forall n | n in h && n != ContentType :: WithAutoContentType(h, ct)[n] == h[n]
  {
    ContentTypeIsCanonical();
  }

  /** What the request carries:
      - every per-call header other than Content-Type holds the value of
        one of the per-call headers spelled like it, and its own value when
        no two per-call names collide;
      - every other session header is carried over unchanged;
      - Content-Type is the per-call one if given, else the session's, and
        the automatic one only where that is missing or empty;
      - there are no other names. */
  lemma AssembledHeaders(base: Header, p: map<ByteSeq, ByteSeq>, ct: ByteSeq, h: Header)
    requires Assembled(base, p, ct, h)
    ensures forall k | k in p && Canon(k) != ContentType :: SetByOneOf(p, Canon(k), h[Canon(k)])
    ensures CanonInjective(p) ==> forall k | k in p && Canon(k) != ContentType :: h[Canon(k)] == [p[k]]
    ensures forall n | n in base && n !in CanonNames(p) && n != ContentType :: h[n] == base[n]
    ensures CanonInjective(p) ==> forall k | k in p && Canon(k) == ContentType ::
              Get(h, ContentType) == if p[k] != [] then p[k] else ct
    ensures ContentType !in CanonNames(p) ==>
              Get(h, ContentType) == if Get(base, ContentType) != [] then Get(base, ContentType) else ct
    ensures h.Keys == base.Keys + CanonNames(p) + (if ct != [] then {ContentType} else {})
  {
    var mid :| OverridesApplied(base, p, mid) && h == WithAutoContentType(mid, ct);
    AutoContentType(mid, ct);
    ContentTypeIsCanonical();
    forall k | k in p && Canon(k) != ContentType ensures SetByOneOf(p, Canon(k), h[Canon(k)]) {
      assert Canon(k) in CanonNames(p);
    }
    if CanonInjective(p) {
      forall k | k in p ensures mid[Canon(k)] == [p[k]] {
        assert Canon(k) in CanonNames(p);
        var k2 :| k2 in p && Canon(k2) == Canon(k) && mid[Canon(k)] == [p[k2]];
      }
    }
    if ContentType !in CanonNames(p) {
      if ContentType in base {
        assert mid[ContentType] == base[ContentType];
      } else {
        assert ContentType !in mid;
      }
    }
  }

  /** Without per-call headers or an automatic Content-Type the request
      carries exactly the session's headers. */
  lemma NothingToAssemble(base: Header, h: Header)
    requires Assembled(base, map[], [], h)
    ensures h == base
  {
  }
}
