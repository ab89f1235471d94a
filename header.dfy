/** `http.Header`: a map from canonical header names to value lists, with
    the `Set`/`Get` pair that canonicalises the name they are given. Header
    names are case-insensitive (section 5.1 of RFC 9110); the map achieves
    that by storing every name in one canonical spelling. */
module HttpHeader {
  import opened GoTypes

  type Header = map<ByteSeq, seq<ByteSeq>>

  const Hyphen: byte := 45

  /** The token characters of section 5.6.2 of RFC 9110, the only bytes a
      canonicalisable header name may contain. */
  predicate IsTokenByte(c: byte) {
    || c == 33 || (35 <= c <= 39) || c == 42 || c == 43 || c == 45 || c == 46
    || (48 <= c <= 57) || (65 <= c <= 90) || (94 <= c <= 122) || c == 124 || c == 126
  }

  predicate AllTokens(s: ByteSeq) {
    forall i | 0 <= i < |s| :: IsTokenByte(s[i])
  }

  predicate IsUpper(c: byte) { 65 <= c <= 90 }
  predicate IsLower(c: byte) { 97 <= c <= 122 }

  /** ASCII lower-casing of one byte, used to say "equal up to case". */
  function Lower(c: byte): byte {
    if IsUpper(c) then c + 32 else c
  }

  /** The case a letter gets in canonical form: upper after the start or a
      hyphen, lower elsewhere; other bytes are kept. */
  function Adjust(c: byte, upper: bool): byte {
    if upper && IsLower(c) then c - 32
    else if !upper && IsUpper(c) then c + 32
    else c
  }

  function FoldFrom(s: ByteSeq, upper: bool): (r: ByteSeq)
    ensures SameUpToCase(s, r)
  {
    if s == [] then []
    else
      var t := FoldFrom(s[1..], s[0] == Hyphen);
      assert forall i | 1 <= i < |s| :: Lower(s[i]) == Lower(t[i - 1]) by {
        forall i | 1 <= i < |s| ensures Lower(s[i]) == Lower(t[i - 1]) {
          assert s[1..][i - 1] == s[i];
        }
      }
      [Adjust(s[0], upper)] + t
  }

  /** `textproto.CanonicalMIMEHeaderKey`, the key canonicalisation
      `Header.Set` and `Header.Get` apply: a name made only of token bytes
      gets its first letter and every letter after a hyphen upper-cased and
      the rest lower-cased; any other name is used as it is. */
  function Canon(k: ByteSeq): (r: ByteSeq)
    ensures SameUpToCase(k, r)
    ensures !AllTokens(k) ==> r == k
  {
    if AllTokens(k) then FoldFrom(k, true) else k
  }

  lemma {:induction false} FoldFromKeepsTokens(s: ByteSeq, upper: bool)
    requires AllTokens(s)
    ensures AllTokens(FoldFrom(s, upper))
  {
    if s != [] {
      FoldFromKeepsTokens(s[1..], s[0] == Hyphen);
      var r := FoldFrom(s, upper);
      assert r == [Adjust(s[0], upper)] + FoldFrom(s[1..], s[0] == Hyphen);
      forall i | 0 <= i < |r| ensures IsTokenByte(r[i]) {
        if i > 0 { assert r[i] == FoldFrom(s[1..], s[0] == Hyphen)[i - 1]; }
      }
    }
  }

  lemma {:induction false} FoldFromIdempotent(s: ByteSeq, upper: bool)
    ensures FoldFrom(FoldFrom(s, upper), upper) == FoldFrom(s, upper)
  {
    if s != [] {
      var r := FoldFrom(s, upper);
      assert r[0] == Adjust(s[0], upper) && r[1..] == FoldFrom(s[1..], s[0] == Hyphen);
      assert (r[0] == Hyphen) == (s[0] == Hyphen);
      FoldFromIdempotent(s[1..], s[0] == Hyphen);
    }
  }

  /** Canonicalising twice changes nothing: a canonical name is its own
      canonical form. */
  lemma CanonIdempotent(k: ByteSeq)
    ensures Canon(Canon(k)) == Canon(k)
  {
    if AllTokens(k) {
      FoldFromKeepsTokens(k, true);
      FoldFromIdempotent(k, true);
    }
  }

  predicate SameUpToCase(a: ByteSeq, b: ByteSeq) {
    |a| == |b| && forall i | 0 <= i < |a| :: Lower(a[i]) == Lower(b[i])
  }

  lemma {:induction false} FoldFromIgnoresCase(a: ByteSeq, b: ByteSeq, upper: bool)
    requires SameUpToCase(a, b)
    ensures FoldFrom(a, upper) == FoldFrom(b, upper)
  {
    if a != [] {
      assert Lower(a[0]) == Lower(b[0]);
      assert (a[0] == Hyphen) == (b[0] == Hyphen);
      assert SameUpToCase(a[1..], b[1..]) by {
        forall i | 0 <= i < |a| - 1 ensures Lower(a[1..][i]) == Lower(b[1..][i]) {
          assert Lower(a[i + 1]) == Lower(b[i + 1]);
        }
      }
      FoldFromIgnoresCase(a[1..], b[1..], a[0] == Hyphen);
    }
  }

  /** Two token names that differ only in the case of their letters have
      the same canonical form, so they name the same header. */
  lemma CanonIgnoresCase(a: ByteSeq, b: ByteSeq)
    requires AllTokens(a) && SameUpToCase(a, b)
    ensures Canon(a) == Canon(b)
  {
    assert AllTokens(b) by {
      forall i | 0 <= i < |b| ensures IsTokenByte(b[i]) {
        assert Lower(a[i]) == Lower(b[i]) && IsTokenByte(a[i]);
      }
    }
    FoldFromIgnoresCase(a, b, true);
  }

  /** `Header.Set(k, v)`: the entry under the canonical name becomes the
      single value `v`; every other entry is kept. */
  function Set(h: Header, k: ByteSeq, v: ByteSeq): (r: Header)
    ensures r.Keys == h.Keys + {Canon(k)}
    ensures r[Canon(k)] == [v]
    ensures forall n | n in h && n != Canon(k) :: r[n] == h[n]
  {
    h[Canon(k) := [v]]
  }

  /** `Header.Get(k)`: the first value under the canonical name, or the
      empty string when there is none. */
  function Get(h: Header, k: ByteSeq): (g: ByteSeq)
    ensures Canon(k) !in h ==> g == []
    ensures Canon(k) in h && h[Canon(k)] != [] ==> g == h[Canon(k)][0]
    ensures Canon(k) in h && h[Canon(k)] == [] ==> g == []
  {
    if Canon(k) in h && |h[Canon(k)]| > 0 then h[Canon(k)][0] else []
  }

  /** Reading back after `Set`: the value just set under any spelling of
      the same name, the old value under any other name. */
  lemma GetAfterSet(h: Header, k: ByteSeq, v: ByteSeq, k2: ByteSeq)
    ensures Get(Set(h, k, v), k2) == if Canon(k2) == Canon(k) then v else Get(h, k2)
  {
  }

  /** The stored (canonical) name finds the value again. */
  lemma GetStoredName(h: Header, k: ByteSeq, v: ByteSeq)
    ensures Canon(k) in Set(h, k, v) && Get(Set(h, k, v), Canon(k)) == v
  {
    CanonIdempotent(k);
  }

  /** `Get` does not depend on the case of a token name. */
  lemma GetIgnoresCase(h: Header, a: ByteSeq, b: ByteSeq)
    requires AllTokens(a) && SameUpToCase(a, b)
    ensures Get(h, a) == Get(h, b)
  {
    CanonIgnoresCase(a, b);
  }

  const ContentType: ByteSeq := Ascii("Content-Type")

  /** "Content-Type" is already canonical, so `Set` stores it under that
      spelling. */
  lemma ContentTypeIsCanonical()
    ensures Canon(ContentType) == ContentType
  {
    var s := ContentType;
    assert s == [67, 111, 110, 116, 101, 110, 116, 45, 84, 121, 112, 101];
    assert AllTokens(s);
    FoldFromFixed(s, true);
  }

  /** A name already in the case `FoldFrom` gives it is left as it is. */
  lemma {:induction false} FoldFromFixed(s: ByteSeq, upper: bool)
    requires |s| > 0 ==> Adjust(s[0], upper) == s[0]
    requires forall i | 1 <= i < |s| :: Adjust(s[i], s[i - 1] == Hyphen) == s[i]
    ensures FoldFrom(s, upper) == s
  {
    if s != [] {
      var t := s[1..];
      forall i | 1 <= i < |t| ensures Adjust(t[i], t[i - 1] == Hyphen) == t[i] {
        assert t[i] == s[i + 1] && t[i - 1] == s[i];
      }
      if |t| > 0 {
        assert Adjust(s[1], s[0] == Hyphen) == s[1];
      }
      FoldFromFixed(t, s[0] == Hyphen);
    }
  }
}
