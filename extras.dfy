/** The variadic `extra ...any` arguments of a request. The source tells a
    query-parameter map (`P`) from a per-call header map (`H`) by the
    dynamic type of each argument; here the type is a constructor. */
module Extras {
  import opened GoTypes

  /** One extra argument: a `P` value, an `H` value (either may be a nil
      map), an untyped `nil`, or a value of any other type (including a
      plain `map[string]string`, which is neither `P` nor `H`). */
  datatype Extra = Params(p: GoMap<ByteSeq>) | Headers(h: GoMap<ByteSeq>) | Other | Nil

  datatype Kind = ParamsKind | HeadersKind

  /** The map an extra supplies for `k`, if it is of that kind. */
  function Supplies(e: Extra, k: Kind): Option<GoMap<ByteSeq>> {
    match (e, k)
    case (Params(m), ParamsKind) => Some(m)
    case (Headers(m), HeadersKind) => Some(m)
    case _ => None
  }

  /** The map of kind `k` the request uses: the one supplied last, or the
      nil map the source's variable starts as. */
  function Effective(extra: seq<Extra>, k: Kind): GoMap<ByteSeq> {
    if extra == [] then NilMap
    else match Supplies(extra[|extra| - 1], k)
      case Some(m) => m
      case None => Effective(extra[..|extra| - 1], k)
  }

  /** The loop at the head of `request`: it walks the extras once and keeps
      the last `P` and the last `H` it meets. */
  method ResolveExtras(extra: seq<Extra>) returns (params: GoMap<ByteSeq>, headers: GoMap<ByteSeq>)
    ensures params == Effective(extra, ParamsKind)
    ensures headers == Effective(extra, HeadersKind)
  {
    params, headers := NilMap, NilMap;
    for i := 0 to |extra|
      invariant params == Effective(extra[..i], ParamsKind)
      invariant headers == Effective(extra[..i], HeadersKind)
    {
      assert extra[..i + 1][..i] == extra[..i];
      match extra[i]
      case Params(m) => params := m;
      case Headers(m) => headers := m;
      case _ =>
    }
    assert extra[..|extra|] == extra;
  }

  /** With no extra of kind `k` the map of kind `k` stays nil. */
  lemma {:induction false} EffectiveWhenAbsent(extra: seq<Extra>, k: Kind)
    requires forall i | 0 <= i < |extra| :: Supplies(extra[i], k).None?
    ensures Effective(extra, k) == NilMap
  {
    if extra != [] {
      var init := extra[..|extra| - 1];
      assert forall i | 0 <= i < |init| :: init[i] == extra[i];
      EffectiveWhenAbsent(init, k);
    }
  }

  /** Last-wins, stated without recursion: the map of kind `k` is the one
      supplied by the last extra of kind `k`. */
  lemma {:induction false} EffectiveIsLast(extra: seq<Extra>, k: Kind, i: nat)
    requires i < |extra| && Supplies(extra[i], k).Some?
    requires forall j | i < j < |extra| :: Supplies(extra[j], k).None?
    ensures Effective(extra, k) == Supplies(extra[i], k).value
  {
    if i < |extra| - 1 {
      var init := extra[..|extra| - 1];
      assert init[i] == extra[i];
      assert forall j | i < j < |init| :: init[j] == extra[j];
      EffectiveIsLast(init, k, i);
    }
  }

  /** An untyped nil or a value of another type has no effect wherever it
      stands among the extras. */
  lemma {:induction false} IgnoredExtraHasNoEffect(before: seq<Extra>, e: Extra, after: seq<Extra>, k: Kind)
    requires e.Other? || e.Nil?
    ensures Effective(before + [e] + after, k) == Effective(before + after, k)
  {
    if after == [] {
      assert (before + [e] + after)[..|before|] == before;
      assert before + after == before;
    } else {
      var n := |after| - 1;
      assert (before + [e] + after)[..|before| + 1 + n] == before + [e] + after[..n];
      assert (before + after)[..|before| + n] == before + after[..n];
      IgnoredExtraHasNoEffect(before, e, after[..n], k);
    }
  }

  /** The two kinds do not interfere: supplying headers never changes the
      effective parameters, and the other way round. */
  lemma OtherKindHasNoEffect(extra: seq<Extra>, m: GoMap<ByteSeq>)
    ensures Effective(extra + [Headers(m)], ParamsKind) == Effective(extra, ParamsKind)
    ensures Effective(extra + [Params(m)], HeadersKind) == Effective(extra, HeadersKind)
  {
  }
}
