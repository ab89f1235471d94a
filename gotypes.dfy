/** Values shared by every part of the model: Go's byte strings, nil-able
    maps, url.Values, JSON values, and the library functions the package
    calls without this model looking inside them. */
module GoTypes {

  newtype byte = b: int | 0 <= b < 256

  /** A Go `string` and a Go `[]byte` are both byte sequences. */
  type ByteSeq = seq<byte>

  datatype Option<+T> = None | Some(value: T)

  /** A Go map value of type `map[string]V`: nil, or a (possibly empty) map. */
  datatype GoMap<V> = NilMap | MapOf(entries: map<ByteSeq, V>) {
    /** What a `for k, v := range m` visits: nothing for a nil map. */
    function Entries(): map<ByteSeq, V> {
      if NilMap? then map[] else entries
    }
  }

  /** `url.Values`: every key holds a list of values. */
  type Values = map<ByteSeq, seq<ByteSeq>>

  /** A value that may appear inside a `map[string]any` JSON body. */
  datatype Json =
    | JNull
    | JBool(b: bool)
    | JNumber(n: int)
    | JString(s: ByteSeq)
    | JArray(items: seq<Json>)
    | JObject(fields: map<ByteSeq, Json>)
      /** A value `json.Marshal` rejects: a channel, a function, NaN. */
    | JUnsupported

  /** `url.Values.Encode` and `json.Marshal`, left uninterpreted: every
      property of the model holds whatever these functions compute. A
      marshal error is `None`. */
  datatype Library = Library(encode: Values -> ByteSeq, marshal: GoMap<Json> -> Option<ByteSeq>)

  /** The documented behaviour of `url.Values.Encode` on no values. */
  predicate EncodesEmptyAsEmpty(lib: Library) {
    lib.encode(map[]) == []
  }

  /** An ASCII literal as the bytes Go stores for it. */
  function Ascii(s: string): (r: ByteSeq)
    requires forall i | 0 <= i < |s| :: s[i] as int < 128
    ensures |r| == |s|
    ensures forall i | 0 <= i < |s| :: r[i] as int == s[i] as int
  {
    seq(|s|, i requires 0 <= i < |s| => s[i] as int as byte)
  }
}
