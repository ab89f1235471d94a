/** The body step of `request`: the shape of the `body` argument decides the
    payload and the Content-Type to add when none was given. */
module RequestBody {
  import opened GoTypes
  import Query

  /** The shapes the type switch tells apart. `P` and `H` values, and every
      other type, fall into `OtherShape`. A nil `[]byte` is modelled as an
      empty one: both give a zero-length body. */
  datatype Body =
    | NoBody
    | J(j: GoMap<Json>)
    | AnyMap(a: GoMap<Json>)
    | F(f: GoMap<ByteSeq>)
    | StringMap(s: GoMap<ByteSeq>)
    | Text(text: ByteSeq)
    | Raw(bytes: ByteSeq)
    | OtherShape

  const ApplicationJson: ByteSeq := Ascii("application/json")
  const FormUrlEncoded: ByteSeq := Ascii("application/x-www-form-urlencoded")

  /** The payload handed to `http.NewRequest` (`None`: no reader at all)
      and the automatic Content-Type (empty: none). */
  datatype Encoded = Encoded(payload: Option<ByteSeq>, contentType: ByteSeq)

  /** `b, _ := json.Marshal(v)`: the error is dropped, so a value that does
      not marshal gives an empty body. */
  function MarshalOrEmpty(lib: Library, m: GoMap<Json>): ByteSeq {
    match lib.marshal(m)
    case Some(b) => b
    case None => []
  }

  /** The form encoding of a string map, as the `url.Values` copy and
      `Encode` compute it; a nil map encodes like an empty one. */
  function FormOf(lib: Library, m: GoMap<ByteSeq>): ByteSeq {
    lib.encode(Query.AsValues(m.Entries()))
  }

  /** The dispatch table. It is total and its rows are exclusive: JSON maps
      give their JSON text and `application/json`; form maps give their
      form encoding and `application/x-www-form-urlencoded`; strings and
      byte slices are sent as they are with no Content-Type; nil and every
      other shape give neither a body nor a Content-Type. */
  function EncodeBody(body: Body, lib: Library): (e: Encoded)
    ensures e.contentType == ApplicationJson <==> body.J? || body.AnyMap?
    ensures e.contentType == FormUrlEncoded <==> body.F? || body.StringMap?
    ensures e.contentType == [] <==> !(body.J? || body.AnyMap? || body.F? || body.StringMap?)
    ensures e.payload.None? <==> body.NoBody? || body.OtherShape?
    ensures body.J? ==> e.payload == Some(MarshalOrEmpty(lib, body.j))
    ensures body.AnyMap? ==> e.payload == Some(MarshalOrEmpty(lib, body.a))
    ensures body.F? ==> e.payload == Some(FormOf(lib, body.f))
    ensures body.StringMap? ==> e.payload == Some(FormOf(lib, body.s))
    ensures body.Text? ==> e.payload == Some(body.text)
    ensures body.Raw? ==> e.payload == Some(body.bytes)
  {
    match body
    case J(m) => Encoded(Some(MarshalOrEmpty(lib, m)), ApplicationJson)
    case AnyMap(m) => Encoded(Some(MarshalOrEmpty(lib, m)), ApplicationJson)
    case F(m) => Encoded(Some(FormOf(lib, m)), FormUrlEncoded)
    case StringMap(m) => Encoded(Some(FormOf(lib, m)), FormUrlEncoded)
    case Text(s) => Encoded(Some(s), [])
    case Raw(b) => Encoded(Some(b), [])
    case NoBody => Encoded(None, [])
    case OtherShape => Encoded(None, [])
  }

  /** The type switch of `request`, with its copying loops for the form
      shapes. */
  method EncodeBodyStep(body: Body, lib: Library) returns (payload: Option<ByteSeq>, contentType: ByteSeq)
    ensures Encoded(payload, contentType) == EncodeBody(body, lib)
  {
    payload, contentType := None, [];
    match body {
      case J(m) =>
        payload, contentType := Some(MarshalOrEmpty(lib, m)), ApplicationJson;
      case AnyMap(m) =>
        payload, contentType := Some(MarshalOrEmpty(lib, m)), ApplicationJson;
      case F(m) =>
        var f := Query.CopyToValues(m.Entries());
        payload, contentType := Some(lib.encode(f)), FormUrlEncoded;
      case StringMap(m) =>
        var f := Query.CopyToValues(m.Entries());
        payload, contentType := Some(lib.encode(f)), FormUrlEncoded;
      case Text(s) =>
        payload := Some(s);
      case Raw(b) =>
        payload := Some(b);
      case NoBody =>
      case OtherShape =>
    }
  }

  /** The dropped marshal error: a JSON map that does not marshal still
      announces `application/json`, over an empty body. */
  lemma MarshalErrorKeepsJsonType(m: GoMap<Json>, lib: Library)
    requires lib.marshal(m).None?
    ensures EncodeBody(J(m), lib) == Encoded(Some([]), ApplicationJson)
    ensures EncodeBody(AnyMap(m), lib) == Encoded(Some([]), ApplicationJson)
  {
  }
}
