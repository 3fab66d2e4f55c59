/**
  Abstract JSON values and the byte-level codec.

  The byte grammar of JSON is not modelled: parsing and serialising are
  functions supplied by the caller (a `Codec`), and only their results,
  values of the `Json` datatype, are looked at.
 */
module Json {
  import opened Wrappers

  newtype byte = b: int | 0 <= b < 256

  /** A request body or an environment variable, as raw bytes. */
  type Bytes = seq<byte>

  /**
    A decoded JSON document. A number keeps the literal text it was
    written with; an object is a map from member names to values.
   */
  datatype Json =
    | JNull
    | JBool(b: bool)
    | JNumber(literal: string)
    | JString(s: string)
    | JArray(items: seq<Json>)
    | JObject(fields: map<string, Json>)

  /**
    The JSON codec: `unmarshal` is `None` when the bytes are not a JSON
    document, `marshal` is `None` when a value cannot be serialised.
   */
  datatype Codec = Codec(unmarshal: Bytes -> Option<Json>, marshal: Json -> Option<Bytes>)

  /**
    Every value serialises, and parsing the serialisation gives back the
    value that was serialised.
   */
  ghost predicate RoundTrips(codec: Codec)
  {
    forall j :: codec.marshal(j).Some? && codec.unmarshal(codec.marshal(j).value) == Some(j)
  }

  /** A Go `map[string]string` as the JSON object it serialises to. */
  function StringObject(m: map<string, string>): Json
  {
    JObject(map k | k in m :: JString(m[k]))
  }
}
