/**
 * JSON as it crosses the HTTP boundary: the scalar fields a client puts in a
 * request body, and the documents the handlers send back.
 */
module Json {

  /**
   * A scalar field of a request body. A key the client left out is absent
   * from the body map; an explicit JSON `null` is `Null`.
   */
  datatype Value = Null | Text(s: string) | Number(n: int)

  /** A JSON document produced by serialisation. */
  datatype Json =
    | JNull
    | JInt(i: int)
    | JStr(s: string)
    | JArr(items: seq<Json>)
    | JObj(fields: seq<Field>)

  /** One member of a JSON object. */
  datatype Field = Field(key: string, val: Json)

  /** The JSON form of a request value that was stored and is echoed back. */
  function FromValue(v: Value): Json {
    match v
    case Null => JNull
    case Text(s) => JStr(s)
    case Number(n) => JInt(n)
  }

  /** Python truthiness of a request value, as `if x:` and `not x` read it. */
  predicate Truthy(v: Value) {
    match v
    case Null => false
    case Text(s) => s != ""
    case Number(n) => n != 0
  }

  /** `k` is the key of some object member at any depth inside `j`. */
  predicate Mentions(j: Json, k: string) {
    match j
    case JArr(xs) => exists i :: 0 <= i < |xs| && Mentions(xs[i], k)
    case JObj(fs) => exists i :: 0 <= i < |fs| && (fs[i].key == k || Mentions(fs[i].val, k))
    case _ => false
  }

  /** `j` is an object with a top-level member named `k`. */
  predicate HasKey(j: Json, k: string) {
    j.JObj? && exists i :: 0 <= i < |j.fields| && j.fields[i].key == k
  }
}
