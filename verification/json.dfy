/** The JSON side of the envelope: a value as `json.dumps` receives it,
    Python's truth test on it, and the bytes the encoder puts in the JSON
    section. The serializer itself (`json.dumps` followed by
    `.encode('utf-8')`) is not modelled and is passed in as `dumps`. */
module Json {
  import opened StructPack

  /** A JSON-serializable Python value. Dict fields keep insertion order. */
  datatype Value =
    | Null
    | Bool(b: bool)
    | Int(i: int)
    | Real(x: real)
    | Str(s: string)
    | Array(items: seq<Value>)
    | Object(fields: seq<(string, Value)>)

  /** Python's truth value of `v`: None, False, zero, and empty strings,
      lists and dicts are false. */
  predicate Truthy(v: Value) {
    match v
    case Null => false
    case Bool(b) => b
    case Int(i) => i != 0
    case Real(x) => x != 0.0
    case Str(s) => |s| > 0
    case Array(items) => |items| > 0
    case Object(fields) => |fields| > 0
  }

  /** `json.dumps(json_data).encode('utf-8') if json_data else b''`. */
  function JsonBytes(v: Value, dumps: Value -> seq<byte>): (r: seq<byte>)
    ensures !Truthy(v) ==> r == []
    ensures Truthy(v) ==> r == dumps(v)
  {
    if Truthy(v) then dumps(v) else []
  }
}
