/**
 * The shape of what the document store keeps and what the HTTP layer hands
 * over: JSON-like values and documents (field name to value).
 */
module Documents {
  import opened Wrappers

  /** A JSON-like value as the store and the request bodies carry it. */
  datatype Value =
    | Null
    | Str(s: string)
    | Int(i: int)
    | Num(r: real)
    | Bool(b: bool)
    | List(items: seq<Value>)
    | Obj(fields: map<string, Value>)

  /** A stored record or a request body: field name to value. */
  type Doc = map<string, Value>

  /** Reading a field; a missing field reads as `null` (what a `{ f: null }` filter matches). */
  function Field(d: Doc, f: string): Value {
    if f in d then d[f] else Null
  }

  /** JavaScript truthiness of a value (`null`, `false`, `0`, `""` are falsy). */
  predicate Truthy(v: Value) {
    match v
    case Null => false
    case Str(s) => s != ""
    case Int(i) => i != 0
    case Num(r) => r != 0.0
    case Bool(b) => b
    case List(_) => true
    case Obj(_) => true
  }

  /** JavaScript truthiness of an optional string (`undefined`, `null` and `""` are falsy). */
  predicate IsSet(o: Option<string>) {
    o.Some? && o.value != ""
  }
}
