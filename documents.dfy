/** Decoded YAML/JSON documents, as the state files hold them. */
module Documents {

  datatype Value =
    | Null
    | Bool(b: bool)
    | Int(i: int)
    | Str(s: string)
    | Array(items: seq<Value>)
    | Object(fields: map<string, Value>)

  /** Python's truth test on a decoded value: None, False, 0, "", [] and {} are falsy. */
  predicate Falsy(v: Value) {
    match v
    case Null => true
    case Bool(b) => !b
    case Int(i) => i == 0
    case Str(s) => s == ""
    case Array(items) => items == []
    case Object(fields) => fields == map[]
  }

  const EmptyObject: Value := Object(map[])
}
