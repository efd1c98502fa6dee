// JSON values as the operator sees them after decoding.

module Json {
  // A decoded JSON document. Numbers are exact; the order of object members
  // is not observable, as in a Go map.
  datatype Json =
    | Null
    | Bool(b: bool)
    | Num(n: real)
    | Str(s: string)
    | Arr(items: seq<Json>)
    | Obj(fields: map<string, Json>)

  type Fields = map<string, Json>

  // Strings, booleans, numbers and null: everything without children.
  predicate Scalar(v: Json)
  {
    !v.Arr? && !v.Obj?
  }

  // A key that is absent and a key that holds null are the same to a reader
  // that only looks at the value.
  predicate Missing(m: Fields, k: string)
  {
    k !in m || m[k].Null?
  }
}
