/** Values of a compiled program, as far as patterns and control flow can see them. */
module Values {
  datatype Option<+T> = None | Some(value: T)

  /** A scalar payload: what a scalar box carries in its `.v` field. */
  datatype Lit = Integer(int) | Number(real) | Boolean(bool) | Text(string)

  datatype Value =
    | Undefined
    | Scalar(payload: Lit)
    | Variant(enumName: string, variant: string, fields: map<string, Value>)
    | Record(fields: map<string, Value>)
    | Items(items: seq<Value>)
    | Table(entries: map<Lit, Value>)
    | Callable(name: string)

  const TRUE := Scalar(Boolean(true))
  const FALSE := Scalar(Boolean(false))

  /** The raw boolean that drives a branch. */
  predicate Truthy(v: Value) {
    v == TRUE
  }
}
