/** The JSON documents that travel between kube-mgmt, the Kubernetes API and
    OPA. Numbers are kept as integers: no modelled operation computes with a
    floating-point value, and the objects themselves are treated as opaque. */
module Json {

  datatype Json =
    | Null
    | Bool(b: bool)
    | Num(n: int)
    | Str(s: string)
    | Arr(items: seq<Json>)
    | Obj(fields: map<string, Json>)

  /** The empty JSON object `{}`. */
  const EmptyObject: Json := Obj(map[])
}
