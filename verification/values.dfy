/** Python-level values that the request handlers branch on: `None`,
    truthiness of an optional string, and how an f-string renders one. */
module Values {

  /** A Python value that may be `None`. */
  datatype Option<+T> = None | Some(value: T)

  /** Python truthiness of an optional string: `None` and `""` are falsy. */
  predicate Truthy(o: Option<string>) {
    o.Some? && o.value != ""
  }

  /** How `f"{x}"` renders an optional string: `None` prints as `None`. */
  function Show(o: Option<string>): (r: string)
    ensures o.Some? ==> r == o.value
    ensures o.None? ==> r == "None"
  {
    match o
    case Some(s) => s
    case None => "None"
  }

  /** `dict.get(key)`: the value under `key`, or `None`. */
  function Get<K, V>(data: map<K, V>, key: K): (r: Option<V>)
    ensures r.Some? <==> key in data
    ensures r.Some? ==> r.value == data[key]
  {
    if key in data then Some(data[key]) else None
  }
}
