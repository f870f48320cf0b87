/** The loosely-typed values that a parsed per-chunk JSON record may hold. */
module Json {

  datatype Option<+T> = None | Some(value: T)

  /** One field value of a decoded JSON object, as Python sees it after json.loads.
      Objects nested below the top level are never inspected by the aggregator,
      so they are folded into OtherVal. */
  datatype Value =
    | NullVal
    | BoolVal(b: bool)
    | IntVal(i: int)
    | FloatVal(f: real)
    | StrVal(s: string)
    | ListVal(items: seq<Value>)
    | OtherVal

  /** Python's dict.get(key): the stored value, or None when the key is absent. */
  function Get(m: map<string, Value>, key: string): Value
  {
    if key in m then m[key] else NullVal
  }
}
