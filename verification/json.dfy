/**
 * JSON values as the Go and JavaScript sides exchange them. Objects are maps
 * from member names to values; the textual form (spacing, member order,
 * escapes) is not modelled. Integers and fractional numbers are kept apart:
 * `Real` carries a float64 value as an exact rational number.
 */
module Json {
  import opened Wrappers

  datatype Value =
    | Null
    | Bool(b: bool)
    | Num(n: int)
    | Real(r: real)
    | Str(s: string)
    | Arr(items: seq<Value>)
    | Obj(fields: map<string, Value>)

  /** The member `key` of an object; None for a missing member or a value that is not an object. */
  function Get(v: Value, key: string): (r: Option<Value>)
    ensures r.Some? <==> v.Obj? && key in v.fields
    ensures r.Some? ==> r.value == v.fields[key]
  {
    if v.Obj? && key in v.fields then Some(v.fields[key]) else None
  }
}
