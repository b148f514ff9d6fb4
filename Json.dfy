/** JSON values as the engines build and read them. */
module Json {
  import opened Wrappers

  datatype Json =
    | Null
    | Bool(b: bool)
    | Num(n: int)
    | Str(s: string)
    | Arr(items: seq<Json>)
    | Obj(fields: map<string, Json>)

  /** `value[key]`: the field of an object, `Null` when the key is missing or the value is no object. */
  function Get(j: Json, key: string): (v: Json)
    ensures j.Obj? && key in j.fields ==> v == j.fields[key]
    ensures !(j.Obj? && key in j.fields) ==> v == Null
  {
    if j.Obj? && key in j.fields then j.fields[key] else Null
  }

  /** `value.as_str()`. */
  function AsStr(j: Json): (r: Option<string>)
    ensures r.Some? <==> j.Str?
    ensures r.Some? ==> r.value == j.s
  {
    if j.Str? then Some(j.s) else None
  }

  /** `value.as_array().unwrap_or(&Vec::new())`. */
  function ItemsOr(j: Json): (items: seq<Json>)
    ensures j.Arr? ==> items == j.items
    ensures !j.Arr? ==> items == []
  {
    if j.Arr? then j.items else []
  }
}
