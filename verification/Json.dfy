/** A parsed JSON document, as serde_json's `Value` holds it, and the three
    accessors the device walk uses: `get` with a string key, `as_array` and
    `as_str`. Parsing JSON text is not part of this model: the walk starts
    from an already-built tree. */
module Json {
  import opened Wrappers

  /** A JSON value. Object members are a map, so keys are unique, as in
      serde_json's `Map`. */
  datatype Json =
    | Null
    | Bool(b: bool)
    | Num(n: real)
    | Str(s: string)
    | Arr(elems: seq<Json>)
    | Obj(members: map<string, Json>)

  /** `Value::get(key)`: the member named `key` of an object; nothing for a
      missing key or for a value that is not an object. */
  function Get(v: Json, key: string): (r: Option<Json>)
    ensures r.Some? <==> v.Obj? && key in v.members
    ensures r.Some? ==> r.value == v.members[key]
  {
    match v
    case Obj(m) => if key in m then Some(m[key]) else None
    case _ => None
  }

  /** `get(key).and_then(as_array)`: the elements of the array stored under
      `key`, or `None` when there is no such member or it is not an array. */
  function ArrayAt(v: Json, key: string): (r: Option<seq<Json>>)
    ensures r.Some? <==> Get(v, key).Some? && Get(v, key).value.Arr?
  {
    match Get(v, key)
    case Some(Arr(elems)) => Some(elems)
    case _ => None
  }

  /** `get(key).and_then(as_str)`: the string stored under `key`, or `None`
      when there is no such member or it is not a string. */
  function StrAt(v: Json, key: string): (r: Option<string>)
    ensures r.Some? <==> Get(v, key).Some? && Get(v, key).value.Str?
  {
    match Get(v, key)
    case Some(Str(s)) => Some(s)
    case _ => None
  }
}
