/** JSON values as serde_json holds them: objects are maps sorted by key, and a
    number is either an integer or a float. */
module JsonValue {
  import opened Prelude

  datatype Json =
    | Null
    | Bool(b: bool)
    | Num(n: int)
    | Dec(r: real)
    | Str(s: string)
    | Arr(items: seq<Json>)
    | Obj(fields: map<string, Json>)

  /** `value.get(key)` for a string key. */
  function Get(v: Json, key: string): Option<Json> {
    if v.Obj? && key in v.fields then Some(v.fields[key]) else None
  }

  /** `value[key]`: a missing key reads as null. */
  function Index(v: Json, key: string): Json {
    if v.Obj? && key in v.fields then v.fields[key] else Null
  }

  function GetStr(v: Json, key: string): Option<string> {
    if v.Obj? && key in v.fields && v.fields[key].Str? then Some(v.fields[key].s) else None
  }

  function GetArr(v: Json, key: string): Option<seq<Json>> {
    if v.Obj? && key in v.fields && v.fields[key].Arr? then Some(v.fields[key].items) else None
  }

  /** `if let Some(object) = v.as_object_mut() { object.insert(key, value) }`. */
  function Put(v: Json, key: string, value: Json): Json {
    if v.Obj? then Obj(v.fields[key := value]) else v
  }

  function OrNull(v: Option<Json>): Json {
    if v.Some? then v.value else Null
  }

  function OrEmpty(v: Option<string>): string {
    if v.Some? then v.value else ""
  }
}
