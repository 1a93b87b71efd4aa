/** Shared value types: optional values, and JSON documents as Go decodes them. */
module Prelude {

  datatype Option<+T> = None | Some(value: T)

  /** A decoded JSON document. Numbers keep an integer stand-in: no proof looks inside one. */
  datatype Json =
    | Null
    | Bool(b: bool)
    | Num(n: int)
    | Str(s: string)
    | Arr(items: seq<Json>)
    | Obj(fields: map<string, Json>)

  /** Go's `v, _ := m[key].(string)`: the text, or "" when absent or of another type. */
  function StringField(m: map<string, Json>, key: string): string {
    if key in m && m[key].Str? then m[key].s else ""
  }
}
