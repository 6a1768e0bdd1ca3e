/**
 JSON values as the scripts see them after parsing. Python identifies `true`
 with 1 and `false` with 0, in equality and in truth value, and nothing in the
 scripts asks for the type of a scalar: booleans are therefore numbers here.
 */
module Json {
  import opened Wrappers

  datatype Json = Null | Num(n: real) | Str(s: string) | Arr(items: seq<Json>) | Obj(fields: map<string, Json>)

  predicate Truthy(j: Json) {
    match j
    case Null => false
    case Num(n) => n != 0.0
    case Str(s) => s != ""
    case Arr(items) => items != []
    case Obj(fields) => fields != map[]
  }

  /** `fields.get(key)`: a missing key and a JSON null read the same. */
  function Lookup(fields: map<string, Json>, key: string): Json {
    if key in fields then fields[key] else Null
  }

  /** `j.get(key, default)`; None where Python raises because `j` is no dict. */
  function Field(j: Json, key: string, default: Json): Option<Json> {
    if j.Obj? then Some(if key in j.fields then j.fields[key] else default) else None
  }

  function AsObject(j: Json): Option<map<string, Json>> {
    if j.Obj? then Some(j.fields) else None
  }

  /** What a `for` loop over the value yields. */
  function Iterate(j: Json): Option<set<Json>> {
    match j
    case Arr(items) => Some(set i | 0 <= i < |items| :: items[i])
    case Obj(fields) => Some(set k | k in fields :: Str(k))
    case Str(s) => Some(set i | 0 <= i < |s| :: Str([s[i]]))
    case _ => None
  }
}
