/**
 JSON documents as the governance tools see them after loading, with Python's truth value,
 `dict.get` and `list(...)` on them. Where Python would raise, the outcome is `Raised`.
 */
module Json {
  import opened Text

  /** A float is kept as its decimal text. */
  datatype Json =
    | JNull
    | JBool(b: bool)
    | JInt(n: int)
    | JFloat(text: string)
    | JStr(s: string)
    | JArr(items: seq<Json>)
    | JObj(fields: map<string, Json>)

  type Obj = map<string, Json>

  datatype Outcome<+T> = Done(value: T) | Raised

  predicate Truthy(j: Json) {
    match j
    case JNull => false
    case JBool(b) => b
    case JInt(n) => n != 0
    case JFloat(text) => text != "0.0" && text != "-0.0"
    case JStr(s) => s != ""
    case JArr(items) => items != []
    case JObj(fields) => fields != map[]
  }

  /** `d.get(key)`: a missing key and a null value look alike. */
  function Get(o: Obj, key: string): Json {
    if key in o then o[key] else JNull
  }

  /** Lists and objects cannot be looked up in a set. */
  predicate Hashable(j: Json) {
    !j.JArr? && !j.JObj?
  }

  /** `isinstance(v, str) and v.strip()`. */
  predicate IsText(j: Json) {
    j.JStr? && Strip(j.s) != ""
  }

  function Characters(s: string): seq<Json> {
    if s == "" then [] else [JStr(s[..1])] + Characters(s[1..])
  }

  function Strings(items: seq<string>): seq<Json> {
    if items == [] then [] else [JStr(items[0])] + Strings(items[1..])
  }

  /** `v or {}` followed by a dictionary operation: anything truthy that is no object raises. */
  function OrEmpty(j: Json): Outcome<Obj> {
    if !Truthy(j) then Done(map[]) else if j.JObj? then Done(j.fields) else Raised
  }

  /** `list(v or [])`; `keyOrder` gives the order in which an object lists its keys. */
  function ListOf(j: Json, keyOrder: Obj -> seq<string>): Outcome<seq<Json>> {
    if !Truthy(j) then Done([])
    else match j
      case JArr(items) => Done(items)
      case JStr(s) => Done(Characters(s))
      case JObj(fields) => Done(Strings(keyOrder(fields)))
      case _ => Raised
  }
}
