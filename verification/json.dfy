/**
 * JavaScript values as they appear in a parsed map document.
 *
 * `JUndefined` stands for a missing property: reading an absent field gives it,
 * and the legacy migration copies such reads into a fresh object, so it can also
 * occur as the value of a present key. Numbers are integers only.
 */
module JsonValue {

  datatype Json =
    | JUndefined
    | JNull
    | JBool(b: bool)
    | JInt(n: int)
    | JStr(s: string)
    | JArr(elems: seq<Json>)
    | JObj(fields: map<string, Json>)

  /** JavaScript truthiness: `undefined`, `null`, `false`, `0` and `""` are falsy. */
  predicate Truthy(j: Json) {
    match j
    case JUndefined => false
    case JNull => false
    case JBool(b) => b
    case JInt(n) => n != 0
    case JStr(s) => s != ""
    case JArr(_) => true
    case JObj(_) => true
  }

  /** The JavaScript expression `v || fallback`. */
  function OrElse(v: Json, fallback: Json): Json {
    if Truthy(v) then v else fallback
  }

  /** `fields[key]`, or `undefined` when the object has no such own property. */
  function Lookup(fields: map<string, Json>, key: string): Json {
    if key in fields then fields[key] else JUndefined
  }

  /**
   * The optional-chaining read `j?.key`: only objects carry the named fields a
   * map document uses; every other value reads as `undefined`.
   */
  function Field(j: Json, key: string): Json {
    match j
    case JObj(fields) => Lookup(fields, key)
    case _ => JUndefined
  }

  /** The JavaScript assignment `j ||= fallback` applied to one field of an object. */
  function DefaultIfFalsy(fields: map<string, Json>, key: string, fallback: Json): (r: map<string, Json>)
    ensures Truthy(Lookup(fields, key)) ==> r == fields
    ensures forall k :: k in r <==> k in fields || k == key
    ensures forall k :: Lookup(r, k) == (if k == key then OrElse(Lookup(fields, key), fallback) else Lookup(fields, k))
  {
    if Truthy(Lookup(fields, key)) then fields else fields[key := fallback]
  }
}
