/** The values the application stores: JSON documents. Numbers are integers here (every number the
    model writes comes from `parseInt` or a literal). */
module Json {

  datatype Json =
    | JNull
    | JBool(b: bool)
    | JNum(n: int)
    | JStr(s: string)
    | JArr(items: seq<Json>)
    | JObj(fields: Record)

  /** A plain JavaScript object: field name to value. Object spread `{...a, ...b}` is `a + b`. */
  type Record = map<string, Json>

  /** JavaScript truthiness: `null`, `false`, `0` and `""` are falsy; every array and object,
      even an empty one, is truthy. */
  predicate Truthy(j: Json) {
    match j
    case JNull => false
    case JBool(b) => b
    case JNum(n) => n != 0
    case JStr(s) => s != ""
    case JArr(_) => true
    case JObj(_) => true
  }

  /** `r.field === JStr(text)` on a record that may lack the field. */
  predicate FieldIs(r: Record, field: string, text: string) {
    field in r && r[field] == JStr(text)
  }
}
