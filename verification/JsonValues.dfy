/** JSON values as Go's decoder gives them, and the lenient ways they are read. */
module JsonValues {
  datatype Json =
    | JNull
    | JBool(b: bool)
    | JNum(n: real)
    | JStr(s: string)
    | JArr(items: seq<Json>)
    | JObj(fields: map<string, Json>)

  type Fields = map<string, Json>

  /** A missing key reads as null. */
  function Get(m: Fields, key: string): Json {
    if key in m then m[key] else JNull
  }

  function ArrayFrom(value: Json): seq<Json> {
    if value.JArr? then value.items else []
  }

  function FieldsFrom(value: Json): Fields {
    if value.JObj? then value.fields else map[]
  }

  /** A string field of an item, empty when there is none. */
  function StringField(item: Json, key: string): string {
    var v := Get(FieldsFrom(item), key);
    if v.JStr? then v.s else ""
  }

  /** A boolean field of an object, false when there is none. */
  predicate Flag(m: Fields, key: string) {
    Get(m, key) == JBool(true)
  }

  /** The lenient readings: anything missing or of another type is null, false, or empty. */
  lemma ReadingsMean(m: Fields, key: string)
    ensures Get(m, key) == if key in m then m[key] else JNull
    ensures Flag(m, key) <==> key in m && m[key].JBool? && m[key].b
    ensures forall items :: ArrayFrom(JArr(items)) == items
    ensures forall v: Json :: !v.JArr? ==> ArrayFrom(v) == []
    ensures FieldsFrom(JObj(m)) == m && forall v: Json :: !v.JObj? ==> FieldsFrom(v) == map[]
    ensures StringField(JObj(m), key) == if key in m && m[key].JStr? then m[key].s else ""
  {
  }
}
