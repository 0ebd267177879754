/** JSON values as `JSON.parse` returns them, with JavaScript truthiness and property reads. */
module Json {
  import opened Wrappers

  datatype Json =
    | JNull
    | JBool(b: bool)
    | JNumber(n: real)
    | JString(s: string)
    | JArray(items: seq<Json>)
    | JObject(fields: map<string, Json>)

  /** What `if (v)` and `v || w` test. A parsed JSON number is never NaN. */
  predicate Truthy(v: Json) {
    match v
    case JNull => false
    case JBool(b) => b
    case JNumber(n) => n != 0.0
    case JString(s) => s != ""
    case JArray(_) => true
    case JObject(_) => true
  }

  /**
   * `v[key]` on a value that is not null: an object's own field, and `undefined`
   * (None) for everything else, since neither arrays nor primitives carry the
   * keys this pipeline reads.
   */
  function Get(v: Json, key: string): (r: Option<Json>)
    ensures r.Some? ==> v.JObject? && key in v.fields && r.value == v.fields[key]
    ensures v.JObject? && key in v.fields ==> r.Some?
  {
    if v.JObject? && key in v.fields then Some(v.fields[key]) else None
  }

  /** Truthiness of a property read, `undefined` included. */
  predicate TruthyField(o: Option<Json>) {
    o.Some? && Truthy(o.value)
  }
}
