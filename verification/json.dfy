/** JSON values as the Python and JavaScript programs hold them after parsing a document. */
module Json {
  import opened Outcomes

  /** Numbers keep Python's split into integers and floats, because some operations
      (coordinate trimming) accept one and reject the other. Floats are exact reals. */
  datatype Json =
    | Null
    | Bool(b: bool)
    | Int(i: int)
    | Float(x: real)
    | Str(s: string)
    | List(items: seq<Json>)
    | Object(fields: map<string, Json>)

  /** A property dictionary of a GeoJSON feature. */
  type Props = map<string, Json>

  /** An OSM tag set, as exported from OSM data: every value is a string. */
  type Tags = map<string, string>

  function Get<V>(m: map<string, V>, key: string): Option<V> {
    if key in m then Some(m[key]) else None
  }

  /** Python `m[key]`: a missing key raises KeyError. */
  function Lookup<V>(m: map<string, V>, key: string): (r: Result<V>)
    ensures r.Ok? <==> key in m
    ensures r.Ok? ==> r.value == m[key]
    ensures r.Err? ==> r.error == KeyError(key)
  {
    if key in m then Ok(m[key]) else Err(KeyError(key))
  }

  /** Python truthiness of `tags.get(key)` for a string tag: present and non-empty. */
  predicate NonEmpty(tags: Tags, key: string) {
    key in tags && tags[key] != ""
  }

  /** `tags.get(key) == value`. */
  predicate Is(tags: Tags, key: string, value: string) {
    key in tags && tags[key] == value
  }

  /** Python truthiness of a JSON value. */
  predicate Truthy(j: Json) {
    match j
    case Null => false
    case Bool(b) => b
    case Int(i) => i != 0
    case Float(x) => x != 0.0
    case Str(s) => s != ""
    case List(items) => items != []
    case Object(fields) => fields != map[]
  }

  /** JavaScript truthiness of a JSON value: `null`, `false`, zero and the empty string
      are false, and every array and object is true, even an empty one. */
  predicate JsTruthy(j: Json) {
    match j
    case Null => false
    case Bool(b) => b
    case Int(i) => i != 0
    case Float(x) => x != 0.0
    case Str(s) => s != ""
    case List(_) => true
    case Object(_) => true
  }

  /** The two languages agree except on empty arrays and objects. */
  lemma TruthyLanguages(j: Json)
    ensures JsTruthy(j) == (Truthy(j) || j == List([]) || j == Object(map[]))
  {
  }

  /** The string-valued entries of a property dictionary, read as OSM tags. */
  function AsTags(p: Props): (t: Tags)
    ensures forall k :: k in t <==> k in p && p[k].Str?
    ensures forall k :: k in t ==> p[k] == Str(t[k])
  {
    map k | k in p && p[k].Str? :: p[k].s
  }
}
