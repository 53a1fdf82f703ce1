/** JSON values as the scripts receive them from `json.load` / `JSON.parse`,
    with Python's truthiness rules. Object key order is not modelled. */
module Json {
  import opened Wrappers

  datatype Json =
    | JNull
    | JBool(b: bool)
    | JInt(i: int)
    | JFloat(r: real)
    | JString(s: string)
    | JArray(items: seq<Json>)
    | JObject(fields: map<string, Json>)

  /** `bool(v)` in Python: None, False, 0, 0.0, "", [] and {} are falsy. */
  predicate Truthy(v: Json) {
    match v
    case JNull => false
    case JBool(b) => b
    case JInt(i) => i != 0
    case JFloat(r) => r != 0.0
    case JString(s) => s != ""
    case JArray(xs) => xs != []
    case JObject(m) => m != map[]
  }

  /** `d.get(k)`: the value under `k`, None when the key is absent. */
  function Get(d: map<string, Json>, k: string): (r: Option<Json>)
    ensures r.Some? <==> k in d
    ensures r.Some? ==> r.value == d[k]
  {
    if k in d then Some(d[k]) else None
  }

  /** A list of strings as a JSON array. */
  function Strings(ss: seq<string>): (r: Json)
    ensures r.JArray? && |r.items| == |ss|
    ensures forall i :: 0 <= i < |ss| ==> r.items[i] == JString(ss[i])
  {
    JArray(seq(|ss|, i requires 0 <= i < |ss| => JString(ss[i])))
  }

  /** Reads back a JSON array of strings; anything that is not a string reads as "". */
  function StringsOf(v: Json): (r: seq<string>)
  {
    match v
    case JArray(xs) => seq(|xs|, i requires 0 <= i < |xs| => if xs[i].JString? then xs[i].s else "")
    case _ => []
  }

  lemma StringsRoundTrip(ss: seq<string>)
    ensures StringsOf(Strings(ss)) == ss
  {
  }

  /** `m` extended with `k: v` when `cond` holds: one `**({k: v} if cond else {})`
      (or `...(cond && {k: v})`) spread, the step every normaliser of the
      pipeline is built from. */
  function Put(m: map<string, Json>, cond: bool, k: string, v: Json): map<string, Json>
  {
    if cond then m[k := v] else m
  }
}
