/** Decoded JSON values and Freddy's path lookups. */
module JsonModel {
  import opened Wrappers

  datatype Json =
    | JNull
    | JBool(b: bool)
    | JInt(i: int)
    | JDouble(d: real)
    | JString(s: string)
    | JArray(items: seq<Json>)
    | JObject(fields: map<string, Json>)

  /** The value reached by following dictionary keys, if every step exists. */
  function At(j: Json, path: seq<string>): (r: Option<Json>)
    ensures path == [] ==> r == Some(j)
    decreases path
  {
    if path == [] then Some(j)
    else match j
      case JObject(fields) =>
        if path[0] in fields then At(fields[path[0]], path[1..]) else None
      case _ => None
  }

  /** `getString(at:)`: the string at the end of the path; anything else is an error. */
  function GetString(j: Json, path: seq<string>): (r: Option<string>)
    ensures r.Some? <==> At(j, path).Some? && At(j, path).value.JString?
    ensures r.Some? ==> At(j, path) == Some(JString(r.value))
  {
    match At(j, path)
    case Some(JString(s)) => Some(s)
    case _ => None
  }

  /** `getArray(at:)`: the array at the end of the path; anything else is an error. */
  function GetArray(j: Json, path: seq<string>): (r: Option<seq<Json>>)
    ensures r.Some? <==> At(j, path).Some? && At(j, path).value.JArray?
    ensures r.Some? ==> At(j, path) == Some(JArray(r.value))
  {
    match At(j, path)
    case Some(JArray(items)) => Some(items)
    case _ => None
  }

  /** Following `p + q` is following `p`, then `q` from where it ended. */
  lemma {:induction false} AtConcat(j: Json, p: seq<string>, q: seq<string>)
    ensures At(j, p + q) == (match At(j, p) case None => None case Some(k) => At(k, q))
    decreases p
  {
    if p == [] {
      assert p + q == q;
    } else {
      assert (p + q)[0] == p[0];
      assert (p + q)[1..] == p[1..] + q;
      if j.JObject? && p[0] in j.fields {
        AtConcat(j.fields[p[0]], p[1..], q);
      }
    }
  }

  /** A document holding `leaf` under the nested keys of `path`. */
  function Nest(path: seq<string>, leaf: Json): Json
    decreases path
  {
    if path == [] then leaf else JObject(map[path[0] := Nest(path[1..], leaf)])
  }

  /** The nested document gives back its leaf along its path. */
  lemma {:induction false} AtNest(path: seq<string>, leaf: Json)
    ensures At(Nest(path, leaf), path) == Some(leaf)
    decreases path
  {
    if path != [] {
      AtNest(path[1..], leaf);
    }
  }
}
