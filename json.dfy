/** Parsed JSON documents, as the gateway receives them from the Strava API.
    Numbers are integers in this model. */
module Json {
  import opened Outcome

  datatype Json =
    | JNull
    | JBool(b: bool)
    | JNum(n: int)
    | JStr(s: string)
    | JArr(items: seq<Json>)
    | JObj(fields: map<string, Json>)

  /** `e` is `j` with some object keys dropped, at any depth: what a zod
      object schema keeps of its input (unknown keys are stripped). */
  predicate EmbeddedIn(e: Json, j: Json)
  {
    match e
    case JObj(ef) =>
      j.JObj? && forall k :: k in ef ==> k in j.fields && EmbeddedIn(ef[k], j.fields[k])
    case _ => e == j
  }

  lemma {:induction false} EmbeddedReflexive(j: Json)
    ensures EmbeddedIn(j, j)
  {
    if j.JObj? {
      forall k | k in j.fields ensures EmbeddedIn(j.fields[k], j.fields[k]) {
        EmbeddedReflexive(j.fields[k]);
      }
    }
  }

  /** `z.number()` on key `k`: required. */
  function NumberAt(o: map<string, Json>, k: string): (r: Option<int>)
    ensures r.Some? <==> k in o && o[k].JNum?
    ensures r.Some? ==> o[k] == JNum(r.value)
  {
    if k in o && o[k].JNum? then Some(o[k].n) else None
  }

  /** `z.string()` on key `k`: required. */
  function StringAt(o: map<string, Json>, k: string): (r: Option<string>)
    ensures r.Some? <==> k in o && o[k].JStr?
    ensures r.Some? ==> o[k] == JStr(r.value)
  {
    if k in o && o[k].JStr? then Some(o[k].s) else None
  }

  /** `z.number().optional()` on key `k`: the outer option is the verdict,
      the inner one the value (`None` when the key is absent). */
  function OptionalNumberAt(o: map<string, Json>, k: string): (r: Option<Option<int>>)
    ensures r == Some(None) <==> k !in o
    ensures r.Some? && r.value.Some? <==> k in o && o[k].JNum?
    ensures r.Some? && r.value.Some? ==> o[k] == JNum(r.value.value)
  {
    if k !in o then Some(None)
    else if o[k].JNum? then Some(Some(o[k].n))
    else None
  }

  /** `z.string().nullable().optional()` on key `k`. */
  function NullishStringAt(o: map<string, Json>, k: string): (r: Option<Nullish<string>>)
    ensures r == Some(Missing) <==> k !in o
    ensures r == Some(Null) <==> k in o && o[k] == JNull
    ensures r.Some? && r.value.Present? <==> k in o && o[k].JStr?
    ensures r.Some? && r.value.Present? ==> o[k] == JStr(r.value.value)
  {
    if k !in o then Some(Missing)
    else if o[k] == JNull then Some(Null)
    else if o[k].JStr? then Some(Present(o[k].s))
    else None
  }
}
