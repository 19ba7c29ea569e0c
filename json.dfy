/** JSON values as the route handlers build them: objects are maps, so an
    object spread `{ a, ...b }` is the map union `A + B` (the right side wins on
    a clash) and a property assignment `o.k = v` is `o[k := v]`. */
module Json {

  datatype Json =
    | JNull
    | JBool(b: bool)
    | JNum(n: real)
    | JStr(s: string)
    | JArr(items: seq<Json>)
    | JObj(fields: map<string, Json>)

  type Obj = map<string, Json>

  /** A list of objects as a JSON array's items. */
  function JsonArray(entries: seq<Obj>): (r: seq<Json>)
    ensures |r| == |entries| && forall i :: 0 <= i < |entries| ==> r[i] == JObj(entries[i])
  {
    if entries == [] then [] else [JObj(entries[0])] + JsonArray(entries[1..])
  }
}

/** An HTTP answer: a status and an optional JSON body. */
module Http {
  import opened Wrappers
  import opened Json

  datatype Response = Response(status: int, body: Option<Json>)
}
