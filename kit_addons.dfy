/** The addon listings of the SvelteKit endpoints: every known addon marked
    with whether the logged-in user has installed it, and the user's own
    addons.

    The token read from the cookie and the user's rows are inputs, and the
    ksuid timestamp of an addon id and `JSON.parse` are parameters. */
module KitAddons {
  import opened Wrappers
  import opened Json
  import opened AddonRecords
  import opened Http
  import opened Sorting
  import Text
  import UserAddonsApi

  type InstallRow = UserAddonsApi.InstallRow

  /** The addon ids of a user's rows. */
  function RowIds(rows: seq<InstallRow>): (r: set<string>)
    ensures forall id :: id in r <==> exists i :: 0 <= i < |rows| && rows[i].addonId == id
  {
    if rows == [] then {}
    else
      var init := rows[..|rows| - 1];
      assert forall i :: 0 <= i < |init| ==> init[i] == rows[i];
      RowIds(init) + {rows[|rows| - 1].addonId}
  }

  /** `fetchUserAddons(request)`: empty without a token, otherwise the addon
      ids of the user's rows. */
  method FetchUserAddons(userRows: Option<seq<InstallRow>>) returns (result: set<string>)
    ensures userRows.None? ==> result == {}
    ensures userRows.Some? ==> forall id :: id in result <==> exists i :: 0 <= i < |userRows.value| && userRows.value[i].addonId == id
  {
    result := {};
    if userRows.None? {
      return;
    }
    var data := userRows.value;
    var i := 0;
    while i < |data|
      invariant 0 <= i <= |data|
      invariant result == RowIds(data[..i])
    {
      assert data[..i + 1][..i] == data[..i];
      result := result + {data[i].addonId};
      i := i + 1;
    }
    assert data[..i] == data;
  }

  /** What the handler's `forEach` does to one record: the timestamp,
      `installed`, and the parsed schema when a schema is present. None is the
      SyntaxError of a failed parse. */
  function Annotate(entry: Obj, installed: set<string>, timestampOf: string -> int,
                    parseJson: string -> Option<Json>): (r: Option<Obj>)
    requires IsAddonRecord(entry)
    ensures r.Some? ==> forall k | k in entry && k !in {"timestamp", "installed", "configSchema"} ::
      k in r.value && r.value[k] == entry[k]
    ensures r.Some? ==> "installed" in r.value && r.value["installed"] == JBool(AddonIdOf(entry) in installed)
    ensures r.Some? ==> "timestamp" in r.value && r.value["timestamp"] == JNum(timestampOf(AddonIdOf(entry)) as real)
    ensures r.Some? ==> ("configSchema" in r.value <==> "configSchema" in entry)
    ensures r.Some? && "configSchema" in entry && entry["configSchema"].JNull? ==> r.value["configSchema"] == JNull
    ensures r.Some? && "configSchema" in entry && entry["configSchema"].JStr? ==>
      parseJson(entry["configSchema"].s) == Some(r.value["configSchema"])
    ensures r.None? <==> "configSchema" in entry && entry["configSchema"].JStr? && parseJson(entry["configSchema"].s).None?
  {
    var id := entry["addonId"].s;
    var e := entry["timestamp" := JNum(timestampOf(id) as real)]["installed" := JBool(id in installed)];
    if "configSchema" !in entry then Some(e)
    else if entry["configSchema"].JNull? then Some(e["configSchema" := JNull])
    else
      match parseJson(entry["configSchema"].s)
      case None => None
      case Some(schema) => Some(e["configSchema" := schema])
  }

  /** The annotated records in table order, or None on a parse failure. */
  function AnnotateAll(entries: seq<Obj>, installed: set<string>, timestampOf: string -> int,
                       parseJson: string -> Option<Json>): (r: Option<seq<Obj>>)
    requires forall i :: 0 <= i < |entries| ==> IsAddonRecord(entries[i])
    ensures r.Some? ==> |r.value| == |entries|
    ensures r.Some? ==> forall i :: 0 <= i < |entries| ==>
      Annotate(entries[i], installed, timestampOf, parseJson) == Some(r.value[i])
    ensures r.None? ==> exists i :: 0 <= i < |entries| && Annotate(entries[i], installed, timestampOf, parseJson).None?
  {
    if entries == [] then Some([])
    else
      var init := entries[..|entries| - 1];
      assert forall i :: 0 <= i < |init| ==> init[i] == entries[i];
      match AnnotateAll(init, installed, timestampOf, parseJson)
      case None => None
      case Some(done) =>
        match Annotate(entries[|entries| - 1], installed, timestampOf, parseJson)
        case None => None
        case Some(last) => Some(done + [last])
  }

  /** The answer of `GET` on the addon list, or None when a schema parse
      throws out of the endpoint. */
  function ListAddonsResponse(addons: seq<Obj>, userRows: Option<seq<InstallRow>>, timestampOf: string -> int,
                              parseJson: string -> Option<Json>): Option<Response>
    requires forall i :: 0 <= i < |addons| ==> IsAddonRecord(addons[i])
  {
    var installed := if userRows.None? then {} else RowIds(userRows.value);
    match AnnotateAll(addons, installed, timestampOf, parseJson)
    case None => None
    case Some(annotated) => Some(Response(200, Some(JArr(JsonArray(SortBy(annotated, TimestampKey(timestampOf)))))))
  }

  /** Annotating one more record extends the annotated prefix by it. */
  lemma AnnotateAllStep(entries: seq<Obj>, i: nat, done: seq<Obj>, x: Obj, installed: set<string>, timestampOf: string -> int,
                          parseJson: string -> Option<Json>)
    requires forall k :: 0 <= k < |entries| ==> IsAddonRecord(entries[k])
    requires i < |entries|
    requires AnnotateAll(entries[..i], installed, timestampOf, parseJson) == Some(done)
    requires Annotate(entries[i], installed, timestampOf, parseJson) == Some(x)
    ensures AnnotateAll(entries[..i + 1], installed, timestampOf, parseJson) == Some(done + [x])
  {
    assert entries[..i + 1][..i] == entries[..i];
  }

  /** A parse failure in a prefix fails the whole list. */
  lemma {:induction false} AnnotateFailurePropagates(entries: seq<Obj>, n: nat, installed: set<string>,
                                                     timestampOf: string -> int, parseJson: string -> Option<Json>)
    requires forall i :: 0 <= i < |entries| ==> IsAddonRecord(entries[i])
    requires n <= |entries|
    requires AnnotateAll(entries[..n], installed, timestampOf, parseJson).None?
    ensures AnnotateAll(entries, installed, timestampOf, parseJson).None?
  {
    var i :| 0 <= i < n && Annotate(entries[..n][i], installed, timestampOf, parseJson).None?;
    assert entries[..n][i] == entries[i];
    var r := AnnotateAll(entries, installed, timestampOf, parseJson);
    if r.Some? {
      assert Annotate(entries[i], installed, timestampOf, parseJson) == Some(r.value[i]);
    }
  }

  /** The handler's `forEach`: each record is replaced by its annotated
      form, in table order, until a parse throws. */
  method AnnotateEach(addons: seq<Obj>, userAddons: set<string>, timestampOf: string -> int,
                      parseJson: string -> Option<Json>) returns (r: Option<seq<Obj>>)
    requires forall i :: 0 <= i < |addons| ==> IsAddonRecord(addons[i])
    ensures r == AnnotateAll(addons, userAddons, timestampOf, parseJson)
  {
    var result := addons;
    var i := 0;
    while i < |result|
      invariant 0 <= i <= |result| == |addons|
      invariant result[i..] == addons[i..]
      invariant AnnotateAll(addons[..i], userAddons, timestampOf, parseJson) == Some(result[..i])
    {
      assert result[i] == addons[i] by { assert result[i..][0] == addons[i..][0]; }
      var entry := Annotate(result[i], userAddons, timestampOf, parseJson);
      if entry.None? {
        AnnotateFailurePropagates(addons, i + 1, userAddons, timestampOf, parseJson);
        return None;
      }
      AnnotateAllStep(addons, i, result[..i], entry.value, userAddons, timestampOf, parseJson);
      Text.UpdateSplit(result, i, entry.value);
      result := result[i := entry.value];
      i := i + 1;
    }
    assert addons[..i] == addons;
    assert result[..i] == result;
    r := Some(result);
  }

  /** `GET` on the addon list: build the installed set, annotate every record
      in place, then sort by timestamp. */
  method ListAddons(addons: seq<Obj>, userRows: Option<seq<InstallRow>>, timestampOf: string -> int,
                    parseJson: string -> Option<Json>) returns (res: Option<Response>)
    requires forall i :: 0 <= i < |addons| ==> IsAddonRecord(addons[i])
    ensures res == ListAddonsResponse(addons, userRows, timestampOf, parseJson)
  {
    var userAddons := FetchUserAddons(userRows);
    assert userAddons == (if userRows.None? then {} else RowIds(userRows.value));
    var result := AnnotateEach(addons, userAddons, timestampOf, parseJson);
    if result.None? {
      return None;
    }
    var sorted := SortBy(result.value, TimestampKey(timestampOf));
    res := Some(Response(200, Some(JArr(JsonArray(sorted)))));
  }

  /** The listing holds every addon once, ordered by timestamp, and marks as
      installed exactly the addons the user has a row for; with no user
      nothing is installed. */
  lemma ListAddonsProperties(addons: seq<Obj>, userRows: Option<seq<InstallRow>>, timestampOf: string -> int,
                             parseJson: string -> Option<Json>)
    requires forall i :: 0 <= i < |addons| ==> IsAddonRecord(addons[i])
    requires ListAddonsResponse(addons, userRows, timestampOf, parseJson).Some?
    ensures var installed := if userRows.None? then {} else RowIds(userRows.value);
      var annotated := AnnotateAll(addons, installed, timestampOf, parseJson).value;
      var sorted := SortBy(annotated, TimestampKey(timestampOf));
      && ListAddonsResponse(addons, userRows, timestampOf, parseJson).value == Response(200, Some(JArr(JsonArray(sorted))))
      && |sorted| == |addons|
      && multiset(sorted) == multiset(annotated)
      && SortedBy(sorted, TimestampKey(timestampOf))
      && (forall i :: 0 <= i < |addons| ==>
            annotated[i]["installed"] == JBool(userRows.Some? && exists k :: 0 <= k < |userRows.value| && userRows.value[k].addonId == AddonIdOf(addons[i])))
  {
    var installed := if userRows.None? then {} else RowIds(userRows.value);
    var annotated := AnnotateAll(addons, installed, timestampOf, parseJson).value;
    InstalledMarks(addons, userRows, timestampOf, parseJson);
  }

  /** Each annotated record says whether the user has a row for its addon. */
  lemma InstalledMarks(addons: seq<Obj>, userRows: Option<seq<InstallRow>>, timestampOf: string -> int,
                          parseJson: string -> Option<Json>)
    requires forall i :: 0 <= i < |addons| ==> IsAddonRecord(addons[i])
    requires AnnotateAll(addons, if userRows.None? then {} else RowIds(userRows.value), timestampOf, parseJson).Some?
    ensures var annotated := AnnotateAll(addons, if userRows.None? then {} else RowIds(userRows.value), timestampOf, parseJson).value;
      forall i :: 0 <= i < |addons| ==>
        annotated[i]["installed"] == JBool(userRows.Some? && exists k :: 0 <= k < |userRows.value| && userRows.value[k].addonId == AddonIdOf(addons[i]))
  {
    var installed := if userRows.None? then {} else RowIds(userRows.value);
    var annotated := AnnotateAll(addons, installed, timestampOf, parseJson).value;
    forall i | 0 <= i < |addons|
      ensures annotated[i]["installed"] == JBool(userRows.Some? && exists k :: 0 <= k < |userRows.value| && userRows.value[k].addonId == AddonIdOf(addons[i]))
    {
      var id := AddonIdOf(addons[i]);
      assert Annotate(addons[i], installed, timestampOf, parseJson) == Some(annotated[i]);
      assert annotated[i]["installed"] == JBool(id in installed);
      if userRows.Some? {
        assert id in installed <==> exists k :: 0 <= k < |userRows.value| && userRows.value[k].addonId == id;
      }
    }
  }

  /** `{installed: true, ...addon}`: the addon's own fields win. */
  function UserEntry(addon: Obj): (r: Obj)
    ensures forall k :: k in r <==> k == "installed" || k in addon
    ensures forall k | k in addon :: r[k] == addon[k]
    ensures "installed" !in addon ==> r["installed"] == JBool(true)
  {
    map["installed" := JBool(true)] + addon
  }

  function UserEntries(addons: seq<Obj>): (r: seq<Json>)
    ensures |r| == |addons|
    ensures forall i :: 0 <= i < |addons| ==> r[i] == JObj(UserEntry(addons[i]))
  {
    if addons == [] then [] else [JObj(UserEntry(addons[0]))] + UserEntries(addons[1..])
  }

  /** `GET` of the user's addons: 401 with no body without a token, otherwise
      200 and one entry per row, in row order; `rows` is None when the request
      carries no token, else the user's rows, each given by its joined addon
      record. */
  function UserAddonsResponse(rows: Option<seq<Obj>>): (r: Response)
    ensures rows.None? <==> r.status == 401
    ensures rows.None? ==> r.body.None?
    ensures rows.Some? ==> r.status == 200 && r.body == Some(JArr(UserEntries(rows.value)))
  {
    match rows
    case None => Response(401, None)
    case Some(addons) => Response(200, Some(JArr(UserEntries(addons))))
  }
}
