/** The addon listings of the Express API: every known addon annotated with
    what the logged-in user has installed, and the user's own installations.

    The rows of the logged-in user are an input (the handlers' user lookup is
    not part of this model); the ksuid timestamp of an addon id and
    `JSON.parse` are parameters. */
module ExpressAddons {
  import opened Wrappers
  import opened Json
  import opened AddonRecords
  import opened Http
  import opened DbErrors
  import opened Sorting
  import Text
  import UserAddonsApi

  type InstallRow = UserAddonsApi.InstallRow

  /** A row of the user-addon table joined with its addon record. */
  datatype JoinedRow = JoinedRow(row: InstallRow, addon: Obj)

  /** Index of the last row for the addon, or -1. */
  function LastRowIndex(rows: seq<InstallRow>, id: string): (r: int)
    ensures -1 <= r < |rows|
    ensures r >= 0 ==> rows[r].addonId == id && forall j :: r < j < |rows| ==> rows[j].addonId != id
    ensures r == -1 <==> forall j :: 0 <= j < |rows| ==> rows[j].addonId != id
  {
    if rows == [] then -1
    else if rows[|rows| - 1].addonId == id then |rows| - 1
    else LastRowIndex(rows[..|rows| - 1], id)
  }

  /** `result[addon.addonId] = addon` over the rows, in order: each addon id
      of the rows maps to its last row. */
  function UserAddonDict(rows: seq<InstallRow>): (d: map<string, InstallRow>)
    ensures forall id :: id in d <==> LastRowIndex(rows, id) != -1
    ensures forall id | id in d :: d[id] == rows[LastRowIndex(rows, id)]
  {
    if rows == [] then map[]
    else
      var init := rows[..|rows| - 1];
      var last := rows[|rows| - 1];
      assert forall k :: 0 <= k < |init| ==> init[k] == rows[k];
      UserAddonDict(init)[last.addonId := last]
  }

  /** `fetchUserAddons(db, req)`: empty without a user, otherwise the user's
      rows keyed by addon id, a later row replacing an earlier one. */
  method FetchUserAddons(userRows: Option<seq<InstallRow>>) returns (result: map<string, InstallRow>)
    ensures userRows.None? ==> result == map[]
    ensures userRows.Some? ==> result == UserAddonDict(userRows.value)
  {
    result := map[];
    if userRows.None? {
      return;
    }
    var data := userRows.value;
    var i := 0;
    while i < |data|
      invariant 0 <= i <= |data|
      invariant result == UserAddonDict(data[..i])
    {
      assert data[..i + 1][..i] == data[..i];
      result := result[data[i].addonId := data[i]];
      i := i + 1;
    }
    assert data[..i] == data;
  }

  /** What the handler's `forEach` does to one addon record: the timestamp,
      `installed`, and for an installed addon its configuration and overlay
      URL; then the schema is parsed if present. None is the SyntaxError of a
      failed parse. */
  function Annotate(entry: Obj, dict: map<string, InstallRow>, timestampOf: string -> int,
                    parseJson: string -> Option<Json>, rootUrl: string): (r: Option<Obj>)
    requires IsAddonRecord(entry)
    ensures r.Some? ==> forall k | k in entry && k !in {"timestamp", "installed", "config", "overlayUrl", "configSchema"} ::
      k in r.value && r.value[k] == entry[k]
    ensures r.Some? ==> "installed" in r.value && r.value["installed"] == JBool(AddonIdOf(entry) in dict)
    ensures r.Some? ==> "timestamp" in r.value && r.value["timestamp"] == JNum(timestampOf(AddonIdOf(entry)) as real)
    ensures r.Some? && AddonIdOf(entry) !in dict ==>
      ("config" in r.value <==> "config" in entry) && ("config" in entry ==> r.value["config"] == entry["config"])
    ensures r.Some? && (AddonIdOf(entry) !in dict || dict[AddonIdOf(entry)].overlayId == "") ==>
      ("overlayUrl" in r.value <==> "overlayUrl" in entry) && ("overlayUrl" in entry ==> r.value["overlayUrl"] == entry["overlayUrl"])
    ensures r.Some? && AddonIdOf(entry) in dict ==>
      "config" in r.value && parseJson(dict[AddonIdOf(entry)].configJSON) == Some(r.value["config"])
    ensures r.Some? && AddonIdOf(entry) in dict && dict[AddonIdOf(entry)].overlayId != "" ==>
      "overlayUrl" in r.value && r.value["overlayUrl"] == JStr(rootUrl + "/overlay/" + dict[AddonIdOf(entry)].overlayId)
    ensures r.Some? ==> ("configSchema" in r.value <==> "configSchema" in entry)
    ensures r.Some? && "configSchema" in entry && entry["configSchema"].JNull? ==> r.value["configSchema"] == JNull
    ensures r.Some? && "configSchema" in entry && entry["configSchema"].JStr? ==>
      parseJson(entry["configSchema"].s) == Some(r.value["configSchema"])
    ensures r.None? <==>
      (AddonIdOf(entry) in dict && parseJson(dict[AddonIdOf(entry)].configJSON).None?) ||
      ("configSchema" in entry && entry["configSchema"].JStr? && parseJson(entry["configSchema"].s).None?)
  {
    var id := entry["addonId"].s;
    var e := entry["timestamp" := JNum(timestampOf(id) as real)]["installed" := JBool(id in dict)];
    var withConfig: Option<Obj> :=
      if id !in dict then Some(e)
      else
        match parseJson(dict[id].configJSON)
        case None => None
        case Some(c) =>
          var e1 := e["config" := c];
          Some(if dict[id].overlayId != "" then e1["overlayUrl" := JStr(rootUrl + "/overlay/" + dict[id].overlayId)] else e1);
    match withConfig
    case None => None
    case Some(e2) =>
      if "configSchema" !in entry then Some(e2)
      else if entry["configSchema"].JNull? then Some(e2["configSchema" := JNull])
      else
        match parseJson(entry["configSchema"].s)
        case None => None
        case Some(schema) => Some(e2["configSchema" := schema])
  }

  /** The annotated records in table order, or None on a parse failure. */
  function AnnotateAll(entries: seq<Obj>, dict: map<string, InstallRow>, timestampOf: string -> int,
                       parseJson: string -> Option<Json>, rootUrl: string): (r: Option<seq<Obj>>)
    requires forall i :: 0 <= i < |entries| ==> IsAddonRecord(entries[i])
    ensures r.Some? ==> |r.value| == |entries|
    ensures r.Some? ==> forall i :: 0 <= i < |entries| ==>
      Annotate(entries[i], dict, timestampOf, parseJson, rootUrl) == Some(r.value[i])
    ensures r.None? ==> exists i :: 0 <= i < |entries| && Annotate(entries[i], dict, timestampOf, parseJson, rootUrl).None?
  {
    if entries == [] then Some([])
    else
      var init := entries[..|entries| - 1];
      assert forall i :: 0 <= i < |init| ==> init[i] == entries[i];
      match AnnotateAll(init, dict, timestampOf, parseJson, rootUrl)
      case None => None
      case Some(done) =>
        match Annotate(entries[|entries| - 1], dict, timestampOf, parseJson, rootUrl)
        case None => None
        case Some(last) => Some(done + [last])
  }

  /** The answer of `GET` on the addon list. */
  function ListAddonsResponse(addons: seq<Obj>, userRows: Option<seq<InstallRow>>, timestampOf: string -> int,
                              parseJson: string -> Option<Json>, rootUrl: string): Response
    requires forall i :: 0 <= i < |addons| ==> IsAddonRecord(addons[i])
  {
    var dict := if userRows.None? then map[] else UserAddonDict(userRows.value);
    match AnnotateAll(addons, dict, timestampOf, parseJson, rootUrl)
    case None => DbErrResponse(OtherError(UserAddonsApi.SyntaxErrorMessage)).value
    case Some(annotated) => Response(200, Some(JArr(JsonArray(SortBy(annotated, TimestampKey(timestampOf))))))
  }

  /** The handler's `forEach`: each record is replaced by its annotated
      form, in table order, until a parse throws. */
  method AnnotateEach(addons: seq<Obj>, userAddons: map<string, InstallRow>, timestampOf: string -> int,
                      parseJson: string -> Option<Json>, rootUrl: string) returns (r: Option<seq<Obj>>)
    requires forall i :: 0 <= i < |addons| ==> IsAddonRecord(addons[i])
    ensures r == AnnotateAll(addons, userAddons, timestampOf, parseJson, rootUrl)
  {
    var result := addons;
    var i := 0;
    while i < |result|
      invariant 0 <= i <= |result| == |addons|
      invariant result[i..] == addons[i..]
      invariant AnnotateAll(addons[..i], userAddons, timestampOf, parseJson, rootUrl) == Some(result[..i])
    {
      assert result[i] == addons[i] by { assert result[i..][0] == addons[i..][0]; }
      var entry := Annotate(result[i], userAddons, timestampOf, parseJson, rootUrl);
      if entry.None? {
        AnnotateFailurePropagates(addons, i + 1, userAddons, timestampOf, parseJson, rootUrl);
        return None;
      }
      AnnotateAllStep(addons, i, result[..i], entry.value, userAddons, timestampOf, parseJson, rootUrl);
      Text.UpdateSplit(result, i, entry.value);
      result := result[i := entry.value];
      i := i + 1;
    }
    assert addons[..i] == addons;
    assert result[..i] == result;
    r := Some(result);
  }

  /** `GET.handler` of the addon list: annotate every record in place, then
      sort by timestamp. */
  method ListAddons(addons: seq<Obj>, userRows: Option<seq<InstallRow>>, timestampOf: string -> int,
                    parseJson: string -> Option<Json>, rootUrl: string) returns (res: Response)
    requires forall i :: 0 <= i < |addons| ==> IsAddonRecord(addons[i])
    ensures res == ListAddonsResponse(addons, userRows, timestampOf, parseJson, rootUrl)
  {
    var userAddons := FetchUserAddons(userRows);
    var result := AnnotateEach(addons, userAddons, timestampOf, parseJson, rootUrl);
    if result.None? {
      return DbErrResponse(OtherError(UserAddonsApi.SyntaxErrorMessage)).value;
    }
    var sorted := SortBy(result.value, TimestampKey(timestampOf));
    res := Response(200, Some(JArr(JsonArray(sorted))));
  }

  /** Annotating one more record extends the annotated prefix by it. */
  lemma AnnotateAllStep(entries: seq<Obj>, i: nat, done: seq<Obj>, x: Obj, dict: map<string, InstallRow>, timestampOf: string -> int,
                          parseJson: string -> Option<Json>, rootUrl: string)
    requires forall k :: 0 <= k < |entries| ==> IsAddonRecord(entries[k])
    requires i < |entries|
    requires AnnotateAll(entries[..i], dict, timestampOf, parseJson, rootUrl) == Some(done)
    requires Annotate(entries[i], dict, timestampOf, parseJson, rootUrl) == Some(x)
    ensures AnnotateAll(entries[..i + 1], dict, timestampOf, parseJson, rootUrl) == Some(done + [x])
  {
    assert entries[..i + 1][..i] == entries[..i];
  }

  /** A parse failure in a prefix fails the whole list. */
  lemma {:induction false} AnnotateFailurePropagates(entries: seq<Obj>, n: nat, dict: map<string, InstallRow>,
                                                     timestampOf: string -> int, parseJson: string -> Option<Json>, rootUrl: string)
    requires forall i :: 0 <= i < |entries| ==> IsAddonRecord(entries[i])
    requires n <= |entries|
    requires AnnotateAll(entries[..n], dict, timestampOf, parseJson, rootUrl).None?
    ensures AnnotateAll(entries, dict, timestampOf, parseJson, rootUrl).None?
  {
    var i :| 0 <= i < n && Annotate(entries[..n][i], dict, timestampOf, parseJson, rootUrl).None?;
    assert entries[..n][i] == entries[i];
    var r := AnnotateAll(entries, dict, timestampOf, parseJson, rootUrl);
    if r.Some? {
      assert Annotate(entries[i], dict, timestampOf, parseJson, rootUrl) == Some(r.value[i]);
    }
  }

  /** The listing holds every addon exactly once, ordered by timestamp, and
      marks as installed exactly the addons the user has a row for; with no
      user nothing is installed, and the count does not depend on the user. */
  lemma ListAddonsProperties(addons: seq<Obj>, userRows: Option<seq<InstallRow>>, timestampOf: string -> int,
                             parseJson: string -> Option<Json>, rootUrl: string)
    requires forall i :: 0 <= i < |addons| ==> IsAddonRecord(addons[i])
    requires ListAddonsResponse(addons, userRows, timestampOf, parseJson, rootUrl).status == 200
    ensures var dict := if userRows.None? then map[] else UserAddonDict(userRows.value);
      var annotated := AnnotateAll(addons, dict, timestampOf, parseJson, rootUrl).value;
      var sorted := SortBy(annotated, TimestampKey(timestampOf));
      && ListAddonsResponse(addons, userRows, timestampOf, parseJson, rootUrl).body == Some(JArr(JsonArray(sorted)))
      && |sorted| == |addons|
      && multiset(sorted) == multiset(annotated)
      && SortedBy(sorted, TimestampKey(timestampOf))
      && (forall i :: 0 <= i < |addons| ==>
            annotated[i]["installed"] == JBool(userRows.Some? && exists k :: 0 <= k < |userRows.value| && userRows.value[k].addonId == AddonIdOf(addons[i])))
  {
    var dict := if userRows.None? then map[] else UserAddonDict(userRows.value);
    var annotated := AnnotateAll(addons, dict, timestampOf, parseJson, rootUrl).value;
    InstalledMarks(addons, userRows, timestampOf, parseJson, rootUrl);
  }

  /** Each annotated record says whether the user has a row for its addon. */
  lemma InstalledMarks(addons: seq<Obj>, userRows: Option<seq<InstallRow>>, timestampOf: string -> int,
                          parseJson: string -> Option<Json>, rootUrl: string)
    requires forall i :: 0 <= i < |addons| ==> IsAddonRecord(addons[i])
    requires AnnotateAll(addons, if userRows.None? then map[] else UserAddonDict(userRows.value), timestampOf, parseJson, rootUrl).Some?
    ensures var annotated := AnnotateAll(addons, if userRows.None? then map[] else UserAddonDict(userRows.value), timestampOf, parseJson, rootUrl).value;
      forall i :: 0 <= i < |addons| ==>
        annotated[i]["installed"] == JBool(userRows.Some? && exists k :: 0 <= k < |userRows.value| && userRows.value[k].addonId == AddonIdOf(addons[i]))
  {
    var dict := if userRows.None? then map[] else UserAddonDict(userRows.value);
    var annotated := AnnotateAll(addons, dict, timestampOf, parseJson, rootUrl).value;
    forall i | 0 <= i < |addons|
      ensures annotated[i]["installed"] == JBool(userRows.Some? && exists k :: 0 <= k < |userRows.value| && userRows.value[k].addonId == AddonIdOf(addons[i]))
    {
      assert Annotate(addons[i], dict, timestampOf, parseJson, rootUrl) == Some(annotated[i]);
    }
  }

  /** `{installed: true, ...entry.addon, overlayId: entry.overlayId}` with the
      overlay URL when the row has an overlay id. */
  function UserEntry(j: JoinedRow, rootUrl: string): (r: Obj)
    ensures "installed" !in j.addon ==> "installed" in r && r["installed"] == JBool(true)
    ensures "overlayId" in r && r["overlayId"] == JStr(j.row.overlayId)
    ensures forall k | k in j.addon && k !in {"overlayId", "overlayUrl"} :: k in r && r[k] == j.addon[k]
    ensures j.row.overlayId != "" ==> "overlayUrl" in r && r["overlayUrl"] == JStr(rootUrl + "/overlay/" + j.row.overlayId)
    ensures j.row.overlayId == "" ==> ("overlayUrl" in r <==> "overlayUrl" in j.addon)
  {
    var addon := (map["installed" := JBool(true)] + j.addon)["overlayId" := JStr(j.row.overlayId)];
    if j.row.overlayId != "" then addon["overlayUrl" := JStr(rootUrl + "/overlay/" + j.row.overlayId)] else addon
  }

  function UserEntries(rows: seq<JoinedRow>, rootUrl: string): (r: seq<Json>)
    ensures |r| == |rows|
    ensures forall i :: 0 <= i < |rows| ==> r[i] == JObj(UserEntry(rows[i], rootUrl))
  {
    if rows == [] then [] else [JObj(UserEntry(rows[0], rootUrl))] + UserEntries(rows[1..], rootUrl)
  }

  /** `GET.handler` of the user's addons: 401 without a user, otherwise one
      entry per row, in row order. */
  function UserAddonsResponse(user: Option<seq<JoinedRow>>, rootUrl: string): (r: Response)
    ensures user.None? ==> r.status == 401 && r.body == Some(ErrorBody(Sanitize(UserAddonsApi.NotAuthorizedMessage)))
    ensures user.Some? ==> r.status == 200 && r.body == Some(JArr(UserEntries(user.value, rootUrl)))
  {
    match user
    case None => DbErrResponse(Unauthorized(UserAddonsApi.NotAuthorizedMessage)).value
    case Some(rows) => Response(200, Some(JArr(UserEntries(rows, rootUrl))))
  }
}
