/** The logged-in user's addon installations: listing them, installing one
    (with a fresh overlay id and a default configuration) and uninstalling one.

    The database tables are in-memory fields; the constraints the database
    enforces on an installation row (one row per user and addon, and a user
    that exists) are modelled as the errors it raises. `JSON.parse`,
    `JSON.stringify` and the random overlay id are parameters. */
module UserAddonsApi {
  import opened Wrappers
  import opened Json
  import opened Http
  import opened ConfigSchema
  import opened DbErrors

  /** A row of the user-addon table; `configJSON` is the stored JSON text. */
  datatype InstallRow = InstallRow(userId: string, addonId: string, overlayId: string, configJSON: string)

  const NotAuthorizedMessage: string := "user is not authorized to access this resource"
  /** The `message` of the exceptions the handlers catch. The engine's text
      for a failed `JSON.parse` and Prisma's texts for its constraint errors
      are stand-ins; the text of the TypeError `null.forEach` throws is the
      engine's own. */
  const SyntaxErrorMessage: string := "invalid JSON"
  const NullForEachMessage: string := "Cannot read properties of null (reading 'forEach')"
  const UniqueViolationMessage: string := "Unique constraint failed"
  const ForeignKeyMessage: string := "Foreign key constraint failed"
  const RecordMissingCause: string := "Record to delete does not exist."

  /** The error answer for an exception that `dbErrResponse` can always answer. */
  function Fail(e: ErrorObj): (r: Response)
    requires !(e.PrismaKnown? && e.meta.None?)
    ensures Success(r) == DbErrResponse(e)
  {
    DbErrResponse(e).value
  }

  function NotFoundMessage(addonId: string): string {
    "no such addon '" + addonId + "'"
  }

  /** The default configuration: each field's `default` under its name; for a
      repeated name the last field's default stays. */
  function DefaultConfig(fields: seq<FieldSpec>): (r: Obj)
    ensures forall name :: name in r <==> LastIndex(fields, name) != -1
    ensures forall name | name in r :: r[name] == fields[LastIndex(fields, name)].default
  {
    if fields == [] then map[]
    else
      var init := fields[..|fields| - 1];
      var f := fields[|fields| - 1];
      assert forall k :: 0 <= k < |init| ==> init[k] == fields[k];
      DefaultConfig(init)[f.field := f.default]
  }

  /** The `forEach` that fills `configJSON`, one field at a time. */
  method BuildDefaultConfig(fields: seq<FieldSpec>) returns (configJSON: Obj)
    ensures configJSON == DefaultConfig(fields)
    ensures forall name :: name in configJSON <==> exists i :: 0 <= i < |fields| && fields[i].field == name
  {
    configJSON := map[];
    var i := 0;
    while i < |fields|
      invariant 0 <= i <= |fields|
      invariant configJSON == DefaultConfig(fields[..i])
    {
      assert fields[..i + 1][..i] == fields[..i];
      configJSON := configJSON[fields[i].field := fields[i].default];
      i := i + 1;
    }
    assert fields[..i] == fields;
  }

  /** Whether a field's default satisfies the rule the field compiles to. */
  predicate DefaultConforms(types: EnumTypes, slug: string, f: FieldSpec) {
    match RuleFor(slug, f)
    case None => false
    case Some(rule) => (rule.EnumType? ==> rule.name in types) && Conforms(types, rule, f.default)
  }

  /** A default configuration passes the addon's own validator when every
      field that survives compilation has a conforming default. */
  lemma DefaultsValidate(types: EnumTypes, slug: string, fields: seq<FieldSpec>, s: Schema)
    requires Compile(slug, fields) == Success(s)
    requires Resolved(types, s)
    requires forall i :: 0 <= i < |fields| && LastIndex(fields, fields[i].field) == i ==>
      DefaultConforms(types, slug, fields[i])
    ensures Validate(types, s, DefaultConfig(fields)) == ValidationResult.Valid
  {
    CompileLookup(slug, fields, s);
    var config := DefaultConfig(fields);
    forall j | 0 <= j < |s|
      ensures s[j].0 in config && Conforms(types, s[j].1, config[s[j].0])
    {
      var name := s[j].0;
      LookupAt(s, j);
      var k := LastIndex(fields, name);
      assert k != -1;
      assert LastIndex(fields, fields[k].field) == k;
      assert DefaultConforms(types, slug, fields[k]);
    }
    ValidIffConforms(types, s, config);
  }

  /** `addonInfo.requiresOverlay === false ? '' : ksuid.randomSync().string` */
  function OverlayIdFor(addon: Obj, freshId: string): (r: string)
    ensures r == "" <==> ("requiresOverlay" in addon && addon["requiresOverlay"] == JBool(false)) || freshId == ""
    ensures r != "" ==> r == freshId
  {
    if "requiresOverlay" in addon && addon["requiresOverlay"] == JBool(false) then "" else freshId
  }

  /** The addon record's configuration schema, parsed into a field list. */
  function ParseConfigSchema(addon: Obj, parseSchema: string -> Option<seq<FieldSpec>>): Option<seq<FieldSpec>> {
    if "configSchema" in addon && addon["configSchema"].JStr? then parseSchema(addon["configSchema"].s) else None
  }

  /** The exception when the schema yields no field list: a null schema
      parses to null and `forEach` on it throws a TypeError; a schema text
      that does not parse throws the parse's SyntaxError. A text that parses
      to something other than a field list is folded into the second case. */
  function SchemaErrorMessage(addon: Obj): string {
    if "configSchema" in addon && addon["configSchema"].JNull? then NullForEachMessage else SyntaxErrorMessage
  }

  predicate Installed(rows: seq<InstallRow>, userId: string, addonId: string) {
    exists i :: 0 <= i < |rows| && rows[i].userId == userId && rows[i].addonId == addonId
  }

  /** The rows without the user's row for the addon. */
  function WithoutInstall(rows: seq<InstallRow>, userId: string, addonId: string): (r: seq<InstallRow>)
    ensures !Installed(r, userId, addonId)
    ensures forall x :: x in r <==> x in rows && !(x.userId == userId && x.addonId == addonId)
    ensures !Installed(rows, userId, addonId) ==> r == rows
  {
    if rows == [] then []
    else
      var rest := WithoutInstall(rows[1..], userId, addonId);
      assert forall i :: 1 <= i < |rows| ==> rows[i] == rows[1..][i - 1];
      if rows[0].userId == userId && rows[0].addonId == addonId then rest else [rows[0]] + rest
  }

  /** The 201 body: the created row, with the configuration as an object and
      the overlay URL built from the overlay id (even an empty one). */
  function InstallBody(row: InstallRow, configJSON: Obj, overlayBase: string): Obj {
    map["userId" := JStr(row.userId), "addonId" := JStr(row.addonId), "overlayId" := JStr(row.overlayId),
        "configJSON" := JObj(configJSON), "overlayUrl" := JStr(overlayBase + "/" + row.overlayId)]
  }

  /** The tables the handlers read and write. */
  datatype Tables = Tables(users: set<string>, addons: map<string, Obj>, rows: seq<InstallRow>)

  /** What the handlers take from outside: `JSON.parse` for schemas and for
      stored values, `JSON.stringify`, and the configured `overlayBase`. */
  datatype Env = Env(
    parseSchema: string -> Option<seq<FieldSpec>>,
    parseJson: string -> Option<Json>,
    stringify: Obj -> string,
    overlayBase: string)

  /** The body of `installUserAddon`'s `try`: the exception it throws, or the
      row it creates together with the default configuration. */
  function InstallAttempt(t: Tables, user: Option<string>, addonId: string, freshId: string, env: Env): (r: Result<(InstallRow, Obj), ErrorObj>)
    ensures r.Failure? ==> !r.error.PrismaKnown? || r.error.meta.Some?
    ensures r.Success? ==> user.Some? && r.value.0.userId == user.value && r.value.0.addonId == addonId
  {
    if user.None? then Failure(Unauthorized(NotAuthorizedMessage))
    else if addonId !in t.addons then Failure(NotFound(NotFoundMessage(addonId)))
    else
      match ParseConfigSchema(t.addons[addonId], env.parseSchema)
      case None => Failure(OtherError(SchemaErrorMessage(t.addons[addonId])))
      case Some(fields) =>
        if Installed(t.rows, user.value, addonId) then Failure(PrismaKnown(UniqueViolationMessage, "P2002", Some(PrismaMeta(None))))
        else if user.value !in t.users then Failure(PrismaKnown(ForeignKeyMessage, "P2003", Some(PrismaMeta(None))))
        else
          var configJSON := DefaultConfig(fields);
          Success((InstallRow(user.value, addonId, OverlayIdFor(t.addons[addonId], freshId), env.stringify(configJSON)), configJSON))
  }

  /** `installUserAddon`: the answer (201 with the body, or the error answer)
      and the tables afterwards. */
  function InstallOutcome(t: Tables, user: Option<string>, addonId: string, freshId: string, env: Env): (Response, Tables) {
    match InstallAttempt(t, user, addonId, freshId, env)
    case Success((row, configJSON)) =>
      (Response(201, Some(JObj(InstallBody(row, configJSON, env.overlayBase)))), t.(rows := t.rows + [row]))
    case Failure(e) => (Fail(e), t)
  }

  /** The body of `uninstallUserAddon`'s `try`: the exception, if any. */
  function UninstallAttempt(rows: seq<InstallRow>, user: Option<string>, addonId: string): (r: Option<ErrorObj>)
    ensures r.Some? ==> !r.value.PrismaKnown? || r.value.meta.Some?
  {
    if user.None? then Some(Unauthorized(NotAuthorizedMessage))
    else if !Installed(rows, user.value, addonId) then
      Some(PrismaKnown(RecordMissingCause, "P2025", Some(PrismaMeta(Some(RecordMissingCause)))))
    else None
  }

  /** `uninstallUserAddon`: the answer and the tables afterwards. */
  function UninstallOutcome(t: Tables, user: Option<string>, addonId: string): (Response, Tables) {
    match UninstallAttempt(t.rows, user, addonId)
    case Some(e) => (Fail(e), t)
    case None => (Response(204, None), t.(rows := WithoutInstall(t.rows, user.value, addonId)))
  }

  /** `JSON.parse(addon.configSchema)` on the value the record holds: JSON
      text is parsed, and null reads as the text "null"; an absent schema
      (`JSON.parse(undefined)`) and any other value are a SyntaxError. */
  function ParseSchemaValue(addon: Obj, parseJson: string -> Option<Json>): Option<Json> {
    if "configSchema" !in addon then None
    else match addon["configSchema"]
      case JNull => Some(JNull)
      case JStr(text) => parseJson(text)
      case _ => None
  }

  /** One element of the listing: `{installed: true, ...addon}` with the
      schema and configuration parsed, and the overlay URL when the row has an
      overlay id; a parse failure is the SyntaxError the map throws. */
  function ListingEntry(row: InstallRow, addon: Obj, parseJson: string -> Option<Json>, overlayBase: string): (r: Result<Obj, string>)
    ensures r.Failure? <==>
      "configSchema" !in addon || !(addon["configSchema"].JNull? || addon["configSchema"].JStr?) ||
      (addon["configSchema"].JStr? && parseJson(addon["configSchema"].s).None?) ||
      parseJson(row.configJSON).None?
    ensures r.Success? && "installed" !in addon ==> "installed" in r.value && r.value["installed"] == JBool(true)
    ensures r.Success? ==> forall k | k in addon && k !in {"configSchema", "config", "overlayUrl"} :: k in r.value && r.value[k] == addon[k]
    ensures r.Success? ==> "config" in r.value && parseJson(row.configJSON) == Some(r.value["config"])
    ensures r.Success? && addon["configSchema"].JNull? ==> "configSchema" in r.value && r.value["configSchema"] == JNull
    ensures r.Success? && addon["configSchema"].JStr? ==>
      "configSchema" in r.value && parseJson(addon["configSchema"].s) == Some(r.value["configSchema"])
    ensures r.Success? && row.overlayId != "" ==> "overlayUrl" in r.value && r.value["overlayUrl"] == JStr(overlayBase + "/" + row.overlayId)
    ensures r.Success? && row.overlayId == "" ==> ("overlayUrl" in r.value <==> "overlayUrl" in addon)
  {
    var base := map["installed" := JBool(true)] + addon;
    match ParseSchemaValue(addon, parseJson)
    case None => Failure(SyntaxErrorMessage)
    case Some(schema) =>
      match parseJson(row.configJSON)
      case None => Failure(SyntaxErrorMessage)
      case Some(config) =>
        var entry := base["configSchema" := schema]["config" := config];
        Success(if row.overlayId != "" then entry["overlayUrl" := JStr(overlayBase + "/" + row.overlayId)] else entry)
  }

  /** The user's rows, in table order. */
  function RowsOf(rows: seq<InstallRow>, userId: string): (r: seq<InstallRow>)
    ensures forall x :: x in r <==> x in rows && x.userId == userId
  {
    if rows == [] then []
    else
      var rest := RowsOf(rows[1..], userId);
      if rows[0].userId == userId then [rows[0]] + rest else rest
  }

  /** The listing of the given rows, or the first SyntaxError. */
  function Listing(rows: seq<InstallRow>, addons: map<string, Obj>, parseJson: string -> Option<Json>, overlayBase: string): (r: Result<seq<Json>, string>)
    requires forall i :: 0 <= i < |rows| ==> rows[i].addonId in addons
    ensures r.Success? ==> |r.value| == |rows|
    ensures r.Success? ==> forall i :: 0 <= i < |rows| ==>
      ListingEntry(rows[i], addons[rows[i].addonId], parseJson, overlayBase).Success? &&
      r.value[i] == JObj(ListingEntry(rows[i], addons[rows[i].addonId], parseJson, overlayBase).value)
    ensures r.Failure? <==> exists i :: 0 <= i < |rows| && ListingEntry(rows[i], addons[rows[i].addonId], parseJson, overlayBase).Failure?
  {
    if rows == [] then Success([])
    else
      assert forall i :: 1 <= i < |rows| ==> rows[i] == rows[1..][i - 1];
      match ListingEntry(rows[0], addons[rows[0].addonId], parseJson, overlayBase)
      case Failure(m) => Failure(m)
      case Success(e) =>
        match Listing(rows[1..], addons, parseJson, overlayBase)
        case Failure(m) => Failure(m)
        case Success(rest) => Success([JObj(e)] + rest)
  }

  /** `getUserAddons`: 401 without a user, otherwise the listing of the user's
      rows (or the 500 of a parse failure). */
  function UserAddonsResponse(t: Tables, user: Option<string>, env: Env): (r: Response)
    requires forall i :: 0 <= i < |t.rows| ==> t.rows[i].addonId in t.addons
    ensures user.None? ==> r.status == 401
    ensures user.Some? ==> r.status in {200, 500}
    ensures r.status == 200 ==>
      user.Some? && r.body.Some? && r.body.value.JArr? && |r.body.value.items| == |RowsOf(t.rows, user.value)|
    ensures user.Some? ==>
      var mine := RowsOf(t.rows, user.value);
      (forall i :: 0 <= i < |mine| ==> mine[i].addonId in t.addons) &&
      (r.status == 200 <==> Listing(mine, t.addons, env.parseJson, env.overlayBase).Success?) &&
      (r.status == 200 ==> r.body == Some(JArr(Listing(mine, t.addons, env.parseJson, env.overlayBase).value))) &&
      (r.status == 500 ==>
        (Listing(mine, t.addons, env.parseJson, env.overlayBase).Failure? &&
         r == Error(500, Sanitize(Listing(mine, t.addons, env.parseJson, env.overlayBase).error))))
  {
    if user.None? then Fail(Unauthorized(NotAuthorizedMessage))
    else
      var mine := RowsOf(t.rows, user.value);
      assert forall i :: 0 <= i < |mine| ==> mine[i].addonId in t.addons by {
        forall i | 0 <= i < |mine| ensures mine[i].addonId in t.addons {
          assert mine[i] in t.rows;
        }
      }
      match Listing(mine, t.addons, env.parseJson, env.overlayBase)
      case Failure(m) => Fail(OtherError(m))
      case Success(items) => Response(200, Some(JArr(items)))
  }

  /** The status of an install answer, case by case; only a 201 changes
      the tables. */
  lemma InstallStatus(t: Tables, user: Option<string>, addonId: string, freshId: string, env: Env)
    ensures var (res, t') := InstallOutcome(t, user, addonId, freshId, env);
      var parsed := user.Some? && addonId in t.addons && ParseConfigSchema(t.addons[addonId], env.parseSchema).Some?;
      && (res.status != 201 ==> t' == t)
      && (res.status == 201 <==> (parsed && !Installed(t.rows, user.value, addonId) && user.value in t.users))
      && (user.None? ==> res.status == 401)
      && (user.Some? && addonId !in t.addons ==> res == Error(404, Sanitize(NotFoundMessage(addonId))))
      && (user.Some? && addonId in t.addons && !parsed ==>
            res == Error(500, Sanitize(SchemaErrorMessage(t.addons[addonId]))))
      && (parsed && Installed(t.rows, user.value, addonId) ==> res.status == 409)
      && (parsed && !Installed(t.rows, user.value, addonId) && user.value !in t.users ==> res.status == 404)
  {
    match InstallAttempt(t, user, addonId, freshId, env)
    case Success(_) =>
    case Failure(e) =>
      assert DbErrResponse(e) == Success(Fail(e));
  }

  /** A successful install appends one row whose overlay id is empty exactly
      when the addon says it needs no overlay, and answers with the default
      configuration and the overlay URL. */
  lemma InstallSuccess(t: Tables, user: Option<string>, addonId: string, freshId: string, env: Env)
    requires freshId != ""
    requires InstallOutcome(t, user, addonId, freshId, env).0.status == 201
    ensures var (res, t') := InstallOutcome(t, user, addonId, freshId, env);
      var addon := t.addons[addonId];
      var fields := ParseConfigSchema(addon, env.parseSchema).value;
      && |t'.rows| == |t.rows| + 1 && t'.rows[..|t.rows|] == t.rows
      && t'.rows[|t.rows|].userId == user.value && t'.rows[|t.rows|].addonId == addonId
      && (t'.rows[|t.rows|].overlayId == "" <==> "requiresOverlay" in addon && addon["requiresOverlay"] == JBool(false))
      && res.body == Some(JObj(InstallBody(t'.rows[|t.rows|], DefaultConfig(fields), env.overlayBase)))
  {
    InstallStatus(t, user, addonId, freshId, env);
    var (res, t') := InstallOutcome(t, user, addonId, freshId, env);
    assert t'.rows == t.rows + [t'.rows[|t.rows|]];
    assert (t.rows + [t'.rows[|t.rows|]])[..|t.rows|] == t.rows;
  }

  /** Installing the same addon twice: the second attempt is a conflict and
      leaves the tables as the first left them. */
  lemma {:induction false} InstallTwiceConflicts(t: Tables, user: Option<string>, addonId: string, id1: string, id2: string, env: Env)
    requires InstallOutcome(t, user, addonId, id1, env).0.status == 201
    ensures var t1 := InstallOutcome(t, user, addonId, id1, env).1;
      InstallOutcome(t1, user, addonId, id2, env).0.status == 409 && InstallOutcome(t1, user, addonId, id2, env).1 == t1
  {
    InstallStatus(t, user, addonId, id1, env);
    var t1 := InstallOutcome(t, user, addonId, id1, env).1;
    assert t1.rows[|t.rows|].userId == user.value && t1.rows[|t.rows|].addonId == addonId;
    assert Installed(t1.rows, user.value, addonId);
    InstallStatus(t1, user, addonId, id2, env);
  }

  /** Uninstalling what is not installed is a 404 that changes nothing. */
  lemma UninstallMissing(t: Tables, userId: string, addonId: string)
    requires !Installed(t.rows, userId, addonId)
    ensures UninstallOutcome(t, Some(userId), addonId) == (Error(404, RecordMissingCause), t)
  {
  }

  /** Uninstalling after a successful install answers 204 and restores the
      tables. */
  lemma {:induction false} UninstallAfterInstall(t: Tables, user: Option<string>, addonId: string, freshId: string, env: Env)
    requires InstallOutcome(t, user, addonId, freshId, env).0.status == 201
    ensures UninstallOutcome(InstallOutcome(t, user, addonId, freshId, env).1, user, addonId) == (Response(204, None), t)
  {
    InstallStatus(t, user, addonId, freshId, env);
    var t1 := InstallOutcome(t, user, addonId, freshId, env).1;
    var row := t1.rows[|t.rows|];
    assert t1.rows == t.rows + [row];
    assert Installed(t1.rows, user.value, addonId) by {
      assert t1.rows[|t.rows|].userId == user.value && t1.rows[|t.rows|].addonId == addonId;
    }
    WithoutInstallAppend(t.rows, row, user.value, addonId);
  }

  lemma {:induction false} WithoutInstallAppend(rows: seq<InstallRow>, row: InstallRow, userId: string, addonId: string)
    requires !Installed(rows, userId, addonId)
    requires row.userId == userId && row.addonId == addonId
    ensures WithoutInstall(rows + [row], userId, addonId) == rows
  {
    if rows == [] {
      assert [] + [row] == [row];
      assert [row][1..] == [];
    } else {
      assert (rows + [row])[1..] == rows[1..] + [row];
      assert !Installed(rows[1..], userId, addonId) by {
        forall i | 0 <= i < |rows[1..]| ensures !(rows[1..][i].userId == userId && rows[1..][i].addonId == addonId) {
          assert rows[1..][i] == rows[i + 1];
        }
      }
      assert !(rows[0].userId == userId && rows[0].addonId == addonId);
      WithoutInstallAppend(rows[1..], row, userId, addonId);
      assert rows == [rows[0]] + rows[1..];
    }
  }

  /** One installation row per user and addon. */
  predicate UniqueRows(rows: seq<InstallRow>) {
    forall i, j :: 0 <= i < j < |rows| ==> !(rows[i].userId == rows[j].userId && rows[i].addonId == rows[j].addonId)
  }

  /** The tables the handlers read and write. */
  class AddonDb {
    var users: set<string>
    var addons: map<string, Obj>
    var rows: seq<InstallRow>

    function State(): Tables
      reads this
    {
      Tables(users, addons, rows)
    }

    /** The database's constraints: unique rows, and rows referring to
        existing users and addons. */
    ghost predicate Valid()
      reads this
    {
      UniqueRows(rows) &&
      forall i :: 0 <= i < |rows| ==> rows[i].userId in users && rows[i].addonId in addons
    }

    constructor (users: set<string>, addons: map<string, Obj>)
      ensures Valid() && State() == Tables(users, addons, [])
    {
      this.users := users;
      this.addons := addons;
      rows := [];
    }

    /** `installUserAddon(db, req, res)`. */
    method InstallUserAddon(user: Option<string>, addonId: string, freshId: string, env: Env) returns (res: Response)
      requires Valid()
      modifies this`rows
      ensures Valid()
      ensures (res, State()) == InstallOutcome(old(State()), user, addonId, freshId, env)
    {
      if user.None? {
        return Fail(Unauthorized(NotAuthorizedMessage));
      }
      var userId := user.value;
      if addonId !in addons {
        return Fail(NotFound(NotFoundMessage(addonId)));
      }
      var addonInfo := addons[addonId];
      var schema := ParseConfigSchema(addonInfo, env.parseSchema);
      if schema.None? {
        return Fail(OtherError(SchemaErrorMessage(addonInfo)));
      }
      var overlayId := OverlayIdFor(addonInfo, freshId);
      var configJSON := BuildDefaultConfig(schema.value);
      var data := InstallRow(userId, addonId, overlayId, env.stringify(configJSON));
      if Installed(rows, userId, addonId) {
        return Fail(PrismaKnown(UniqueViolationMessage, "P2002", Some(PrismaMeta(None))));
      }
      if userId !in users {
        return Fail(PrismaKnown(ForeignKeyMessage, "P2003", Some(PrismaMeta(None))));
      }
      rows := rows + [data];
      res := Response(201, Some(JObj(InstallBody(data, configJSON, env.overlayBase))));
    }

    /** `uninstallUserAddon(db, req, res)`. */
    method UninstallUserAddon(user: Option<string>, addonId: string) returns (res: Response)
      requires Valid()
      modifies this`rows
      ensures Valid()
      ensures (res, State()) == UninstallOutcome(old(State()), user, addonId)
    {
      if user.None? {
        return Fail(Unauthorized(NotAuthorizedMessage));
      }
      if !Installed(rows, user.value, addonId) {
        return Fail(PrismaKnown(RecordMissingCause, "P2025", Some(PrismaMeta(Some(RecordMissingCause)))));
      }
      var before := rows;
      WithoutInstallUnique(rows, user.value, addonId);
      rows := WithoutInstall(rows, user.value, addonId);
      forall i | 0 <= i < |rows| ensures rows[i].userId in users && rows[i].addonId in addons {
        assert rows[i] in before;
      }
      res := Response(204, None);
    }

    /** `getUserAddons(db, req, res)`; changes nothing. */
    method GetUserAddons(user: Option<string>, env: Env) returns (res: Response)
      requires Valid()
      ensures res == UserAddonsResponse(State(), user, env)
    {
      res := UserAddonsResponse(State(), user, env);
    }
  }

  /** Removing rows keeps the remaining ones unique. */
  lemma {:induction false} WithoutInstallUnique(rows: seq<InstallRow>, userId: string, addonId: string)
    requires UniqueRows(rows)
    ensures UniqueRows(WithoutInstall(rows, userId, addonId))
    decreases |rows|
  {
    if rows != [] {
      var tail := rows[1..];
      UniqueTail(rows);
      WithoutInstallUnique(tail, userId, addonId);
      var rest := WithoutInstall(tail, userId, addonId);
      if !(rows[0].userId == userId && rows[0].addonId == addonId) {
        UniqueCons(rows[0], rest);
      }
    }
  }

  /** The rows after the first are unique and none shares its key. */
  lemma UniqueTail(rows: seq<InstallRow>)
    requires UniqueRows(rows) && rows != []
    ensures UniqueRows(rows[1..])
    ensures forall y | y in rows[1..] :: !(y.userId == rows[0].userId && y.addonId == rows[0].addonId)
  {
    var tail := rows[1..];
    forall a, b | 0 <= a < b < |tail|
      ensures !(tail[a].userId == tail[b].userId && tail[a].addonId == tail[b].addonId)
    {
      assert tail[a] == rows[a + 1] && tail[b] == rows[b + 1];
    }
    forall y | y in tail ensures !(y.userId == rows[0].userId && y.addonId == rows[0].addonId) {
      var k :| 0 <= k < |tail| && tail[k] == y;
      assert rows[k + 1] == y;
    }
  }

  /** A row whose key no unique row shares can go in front of them. */
  lemma UniqueCons(x: InstallRow, rest: seq<InstallRow>)
    requires UniqueRows(rest)
    requires forall y | y in rest :: !(y.userId == x.userId && y.addonId == x.addonId)
    ensures UniqueRows([x] + rest)
  {
    var r := [x] + rest;
    forall i, j | 0 <= i < j < |r|
      ensures !(r[i].userId == r[j].userId && r[i].addonId == r[j].addonId)
    {
      assert r[j] == rest[j - 1];
      if i > 0 {
        assert r[i] == rest[i - 1];
      }
    }
  }
}
