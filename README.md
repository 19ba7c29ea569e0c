# Ruinous Twitch addons: a Dafny model of the server core

The system is a Twitch companion site. Streamers log in with Twitch, install
"addons" into their channel, configure each addon against a per-addon schema,
and get a private overlay URL to put into their streaming software. A bot
account sits in the chat of every streamer with a chat-driven addon, and each
open overlay page keeps a socket to the server.

This project models the server's core state and logic in Dafny and proves
properties about it. Each source file becomes one module.

| module | file | models |
|---|---|---|
| `SocketMap` | socket_map.dfy | the overlay-socket registry. It is one table indexed twice: by socket id, and by `userId.addonId` into an ordered list of the same entries. |
| `ConfigSchema` | config_schema.dfy | the config-schema compiler (field list to rules, enumeration types registered globally), the module's table of compiled validators, and validation of a candidate configuration |
| `TwitchChat` | twitch_chat.dfy | the bot's chat presence: the client state, the joined channel list, the startup prune of bot data, join and leave, and the `$ruinous` sentinel |
| `DbErrors` | db_errors.dfy | turning an exception into an HTTP error answer |
| `UserAddonsApi` | user_addons_api.dfy | the user-addon API: install, uninstall and listing, over an in-memory installation table |
| `ExpressAddons` | express_addons.dfy | the Express addon listing (installed annotation, timestamp sort) and the user listing |
| `KitAddons` | kit_addons.dfy | the same two listings in the older SvelteKit route tree |
| `Login` | login.dfy | the OAuth login route (the authorization-code grant of section 4.1 of RFC 6749): start of login, return route, callback outcome |
| `ServerSetup` | server_setup.dfy | CORS-origin classification and the invalid-JSON middleware flag |
| `Logging` | logging.dfy | the memoising logger registry |
| `SvelteOverlay` | svelte_overlay.dfy | the template-replacement build plugin |
| `SeedTools` | seed_tools.dfy | the `trim` and `icon` seed helpers |
| `RollupConfig` | rollup_config.dfy | the overlay build-entry generator and the output directory |

Supporting modules:
- `Wrappers` (Option/Result);
- `Json` (a JSON value and an HTTP response);
- `AddonRecords` (the addon record as both listing trees read it: its id and its timestamp sort key);
- `Text` (string search, joining, number rendering);
- `Sorting` (a stable sort by a numeric key, standing in for `Array.prototype.sort` with a subtracting comparator).

Code that mutates module state is modelled as a Dafny class. Each state-changing method is proved against a specification function of the old state.
- `SocketMap.Registry` holds the two maps, with a two-way consistency invariant.
- `ConfigSchema.SchemaCompiler` holds the enumeration-type registry and the validator table.
- `TwitchChat.ChatPresence` holds the client state, the channel list, a log of client calls and the tables it prunes.
- `UserAddonsApi.AddonDb` holds the installation table.
- `Logging.LoggerRegistry` holds the lazily created global logger and the child-logger cache.

The JavaScript details that matter are written out:
- `splice(-1, 1)` removes the last element;
- `substring` clamps its bounds and swaps them when reversed;
- object spread is a right-biased map union;
- `String.prototype.trim` uses its own whitespace set;
- a regular-expression alternation takes the first alternative that matches at a position and does not rescan inserted text;
- `URLSearchParams.set` of a new key appends it.

## Model

| member | source | states |
|---|---|---|
| SocketMap.UserAddonKey | src/addons/lib/socketmap.js:43 | a key exists exactly when the info has an owner, and it is `owner.userId + "." + addonId` |
| SocketMap.CompositeKeyInjective | src/addons/lib/socketmap.js:43 | for user ids without a dot, two composite keys are equal exactly when both the user ids and the addon ids are |
| SocketMap.AddedEffect | src/addons/lib/socketmap.js:72-93 | a known socket id leaves the table unchanged; a fresh one makes the id index exactly the old one plus that id, appends the entry last to its key's list (created when absent), and leaves every other key's list unchanged |
| SocketMap.AddedConsistent | src/addons/lib/socketmap.js:60-94 | adding keeps the two-way invariant: every id-indexed entry is in its own key's list, every listed entry is id-indexed, and no stored list is empty or repeats an id |
| SocketMap.RemovedUnknown | src/addons/lib/socketmap.js:107-111 | removing an unknown socket id leaves the table unchanged |
| SocketMap.RemovedEffect | src/addons/lib/socketmap.js:118-134 | removing a known id makes the id index exactly the old one without that id, splices exactly its entry out of its key's list, keeping the other entries in order, and leaves every other key's list unchanged |
| SocketMap.RemovedConsistent | src/addons/lib/socketmap.js:104-135 | removing keeps the two-way invariant; in particular a list that becomes empty is deleted |
| SocketMap.IndependentRemoval | src/addons/lib/socketmap.js:60-135 | two sockets of one user and addon are both appended, in order, to the key's list, and removing the first leaves the old list followed by the second |
| SocketMap.FindSocketIndex | src/addons/lib/socketmap.js:122 | the loop returns the first index whose socket id matches, or -1 |
| SocketMap.SpliceOut | src/addons/lib/socketmap.js:122-124 | the loop's result is the list without its first element with that socket id |
| SocketMap.Registry.constructor | src/addons/lib/socketmap.js:35-38 | both indexes start empty and consistent |
| SocketMap.Registry.AddSocket | src/addons/lib/socketmap.js:60-94 | reports whether the id was fresh, keeps the invariant, and leaves exactly the state `Added` describes |
| SocketMap.Registry.RemoveSocket | src/addons/lib/socketmap.js:104-135 | reports whether the id was known, keeps the invariant, and leaves exactly the state `Removed` describes |
| SocketMap.Registry.SocketLookupBySocket | src/addons/lib/socketmap.js:143-145 | returns the stored entry when the id is known and nothing otherwise; the entry is also in its key's list |
| SocketMap.Registry.SocketLookupByUser | src/addons/lib/socketmap.js:155-158 | as written, always fails: the key builder reads an `owner` that the argument does not have |
| SocketMap.Registry.SocketLookupByUserCorrected | src/addons/lib/socketmap.js:151-158 | the list stored under the user's key, or empty; every entry in it belongs to that user and addon |
| ConfigSchema.AllowedValues | src/server/lib/schema.js:59 | the allowed list is each element's `value`, in order |
| ConfigSchema.RuleFor | src/server/lib/schema.js:34-70 | `string` gives the string rule, `boolean` the bool rule, `number` and `range` a number rule with the field's bounds, `enum` the type named `slug-field`; any other type gives no rule |
| ConfigSchema.CompileFailure | src/server/lib/schema.js:34-69 | compiling fails exactly when some field has an unknown type, and the TypeError names the first such type |
| ConfigSchema.CompileLookup | src/server/lib/schema.js:31-73 | the compiled schema has one rule per field name, and a repeated name keeps the rule of its last field |
| ConfigSchema.CheckFieldVerdict | src/server/lib/schema.js:39-66 | a field passes exactly when it is present and conforms to its rule |
| ConfigSchema.CheckFieldMessage | src/server/lib/schema.js:64-65 | every message starts with the field's path, and an enumeration's message is `<path> is not one of: [v1, v2, ...]` |
| ConfigSchema.ValidIffConforms | src/server/lib/schema.js:75 | a configuration is valid exactly when every schema field is present and conforms |
| ConfigSchema.ViolationReported | test/schema/schema.test.js:74-83 | every failing field's message is reported in its schema position, between the reasons of the fields before and after it |
| ConfigSchema.SchemaCompiler.CreateConfigSchema | src/server/lib/schema.js:28-76 | the loop's result is the compiled schema, or the TypeError; it registers the enumeration types of the fields processed before any failure, and a compiled schema's types are all registered |
| ConfigSchema.LoadOutcome | src/server/lib/schema.js:13-16 | the start-up loop succeeds exactly when no addon has a field of a rejected type; on failure the error is some addon's compilation TypeError |
| ConfigSchema.LoadCompiles | src/server/lib/schema.js:13-16 | after a successful load every addon's schema compiles |
| ConfigSchema.LoadKeys | src/server/lib/schema.js:13-16 | after a successful load the table's ids are exactly the old ids and the addons' ids |
| ConfigSchema.LoadKeepsOthers | src/server/lib/schema.js:13-16 | an id that no addon carries keeps its old validator, whether or not the load succeeds |
| ConfigSchema.LoadLast | src/server/lib/schema.js:13-16 | after a successful load each id holds the compiled schema of the last addon with that id |
| ConfigSchema.SchemaCompiler.LoadAddonSchemas | src/server/lib/schema.js:13-16 | the new registry, table and outcome are `LoadAll` of the old ones; success exactly when every addon's fields have known types; then the ids are the old ids plus the addons' ids and each id holds the schema of its last addon; other ids keep their validators |
| ConfigSchema.SchemaCompiler.ValidateAddonConfig | src/server/lib/schema.js:87-91 | nothing for an addon with no validator; otherwise that validator's verdict, which is valid exactly when every field conforms |
| TwitchChat.ChatChannels | src/server/twitch.js:43-70 | a username is listed exactly when its user has an installed addon that requires chat |
| TwitchChat.KeepBotTokens | src/server/twitch.js:91-97 | exactly the bot's tokens remain |
| TwitchChat.ClearBotFlags | src/server/twitch.js:102-111 | every non-bot user has `isBot` cleared, the bot's record is untouched, and ids and names are kept |
| TwitchChat.SentinelResponse | src/server/twitch.js:212-214 | there is a reply exactly when the message contains `$ruinous` and the sender is the broadcaster |
| TwitchChat.SpliceLast | src/server/twitch.js:330 | `splice(-1, 1)` removes the last element, and nothing from an empty list |
| TwitchChat.RemoveFirst | src/server/twitch.js:326-330 | removes one occurrence of the name and nothing else |
| TwitchChat.JoinEffect | src/server/twitch.js:299-303 | a name already listed changes nothing; with a client, a new name is appended last and joined exactly once |
| TwitchChat.JoinIdempotent | src/server/twitch.js:299-303 | joining twice leaves what joining once leaves |
| TwitchChat.JoinUnconfiguredThrows | src/server/twitch.js:296-303 | counterexample: with the client still `undefined` (its initial value at line 19), join records the channel and then throws |
| TwitchChat.JoinCorrectedEffect | src/server/twitch.js:291-305 | the corrected join does nothing without a client, and agrees with the code as written when there is one |
| TwitchChat.LeaveEffect | src/server/twitch.js:318-331 | a user who still needs chat stays; otherwise the list becomes exactly the old list without its last element, whichever it is (an empty list stays empty), and the user's channel is parted |
| TwitchChat.LeaveDropsWrongChannel | src/server/twitch.js:326-330 | counterexample: leaving "alice" with "bob" joined last removes "bob" |
| TwitchChat.LeaveCorrectedEffect | src/server/twitch.js:311-333 | the corrected leave removes exactly one occurrence of the user's own channel and keeps every other channel |
| TwitchChat.ChatPresence.constructor | src/server/twitch.js:19-25 | the client starts `undefined`, the channel list empty, and no calls are made |
| TwitchChat.ChatPresence.GetChatChannels | src/server/twitch.js:43-70 | the query over the current tables returns `ChatChannels`: exactly the usernames of users needing chat |
| TwitchChat.ChatPresence.PruneOutdatedBotInformation | src/server/twitch.js:87-112 | afterwards only bot tokens remain and no non-bot user has `isBot` set |
| TwitchChat.ChatPresence.ConfigureTwitchChat | src/server/twitch.js:150-195 | with a client already present, or no token, nothing changes; otherwise the list becomes the users needing chat and one connect call is made |
| TwitchChat.ChatPresence.OnMessage | src/server/twitch.js:212-214 | the reply is sent to the same channel exactly when the sentinel condition holds |
| TwitchChat.ChatPresence.JoinTwitchChannel | src/server/twitch.js:296-305 | the new state and outcome are the as-written `JoinStep` |
| TwitchChat.ChatPresence.JoinTwitchChannelCorrected | src/server/twitch.js:291-305 | the new state is `JoinStepCorrected` |
| TwitchChat.ChatPresence.LeaveTwitchChannel | src/server/twitch.js:316-333 | the new state and outcome are the as-written `LeaveStep`, given the recomputed chat channels |
| TwitchChat.ChatPresence.LeaveTwitchChannelCorrected | src/server/twitch.js:311-333 | the new state is `LeaveStepCorrected` |
| DbErrors.Sanitize | src/server/lib/db.js:69 | the result has no newline, and text without newlines is unchanged |
| DbErrors.SanitizeKeepsOthers | src/server/lib/db.js:69 | sanitizing removes exactly the newlines and keeps every other character, as many times as it occurs |
| DbErrors.SanitizeConcat | src/server/lib/db.js:69 | sanitizing a concatenation sanitizes each part and keeps them in order; with the two rows above this fixes the result as the input with its newlines deleted, the other characters in their order |
| DbErrors.Error | src/server/lib/db.js:15 | the answer has the given status and the body `{success: false, reason}` |
| DbErrors.PrismaStatus | src/server/lib/db.js:38-51 | P2002 gives 409; P2003, P2022 and P2025 give 404; any other code gives 500 (the fallback of line 88) |
| DbErrors.DbErrResponse | src/server/lib/db.js:67-93 | Unauthorized gives 401 and NotFound 404, both checked first; a database error takes its code's status and its cause (if non-empty) or the message; anything else gives 500; a database error without `meta` throws |
| DbErrors.ErrorStatusRange | src/server/lib/db.js:67-93 | every answer's status is 401, 404, 409 or 500; 401 means Unauthorized and 409 means a P2002 database error |
| UserAddonsApi.DefaultConfig | src/server/routes/api/users.js:105-106 | the default config holds exactly the schema's field names, each with the default of its last field |
| UserAddonsApi.BuildDefaultConfig | src/server/routes/api/users.js:105-106 | the loop builds `DefaultConfig` |
| UserAddonsApi.DefaultsValidate | src/server/routes/api/users.js:105-106 | when every field's default conforms to its rule, the default config validates |
| UserAddonsApi.OverlayIdFor | src/server/routes/api/users.js:102 | the overlay id is empty exactly when `requiresOverlay` is `false`; otherwise it is the fresh id |
| UserAddonsApi.WithoutInstall | src/server/routes/api/users.js:151-155 | removes exactly the user's rows for the addon, and nothing when there are none |
| UserAddonsApi.InstallAttempt | src/server/routes/api/users.js:77-118 | a created row belongs to the user and the addon; every thrown database error carries `meta` |
| UserAddonsApi.UninstallAttempt | src/server/routes/api/users.js:144-155 | every thrown database error carries `meta` |
| UserAddonsApi.ListingEntry | src/server/routes/api/users.js:38-49 | fails exactly when the schema is missing or neither a string nor null, a string schema does not parse, or the row's config does not parse; otherwise `{installed: true, ...addon}` with the addon's other fields kept, `config` the parsed config, `configSchema` null for a null schema and the parsed value for a string one, and `overlayUrl` only when the row's overlay id is not empty |
| UserAddonsApi.RowsOf | src/server/routes/api/users.js:30-33 | exactly the user's rows |
| UserAddonsApi.Listing | src/server/routes/api/users.js:38-50 | one element per row, in order, each the row's listing entry; a parse failure anywhere fails the whole listing |
| UserAddonsApi.UserAddonsResponse | src/server/routes/api/users.js:23-56 | no user gives 401; otherwise 200 exactly when `Listing` of the user's rows succeeds, with that listing as the body, and else 500 with the sanitized listing error |
| UserAddonsApi.InstallStatus | src/server/routes/api/users.js:73-132 | 401 without a user, 404 for an unknown addon, 500 for an unparsable schema (the TypeError of `null.forEach` for a null schema, the SyntaxError otherwise), 409 when already installed, 404 for an unknown user, 201 otherwise; only a 201 changes the tables |
| UserAddonsApi.InstallSuccess | src/server/routes/api/users.js:102-127 | a 201 appends one row whose overlay id is empty exactly when `requiresOverlay` is `false`, and answers with the default config and the overlay URL |
| UserAddonsApi.InstallTwiceConflicts | test/user/addons.test.js:61-66 | installing the same addon again answers 409 and changes nothing |
| UserAddonsApi.UninstallMissing | test/user/addons.test.js:41-45 | uninstalling what is not installed answers 404 and changes nothing |
| UserAddonsApi.UninstallAfterInstall | src/server/routes/api/users.js:143-162 | uninstall after a successful install answers 204 and restores the tables |
| UserAddonsApi.WithoutInstallAppend | src/server/routes/api/users.js:151-155 | removing a just-appended unique row gives back the table before it |
| UserAddonsApi.WithoutInstallUnique | src/server/routes/api/users.js:151-155 | removal keeps the table free of duplicate (user, addon) rows |
| UserAddonsApi.AddonDb.constructor | src/server/routes/api/users.js:73-162 | the installation table starts empty and valid |
| UserAddonsApi.AddonDb.InstallUserAddon | src/server/routes/api/users.js:73-132 | the answer and the new tables are `InstallOutcome` of the old tables |
| UserAddonsApi.AddonDb.UninstallUserAddon | src/server/routes/api/users.js:143-162 | the answer and the new tables are `UninstallOutcome` of the old tables |
| UserAddonsApi.AddonDb.GetUserAddons | src/server/routes/api/users.js:23-56 | the answer is `UserAddonsResponse` of the current tables |
| ExpressAddons.LastRowIndex | src/server/routes/api/v1/addons.js:30 | the last row with the addon id, or -1 when there is none |
| ExpressAddons.UserAddonDict | src/server/routes/api/v1/addons.js:30 | keyed by addon id, and a later row overwrites an earlier one |
| ExpressAddons.FetchUserAddons | src/server/routes/api/v1/addons.js:15-32 | empty without a user; otherwise the loop builds `UserAddonDict` |
| ExpressAddons.Annotate | src/server/routes/api/v1/addons.js:68-89 | sets the timestamp; `installed` exactly when the id is a dict key; `config` is the parsed row config, only when installed; `overlayUrl` only when installed with an overlay id; `configSchema` stays null when null and is the parsed value when a string; fails exactly when an installed row's config or a string schema does not parse |
| ExpressAddons.AnnotateAll | src/server/routes/api/v1/addons.js:68-89 | every record annotated in order, or a failure caused by some record |
| ExpressAddons.AnnotateEach | src/server/routes/api/v1/addons.js:68-89 | the in-place loop computes `AnnotateAll` |
| ExpressAddons.AnnotateFailurePropagates | src/server/routes/api/v1/addons.js:68-89 | a failure on a prefix fails the whole pass |
| ExpressAddons.ListAddons | src/server/routes/api/v1/addons.js:56-97 | the handler's answer is `ListAddonsResponse` |
| ExpressAddons.ListAddonsProperties | src/server/routes/api/v1/addons.js:19-92 | a 200 lists every addon once (a permutation), sorted by timestamp; the count does not depend on the user; `installed` marks exactly the addons with a user row |
| ExpressAddons.InstalledMarks | src/server/routes/api/v1/addons.js:73-74 | each record's `installed` is true exactly when the user has a row for its addon |
| ExpressAddons.UserEntry | src/server/routes/api/v1/user/addons.js:41-46 | `installed: true` unless the addon overrides it; the addon's fields are kept; the row's `overlayId` overrides; `overlayUrl` only for a non-empty overlay id |
| ExpressAddons.UserEntries | src/server/routes/api/v1/user/addons.js:39-48 | one element per row, in order |
| ExpressAddons.UserAddonsResponse | src/server/routes/api/v1/user/addons.js:21-55 | without a user, 401 with the error body; otherwise 200 with the entries |
| KitAddons.RowIds | src/routes/api/v1/addons/index.js:27-31 | exactly the addon ids of the user's rows |
| KitAddons.FetchUserAddons | src/routes/api/v1/addons/index.js:16-33 | empty without a token; otherwise the loop builds exactly the rows' addon ids |
| KitAddons.Annotate | src/routes/api/v1/addons/index.js:48-56 | sets the timestamp, `installed` exactly when the id is in the set; `configSchema` stays null when null and is the parsed value when a string; fails exactly on an unparsable schema |
| KitAddons.AnnotateAll | src/routes/api/v1/addons/index.js:48-56 | every record annotated in order, or a failure caused by some record |
| KitAddons.AnnotateEach | src/routes/api/v1/addons/index.js:48-56 | the in-place loop computes `AnnotateAll` |
| KitAddons.AnnotateFailurePropagates | src/routes/api/v1/addons/index.js:48-56 | a failure on a prefix fails the whole pass |
| KitAddons.ListAddons | src/routes/api/v1/addons/index.js:40-63 | the handler's answer is `ListAddonsResponse` |
| KitAddons.ListAddonsProperties | src/routes/api/v1/addons/index.js:20-62 | status 200, every addon once (a permutation), sorted by timestamp, `installed` marking exactly the addons with a user row |
| KitAddons.InstalledMarks | src/routes/api/v1/addons/index.js:50 | each record's `installed` is true exactly when the user has a row for its addon |
| KitAddons.UserEntry | src/routes/api/v1/user/addons.js:29 | `{installed: true, ...addon}`: the addon's fields win on a clash |
| KitAddons.UserEntries | src/routes/api/v1/user/addons.js:29 | one element per row, in order |
| KitAddons.UserAddonsResponse | src/routes/api/v1/user/addons.js:8-31 | 401 with no body exactly when there is no token; otherwise 200 with the entries |
| Login.Scope | src/server/routes/login.js:20-29 | the requested scope is exactly `chat:read chat:edit` |
| Login.SetParam | src/server/routes/login.js:77-84 | setting a new parameter appends it |
| Login.ReturnRoute | src/server/routes/login.js:66-68 | the pathname with its first six characters dropped, with no prefix check; an empty result becomes `/` |
| Login.ReturnRouteUnderLogin | src/server/routes/login.js:66-68 | under `/login` the return route is the rest of the path, or `/` |
| Login.AuthorizeParams | src/server/routes/login.js:77-84 | the four base parameters, then `force_verify` exactly when `force` is present, then `state` set to the return route |
| Login.LoginRedirect | src/server/routes/login.js:58-219 | always 302; with neither code nor error, to the authorize URL; otherwise to `/` unless the exchange succeeds, in which case to `state` with the session cookie |
| Login.CookieLifetime | src/server/routes/login.js:180-200 | the session token and the cookie both take the grant's `expiresIn` |
| Login.LoginHandler.constructor | src/server/routes/login.js:52 | the handler starts with the given settings and tables |
| Login.LoginHandler.DoTwitchLogin | src/server/routes/login.js:52-224 | the answer is `LoginRedirect`; a completed login upserts the user with `isBot` exactly for the bot id, and only then stores the token and configures chat; any other path changes nothing |
| ServerSetup.InvalidJsonMiddleware | src/server/index.js:85-93 | sets `invalid_json` only for a SyntaxError with status 400 and a body, and always continues |
| ServerSetup.CorsEntry | src/server/index.js:105-109 | an entry that starts and ends with `/` becomes a pattern, with `/` giving `/`; every other entry passes through unchanged |
| ServerSetup.CorsPatternRoundTrip | src/server/index.js:105-107 | `/p/` gives back the pattern `p` |
| ServerSetup.CorsDegenerateEntries | src/server/index.js:106 | `/` gives the pattern `/` (the bounds are swapped) and `//` gives the empty pattern |
| ServerSetup.CorsOrigins | src/server/index.js:104-110 | succeeds exactly when every pattern compiles, and then keeps the list's length and order with each entry classified; otherwise fails with the source of the first pattern that does not compile |
| Logging.LoggerRegistry.constructor | src/server/logger.js:12-17 | no global logger and an empty cache |
| Logging.LoggerRegistry.Logger | src/server/logger.js:56-66 | the global logger is created once, on first use; a known subsystem gets its cached handle and a new one a fresh handle that is stored; no other entry changes |
| SvelteOverlay.FirstKeyAt | plugins/svelte-overlay.js:8 | the first key in table order that matches at the position, or -1 |
| SvelteOverlay.NoKeyUnchanged | plugins/svelte-overlay.js:7-9 | text containing no key is unchanged |
| SvelteOverlay.NotRescanned | plugins/svelte-overlay.js:7-9 | for any table and text where a non-empty key matches, its value is emitted and scanning resumes after the matched input: inserted text is never scanned again |
| SvelteOverlay.EarlierKeyWins | plugins/svelte-overlay.js:8 | for any table, where several keys match at a position the earliest in table order wins, even over a longer later key |
| SvelteOverlay.ReplaceConcat | plugins/svelte-overlay.js:7-9 | the replacement is one left-to-right pass: when no key occurrence crosses from `a` into `b`, replacing in `a + b` is replacing in `a` followed by replacing in `b` |
| SvelteOverlay.EmptyTableInsertsUndefined | plugins/svelte-overlay.js:8 | an empty table makes the empty pattern, which matches at every position: the result is `undefined` before every character and once at the end, character by character |
| SvelteOverlay.TemplatePathMatches | plugins/svelte-overlay.js:35 | any id containing `overlays/template/` followed by a single line is transformed |
| SvelteOverlay.OtherPathPasses | plugins/svelte-overlay.js:35-41 | any other id is passed through |
| SvelteOverlay.Transform | plugins/svelte-overlay.js:31-41 | replaces exactly on template ids, and passes through otherwise |
| SvelteOverlay.BundleMatchesTransform | plugins/svelte-overlay.js:46-52 | the asset is named `staticFile` and its source is what `transform` makes of the template |
| SvelteOverlay.Bundle.GenerateBundle | plugins/svelte-overlay.js:46-52 | emits exactly one asset, named `staticFile` |
| SeedTools.Collapse | prisma/data/tools.js:12 | no tab and no two adjacent spaces remain; empty exactly when the input is; the result starts with a space exactly when the input starts with a blank, and a non-blank first or last character is kept |
| SeedTools.CollapseKeepsText | prisma/data/tools.js:12 | the characters other than spaces and tabs are exactly those of the input, in order |
| SeedTools.Trim | prisma/data/tools.js:12 | no tab, no two adjacent spaces, and no leading or trailing whitespace |
| SeedTools.TrimIsCollapsedCore | prisma/data/tools.js:12 | `trim` is the collapse of the text between its first and last non-white-space characters |
| SeedTools.TrimKeepsText | prisma/data/tools.js:12 | the non-white-space characters are exactly those of the input, in order |
| SeedTools.TrimKeepsNewlines | prisma/data/tools.js:5-12 | the newline count equals that of the text between the first and last non-white-space characters, and that of the whole input when its edges are not white space |
| SeedTools.CollapseIdentity | prisma/data/tools.js:12 | text without tabs or double spaces is unchanged by the collapse |
| SeedTools.TrimFixedPoint | prisma/data/tools.js:12 | already-trimmed text is unchanged |
| SeedTools.TrimIdempotent | prisma/data/tools.js:12 | trimming twice is trimming once |
| SeedTools.Icon | prisma/data/tools.js:19 | `/icons/addons/` followed by the name |
| SeedTools.IconRoundTrip | prisma/data/tools.js:19 | the name can be recovered from the icon path, and the path from the name |
| RollupConfig.OutputDir | rollup.config.mjs:15 | `www_root` exactly in production, else `www_root_dev` |
| RollupConfig.ScriptFileFirstHtml | rollup.config.mjs:31 | the first `.html` becomes `.js` |
| RollupConfig.OverlayEntry | rollup.config.mjs:30-53 | the input is `src/overlays/template/overlay.js`, the name `overlay`, the output file `output/overlay/scriptFile`; the replace table is exactly the addon's name, overlay file, script file and id under the four template keys |
| RollupConfig.TemplateKeysDistinct | rollup.config.mjs:44-49 | the four template keys of every addon's table are pairwise distinct |
| RollupConfig.AddonIdFilled | rollup.config.mjs:52 | the addon-id key is replaced by the addon's id |
| RollupConfig.OverlayPositions | rollup.config.mjs:26 | the increasing positions of exactly the addons that need an overlay |
| RollupConfig.OverlaidInOrder | rollup.config.mjs:26 | the filter's k-th element is the addon at the k-th overlay position, so the overlay addons keep their order and none is repeated |
| RollupConfig.GetOverlays | rollup.config.mjs:25-68 | one entry per addon needing an overlay, in addon order |
| RollupConfig.Config | rollup.config.mjs:70-101 | the app bundle first, then the overlay entries |
| Sorting.SortBy | src/server/routes/api/v1/addons.js:90 | the result is sorted by the key and is a permutation of the input |
| Sorting.SortStable | src/server/routes/api/v1/addons.js:90 | the sort is stable: for every key, the elements with that key keep their input order, so addons whose timestamps tie stay in record order |

## Left out

- Prisma, the database and its queries. Tables are in-memory sequences or maps, or query results passed in as inputs. Database failures other than the modelled ones are not modelled, including an upsert failing inside the login callback.
- `getAuthorizedUser` and `getAuthToken`. Their result is an `Option` input. In the Express routes, `.userId` is read from what is already the user id string (src/server/routes/api/v1/addons.js:19-27, src/server/routes/api/v1/user/addons.js:27-32). The model takes the user's installations as input instead of reproducing that lookup.
- `JSON.parse` and `JSON.stringify`. They are function parameters: a parse may fail, and that failure is the SyntaxError the handlers turn into 500.
- The `ksuid` timestamp and fresh id. The timestamp is an uninterpreted function; the fresh id is a parameter.
- `encrypt`/`decrypt`, JWT signing and cookie serialisation. They are opaque functions or plain records.
- The twurple chat client. It is abstracted as a log of connect, join, part and say calls; token refresh, event handlers, `getBotToken` and the startup wiring that calls `configureTwitchChat` are not modelled.
- Concurrency. The handlers are async, but each is modelled as one atomic step.
- Overlay sockets. The source keeps socket ids and composite keys in one object; the model keeps them in two maps, so a socket id equal to some composite key is not modelled. An id or user id containing a `.` could make two composite keys collide; `CompositeKeyInjective` assumes no dot in the user id. The string form of `overlayInfo` that `addSocket` parses first (src/addons/lib/socketmap.js:64-66) is not modelled; the info arrives parsed.
- JavaScript objects as dictionaries. Prototype keys (`logger("toString")`, an addon id such as `__proto__`) and the integer-key ordering of `Object.keys` are not modelled. Dictionaries are maps, and the replace table is a sequence in key order.
- Regular-expression metacharacters in replace keys. Keys are matched literally, and the keys the build uses have none.
- URL parsing and serialisation. The login route takes the parsed pathname and query, and the authorize URL is its ordered parameter list.
- The outer `dbErrResponse` catch of the login route. Only the exchange failure, modelled as an absent exchange result, is handled.
- A state of `undefined` written by `res.set`. An absent `state` is an absent location.
- Numbers in configurations and bounds. They are compared as reals against integer bounds, so fractional bounds are not modelled.
- Newer seed type names (`bool`, `int`, `int-slider`, `float`, `float-slider`). The shown compiler rejects them at src/server/lib/schema.js:68-69, and the model does the same.
- The message `is not an integer` that test/schema/schema.test.js:80 expects. The shown compiler ignores the `integer` flag and cannot produce it.
- The validator library's checking engine. Its behaviour is fixed in `ConfigSchema` as follows:
  - fields are checked in schema order;
  - a missing field fails its type check;
  - bounds are inclusive;
  - an enumeration value must be one of the allowed strings.

  The library's type predicates answer "is invalid", so the `indexOf(item) === -1` test flags exactly the absent values.
- ConfigSchema.CheckField: its contract lives in the lemmas `CheckFieldVerdict` and `CheckFieldMessage`.
- DbErrors.Sanitize: the exact character accounting (only newlines are removed) lives in `SanitizeKeepsOthers`, and the order of the kept characters in `SanitizeConcat`.
- Exception texts. The `message` of a `JSON.parse` SyntaxError (`SyntaxErrorMessage`) and of Prisma's unique and foreign-key errors (`UniqueViolationMessage`, `ForeignKeyMessage`) are stand-ins for the engine's and Prisma's wording; for these only the error's class, code and resulting status are modelled. The TypeError texts are the engine's own `message`, without the `TypeError: ` prefix that only `toString()` adds.
- Schema texts that parse but are not field lists. Stored schemas are taken to be field lists (as the seed data writes them) or text that does not parse. A text that parses to a non-array (`"{}"`), whose `forEach` is not a function, and an array of non-objects (`"[1]"`), which the source installs with an empty configuration, are both folded into the 500 answer with `SyntaxErrorMessage`.
- The database-generated `id` of a created installation row. Rows carry no id, so the 201 body of `InstallBody` omits it.
- Extra keys in an overlay's handshake payload. The source stores `{ socket, ...overlayInfo }` (src/addons/lib/socketmap.js:82); the model takes the payload to have exactly `overlayId`, `addonId` and `owner`. Extra keys, and a `socket` key that would replace the real socket and so hide the entry from `removeSocket`'s `findIndex`, are not modelled. `AddedConsistent` and `RemovedConsistent` hold in the source only for such well-formed payloads.
- A `configSchema` that is neither a string nor null. `JSON.parse` would parse its string form; the model treats it as a SyntaxError.
- Regular-expression syntax. Whether a CORS pattern compiles is a parameter of `CorsOrigins`; the SyntaxError it throws aborts `launch`, and its message is not modelled.
- Shared database tables across modules. The login handler, `ChatPresence` and `AddonDb` each hold their own copy of the user, token and installation tables, so the model does not capture `configureTwitchChat` reading the user the login callback just upserted (src/server/routes/login.js:133-174).
- The request body of the invalid-JSON middleware. The source comment says the body is replaced by an empty object, but the code only sets the flag, and that is what the model does.
- `requiresOverlay` truthiness. In the build it is a boolean. In the install route it is compared with `false` exactly, as written.
- Reading the template file in `generateBundle`. The file system is not modelled; its text is a parameter.
- The app bundle's plugin list in rollup.config.mjs. It is a fixed value with no logic.

## Findings

| source | as written | input that shows it | evidently intended | confidence | as-written member | corrected member |
|---|---|---|---|---|---|---|
| src/addons/lib/socketmap.js:156 | `socketLookupByUser` passes `{userId, addonId}` to `userAddonKey`, which reads `info.owner.userId` | any call, e.g. `socketLookupByUser("u1", "a1")`: `owner` is undefined, so a TypeError is thrown | return the list stored under `userId.addonId`, or an empty list | high; not executed | SocketMap.Registry.SocketLookupByUser | SocketMap.Registry.SocketLookupByUserCorrected |
| src/server/twitch.js:326-330 | `leaveTwitchChannel` splices the index of the user in the recomputed chat list, which is -1 exactly when it gets there | `channelList = ["alice", "bob"]`, leave "alice": "bob" is dropped and "alice" stays | remove the user's own channel from `channelList` | high; not executed | TwitchChat.LeaveDropsWrongChannel | TwitchChat.LeaveCorrectedEffect |
| src/server/twitch.js:299 | the "not initialised" guard compares `chatClient` with `null`, but it starts as `undefined` | join "alice" before any client is configured: "alice" is recorded and `undefined.join` throws | no effect until the chat client is configured | high; not executed | TwitchChat.JoinUnconfiguredThrows | TwitchChat.JoinCorrectedEffect |
