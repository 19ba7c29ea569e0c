/** The `/login` route: the start of the authorization-code grant (section 4.1
    of RFC 6749) with Twitch, and the callback that completes it.

    The code exchange and the user lookup at Twitch are one input (None when
    either throws); the current time, the path of the request URL and the
    token encryption are parameters. */
module Login {
  import opened Wrappers
  import Text
  import TwitchChat

  /** The scopes every login asks for. */
  const BotTokenScopes: seq<string> := ["chat:read", "chat:edit"]

  /** `'/login'.length`. */
  const LoginPathLength: nat := 6

  const AuthorizeEndpoint: string := "https://id.twitch.tv/oauth2/authorize"

  /** The query parameters the handler reads. */
  datatype Query = Query(code: Option<string>, error: Option<string>, force: Option<string>, state: Option<string>)

  /** The configured Twitch application. */
  datatype Settings = Settings(clientId: string, callbackUrl: string, botUserId: string)

  /** The token the code exchange returns. */
  datatype Grant = Grant(accessToken: string, refreshToken: string, scopes: Option<seq<string>>,
                         obtainmentTimestamp: int, expiresIn: int)

  /** The user the token belongs to. */
  datatype UserInfo = UserInfo(id: string, name: string, displayName: string, profilePic: string)

  datatype UserRecord = UserRecord(isBot: bool, username: string, displayName: string, profilePic: string)

  datatype TokenRecord = TokenRecord(accessToken: string, refreshToken: string, scopes: seq<string>,
                                     obtainmentTimestamp: int, expiresIn: int)

  /** The payload of the signed session token. */
  datatype Claims = Claims(username: string, userId: string, displayName: string, profilePic: string)

  /** The `authToken` cookie: the signed claims with their lifetime in
      seconds, and the cookie's expiry in milliseconds. */
  datatype AuthCookie = AuthCookie(claims: Claims, tokenExpiresIn: int, expiresAt: int,
                                   httpOnly: bool, secure: bool, sameSite: string)

  /** Where the redirect goes: Twitch's authorize page with its query, or a
      path of this site (None when the `state` parameter was absent). */
  datatype Location = Authorize(params: seq<(string, string)>) | Path(path: Option<string>)

  datatype Redirect = Redirect(status: int, location: Location, setCookie: Option<AuthCookie>)

  /** `bot_token_scopes.join(' ')`. */
  function Scope(): (r: string)
    ensures r == "chat:read chat:edit"
  {
    Text.Join(BotTokenScopes, " ")
  }

  /** `authParams`, in insertion order. */
  function AuthParams(s: Settings): seq<(string, string)> {
    [("client_id", s.clientId), ("redirect_uri", s.callbackUrl), ("response_type", "code"), ("scope", Scope())]
  }

  function Keys(params: seq<(string, string)>): (r: seq<string>)
    ensures |r| == |params| && forall i :: 0 <= i < |params| ==> r[i] == params[i].0
  {
    if params == [] then [] else [params[0].0] + Keys(params[1..])
  }

  /** `URLSearchParams.set` for a key that is not yet present: appended. */
  function SetParam(params: seq<(string, string)>, key: string, value: string): (r: seq<(string, string)>)
    requires key !in Keys(params)
    ensures r == params + [(key, value)]
  {
    params + [(key, value)]
  }

  /** The path after `/login`, or `/` when nothing follows; the prefix is not
      checked, only its length is dropped. */
  function ReturnRoute(pathname: string): (r: string)
    ensures r != ""
    ensures |pathname| > LoginPathLength ==> pathname == pathname[..LoginPathLength] + r
    ensures |pathname| <= LoginPathLength ==> r == "/"
  {
    var rest := if |pathname| <= LoginPathLength then "" else pathname[LoginPathLength..];
    if rest == "" then "/" else rest
  }

  /** Under `/login` the return route is the rest of the path. */
  lemma ReturnRouteUnderLogin(rest: string)
    ensures ReturnRoute("/login" + rest) == if rest == "" then "/" else rest
  {
    assert ("/login" + rest)[LoginPathLength..] == rest;
  }

  /** The query sent to Twitch's authorize page. */
  function AuthorizeParams(s: Settings, q: Query, pathname: string): (r: seq<(string, string)>)
    ensures |r| == if q.force.Some? then 6 else 5
    ensures r[..4] == AuthParams(s)
    ensures r[|r| - 1] == ("state", ReturnRoute(pathname))
    ensures ("force_verify", "true") in r <==> q.force.Some?
  {
    var base := AuthParams(s);
    AuthParamKeys(s);
    KeysAppend(base, ("force_verify", "true"));
    var withForce := if q.force.Some? then SetParam(base, "force_verify", "true") else base;
    assert Keys(withForce) == Keys(base) || Keys(withForce) == Keys(base) + ["force_verify"];
    SetParam(withForce, "state", ReturnRoute(pathname))
  }

  lemma AuthParamKeys(s: Settings)
    ensures Keys(AuthParams(s)) == ["client_id", "redirect_uri", "response_type", "scope"]
  {
  }

  lemma KeysAppend(params: seq<(string, string)>, kv: (string, string))
    ensures Keys(params + [kv]) == Keys(params) + [kv.0]
  {
  }

  /** Whether the request starts a login rather than completing one. */
  predicate StartsLogin(q: Query) {
    q.code.None? && q.error.None?
  }

  function UserRecordOf(info: UserInfo, s: Settings): UserRecord {
    UserRecord(info.id == s.botUserId, info.name, info.displayName, info.profilePic)
  }

  function TokenRecordOf(g: Grant, encrypt: string -> string): TokenRecord {
    TokenRecord(encrypt(g.accessToken), encrypt(g.refreshToken), g.scopes.GetOr([]), g.obtainmentTimestamp, g.expiresIn)
  }

  /** The session cookie for a completed login at time `now` (milliseconds). */
  function SessionCookie(info: UserInfo, g: Grant, now: int): AuthCookie {
    AuthCookie(Claims(info.name, info.id, info.displayName, info.profilePic), g.expiresIn,
               now + g.expiresIn * 1000, true, true, "lax")
  }

  /** The redirect `doTwitchLogin` answers with. */
  function LoginRedirect(s: Settings, q: Query, pathname: string, exchange: Option<(Grant, UserInfo)>, now: int): (r: Redirect)
    ensures r.status == 302
    ensures StartsLogin(q) ==> r.location == Authorize(AuthorizeParams(s, q, pathname)) && r.setCookie.None?
    ensures !StartsLogin(q) ==> r.location.Path?
    ensures !StartsLogin(q) && (q.code.None? || exchange.None?) ==> r == Redirect(302, Path(Some("/")), None)
    ensures !StartsLogin(q) && q.code.Some? && exchange.Some? ==>
      r.location == Path(q.state) && r.setCookie == Some(SessionCookie(exchange.value.1, exchange.value.0, now))
  {
    if StartsLogin(q) then Redirect(302, Authorize(AuthorizeParams(s, q, pathname)), None)
    else if q.code.None? || exchange.None? then Redirect(302, Path(Some("/")), None)
    else Redirect(302, Path(q.state), Some(SessionCookie(exchange.value.1, exchange.value.0, now)))
  }

  /** The session token and the cookie that carries it expire together: both
      take the token's lifetime. */
  lemma CookieLifetime(s: Settings, q: Query, pathname: string, exchange: Option<(Grant, UserInfo)>, now: int)
    requires LoginRedirect(s, q, pathname, exchange, now).setCookie.Some?
    ensures var c := LoginRedirect(s, q, pathname, exchange, now).setCookie.value;
      && exchange.Some? && q.code.Some?
      && c.tokenExpiresIn == exchange.value.0.expiresIn
      && c.expiresAt == now + c.tokenExpiresIn * 1000
      && c.claims.userId == exchange.value.1.id
  {
  }

  /** The login route with the user and token tables it writes. */
  class LoginHandler {
    const settings: Settings
    var users: map<string, UserRecord>
    var tokens: map<string, TokenRecord>

    constructor (settings: Settings, users: map<string, UserRecord>, tokens: map<string, TokenRecord>)
      ensures this.settings == settings && this.users == users && this.tokens == tokens
    {
      this.settings := settings;
      this.users := users;
      this.tokens := tokens;
    }

    /** `doTwitchLogin(db, req, res)`. A completed login upserts the user;
        only the bot account's token is stored and only it configures chat. */
    method DoTwitchLogin(q: Query, pathname: string, exchange: Option<(Grant, UserInfo)>, now: int,
                         encrypt: string -> string, chat: TwitchChat.ChatPresence) returns (r: Redirect)
      requires chat.Valid()
      modifies this`users, this`tokens, chat`chatClient, chat`channelList, chat`calls
      ensures chat.Valid()
      ensures r == LoginRedirect(settings, q, pathname, exchange, now)
      ensures StartsLogin(q) || q.code.None? || exchange.None? ==>
        users == old(users) && tokens == old(tokens) && chat.State() == old(chat.State())
      ensures !StartsLogin(q) && q.code.Some? && exchange.Some? ==>
        var (g, info) := exchange.value;
        var isBot := info.id == settings.botUserId;
        && users == old(users)[info.id := UserRecordOf(info, settings)]
        && users[info.id].isBot == isBot
        && tokens == (if isBot then old(tokens)[info.id := TokenRecordOf(g, encrypt)] else old(tokens))
        && (!isBot || old(chat.chatClient) != TwitchChat.Undefined ==> chat.State() == old(chat.State()))
        && (isBot && old(chat.chatClient) == TwitchChat.Undefined ==>
              chat.State() == TwitchChat.ChatState(TwitchChat.Client, TwitchChat.ChatChannels(chat.users, chat.installs, chat.requiresChat),
                                                   old(chat.calls) + [TwitchChat.ConnectCall(TwitchChat.ChatChannels(chat.users, chat.installs, chat.requiresChat))]))
    {
      if StartsLogin(q) {
        return Redirect(302, Authorize(AuthorizeParams(settings, q, pathname)), None);
      }
      var location: Option<string> := Some("/");
      var setCookie: Option<AuthCookie> := None;
      if q.code.Some? && exchange.Some? {
        var (g, info) := exchange.value;
        var isBot := info.id == settings.botUserId;
        users := users[info.id := UserRecord(isBot, info.name, info.displayName, info.profilePic)];
        if isBot {
          tokens := tokens[info.id := TokenRecordOf(g, encrypt)];
          chat.ConfigureTwitchChat(Some(TwitchChat.TwitchToken(info.id, g.accessToken, g.refreshToken)));
        }
        setCookie := Some(SessionCookie(info, g, now));
        location := q.state;
      }
      r := Redirect(302, Path(location), setCookie);
    }
  }
}
