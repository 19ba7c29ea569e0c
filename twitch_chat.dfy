/** The bot's presence in Twitch chat: which channels it has joined, the chat
    client it joined them with, and the start-up clean-up of bot records.

    The chat library is abstracted as a log of the calls made on the client
    (connect, join, part, say); the database tables are in-memory sequences. */
module TwitchChat {
  import opened Wrappers
  import Text

  datatype TwitchUser = TwitchUser(userId: string, username: string, isBot: bool)
  datatype TwitchToken = TwitchToken(userId: string, accessToken: string, refreshToken: string)
  datatype UserAddon = UserAddon(userId: string, addonId: string)

  /** The JavaScript value held by `chatClient`: `undefined` until configured,
      then a client object. `null` is a value the variable is compared with
      but never holds. */
  datatype ClientRef = Undefined | Null | Client

  /** A call made on the chat client. */
  datatype ChatCall =
    | ConnectCall(channels: seq<string>)
    | JoinCall(channel: string)
    | PartCall(channel: string)
    | SayCall(channel: string, text: string)

  /** How a call returns: normally, or with the TypeError thrown by calling
      the named method on `undefined`. */
  datatype Outcome = Done | TypeError(methodName: string)

  /** The module-level chat state together with the client's call log. */
  datatype ChatState = ChatState(client: ClientRef, channelList: seq<string>, calls: seq<ChatCall>)

  const SentinelText: string := "$ruinous"
  const SentinelReply: string := "I'm the ruinous addon bot and I can confirm your chat is ruinous"

  /** Whether the user has at least one installed addon that needs chat. */
  predicate HasChatAddon(userId: string, installs: seq<UserAddon>, requiresChat: map<string, bool>) {
    exists k :: 0 <= k < |installs| && installs[k].userId == userId &&
      installs[k].addonId in requiresChat && requiresChat[installs[k].addonId]
  }

  /** `getChatChannels()`: the usernames, in table order, of the users with at
      least one installed addon whose `requiresChat` is true. */
  function ChatChannels(users: seq<TwitchUser>, installs: seq<UserAddon>, requiresChat: map<string, bool>): (r: seq<string>)
    ensures |r| <= |users|
    ensures forall name :: name in r <==>
      exists i :: 0 <= i < |users| && users[i].username == name && HasChatAddon(users[i].userId, installs, requiresChat)
  {
    if users == [] then []
    else
      var rest := ChatChannels(users[1..], installs, requiresChat);
      assert forall i :: 1 <= i < |users| ==> users[i] == users[1..][i - 1];
      if HasChatAddon(users[0].userId, installs, requiresChat) then [users[0].username] + rest else rest
  }

  /** The token table after `deleteMany` of every token not owned by the bot. */
  function KeepBotTokens(tokens: seq<TwitchToken>, botUserId: string): (r: seq<TwitchToken>)
    ensures forall t :: t in r <==> t in tokens && t.userId == botUserId
    ensures |r| <= |tokens|
  {
    if tokens == [] then []
    else
      var rest := KeepBotTokens(tokens[1..], botUserId);
      if tokens[0].userId == botUserId then [tokens[0]] + rest else rest
  }

  /** The user table after `updateMany` clears `isBot` on every non-bot user. */
  function ClearBotFlags(users: seq<TwitchUser>, botUserId: string): (r: seq<TwitchUser>)
    ensures |r| == |users|
    ensures forall i :: 0 <= i < |users| ==>
      r[i].userId == users[i].userId && r[i].username == users[i].username
    ensures forall i :: 0 <= i < |users| && users[i].userId == botUserId ==> r[i] == users[i]
    ensures forall i :: 0 <= i < |users| && users[i].userId != botUserId ==> !r[i].isBot
  {
    if users == [] then []
    else
      var u := users[0];
      var rest := ClearBotFlags(users[1..], botUserId);
      assert forall i :: 1 <= i < |users| ==> users[i] == users[1..][i - 1];
      [if u.userId == botUserId then u else u.(isBot := false)] + rest
  }

  /** The reply to a chat message: the confirmation text exactly when the
      message contains the sentinel and its sender is the broadcaster. */
  function SentinelResponse(message: string, isBroadcaster: bool): (r: Option<string>)
    ensures r.Some? <==> Text.Includes(message, SentinelText) && isBroadcaster
    ensures r.Some? ==> r.value == SentinelReply
  {
    if Text.IndexOf(message, SentinelText) != -1 && isBroadcaster then Some(SentinelReply) else None
  }

  /** `channelList.splice(-1, 1)`: a negative start counts from the end, so
      this removes the last element (and nothing from an empty list). */
  function SpliceLast(list: seq<string>): (r: seq<string>)
    ensures list == [] ==> r == []
    ensures list != [] ==> r == list[..|list| - 1] && multiset(r) == multiset(list) - multiset{list[|list| - 1]}
  {
    if list == [] then []
    else
      assert list == list[..|list| - 1] + [list[|list| - 1]];
      list[..|list| - 1]
  }

  /** The list without the first occurrence of `x`. */
  function RemoveFirst(list: seq<string>, x: string): (r: seq<string>)
    ensures multiset(r) == multiset(list) - multiset{x}
    ensures x !in list ==> r == list
  {
    if list == [] then []
    else if list[0] == x then
      assert list == [x] + list[1..];
      list[1..]
    else
      assert list == [list[0]] + list[1..];
      [list[0]] + RemoveFirst(list[1..], x)
  }

  /** `joinTwitchChannel(username)` as written: the guard compares the client
      with `null`, which it never is, so an unconfigured client gets the
      channel pushed and then throws on `undefined.join`. */
  function JoinStep(st: ChatState, username: string): (ChatState, Outcome) {
    if st.client != Null && username !in st.channelList then
      var list := st.channelList + [username];
      if st.client == Undefined then (st.(channelList := list), TypeError("join"))
      else (st.(channelList := list, calls := st.calls + [JoinCall(username)]), Done)
    else (st, Done)
  }

  /** `joinTwitchChannel(username)` as its comment describes it: no effect
      unless a client has been configured. */
  function JoinStepCorrected(st: ChatState, username: string): (ChatState, Outcome) {
    if st.client == Client && username !in st.channelList then
      (st.(channelList := st.channelList + [username], calls := st.calls + [JoinCall(username)]), Done)
    else (st, Done)
  }

  /** `leaveTwitchChannel(username)` as written, given the recomputed chat
      channels: `indexOf` on the recomputed list is -1 exactly when the user
      no longer needs chat, and that -1 is what is spliced. */
  function LeaveStep(st: ChatState, current: seq<string>, username: string): (ChatState, Outcome) {
    if st.client == Null || username in current then (st, Done)
    else
      var list := SpliceLast(st.channelList);
      if st.client == Undefined then (st.(channelList := list), TypeError("part"))
      else (st.(channelList := list, calls := st.calls + [PartCall(username)]), Done)
  }

  /** `leaveTwitchChannel(username)` as evidently intended: only with a
      configured client, and removing the user's own channel. */
  function LeaveStepCorrected(st: ChatState, current: seq<string>, username: string): (ChatState, Outcome) {
    if st.client != Client || username in current then (st, Done)
    else
      (st.(channelList := RemoveFirst(st.channelList, username), calls := st.calls + [PartCall(username)]), Done)
  }

  /** Joining a channel already in the list changes nothing and calls nothing;
      joining a new one with a configured client appends it last and issues
      exactly one join for it. */
  lemma JoinEffect(st: ChatState, username: string)
    ensures username in st.channelList ==> JoinStep(st, username) == (st, Done)
    ensures username !in st.channelList && st.client == Client ==>
      JoinStep(st, username).0.channelList == st.channelList + [username] &&
      JoinStep(st, username).0.calls == st.calls + [JoinCall(username)] &&
      JoinStep(st, username).1 == Done
    ensures st.client != Null ==> username in JoinStep(st, username).0.channelList
  {
  }

  /** Joining is idempotent. */
  lemma JoinIdempotent(st: ChatState, username: string)
    ensures JoinStep(JoinStep(st, username).0, username).0 == JoinStep(st, username).0
  {
  }

  /** Counterexample to the "no effect when not initialised" promise: on an
      unconfigured client the channel is recorded and a TypeError is thrown. */
  lemma JoinUnconfiguredThrows()
    ensures JoinStep(ChatState(Undefined, [], []), "alice") == (ChatState(Undefined, ["alice"], []), TypeError("join"))
  {
    assert [] + ["alice"] == ["alice"];
  }

  /** The corrected join leaves an unconfigured state alone, and with a
      configured client agrees with the code as written. */
  lemma JoinCorrectedEffect(st: ChatState, username: string)
    ensures st.client != Client ==> JoinStepCorrected(st, username) == (st, Done)
    ensures st.client == Client ==> JoinStepCorrected(st, username) == JoinStep(st, username)
  {
  }

  /** A user who still needs chat stays; otherwise the last channel is
      removed (whichever it is) and the user's channel is parted. */
  lemma LeaveEffect(st: ChatState, current: seq<string>, username: string)
    requires st.client != Null
    ensures username in current ==> LeaveStep(st, current, username) == (st, Done)
    ensures username !in current && st.channelList == [] ==>
      LeaveStep(st, current, username).0.channelList == []
    ensures username !in current && st.channelList != [] ==>
      LeaveStep(st, current, username).0.channelList == st.channelList[..|st.channelList| - 1] &&
      multiset(LeaveStep(st, current, username).0.channelList) ==
        multiset(st.channelList) - multiset{st.channelList[|st.channelList| - 1]}
    ensures username !in current && st.client == Client ==>
      LeaveStep(st, current, username).0.calls == st.calls + [PartCall(username)]
  {
  }

  /** Counterexample: leaving "alice" while "bob" was joined last removes
      "bob" from the list and keeps "alice". */
  lemma LeaveDropsWrongChannel()
    ensures LeaveStep(ChatState(Client, ["alice", "bob"], []), [], "alice").0.channelList == ["alice"]
  {
    assert ["alice", "bob"][..1] == ["alice"];
  }

  /** The corrected leave removes exactly one occurrence of the user's own
      channel and keeps every other channel. */
  lemma {:induction false} LeaveCorrectedEffect(st: ChatState, current: seq<string>, username: string)
    requires st.client == Client && username !in current
    ensures multiset(LeaveStepCorrected(st, current, username).0.channelList) ==
      multiset(st.channelList) - multiset{username}
    ensures multiset(st.channelList)[username] <= 1 ==>
      username !in LeaveStepCorrected(st, current, username).0.channelList
    ensures forall c :: c != username ==>
      (c in LeaveStepCorrected(st, current, username).0.channelList <==> c in st.channelList)
  {
    var after := LeaveStepCorrected(st, current, username).0.channelList;
    assert after == RemoveFirst(st.channelList, username);
    forall c | c != username
      ensures c in after <==> c in st.channelList
    {
      assert multiset(after)[c] == multiset(st.channelList)[c];
    }
    if multiset(st.channelList)[username] <= 1 {
      assert multiset(after)[username] == 0;
    }
  }

  /** The chat module's state and the database tables it reads and prunes. */
  class ChatPresence {
    const botUserId: string
    var chatClient: ClientRef
    var channelList: seq<string>
    var calls: seq<ChatCall>
    var users: seq<TwitchUser>
    var tokens: seq<TwitchToken>
    var installs: seq<UserAddon>
    var requiresChat: map<string, bool>

    function State(): ChatState
      reads this
    {
      ChatState(chatClient, channelList, calls)
    }

    /** `chatClient` is only ever `undefined` or a client. */
    ghost predicate Valid()
      reads this
    {
      chatClient != Null
    }

    /** Module load: no client and no channels. */
    constructor (botUserId: string, users: seq<TwitchUser>, tokens: seq<TwitchToken>,
                 installs: seq<UserAddon>, requiresChat: map<string, bool>)
      ensures Valid()
      ensures State() == ChatState(Undefined, [], [])
      ensures this.botUserId == botUserId && this.users == users && this.tokens == tokens
      ensures this.installs == installs && this.requiresChat == requiresChat
    {
      this.botUserId := botUserId;
      chatClient := Undefined;
      channelList := [];
      calls := [];
      this.users := users;
      this.tokens := tokens;
      this.installs := installs;
      this.requiresChat := requiresChat;
    }

    /** `getChatChannels()` against the current tables. */
    method GetChatChannels() returns (r: seq<string>)
      ensures r == ChatChannels(users, installs, requiresChat)
      ensures forall name :: name in r <==>
        exists i :: 0 <= i < |users| && users[i].username == name && HasChatAddon(users[i].userId, installs, requiresChat)
    {
      r := ChatChannels(users, installs, requiresChat);
    }

    /** `pruneOutdatedBotInformation()`: afterwards only the bot's tokens
        remain and no other user is flagged as the bot. */
    method PruneOutdatedBotInformation()
      modifies this`tokens, this`users
      ensures tokens == KeepBotTokens(old(tokens), botUserId)
      ensures users == ClearBotFlags(old(users), botUserId)
      ensures forall t | t in tokens :: t.userId == botUserId
      ensures forall i | 0 <= i < |users| :: users[i].userId != botUserId ==> !users[i].isBot
    {
      tokens := KeepBotTokens(tokens, botUserId);
      users := ClearBotFlags(users, botUserId);
    }

    /** `configureTwitchChat(botUserToken)`: nothing happens when a client
        exists or no token is given; otherwise the channel list is the set of
        users needing chat and a client connects to those channels. */
    method ConfigureTwitchChat(botUserToken: Option<TwitchToken>)
      requires Valid()
      modifies this`chatClient, this`channelList, this`calls
      ensures Valid()
      ensures old(chatClient) != Undefined || botUserToken.None? ==> State() == old(State())
      ensures old(chatClient) == Undefined && botUserToken.Some? ==>
        State() == ChatState(Client, ChatChannels(users, installs, requiresChat),
                             old(calls) + [ConnectCall(ChatChannels(users, installs, requiresChat))])
    {
      if chatClient != Undefined || botUserToken.None? {
        return;
      }
      channelList := GetChatChannels();
      chatClient := Client;
      calls := calls + [ConnectCall(channelList)];
    }

    /** The `onMessage` handler: answer the sentinel in the same channel. */
    method OnMessage(channel: string, message: string, isBroadcaster: bool)
      modifies this`calls
      ensures calls == old(calls) +
        (if Text.Includes(message, SentinelText) && isBroadcaster then [SayCall(channel, SentinelReply)] else [])
    {
      var reply := SentinelResponse(message, isBroadcaster);
      if reply.Some? {
        calls := calls + [SayCall(channel, reply.value)];
      }
    }

    /** `joinTwitchChannel(username)`, as written. */
    method JoinTwitchChannel(username: string) returns (r: Outcome)
      requires Valid()
      modifies this`channelList, this`calls
      ensures Valid()
      ensures (State(), r) == JoinStep(old(State()), username)
    {
      if chatClient != Null && username !in channelList {
        channelList := channelList + [username];
        if chatClient == Undefined {
          return TypeError("join");
        }
        calls := calls + [JoinCall(username)];
      }
      r := Done;
    }

    /** `joinTwitchChannel(username)` with the guard its comment describes. */
    method JoinTwitchChannelCorrected(username: string)
      requires Valid()
      modifies this`channelList, this`calls
      ensures Valid()
      ensures State() == JoinStepCorrected(old(State()), username).0
    {
      if chatClient != Undefined && username !in channelList {
        channelList := channelList + [username];
        calls := calls + [JoinCall(username)];
      }
    }

    /** `leaveTwitchChannel(username)`, as written. */
    method LeaveTwitchChannel(username: string) returns (r: Outcome)
      requires Valid()
      modifies this`channelList, this`calls
      ensures Valid()
      ensures (State(), r) == LeaveStep(old(State()), ChatChannels(users, installs, requiresChat), username)
    {
      if chatClient == Null {
        return Done;
      }
      var currentUsers := GetChatChannels();
      if username !in currentUsers {
        channelList := SpliceLast(channelList);
        if chatClient == Undefined {
          return TypeError("part");
        }
        calls := calls + [PartCall(username)];
      }
      r := Done;
    }

    /** `leaveTwitchChannel(username)` as evidently intended. */
    method LeaveTwitchChannelCorrected(username: string)
      requires Valid()
      modifies this`channelList, this`calls
      ensures Valid()
      ensures State() == LeaveStepCorrected(old(State()), ChatChannels(users, installs, requiresChat), username).0
    {
      if chatClient == Undefined {
        return;
      }
      var currentUsers := GetChatChannels();
      if username !in currentUsers {
        var after := LeaveStepCorrected(State(), currentUsers, username).0;
        channelList := RemoveFirst(channelList, username);
        calls := calls + [PartCall(username)];
        assert State() == after;
      }
    }
  }
}
