/** The value-level parts of the chat provider: the seeded data, the level
    rule, the per-user and per-message transforms that `addXp`,
    `updateUser` and `deleteMessage` map over their lists, the config merge,
    the channel-name normalisation, the login lookup, the mute gate and the
    choice of bot path for a sent message. */
module ChatState {
  import opened Types
  import opened JsString
  import opened GeminiService
  import opened BotLogic

  // ---------------------------------------------------------------- constants

  const BotId := "bot-001"
  /** The token that addresses the bot in an ordinary message. */
  const Mention := "@PromptBot"
  /** The channel whose every message goes to the AI delegate. */
  const BotChannelId := "6"
  /** The channel active when the provider starts. */
  const InitialChannelId := "1"
  /** The XP every accepted message earns its sender. */
  const MessageXp := 5
  const AvatarSeedUrl := "https://api.dicebear.com/7.x/avataaars/svg?seed="

  /** The seeded users; `startedAt` is the `new Date()` they were built at. */
  function InitialUsers(startedAt: int): (r: seq<User>)
    ensures |r| == 5 && r[0].id == BotId && r[0].role == Bot
    ensures forall i :: 0 <= i < |r| ==> r[i].joinedAt == startedAt && r[i].xp >= 0
    ensures forall i, j :: 0 <= i < j < |r| ==> r[i].id != r[j].id && r[i].name != r[j].name
    ensures forall i :: 1 <= i < |r| ==> r[i].role != Bot
  {
    [ User(BotId, "PromptBot", "https://api.dicebear.com/7.x/bottts/svg?seed=promptbot",
           Bot, Online, 99999, 99, startedAt, None, None),
      User("admin-1", "AdminAlice", AvatarSeedUrl + "Alice", Admin, Online, 1200, 12, startedAt, None, None),
      User("mod-1", "ModMike", AvatarSeedUrl + "Mike", Mod, Busy, 500, 5, startedAt, None, None),
      User("vip-1", "VipVictor", AvatarSeedUrl + "Victor", Vip, Online, 800, 8, startedAt, None, None),
      User("u-1", "UserDave", AvatarSeedUrl + "Dave", Member, Offline, 50, 1, startedAt, None, None) ]
  }

  const MockChannels: seq<Channel> := [
    Channel("1", "geral", Public, Some("General chatter")),
    Channel("2", "marketing", Public, Some("Growth hacks")),
    Channel("3", "ajuda", Public, Some("Support & Help")),
    Channel("4", "off-topic", Public, Some("Memes & Random")),
    Channel("5", "divulga\U{00E7}\U{00E3}o", Public, Some("Promote your stuff")),
    Channel(BotChannelId, "bots", BotOnly, Some("Bot commands only"))
  ]

  const DefaultConfig := AppConfig(true, false, 3, false)

  /** The seeded channels have distinct ids, the start channel is the first
      of them and the bot channel is the only bot-only one. The default
      configuration turns the slow mode and the maintenance mode off. */
  lemma SeedData()
    ensures forall i, j :: 0 <= i < j < |MockChannels| ==> MockChannels[i].id != MockChannels[j].id
    ensures MockChannels[0].id == InitialChannelId
    ensures forall i :: 0 <= i < |MockChannels| ==>
      (MockChannels[i].kind == BotOnly <==> MockChannels[i].id == BotChannelId)
    ensures DefaultConfig.allowGifs && !DefaultConfig.slowMode && !DefaultConfig.maintenanceMode
    ensures DefaultConfig.slowModeDuration == 3
  {
  }

  // ---------------------------------------------------------------- levels

  /** `Math.floor(xp / 100) + 1`, for any integer XP (the floor rounds down
      for negative XP too). */
  function Level(xp: int): (r: int)
    ensures (r - 1) * 100 <= xp < r * 100
  {
    xp / 100 + 1
  }

  predicate LevelConsistent(u: User) {
    u.level == Level(u.xp)
  }

  /** Four of the five seeded users break the level rule: the bot (99999 XP,
      level 99), AdminAlice (1200, 12), ModMike (500, 5) and VipVictor (800,
      8). UserDave (50, 1) keeps it. */
  lemma SeededLevelsDisagree(startedAt: int)
    ensures !LevelConsistent(InitialUsers(startedAt)[0])
    ensures !LevelConsistent(InitialUsers(startedAt)[1])
    ensures !LevelConsistent(InitialUsers(startedAt)[2])
    ensures !LevelConsistent(InitialUsers(startedAt)[3])
    ensures LevelConsistent(InitialUsers(startedAt)[4])
  {
  }

  /** The per-user step of `addXp`: XP grows by `amount` (not clamped),
      the level is recomputed from it, nothing else changes. */
  function GrantXp(u: User, amount: int): (r: User)
    ensures r.xp == u.xp + amount
    ensures LevelConsistent(r)
    ensures r.(xp := u.xp, level := u.level) == u
  {
    u.(xp := u.xp + amount, level := Level(u.xp + amount))
  }

  /** `users.map(...)` of `addXp(userId, amount)`: every user with that id is
      granted `amount`, every other user stays as it was, in place. */
  function AddXpTo(users: seq<User>, userId: string, amount: int): (r: seq<User>)
    ensures |r| == |users|
    ensures forall i :: 0 <= i < |users| && users[i].id == userId ==> r[i] == GrantXp(users[i], amount)
    ensures forall i :: 0 <= i < |users| && users[i].id != userId ==> r[i] == users[i]
  {
    if users == [] then []
    else [if users[0].id == userId then GrantXp(users[0], amount) else users[0]]
         + AddXpTo(users[1..], userId, amount)
  }

  /** Two grants to one user are one grant of the sum. */
  lemma AddXpCompose(users: seq<User>, userId: string, a: int, b: int)
    ensures AddXpTo(AddXpTo(users, userId, a), userId, b) == AddXpTo(users, userId, a + b)
  {
    var once := AddXpTo(users, userId, a);
    var twice := AddXpTo(once, userId, b);
    var sum := AddXpTo(users, userId, a + b);
    forall i | 0 <= i < |users| ensures twice[i] == sum[i] {
      if users[i].id == userId {
        GrantXpCompose(users[i], a, b);
      }
    }
  }

  lemma GrantXpCompose(u: User, a: int, b: int)
    ensures GrantXp(GrantXp(u, a), b) == GrantXp(u, a + b)
  {
    assert u.xp + a + b == u.xp + (a + b);
  }

  /** Granting 0 XP changes nothing exactly when every user with that id
      already has the level its XP implies (the seeded users do not). */
  lemma AddZeroXp(users: seq<User>, userId: string)
    ensures AddXpTo(users, userId, 0) == users
        <==> forall i :: 0 <= i < |users| && users[i].id == userId ==> LevelConsistent(users[i])
  {
    if AddXpTo(users, userId, 0) == users {
      forall i | 0 <= i < |users| && users[i].id == userId ensures LevelConsistent(users[i]) {
        assert AddXpTo(users, userId, 0)[i] == users[i];
      }
    }
  }

  /** When every user follows the level rule, they still do after `addXp`. */
  lemma AddXpKeepsLevels(users: seq<User>, userId: string, amount: int)
    requires forall i :: 0 <= i < |users| ==> LevelConsistent(users[i])
    ensures forall i :: 0 <= i < |AddXpTo(users, userId, amount)| ==>
      LevelConsistent(AddXpTo(users, userId, amount)[i])
  {
  }

  /** The slot award, when the dispatcher asked for one. */
  function AwardXp(users: seq<User>, userId: string, award: Option<int>): seq<User> {
    match award
    case None => users
    case Some(amount) => AddXpTo(users, userId, amount)
  }

  /** After an accepted message the sender has received the 5 XP for
      chatting and any slot award as a single grant of their sum. */
  lemma SendXpTotal(users: seq<User>, senderId: string, award: Option<int>)
    ensures AwardXp(AddXpTo(users, senderId, MessageXp), senderId, award)
         == AddXpTo(users, senderId, MessageXp + award.GetOr(0))
  {
    if award.Some? {
      AddXpCompose(users, senderId, MessageXp, award.value);
    }
  }

  // ---------------------------------------------------------------- merges

  /** `{ ...u, ...updates }`: each field present in the update replaces the
      user's; the rest are kept. */
  function MergeUser(u: User, p: UserUpdate): (r: User)
    ensures r.id == p.id.GetOr(u.id) && r.name == p.name.GetOr(u.name)
    ensures r.avatar == p.avatar.GetOr(u.avatar) && r.role == p.role.GetOr(u.role)
    ensures r.status == p.status.GetOr(u.status) && r.xp == p.xp.GetOr(u.xp)
    ensures r.level == p.level.GetOr(u.level) && r.joinedAt == p.joinedAt.GetOr(u.joinedAt)
    ensures r.isMuted == (if p.isMuted.Some? then p.isMuted else u.isMuted)
    ensures r.muteUntil == (if p.muteUntil.Some? then p.muteUntil else u.muteUntil)
  {
    User(p.id.GetOr(u.id), p.name.GetOr(u.name), p.avatar.GetOr(u.avatar), p.role.GetOr(u.role),
         p.status.GetOr(u.status), p.xp.GetOr(u.xp), p.level.GetOr(u.level),
         p.joinedAt.GetOr(u.joinedAt),
         if p.isMuted.Some? then p.isMuted else u.isMuted,
         if p.muteUntil.Some? then p.muteUntil else u.muteUntil)
  }

  /** Merging the same update twice is merging it once, and an empty update
      changes nothing. */
  lemma MergeUserLaws(u: User, p: UserUpdate)
    ensures MergeUser(MergeUser(u, p), p) == MergeUser(u, p)
    ensures MergeUser(u, UserUpdate(None, None, None, None, None, None, None, None, None, None)) == u
  {
  }

  /** `users.map(u => u.id === id ? { ...u, ...updates } : u)`. */
  function UpdateUsers(users: seq<User>, userId: string, p: UserUpdate): (r: seq<User>)
    ensures |r| == |users|
    ensures forall i :: 0 <= i < |users| && users[i].id == userId ==> r[i] == MergeUser(users[i], p)
    ensures forall i :: 0 <= i < |users| && users[i].id != userId ==> r[i] == users[i]
  {
    if users == [] then []
    else [if users[0].id == userId then MergeUser(users[0], p) else users[0]]
         + UpdateUsers(users[1..], userId, p)
  }

  /** Applying an update twice is applying it once, even when the update
      changes the id it was matched on. */
  lemma UpdateUsersIdempotent(users: seq<User>, userId: string, p: UserUpdate)
    ensures UpdateUsers(UpdateUsers(users, userId, p), userId, p) == UpdateUsers(users, userId, p)
  {
    var once := UpdateUsers(users, userId, p);
    forall i | 0 <= i < |users| ensures UpdateUsers(once, userId, p)[i] == once[i] {
      MergeUserLaws(users[i], p);
    }
  }

  /** `{ ...prev, ...updates }` on the configuration. */
  function MergeConfig(c: AppConfig, p: ConfigUpdate): (r: AppConfig)
    ensures r.allowGifs == p.allowGifs.GetOr(c.allowGifs)
    ensures r.slowMode == p.slowMode.GetOr(c.slowMode)
    ensures r.slowModeDuration == p.slowModeDuration.GetOr(c.slowModeDuration)
    ensures r.maintenanceMode == p.maintenanceMode.GetOr(c.maintenanceMode)
  {
    AppConfig(p.allowGifs.GetOr(c.allowGifs), p.slowMode.GetOr(c.slowMode),
              p.slowModeDuration.GetOr(c.slowModeDuration), p.maintenanceMode.GetOr(c.maintenanceMode))
  }

  lemma MergeConfigLaws(c: AppConfig, p: ConfigUpdate)
    ensures MergeConfig(MergeConfig(c, p), p) == MergeConfig(c, p)
    ensures MergeConfig(c, ConfigUpdate(None, None, None, None)) == c
  {
  }

  // ---------------------------------------------------------------- messages

  /** The record `sendMessage` and the bot reply build: a text message that
      is not deleted. */
  function TextMessage(id: string, channelId: string, userId: string, content: string, now: int): Message {
    Message(id, channelId, userId, content, now, Text, None)
  }

  /** Ids built from a prefix and a clock reading (`msg-${Date.now()}`,
      `c-${Date.now()}`, `user-${Date.now()}`) are equal exactly when the
      readings are. */
  lemma ClockIdInjective(prefix: string, a: int, b: int)
    ensures prefix + IntToString(a) == prefix + IntToString(b) <==> a == b
  {
    if prefix + IntToString(a) == prefix + IntToString(b) {
      assert (prefix + IntToString(a))[|prefix|..] == IntToString(a);
      assert (prefix + IntToString(b))[|prefix|..] == IntToString(b);
    }
    IntToStringInjective(a, b);
  }

  /** `messages.map(m => m.id === id ? { ...m, isDeleted: true } : m)`. */
  function MarkDeleted(messages: seq<Message>, id: string): (r: seq<Message>)
    ensures |r| == |messages|
    ensures forall i :: 0 <= i < |messages| && messages[i].id == id ==>
      r[i] == messages[i].(isDeleted := Some(true))
    ensures forall i :: 0 <= i < |messages| && messages[i].id != id ==> r[i] == messages[i]
  {
    if messages == [] then []
    else [if messages[0].id == id then messages[0].(isDeleted := Some(true)) else messages[0]]
         + MarkDeleted(messages[1..], id)
  }

  /** A soft delete keeps every message in place with all its other fields;
      it is idempotent, and a no-op when no message has that id. */
  lemma MarkDeletedLaws(messages: seq<Message>, id: string)
    ensures forall i :: 0 <= i < |messages| ==>
      MarkDeleted(messages, id)[i].(isDeleted := messages[i].isDeleted) == messages[i]
    ensures MarkDeleted(MarkDeleted(messages, id), id) == MarkDeleted(messages, id)
    ensures (forall i :: 0 <= i < |messages| ==> messages[i].id != id) ==> MarkDeleted(messages, id) == messages
  {
    var once := MarkDeleted(messages, id);
    assert forall i :: 0 <= i < |messages| ==> once[i].id == messages[i].id;
  }

  // ---------------------------------------------------------------- channels

  /** `name.toLowerCase().replace(/\s+/g, '-')`. */
  function ChannelSlug(name: string): (r: string)
    ensures NoSpace(r) && IsLowered(r)
  {
    var low := Lower(name);
    var r := Hyphenate(low);
    HyphenateChars(low);
    assert forall i :: 0 <= i < |r| ==> r[i] in r;
    r
  }

  /** A normalised name normalises to itself. */
  lemma ChannelSlugIdempotent(name: string)
    ensures ChannelSlug(ChannelSlug(name)) == ChannelSlug(name)
  {
    var s := ChannelSlug(name);
    LowerFixedPoint(s);
    HyphenateNoSpace(s);
  }

  /** The record `createChannel` appends: a public channel without a
      description, its id taken from the clock. */
  function NewChannel(name: string, now: int): (c: Channel)
    ensures c.name == ChannelSlug(name) && c.kind == Public && c.description == None
  {
    Channel("c-" + IntToString(now), ChannelSlug(name), Public, None)
  }

  // ---------------------------------------------------------------- login

  /** The demo back door: a name holding "admin" in any case. */
  predicate IsAdminName(name: string) {
    Contains(Lower(name), "admin")
  }

  /** The user `login` creates for a new name. */
  function NewUser(name: string, now: int): (u: User)
    ensures u.name == name && u.xp == 0 && u.level == 1 && LevelConsistent(u)
    ensures u.status == Online && u.joinedAt == now
    ensures u.role == (if IsAdminName(name) then Admin else Member)
  {
    User("user-" + IntToString(now), name, AvatarSeedUrl + name,
         if IsAdminName(name) then Admin else Member, Online, 0, 1, now, None, None)
  }

  /** "Admin1" logs in as an administrator, "bob" as a member. */
  lemma LoginRoleExamples(now: int)
    ensures NewUser("Admin1", now).role == Admin
    ensures NewUser("bob", now).role == Member
  {
    var low := Lower("Admin1");
    assert low[..5] == "admin";
    ContainsAt(low, "admin", 0);
    LowerKeeps("bob");
    ContainsNot("bob", "admin");
  }

  predicate IsReturningUser(u: User, name: string) {
    u.name == name && u.role != Bot
  }

  /** `users.find(u => u.name === name && u.role !== 'BOT')`, as an index. */
  function FindReturning(users: seq<User>, name: string): (r: Option<nat>)
    ensures r.Some? ==> r.value < |users| && IsReturningUser(users[r.value], name)
    ensures r.Some? ==> forall j :: 0 <= j < r.value ==> !IsReturningUser(users[j], name)
    ensures r.None? ==> forall j :: 0 <= j < |users| ==> !IsReturningUser(users[j], name)
  {
    if users == [] then None
    else if IsReturningUser(users[0], name) then Some(0)
    else match FindReturning(users[1..], name)
         case Some(k) => Some(k + 1)
         case None => None
  }

  // ---------------------------------------------------------------- sending

  /** The mute gate: muted, and `(muteUntil || 0)` still ahead of `now`. */
  predicate IsMutedAt(u: User, now: int) {
    u.isMuted == Some(true) && u.muteUntil.GetOr(0) > now
  }

  /** A mute only ever runs out: muted at some time means muted at every
      earlier time; it is over once `muteUntil` (0 when absent) is reached;
      a user not muted, or muted with no end time at any time from 0 on, passes
      the gate. */
  lemma MuteWindow(u: User, earlier: int, later: int)
    requires earlier <= later
    ensures IsMutedAt(u, later) ==> IsMutedAt(u, earlier)
    ensures later >= u.muteUntil.GetOr(0) ==> !IsMutedAt(u, later)
    ensures u.isMuted != Some(true) ==> !IsMutedAt(u, later)
    ensures u.muteUntil.None? && later >= 0 ==> !IsMutedAt(u, later)
  {
  }

  datatype SendOutcome = NoSession | Muted | Accepted

  /** Whether `sendMessage` goes ahead for the session user at `now`. */
  function SendVerdict(currentUser: Option<User>, now: int): (v: SendOutcome)
    ensures v == Accepted <==> currentUser.Some? && !IsMutedAt(currentUser.value, now)
    ensures v == NoSession <==> currentUser.None?
  {
    match currentUser
    case None => NoSession
    case Some(u) => if IsMutedAt(u, now) then Muted else Accepted
  }

  /** The bot path a sent message takes. */
  datatype BotRoute = CommandRoute(command: string, args: seq<string>) | AiRoute(prompt: string) | NoRoute

  /** The bot path taken, in the code's priority order: a leading slash
      makes a command whose name is the first space-separated token after
      the slash and whose arguments are the rest; otherwise a mention, or
      the bot channel, sends the content less its first mention to the AI;
      otherwise the bot stays silent. */
  function Route(content: string, channelId: string): (r: BotRoute)
    ensures r.CommandRoute? <==> |content| >= 1 && content[0] == '/'
    ensures r.CommandRoute? ==>
      ' ' !in r.command && (forall i :: 0 <= i < |r.args| ==> ' ' !in r.args[i])
      && content == "/" + Join([r.command] + r.args)
    ensures r.AiRoute? <==>
      !(|content| >= 1 && content[0] == '/') && (Contains(content, Mention) || channelId == BotChannelId)
    ensures r.AiRoute? ==> r.prompt == RemoveFirst(content, Mention)
    ensures r.NoRoute? <==>
      !(|content| >= 1 && content[0] == '/') && !Contains(content, Mention) && channelId != BotChannelId
  {
    if StartsWith(content, "/") then
      var parts := Split(content[1..]);
      SlashCommand(content);
      CommandRoute(parts[0], parts[1..])
    else if Contains(content, Mention) || channelId == BotChannelId then
      AiRoute(RemoveFirst(content, Mention))
    else NoRoute
  }

  /** A command line is the slash followed by its space-separated pieces. */
  lemma SlashCommand(content: string)
    requires |content| >= 1 && content[0] == '/'
    ensures var parts := Split(content[1..]);
      content == "/" + Join([parts[0]] + parts[1..])
  {
    var parts := Split(content[1..]);
    JoinSplit(content[1..]);
    assert parts == [parts[0]] + parts[1..];
    assert content == content[..1] + content[1..];
  }

  /** The reply the bot posts for a message (if any) and the XP award the
      dispatcher asked for (if any). */
  datatype BotAction = BotAction(reply: Option<string>, award: Option<int>)

  /** What the bot does for a message sent by `sender` in `channelId`, the
      dispatcher seeing `users` as they were before the send. */
  function BotResponse(content: string, channelId: string, sender: User, users: seq<User>,
                       draws: Draws, model: string -> Completion): (a: BotAction)
    ensures a.reply.None? <==> Route(content, channelId).NoRoute?
    ensures a.award.Some? ==>
      Route(content, channelId).CommandRoute? && Lower(Route(content, channelId).command) == "slot"
    ensures Route(content, channelId).AiRoute? ==>
      a.reply == Some(GenerateBotResponse(model, Route(content, channelId).prompt))
    ensures Route(content, channelId).CommandRoute? ==>
      var o := Dispatch(Route(content, channelId).command, Route(content, channelId).args,
                        sender, users, draws, model);
      a == BotAction(Some(ReplyText(o.reply)), o.award)
  {
    match Route(content, channelId)
    case CommandRoute(command, args) =>
      var o := Dispatch(command, args, sender, users, draws, model);
      BotAction(Some(ReplyText(o.reply)), o.award)
    case AiRoute(prompt) => BotAction(Some(GenerateBotResponse(model, prompt)), None)
    case NoRoute => BotAction(None, None)
  }
}
