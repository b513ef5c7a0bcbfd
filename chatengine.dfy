/** The chat provider: the state it keeps and the operations it offers.
    Each state update of the provider is a sequential assignment to a
    field; clock readings (`Date.now()`), the random draws and the remote
    text model are parameters of the operations that use them. */
module ChatEngine {
  import opened Types
  import opened JsString
  import opened GeminiService
  import opened BotLogic
  import opened ChatState

  class ChatProvider {
    /** The session's copy of the logged-in user, `None` when logged out. */
    var currentUser: Option<User>
    var users: seq<User>
    var channels: seq<Channel>
    var messages: seq<Message>
    var activeChannelId: string
    var config: AppConfig

    /** The provider as it starts, `startedAt` being the time the seeded
        users were built. */
    constructor (startedAt: int)
      ensures currentUser == None && users == InitialUsers(startedAt)
      ensures channels == MockChannels && messages == []
      ensures activeChannelId == InitialChannelId && config == DefaultConfig
    {
      currentUser := None;
      users := InitialUsers(startedAt);
      channels := MockChannels;
      messages := [];
      activeChannelId := InitialChannelId;
      config := DefaultConfig;
    }

    /** `login(name)`: resume the first non-bot user of that exact name, or
        append a new member (an administrator when the name holds "admin"
        in any case) and make it the session user. */
    method Login(name: string, now: int)
      modifies this
      ensures match FindReturning(old(users), name)
        case Some(k) => users == old(users) && currentUser == Some(old(users)[k])
        case None => users == old(users) + [NewUser(name, now)] && currentUser == Some(NewUser(name, now))
      ensures channels == old(channels) && messages == old(messages)
      ensures activeChannelId == old(activeChannelId) && config == old(config)
    {
      match FindReturning(users, name)
      case Some(k) =>
        currentUser := Some(users[k]);
      case None =>
        var created := NewUser(name, now);
        users := users + [created];
        currentUser := Some(created);
    }

    /** `logout()`: the session ends; every durable record stays. */
    method Logout()
      modifies this
      ensures currentUser == None
      ensures users == old(users) && channels == old(channels) && messages == old(messages)
      ensures activeChannelId == old(activeChannelId) && config == old(config)
    {
      currentUser := None;
    }

    /** `addXp(userId, amount)`: only the user list changes; the session
        copy is not refreshed. */
    method AddXp(userId: string, amount: int)
      modifies this
      ensures users == AddXpTo(old(users), userId, amount)
      ensures currentUser == old(currentUser) && channels == old(channels) && messages == old(messages)
      ensures activeChannelId == old(activeChannelId) && config == old(config)
    {
      users := AddXpTo(users, userId, amount);
    }

    /** `updateUser(id, updates)`: merge into the users with that id and,
        when the session user has that id, into the session copy too. */
    method UpdateUser(userId: string, p: UserUpdate)
      modifies this
      ensures users == UpdateUsers(old(users), userId, p)
      ensures old(currentUser).Some? && old(currentUser).value.id == userId ==>
        currentUser == Some(MergeUser(old(currentUser).value, p))
      ensures !(old(currentUser).Some? && old(currentUser).value.id == userId) ==>
        currentUser == old(currentUser)
      ensures channels == old(channels) && messages == old(messages)
      ensures activeChannelId == old(activeChannelId) && config == old(config)
    {
      users := UpdateUsers(users, userId, p);
      if currentUser.Some? && currentUser.value.id == userId {
        currentUser := Some(MergeUser(currentUser.value, p));
      }
    }

    /** `createChannel(name)`: append a public channel with the normalised
        name; duplicate names are not checked. */
    method CreateChannel(name: string, now: int)
      modifies this
      ensures channels == old(channels) + [NewChannel(name, now)]
      ensures currentUser == old(currentUser) && users == old(users) && messages == old(messages)
      ensures activeChannelId == old(activeChannelId) && config == old(config)
    {
      channels := channels + [NewChannel(name, now)];
    }

    method SetActiveChannelId(channelId: string)
      modifies this
      ensures activeChannelId == channelId
      ensures currentUser == old(currentUser) && users == old(users) && messages == old(messages)
      ensures channels == old(channels) && config == old(config)
    {
      activeChannelId := channelId;
    }

    /** The part of `simulateBotResponse` that runs when its timer fires:
        append the reply as a bot message in the given channel. */
    method SimulateBotResponse(text: string, channelId: string, now: int)
      modifies this
      ensures messages == old(messages) + [TextMessage("msg-" + IntToString(now), channelId, BotId, text, now)]
      ensures currentUser == old(currentUser) && users == old(users) && channels == old(channels)
      ensures activeChannelId == old(activeChannelId) && config == old(config)
    {
      messages := messages + [TextMessage("msg-" + IntToString(now), channelId, BotId, text, now)];
    }

    /** `sendMessage(content)` at time `now`, the bot's reply (if any) being
        posted at `replyAt`. Without a session, or while the session user's
        mute lasts, nothing changes. Otherwise the message is appended to
        the active channel, the sender earns 5 XP, and the bot path chosen
        by `Route` runs: its reply goes to the same channel, and a slot
        award goes to the sender after the 5 XP. */
    method SendMessage(content: string, now: int, replyAt: int, draws: Draws, model: string -> Completion)
      returns (outcome: SendOutcome)
      modifies this
      ensures outcome == SendVerdict(old(currentUser), now)
      ensures outcome != Accepted ==> users == old(users) && messages == old(messages)
      ensures outcome == Accepted ==>
        var sender := old(currentUser).value;
        var channel := old(activeChannelId);
        var action := BotResponse(content, channel, sender, old(users), draws, model);
        && messages == old(messages)
             + [TextMessage("msg-" + IntToString(now), channel, sender.id, content, now)]
             + (if action.reply.Some?
                then [TextMessage("msg-" + IntToString(replyAt), channel, BotId, action.reply.value, replyAt)]
                else [])
        && users == AwardXp(AddXpTo(old(users), sender.id, MessageXp), sender.id, action.award)
      ensures currentUser == old(currentUser) && channels == old(channels)
      ensures activeChannelId == old(activeChannelId) && config == old(config)
    {
      outcome := SendVerdict(currentUser, now);
      if outcome != Accepted {
        return;
      }
      var sender := currentUser.value;
      var channel := activeChannelId;
      var seen := users;
      messages := messages + [TextMessage("msg-" + IntToString(now), channel, sender.id, content, now)];
      AddXp(sender.id, MessageXp);
      match Route(content, channel)
      case CommandRoute(command, args) =>
        var reply, award := HandleCommand(command, args, sender, seen, draws, model);
        if award.Some? {
          AddXp(sender.id, award.value);
        }
        SimulateBotResponse(reply, channel, replyAt);
      case AiRoute(prompt) =>
        SimulateBotResponse(GenerateBotResponse(model, prompt), channel, replyAt);
      case NoRoute =>
    }

    /** `deleteMessage(id)`: the soft delete. */
    method DeleteMessage(id: string)
      modifies this
      ensures messages == MarkDeleted(old(messages), id)
      ensures currentUser == old(currentUser) && users == old(users) && channels == old(channels)
      ensures activeChannelId == old(activeChannelId) && config == old(config)
    {
      messages := MarkDeleted(messages, id);
    }

    /** `updateConfig(updates)`. */
    method UpdateConfig(p: ConfigUpdate)
      modifies this
      ensures config == MergeConfig(old(config), p)
      ensures currentUser == old(currentUser) && users == old(users) && channels == old(channels)
      ensures messages == old(messages) && activeChannelId == old(activeChannelId)
    {
      config := MergeConfig(config, p);
    }
  }
}
