# Chat state and moderation engine, with the bot command dispatcher

This project is a Dafny model of the central part of a group-chat client with
moderation tools and a chat bot.

The chat provider keeps six pieces of state:
- the session user;
- the users, channels and messages;
- the active channel;
- the application configuration.

It offers these operations:
- log in and log out;
- grant experience points (XP), from which the user's level is recomputed;
- merge a partial update into a user or into the configuration;
- create a channel;
- send a message;
- soft-delete a message.

Sending a message goes through these steps:
1. The mute gate.
2. The message is appended.
3. The sender gets 5 XP.
4. At most one bot path runs: a slash command handled by the dispatcher, or a message for the AI delegate (a mention of `@PromptBot`, or any message in the bot channel `6`).
5. The bot's reply, if any, is appended to the channel that was active when the message was sent.

The dispatcher matches the command name without regard to case. It answers:
- `help` and `vip` with fixed texts;
- `moeda` with a coin flip;
- `dado` with a die roll;
- `slot` with a slot machine that may award XP;
- `xp` with an XP card;
- `ranking` with the top three users;
- `ask` with the AI delegate's reply;
- anything else with an "unknown command" text.

Modules, leaf first:
- `Types`: the entities.
- `JsString`: the JavaScript string operations the code relies on.
- `GeminiService`: the AI boundary. The remote model is a parameter `string -> Completion`, and every failure becomes a fixed fallback text.
- `BotLogic`: `handleCommand`.
  - `Dispatch` is the switch, giving a structured reply and the XP award.
  - `ReplyText` renders the reply.
  - `HandleCommand` is the method, and runs the leaderboard loop.
- `ChatState`: the value-level transforms the provider maps over its lists, plus the message routing.
- `ChatEngine`: the provider, a class whose methods assign its fields.

Behaviour of the code that the model keeps as written:
- **`addXp` leaves the session copy alone.** It updates the user list only, so `currentUser` keeps the XP it had at login or at the last `updateUser`. The mute gate reads that copy, and so does `/xp`.
- **The dispatcher sees the user list from before the send.** It gets the list as it was before this message's +5 XP, so `/ranking` does not count the message's own reward.
- **Awards go in order.** The slot award is applied after the +5.
- **Seeded levels break the level rule.** Four of the five seeded users (all but UserDave) do not satisfy `level = floor(xp/100) + 1` (`SeededLevelsDisagree`). So the rule is proved for a user that `addXp` touched (`GrantXp`, `AddXpTo`), not as a global invariant. For the same reason, granting 0 XP is a no-op exactly when the affected users already satisfy the rule (`AddZeroXp`).
- **XP is not clamped at zero.**
- **Commands split on the single space character.** The content after the slash is split on `' '`, not on every kind of whitespace. The `/ask` guard tests whether `args.join(' ')` is empty. So `/ask ` gives the usage text, while `/ask` followed by two spaces sends one space to the model.
- **`slowMode` and `maintenanceMode` gate nothing.** They are only merged by `updateConfig`.

## Model

| member | source | states |
|---|---|---|
| `ChatEngine.ChatProvider.constructor` | context/ChatContext.tsx:50-61 | The provider starts logged out, with the seeded users and channels, no messages, channel `1` active and the default configuration. |
| `ChatState.InitialUsers` | context/ChatContext.tsx:16-26 | Five users are seeded, the bot first. Ids and names are pairwise distinct, every seeded XP is non-negative, every seeded user joined at the start time, and only the first one has the bot role. |
| `ChatState.SeedData` | context/ChatContext.tsx:7-14 | The seeded channels have distinct ids, the first is the initially active channel `1`, and a channel is bot-only iff its id is the bot channel `6`. The default configuration (lines 56-61) allows GIFs, has slow mode and maintenance off and a slow-mode interval of 3. |
| `ChatEngine.ChatProvider.Login` | context/ChatContext.tsx:64-83 | If a non-bot user with exactly that name exists, the first one becomes the session user and the user list is unchanged. Otherwise exactly one new user is appended and becomes the session user. |
| `ChatState.FindReturning` | context/ChatContext.tsx:66 | Returns the index of the first user whose name equals the given name and who is not the bot, or `None` when no user qualifies. |
| `ChatState.IsAdminName` | context/ChatContext.tsx:74 | The test `name.toLowerCase().includes('admin')`. It is stated through `NewUser`'s role clause and `LoginRoleExamples`. |
| `ChatState.NewUser` | context/ChatContext.tsx:70-79 | A new user has the given name, 0 XP, level 1 (consistent with the level rule) and status ONLINE. Its role is ADMIN iff the lower-cased name contains "admin", else MEMBER. |
| `ChatState.LoginRoleExamples` | context/ChatContext.tsx:74 | "Admin1" is created as ADMIN and "bob" as MEMBER. |
| `ChatEngine.ChatProvider.Logout` | context/ChatContext.tsx:85 | The session user becomes `None`; users, channels, messages, active channel and configuration are untouched. |
| `ChatEngine.ChatProvider.AddXp` | context/ChatContext.tsx:88-100 | Only the user list changes, to `AddXpTo` of the old list; the session copy is not refreshed. |
| `ChatState.AddXpTo` | context/ChatContext.tsx:89-99 | The list keeps its length. Users with the given id receive the grant, in place; every other user is unchanged. |
| `ChatState.GrantXp` | context/ChatContext.tsx:91-98 | XP becomes `xp + amount` (not clamped), the level then satisfies the level rule, and every other field is unchanged. |
| `ChatState.Level` | context/ChatContext.tsx:92 | The level `r` is the one with `(r-1)*100 <= xp < r*100`, i.e. `floor(xp/100) + 1`, negative XP included. |
| `ChatState.SeededLevelsDisagree` | context/ChatContext.tsx:16-26 | The seeded bot, AdminAlice, ModMike and VipVictor violate the level rule; UserDave satisfies it. |
| `ChatState.AddXpCompose` | context/ChatContext.tsx:88-99 | Two grants to one id equal one grant of their sum. |
| `ChatState.AddZeroXp` | context/ChatContext.tsx:88-99 | Granting 0 XP leaves the list unchanged iff every user with that id already satisfies the level rule. |
| `ChatState.AddXpKeepsLevels` | context/ChatContext.tsx:92 | If every user satisfies the level rule before `addXp`, every user satisfies it after. |
| `ChatState.AwardXp` | services/botLogic.ts:39-42 | The `updateUserXp` call of the slot machine: no award leaves the users as they were, an award is `addXp` of that amount to the sender. Its property is `SendXpTotal`. |
| `ChatState.SendXpTotal` | context/ChatContext.tsx:154 | After an accepted message, the +5 for chatting and any slot award amount to a single grant of their sum to the sender. |
| `ChatEngine.ChatProvider.UpdateUser` | context/ChatContext.tsx:102-107 | The update is merged into the users with that id. If the session user has that id, the session copy gets the same merge; otherwise it is unchanged. Nothing else changes. |
| `ChatState.UpdateUsers` | context/ChatContext.tsx:103 | The list keeps its length. Matching users are merged with the update in place; the others are unchanged. |
| `ChatState.MergeUser` | context/ChatContext.tsx:103 | Each field of the merged user is the update's value where the update has one, and the old value otherwise; the two optional fields `isMuted` and `muteUntil` follow the same rule. Its laws are `MergeUserLaws`. |
| `ChatState.MergeUserLaws` | context/ChatContext.tsx:103 | Merging an update twice equals merging it once, and an empty update changes nothing. |
| `ChatState.UpdateUsersIdempotent` | context/ChatContext.tsx:103 | Applying `updateUser` twice equals applying it once, even when the update changes the matched id. |
| `ChatEngine.ChatProvider.CreateChannel` | context/ChatContext.tsx:109-116 | Exactly one channel is appended, carrying the normalised name; nothing else changes. |
| `ChatState.NewChannel` | context/ChatContext.tsx:110-114 | The new channel's name is the normalised name, its type is public and it has no description. |
| `ChatState.ChannelSlug` | context/ChatContext.tsx:112 | A normalised name holds no whitespace and no letter A to Z. |
| `ChatState.ChannelSlugIdempotent` | context/ChatContext.tsx:112 | Normalising an already-normalised name gives it back unchanged. |
| `JsString.HyphenateWord` | context/ChatContext.tsx:112 | For the `/\s+/g` replacement: a word, a non-empty whitespace run and the rest become the word, one `-`, and the rest with the same replacement applied. |
| `JsString.HyphenateNoSpace` | context/ChatContext.tsx:112 | A string without whitespace is left unchanged by the replacement. |
| `JsString.Hyphenate` | context/ChatContext.tsx:112 | The result holds no whitespace and is no longer than the input. |
| `JsString.HyphenateChars` | context/ChatContext.tsx:112 | The replacement brings in no character but `-`: every character of the result is `-` or comes from the input. |
| `JsString.HyphenatePrefix` | context/ChatContext.tsx:112 | A prefix without whitespace passes through the replacement unchanged, and the replacement goes on with the rest. |
| `ChatEngine.ChatProvider.SimulateBotResponse` | context/ChatContext.tsx:119-132 | Exactly one text message from the bot user is appended, in the given channel. |
| `ChatEngine.ChatProvider.SendMessage` | context/ChatContext.tsx:134-167 | With no session user, or while the session user is muted, nothing changes. Otherwise there are four effects: (1) one text message is appended, in the channel active at send time, from the sender, with the content unchanged; (2) the sender gets +5 XP, then the slot award if any; (3) at most one bot reply is appended, in that same channel; (4) the session user, channels, active channel and configuration stay as they were. |
| `ChatState.TextMessage` | context/ChatContext.tsx:142-149 | The message both sends append (also lines 122-129): a text message, not deleted, with the given id, channel, author, content and time. Its use is stated by `SimulateBotResponse` and `SendMessage`. |
| `ChatState.ClockIdInjective` | context/ChatContext.tsx:143 | Ids made of one prefix and the decimal text of a clock reading are equal exactly when the readings are equal. |
| `ChatState.IsMutedAt` | context/ChatContext.tsx:137 | The mute test: `isMuted` is true and `muteUntil`, counting an absent value as 0, is later than now. Its properties are `MuteWindow`. |
| `ChatState.MuteWindow` | context/ChatContext.tsx:137 | A mute only runs out: muted at a time means muted at every earlier time; nobody is muted once `muteUntil` (0 when absent) is reached; a user whose `isMuted` is not true is never muted; and a mute with no end time never holds at a time from 0 on. |
| `ChatState.SendVerdict` | context/ChatContext.tsx:135-140 | The send goes ahead iff there is a session user who is not muted at `now`. "Muted" means `isMuted` holds and `muteUntil`, counting an absent value as 0, is later than `now`. |
| `JsString.StartsWith` | context/ChatContext.tsx:157 | `content.startsWith('/')`: the string begins with the pattern. `Route` states its effect on the command path. |
| `ChatState.Route` | context/ChatContext.tsx:157-166 | Exactly one path is taken, in priority order. A leading `/` makes a command: its name and arguments are the space-free pieces that rejoin to the content after the slash. Otherwise a mention, or the bot channel, sends the content with its first mention removed to the AI. Otherwise no reply is produced. |
| `ChatState.SlashCommand` | context/ChatContext.tsx:158 | For content starting with `/`, the slash followed by the first piece and the other pieces joined with spaces is the content again. |
| `ChatState.BotResponse` | context/ChatContext.tsx:156-166 | A reply exists iff a bot path was taken. An award exists only for the `slot` command. The command path posts the rendered reply of `Dispatch` on the routed name and arguments, and passes on its award. The AI path replies with the delegate's answer to the stripped prompt. |
| `ChatEngine.ChatProvider.DeleteMessage` | context/ChatContext.tsx:169-171 | The messages become `MarkDeleted` of the old messages; nothing else changes. |
| `ChatState.MarkDeleted` | context/ChatContext.tsx:170 | The list keeps its length. Messages with that id get `isDeleted` set and keep their place; the others are unchanged. |
| `ChatState.MarkDeletedLaws` | context/ChatContext.tsx:170 | A soft delete changes no field but `isDeleted`. It is idempotent, and it is a no-op when no message has that id. |
| `ChatEngine.ChatProvider.UpdateConfig` | context/ChatContext.tsx:173-175 | The configuration becomes the merge of the update into it; nothing else changes. |
| `ChatState.MergeConfig` | context/ChatContext.tsx:174 | Each of the four settings is the update's value where the update has one, and the old value otherwise. Its laws are `MergeConfigLaws`. |
| `ChatState.MergeConfigLaws` | context/ChatContext.tsx:174 | Merging a configuration update twice equals merging it once, and an empty update changes nothing. |
| `ChatEngine.ChatProvider.SetActiveChannelId` | context/ChatContext.tsx:55 | Only the active channel changes. |
| `JsString.FindFirst` | context/ChatContext.tsx:164 | Returns the first index where the pattern occurs, or `None` exactly when it occurs nowhere. |
| `JsString.Contains` | context/ChatContext.tsx:163 | The substring test holds iff the pattern occurs at some index. |
| `JsString.ContainsNot` | context/ChatContext.tsx:163 | A non-empty pattern whose first character does not occur in the string does not occur in it. |
| `JsString.RemoveFirst` | context/ChatContext.tsx:164 | Without an occurrence the string is unchanged. Otherwise the result is shorter by the pattern's length, and putting the pattern back at its first index restores the string. |
| `JsString.Split` | context/ChatContext.tsx:158 | There is at least one piece, no piece contains a space, and there is exactly one piece iff the string has no space. |
| `JsString.Join` | services/botLogic.ts:63 | `args.join(' ')`: the pieces with one space between each two. Its laws are `JoinSplit`, `SplitJoin` and `SplitFirstRest`. |
| `JsString.JoinSplit` | context/ChatContext.tsx:158 | Joining the pieces of `split(' ')` with `' '` restores the string. |
| `JsString.SplitJoin` | context/ChatContext.tsx:158 | Splitting a join of space-free pieces gives those pieces back. |
| `JsString.SplitFirstRest` | services/botLogic.ts:63 | The first piece is the string up to its first space, and the remaining pieces joined are what follows that space (empty when there is no space). |
| `JsString.Lower` | services/botLogic.ts:12 | Lowering keeps the length, lowers each letter A to Z in place, and leaves no letter A to Z. |
| `JsString.LowerFixedPoint` | services/botLogic.ts:12 | Lowering leaves a string unchanged iff it holds no letter A to Z, so lowering twice equals lowering once. |
| `BotLogic.Dispatch` | services/botLogic.ts:4-70 | Only `slot` ever asks for an award, and only 50 or 10. Every command name outside the eight known ones gets the unknown-command reply and no award. |
| `BotLogic.DispatchIgnoresCase` | services/botLogic.ts:12 | The outcome depends only on the lower-cased command name. |
| `BotLogic.Answer` | services/botLogic.ts:12-69 | The switch on the lower-cased name: only `slot` awards, only 50 or 10, and a name outside the eight known ones gets the unknown-command reply and no award. |
| `BotLogic.ReplyText` | services/botLogic.ts:14-68 | The coin text is the heads text iff heads came up, and the tails text otherwise. The die text names the face. The XP card shows the name right after the opening `**`. The leaderboard starts with its header. The AI answer is posted unchanged. The slot text starts with the first symbol between bars. |
| `BotLogic.DieText` | services/botLogic.ts:28 | For a face from 1 to 6 the text is `You rolled a **` followed by that digit and `**`. |
| `BotLogic.SlotText` | services/botLogic.ts:36 | The text starts with `| `, the first symbol and ` | `. |
| `BotLogic.XpCardText` | services/botLogic.ts:48 | The user's name occurs in the card at index 2, right after the opening `**`. |
| `JsString.NatToString` | services/botLogic.ts:54 | The decimal text of a natural number is non-empty and made of digits only, with no leading zero. |
| `JsString.NatToStringValue` | services/botLogic.ts:48 | Reading the decimal text back gives the number. |
| `JsString.IntToString` | context/ChatContext.tsx:143 | The text of an integer is non-empty, and it starts with `-` iff the integer is negative. |
| `JsString.IntToStringInjective` | context/ChatContext.tsx:111 | Two integers have the same text iff they are equal. |
| `BotLogic.HandleCommand` | services/botLogic.ts:4-70 | The reply text is the rendering of `Dispatch`'s reply, with the leaderboard built by its loop. The award is `Dispatch`'s. |
| `BotLogic.CoinReply` | services/botLogic.ts:24-25 | `moeda` answers one of two fixed texts, heads iff the draw is above one half, and awards nothing. |
| `BotLogic.DieReply` | services/botLogic.ts:27-28 | `dado` reports the draw plus one, a face from 1 to 6, and awards nothing. |
| `BotLogic.SlotAward` | services/botLogic.ts:30-45 | With one distinct symbol shown it awards +50, with two it awards +10, with three it makes no award call. Each rule holds in both directions. |
| `BotLogic.SpinPrize` | services/botLogic.ts:38-45 | The verdict is the jackpot iff the three symbols shown are one symbol, the pair iff they are two distinct symbols, and the miss iff they are three. |
| `BotLogic.PrizeXp` | services/botLogic.ts:38-45 | Only a miss has no award, and an award is 50 or 10. |
| `BotLogic.PrizeText` | services/botLogic.ts:40-45 | The verdict line of the slot machine, one fixed text per verdict. Its property is `PrizeTextAnnouncesAward`. |
| `BotLogic.PrizeTextAnnouncesAward` | services/botLogic.ts:38-45 | A winning verdict's text ends with `(+N XP)`, where N is the XP the verdict awards; the losing text mentions no XP. |
| `BotLogic.QueryCommands` | services/botLogic.ts:13-59 | `help`, `xp`, `vip` and `ranking` award nothing and do not depend on the draws or the model. `xp` reports the passed-in user's name, level and XP unchanged, and `ranking` reports the top three. |
| `BotLogic.SortByXp` | services/botLogic.ts:51 | The copy is a permutation of the input with XP non-increasing, and for every XP value the users with that value keep their input order (a stable sort). |
| `BotLogic.TopThreeSpec` | services/botLogic.ts:51 | The leaderboard has `min(3, |users|)` entries, all from the input, ordered by XP from high to low. No user left out has more XP than a listed one, and among tied users the listed ones come first in input order. |
| `BotLogic.TopThree` | services/botLogic.ts:51 | The leaderboard has `min(3, |users|)` entries; its ordering and membership are `TopThreeSpec`. |
| `BotLogic.RankLine` | services/botLogic.ts:54 | One leaderboard entry: rank, `. `, name, ` (Lvl `, level, `)` and a newline. |
| `BotLogic.RankLines` | services/botLogic.ts:53-55 | The entry lines in order, entry `i` ranked `i + 1`. `RenderLeaderboard` proves the loop builds them. |
| `BotLogic.RenderLeaderboard` | services/botLogic.ts:52-56 | The loop yields the header followed by one line per entry, entry `i` ranked `i+1`. |
| `BotLogic.AskGuard` | services/botLogic.ts:61-65 | `ask` answers the usage text iff the joined arguments are empty. Otherwise it sends the joined text unchanged to the delegate and returns the delegate's reply; it never awards. |
| `GeminiService.GenerateBotResponse` | services/geminiService.ts:8-25 | The reply is never empty. A non-empty model answer comes back unchanged, a failure gives the fixed glitch text, and any other reply is one of the two fallbacks. |

## Left out

- Timing and concurrency: the typing delay of `800 + Math.random() * 1000` ms, `setTimeout` and `async`/`await`. `SendMessage` appends the bot reply in the same call, so no other operation can run between a send and its reply, and waiting replies cannot interleave.
- Clock readings (`Date.now()`, `new Date()`) are parameters. The ids containing them are built from the decimal text of the reading, and equal readings give equal ids, as in the code. Each operation takes one reading `now`, where the code reads the clock several times: `sendMessage` at context/ChatContext.tsx:137, 143 and 147, `login` at :71 and :78, and the seeded users at :17-25 (one `new Date()` each). So in the model a message's id is always `"msg-"` followed by its timestamp, the new user's id matches its join time, and all seeded users share one join time.
- `Math.random()` is the `Draws` parameter: a coin flag, a die index 0–5 and three reel indices 0–4.
- The Gemini client is the parameter `model: string -> Completion`. The system instruction with the default persona text is not passed to it. The delegate's logging call is left out.
- `toLowerCase` is modelled for the ASCII letters A–Z. Other upper-case characters are kept as they are, which affects only non-ASCII characters in lowered names. One effect: the Kelvin sign, which JavaScript lowers to `k`, does not make `ranking` or `ask` match (JavaScript lowers `as\u212A` to `ask`; the model keeps it unmatched).
- XP, levels and times are unbounded integers, not IEEE doubles; `NaN` and rounding are not modelled.
- Reply texts leave out the emoji, and the slot symbols are five distinct names in place of the emoji icons.
- A partial update that sets a field explicitly to `undefined` is not expressible: an absent field in `UserUpdate` or `ConfigUpdate` keeps the old value.
- The `alert` of the mute path is the `Muted` result of `SendMessage`. The empty level-up branch at context/ChatContext.tsx:95-97 does nothing, so nothing of it is modelled.
- React state and context plumbing (`useState`, `useChat`) are left out. State updates are sequential assignments to the provider's fields.
- The user interface components and the role checks they make are left out. The engine enforces no authorisation. The mute toggle of the administration panel is an ordinary `UpdateUser` call.
