/** The slash-command dispatcher `handleCommand`. A command line has already
    been split into the command name and its arguments; the dispatcher picks
    a reply by the lower-cased name and may ask for an XP award to the
    invoking user. `Math.random()` is replaced by the `Draws` a call makes,
    and the AI delegate by the remote model, a parameter. */
module BotLogic {
  import opened Types
  import opened JsString
  import opened GeminiService

  // ---------------------------------------------------------------- randomness

  /** `Math.floor(Math.random() * 5)`: a reel position. */
  type SlotIndex = i: int | 0 <= i < 5
  /** `Math.floor(Math.random() * 6)`: a die draw before the `+ 1`. */
  type DieIndex = i: int | 0 <= i < 6

  /** The random draws a command may consume: `Math.random() > 0.5` for the
      coin, one die draw and three reel draws. */
  datatype Draws = Draws(
    coinAboveHalf: bool,
    die: DieIndex,
    reel1: SlotIndex,
    reel2: SlotIndex,
    reel3: SlotIndex)

  /** The slot machine's five symbols (named here rather than drawn). */
  const Icons: seq<string> := ["cherry", "lemon", "grapes", "diamond", "seven"]

  lemma IconsDistinct()
    ensures |Icons| == 5
    ensures forall i, j :: 0 <= i < 5 && 0 <= j < 5 ==> (Icons[i] == Icons[j] <==> i == j)
  {
  }

  // ---------------------------------------------------------------- replies

  datatype Prize = Jackpot | Pair | Miss

  /** The slot rule: three equal symbols win the jackpot, otherwise any two
      equal symbols win the pair prize. */
  function SpinPrize(r1: string, r2: string, r3: string): (p: Prize)
    ensures p == Jackpot <==> |{r1, r2, r3}| == 1
    ensures p == Pair <==> |{r1, r2, r3}| == 2
    ensures p == Miss <==> |{r1, r2, r3}| == 3
  {
    if r1 == r2 && r2 == r3 then
      assert {r1, r2, r3} == {r1};
      Jackpot
    else if r1 == r2 || r2 == r3 || r1 == r3 then
      assert r1 == r2 ==> {r1, r2, r3} == {r1, r3};
      assert r1 != r2 ==> {r1, r2, r3} == {r1, r2};
      Pair
    else
      assert {r1, r2, r3} == {r1, r2} + {r3};
      Miss
  }

  /** The XP the slot machine awards for a prize; `None` is no award call. */
  function PrizeXp(p: Prize): (r: Option<int>)
    ensures r.None? <==> p == Miss
    ensures r.Some? ==> r.value == 50 || r.value == 10
  {
    match p
    case Jackpot => Some(50)
    case Pair => Some(10)
    case Miss => None
  }

  /** What the bot answers, before it is rendered as text. */
  datatype Reply =
    | Help
    | Coin(heads: bool)
    | Die(face: int)
    | Slot(r1: string, r2: string, r3: string, prize: Prize)
    | XpCard(name: string, level: int, xp: int)
    | Leaderboard(top: seq<User>)
    | VipPerks
    | AskUsage
    | AiAnswer(text: string)
    | Unknown

  /** A reply and the XP award the dispatcher requested for the invoking
      user (`None`: the award callback was not called). */
  datatype CommandOutcome = CommandOutcome(reply: Reply, award: Option<int>)

  const KnownCommands: set<string> :=
    {"help", "moeda", "dado", "slot", "xp", "ranking", "vip", "ask"}

  const HelpText := "**PromptBot Commands:**\n/moeda - Flip a coin\n/dado - Roll a D6\n"
    + "/slot - Play slots (Cost: 0, Win: 50 XP)\n/xp - Check your XP\n"
    + "/ranking - Top 3 users\n/vip - See VIP perks"
  const HeadsText := "**Heads!**"
  const TailsText := "**Tails!**"
  const VipText := "**VIP Benefits**:\n- Unique Badge\n- Access to restricted channels\n"
    + "- 2x XP Gain on slots\n- Priority Support"
  const AskUsageText := "Usage: /ask [question]"
  const UnknownText := "Unknown command. Try /help."
  const LeaderboardHeader := "**Leaderboard**\n"

  // ---------------------------------------------------------------- ranking

  function Min(a: int, b: int): int {
    if a <= b then a else b
  }

  /** XP never increases along `s`. */
  predicate RankedByXp(s: seq<User>) {
    forall i, j :: 0 <= i < j < |s| ==> s[i].xp >= s[j].xp
  }

  /** The users of `s` whose XP is `v`, in their order in `s`. */
  function WithXp(s: seq<User>, v: int): seq<User> {
    if s == [] then []
    else (if s[0].xp == v then [s[0]] else []) + WithXp(s[1..], v)
  }

  lemma {:induction false} WithXpAppend(a: seq<User>, b: seq<User>, v: int)
    ensures WithXp(a + b, v) == WithXp(a, v) + WithXp(b, v)
  {
    if a != [] {
      assert (a + b)[1..] == a[1..] + b;
      WithXpAppend(a[1..], b, v);
    } else {
      assert a + b == b;
    }
  }

  /** One step of the stable sort: `u` goes in front of the first user whose
      XP is not larger, so it stays ahead of the users tied with it. */
  function InsertByXp(u: User, s: seq<User>): (r: seq<User>)
    ensures |r| == |s| + 1
  {
    if s == [] || s[0].xp <= u.xp then [u] + s
    else [s[0]] + InsertByXp(u, s[1..])
  }

  /** The insertion adds `u` and loses no one. */
  lemma {:induction false} InsertPerm(u: User, s: seq<User>)
    ensures multiset(InsertByXp(u, s)) == multiset(s) + multiset{u}
  {
    if !(s == [] || s[0].xp <= u.xp) {
      InsertPerm(u, s[1..]);
      assert s == [s[0]] + s[1..];
    }
  }

  lemma {:induction false} InsertRanked(u: User, s: seq<User>)
    requires RankedByXp(s)
    ensures RankedByXp(InsertByXp(u, s))
  {
    if s == [] || s[0].xp <= u.xp {
      RankedCons(u, s);
    } else {
      var t := InsertByXp(u, s[1..]);
      InsertRanked(u, s[1..]);
      forall j | 0 <= j < |t| ensures s[0].xp >= t[j].xp {
        InsertMembers(u, s[1..], j);
      }
      RankedCons(s[0], t);
    }
  }

  /** A user may go in front of a ranked list that it outranks. */
  lemma RankedCons(u: User, s: seq<User>)
    requires RankedByXp(s)
    requires forall j :: 0 <= j < |s| ==> u.xp >= s[j].xp
    ensures RankedByXp([u] + s)
  {
    var r := [u] + s;
    forall i, j | 0 <= i < j < |r| ensures r[i].xp >= r[j].xp {
      assert r[j] == s[j - 1];
      if i > 0 {
        assert r[i] == s[i - 1];
      }
    }
  }

  /** Each user of the insertion is the inserted one or one of the list. */
  lemma {:induction false} InsertMembers(u: User, s: seq<User>, j: int)
    requires 0 <= j < |InsertByXp(u, s)|
    ensures InsertByXp(u, s)[j] == u || exists k :: 0 <= k < |s| && InsertByXp(u, s)[j] == s[k]
  {
    if s == [] || s[0].xp <= u.xp {
      if j > 0 {
        assert InsertByXp(u, s)[j] == s[j - 1];
      }
    } else if j > 0 {
      InsertMembers(u, s[1..], j - 1);
      if InsertByXp(u, s[1..])[j - 1] != u {
        var k :| 0 <= k < |s[1..]| && InsertByXp(u, s[1..])[j - 1] == s[1..][k];
        assert s[1..][k] == s[k + 1];
      }
    }
  }

  lemma {:induction false} InsertWithXp(u: User, s: seq<User>, v: int)
    ensures WithXp(InsertByXp(u, s), v) == (if u.xp == v then [u] else []) + WithXp(s, v)
  {
    if s == [] || s[0].xp <= u.xp {
      WithXpCons(u, s, v);
    } else {
      var t := InsertByXp(u, s[1..]);
      InsertWithXp(u, s[1..], v);
      WithXpCons(s[0], t, v);
      WithXpCons(s[0], s[1..], v);
      assert s == [s[0]] + s[1..];
    }
  }

  lemma WithXpCons(x: User, s: seq<User>, v: int)
    ensures WithXp([x] + s, v) == (if x.xp == v then [x] else []) + WithXp(s, v)
  {
    assert ([x] + s)[1..] == s;
  }

  /** `[...users].sort((a, b) => b.xp - a.xp)`: ordered by XP from high to
      low, users of equal XP in their input order (the sort is stable). */
  function SortByXp(s: seq<User>): (r: seq<User>)
    ensures |r| == |s|
    ensures multiset(r) == multiset(s)
    ensures RankedByXp(r)
    ensures forall v :: WithXp(r, v) == WithXp(s, v)
  {
    if s == [] then []
    else
      var t := SortByXp(s[1..]);
      assert s == [s[0]] + s[1..];
      InsertRanked(s[0], t);
      InsertPerm(s[0], t);
      forall v ensures WithXp(InsertByXp(s[0], t), v) == WithXp(s, v) {
        InsertWithXp(s[0], t, v);
      }
      InsertByXp(s[0], t)
  }

  /** `.slice(0, 3)` of the sorted copy. */
  function TopThree(users: seq<User>): (r: seq<User>)
    ensures |r| == Min(3, |users|)
  {
    SortByXp(users)[..Min(3, |users|)]
  }

  /** The leaderboard lists `min(3, |users|)` users drawn from `users`, by XP
      from high to low; no user left off has more XP than one listed; and
      among users of one XP value the listed ones are the first ones in
      input order. */
  lemma TopThreeSpec(users: seq<User>)
    ensures |TopThree(users)| == Min(3, |users|)
    ensures RankedByXp(TopThree(users))
    ensures multiset(TopThree(users)) <= multiset(users)
    ensures forall u, i ::
      u in multiset(users) - multiset(TopThree(users)) && 0 <= i < |TopThree(users)|
      ==> u.xp <= TopThree(users)[i].xp
    ensures forall v :: WithXp(TopThree(users), v) <= WithXp(users, v)
  {
    var sorted := SortByXp(users);
    var k := Min(3, |users|);
    PrefixOfRanked(sorted, k);
    LeftOffRankLower(sorted, k);
  }

  lemma PrefixOfRanked(sorted: seq<User>, k: nat)
    requires RankedByXp(sorted) && k <= |sorted|
    ensures RankedByXp(sorted[..k])
    ensures multiset(sorted) - multiset(sorted[..k]) == multiset(sorted[k..])
    ensures multiset(sorted[..k]) <= multiset(sorted)
    ensures forall v :: WithXp(sorted[..k], v) <= WithXp(sorted, v)
  {
    assert sorted == sorted[..k] + sorted[k..];
    assert multiset(sorted) == multiset(sorted[..k]) + multiset(sorted[k..]);
    forall v ensures WithXp(sorted[..k], v) <= WithXp(sorted, v) {
      WithXpAppend(sorted[..k], sorted[k..], v);
    }
  }

  lemma LeftOffRankLower(sorted: seq<User>, k: nat)
    requires RankedByXp(sorted) && k <= |sorted|
    ensures forall u, i :: u in multiset(sorted[k..]) && 0 <= i < k ==> u.xp <= sorted[i].xp
  {
    forall u, i | u in multiset(sorted[k..]) && 0 <= i < k
      ensures u.xp <= sorted[i].xp
    {
      var rest := sorted[k..];
      assert u in rest;
      var j :| 0 <= j < |rest| && rest[j] == u;
      assert sorted[k + j] == u;
    }
  }

  /** One line of the leaderboard: `${rank}. ${name} (Lvl ${level})`. */
  function RankLine(rank: int, u: User): string {
    Template([IntToString(rank), ". ", u.name, " (Lvl ", IntToString(u.level), ")\n"])
  }

  /** The lines of the leaderboard, entry `i` ranked `i + 1`. */
  function RankLines(top: seq<User>): string
    decreases |top|
  {
    if top == [] then []
    else RankLines(top[..|top| - 1]) + RankLine(|top|, top[|top| - 1])
  }

  lemma RankLinesStep(top: seq<User>, i: nat)
    requires i < |top|
    ensures RankLines(top[..i + 1]) == RankLines(top[..i]) + RankLine(i + 1, top[i])
  {
    assert top[..i + 1][..i] == top[..i];
  }

  /** The `forEach` that builds the leaderboard text. */
  method RenderLeaderboard(top: seq<User>) returns (msg: string)
    ensures msg == LeaderboardHeader + RankLines(top)
  {
    msg := LeaderboardHeader;
    var i := 0;
    assert top[..0] == [];
    while i < |top|
      invariant 0 <= i <= |top|
      invariant msg == LeaderboardHeader + RankLines(top[..i])
    {
      RankLinesStep(top, i);
      msg := msg + RankLine(i + 1, top[i]);
      i := i + 1;
    }
    assert top[..|top|] == top;
  }

  // ---------------------------------------------------------------- dispatch

  /** `handleCommand` as a choice of reply and award. */
  function Dispatch(command: string, args: seq<string>, user: User, users: seq<User>,
                    draws: Draws, model: string -> Completion): (o: CommandOutcome)
    ensures o.award.Some? ==> Lower(command) == "slot"
    ensures o.award.Some? ==> o.award.value == 50 || o.award.value == 10
    ensures Lower(command) !in KnownCommands ==> o == CommandOutcome(Unknown, None)
  {
    Answer(Lower(command), args, user, users, draws, model)
  }

  /** The switch on the lower-cased command name `c`. */
  function Answer(c: string, args: seq<string>, user: User, users: seq<User>,
                  draws: Draws, model: string -> Completion): (o: CommandOutcome)
    ensures o.award.Some? ==> c == "slot"
    ensures o.award.Some? ==> o.award.value == 50 || o.award.value == 10
    ensures c !in KnownCommands ==> o == CommandOutcome(Unknown, None)
  {
    if c == "help" then CommandOutcome(Help, None)
    else if c == "moeda" then CommandOutcome(Coin(draws.coinAboveHalf), None)
    else if c == "dado" then CommandOutcome(Die(draws.die + 1), None)
    else if c == "slot" then
      var r1, r2, r3 := Icons[draws.reel1], Icons[draws.reel2], Icons[draws.reel3];
      var p := SpinPrize(r1, r2, r3);
      CommandOutcome(Slot(r1, r2, r3, p), PrizeXp(p))
    else if c == "xp" then CommandOutcome(XpCard(user.name, user.level, user.xp), None)
    else if c == "ranking" then CommandOutcome(Leaderboard(TopThree(users)), None)
    else if c == "vip" then CommandOutcome(VipPerks, None)
    else if c == "ask" then
      var query := Join(args);
      if query == [] then CommandOutcome(AskUsage, None)
      else CommandOutcome(AiAnswer(GenerateBotResponse(model, query)), None)
    else CommandOutcome(Unknown, None)
  }

  /** The verdict after the reels. */
  function PrizeText(p: Prize): string {
    match p
    case Jackpot => "**JACKPOT!** (+50 XP)"
    case Pair => "**Nice match!** (+10 XP)"
    case Miss => "Better luck next time!"
  }

  /** The text a winning verdict ends with: the amount it announces. */
  function AwardTag(amount: int): string {
    "(+" + IntToString(amount) + " XP)"
  }

  /** A winning verdict ends by announcing the very amount the award call
      passes; a miss mentions no XP. */
  lemma PrizeTextAnnouncesAward(p: Prize)
    ensures PrizeXp(p).Some? ==>
      var text, tag := PrizeText(p), AwardTag(PrizeXp(p).value);
      |tag| <= |text| && text[|text| - |tag|..] == tag
    ensures PrizeXp(p).None? ==> 'X' !in PrizeText(p)
  {
    match p
    case Jackpot =>
      assert AwardTag(50) == "(+50 XP)" by { assert NatToString(5) == "5"; }
    case Pair =>
      assert AwardTag(10) == "(+10 XP)" by { assert NatToString(1) == "1"; }
    case Miss =>
  }

  /** `🎲 You rolled a **${face}**`: a face from 1 to 6 is one digit. */
  function DieText(face: int): (s: string)
    ensures 1 <= face <= 6 ==> s == "You rolled a **" + [DigitChar(face)] + "**"
  {
    Template3("You rolled a **", IntToString(face), "**");
    Template(["You rolled a **", IntToString(face), "**"])
  }

  /** `🎰 | ${r1} | ${r2} | ${r3} |` followed by the verdict. */
  function SlotText(r1: string, r2: string, r3: string, p: Prize): (s: string)
    ensures StartsWith(s, "| " + r1 + " | ")
  {
    var chunks := ["| ", r1, " | ", r2, " | ", r3, " | ", PrizeText(p)];
    assert chunks == ["| ", r1, " | "] + chunks[3..];
    TemplateSplit(["| ", r1, " | "], chunks[3..]);
    Template3("| ", r1, " | ");
    Template(chunks)
  }

  /** `📊 **${name}**\nLevel: ${level}\nXP: ${xp}`: the name comes right
      after the opening `**`. */
  function XpCardText(name: string, level: int, xp: int): (s: string)
    ensures IsMatchAt(s, name, 2)
  {
    var chunks := ["**", name, "**\nLevel: ", IntToString(level), "\nXP: ", IntToString(xp)];
    assert chunks[1..][1..] == chunks[2..];
    assert Template(chunks) == "**" + (name + Template(chunks[2..]));
    Template(chunks)
  }

  /** The reply as the text the bot posts. */
  function ReplyText(r: Reply): (s: string)
    ensures r.Coin? ==> (s == HeadsText <==> r.heads) && (s == TailsText <==> !r.heads)
    ensures r.Die? && 1 <= r.face <= 6 ==> s == "You rolled a **" + [DigitChar(r.face)] + "**"
    ensures r.XpCard? ==> IsMatchAt(s, r.name, 2)
    ensures r.Leaderboard? ==> StartsWith(s, LeaderboardHeader)
    ensures r.AiAnswer? ==> s == r.text
    ensures r.Slot? ==> StartsWith(s, "| " + r.r1 + " | ")
  {
    match r
    case Help => HelpText
    case Coin(heads) => if heads then HeadsText else TailsText
    case Die(face) => DieText(face)
    case Slot(r1, r2, r3, p) => SlotText(r1, r2, r3, p)
    case XpCard(name, level, xp) => XpCardText(name, level, xp)
    case Leaderboard(top) =>
      assert (LeaderboardHeader + RankLines(top))[..|LeaderboardHeader|] == LeaderboardHeader;
      LeaderboardHeader + RankLines(top)
    case VipPerks => VipText
    case AskUsage => AskUsageText
    case AiAnswer(text) => text
    case Unknown => UnknownText
  }

  /** `handleCommand(command, args, user, users, updateUserXp)`: the reply
      text, and the amount passed to `updateUserXp(user.id, ...)` if it was
      called. */
  method HandleCommand(command: string, args: seq<string>, user: User, users: seq<User>,
                       draws: Draws, model: string -> Completion)
    returns (reply: string, award: Option<int>)
    ensures reply == ReplyText(Dispatch(command, args, user, users, draws, model).reply)
    ensures award == Dispatch(command, args, user, users, draws, model).award
  {
    var o := Dispatch(command, args, user, users, draws, model);
    award := o.award;
    if o.reply.Leaderboard? {
      reply := RenderLeaderboard(o.reply.top);
    } else {
      reply := ReplyText(o.reply);
    }
  }

  // ---------------------------------------------------------------- properties

  /** The command name is matched without regard to case. */
  lemma DispatchIgnoresCase(command: string, args: seq<string>, user: User, users: seq<User>,
                            draws: Draws, model: string -> Completion)
    ensures Dispatch(command, args, user, users, draws, model)
         == Dispatch(Lower(command), args, user, users, draws, model)
  {
    LowerFixedPoint(command);
  }

  /** The slot machine awards +50 XP exactly when the three reels agree,
      +10 XP exactly when two distinct symbols show (two reels agree), and
      calls no award when all three differ. */
  lemma SlotAward(command: string, args: seq<string>, user: User, users: seq<User>,
                  draws: Draws, model: string -> Completion)
    requires Lower(command) == "slot"
    ensures var o := Dispatch(command, args, user, users, draws, model);
      var shown := {draws.reel1, draws.reel2, draws.reel3};
      && (o.award == Some(50) <==> |shown| == 1)
      && (o.award == Some(10) <==> |shown| == 2)
      && (o.award == None <==> |shown| == 3)
  {
    IconsDistinct();
    var a, b, c := draws.reel1, draws.reel2, draws.reel3;
    if a == b && b == c {
      assert {a, b, c} == {a};
    } else if a == b {
      assert {a, b, c} == {a, c};
    } else if b == c {
      assert {a, b, c} == {a, b};
    } else if a == c {
      assert {a, b, c} == {a, b};
    } else {
      assert |{a, b, c}| == 3 by {
        assert {a, b, c} == {a, b} + {c};
      }
    }
  }

  /** `/moeda` answers one of two fixed texts, heads when the draw is above
      one half, and awards nothing. */
  lemma CoinReply(command: string, args: seq<string>, user: User, users: seq<User>,
                  draws: Draws, model: string -> Completion)
    requires Lower(command) == "moeda"
    ensures var o := Dispatch(command, args, user, users, draws, model);
      && o.award == None
      && (ReplyText(o.reply) == HeadsText <==> draws.coinAboveHalf)
      && (ReplyText(o.reply) == TailsText <==> !draws.coinAboveHalf)
  {
  }

  /** `/dado` reports the die draw plus one, a face from 1 to 6. */
  lemma DieReply(command: string, args: seq<string>, user: User, users: seq<User>,
                 draws: Draws, model: string -> Completion)
    requires Lower(command) == "dado"
    ensures var o := Dispatch(command, args, user, users, draws, model);
      o.award == None && o.reply.Die? && 1 <= o.reply.face <= 6 && o.reply.face == draws.die + 1
  {
  }

  /** `/help`, `/xp`, `/vip` and `/ranking` award nothing and do not depend
      on the draws or the model; `/xp` reports the passed-in user's name,
      level and XP as given; `/ranking` reports the top three users. */
  lemma QueryCommands(command: string, args: seq<string>, user: User, users: seq<User>,
                      draws: Draws, draws': Draws, model: string -> Completion,
                      model': string -> Completion)
    requires Lower(command) in {"help", "xp", "vip", "ranking"}
    ensures var o := Dispatch(command, args, user, users, draws, model);
      && o.award == None
      && o == Dispatch(command, args, user, users, draws', model')
      && (Lower(command) == "help" ==> o.reply == Help)
      && (Lower(command) == "vip" ==> o.reply == VipPerks)
      && (Lower(command) == "xp" ==> o.reply == XpCard(user.name, user.level, user.xp))
      && (Lower(command) == "ranking" ==> o.reply == Leaderboard(TopThree(users)))
  {
  }

  /** `/ask` with nothing after it answers the usage text without consulting
      the model; otherwise the joined arguments go to the model verbatim and
      its reply is returned unchanged. */
  lemma AskGuard(command: string, args: seq<string>, user: User, users: seq<User>,
                 draws: Draws, model: string -> Completion)
    requires Lower(command) == "ask"
    ensures var o := Dispatch(command, args, user, users, draws, model);
      && o.award == None
      && (o.reply == AskUsage <==> Join(args) == [])
      && (Join(args) != [] ==> o.reply == AiAnswer(GenerateBotResponse(model, Join(args))))
  {
  }
}
