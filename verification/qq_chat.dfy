/** The QQ bridge of the newer plugin set (src/qq_chat/qq_chat/__init__.py):
    commands typed in the main, sync, manage groups or in private chat,
    QQ-number-to-player bindings, sync-group chat forwarding and the
    whitelist removal when a member leaves the main group. Messages are
    datatypes instead of the plugin's Chinese texts; the chat platform,
    the game server and the saved data file are reached only through the
    emitted outputs. */
module QqChat {
  import opened Basics
  import opened Dicts
  import Words

  // ---------------------------------------------------------------------
  // Configuration
  // ---------------------------------------------------------------------

  /** The `commands` switches. */
  datatype Switches = Switches(command: bool, list: bool, mc: bool, qq: bool, mcdr: bool)

  /** The fields of `Config` the handlers read. `playerListRegex` keeps the
      category names with their patterns, in order. */
  datatype Config = Config(
    mainGroup: seq<string>,
    manageGroups: seq<string>,
    syncGroups: seq<string>,
    serverName: string,
    admins: seq<string>,
    whitelistAddWithBound: bool,
    whitelistAddTemplate: string,
    whitelistRemoveWithLeave: bool,
    commands: Switches,
    commandPrefix: seq<string>,
    playerListRegex: seq<(string, string)>)

  /** The shipped defaults. */
  const DefaultConfig := Config(
    ["123456"], ["1234563", "1234564"], ["1234567", "1234568"], "survival",
    ["1234565", "1234566"], false, "/whitelist add {}", true,
    Switches(true, true, true, true, false), ["/"],
    [("玩家", "^(?!bot_).*$"), ("假人", "^bot_.*$")])

  /** Where group broadcasts go: a group id, or the integer 0 the plugin
      keeps when no main group is configured. */
  datatype Target = Group(id: string) | NoGroup

  /** `parse_main_group`: the first configured main group. */
  function MainGroup(c: Config): (t: Target)
    ensures t.Group? <==> |c.mainGroup| > 0
    ensures t.Group? ==> t.id in c.mainGroup
  {
    if |c.mainGroup| == 0 then NoGroup else Group(c.mainGroup[0])
  }

  predicate IsMainGroup(c: Config, channelId: string)
  {
    MainGroup(c) == Group(channelId)
  }

  // ---------------------------------------------------------------------
  // Messages, outputs, state
  // ---------------------------------------------------------------------

  /** A QQ message: its text, its channel, its sender. */
  datatype Channel = Channel(id: string, kind: string)
  datatype Message = Message(content: string, channel: Channel, userId: string, userName: string)

  /** The texts the plugin sends, by meaning. */
  datatype Text =
    | AdminHelp | GroupHelp | BoundHelp | WhitelistHelp
    | Disabled | NoPlayerApi | NobodyOnline | PlayerList(groups: seq<(string, seq<string>)>)
    | BindingList(entries: seq<(string, string)>)
    | NeedQq | NeedQqAndId | NeedId | NeedMessage | NeedCommand | NoPermission
    | BoundTo(user: string, player: string) | NotBound(user: string)
    | Unbound(user: string, player: string)
    | AlreadyBound(player: string) | TakenBy(player: string, user: string)
    | Bound(player: string) | Whitelisted(player: string)
    | CommandOutput(output: string) | NoOutput | NoRcon
    | LeftGroup(player: string, serverName: string)
    | ServerChat(serverName: string, player: string, content: string)
    | StartedUp(serverName: string)
    | QqChatLine(nickname: string, content: string, admin: bool)

  /** What the handlers do to the world. `Reply` answers in the message's
      own channel, `named` when the server name is put in front
      (`reply_with_server_name`); `Broadcast` is a channel message to a
      group; `Say` and `Execute` go to the game server, `RconQuery` through
      RCON; `SaveData` writes data.json. */
  datatype Out =
    | Reply(channel: Channel, named: bool, text: Text)
    | Broadcast(target: Target, text: Text)
    | Say(text: Text)
    | Execute(command: string)
    | RconQuery(command: string)
    | SaveData

  /** QQ number to bound player name, as data.json's `data` keeps it. */
  type Bindings = Dict<string>

  /** What the game side answers: whether RCON runs, what an RCON query
      prints, the online player list (`None` when online_player_api is not
      installed) and the regular-expression test `re.match(regex, name)`. */
  datatype Env = Env(
    rconRunning: bool,
    rcon: string -> string,
    onlinePlayers: Option<seq<string>>,
    matches: (string, string) -> bool)

  datatype Step = Step(data: Bindings, outs: seq<Out>)

  // ---------------------------------------------------------------------
  // Parsing
  // ---------------------------------------------------------------------

  predicate PrefixMatches(p: string, content: string)
  {
    p != "" && StartsWith(content, p)
  }

  /** `prefixes[i]` is the first prefix `content` starts with. */
  predicate FirstMatch(prefixes: seq<string>, content: string, i: int)
  {
    0 <= i < |prefixes| && PrefixMatches(prefixes[i], content)
      && forall j :: 0 <= j < i ==> !PrefixMatches(prefixes[j], content)
  }

  /** The command prefix a message starts with: the first non-empty one in
      `command_prefix`. */
  function CommandPrefix(prefixes: seq<string>, content: string): (r: Option<string>)
    ensures r.None? <==> forall i :: 0 <= i < |prefixes| ==> !PrefixMatches(prefixes[i], content)
    ensures r.Some? ==> exists i :: FirstMatch(prefixes, content, i) && prefixes[i] == r.value
  {
    if |prefixes| == 0 then None
    else if PrefixMatches(prefixes[0], content) then Some(prefixes[0])
    else
      var r := CommandPrefix(prefixes[1..], content);
      assert r.Some? ==> exists i :: FirstMatch(prefixes, content, i) && prefixes[i] == r.value by {
        if r.Some? {
          var i :| FirstMatch(prefixes[1..], content, i) && prefixes[1..][i] == r.value;
          forall j | 0 <= j < i + 1 ensures !PrefixMatches(prefixes[j], content) {
            if j > 0 { assert prefixes[j] == prefixes[1..][j - 1]; }
          }
          assert FirstMatch(prefixes, content, i + 1);
        }
      }
      assert r.None? ==> forall i :: 0 <= i < |prefixes| ==> !PrefixMatches(prefixes[i], content) by {
        if r.None? {
          forall i | 0 <= i < |prefixes| ensures !PrefixMatches(prefixes[i], content) {
            if i > 0 { assert prefixes[i] == prefixes[1..][i - 1]; }
          }
        }
      }
      r
  }

  /** `msg[k:]`, which is empty once `k` is past the end. */
  function Drop(s: string, k: nat): (r: string)
    ensures k <= |s| ==> r == s[k..]
    ensures k > |s| ==> r == ""
  {
    if k <= |s| then s[k..] else ""
  }

  /** `parse_command_list`: drop the prefix, and with a prefix longer than
      one character also the character after it, then `split()`. */
  function ParseCommandList(msg: string, prefix: string): (r: seq<string>)
    ensures forall i :: 0 <= i < |r| ==> Words.IsWord(r[i])
  {
    Words.SplitWords(Drop(msg, if |prefix| > 1 then |prefix| + 1 else |prefix|))
  }

  /** A command typed as the prefix and its words (with a space after a
      long prefix) parses back to those words. */
  lemma ParseCommandListRoundTrip(prefix: string, ws: seq<string>)
    requires forall i :: 0 <= i < |ws| ==> Words.IsWord(ws[i])
    ensures |prefix| <= 1 ==> ParseCommandList(prefix + Join(ws, ' '), prefix) == ws
    ensures |prefix| > 1 ==> ParseCommandList(prefix + " " + Join(ws, ' '), prefix) == ws
  {
    Words.SplitWordsJoin(ws);
    assert (prefix + Join(ws, ' '))[|prefix|..] == Join(ws, ' ');
    assert (prefix + " " + Join(ws, ' '))[|prefix| + 1..] == Join(ws, ' ');
  }

  /** With a two-character prefix the character right after it is lost:
      `!!list` reads as `ist`. */
  lemma LongPrefixNeedsSpace()
    ensures ParseCommandList("!!list", "!!") == ["ist"]
  {
    assert Drop("!!list", 3) == "ist";
    Words.SplitWordsJoin(["ist"]);
    assert Join(["ist"], ' ') == "ist";
  }

  // ---------------------------------------------------------------------
  // Event types
  // ---------------------------------------------------------------------

  datatype EventType =
    | NoEvent
    | PrivateAdmin | PrivateNotAdmin
    | MainAdmin | MainNotAdmin
    | SyncAdmin | SyncNotAdmin
    | Manage

  /** `ADMIN_EVENT_TYPES` */
  predicate IsAdminEvent(t: EventType)
  {
    t.PrivateAdmin? || t.MainAdmin? || t.SyncAdmin? || t.Manage?
  }

  /** `parse_event_type`: private chat first, then the main group, the sync
      groups and the manage groups, in that order. */
  function ParseEventType(c: Config, m: Message): (t: EventType)
    ensures m.channel.kind == "private" ==> (t.PrivateAdmin? || t.PrivateNotAdmin?)
    ensures m.channel.kind != "private" && IsMainGroup(c, m.channel.id) ==> (t.MainAdmin? || t.MainNotAdmin?)
    ensures t.NoEvent? <==> (m.channel.kind != "private" && !IsMainGroup(c, m.channel.id)
      && m.channel.id !in c.syncGroups && m.channel.id !in c.manageGroups)
    ensures t.Manage? <==> (m.channel.kind != "private" && !IsMainGroup(c, m.channel.id)
      && m.channel.id !in c.syncGroups && m.channel.id in c.manageGroups)
    ensures !t.NoEvent? && !t.Manage? ==> (IsAdminEvent(t) <==> m.userId in c.admins)
  {
    var admin := m.userId in c.admins;
    if m.channel.kind == "private" then (if admin then PrivateAdmin else PrivateNotAdmin)
    else if IsMainGroup(c, m.channel.id) then (if admin then MainAdmin else MainNotAdmin)
    else if m.channel.id in c.syncGroups then (if admin then SyncAdmin else SyncNotAdmin)
    else if m.channel.id in c.manageGroups then Manage
    else NoEvent
  }

  /** Admin rights come from the admin list, or from speaking in a manage
      group that is neither the main group nor a sync group; an admin has
      them wherever the plugin listens. */
  lemma AdminRights(c: Config, m: Message)
    ensures IsAdminEvent(ParseEventType(c, m)) <==>
      (m.userId in c.admins && !ParseEventType(c, m).NoEvent?) || ParseEventType(c, m).Manage?
  {
  }

  // ---------------------------------------------------------------------
  // Broadcasts
  // ---------------------------------------------------------------------

  /** `send_msg_to_main_groups`: nothing when no main group is set. */
  function SendToMain(c: Config, text: Text): (r: seq<Out>)
    ensures |c.mainGroup| == 0 ==> r == []
    ensures |c.mainGroup| > 0 ==> r == [Broadcast(Group(c.mainGroup[0]), text)]
  {
    if MainGroup(c).NoGroup? then [] else [Broadcast(MainGroup(c), text)]
  }

  /** `send_msg_to_all_groups`: despite its name, one message to the main
      group, sent even when none is configured. */
  function SendToAll(c: Config, text: Text): (r: seq<Out>)
    ensures |r| == 1 && r[0].Broadcast? && r[0].target == MainGroup(c) && r[0].text == text
  {
    [Broadcast(MainGroup(c), text)]
  }

  /** `send_msg_to_message_sync_groups` and `send_msg_to_manage_groups` as
      written: the loop runs once per group, but every message is addressed
      to the main group. */
  function SendToGroupsAsWritten(c: Config, groups: seq<string>, text: Text): (r: seq<Out>)
    ensures |r| == |groups|
    ensures forall i :: 0 <= i < |r| ==> r[i] == Broadcast(MainGroup(c), text)
  {
    if |groups| == 0 then [] else [Broadcast(MainGroup(c), text)] + SendToGroupsAsWritten(c, groups[1..], text)
  }

  /** The same loops addressing each group in turn, as their names and
      comments promise. */
  function SendToGroups(groups: seq<string>, text: Text): (r: seq<Out>)
    ensures |r| == |groups|
    ensures forall i :: 0 <= i < |r| ==> r[i] == Broadcast(Group(groups[i]), text)
  {
    if |groups| == 0 then [] else [Broadcast(Group(groups[0]), text)] + SendToGroups(groups[1..], text)
  }

  /** Every listed group, and only those, receives the message. */
  lemma SendToGroupsReachesEach(groups: seq<string>, text: Text, g: string)
    ensures Broadcast(Group(g), text) in SendToGroups(groups, text) <==> g in groups
  {
    var r := SendToGroups(groups, text);
    if g in groups {
      var i :| 0 <= i < |groups| && groups[i] == g;
      assert r[i] == Broadcast(Group(g), text);
    }
  }

  /** With the shipped configuration a chat line meant for the two sync
      groups reaches neither of them and goes twice to the main group. */
  lemma SendToGroupsAsWrittenDiffers(text: Text)
    ensures var c := DefaultConfig;
      && SendToGroupsAsWritten(c, c.syncGroups, text) == [Broadcast(Group("123456"), text), Broadcast(Group("123456"), text)]
      && Broadcast(Group("1234567"), text) !in SendToGroupsAsWritten(c, c.syncGroups, text)
      && Broadcast(Group("1234567"), text) in SendToGroups(c.syncGroups, text)
  {
    var c := DefaultConfig;
    var r := SendToGroups(c.syncGroups, text);
    assert r[0] == Broadcast(Group("1234567"), text);
  }

  // ---------------------------------------------------------------------
  // Game-side events
  // ---------------------------------------------------------------------

  /** `on_user_info` as written: a player's chat line, unless it is a
      `!!qq` command, is sent through the sync-group loop as written, so it
      goes once per sync group to the main group. */
  function OnUserInfo(c: Config, isPlayer: bool, player: string, content: string): (r: seq<Out>)
    ensures !isPlayer || StartsWith(content, "!!qq") ==> r == []
    ensures isPlayer && !StartsWith(content, "!!qq") ==>
      |r| == |c.syncGroups| && forall o :: o in r ==> o == Broadcast(MainGroup(c), ServerChat(c.serverName, player, content))
  {
    if isPlayer && !StartsWith(content, "!!qq") then SendToGroupsAsWritten(c, c.syncGroups, ServerChat(c.serverName, player, content))
    else []
  }

  /** `on_user_info` sending to each sync group: every sync group, and no
      other group, receives the chat line. */
  function OnUserInfoFixed(c: Config, isPlayer: bool, player: string, content: string): (r: seq<Out>)
    ensures !isPlayer || StartsWith(content, "!!qq") ==> r == []
    ensures isPlayer && !StartsWith(content, "!!qq") ==>
      forall g :: Broadcast(Group(g), ServerChat(c.serverName, player, content)) in r <==> g in c.syncGroups
  {
    if isPlayer && !StartsWith(content, "!!qq") then
      var text := ServerChat(c.serverName, player, content);
      var r := SendToGroups(c.syncGroups, text);
      assert forall g :: Broadcast(Group(g), text) in r <==> g in c.syncGroups by {
        forall g ensures Broadcast(Group(g), text) in r <==> g in c.syncGroups {
          SendToGroupsReachesEach(c.syncGroups, text, g);
        }
      }
      r
    else []
  }

  /** The speaker `!!qq` reports: the player, or `Console`. */
  function Speaker(isPlayer: bool, player: string): string
  {
    if isPlayer then player else "Console"
  }

  /** The `!!qq <message>` command as written, when the `qq` switch is on:
      once to the main group, then once per sync group, again to the main
      group. */
  function QqCommand(c: Config, isPlayer: bool, player: string, message: string): (r: seq<Out>)
    ensures !c.commands.qq ==> r == []
    ensures c.commands.qq ==>
      var text := ServerChat(c.serverName, Speaker(isPlayer, player), message);
      && r == SendToMain(c, text) + SendToGroupsAsWritten(c, c.syncGroups, text)
      && forall o :: o in r ==> o == Broadcast(MainGroup(c), text)
  {
    if !c.commands.qq then []
    else
      var text := ServerChat(c.serverName, Speaker(isPlayer, player), message);
      SendToMain(c, text) + SendToGroupsAsWritten(c, c.syncGroups, text)
  }

  /** `!!qq` sending to each sync group: the main group and every sync
      group receive the message, and no other group does. */
  function QqCommandFixed(c: Config, isPlayer: bool, player: string, message: string): (r: seq<Out>)
    ensures !c.commands.qq ==> r == []
    ensures c.commands.qq ==>
      var text := ServerChat(c.serverName, Speaker(isPlayer, player), message);
      && r == SendToMain(c, text) + SendToGroups(c.syncGroups, text)
      && forall g :: Broadcast(Group(g), text) in r <==> g in c.syncGroups || (|c.mainGroup| > 0 && g == c.mainGroup[0])
  {
    if !c.commands.qq then []
    else
      var text := ServerChat(c.serverName, Speaker(isPlayer, player), message);
      var r := SendToMain(c, text) + SendToGroups(c.syncGroups, text);
      assert forall g :: Broadcast(Group(g), text) in r <==> g in c.syncGroups || (|c.mainGroup| > 0 && g == c.mainGroup[0]) by {
        forall g ensures Broadcast(Group(g), text) in r <==> g in c.syncGroups || (|c.mainGroup| > 0 && g == c.mainGroup[0]) {
          SendToGroupsReachesEach(c.syncGroups, text, g);
        }
      }
      r
  }

  /** With the shipped configuration a player's chat line reaches the main
      group `123456` twice and the sync group `1234567` never; the repaired
      handler reaches `1234567`. */
  lemma OnUserInfoAsWrittenDiffers(player: string, content: string)
    requires !StartsWith(content, "!!qq")
    ensures var c := DefaultConfig;
      var text := ServerChat(c.serverName, player, content);
      && OnUserInfo(c, true, player, content) == [Broadcast(Group("123456"), text), Broadcast(Group("123456"), text)]
      && Broadcast(Group("1234567"), text) in OnUserInfoFixed(c, true, player, content)
  {
    SendToGroupsAsWrittenDiffers(ServerChat(DefaultConfig.serverName, player, content));
  }

  /** `on_server_startup` */
  function OnServerStartup(c: Config): (r: seq<Out>)
    ensures |r| == 1 && r[0] == Broadcast(MainGroup(c), StartedUp(c.serverName))
  {
    SendToAll(c, StartedUp(c.serverName))
  }

  // ---------------------------------------------------------------------
  // Command handlers
  // ---------------------------------------------------------------------

  predicate RunsNothing(outs: seq<Out>)
  {
    forall i :: 0 <= i < |outs| ==> !outs[i].Execute? && !outs[i].RconQuery?
  }

  /** `execute`: through RCON with its output as the answer, or on the
      console with a note that there is no output. */
  function Run(env: Env, ch: Channel, command: string): (r: seq<Out>)
    ensures |r| == 2
    ensures env.rconRunning ==> r[0] == RconQuery(command)
    ensures !env.rconRunning ==> r == [Execute(command), Reply(ch, true, NoRcon)]
    ensures env.rconRunning && env.rcon(command) == "" ==> r[1] == Reply(ch, true, NoOutput)
    ensures env.rconRunning && env.rcon(command) != "" ==> r[1] == Reply(ch, true, CommandOutput(env.rcon(command)))
  {
    if env.rconRunning then
      var out := env.rcon(command);
      [RconQuery(command), Reply(ch, true, if out == "" then NoOutput else CommandOutput(out))]
    else [Execute(command), Reply(ch, true, NoRcon)]
  }

  /** The category of a player: the first pattern it matches. */
  function Category(patterns: seq<(string, string)>, matches: (string, string) -> bool, player: string): (r: Option<string>)
    ensures r.None? <==> forall i :: 0 <= i < |patterns| ==> !matches(patterns[i].1, player)
    ensures r.Some? ==> exists i :: 0 <= i < |patterns| && patterns[i].0 == r.value && matches(patterns[i].1, player)
  {
    if |patterns| == 0 then None
    else if matches(patterns[0].1, player) then Some(patterns[0].0)
    else
      var r := Category(patterns[1..], matches, player);
      assert r.None? ==> forall i :: 0 <= i < |patterns| ==> !matches(patterns[i].1, player) by {
        if r.None? {
          forall i | 0 <= i < |patterns| ensures !matches(patterns[i].1, player) {
            if i > 0 { assert patterns[i] == patterns[1..][i - 1]; }
          }
        }
      }
      r
  }

  /** The list loop of `list_command_handle`: categories in the order they
      first get a player, each with its players in list order. */
  function Categorise(patterns: seq<(string, string)>, matches: (string, string) -> bool, players: seq<string>): (r: Dict<seq<string>>)
    decreases |players|
  {
    if |players| == 0 then []
    else
      var d := Categorise(patterns, matches, players[..|players| - 1]);
      var p := players[|players| - 1];
      match Category(patterns, matches, p)
      case None => d
      case Some(name) => Put(d, name, (if HasKey(d, name) then Get(d, name).value else []) + [p])
  }

  /** The players whose category is `name`, in list order: the independent
      reading of what a category holds. */
  function InCategory(patterns: seq<(string, string)>, matches: (string, string) -> bool, players: seq<string>, name: string): (r: seq<string>)
    ensures forall p :: p in r ==> p in players && Category(patterns, matches, p) == Some(name)
    decreases |players|
  {
    if |players| == 0 then []
    else
      var rest := InCategory(patterns, matches, players[..|players| - 1], name);
      var p := players[|players| - 1];
      if Category(patterns, matches, p) == Some(name) then rest + [p] else rest
  }

  /** Each category lists exactly its players, and a category no player
      falls into is not listed. */
  lemma {:induction false} CategoriseContents(patterns: seq<(string, string)>, matches: (string, string) -> bool, players: seq<string>, name: string)
    ensures var members := InCategory(patterns, matches, players, name);
      Get(Categorise(patterns, matches, players), name) == if |members| == 0 then None else Some(members)
    decreases |players|
  {
    if |players| > 0 {
      var init := players[..|players| - 1];
      CategoriseContents(patterns, matches, init, name);
      var d := Categorise(patterns, matches, init);
      var p := players[|players| - 1];
      match Category(patterns, matches, p)
      case None =>
      case Some(n) =>
        if n != name {
          GetPutOther(d, n, (if HasKey(d, n) then Get(d, n).value else []) + [p], name);
        }
    }
  }

  /** `list_command_handle` */
  function ListCommand(c: Config, env: Env, ch: Channel): (r: seq<Out>)
    ensures !c.commands.list ==> r == [Reply(ch, true, Disabled)]
    ensures c.commands.list && env.onlinePlayers.None? ==> r == [Reply(ch, true, NoPlayerApi)]
    ensures c.commands.list && env.onlinePlayers == Some([]) ==> r == [Reply(ch, true, NobodyOnline)]
    ensures c.commands.list && env.onlinePlayers.Some? && |env.onlinePlayers.value| > 0 ==>
      r == [Reply(ch, true, PlayerList(Categorise(c.playerListRegex, env.matches, env.onlinePlayers.value)))]
  {
    if !c.commands.list then [Reply(ch, true, Disabled)]
    else if env.onlinePlayers.None? then [Reply(ch, true, NoPlayerApi)]
    else if |env.onlinePlayers.value| == 0 then [Reply(ch, true, NobodyOnline)]
    else [Reply(ch, true, PlayerList(Categorise(c.playerListRegex, env.matches, env.onlinePlayers.value)))]
  }

  /** `whitelist_add_cmd_template.format(player)` for a template with one
      `{}` placeholder. */
  function WhitelistAddCommand(template: string, player: string): string
  {
    Replace(template, "{}", player)
  }

  /** `after_bound` */
  function AfterBound(c: Config, ch: Channel, player: string): (r: seq<Out>)
    ensures |r| > 0 && r[0] == Reply(ch, true, Bound(player))
    ensures c.whitelistAddWithBound <==> Execute(WhitelistAddCommand(c.whitelistAddTemplate, player)) in r
    ensures forall o :: o in r && o.Execute? ==> o.command == WhitelistAddCommand(c.whitelistAddTemplate, player)
    ensures !RunsNothing(r) ==> c.whitelistAddWithBound
  {
    [Reply(ch, true, Bound(player))]
      + if c.whitelistAddWithBound
        then [Execute(WhitelistAddCommand(c.whitelistAddTemplate, player)), Reply(ch, true, Whitelisted(player))]
        else []
  }

  /** No two QQ numbers are bound to the same player. */
  predicate OneToOne(d: Bindings)
  {
    forall i, j :: 0 <= i < j < |d| ==> d[i].1 != d[j].1
  }

  /** The first QQ number bound to `player`. */
  function BoundBy(d: Bindings, player: string): (r: Option<string>)
    ensures r.None? <==> forall i :: 0 <= i < |d| ==> d[i].1 != player
    ensures r.Some? ==> (r.value, player) in d
  {
    if |d| == 0 then None
    else if d[0].1 == player then Some(d[0].0)
    else
      var r := BoundBy(d[1..], player);
      assert r.None? ==> forall i :: 0 <= i < |d| ==> d[i].1 != player by {
        if r.None? {
          forall i | 0 <= i < |d| ensures d[i].1 != player {
            if i > 0 { assert d[i] == d[1..][i - 1]; }
          }
        }
      }
      r
  }

  /** `bound_qq_to_player`: a member binds their own QQ number, once, to a
      player nobody else holds. */
  function BindSelf(c: Config, data: Bindings, m: Message, player: string): (r: Step)
    ensures HasKey(data, m.userId) ==> r == Step(data, [Reply(m.channel, true, AlreadyBound(Get(data, m.userId).value))])
    ensures !HasKey(data, m.userId) && BoundBy(data, player).Some? ==>
      r == Step(data, [Reply(m.channel, true, TakenBy(player, BoundBy(data, player).value))])
    ensures !HasKey(data, m.userId) && BoundBy(data, player).None? ==>
      r == Step(data + [(m.userId, player)], [SaveData] + AfterBound(c, m.channel, player))
    ensures r.data != data ==> (r.data == data + [(m.userId, player)]
      && r.outs == [SaveData] + AfterBound(c, m.channel, player))
  {
    if HasKey(data, m.userId) then Step(data, [Reply(m.channel, true, AlreadyBound(Get(data, m.userId).value))])
    else match BoundBy(data, player)
      case Some(other) => Step(data, [Reply(m.channel, true, TakenBy(player, other))])
      case None =>
        PutAbsent(data, m.userId, player);
        Step(Put(data, m.userId, player), [SaveData] + AfterBound(c, m.channel, player))
  }

  /** Self-binding keeps the bindings one-to-one both ways. */
  lemma BindSelfKeepsOneToOne(c: Config, data: Bindings, m: Message, player: string)
    requires UniqueKeys(data) && OneToOne(data)
    ensures UniqueKeys(BindSelf(c, data, m, player).data) && OneToOne(BindSelf(c, data, m, player).data)
  {
    var r := BindSelf(c, data, m, player);
    if r.data != data {
      var d := data + [(m.userId, player)];
      assert r.data == d;
      forall i | 0 <= i < |data| ensures data[i].0 != m.userId && data[i].1 != player {
        assert Keys(data)[i] == data[i].0;
      }
      forall i, j | 0 <= i < j < |d| ensures d[i].0 != d[j].0 && d[i].1 != d[j].1 {
        if j == |data| {
          assert d[i] == data[i];
        } else {
          assert d[i] == data[i] && d[j] == data[j];
        }
      }
    }
  }

  /** The administrator's `/bound <qq> <id>` overwrites without the
      checks, so two QQ numbers can end up with the same player. */
  lemma AdminBindCanShare()
    ensures var d := Put([("1", "Steve")], "2", "Steve");
      UniqueKeys(d) && !OneToOne(d)
  {
    PutAbsent([("1", "Steve")], "2", "Steve");
  }

  /** `bound_command_handle` */
  function BoundCommand(c: Config, data: Bindings, m: Message, command: seq<string>, t: EventType): (r: Step)
    requires |command| > 0
    ensures !IsAdminEvent(t) && |command| > 1 ==> r == BindSelf(c, data, m, command[1])
    ensures !IsAdminEvent(t) && |command| == 1 ==> r.data == data && RunsNothing(r.outs)
    ensures IsAdminEvent(t) && |command| > 1 && command[1] == "unbound" && |command| > 2 ==>
      r.data == Remove(data, command[2]) && (HasKey(data, command[2]) <==> SaveData in r.outs)
    ensures IsAdminEvent(t) && |command| > 2 && command[1] !in {"list", "check", "unbound"} ==>
      r.data == Put(data, command[1], command[2])
    ensures IsAdminEvent(t) && (|command| < 3 || command[1] in {"list", "check"}) ==> r.data == data && RunsNothing(r.outs)
  {
    var ch := m.channel;
    if IsAdminEvent(t) then
      if |command| == 1 then Step(data, [Reply(ch, false, BoundHelp)])
      else if command[1] == "list" then Step(data, [Reply(ch, true, BindingList(data))])
      else if command[1] == "check" then
        if |command| < 3 then Step(data, [Reply(ch, true, NeedQq)])
        else if HasKey(data, command[2]) then Step(data, [Reply(ch, true, BoundTo(command[2], Get(data, command[2]).value))])
        else Step(data, [Reply(ch, true, NotBound(command[2]))])
      else if command[1] == "unbound" then
        if |command| < 3 then Step(data, [Reply(ch, true, NeedQq)])
        else if HasKey(data, command[2]) then
          Step(Remove(data, command[2]), [SaveData, Reply(ch, true, Unbound(command[2], Get(data, command[2]).value))])
        else Step(data, [Reply(ch, true, NotBound(command[2]))])
      else if |command| < 3 then Step(data, [Reply(ch, true, NeedQqAndId)])
      else Step(Put(data, command[1], command[2]), [SaveData] + AfterBound(c, ch, command[2]))
    else if |command| == 1 then
      if HasKey(data, m.userId) then Step(data, [Reply(ch, true, AlreadyBound(Get(data, m.userId).value))])
      else Step(data, [Reply(ch, true, NeedId)])
    else BindSelf(c, data, m, command[1])
  }

  /** The sender's name in game: the bound player, else the QQ name. */
  function Nickname(data: Bindings, m: Message): (r: string)
    ensures HasKey(data, m.userId) ==> r == Get(data, m.userId).value
    ensures !HasKey(data, m.userId) ==> r == m.userName
  {
    match Get(data, m.userId)
    case Some(p) => p
    case None => m.userName
  }

  /** `mc_command_handle`: the words after `mc` are said in game, green
      for an admin event. */
  function McCommand(c: Config, data: Bindings, m: Message, command: seq<string>, t: EventType): (r: seq<Out>)
    requires |command| > 0
    ensures RunsNothing(r)
    ensures c.commands.mc && |command| > 1 ==>
      r == [Say(QqChatLine(Nickname(data, m), Join(command[1..], ' '), IsAdminEvent(t)))]
  {
    if !c.commands.mc then [Reply(m.channel, true, Disabled)]
    else if |command| == 1 then [Reply(m.channel, true, NeedMessage)]
    else [Say(QqChatLine(Nickname(data, m), Join(command[1..], ' '), IsAdminEvent(t)))]
  }

  /** `whitelist_command_handle`: the whole command line goes to the
      server, for admins only. */
  function WhitelistCommand(env: Env, m: Message, command: seq<string>, t: EventType): (r: seq<Out>)
    requires |command| > 0
    ensures !IsAdminEvent(t) ==> r == [Reply(m.channel, true, NoPermission)]
    ensures IsAdminEvent(t) && |command| > 1 ==> r == Run(env, m.channel, Join(command, ' '))
    ensures !RunsNothing(r) ==> IsAdminEvent(t) && |command| > 1
  {
    if !IsAdminEvent(t) then [Reply(m.channel, true, NoPermission)]
    else if |command| == 1 then [Reply(m.channel, false, WhitelistHelp)]
    else Run(env, m.channel, Join(command, ' '))
  }

  /** The MCDR command line of `/mcdr`: `!!` is put in front unless it is
      there already. */
  function McdrLine(words: seq<string>): (r: string)
    ensures StartsWith(r, "!!")
    ensures StartsWith(Join(words, ' '), "!!") ==> r == Join(words, ' ')
    ensures !StartsWith(Join(words, ' '), "!!") ==> r == "!!" + Join(words, ' ')
  {
    var line := Join(words, ' ');
    if StartsWith(line, "!!") then line else "!!" + line
  }

  /** `mcdr_command_handle`: switched off by default; admins only. */
  function McdrCommand(c: Config, env: Env, m: Message, command: seq<string>, t: EventType): (r: seq<Out>)
    requires |command| > 0
    ensures !c.commands.mcdr ==> r == [Reply(m.channel, true, Disabled)]
    ensures c.commands.mcdr && !IsAdminEvent(t) ==> r == [Reply(m.channel, true, NoPermission)]
    ensures !RunsNothing(r) ==> (c.commands.mcdr && IsAdminEvent(t) && |command| > 1
      && r == Run(env, m.channel, McdrLine(command[1..])))
  {
    if !c.commands.mcdr then [Reply(m.channel, true, Disabled)]
    else if !IsAdminEvent(t) then [Reply(m.channel, true, NoPermission)]
    else if |command| == 1 then [Reply(m.channel, true, NeedCommand)]
    else Run(env, m.channel, McdrLine(command[1..]))
  }

  /** `command_command_handle`: a game command, admins only. */
  function CommandCommand(c: Config, env: Env, m: Message, command: seq<string>, t: EventType): (r: seq<Out>)
    requires |command| > 0
    ensures !c.commands.command ==> r == [Reply(m.channel, true, Disabled)]
    ensures c.commands.command && !IsAdminEvent(t) ==> r == [Reply(m.channel, true, NoPermission)]
    ensures !RunsNothing(r) ==> (c.commands.command && IsAdminEvent(t) && |command| > 1
      && r == Run(env, m.channel, Join(command[1..], ' ')))
  {
    if !c.commands.command then [Reply(m.channel, true, Disabled)]
    else if !IsAdminEvent(t) then [Reply(m.channel, true, NoPermission)]
    else if |command| == 1 then [Reply(m.channel, true, NeedCommand)]
    else Run(env, m.channel, Join(command[1..], ' '))
  }

  /** `on_qq_command`. A message that is only the prefix and whitespace
      leaves no words, and `command[0]` raises `IndexError`. */
  function OnQqCommand(c: Config, env: Env, data: Bindings, m: Message, prefix: string): (r: Result<Step, string>)
    ensures ParseEventType(c, m).NoEvent? ==> r == Ok(Step(data, []))
    ensures r.Err? <==> !ParseEventType(c, m).NoEvent? && ParseCommandList(m.content, prefix) == []
    ensures r.Err? ==> r.error == "IndexError"
    ensures r.Ok? && r.value.data != data ==> ParseCommandList(m.content, prefix)[0] == "bound"
  {
    var t := ParseEventType(c, m);
    if t.NoEvent? then Ok(Step(data, []))
    else
      var command := ParseCommandList(m.content, prefix);
      if |command| == 0 then Err("IndexError")
      else Ok(Dispatch(c, env, data, m, command, t))
  }

  /** The sub-command the first word names; an unknown word does nothing. */
  function Dispatch(c: Config, env: Env, data: Bindings, m: Message, command: seq<string>, t: EventType): (r: Step)
    requires |command| > 0
    ensures r.data != data ==> command[0] == "bound"
    ensures !IsAdminEvent(t) && !(command[0] == "bound" && |command| > 1) ==> RunsNothing(r.outs)
  {
    if command[0] == "help" then Step(data, [Reply(m.channel, false, if IsAdminEvent(t) then AdminHelp else GroupHelp)])
    else if command[0] == "list" then Step(data, ListCommand(c, env, m.channel))
    else if command[0] == "bound" then BoundCommand(c, data, m, command, t)
    else if command[0] == "mc" then Step(data, McCommand(c, data, m, command, t))
    else if command[0] == "whitelist" then Step(data, WhitelistCommand(env, m, command, t))
    else if command[0] == "command" then Step(data, CommandCommand(c, env, m, command, t))
    else if command[0] == "mcdr" then Step(data, McdrCommand(c, env, m, command, t))
    else Step(data, [])
  }

  /** Nothing runs through RCON, and a console command is at most the
      templated whitelist addition of some player. */
  ghost predicate OnlyWhitelistAdd(c: Config, outs: seq<Out>)
  {
    forall i :: 0 <= i < |outs| ==> (!outs[i].RconQuery?
      && (outs[i].Execute? ==> c.whitelistAddWithBound && exists p :: outs[i].command == WhitelistAddCommand(c.whitelistAddTemplate, p)))
  }

  lemma BindSelfOnlyWhitelistAdd(c: Config, data: Bindings, m: Message, player: string)
    ensures OnlyWhitelistAdd(c, BindSelf(c, data, m, player).outs)
  {
    var r := BindSelf(c, data, m, player);
    if HasKey(data, m.userId) || BoundBy(data, player).Some? {
      assert |r.outs| == 1 && r.outs[0].Reply?;
    } else {
      assert r.outs == [SaveData] + AfterBound(c, m.channel, player);
      AfterBindOnlyWhitelistAdd(c, m.channel, player);
    }
  }

  /** What a new binding puts out runs at most the templated whitelist
      command for the bound player. */
  lemma AfterBindOnlyWhitelistAdd(c: Config, ch: Channel, player: string)
    ensures OnlyWhitelistAdd(c, [SaveData] + AfterBound(c, ch, player))
  {
    var outs := [SaveData] + AfterBound(c, ch, player);
    var cmd := WhitelistAddCommand(c.whitelistAddTemplate, player);
    if c.whitelistAddWithBound {
      assert outs == [SaveData, Reply(ch, true, Bound(player)), Execute(cmd), Reply(ch, true, Whitelisted(player))];
      assert outs[2].command == cmd;
    } else {
      assert outs == [SaveData, Reply(ch, true, Bound(player))];
    }
  }

  /** A member without admin rights never gets a command run on the server,
      and only a binding can put a (templated whitelist) command on its
      console. */
  lemma NonAdminRunsOnlyWhitelistAdd(c: Config, env: Env, data: Bindings, m: Message, prefix: string)
    requires !IsAdminEvent(ParseEventType(c, m))
    ensures var r := OnQqCommand(c, env, data, m, prefix);
      r.Ok? ==> OnlyWhitelistAdd(c, r.value.outs)
  {
    var t := ParseEventType(c, m);
    var command := ParseCommandList(m.content, prefix);
    if !t.NoEvent? && |command| > 0 {
      var s := Dispatch(c, env, data, m, command, t);
      assert OnQqCommand(c, env, data, m, prefix) == Ok(s);
      if command[0] == "bound" && |command| > 1 {
        BindSelfOnlyWhitelistAdd(c, data, m, command[1]);
      } else {
        NothingRunIsWhitelistOnly(c, s.outs);
      }
    }
  }

  lemma NothingRunIsWhitelistOnly(c: Config, outs: seq<Out>)
    requires RunsNothing(outs)
    ensures OnlyWhitelistAdd(c, outs)
  {
  }

  // ---------------------------------------------------------------------
  // Platform events
  // ---------------------------------------------------------------------

  /** `on_message`: commands go to `on_qq_command`; other text in a sync
      group is said in game under the sender's nickname. Messages from other
      platforms are ignored. */
  function OnMessage(c: Config, env: Env, data: Bindings, fromQq: bool, m: Message): (r: Result<Step, string>)
    ensures !fromQq ==> r == Ok(Step(data, []))
    ensures fromQq && CommandPrefix(c.commandPrefix, m.content).Some? ==>
      r == OnQqCommand(c, env, data, m, CommandPrefix(c.commandPrefix, m.content).value)
    ensures fromQq && CommandPrefix(c.commandPrefix, m.content).None? ==>
      r == Ok(Step(data, if m.channel.id in c.syncGroups
        then [Say(QqChatLine(Nickname(data, m), m.content, m.userId in c.admins))] else []))
  {
    if !fromQq then Ok(Step(data, []))
    else match CommandPrefix(c.commandPrefix, m.content)
      case Some(p) => OnQqCommand(c, env, data, m, p)
      case None =>
        if m.channel.id in c.syncGroups
        then Ok(Step(data, [Say(QqChatLine(Nickname(data, m), m.content, m.userId in c.admins))]))
        else Ok(Step(data, []))
  }

  /** A platform notice: its type, channel and member. */
  datatype Notice = Notice(kind: string, channel: Channel, userId: string)

  /** `on_notice`: a bound member leaving the main group loses the binding
      and the whitelist entry, when `whitelist_remove_with_leave` is on. */
  function OnNotice(c: Config, data: Bindings, fromQq: bool, e: Notice): (r: Step)
    ensures var leaves := fromQq && IsMainGroup(c, e.channel.id) && e.kind == "guild.member.leave"
        && c.whitelistRemoveWithLeave && HasKey(data, e.userId);
      && (!leaves ==> r == Step(data, []))
      && (leaves ==> (r.data == Remove(data, e.userId)
        && r.outs == [Execute("whitelist remove " + Get(data, e.userId).value),
                      Reply(e.channel, false, LeftGroup(Get(data, e.userId).value, c.serverName)),
                      SaveData]))
  {
    if !fromQq || !IsMainGroup(c, e.channel.id) then Step(data, [])
    else if e.kind == "guild.member.leave" && c.whitelistRemoveWithLeave && HasKey(data, e.userId) then
      var player := Get(data, e.userId).value;
      Step(Remove(data, e.userId), [Execute("whitelist remove " + player), Reply(e.channel, false, LeftGroup(player, c.serverName)), SaveData])
    else Step(data, [])
  }

  /** A leave notice removes only the member who left. */
  lemma OnNoticeKeepsOthers(c: Config, data: Bindings, fromQq: bool, e: Notice, other: string)
    requires other != e.userId
    ensures Get(OnNotice(c, data, fromQq, e).data, other) == Get(data, other)
    ensures !HasKey(OnNotice(c, data, fromQq, e).data, e.userId)
      <== fromQq && IsMainGroup(c, e.channel.id) && e.kind == "guild.member.leave" && c.whitelistRemoveWithLeave
  {
    GetRemoveOther(data, e.userId, other);
  }
}
