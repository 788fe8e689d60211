/** The QQ bridge of the older plugin set (qq_chat/qq_chat/__init__.py),
    driven by the qq_api plugin. Commands start with `/` and are split on
    single spaces; private commands are reachable by administrators only,
    group members may bind their own QQ number once. QQ and group numbers
    are written as their decimal strings. */
module LegacyQqChat {
  import opened Basics
  import opened Dicts

  /** The fields of `Config`. */
  datatype Config = Config(
    groups: seq<string>,
    admins: seq<string>,
    whitelistAddWithBound: bool,
    whitelistRemoveWithLeave: bool,
    mcToQq: bool,
    qqToMc: bool,
    list: bool,
    mc: bool,
    qq: bool)

  const DefaultConfig := Config(["1234561", "1234562"], ["1234563", "1234564"], false, true, false, false, true, true, true)

  /** A QQ message event: its text, sender, group (none in private chat) and
      `detail_type`. */
  datatype Event = Event(content: string, userId: string, groupId: Option<string>, detailType: string)

  /** The texts the plugin sends, by meaning. */
  datatype Text =
    | AdminHelp | GroupHelp | BoundHelp | WhitelistHelp
    | BoundListing(entries: seq<(string, string)>) | NobodyBound
    | BoundIs(user: string, player: string) | NotBound(user: string) | Unbound(user: string)
    | BindDone | AlreadyBound(user: string, player: string) | BindDoneAt(user: string) | WhitelistedAt(user: string)
    | PlayerCount(players: seq<string>) | PleaseBind(user: string) | CannotForward(user: string)
    | LeftGroup(player: string)
    | CommandOutput(output: string) | NoOutput | NoRcon
    | ServerChat(player: string, content: string) | StartedUp
    | QqChatLine(player: string, content: string)

  /** What the handlers do: answer the event, post to a group, speak in
      game, run a command on the console or through RCON, write data.json. */
  datatype Out =
    | Reply(text: Text)
    | GroupMessage(group: string, text: Text)
    | Say(text: Text)
    | Execute(command: string)
    | RconQuery(command: string)
    | SaveData

  type Bindings = Dict<string>

  /** Whether RCON runs, what an RCON query prints, and the online players
      (`None` when online_player_api is not loaded). */
  datatype Env = Env(rconRunning: bool, rcon: string -> string, onlinePlayers: Option<seq<string>>)

  datatype Step = Step(data: Bindings, outs: seq<Out>)

  predicate RunsNothing(outs: seq<Out>)
  {
    forall i :: 0 <= i < |outs| ==> !outs[i].Execute? && !outs[i].RconQuery?
  }

  // ---------------------------------------------------------------------
  // Command line
  // ---------------------------------------------------------------------

  /** `content.split(' ')` with every `/` taken out of the first word. */
  function CommandWords(content: string): (r: seq<string>)
    ensures |r| > 0 && '/' !in r[0]
    ensures |r| == |Split(content, ' ')| && r[1..] == Split(content, ' ')[1..]
  {
    var parts := Split(content, ' ');
    [RemoveChar(parts[0], '/')] + parts[1..]
  }

  /** A command typed as `/` and words without spaces or slashes reads back
      as those words. */
  lemma CommandWordsOfTyped(ws: seq<string>)
    requires |ws| > 0 && '/' !in ws[0]
    requires forall i :: 0 <= i < |ws| ==> ' ' !in ws[i]
    ensures CommandWords("/" + Join(ws, ' ')) == ws
  {
    var parts := SplitWordsOf(ws);
    assert Split("/" + Join(ws, ' '), ' ') == ["/" + ws[0]] + ws[1..];
    RemoveSlash(ws[0]);
  }

  /** Splitting `/w0 w1 ...` on spaces. */
  lemma {:induction false} SplitWordsOf(ws: seq<string>) returns (parts: seq<string>)
    requires |ws| > 0
    requires forall i :: 0 <= i < |ws| ==> ' ' !in ws[i]
    ensures parts == Split("/" + Join(ws, ' '), ' ')
    ensures parts == ["/" + ws[0]] + ws[1..]
  {
    SplitJoinWords(ws);
    SplitPrefixChar('/', Join(ws, ' '));
    parts := Split("/" + Join(ws, ' '), ' ');
    assert ["/" + ws[0]] + ws[1..] == [['/'] + Split(Join(ws, ' '), ' ')[0]] + Split(Join(ws, ' '), ' ')[1..];
  }

  /** Splitting space-free words joined with spaces gives the words back. */
  lemma {:induction false} SplitJoinWords(ws: seq<string>)
    requires |ws| > 0
    requires forall i :: 0 <= i < |ws| ==> ' ' !in ws[i]
    ensures Split(Join(ws, ' '), ' ') == ws
    decreases |ws|
  {
    if |ws| == 1 {
      SplitNoSep(ws[0], "", ' ');
      assert ws[0] + "" == ws[0];
    } else {
      SplitJoinWords(ws[1..]);
      SplitNoSep(ws[0], [' '] + Join(ws[1..], ' '), ' ');
      assert ws[0] + [' '] + Join(ws[1..], ' ') == ws[0] + ([' '] + Join(ws[1..], ' '));
      assert ([' '] + Join(ws[1..], ' '))[1..] == Join(ws[1..], ' ');
      assert ws == [ws[0]] + ws[1..];
    }
  }

  /** A character other than the separator joins the first piece. */
  lemma SplitPrefixChar(c: char, s: string)
    requires c != ' '
    ensures Split([c] + s, ' ') == [[c] + Split(s, ' ')[0]] + Split(s, ' ')[1..]
  {
    assert ([c] + s)[1..] == s;
  }

  lemma RemoveSlash(w: string)
    requires '/' !in w
    ensures RemoveChar("/" + w, '/') == w
  {
    RemoveAbsent(w, '/');
    assert ("/" + w)[1..] == w;
  }

  lemma {:induction false} RemoveAbsent(s: string, c: char)
    requires c !in s
    ensures RemoveChar(s, c) == s
    decreases |s|
  {
    if |s| > 0 {
      assert s[1..] == s[1..];
      RemoveAbsent(s[1..], c);
      assert s == [s[0]] + s[1..];
    }
  }

  // ---------------------------------------------------------------------
  // CQ-code escaping
  // ---------------------------------------------------------------------

  /** How the QQ side escapes `[` and `]` in message text (CQ code). */
  function Escape(s: string): (r: string)
  {
    if |s| == 0 then ""
    else if s[0] == '[' then "&#91;" + Escape(s[1..])
    else if s[0] == ']' then "&#93;" + Escape(s[1..])
    else [s[0]] + Escape(s[1..])
  }

  /** The replacements `/command` applies before running its text. */
  function Unescape(s: string): string
  {
    Replace(Replace(s, "&#91;", "["), "&#93;", "]")
  }

  /** `&#93;` is not `&#91;`: the first replacement passes it over. */
  lemma SkipClose(rest: string)
    ensures Replace("&#93;" + rest, "&#91;", "[") == "&#93;" + Replace(rest, "&#91;", "[")
  {
    var s := "&#93;" + rest;
    assert s[..5] != "&#91;" by { assert s[..5][3] == '3'; }
    assert s[1..] == "#93;" + rest;
    ReplaceSkipPrefix("#93;", rest, "&#91;", "[");
    assert "&#93;" + rest == [s[0]] + s[1..];
  }

  /** Escaping then unescaping a text with one more character in front
      gives that character in front. */
  lemma EscapeCons(c: char, t: string)
    requires c != '&'
    ensures Unescape(Escape([c] + t)) == [c] + Unescape(Escape(t))
  {
    var e := Escape(t);
    assert ([c] + t)[1..] == t;
    if c == '[' {
      ReplaceAtHead(e, "&#91;", "[");
      ReplaceSkipPrefix("[", Replace(e, "&#91;", "["), "&#93;", "]");
    } else if c == ']' {
      SkipClose(e);
      ReplaceAtHead(Replace(e, "&#91;", "["), "&#93;", "]");
    } else {
      ReplaceSkipPrefix([c], e, "&#91;", "[");
      ReplaceSkipPrefix([c], Replace(e, "&#91;", "["), "&#93;", "]");
    }
  }

  /** The `&` condition is needed: a typed `&#91;` passes escaping
      untouched and then comes back as `[`. */
  lemma TypedEntityUnescapes()
    ensures Escape("&#91;") == "&#91;"
    ensures Unescape(Escape("&#91;")) == "["
  {
    assert Escape("") == "";
    assert Escape("&#91;") == "&#91;" by {
      assert "&#91;"[1..] == "#91;" && "#91;"[1..] == "91;" && "91;"[1..] == "1;" && "1;"[1..] == ";" && ";"[1..] == "";
    }
    ReplaceAtHead("", "&#91;", "[");
    assert "&#91;" + "" == "&#91;";
    assert Replace("[", "&#93;", "]") == "[";
  }

  /** Text without `&` comes back unchanged from escaping then the
      `/command` replacements. */
  lemma {:induction false} UnescapeEscape(s: string)
    requires '&' !in s
    ensures Unescape(Escape(s)) == s
    decreases |s|
  {
    if |s| > 0 {
      var t := s[1..];
      UnescapeEscape(t);
      EscapeCons(s[0], t);
      assert s == [s[0]] + t;
    }
  }

  // ---------------------------------------------------------------------
  // Handlers
  // ---------------------------------------------------------------------

  /** `execute`: through RCON, answering its output, or on the console. */
  function Run(env: Env, command: string): (r: seq<Out>)
    ensures |r| == 2 && r[0] == (if env.rconRunning then RconQuery(command) else Execute(command))
    ensures !env.rconRunning ==> r[1] == Reply(NoRcon)
  {
    if env.rconRunning then
      var out := env.rcon(command);
      [RconQuery(command), Reply(if out == "" then NoOutput else CommandOutput(out))]
    else [Execute(command), Reply(NoRcon)]
  }

  /** The `/bound` subcommands of private chat. Only these change the
      bindings: `unbound` removes an existing entry, `<qq> <id>` overwrites,
      for a decimal QQ number only. */
  function PrivateBound(data: Bindings, content: string, command: seq<string>): (r: Step)
    requires |command| > 0
    ensures RunsNothing(r.outs)
    ensures r.data != data ==> (|command| == 3
      && ((command[1] == "unbound" && r.data == Remove(data, command[2]))
        || (command[1] != "unbound" && command[1] != "check" && IsDigits(command[1]) && r.data == Put(data, command[1], command[2]))))
    ensures |command| == 3 && command[1] == "unbound" && content != "/bound" ==> r.data == Remove(data, command[2])
    ensures |command| == 3 && command[1] != "unbound" && command[1] != "check" && IsDigits(command[1]) && content != "/bound" ==>
      r == Step(Put(data, command[1], command[2]), [SaveData, Reply(BindDone)])
  {
    if content == "/bound" then Step(data, [Reply(BoundHelp)])
    else if |command| == 2 && command[1] == "list" then
      Step(data, [Reply(if |data| == 0 then NobodyBound else BoundListing(data))])
    else if |command| == 3 && command[1] == "check" then
      Step(data, [Reply(if HasKey(data, command[2]) then BoundIs(command[2], Get(data, command[2]).value) else NotBound(command[2]))])
    else if |command| == 3 && command[1] == "unbound" then
      if HasKey(data, command[2]) then Step(Remove(data, command[2]), [SaveData, Reply(Unbound(command[2]))])
      else Step(data, [Reply(NotBound(command[2]))])
    else if |command| == 3 && IsDigits(command[1]) then
      Step(Put(data, command[1], command[2]), [SaveData, Reply(BindDone)])
    else Step(data, [])
  }

  /** The `/whitelist` subcommands the plugin passes on. */
  const WhitelistActions: set<string> := {"add", "remove", "list", "on", "off", "reload"}

  /** Which branch of `private_command` a message takes. */
  datatype PrivateKind = HelpKind | BoundKind | WhitelistKind | CommandKind | OtherKind

  function PrivateKindOf(content: string): (k: PrivateKind)
    ensures k.BoundKind? ==> StartsWith(content, "/bound")
    ensures k.WhitelistKind? ==> StartsWith(content, "/whitelist")
    ensures k.CommandKind? ==> StartsWith(content, "/command ")
  {
    if content == "/help" then HelpKind
    else if StartsWith(content, "/bound") then BoundKind
    else if StartsWith(content, "/whitelist") then WhitelistKind
    else if StartsWith(content, "/command ") then CommandKind
    else OtherKind
  }

  /** `private_command`. A message that starts with `/whitelist` but whose
      first word is longer (`/whitelistx`) has no `command[1]` and raises
      `IndexError`. */
  function PrivateCommand(env: Env, data: Bindings, content: string, command: seq<string>): (r: Result<Step, string>)
    requires |command| > 0
    ensures r.Err? <==> PrivateKindOf(content).WhitelistKind? && content != "/whitelist" && |command| == 1
    ensures r.Ok? && !RunsNothing(r.value.outs) ==>
      (PrivateKindOf(content).WhitelistKind? && |command| > 1 && command[1] in WhitelistActions && r.value.outs == Run(env, content))
      || (PrivateKindOf(content).CommandKind? && r.value.outs == Run(env, Unescape(content[9..])))
    ensures r.Ok? && r.value.data != data ==> PrivateKindOf(content).BoundKind?
  {
    match PrivateKindOf(content)
    case HelpKind => Ok(Step(data, [Reply(AdminHelp)]))
    case BoundKind => Ok(PrivateBound(data, content, command))
    case WhitelistKind =>
      if content == "/whitelist" then Ok(Step(data, [Reply(WhitelistHelp)]))
      else if |command| == 1 then Err("IndexError")
      else if command[1] in WhitelistActions then Ok(Step(data, Run(env, content)))
      else Ok(Step(data, []))
    case CommandKind => Ok(Step(data, Run(env, Unescape(content[9..]))))
    case OtherKind => Ok(Step(data, []))
  }

  /** `group_command`: a member binds their own QQ number once, and with
      `whitelist_add_with_bound` the player is whitelisted. */
  function GroupCommand(addWithBound: bool, data: Bindings, userId: string, content: string, command: seq<string>): (r: Step)
    requires |command| > 0
    ensures HasKey(data, userId) ==> r.data == data
    ensures content != "/help" && |command| == 2 && command[0] == "bound" ==> r == GroupBind(addWithBound, data, userId, command[1])
    ensures !(content != "/help" && |command| == 2 && command[0] == "bound") ==> r.data == data && RunsNothing(r.outs)
  {
    if content == "/help" then Step(data, [Reply(GroupHelp)])
    else if |command| == 2 && command[0] == "bound" then GroupBind(addWithBound, data, userId, command[1])
    else Step(data, [])
  }

  /** The console command that whitelists a newly bound player. */
  function WhitelistAdd(player: string): string
  {
    "whitelist add " + player
  }

  /** Nothing goes through RCON, and the console runs at most the
      whitelisting of `player`. */
  predicate OnlyWhitelistAdd(outs: seq<Out>, player: string)
  {
    forall i :: 0 <= i < |outs| ==> !outs[i].RconQuery? && (outs[i].Execute? ==> outs[i].command == WhitelistAdd(player))
  }

  /** The binding branch of `group_command`. */
  function GroupBind(addWithBound: bool, data: Bindings, userId: string, player: string): (r: Step)
    ensures HasKey(data, userId) ==> r == Step(data, [Reply(AlreadyBound(userId, Get(data, userId).value))])
    ensures !HasKey(data, userId) ==> r.data == data + [(userId, player)]
    ensures !HasKey(data, userId) ==> (Execute(WhitelistAdd(player)) in r.outs <==> addWithBound)
    ensures OnlyWhitelistAdd(r.outs, player)
  {
    if HasKey(data, userId) then Step(data, [Reply(AlreadyBound(userId, Get(data, userId).value))])
    else
      PutAbsent(data, userId, player);
      Step(Put(data, userId, player), BindOuts(addWithBound, userId, player))
  }

  /** What a successful group binding sends and runs. */
  function BindOuts(addWithBound: bool, userId: string, player: string): (r: seq<Out>)
    ensures Execute(WhitelistAdd(player)) in r <==> addWithBound
    ensures OnlyWhitelistAdd(r, player)
  {
    var add := Execute(WhitelistAdd(player));
    if addWithBound then
      var outs := [SaveData, Reply(BindDoneAt(userId)), add, Reply(WhitelistedAt(userId))];
      assert outs[2] == add;
      outs
    else
      [SaveData, Reply(BindDoneAt(userId))]
  }

  /** Who may issue commands at all: a configured group or an admin. */
  predicate Listens(c: Config, e: Event)
  {
    (e.groupId.Some? && e.groupId.value in c.groups) || e.userId in c.admins
  }

  /** `on_qq_command`. `/list` and `/mc` are answered in any chat; every
      other command goes to the private or the group handler. Without
      online_player_api `/list` raises `AttributeError`. */
  function OnQqCommand(c: Config, env: Env, data: Bindings, e: Event): (r: Result<Step, string>)
    ensures !Listens(c, e) ==> r == Ok(Step(data, []))
    ensures r.Ok? && r.value.data != data ==> (Listens(c, e)
      && (e.detailType == "private" || e.detailType == "group"))
    ensures r.Ok? && e.detailType != "private" ==> forall o :: o in r.value.outs ==> !o.RconQuery?
  {
    if !Listens(c, e) then Ok(Step(data, []))
    else
      var command := CommandWords(e.content);
      if c.list && command[0] == "list" then
        if env.onlinePlayers.None? then Err("AttributeError")
        else Ok(Step(data, [Reply(PlayerCount(env.onlinePlayers.value))]))
      else if c.mc && command[0] == "mc" then
        if HasKey(data, e.userId) then Ok(Step(data, [Say(QqChatLine(Get(data, e.userId).value, Drop(e.content, 4)))]))
        else Ok(Step(data, [Reply(PleaseBind(e.userId))]))
      else if e.detailType == "private" then PrivateCommand(env, data, e.content, command)
      else if e.detailType == "group" then Ok(GroupCommand(c.whitelistAddWithBound, data, e.userId, e.content, command))
      else Ok(Step(data, []))
  }

  /** `content[k:]` */
  function Drop(s: string, k: nat): (r: string)
    ensures k <= |s| ==> r == s[k..]
    ensures k > |s| ==> r == ""
  {
    if k <= |s| then s[k..] else ""
  }

  /** A private message carries no group, so only an administrator reaches
      the private commands, and only they can run anything on the server or
      edit other members' bindings. */
  lemma PrivateNeedsAdmin(c: Config, env: Env, data: Bindings, e: Event)
    requires e.detailType == "private" && e.groupId.None?
    ensures var r := OnQqCommand(c, env, data, e);
      (r.Ok? && (r.value.data != data || !RunsNothing(r.value.outs))) ==> e.userId in c.admins
  {
  }

  /** A member already bound cannot rebind from a group. */
  lemma GroupBindOnce(c: Config, env: Env, data: Bindings, e: Event)
    requires e.detailType == "group" && HasKey(data, e.userId)
    ensures var r := OnQqCommand(c, env, data, e);
      r.Ok? ==> r.value.data == data
  {
  }

  /** `on_message`: a `/` message is a command; other group text is said in
      game for a bound member, or answered with a request to bind, when
      `qq_to_mc` is on. */
  function OnMessage(c: Config, env: Env, data: Bindings, e: Event): (r: Result<Step, string>)
    ensures StartsWith(e.content, "/") ==> r == OnQqCommand(c, env, data, e)
    ensures !StartsWith(e.content, "/") ==> r.Ok? && r.value.data == data
    ensures !StartsWith(e.content, "/") && c.qqToMc && e.groupId.Some? && e.groupId.value in c.groups ==>
      r.value.outs == if HasKey(data, e.userId) then [Say(QqChatLine(Get(data, e.userId).value, e.content))]
        else [GroupMessage(e.groupId.value, CannotForward(e.userId))]
    ensures !StartsWith(e.content, "/") && !(c.qqToMc && e.groupId.Some? && e.groupId.value in c.groups) ==> r.value.outs == []
  {
    if StartsWith(e.content, "/") then OnQqCommand(c, env, data, e)
    else if c.qqToMc && e.groupId.Some? && e.groupId.value in c.groups then
      if HasKey(data, e.userId) then Ok(Step(data, [Say(QqChatLine(Get(data, e.userId).value, e.content))]))
      else Ok(Step(data, [GroupMessage(e.groupId.value, CannotForward(e.userId))]))
    else Ok(Step(data, []))
  }

  /** `on_notice`: a bound member leaving a configured group loses the
      binding and the whitelist entry. */
  function OnNotice(c: Config, data: Bindings, groupId: Option<string>, detailType: string, userId: string): (r: Step)
    ensures var leaves := groupId.Some? && groupId.value in c.groups && detailType == "group_decrease"
        && c.whitelistRemoveWithLeave && HasKey(data, userId);
      && (!leaves ==> r == Step(data, []))
      && (leaves ==> (r.data == Remove(data, userId)
        && r.outs == [Execute("whitelist remove " + Get(data, userId).value), Reply(LeftGroup(Get(data, userId).value)), SaveData]))
  {
    if groupId.None? || groupId.value !in c.groups then Step(data, [])
    else if detailType == "group_decrease" && c.whitelistRemoveWithLeave && HasKey(data, userId) then
      var player := Get(data, userId).value;
      Step(Remove(data, userId), [Execute("whitelist remove " + player), Reply(LeftGroup(player)), SaveData])
    else Step(data, [])
  }

  /** A leave notice touches no other member's binding. */
  lemma OnNoticeKeepsOthers(c: Config, data: Bindings, groupId: Option<string>, detailType: string, userId: string, other: string)
    requires other != userId
    ensures Get(OnNotice(c, data, groupId, detailType, userId).data, other) == Get(data, other)
  {
    GetRemoveOther(data, userId, other);
  }

  /** Posts `text` to every configured group (`send_msg_to_all_groups`). */
  function SendToAll(c: Config, text: Text): (r: seq<Out>)
    ensures |r| == |c.groups|
    ensures forall i :: 0 <= i < |r| ==> r[i] == GroupMessage(c.groups[i], text)
  {
    SendTo(c.groups, text)
  }

  function SendTo(groups: seq<string>, text: Text): (r: seq<Out>)
    ensures |r| == |groups|
    ensures forall i :: 0 <= i < |r| ==> r[i] == GroupMessage(groups[i], text)
  {
    if |groups| == 0 then [] else [GroupMessage(groups[0], text)] + SendTo(groups[1..], text)
  }

  /** `on_user_info`, `!!qq` and `on_server_startup`: game chat to every
      group when `mc_to_qq` is on; `!!qq` when the `qq` switch is on. */
  function OnUserInfo(c: Config, isPlayer: bool, player: string, content: string): (r: seq<Out>)
    ensures isPlayer && c.mcToQq ==> r == SendToAll(c, ServerChat(player, content))
    ensures !(isPlayer && c.mcToQq) ==> r == []
  {
    if isPlayer && c.mcToQq then SendToAll(c, ServerChat(player, content)) else []
  }

  function QqCommand(c: Config, isPlayer: bool, player: string, message: string): (r: seq<Out>)
    ensures c.qq ==> r == SendToAll(c, ServerChat(if isPlayer then player else "Console", message))
    ensures !c.qq ==> r == []
  {
    if c.qq then SendToAll(c, ServerChat(if isPlayer then player else "Console", message)) else []
  }
}
