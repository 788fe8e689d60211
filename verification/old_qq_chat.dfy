/** The first QQ bridge (QQChat/QQChat.py), driven by cool_q_api. Its
    commands are those of the later qq_api version, with three
    differences: a message is let in by its source (the group, or the
    sender in private chat), `/list` and `/mc` do not stop the private or
    group handler from running as well, and RCON output is answered as it
    is, while a console command gets no answer. */
module OldQqChat {
  import opened Basics
  import opened Dicts
  import opened LegacyQqChat

  /** The entries of `DEFAULT_CONFIG`, as the later `Config` names them. */
  const DefaultConfig := LegacyQqChat.DefaultConfig

  /** A cool_q_api message: its text, sender, source (group number in a
      group, the sender in private chat) and source type. */
  datatype Info = Info(content: string, userId: string, sourceId: string, sourceType: string)

  /** Who may issue commands: a source listed as a group or as an admin. */
  predicate Listens(c: Config, info: Info)
  {
    info.sourceId in c.groups || info.sourceId in c.admins
  }

  /** RCON output is answered as it is, even when empty; a console command
      is answered with nothing. */
  function RunRaw(env: Env, command: string): (r: seq<Out>)
    ensures env.rconRunning ==> r == [RconQuery(command), Reply(CommandOutput(env.rcon(command)))]
    ensures !env.rconRunning ==> r == [Execute(command)]
  {
    if env.rconRunning then [RconQuery(command), Reply(CommandOutput(env.rcon(command)))] else [Execute(command)]
  }

  /** `private_command`: `/bound` as in the later version; `/whitelist` and
      `/command` run without the later `execute` wrapper. */
  function PrivateCommand(env: Env, data: Bindings, content: string, command: seq<string>): (r: Result<Step, string>)
    requires |command| > 0
    ensures r.Err? <==> PrivateKindOf(content).WhitelistKind? && content != "/whitelist" && |command| == 1
    ensures r.Ok? && !RunsNothing(r.value.outs) ==>
      (PrivateKindOf(content).WhitelistKind? && |command| > 1 && command[1] in WhitelistActions && r.value.outs == RunRaw(env, content))
      || (PrivateKindOf(content).CommandKind? && r.value.outs == RunRaw(env, Unescape(content[9..])))
    ensures r.Ok? && PrivateKindOf(content).BoundKind? ==> r.value == PrivateBound(data, content, command)
    ensures r.Ok? && r.value.data != data ==> PrivateKindOf(content).BoundKind?
  {
    match PrivateKindOf(content)
    case HelpKind => Ok(Step(data, [Reply(AdminHelp)]))
    case BoundKind => Ok(PrivateBound(data, content, command))
    case WhitelistKind =>
      if content == "/whitelist" then Ok(Step(data, [Reply(WhitelistHelp)]))
      else if |command| == 1 then Err("IndexError")
      else if command[1] in WhitelistActions then Ok(Step(data, RunRaw(env, content)))
      else Ok(Step(data, []))
    case CommandKind => Ok(Step(data, RunRaw(env, Unescape(content[9..]))))
    case OtherKind => Ok(Step(data, []))
  }

  /** The `/list` and `/mc` part of `on_qq_command`. */
  function Common(c: Config, env: Env, data: Bindings, info: Info, command: seq<string>): (r: Result<seq<Out>, string>)
    requires |command| > 0
    ensures r.Err? <==> c.list && command[0] == "list" && env.onlinePlayers.None?
    ensures r.Ok? ==> RunsNothing(r.value)
  {
    if c.list && command[0] == "list" then
      if env.onlinePlayers.None? then Err("AttributeError")
      else Ok([Reply(PlayerCount(env.onlinePlayers.value))])
    else if c.mc && command[0] == "mc" then
      if HasKey(data, info.userId) then Ok([Say(QqChatLine(Get(data, info.userId).value, LegacyQqChat.Drop(info.content, 4)))])
      else Ok([Reply(PleaseBind(info.userId))])
    else Ok([])
  }

  /** `on_qq_command`: after `/list` or `/mc` the private or group handler
      still runs on the same message. */
  function OnQqCommand(c: Config, env: Env, data: Bindings, info: Info): (r: Result<Step, string>)
    ensures !Listens(c, info) ==> r == Ok(Step(data, []))
    ensures Listens(c, info) && info.sourceType == "group" && Common(c, env, data, info, CommandWords(info.content)).Ok? ==>
      var command := CommandWords(info.content);
      r == Ok(Step(GroupCommand(c.whitelistAddWithBound, data, info.userId, info.content, command).data,
        Common(c, env, data, info, command).value + GroupCommand(c.whitelistAddWithBound, data, info.userId, info.content, command).outs))
    ensures r.Ok? && r.value.data != data ==> Listens(c, info) && (info.sourceType == "private" || info.sourceType == "group")
  {
    if !Listens(c, info) then Ok(Step(data, []))
    else
      var command := CommandWords(info.content);
      match Common(c, env, data, info, command)
      case Err(e) => Err(e)
      case Ok(first) =>
        if info.sourceType == "private" then
          match PrivateCommand(env, data, info.content, command)
          case Err(e) => Err(e)
          case Ok(step) => Ok(Step(step.data, first + step.outs))
        else if info.sourceType == "group" then
          var step := GroupCommand(c.whitelistAddWithBound, data, info.userId, info.content, command);
          Ok(Step(step.data, first + step.outs))
        else Ok(Step(data, first))
  }

  /** In private chat the source is the sender, so only an admin (or a user
      whose number is also listed as a group) changes bindings or runs
      anything on the server. */
  lemma PrivateNeedsAdmin(c: Config, env: Env, data: Bindings, info: Info)
    requires info.sourceType == "private" && info.sourceId == info.userId
    ensures var r := OnQqCommand(c, env, data, info);
      (r.Ok? && (r.value.data != data || !RunsNothing(r.value.outs))) ==> info.userId in c.admins || info.userId in c.groups
  {
  }

  /** `on_qq_info`: group chat from a bound member is said in game, an
      unbound member is told to bind, when `qq_to_mc` is on. */
  function OnQqInfo(c: Config, data: Bindings, info: Info): (r: seq<Out>)
    ensures !(c.qqToMc && info.sourceId in c.groups) ==> r == []
    ensures c.qqToMc && info.sourceId in c.groups && HasKey(data, info.userId) ==>
      r == [Say(QqChatLine(Get(data, info.userId).value, info.content))]
    ensures c.qqToMc && info.sourceId in c.groups && !HasKey(data, info.userId) ==> r == [Reply(CannotForward(info.userId))]
  {
    if c.qqToMc && info.sourceId in c.groups then
      if HasKey(data, info.userId) then [Say(QqChatLine(Get(data, info.userId).value, info.content))]
      else [Reply(CannotForward(info.userId))]
    else []
  }

  /** `on_qq_notice`: the same leave handling as the later version, keyed by
      the notice's source. */
  function OnQqNotice(c: Config, data: Bindings, sourceId: string, noticeType: string, userId: string): (r: Step)
    ensures r == LegacyQqChat.OnNotice(c, data, Some(sourceId), noticeType, userId)
  {
    LegacyQqChat.OnNotice(c, data, Some(sourceId), noticeType, userId)
  }
}
