/** The REST endpoints of the older bot plugin (bot/bot/fastapi_manager.py).
    Their errors are 400 rather than 422, the online check runs after the
    other fields are applied, and the bot manager's `save` and `delete` are
    not part of this model: the endpoints take their outcome as input. */
module LegacyBotApi {
  import opened Basics
  import opened Dicts
  import Bots
  import opened LegacyBots

  /** What a handler ends with. `Raised` is a plugin exception the handler
      does not catch; `MissingAttribute` is an `AttributeError`. */
  datatype Response =
    | Answer(bot: LegacyBot)
    | Done
    | HttpError(status: int, detail: string)
    | Raised(error: Bots.BotError)
    | MissingAttribute(attribute: string)

  datatype ApiStep = ApiStep(reg: LegacyRegistry, response: Response, cmds: seq<Bots.Cmd>)

  /** `__spawn_or_kill(bot, online)`: spawn an offline bot, kill an online
      one, and answer 400 when the bot is already in the requested state. */
  function SpawnOrKill(b: LegacyBot, online: bool, gamemode: string): (r: Result<(LegacyBot, seq<Bots.Cmd>), (int, string)>)
    ensures r.Err? <==> online == b.online
    ensures r.Err? ==> r.error.0 == 400
    ensures r.Ok? && online ==> r == Ok(Spawn(b, gamemode).value)
    ensures r.Ok? && !online ==> r == Ok(Kill(b).value)
    ensures r.Ok? ==> r.value.0.online == online
  {
    if online && b.online then Err((400, "Bot \"" + b.name + "\" is already online."))
    else if online then Ok(Spawn(b, gamemode).value)
    else if b.online then Ok(Kill(b).value)
    else Err((400, "Bot \"" + b.name + "\" is not online."))
  }

  /** The four cases of `__spawn_or_kill`, each with its outcome. */
  lemma SpawnOrKillCases(b: LegacyBot, gamemode: string)
    ensures b.online ==> SpawnOrKill(b, true, gamemode) == Err((400, "Bot \"" + b.name + "\" is already online."))
    ensures !b.online ==> SpawnOrKill(b, true, gamemode).Ok? && SpawnOrKill(b, true, gamemode).value.0 == b.(online := true)
    ensures b.online ==> SpawnOrKill(b, false, gamemode) == Ok((b.(online := false), [Bots.KillPlayer(b.name)]))
    ensures !b.online ==> SpawnOrKill(b, false, gamemode) == Err((400, "Bot \"" + b.name + "\" is not online."))
  {
  }

  /** The optional fields of `PatchBotRequest` and `PostBotRequest`. */
  datatype Request = Request(
    location: Option<Bots.Location>,
    comment: Option<string>,
    actions: Option<seq<string>>,
    autoLogin: Option<bool>,
    autoRunActions: Option<bool>,
    online: Option<bool>)

  predicate IsEmpty(q: Request)
  {
    q.location.None? && q.comment.None? && q.actions.None? && q.autoLogin.None? && q.autoRunActions.None? && q.online.None?
  }

  /** The given fields replace the bot's own; nothing else changes. */
  function ApplyFields(b: LegacyBot, q: Request): (r: LegacyBot)
    ensures q.location.Some? ==> r.location == q.location.value
    ensures q.location.None? ==> r.location == b.location
    ensures q.comment.Some? ==> r.comment == q.comment.value
    ensures q.comment.None? ==> r.comment == b.comment
    ensures q.actions.Some? ==> r.actions == q.actions.value
    ensures q.actions.None? ==> r.actions == b.actions
    ensures r.autoLogin == (if q.autoLogin.Some? then q.autoLogin.value else b.autoLogin)
    ensures r.autoRunActions == (if q.autoRunActions.Some? then q.autoRunActions.value else b.autoRunActions)
    ensures r.name == b.name && r.online == b.online && r.saved == b.saved
  {
    LegacyBot(b.name,
              if q.location.Some? then q.location.value else b.location,
              if q.comment.Some? then q.comment.value else b.comment,
              if q.actions.Some? then q.actions.value else b.actions,
              if q.autoLogin.Some? then q.autoLogin.value else b.autoLogin,
              if q.autoRunActions.Some? then q.autoRunActions.value else b.autoRunActions,
              b.online, b.saved)
  }

  /** The common tail of POST and PATCH for the bot under `name`: apply the
      fields, then spawn or kill. A refused spawn or kill answers 400 with
      the other fields already applied in memory and nothing saved. */
  function Update(reg: LegacyRegistry, name: string, b: LegacyBot, q: Request, gamemode: string): (r: ApiStep)
    ensures var applied := ApplyFields(b, q);
      && (r.response.HttpError? <==> q.online.Some? && q.online.value == b.online)
      && (r.response.HttpError? ==> r.response.status == 400 && r.reg == Put(reg, name, applied) && r.cmds == [])
      && (r.response.Answer? ==> r.reg == Put(reg, name, r.response.bot) && |r.cmds| > 0 && r.cmds[|r.cmds| - 1] == Bots.SaveData)
      && (r.response.Answer? && q.online.None? ==> r.response.bot == applied && r.cmds == [Bots.SaveData])
      && (r.response.Answer? && q.online.Some? ==> r.response.bot == applied.(online := q.online.value))
      && !r.response.Raised? && !r.response.MissingAttribute?
  {
    var applied := ApplyFields(b, q);
    if q.online.None? then ApiStep(Put(reg, name, applied), Answer(applied), [Bots.SaveData])
    else match SpawnOrKill(applied, q.online.value, gamemode)
      case Err((status, detail)) => ApiStep(Put(reg, name, applied), HttpError(status, detail), [])
      case Ok((b', cmds)) => ApiStep(Put(reg, name, b'), Answer(b'), cmds + [Bots.SaveData])
  }

  /** `PATCH /bots/{bot_name}` with the name normalised by the command
      handler's `__parse_name`: an empty request is refused first, then an
      unknown bot, both with 400. */
  function Patch(reg: LegacyRegistry, botName: string, q: Request, gamemode: string, prefix: string, suffix: string): (r: ApiStep)
    ensures var name := LegacyParseName(botName, prefix, suffix);
      && (IsEmpty(q) ==> r == ApiStep(reg, HttpError(400, "No parameter is provided."), []))
      && (!IsEmpty(q) && !HasKey(reg, name) ==> r == ApiStep(reg, HttpError(400, "Bot \"" + name + "\" is not found."), []))
      && (!IsEmpty(q) && HasKey(reg, name) ==> r == Update(reg, name, Get(reg, name).value, q, gamemode))
  {
    var name := LegacyParseName(botName, prefix, suffix);
    if IsEmpty(q) then ApiStep(reg, HttpError(400, "No parameter is provided."), [])
    else match Get(reg, name)
      case None => ApiStep(reg, HttpError(400, "Bot \"" + name + "\" is not found."), [])
      case Some(b) => Update(reg, name, b, q, gamemode)
  }

  /** Unlike the newer endpoint, a conflicting online request here still
      changes the bot: a PATCH that sets a comment and asks to spawn an
      online bot is answered 400, yet the comment is set in memory. */
  lemma PatchConflictAfterFields(reg: LegacyRegistry, botName: string, comment: string, gamemode: string, prefix: string, suffix: string)
    requires HasKey(reg, LegacyParseName(botName, prefix, suffix))
    requires Get(reg, LegacyParseName(botName, prefix, suffix)).value.online
    ensures var name := LegacyParseName(botName, prefix, suffix);
      var r := Patch(reg, botName, Request(None, Some(comment), None, None, None, Some(true)), gamemode, prefix, suffix);
      && r.response.HttpError? && r.response.status == 400
      && Get(r.reg, name) == Some(Get(reg, name).value.(comment := comment))
  {
    var name := LegacyParseName(botName, prefix, suffix);
    var b := Get(reg, name).value;
    var q := Request(None, Some(comment), None, None, None, Some(true));
    assert ApplyFields(b, q) == b.(comment := comment);
  }

  /** `POST /bots`, given what the bot manager's `save(name, None, location)`
      did: an already-saved bot is answered 400, any other refusal escapes
      the handler, and a saved bot gets the remaining fields and the spawn
      or kill. The location went to `save`, so the request's is not applied
      again. */
  function Post(saved: LegacyStep, name: string, q: Request, gamemode: string): (r: ApiStep)
    ensures saved.result == Err(Bots.BotAlreadySaved(name)) ==> r == ApiStep(saved.reg, HttpError(400, "Bot \"" + name + "\" is already saved."), [])
    ensures saved.result.Err? && !saved.result.error.BotAlreadySaved? ==> r.response == Raised(saved.result.error)
    ensures saved.result.Ok? ==> r == Update(saved.reg, name, saved.result.value, q.(location := None), gamemode)
    ensures saved.result.Ok? && r.response.Answer? ==> r.response.bot.location == saved.result.value.location
  {
    match saved.result
    case Err(e) =>
      if e.BotAlreadySaved? then ApiStep(saved.reg, HttpError(400, "Bot \"" + name + "\" is already saved."), [])
      else ApiStep(saved.reg, Raised(e), [])
    case Ok(b) => Update(saved.reg, name, b, q.(location := None), gamemode)
  }

  /** `DELETE /bots/{bot_name}`, given what the bot manager's `delete` did:
      an unknown and an unsaved bot are both answered 400. */
  function Delete(deleted: LegacyStep, name: string): (r: ApiStep)
    ensures deleted.result.Ok? ==> r == ApiStep(deleted.reg, Done, deleted.cmds)
    ensures deleted.result == Err(Bots.BotNotExists(name)) ==> r.response == HttpError(400, "Bot \"" + name + "\" is not found.")
    ensures deleted.result == Err(Bots.BotNotSaved(name)) ==> r.response == HttpError(400, "Bot \"" + name + "\" is not saved.")
    ensures r.response.HttpError? ==> r.response.status == 400
  {
    match deleted.result
    case Ok(_) => ApiStep(deleted.reg, Done, deleted.cmds)
    case Err(e) =>
      if e.BotNotExists? then ApiStep(deleted.reg, HttpError(400, "Bot \"" + name + "\" is not found."), [])
      else if e.BotNotSaved? then ApiStep(deleted.reg, HttpError(400, "Bot \"" + name + "\" is not saved."), [])
      else ApiStep(deleted.reg, Raised(e), [])
  }

  /** The endpoints as written call `parse_name` on the command handler,
      which only defines the name-mangled `__parse_name`; the lookup raises
      `AttributeError` before anything else, so every POST, PATCH and
      DELETE fails and nothing changes. */
  function PatchAsWritten(reg: LegacyRegistry, botName: string, q: Request, gamemode: string, prefix: string, suffix: string): (r: ApiStep)
    ensures r == ApiStep(reg, MissingAttribute("parse_name"), [])
  {
    ApiStep(reg, MissingAttribute("parse_name"), [])
  }

  /** A PATCH that only sets the comment of a known bot succeeds when the
      name goes through `__parse_name`, and fails as written. */
  lemma PatchAsWrittenDiffers(reg: LegacyRegistry, botName: string, comment: string, gamemode: string, prefix: string, suffix: string)
    requires HasKey(reg, LegacyParseName(botName, prefix, suffix))
    ensures var q := Request(None, Some(comment), None, None, None, None);
      && Patch(reg, botName, q, gamemode, prefix, suffix).response.Answer?
      && Patch(reg, botName, q, gamemode, prefix, suffix).response.bot.comment == comment
      && PatchAsWritten(reg, botName, q, gamemode, prefix, suffix).response.MissingAttribute?
  {
  }
}
