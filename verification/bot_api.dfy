/** The REST endpoints of the bot plugin (src/bot/bot/fastapi_manager.py):
    request validation, the shared partial update `__update_bot_data`, and
    the POST, PATCH and DELETE decisions with their HTTP errors. The web
    framework itself is not modelled; a handler's outcome is an answer, an
    HTTP error, or a plugin exception it does not catch. */
module BotApi {
  import opened Basics
  import opened Dicts
  import opened Bots
  import opened BotManager
  import BotCommands
  import Dimensions

  // ---------------------------------------------------------------------
  // Request bodies
  // ---------------------------------------------------------------------

  /** A `LocationModel` as it arrives, before validation. */
  datatype LocationModel = LocationModel(position: seq<real>, facing: Option<seq<real>>, dimension: int)

  /** pydantic's checks on `LocationModel`: exactly three coordinates,
      exactly two facing angles (default `[0, 0]`), and a dimension between
      -1 and 1. A failed check is answered with 422 before any handler runs. */
  function ValidateLocation(m: LocationModel): (r: Option<Location>)
    ensures r.Some? <==> |m.position| == 3 && (m.facing.None? || |m.facing.value| == 2) && -1 <= m.dimension <= 1
    ensures r.Some? ==> r.value.position == m.position && |r.value.facing| == 2
    ensures r.Some? && m.facing.Some? ==> r.value.facing == m.facing.value
    ensures r.Some? && m.facing.None? ==> r.value.facing == [0.0, 0.0]
    ensures r.Some? ==> r.value.dimension == Some(m.dimension)
  {
    var facing := if m.facing.Some? then m.facing.value else [0.0, 0.0];
    if |m.position| == 3 && |facing| == 2 && -1 <= m.dimension <= 1 then
      Some(Location(m.position, facing, Some(m.dimension)))
    else None
  }

  /** A validated location always names one of the three dimensions, so the
      bot manager's dimension check can never refuse it and the spawn
      command can always name it. */
  lemma ValidatedDimension(m: LocationModel)
    requires ValidateLocation(m).Some?
    ensures var d := ValidateLocation(m).value.dimension;
      d.Some? && Dimensions.IsDimension(d.value) && Dimensions.UsingTranslation(d.value).Some?
  {
  }

  /** `BaseBotRequest` after validation: every field optional. */
  datatype BotRequest = BotRequest(
    name: Option<string>,
    location: Option<Location>,
    comment: Option<string>,
    actions: Option<seq<string>>,
    tags: Option<seq<string>>,
    autoLogin: Option<bool>,
    autoRunActions: Option<bool>,
    autoUpdate: Option<bool>,
    online: Option<bool>)

  /** A request that asks for nothing. */
  predicate IsEmpty(q: BotRequest)
  {
    q.name.None? && q.location.None? && q.comment.None? && q.actions.None? && q.tags.None?
    && q.autoLogin.None? && q.autoRunActions.None? && q.autoUpdate.None? && q.online.None?
  }

  /** What a handler ends with. `Raised` is a plugin exception the handler
      does not catch. */
  datatype Response = Answer(bot: Bot) | HttpError(status: int, detail: string) | Raised(error: BotError)

  /** The registry, the response and the server commands of one request. */
  datatype ApiStep = ApiStep(reg: Registry, response: Response, cmds: seq<Cmd>)

  // ---------------------------------------------------------------------
  // __update_bot_data
  // ---------------------------------------------------------------------

  /** The plain setters of `__update_bot_data`: each given field replaces
      the bot's own; nothing else is touched. */
  function ApplyFields(b: Bot, q: BotRequest): (r: Bot)
    ensures q.location.Some? ==> r.location == q.location.value
    ensures q.location.None? ==> r.location == b.location
    ensures q.comment.Some? ==> r.comment == q.comment.value
    ensures q.comment.None? ==> r.comment == b.comment
    ensures q.actions.Some? ==> r.actions == q.actions.value
    ensures q.actions.None? ==> r.actions == b.actions
    ensures q.tags.Some? ==> r.tags == q.tags.value
    ensures q.tags.None? ==> r.tags == b.tags
    ensures r.autoLogin == (if q.autoLogin.Some? then q.autoLogin.value else b.autoLogin)
    ensures r.autoRunActions == (if q.autoRunActions.Some? then q.autoRunActions.value else b.autoRunActions)
    ensures r.autoUpdate == (if q.autoUpdate.Some? then q.autoUpdate.value else b.autoUpdate)
    ensures r.name == b.name && r.online == b.online && r.saved == b.saved && r.mcName == b.mcName
  {
    Bot(b.name,
        if q.location.Some? then q.location.value else b.location,
        if q.comment.Some? then q.comment.value else b.comment,
        if q.actions.Some? then q.actions.value else b.actions,
        if q.tags.Some? then q.tags.value else b.tags,
        if q.autoLogin.Some? then q.autoLogin.value else b.autoLogin,
        if q.autoRunActions.Some? then q.autoRunActions.value else b.autoRunActions,
        if q.autoUpdate.Some? then q.autoUpdate.value else b.autoUpdate,
        b.mcName, b.online, b.saved)
  }

  /** Asking for the state the bot is already in. */
  predicate OnlineConflict(b: Bot, q: BotRequest)
  {
    q.online.Some? && q.online.value == b.online
  }

  /** The rename step of `__update_bot_data`: a given name is normalised
      and set, and the registry is re-keyed by `update_list`. Returns the
      registry, the key the bot is now stored under, and the bot. */
  function Rename(reg: Registry, key: string, b: Bot, q: BotRequest, config: Config): (r: (Registry, string, Bot))
    ensures q.name.None? ==> r == (reg, key, b)
    ensures q.name.Some? ==>
      var n := BotCommands.ParseName(q.name.value, config.namePrefix, config.nameSuffix);
      r.1 == n && r.2 == b.(name := n) && r.0 == UpdateList(Put(reg, key, b.(name := n)))
  {
    if q.name.Some? then
      var renamed := b.(name := BotCommands.ParseName(q.name.value, config.namePrefix, config.nameSuffix));
      (UpdateList(Put(reg, key, renamed)), renamed.name, renamed)
  else (reg, key, b)
  }

  /** Some bot of `reg` that `update_list` keeps carries the name `n`. */
  predicate NameClaimed(reg: Registry, n: string)
  {
    exists e :: e in reg && e.1.name == n && (e.1.online || e.1.saved)
  }

  /** Whether `update_list`, run after the bot stored under `key` became
      `renamed`, keeps that same bot object: it must be online or saved, and
      no kept bot stored after it may carry its new name, because the dict
      comprehension lets the last bot of a name win. */
  function RenamedSurvives(reg: Registry, key: string, renamed: Bot): (r: bool)
    ensures r ==> HasKey(reg, key) && (renamed.online || renamed.saved)
    decreases |reg|
  {
    if |reg| == 0 then false
    else if reg[0].0 == key then (renamed.online || renamed.saved) && !NameClaimed(reg[1..], renamed.name)
    else
      assert Keys(reg) == [reg[0].0] + Keys(reg[1..]);
      RenamedSurvives(reg[1..], key, renamed)
  }

  /** The last step of `__update_bot_data`: spawn an offline bot or kill an
      online one as asked (the conflicting cases were refused earlier). */
  function SpawnOrKill(b: Bot, online: Option<bool>, whereIs: string -> Location): (r: (Bot, seq<Cmd>))
    requires online.Some? ==> online.value != b.online
    ensures online.None? ==> r == (b, [])
    ensures online == Some(true) ==> r == (b, [SpawnAt(b.name, b.location)])
    ensures online == Some(false) ==> !r.0.online && r.1 == Bots.Kill(b, whereIs).value.1 && r.0 == Bots.Kill(b, whereIs).value.0
  {
    if online == Some(true) then (b, [Bots.Spawn(b).value])
    else if online == Some(false) then Bots.Kill(b, whereIs).value
    else (b, [])
  }

  /** The bot `__update_bot_data` ends with, and the spawn or kill it
      sends: the new name (normalised), the given fields, and the online
      change. */
  function UpdatedBot(b: Bot, q: BotRequest, config: Config, whereIs: string -> Location): (r: (Bot, seq<Cmd>))
    requires !OnlineConflict(b, q)
    ensures
      var n := if q.name.Some? then BotCommands.ParseName(q.name.value, config.namePrefix, config.nameSuffix) else b.name;
      var applied := ApplyFields(b, q);
      && r.0.name == n
      && r.0.comment == applied.comment
      && r.0.actions == applied.actions
      && r.0.tags == applied.tags
      && r.0.autoLogin == applied.autoLogin
      && r.0.autoRunActions == applied.autoRunActions
      && r.0.autoUpdate == applied.autoUpdate
      && r.0.saved == b.saved
      && (q.online != Some(false) ==> r.0.location == applied.location)
      && (q.online != Some(false) ==> r.0.online == b.online)
      && (q.online == Some(false) ==> !r.0.online)
    ensures q.online == Some(true) ==> r.1 == [SpawnAt(r.0.name, r.0.location)]
    ensures q.online.None? ==> r.1 == []
  {
    var renamed := if q.name.Some? then b.(name := BotCommands.ParseName(q.name.value, config.namePrefix, config.nameSuffix)) else b;
    SpawnOrKill(ApplyFields(renamed, q), q.online, whereIs)
  }

  /** The registry after `__update_bot_data` for the bot stored under
      `key`, given the bot's final value: without a rename that value
      replaces the stored one; after a rename the re-keyed registry holds it
      under the new name only when `update_list` kept the renamed bot, and
      otherwise does not hold it at all. */
  function Stored(reg: Registry, key: string, b: Bot, q: BotRequest, config: Config, final: Bot): (r: Registry)
    ensures q.name.None? && HasKey(reg, key) ==> r == Put(reg, key, final)
    ensures q.name.None? && !HasKey(reg, key) ==> r == reg
    ensures q.name.Some? ==>
      var rn := Rename(reg, key, b, q, config);
      && (RenamedSurvives(reg, key, rn.2) ==> r == Put(rn.0, rn.1, final) && Get(r, rn.1) == Some(final))
      && (!RenamedSurvives(reg, key, rn.2) ==> r == rn.0)
  {
    var rn := Rename(reg, key, b, q, config);
    var holds := if q.name.Some? then RenamedSurvives(reg, key, rn.2) else HasKey(reg, key);
    if holds then Put(rn.0, rn.1, final) else rn.0
  }

  /** `__update_bot_data(bot, request)` for the bot stored under `key`:
      refuse a spawn of an online bot or a kill of an offline one (422)
      before touching anything; otherwise rename (normalised, then
      `update_list`), apply the other fields, spawn or kill, and save. The
      fields are set on the bot object itself, so the registry shows them
      only when that object is still the one it holds: always without a
      rename, and after a rename only when `update_list` kept the renamed
      bot under its new name (`RenamedSurvives`). */
  function UpdateBotData(reg: Registry, key: string, b: Bot, q: BotRequest, config: Config,
                         whereIs: string -> Location): (r: ApiStep)
    ensures r.response.HttpError? <==> OnlineConflict(b, q)
    ensures r.response.HttpError? ==> r.response.status == 422 && r.reg == reg && r.cmds == []
    ensures !r.response.Raised?
    ensures r.response.Answer? ==>
      var n := if q.name.Some? then BotCommands.ParseName(q.name.value, config.namePrefix, config.nameSuffix) else b.name;
      var applied := ApplyFields(b, q);
      && r.response.bot.name == n
      && r.response.bot.comment == applied.comment
      && r.response.bot.actions == applied.actions
      && r.response.bot.tags == applied.tags
      && r.response.bot.autoLogin == applied.autoLogin
      && r.response.bot.autoRunActions == applied.autoRunActions
      && r.response.bot.autoUpdate == applied.autoUpdate
      && r.response.bot.saved == b.saved
      && (q.online != Some(false) ==> r.response.bot.location == applied.location)
      && (q.online != Some(false) ==> r.response.bot.online == b.online)
      && (q.online == Some(false) ==> !r.response.bot.online)
      && |r.cmds| > 0 && r.cmds[|r.cmds| - 1] == SaveData
    ensures r.response.Answer? && q.online == Some(true) ==> r.cmds == [SpawnAt(r.response.bot.name, r.response.bot.location), SaveData]
    ensures r.response.Answer? && q.online.None? ==> r.cmds == [SaveData]
    ensures r.response.Answer? ==> r.reg == Stored(reg, key, b, q, config, r.response.bot)
  {
    if OnlineConflict(b, q) then
      ApiStep(reg, HttpError(422, if b.online then "Bot \"" + b.name + "\" is already online." else "Bot \"" + b.name + "\" is not online."), [])
    else
      var updated := UpdatedBot(b, q, config, whereIs);
      ApiStep(Stored(reg, key, b, q, config, updated.0), Answer(updated.0), updated.1 + [SaveData])
  }

  /** `update_list` over a bot and a later kept bot of the same name keeps
      the later one, at the earlier one's position. */
  lemma UpdateListLaterWins(x: Bot, y: Bot)
    requires x.name == y.name && (x.online || x.saved) && (y.online || y.saved)
    ensures UpdateList([("bot_a", x), ("bot_b", y)]) == [(y.name, y)]
  {
    var reg := [("bot_a", x), ("bot_b", y)];
    assert reg[1..] == [("bot_b", y)];
    assert Kept([("bot_b", y)]) == [(y.name, y)] by {
      assert [("bot_b", y)][1..] == [];
    }
    var pairs := Kept(reg);
    assert pairs == [(x.name, x), (y.name, y)];
    assert pairs[..1] == [(x.name, x)];
    assert FromPairs(pairs[..1]) == [(x.name, x)] by {
      assert pairs[..1][..0] == [];
    }
  }

  /** Renaming a bot onto the name of a saved bot stored after it: the
      answer is the renamed bot with the new fields, but `update_list` keeps
      the other bot under that name, so the registry loses the renamed bot
      and keeps the other one unchanged. */
  lemma RenameOntoLaterName(a: Bot, other: Bot, config: Config, whereIs: string -> Location)
    requires a.name == "bot_a" && other.name == "bot_b" && other.saved
    requires config.namePrefix == "" && config.nameSuffix == ""
    ensures var q := BotRequest(Some("bot_b"), None, Some("moved"), None, None, None, None, None, None);
      var r := UpdateBotData([("bot_a", a), ("bot_b", other)], "bot_a", a, q, config, whereIs);
      && r.response.Answer? && r.response.bot.name == "bot_b" && r.response.bot.comment == "moved"
      && (a.online || a.saved ==> r.reg == [("bot_b", other)])
  {
    var reg := [("bot_a", a), ("bot_b", other)];
    var q := BotRequest(Some("bot_b"), None, Some("moved"), None, None, None, None, None, None);
    PlainName(config);
    var a' := a.(name := "bot_b");
    var rn := Rename(reg, "bot_a", a, q, config);
    assert rn.2 == a';
    assert Put(reg, "bot_a", a') == [("bot_a", a'), ("bot_b", other)];
    assert !RenamedSurvives(reg, "bot_a", a') by {
      assert reg[1..] == [("bot_b", other)];
      assert ("bot_b", other) in reg[1..];
    }
    if a.online || a.saved {
      UpdateListLaterWins(a', other);
    }
  }

  /** With no affixes configured, `bot_b` is already a normalised name. */
  lemma PlainName(config: Config)
    requires config.namePrefix == "" && config.nameSuffix == ""
    ensures BotCommands.ParseName("bot_b", config.namePrefix, config.nameSuffix) == "bot_b"
  {
    assert Lower("bot_b") == "bot_b";
  }

  // ---------------------------------------------------------------------
  // Endpoints
  // ---------------------------------------------------------------------

  /** `PATCH /bots/{bot_name}`: an empty request is refused first (422), then
      an unknown bot (422), then the update runs. */
  function Patch(reg: Registry, config: Config, botName: string, q: BotRequest,
                 whereIs: string -> Location): (r: ApiStep)
    ensures var name := BotCommands.ParseName(botName, config.namePrefix, config.nameSuffix);
      && (IsEmpty(q) ==> r == ApiStep(reg, HttpError(422, "No parameter is provided."), []))
      && (!IsEmpty(q) && !HasKey(reg, name) ==> r == ApiStep(reg, HttpError(422, "Bot \"" + name + "\" is not found."), []))
      && (!IsEmpty(q) && HasKey(reg, name) ==> r == UpdateBotData(reg, name, Get(reg, name).value, q, config, whereIs))
    ensures r.response.HttpError? ==> r.response.status == 422 && r.reg == reg && r.cmds == []
  {
    var name := BotCommands.ParseName(botName, config.namePrefix, config.nameSuffix);
    if IsEmpty(q) then ApiStep(reg, HttpError(422, "No parameter is provided."), [])
    else match GetBot(reg, name)
      case Err(_) => ApiStep(reg, HttpError(422, "Bot \"" + name + "\" is not found."), [])
      case Ok(b) => UpdateBotData(reg, name, b, q, config, whereIs)
  }

  /** A PATCH that changes neither the name nor the online state touches
      only the addressed bot: its stored value gains exactly the given
      fields, every other key keeps its bot, and one save follows. */
  lemma PatchFieldsOnly(reg: Registry, config: Config, botName: string, q: BotRequest, whereIs: string -> Location)
    requires q.name.None? && q.online.None? && !IsEmpty(q)
    requires HasKey(reg, BotCommands.ParseName(botName, config.namePrefix, config.nameSuffix))
    ensures var name := BotCommands.ParseName(botName, config.namePrefix, config.nameSuffix);
      var r := Patch(reg, config, botName, q, whereIs);
      && r.response == Answer(ApplyFields(Get(reg, name).value, q))
      && Get(r.reg, name) == Some(ApplyFields(Get(reg, name).value, q))
      && (forall k :: k != name ==> Get(r.reg, k) == Get(reg, k))
      && r.cmds == [SaveData]
  {
    var name := BotCommands.ParseName(botName, config.namePrefix, config.nameSuffix);
    PutGetOthers(reg, name, ApplyFields(Get(reg, name).value, q));
  }

  /** A conflicting online request is refused before any other field is
      applied, whatever else the request carries. */
  lemma PatchConflictChangesNothing(reg: Registry, config: Config, botName: string, q: BotRequest, whereIs: string -> Location)
    requires HasKey(reg, BotCommands.ParseName(botName, config.namePrefix, config.nameSuffix))
    requires OnlineConflict(Get(reg, BotCommands.ParseName(botName, config.namePrefix, config.nameSuffix)).value, q)
    ensures var r := Patch(reg, config, botName, q, whereIs);
      r.reg == reg && r.cmds == [] && r.response.HttpError? && r.response.status == 422
  {
  }

  /** What `save(name, location=...)` does when called with no player and
      a location whose dimension is set. */
  lemma SaveWithLocation(reg: Registry, n: string, location: Location, whereIs: string -> Location)
    requires location.dimension.Some?
    ensures var s := Save(reg, n, None, Some(location), whereIs);
      && (s.result.Err? <==> HasKey(reg, n) && Get(reg, n).value.saved)
      && (s.result.Err? ==> s.reg == Put(reg, n, Get(reg, n).value.(location := location)) && s.cmds == [])
      && (s.result.Ok? ==> s.result.value.saved && s.result.value.location == location && s.cmds == [SaveData])
      && (s.result.Ok? ==> Get(s.reg, n) == Some(s.result.value))
      && (s.result.Ok? ==> s.result.value.online == (HasKey(reg, n) && Get(reg, n).value.online))
  {
    var s := Save(reg, n, None, Some(location), whereIs);
    var b := if HasKey(reg, n) then Apply(Get(reg, n).value, SetLocation(location)) else DefaultBot(n, location);
    assert s == MarkSaved(Put(reg, n, b), n, b);
    if HasKey(reg, n) {
      var was := Get(reg, n).value;
      assert Project(b, OnlineField) == Project(was, OnlineField);
      assert Project(b, SavedField) == Project(was, SavedField);
    }
    SavedAs(Put(reg, n, b), n, b);
  }

  /** Marking a bot saved keeps its online state and location. */
  lemma SavedAs(reg: Registry, n: string, b: Bot)
    ensures var s := MarkSaved(reg, n, b);
      && (s.result.Err? <==> b.saved)
      && (s.result.Ok? ==> s.result.value.online == b.online && s.result.value.location == b.location)
  {
    if !b.saved {
      var saved := Apply(b, SetSaved(true));
      assert Project(saved, OnlineField) == Project(b, OnlineField);
      assert Project(saved, LocationField) == Project(b, LocationField);
    }
  }

  /** `POST /bots`: save the bot at the given location (with no player),
      answering 422 when it is already saved, then run the update with the
      whole request. The location is set on an existing bot before the
      already-saved check, so that refusal still moves the bot; and a
      request to kill a bot that is not online is refused only after the
      bot has been saved. */
  function Post(reg: Registry, config: Config, name: string, location: Location, q: BotRequest,
                whereIs: string -> Location): (r: ApiStep)
    requires location.dimension.Some?
    ensures var n := BotCommands.ParseName(name, config.namePrefix, config.nameSuffix);
      HasKey(reg, n) && Get(reg, n).value.saved ==>
        && r.response == HttpError(422, "Bot \"" + n + "\" is already saved.")
        && r.reg == Put(reg, n, Get(reg, n).value.(location := location)) && r.cmds == []
    ensures var n := BotCommands.ParseName(name, config.namePrefix, config.nameSuffix);
      !(HasKey(reg, n) && Get(reg, n).value.saved) ==>
        && |r.cmds| > 0 && r.cmds[0] == SaveData
        && (r.response.HttpError? <==> q.online == Some(HasKey(reg, n) && Get(reg, n).value.online))
    ensures !r.response.Raised?
    ensures r.response.Answer? ==>
      && r.response.bot.saved
      && r.response.bot.name == BotCommands.ParseName(name, config.namePrefix, config.nameSuffix)
      && (q.online != Some(false) ==> r.response.bot.location == (if q.location.Some? then q.location.value else location))
  {
    var n := BotCommands.ParseName(name, config.namePrefix, config.nameSuffix);
    var s := Save(reg, n, None, Some(location), whereIs);
    SaveWithLocation(reg, n, location, whereIs);
    match s.result
    case Err(_) => ApiStep(s.reg, HttpError(422, "Bot \"" + n + "\" is already saved."), [])
    case Ok(b) =>
      var u := UpdateBotData(s.reg, n, b, q.(name := Some(name)), config, whereIs);
      ApiStep(u.reg, u.response, s.cmds + u.cmds)
  }

  /** `DELETE /bots/{bot_name}`: the bot manager's refusals become 422. */
  function DeleteBot(reg: Registry, config: Config, botName: string): (r: ApiStep)
    ensures var name := BotCommands.ParseName(botName, config.namePrefix, config.nameSuffix);
      && (r.response.HttpError? <==> !HasKey(reg, name) || !Get(reg, name).value.saved)
      && (!HasKey(reg, name) ==> r.response == HttpError(422, "Bot \"" + name + "\" is not found."))
      && (HasKey(reg, name) && !Get(reg, name).value.saved ==> r.response == HttpError(422, "Bot \"" + name + "\" is not saved."))
      && (r.response.HttpError? ==> r.reg == reg && r.cmds == [])
      && (r.response.Answer? ==> r.reg == Delete(reg, name).reg && !r.response.bot.saved)
  {
    var name := BotCommands.ParseName(botName, config.namePrefix, config.nameSuffix);
    var d := Delete(reg, name);
    match d.result
    case Ok(b) => ApiStep(d.reg, Answer(b), d.cmds)
    case Err(BotNotExists(_)) => ApiStep(reg, HttpError(422, "Bot \"" + name + "\" is not found."), [])
    case Err(_) => ApiStep(reg, HttpError(422, "Bot \"" + name + "\" is not saved."), [])
  }
}
