/** The older bot plugin (bot/bot/bot.py, bot/bot/command_handler.py): a
    bot without tags or auto-update that is marked online as soon as it is
    spawned, the name normalisation that lower-cases last, and the `config`
    handlers that look bots up by the name as typed. Its bot manager is not
    part of this model; the registry here is the dictionary the handlers
    read through `get_bot`. */
module LegacyBots {
  import opened Basics
  import opened Dicts
  import opened Json
  import Bots
  import BotCommands
  import Dimensions

  datatype LegacyBot = LegacyBot(
    name: string,
    location: Bots.Location,
    comment: string,
    actions: seq<string>,
    autoLogin: bool,
    autoRunActions: bool,
    online: bool,
    saved: bool)

  /** `Bot(...)`: a fresh bot is offline and unsaved. */
  function NewLegacyBot(name: string, location: Bots.Location, comment: string, actions: seq<string>,
                        autoLogin: bool, autoRunActions: bool): (b: LegacyBot)
    ensures !b.online && !b.saved
    ensures b.name == name && b.location == location && b.comment == comment && b.actions == actions
    ensures b.autoLogin == autoLogin && b.autoRunActions == autoRunActions
  {
    LegacyBot(name, location, comment, actions, autoLogin, autoRunActions, false, false)
  }

  // ---------------------------------------------------------------------
  // spawn, kill, run_actions
  // ---------------------------------------------------------------------

  /** `run_actions(index)`: the commands are addressed to the bot's own
      name, since this version has no separate in-game name. */
  function RunActions(b: LegacyBot, index: Option<int>): (r: Result<seq<Bots.Cmd>, Bots.BotError>)
    ensures r.Err? <==> index.Some? && !(0 <= index.value < |b.actions|)
    ensures r.Err? ==> r.error == Bots.IllegalActionIndex(index.value)
    ensures r.Ok? && index.None? ==> |r.value| == |b.actions|
    ensures r.Ok? && index.Some? ==> r.value == [Bots.PlayerAction(b.name, b.actions[index.value])]
  {
    match index
    case None => Ok(Bots.ActionCmds(b.name, b.actions))
    case Some(i) =>
      if 0 <= i < |b.actions| then Ok([Bots.PlayerAction(b.name, b.actions[i])])
      else Err(Bots.IllegalActionIndex(i))
  }

  /** The newer bot a legacy bot corresponds to: the same settings, the
      given tags and auto-update flag, and its name as in-game name. */
  function AsNewBot(b: LegacyBot, tags: seq<string>, autoUpdate: bool): Bots.Bot
  {
    Bots.Bot(b.name, b.location, b.comment, b.actions, tags, b.autoLogin, b.autoRunActions, autoUpdate,
             b.name, b.online, b.saved)
  }

  /** Both versions run the same actions for the same index and refuse the
      same indices. */
  lemma RunActionsAgree(b: LegacyBot, index: Option<int>, tags: seq<string>, autoUpdate: bool)
    ensures RunActions(b, index) == Bots.RunActions(AsNewBot(b, tags, autoUpdate), index)
  {
  }

  /** `spawn`: refused when online; otherwise the bot is marked online at
      once, spawned, put in the configured game mode, and its actions run
      when it is configured to run them. */
  function Spawn(b: LegacyBot, gamemode: string): (r: Result<(LegacyBot, seq<Bots.Cmd>), Bots.BotError>)
    ensures r.Err? <==> b.online
    ensures r.Err? ==> r.error == Bots.BotOnline(b.name)
    ensures r.Ok? ==> r.value.0 == b.(online := true)
    ensures r.Ok? ==>
      |r.value.1| >= 2
      && r.value.1[0] == Bots.SpawnAt(b.name, b.location)
      && r.value.1[1] == Bots.Gamemode(gamemode, b.name)
    ensures r.Ok? && !b.autoRunActions ==> |r.value.1| == 2
    ensures r.Ok? && b.autoRunActions ==> r.value.1[2..] == RunActions(b, None).value
  {
    if !b.online then
      var b' := b.(online := true);
      var acts := if b'.autoRunActions then RunActions(b', None).value else [];
      var cmds := [Bots.SpawnAt(b.name, b.location), Bots.Gamemode(gamemode, b.name)] + acts;
      assert cmds[2..] == acts;
      Ok((b', cmds))
    else Err(Bots.BotOnline(b.name))
  }

  /** `kill`: refused when offline; otherwise the bot is marked offline and
      killed by name. */
  function Kill(b: LegacyBot): (r: Result<(LegacyBot, seq<Bots.Cmd>), Bots.BotError>)
    ensures r.Err? <==> !b.online
    ensures r.Err? ==> r.error == Bots.BotOffline(b.name)
    ensures r.Ok? ==> r.value == (b.(online := false), [Bots.KillPlayer(b.name)])
  {
    if b.online then Ok((b.(online := false), [Bots.KillPlayer(b.name)]))
    else Err(Bots.BotOffline(b.name))
  }

  /** Killing a bot just spawned gives back the bot as it was, and a spawned
      bot cannot be spawned again. */
  lemma KillUndoesSpawn(b: LegacyBot, gamemode: string)
    requires !b.online
    ensures Spawn(b, gamemode).Ok?
    ensures Spawn(Spawn(b, gamemode).value.0, gamemode) == Err(Bots.BotOnline(b.name))
    ensures Kill(Spawn(b, gamemode).value.0) == Ok((b, [Bots.KillPlayer(b.name)]))
  {
  }

  // ---------------------------------------------------------------------
  // saving_data
  // ---------------------------------------------------------------------

  const LegacySavingKeys: seq<string> := ["name", "location", "comment", "actions", "autoLogin", "autoRunActions"]

  /** `saving_data`: like the newer version without tags and auto-update. */
  function SavingData(b: LegacyBot): (j: Json)
    ensures j.JObj? && Keys(j.fields) == LegacySavingKeys
    ensures !HasKey(j.fields, "tags") && !HasKey(j.fields, "autoUpdate")
    ensures !HasKey(j.fields, "online") && !HasKey(j.fields, "saved")
  {
    var fields := [
      ("name", JStr(b.name)),
      ("location", Bots.LocationJson(b.location)),
      ("comment", JStr(b.comment)),
      ("actions", StrArray(b.actions)),
      ("autoLogin", JBool(b.autoLogin)),
      ("autoRunActions", JBool(b.autoRunActions))
    ];
    assert Keys(fields) == LegacySavingKeys;
    JObj(fields)
  }

  lemma SavingDataUnique(b: LegacyBot)
    ensures UniqueKeys(SavingData(b).fields)
  {
    var fs := SavingData(b).fields;
    assert forall i :: 0 <= i < |fs| ==> fs[i].0 == LegacySavingKeys[i];
    assert forall i, j :: 0 <= i < j < |LegacySavingKeys| ==> LegacySavingKeys[i] != LegacySavingKeys[j];
  }

  /** What each key of the older saving data looks up. */
  lemma SavingDataFields(b: LegacyBot)
    ensures Field(SavingData(b), "name") == Some(JStr(b.name))
    ensures Field(SavingData(b), "location") == Some(Bots.LocationJson(b.location))
    ensures Field(SavingData(b), "comment") == Some(JStr(b.comment))
    ensures Field(SavingData(b), "actions") == Some(StrArray(b.actions))
    ensures Field(SavingData(b), "autoLogin") == Some(JBool(b.autoLogin))
    ensures Field(SavingData(b), "autoRunActions") == Some(JBool(b.autoRunActions))
  {
    var fs := SavingData(b).fields;
    SavingDataUnique(b);
    GetAt(fs, 0);
    GetAt(fs, 1);
    GetAt(fs, 2);
    GetAt(fs, 3);
    GetAt(fs, 4);
    GetAt(fs, 5);
  }

  /** Every key the older file has holds what the newer file holds under
      the same key, so the newer loader reads an old file with its defaults
      for the missing tags and auto-update flag. */
  lemma SavingDataAgrees(b: LegacyBot, tags: seq<string>, autoUpdate: bool)
    ensures var nb := AsNewBot(b, tags, autoUpdate);
      && Field(SavingData(b), "name") == Field(Bots.SavingData(nb), "name")
      && Field(SavingData(b), "location") == Field(Bots.SavingData(nb), "location")
      && Field(SavingData(b), "comment") == Field(Bots.SavingData(nb), "comment")
      && Field(SavingData(b), "actions") == Field(Bots.SavingData(nb), "actions")
      && Field(SavingData(b), "autoLogin") == Field(Bots.SavingData(nb), "autoLogin")
      && Field(SavingData(b), "autoRunActions") == Field(Bots.SavingData(nb), "autoRunActions")
  {
    Bots.SavingDataFields(AsNewBot(b, tags, autoUpdate));
    SavingDataFields(b);
  }

  // ---------------------------------------------------------------------
  // Names
  // ---------------------------------------------------------------------

  /** `__parse_name`: prefix,
      then suffix, then lower-case everything. The result is lower-case and
      carries the lower-cased prefix and suffix. */
  function LegacyParseName(name: string, prefix: string, suffix: string): (r: string)
    ensures IsLowerString(r)
    ensures StartsWith(r, Lower(prefix)) && EndsWith(r, Lower(suffix))
  {
    var p := BotCommands.AddPrefix(name, prefix);
    var q := BotCommands.AddSuffix(p, suffix);
    LowerIsLower(q);
    LowerAffixes(q, prefix, suffix);
    Lower(q)
  }

  /** Lower-casing keeps a prefix and a suffix, lower-cased. */
  lemma LowerAffixes(q: string, prefix: string, suffix: string)
    requires StartsWith(q, prefix) && EndsWith(q, suffix)
    ensures StartsWith(Lower(q), Lower(prefix)) && EndsWith(Lower(q), Lower(suffix))
  {
    assert q == q[..|prefix|] + q[|prefix|..];
    LowerConcat(q[..|prefix|], q[|prefix|..]);
    assert q == q[..|q| - |suffix|] + q[|q| - |suffix|..];
    LowerConcat(q[..|q| - |suffix|], q[|q| - |suffix|..]);
  }

  /** The two orders disagree on a name typed in upper case: the newer one
      recognises the prefix after lower-casing, the older one does not. */
  lemma ParseNameOrderMatters()
    ensures BotCommands.ParseName("BOT_x", "bot_", "") == "bot_x"
    ensures LegacyParseName("BOT_x", "bot_", "") == "bot_bot_x"
  {
    NewerParseBotX();
    OlderParseBotX();
  }

  lemma NewerParseBotX()
    ensures BotCommands.ParseName("BOT_x", "bot_", "") == "bot_x"
  {
    LowerBotX();
    assert StartsWith("bot_x", "bot_") by { assert "bot_x"[..4] == "bot_"; }
    NoSuffix("bot_x");
  }

  lemma OlderParseBotX()
    ensures LegacyParseName("BOT_x", "bot_", "") == "bot_bot_x"
  {
    assert "BOT_x"[0] != "bot_"[0];
    PrefixedLower("BOT_x", "bot_");
    LowerIsLower("bot_");
    LowerBotX();
    DoublePrefix();
  }

  lemma DoublePrefix()
    ensures "bot_" + "bot_x" == "bot_bot_x"
    ensures "bot_" + "alice" == "bot_alice"
  {
  }

  /** With no suffix, a name that lacks the prefix comes out as the
      lower-cased prefix followed by the lower-cased name. */
  lemma PrefixedLower(name: string, prefix: string)
    requires |prefix| > 0 && |name| > 0 && name[0] != prefix[0]
    ensures LegacyParseName(name, prefix, "") == Lower(prefix) + Lower(name)
  {
    assert !StartsWith(name, prefix);
    NoSuffix(prefix + name);
    LowerConcat(prefix, name);
  }

  /** An empty suffix is always there already. */
  lemma NoSuffix(n: string)
    ensures BotCommands.AddSuffix(n, "") == n
  {
    assert n[|n| - 0..] == "";
  }

  /** The handlers of the older plugin that pass the name on as typed, and
      those that normalise it first. */
  datatype LegacyHandler = LegacySpawn | LegacyKill | LegacyAction | LegacyInfo | LegacySave | LegacyDel | LegacyConfig

  /** The name the older plugin's handler hands to its bot manager. */
  function LegacyTargetName(h: LegacyHandler, raw: string, prefix: string, suffix: string): (r: string)
    ensures h == LegacySpawn || h == LegacySave ==> IsLowerString(r) && StartsWith(r, Lower(prefix))
    ensures !(h == LegacySpawn || h == LegacySave) ==> r == raw
  {
    if h == LegacySpawn || h == LegacySave then LegacyParseName(raw, prefix, suffix) else raw
  }

  /** In the older plugin a bot spawned as `Alice` is registered as
      `bot_alice`, yet `kill Alice` looks up `Alice` itself. */
  lemma LegacyKillMissesSpawnedName()
    ensures LegacyTargetName(LegacySpawn, "Alice", "bot_", "") == "bot_alice"
    ensures LegacyTargetName(LegacyKill, "Alice", "bot_", "") == "Alice"
  {
    OlderParseAlice();
  }

  lemma OlderParseAlice()
    ensures LegacyParseName("Alice", "bot_", "") == "bot_alice"
  {
    assert "Alice"[0] != "bot_"[0];
    PrefixedLower("Alice", "bot_");
    LowerIsLower("bot_");
    LowerAlice();
    DoublePrefix();
  }

  lemma LowerBotX()
    ensures Lower("BOT_x") == "bot_x"
  {
    assert Lower("BOT_x") == [LowerChar('B')] + Lower("OT_x");
    assert Lower("OT_x") == [LowerChar('O')] + Lower("T_x");
    assert Lower("T_x") == [LowerChar('T')] + Lower("_x");
    assert Lower("_x") == [LowerChar('_')] + Lower("x");
    assert Lower("x") == [LowerChar('x')] + Lower("");
  }

  lemma LowerAlice()
    ensures Lower("Alice") == "alice"
  {
    assert Lower("Alice") == [LowerChar('A')] + Lower("lice");
    assert Lower("lice") == [LowerChar('l')] + Lower("ice");
    assert Lower("ice") == [LowerChar('i')] + Lower("ce");
    assert Lower("ce") == [LowerChar('c')] + Lower("e");
    assert Lower("e") == [LowerChar('e')] + Lower("");
  }


  // ---------------------------------------------------------------------
  // config handlers
  // ---------------------------------------------------------------------

  type LegacyRegistry = Dict<LegacyBot>

  /** The registry, the outcome and the server commands of one handler. */
  datatype LegacyStep = LegacyStep(reg: LegacyRegistry, result: Result<LegacyBot, Bots.BotError>, cmds: seq<Bots.Cmd>)

  /** `config <name> actions ...`: the bot is looked up by the name as
      typed; the bounds are those of the newer version; success saves. */
  function ConfigActions(reg: LegacyRegistry, name: string, e: BotCommands.ListEdit): (r: LegacyStep)
    ensures !HasKey(reg, name) ==> r == LegacyStep(reg, Err(Bots.BotNotExists(name)), [])
    ensures HasKey(reg, name) && BotCommands.ApplyEdit(Get(reg, name).value.actions, e).Err? ==>
      r == LegacyStep(reg, Err(Bots.IllegalActionIndex(BotCommands.ApplyEdit(Get(reg, name).value.actions, e).error)), [])
    ensures HasKey(reg, name) && BotCommands.ApplyEdit(Get(reg, name).value.actions, e).Ok? ==>
      var b' := Get(reg, name).value.(actions := BotCommands.ApplyEdit(Get(reg, name).value.actions, e).value);
      r == LegacyStep(Put(reg, name, b'), Ok(b'), [Bots.SaveData])
  {
    match Get(reg, name)
    case None => LegacyStep(reg, Err(Bots.BotNotExists(name)), [])
    case Some(b) =>
      match BotCommands.ApplyEdit(b.actions, e)
      case Err(i) => LegacyStep(reg, Err(Bots.IllegalActionIndex(i)), [])
      case Ok(xs) =>
        var b' := b.(actions := xs);
        LegacyStep(Put(reg, name, b'), Ok(b'), [Bots.SaveData])
  }

  /** A rejected index leaves the bot's actions as they were; an accepted
      one changes only the actions. */
  lemma ConfigActionsFrame(reg: LegacyRegistry, name: string, e: BotCommands.ListEdit)
    requires HasKey(reg, name)
    ensures var r := ConfigActions(reg, name, e);
      && (r.result.Err? ==> r.reg == reg)
      && (r.result.Ok? ==> r.result.value == Get(reg, name).value.(actions := r.result.value.actions))
      && (r.result.Ok? ==> Get(r.reg, name) == Some(r.result.value))
  {
  }

  /** `config <name> comment <comment>`, with the same quote stripping as
      the newer version. */
  function ConfigComment(reg: LegacyRegistry, name: string, comment: string): (r: LegacyStep)
    ensures r.result.Err? <==> !HasKey(reg, name)
    ensures r.result.Err? ==> r.reg == reg && r.cmds == []
    ensures r.result.Ok? ==>
      && r.result.value == Get(reg, name).value.(comment := BotCommands.StripComment(comment))
      && r.reg == Put(reg, name, r.result.value) && r.cmds == [Bots.SaveData]
  {
    match Get(reg, name)
    case None => LegacyStep(reg, Err(Bots.BotNotExists(name)), [])
    case Some(b) =>
      var b' := b.(comment := BotCommands.StripComment(comment));
      LegacyStep(Put(reg, name, b'), Ok(b'), [Bots.SaveData])
  }

  /** `config <name> dimension <dimension>`: looks the argument up in
      `COMMAND_TRANSLATION`, assigning the result to the bot's own location
      before checking it, so an unknown dimension is refused but leaves the
      bot with no dimension in memory. */
  function ConfigDimension(reg: LegacyRegistry, name: string, dimension: string): (r: LegacyStep)
    ensures !HasKey(reg, name) ==> r == LegacyStep(reg, Err(Bots.BotNotExists(name)), [])
    ensures HasKey(reg, name) ==>
      var b := Get(reg, name).value;
      && Get(r.reg, name) == Some(b.(location := b.location.(dimension := Dimensions.CommandTranslation(dimension))))
      && (r.result.Err? <==> dimension !in Dimensions.CommandKeys)
      && (r.result.Err? ==> r.result.error == Bots.IllegalDimension(dimension) && r.cmds == [])
      && (r.result.Ok? ==> r.result.value.location.dimension.Some? && Dimensions.IsDimension(r.result.value.location.dimension.value) && r.cmds == [Bots.SaveData])
  {
    match Get(reg, name)
    case None => LegacyStep(reg, Err(Bots.BotNotExists(name)), [])
    case Some(b) =>
      var d := Dimensions.CommandTranslation(dimension);
      var moved := b.(location := b.location.(dimension := d));
      if d.None? then LegacyStep(Put(reg, name, moved), Err(Bots.IllegalDimension(dimension)), [])
      else LegacyStep(Put(reg, name, moved), Ok(moved), [Bots.SaveData])
  }
}
