/** A bot of the bot plugin (src/bot/bot/bot.py): its saved settings, its
    run-time state, and the server commands its operations issue. */
module Bots {
  import opened Basics
  import opened Dicts
  import opened Json
  import Dimensions

  /** Where a bot stands: three coordinates, yaw and pitch, and a dimension id
      (`None` when a lookup failed). */
  datatype Location = Location(position: seq<real>, facing: seq<real>, dimension: Option<int>)

  datatype Bot = Bot(
    name: string,
    location: Location,
    comment: string,
    actions: seq<string>,
    tags: seq<string>,
    autoLogin: bool,
    autoRunActions: bool,
    autoUpdate: bool,
    mcName: string,
    online: bool,
    saved: bool)

  /** The plugin's exceptions (src/bot/bot/exceptions.py is not part of this
      model; the names follow the handlers that catch them). */
  datatype BotError =
    | BotNotExists(name: string)
    | BotAlreadyExists(name: string)
    | BotOnline(name: string)
    | BotOffline(name: string)
    | BotNotSaved(name: string)
    | BotAlreadySaved(name: string)
    | IllegalListIndex(index: int)
    | IllegalActionIndex(index: int)
    | IllegalTagIndex(index: int)
    | IllegalDimension(dimension: string)
    | TagNotExists(tag: string)
    | NoAttribute(attribute: string)          // `AttributeError` on `DIMENSION`
    | NoDimensionName(id: Option<int>)      // `KeyError` in `USING_TRANSLATION`

  /** What the plugin asks of the server. `SaveData` stands for writing the
      saving data of every saved bot to `botList.json`. */
  datatype Cmd =
    | SpawnAt(name: string, location: Location)
    | Gamemode(mode: string, player: string)
    | PlayerAction(player: string, action: string)
    | KillPlayer(player: string)
    | SaveData

  /** The plugin configuration (src/bot/bot/config.py). */
  datatype Config = Config(
    gamemode: string,
    forceGamemode: bool,
    namePrefix: string,
    nameSuffix: string,
    postJoinDelay: int,
    permissions: Dict<int>)

  const DefaultPermissions: Dict<int> := [
    ("list", 1), ("spawn", 1), ("kill", 1), ("action", 1), ("tags", 1),
    ("info", 1), ("save", 2), ("del", 2), ("config", 2)
  ]

  const DefaultConfig: Config := Config("survival", false, "bot_", "", 0, DefaultPermissions)

  /** `Bot(...)`: a fresh bot is offline, unsaved and has no in-game name. */
  function NewBot(name: string, location: Location, comment: string, actions: seq<string>,
                  tags: seq<string>, autoLogin: bool, autoRunActions: bool, autoUpdate: bool): (b: Bot)
    ensures !b.online && !b.saved && b.mcName == ""
    ensures b.name == name && b.location == location && b.comment == comment
    ensures b.actions == actions && b.tags == tags
    ensures b.autoLogin == autoLogin && b.autoRunActions == autoRunActions && b.autoUpdate == autoUpdate
  {
    Bot(name, location, comment, actions, tags, autoLogin, autoRunActions, autoUpdate, "", false, false)
  }

  /** `display_name`: the comment when there is one, else the name. */
  function DisplayName(b: Bot): string
  {
    if b.comment == "" then b.name else b.comment
  }

  /** A bot with a name always has something to display, and a comment wins
      over the name. */
  lemma DisplayNameChoice(b: Bot)
    ensures b.name != "" ==> DisplayName(b) != ""
    ensures b.comment != "" ==> DisplayName(b) == b.comment
    ensures DisplayName(b) == b.name || DisplayName(b) == b.comment
  {
  }

  // ---------------------------------------------------------------------
  // Setters
  // ---------------------------------------------------------------------

  /** The fields a setter can change. */
  datatype FieldName =
    | NameField | LocationField | CommentField | ActionsField | TagsField
    | AutoLoginField | AutoRunActionsField | AutoUpdateField | OnlineField | SavedField | McNameField

  /** A field's content, whatever its type. */
  datatype FieldValue = Text(s: string) | Place(l: Location) | Texts(ss: seq<string>) | Flag(b: bool)

  /** Read one field. */
  function Project(b: Bot, f: FieldName): FieldValue
  {
    match f
    case NameField => Text(b.name)
    case LocationField => Place(b.location)
    case CommentField => Text(b.comment)
    case ActionsField => Texts(b.actions)
    case TagsField => Texts(b.tags)
    case AutoLoginField => Flag(b.autoLogin)
    case AutoRunActionsField => Flag(b.autoRunActions)
    case AutoUpdateField => Flag(b.autoUpdate)
    case OnlineField => Flag(b.online)
    case SavedField => Flag(b.saved)
    case McNameField => Text(b.mcName)
  }

  /** One call of a `set_*` method. */
  datatype Setting =
    | SetName(name: string)
    | SetLocation(location: Location)
    | SetComment(comment: string)
    | SetActions(actions: seq<string>)
    | SetTags(tags: seq<string>)
    | SetAutoLogin(autoLogin: bool)
    | SetAutoRunActions(autoRunActions: bool)
    | SetAutoUpdate(autoUpdate: bool)
    | SetOnline(online: bool)
    | SetSaved(saved: bool)

  function Target(s: Setting): FieldName
  {
    match s
    case SetName(_) => NameField
    case SetLocation(_) => LocationField
    case SetComment(_) => CommentField
    case SetActions(_) => ActionsField
    case SetTags(_) => TagsField
    case SetAutoLogin(_) => AutoLoginField
    case SetAutoRunActions(_) => AutoRunActionsField
    case SetAutoUpdate(_) => AutoUpdateField
    case SetOnline(_) => OnlineField
    case SetSaved(_) => SavedField
  }

  function NewValue(s: Setting): FieldValue
  {
    match s
    case SetName(v) => Text(v)
    case SetLocation(v) => Place(v)
    case SetComment(v) => Text(v)
    case SetActions(v) => Texts(v)
    case SetTags(v) => Texts(v)
    case SetAutoLogin(v) => Flag(v)
    case SetAutoRunActions(v) => Flag(v)
    case SetAutoUpdate(v) => Flag(v)
    case SetOnline(v) => Flag(v)
    case SetSaved(v) => Flag(v)
  }

  /** A setter stores its value in its own field and touches no other. */
  function Apply(b: Bot, s: Setting): (r: Bot)
    ensures Project(r, Target(s)) == NewValue(s)
    ensures forall f :: f != Target(s) ==> Project(r, f) == Project(b, f)
  {
    var r := match s
      case SetName(v) => b.(name := v)
      case SetLocation(v) => b.(location := v)
      case SetComment(v) => b.(comment := v)
      case SetActions(v) => b.(actions := v)
      case SetTags(v) => b.(tags := v)
      case SetAutoLogin(v) => b.(autoLogin := v)
      case SetAutoRunActions(v) => b.(autoRunActions := v)
      case SetAutoUpdate(v) => b.(autoUpdate := v)
      case SetOnline(v) => b.(online := v)
      case SetSaved(v) => b.(saved := v);
    assert forall f :: f != Target(s) ==> Project(r, f) == Project(b, f) by {
      forall f | f != Target(s) ensures Project(r, f) == Project(b, f) {
        FrameOne(b, s, r, f);
      }
    }
    r
  }

  /** The one field a setting writes is the only one that differs. */
  lemma FrameOne(b: Bot, s: Setting, r: Bot, f: FieldName)
    requires f != Target(s)
    requires s.SetName? ==> r == b.(name := s.name)
    requires s.SetLocation? ==> r == b.(location := s.location)
    requires s.SetComment? ==> r == b.(comment := s.comment)
    requires s.SetActions? ==> r == b.(actions := s.actions)
    requires s.SetTags? ==> r == b.(tags := s.tags)
    requires s.SetAutoLogin? ==> r == b.(autoLogin := s.autoLogin)
    requires s.SetAutoRunActions? ==> r == b.(autoRunActions := s.autoRunActions)
    requires s.SetAutoUpdate? ==> r == b.(autoUpdate := s.autoUpdate)
    requires s.SetOnline? ==> r == b.(online := s.online)
    requires s.SetSaved? ==> r == b.(saved := s.saved)
    ensures Project(r, f) == Project(b, f)
  {
    match f
    case NameField =>
    case LocationField =>
    case CommentField =>
    case ActionsField =>
    case TagsField =>
    case AutoLoginField =>
    case AutoRunActionsField =>
    case AutoUpdateField =>
    case OnlineField =>
    case SavedField =>
    case McNameField =>
  }

  // ---------------------------------------------------------------------
  // Saving data and its reader
  // ---------------------------------------------------------------------

  const SavingKeys: seq<string> := [
    "name", "location", "comment", "actions", "tags", "autoLogin", "autoRunActions", "autoUpdate"
  ]

  function DimensionJson(d: Option<int>): Json
  {
    match d
    case Some(i) => JInt(i)
    case None => JNull
  }

  function LocationJson(l: Location): Json
  {
    JObj([("position", RealArray(l.position)), ("facing", RealArray(l.facing)), ("dimension", DimensionJson(l.dimension))])
  }

  /** `saving_data`: the persistent fields only; `online`, `saved` and the
      in-game name stay out of the file. */
  function SavingData(b: Bot): (j: Json)
    ensures j.JObj? && Keys(j.fields) == SavingKeys
    ensures !HasKey(j.fields, "online") && !HasKey(j.fields, "saved") && !HasKey(j.fields, "mcName")
  {
    var fields := [
      ("name", JStr(b.name)),
      ("location", LocationJson(b.location)),
      ("comment", JStr(b.comment)),
      ("actions", StrArray(b.actions)),
      ("tags", StrArray(b.tags)),
      ("autoLogin", JBool(b.autoLogin)),
      ("autoRunActions", JBool(b.autoRunActions)),
      ("autoUpdate", JBool(b.autoUpdate))
    ];
    assert Keys(fields) == SavingKeys;
    JObj(fields)
  }

  /** A stored dimension: an id or `null`. */
  function AsDimension(j: Json): Option<Option<int>>
  {
    match j
    case JInt(i) => Some(Some(i))
    case JNull => Some(None)
    case _ => None
  }

  /** `Location.from_dict`: all three keys are required. */
  function LoadLocation(j: Json): Option<Location>
  {
    var pos := Field(j, "position");
    var fac := Field(j, "facing");
    var dim := Field(j, "dimension");
    if pos.None? || fac.None? || dim.None? then None
    else
      match (AsReals(pos.value), AsReals(fac.value), AsDimension(dim.value))
      case (Some(p), Some(f), Some(d)) => Some(Location(p, f, d))
      case _ => None
  }

  const DefaultLocationJson: Json :=
    JObj([("position", RealArray([0.0, 0.0, 0.0])), ("facing", RealArray([0.0, 0.0])), ("dimension", JInt(0))])

  /** One entry of `botList` read back the way `BotManager.__load_data` does:
      `name` is required, every other key falls back to its default, and the
      bot comes back saved. */
  function LoadBot(j: Json): (r: Option<Bot>)
    ensures r.Some? ==> r.value.saved && !r.value.online && r.value.mcName == ""
    ensures r.Some? ==> Field(j, "name") == Some(JStr(r.value.name))
  {
    var name := Field(j, "name");
    var loc := LoadLocation(FieldOr(j, "location", DefaultLocationJson));
    var comment := FieldOr(j, "comment", JStr(""));
    var actions := AsStrings(FieldOr(j, "actions", JArr([])));
    var tags := AsStrings(FieldOr(j, "tags", JArr([])));
    var autoLogin := FieldOr(j, "autoLogin", JBool(false));
    var autoRun := FieldOr(j, "autoRunActions", JBool(false));
    var autoUpdate := FieldOr(j, "autoUpdate", JBool(false));
    if name.Some? && name.value.JStr? && loc.Some? && comment.JStr? && actions.Some? && tags.Some?
       && autoLogin.JBool? && autoRun.JBool? && autoUpdate.JBool?
    then
      Some(NewBot(name.value.s, loc.value, comment.s, actions.value, tags.value,
                  autoLogin.b, autoRun.b, autoUpdate.b).(saved := true))
    else None
  }

  /** The saving data never repeats a key. */
  lemma SavingDataUnique(b: Bot)
    ensures UniqueKeys(SavingData(b).fields)
  {
    var fs := SavingData(b).fields;
    assert forall i :: 0 <= i < |fs| ==> fs[i].0 == SavingKeys[i];
    assert forall i, j :: 0 <= i < j < |SavingKeys| ==> SavingKeys[i] != SavingKeys[j];
  }

  /** What each key of the saving data looks up. */
  lemma SavingDataFields(b: Bot)
    ensures Field(SavingData(b), "name") == Some(JStr(b.name))
    ensures Field(SavingData(b), "location") == Some(LocationJson(b.location))
    ensures Field(SavingData(b), "comment") == Some(JStr(b.comment))
    ensures Field(SavingData(b), "actions") == Some(StrArray(b.actions))
    ensures Field(SavingData(b), "tags") == Some(StrArray(b.tags))
    ensures Field(SavingData(b), "autoLogin") == Some(JBool(b.autoLogin))
    ensures Field(SavingData(b), "autoRunActions") == Some(JBool(b.autoRunActions))
    ensures Field(SavingData(b), "autoUpdate") == Some(JBool(b.autoUpdate))
  {
    var fs := SavingData(b).fields;
    SavingDataUnique(b);
    GetAt(fs, 0);
    GetAt(fs, 1);
    GetAt(fs, 2);
    GetAt(fs, 3);
    GetAt(fs, 4);
    GetAt(fs, 5);
    GetAt(fs, 6);
    GetAt(fs, 7);
  }

  /** A saved location reads back as itself. */
  lemma LoadLocationJson(l: Location)
    ensures LoadLocation(LocationJson(l)) == Some(l)
  {
    var fs := LocationJson(l).fields;
    assert UniqueKeys(fs);
    GetAt(fs, 0);
    GetAt(fs, 1);
    GetAt(fs, 2);
    RealArrayRoundTrip(l.position);
    RealArrayRoundTrip(l.facing);
  }

  /** Saving a bot and loading it back restores every persistent field; the
      loaded bot is saved, offline and has no in-game name yet. */
  lemma LoadSavingData(b: Bot)
    ensures LoadBot(SavingData(b)) == Some(b.(mcName := "", online := false, saved := true))
  {
    SavingDataFields(b);
    LoadLocationJson(b.location);
    StrArrayRoundTrip(b.actions);
    StrArrayRoundTrip(b.tags);
  }

  // ---------------------------------------------------------------------
  // Spawning, killing, actions
  // ---------------------------------------------------------------------

  /** The commands for a list of actions, in order, addressed to `player`. */
  function ActionCmds(player: string, actions: seq<string>): (cmds: seq<Cmd>)
    ensures |cmds| == |actions|
    ensures forall i :: 0 <= i < |actions| ==> cmds[i] == PlayerAction(player, actions[i])
  {
    if |actions| == 0 then [] else [PlayerAction(player, actions[0])] + ActionCmds(player, actions[1..])
  }

  /** `run_actions(index)`: every action when no index is given, the one
      action at a valid index, an error otherwise. */
  function RunActions(b: Bot, index: Option<int>): (r: Result<seq<Cmd>, BotError>)
    ensures index.None? ==> r == Ok(ActionCmds(b.mcName, b.actions))
    ensures index.Some? && 0 <= index.value < |b.actions| ==> r == Ok([PlayerAction(b.mcName, b.actions[index.value])])
    ensures r.Err? <==> index.Some? && !(0 <= index.value < |b.actions|)
    ensures r.Err? ==> r.error == IllegalActionIndex(index.value)
  {
    match index
    case None => Ok(ActionCmds(b.mcName, b.actions))
    case Some(i) =>
      if 0 <= i < |b.actions| then Ok([PlayerAction(b.mcName, b.actions[i])])
      else Err(IllegalActionIndex(i))
  }

  /** `spawn`: an online bot is refused; otherwise one spawn command is issued
      and the bot itself is not changed (it becomes online only when the
      server reports it joined, see `Spawned`). */
  function Spawn(b: Bot): (r: Result<Cmd, BotError>)
    ensures r.Err? <==> b.online
    ensures r.Err? ==> r.error == BotOnline(b.name)
    ensures r.Ok? ==> r.value.SpawnAt? && r.value.name == b.name && r.value.location == b.location
  {
    if !b.online then Ok(SpawnAt(b.name, b.location)) else Err(BotOnline(b.name))
  }

  /** `spawned(mc_name)`: the bot is online under its in-game name, its game
      mode is set when it is saved or the mode is forced, and its actions run
      when it is configured to run them. */
  function Spawned(b: Bot, mcName: string, config: Config): (r: (Bot, seq<Cmd>))
    ensures r.0 == b.(mcName := mcName, online := true)
    ensures var gm := b.saved || config.forceGamemode;
            r.1 == (if gm then [Gamemode(config.gamemode, mcName)] else [])
                   + (if b.autoRunActions then ActionCmds(mcName, b.actions) else [])
  {
    var b' := b.(mcName := mcName, online := true);
    var gm := if b'.saved || config.forceGamemode then [Gamemode(config.gamemode, mcName)] else [];
    var acts := if b'.autoRunActions then RunActions(b', None).value else [];
    (b', gm + acts)
  }

  /** `kill`: an offline bot is refused. Otherwise, with auto update on, the
      bot first takes the location the server reports for its in-game name
      (`whereIs`) and the data is saved; then it goes offline and the kill
      command is issued. Nothing but the location and `online` changes. */
  function Kill(b: Bot, whereIs: string -> Location): (r: Result<(Bot, seq<Cmd>), BotError>)
    ensures r.Err? <==> !b.online
    ensures r.Err? ==> r.error == BotOffline(b.name)
    ensures r.Ok? ==> !r.value.0.online
    ensures r.Ok? ==> r.value.0 == b.(online := false, location := r.value.0.location)
    ensures r.Ok? ==> r.value.0.location == (if b.autoUpdate then whereIs(b.mcName) else b.location)
    ensures r.Ok? ==> r.value.1 == (if b.autoUpdate then [SaveData] else []) + [KillPlayer(b.mcName)]
  {
    if b.online then
      var moved := if b.autoUpdate then Apply(b, SetLocation(whereIs(b.mcName))) else b;
      var save := if b.autoUpdate then [SaveData] else [];
      Ok((Apply(moved, SetOnline(false)), save + [KillPlayer(b.mcName)]))
    else Err(BotOffline(b.name))
  }

  /** What the server reports of a player through `get_player_info`: the
      position, the rotation and the dimension key. */
  datatype PlayerInfo = PlayerInfo(pos: seq<real>, rotation: seq<real>, dimension: string)

  /** `get_location` as written (src/bot/bot/plugin.py:130-139): the
      dimension is looked up in `DIMENSION.INT_TRANSLATION`, which the
      constants class does not define, so every call raises. */
  function GetLocationAsWritten(info: PlayerInfo): (r: Result<Location, BotError>)
    ensures r.Err? && r.error.NoAttribute?
  {
    Err(NoAttribute("INT_TRANSLATION"))
  }

  /** `get_location` with the lookup in `COMMAND_TRANSLATION`: position and
      rotation are kept, a known dimension key gives its id and an unknown
      one gives no dimension. The dimension, once known, names the key back. */
  function GetLocation(info: PlayerInfo): (l: Location)
    ensures l.position == info.pos && l.facing == info.rotation
    ensures l.dimension.Some? <==> info.dimension in Dimensions.CommandKeys
    ensures l.dimension.Some? ==> Dimensions.IsDimension(l.dimension.value)
    ensures l.dimension.Some? ==>
      Dimensions.CommandTranslation(Dimensions.UsingTranslation(l.dimension.value).value) == l.dimension
  {
    Location(info.pos, info.rotation, Dimensions.CommandTranslation(info.dimension))
  }

  /** `str_dimension` as written (src/bot/bot/location.py:28-34): it reads
      `DIMENSION.STR_TRANSLATION`, which does not exist, so it always raises. */
  function StrDimensionAsWritten(l: Location): (r: Result<string, BotError>)
    ensures r.Err? && r.error.NoAttribute?
  {
    Err(NoAttribute("STR_TRANSLATION"))
  }

  /** `str_dimension` reading `USING_TRANSLATION`: a known dimension gives
      its resource name, which reads back to the same id; anything else
      raises `KeyError`. */
  function StrDimension(l: Location): (r: Result<string, BotError>)
    ensures r.Ok? <==> l.dimension.Some? && Dimensions.IsDimension(l.dimension.value)
    ensures r.Err? ==> r.error == NoDimensionName(l.dimension)
    ensures r.Ok? ==> StartsWith(r.value, "minecraft:")
                      && Dimensions.CommandTranslation(r.value) == l.dimension
  {
    if l.dimension.Some? && Dimensions.IsDimension(l.dimension.value) then
      Dimensions.CommandUsingRoundTrip(l.dimension.value);
      Ok(Dimensions.UsingTranslation(l.dimension.value).value)
    else Err(NoDimensionName(l.dimension))
  }

  /** `spawn` as written: the spawn command is formatted with
      `str_dimension`, so an offline bot is never spawned. */
  function SpawnAsWritten(b: Bot): (r: Result<Cmd, BotError>)
    ensures r.Err?
    ensures b.online <==> r.error == BotOnline(b.name)
  {
    if b.online then Err(BotOnline(b.name))
    else match StrDimensionAsWritten(b.location)
      case Err(e) => Err(e)
      case Ok(_) => Ok(SpawnAt(b.name, b.location))
  }

  /** Where the two versions of `spawn` part: an offline bot is spawned by
      the corrected one and refused by the one as written. */
  lemma SpawnAsWrittenDiffers(b: Bot)
    requires !b.online
    ensures Spawn(b) == Ok(SpawnAt(b.name, b.location))
    ensures SpawnAsWritten(b) == Err(NoAttribute("STR_TRANSLATION"))
  {
  }

  /** `kill` as written: with auto update on, `get_location` raises before
      the bot goes offline, so the kill command is never sent and the bot
      stays online (the exception ends the `killBot` thread). */
  function KillAsWritten(b: Bot, info: string -> PlayerInfo): (r: Result<(Bot, seq<Cmd>), BotError>)
    ensures r.Ok? <==> b.online && !b.autoUpdate
    ensures b.online && b.autoUpdate ==> r.error.NoAttribute?
    ensures r.Ok? ==> r == Kill(b, p => GetLocation(info(p)))
  {
    if !b.online then Err(BotOffline(b.name))
    else if b.autoUpdate then
      match GetLocationAsWritten(info(b.mcName))
        case Err(e) => Err(e)
        case Ok(l) => Kill(b, _ => l)
    else Kill(b, p => GetLocation(info(p)))
  }

  /** The corrected `kill` of an online auto-updating bot sends it offline
      at the location the server reports, where the one as written leaves
      it online with nothing sent. */
  lemma KillAsWrittenDiffers(b: Bot, info: string -> PlayerInfo)
    requires b.online && b.autoUpdate
    ensures var k := Kill(b, p => GetLocation(info(p)));
            k.Ok? && !k.value.0.online && k.value.0.location == GetLocation(info(b.mcName))
            && KillPlayer(b.mcName) in k.value.1
    ensures KillAsWritten(b, info).Err?
  {
  }
}
