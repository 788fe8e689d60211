/** The spectator/teleport plugin (src/gamemode/gamemode/__init__.py):
    dimension names, nether/overworld coordinate conversion, the range
    limit, config migration, `!!spec`, `!!tp` and `!!back`. Positions are
    reals; the player's place, the clock and the permission levels are
    inputs, and the server commands the handlers issue are returned. */
module Gamemode {
  import opened Basics
  import Dimensions
  import opened Coords

  // ---------------------------------------------------------------------
  // DIMENSIONS
  // ---------------------------------------------------------------------

  const OverworldName := "minecraft:overworld"
  const NetherName := "minecraft:the_nether"
  const EndName := "minecraft:the_end"

  /** `DIMENSIONS.get(key)`: the resource name a `!!tp` argument names. */
  function DimensionOf(key: string): (r: Option<string>)
    ensures r.Some? ==> r.value in {OverworldName, NetherName, EndName}
  {
    if key == "0" || key == "overworld" || key == OverworldName then Some(OverworldName)
    else if key == "-1" || key == "the_nether" || key == "nether" || key == NetherName then Some(NetherName)
    else if key == "1" || key == "the_end" || key == "end" || key == EndName then Some(EndName)
    else None
  }

  /** The table knows the same keys as the bot plugin's command table and
      sends each to the same dimension. */
  lemma DimensionOfAgreesWithBot(key: string)
    ensures DimensionOf(key).Some? <==> Dimensions.CommandTranslation(key).Some?
    ensures DimensionOf(key).Some? ==>
      DimensionOf(key) == Dimensions.UsingTranslation(Dimensions.CommandTranslation(key).value)
  {
  }

  // ---------------------------------------------------------------------
  // coordinate conversion
  // ---------------------------------------------------------------------

  /** `nether_to_overworld` for one axis: the integer part times 8. */
  function NetherToOverworld(x: real): (r: int)
    ensures r % 8 == 0
    ensures 0.0 <= x ==> 0 <= r && r as real <= 8.0 * x < r as real + 8.0
    ensures x < 0.0 ==> r <= 0 && r as real - 8.0 < 8.0 * x <= r as real
  {
    Trunc(x) * 8
  }

  /** `overworld_to_nether` for one axis: the integer nearest to `x / 8`,
      halves rounding up. */
  function OverworldToNether(x: real): (r: int)
    ensures x / 8.0 - 0.5 < r as real <= x / 8.0 + 0.5
  {
    (x / 8.0 + 0.5).Floor
  }

  /** Only one integer lies in a half-open interval of width one. */
  lemma NearestUnique(y: real, m: int, n: int)
    requires y - 0.5 < m as real <= y + 0.5
    requires y - 0.5 < n as real <= y + 0.5
    ensures m == n
  {
  }

  /** On whole nether coordinates the conversions are inverse: `n2o(n) ==
      8n` and `o2n(8n) == n`. */
  lemma ConversionRoundTrip(n: int)
    ensures NetherToOverworld(n as real) == 8 * n
    ensures OverworldToNether((8 * n) as real) == n
    ensures OverworldToNether(NetherToOverworld(n as real) as real) == n
  {
    NearestUnique(n as real, OverworldToNether((8 * n) as real), n);
  }

  // ---------------------------------------------------------------------
  // range limit
  // ---------------------------------------------------------------------

  datatype Coord = Coord(x: real, y: real, z: real)

  /** The axis is constrained and `p` lies outside `[c - r, c + r]`. */
  predicate OutOfRange(p: real, c: real, r: int)
  {
    r > 0 && (p < c - r as real || p > c + r as real)
  }

  /** One axis of `check_player_pos`: a coordinate below the range moves
      half a block inside its lower end, one above it half a block inside
      its upper end; a radius of zero or less leaves the axis free. */
  function ClampAxis(p: real, c: real, r: int): (q: real)
    ensures r <= 0 ==> q == p
    ensures r > 0 ==> c - r as real <= q <= c + r as real
    ensures q != p <==> OutOfRange(p, c, r)
    ensures !OutOfRange(q, c, r)
  {
    if r > 0 && p < c - r as real then c - r as real + 0.5
    else if r > 0 && p > c + r as real then c + r as real - 0.5
    else p
  }

  datatype RangeLimit = RangeLimit(checkInterval: int, x: int, y: int, z: int)

  /** `check_player_pos` for one player: the clamped position, and whether a
      teleport is needed. */
  function Clamp(pos: Coord, center: Coord, limit: RangeLimit): (r: (Coord, bool))
    ensures r.1 <==>
      OutOfRange(pos.x, center.x, limit.x) || OutOfRange(pos.y, center.y, limit.y) || OutOfRange(pos.z, center.z, limit.z)
    ensures r.1 <==> r.0 != pos
    ensures !OutOfRange(r.0.x, center.x, limit.x) && !OutOfRange(r.0.y, center.y, limit.y) && !OutOfRange(r.0.z, center.z, limit.z)
  {
    var q := Coord(ClampAxis(pos.x, center.x, limit.x), ClampAxis(pos.y, center.y, limit.y), ClampAxis(pos.z, center.z, limit.z));
    (q, q != pos)
  }

  /** A clamped position needs no further teleport. */
  lemma ClampSettles(pos: Coord, center: Coord, limit: RangeLimit)
    ensures Clamp(Clamp(pos, center, limit).0, center, limit) == (Clamp(pos, center, limit).0, false)
  {
  }

  /** The range check runs only with a positive interval and some
      constrained axis. */
  predicate RangeCheckEnabled(limit: RangeLimit)
  {
    limit.checkInterval > 0 && (limit.x > 0 || limit.y > 0 || limit.z > 0)
  }

  /** With no constrained axis nobody is ever moved, which is why the check
      is then not started. */
  lemma UnconstrainedNeverMoves(pos: Coord, center: Coord, limit: RangeLimit)
    requires limit.x <= 0 && limit.y <= 0 && limit.z <= 0
    ensures !RangeCheckEnabled(limit)
    ensures Clamp(pos, center, limit) == (pos, false)
  {
  }

  // ---------------------------------------------------------------------
  // configuration
  // ---------------------------------------------------------------------

  datatype Permissions = Permissions(spec: int, specOther: int, tp: int, back: int)

  datatype ConfigV1 = ConfigV1(shortCommand: bool, spec: int, specOther: int, tp: int, back: int)

  datatype ConfigV2 = ConfigV2(
    dataPath: Option<string>,
    shortCommands: seq<string>,
    permissions: Permissions,
    rangeLimit: RangeLimit)

  /** `ConfigV2()` with every field at its default. */
  const DefaultConfig: ConfigV2 :=
    ConfigV2(None, ["!s"], Permissions(1, 2, 1, 1), RangeLimit(0, 50, 50, 50))

  /** `ConfigV1.migrate`: the short command becomes the list `['!s']` or
      nothing, the four levels carry over, the rest takes its default. */
  function Migrate(c: ConfigV1): (r: ConfigV2)
    ensures r.shortCommands == ["!s"] <==> c.shortCommand
    ensures r.shortCommands == [] <==> !c.shortCommand
    ensures r.permissions == Permissions(c.spec, c.specOther, c.tp, c.back)
    ensures r.dataPath == DefaultConfig.dataPath && r.rangeLimit == DefaultConfig.rangeLimit
  {
    ConfigV2(None, if c.shortCommand then ["!s"] else [], Permissions(c.spec, c.specOther, c.tp, c.back), DefaultConfig.rangeLimit)
  }

  /** A config of either version. */
  datatype AnyConfig = V1(v1: ConfigV1) | V2(v2: ConfigV2)

  function Version(c: AnyConfig): int
  {
    if c.V1? then 1 else 2
  }

  /** The `while version < CONFIG_LATEST_VERSION` loop of `load_config`. */
  function MigrateToLatest(c: AnyConfig): (r: ConfigV2)
    ensures c.V2? ==> r == c.v2
    ensures c.V1? ==> r == Migrate(c.v1)
    decreases 2 - Version(c)
  {
    match c
    case V1(c1) => MigrateToLatest(V2(Migrate(c1)))
    case V2(c2) => c2
  }

  /** A config file as found on disk: its `version` key, and its contents
      read as each version's class (absent keys take the defaults). */
  datatype ConfigFile = ConfigFile(version: Option<int>, asV1: ConfigV1, asV2: ConfigV2)

  datatype LoadResult =
    | Loaded(config: ConfigV2, migrated: bool)
    | UnknownVersion(version: int)

  /** `load_config`: no file gives the defaults; a missing version means
      1; version 2 is read as is; version 1 is migrated and written back;
      anything else raises `RuntimeError`. */
  function LoadConfig(file: Option<ConfigFile>): (r: LoadResult)
    ensures file.None? ==> r == Loaded(DefaultConfig, false)
    ensures file.Some? ==>
      var v := if file.value.version.Some? then file.value.version.value else 1;
      && (r.UnknownVersion? <==> v != 1 && v != 2)
      && (r.UnknownVersion? ==> r.version == v)
      && (v == 2 ==> r == Loaded(file.value.asV2, false))
      && (v == 1 ==> r == Loaded(Migrate(file.value.asV1), true))
  {
    match file
    case None => Loaded(DefaultConfig, false)
    case Some(f) =>
      var v := if f.version.Some? then f.version.value else 1;
      if v == 2 then Loaded(f.asV2, false)
      else if v == 1 then Loaded(MigrateToLatest(V1(f.asV1)), true)
      else UnknownVersion(v)
  }

  /** The permissions a version-1 file grants survive loading. */
  lemma LoadKeepsPermissions(f: ConfigFile)
    requires f.version.None? || f.version == Some(1)
    ensures LoadConfig(Some(f)).Loaded?
    ensures LoadConfig(Some(f)).config.permissions ==
      Permissions(f.asV1.spec, f.asV1.specOther, f.asV1.tp, f.asV1.back)
  {
  }

  /** The `!!spec` literals: `!!spec` then the configured short commands. */
  function SpecLiterals(config: ConfigV2): (r: seq<string>)
    ensures |r| == 1 + |config.shortCommands| && r[0] == "!!spec"
    ensures forall i :: 0 <= i < |config.shortCommands| ==> r[i + 1] == config.shortCommands[i]
  {
    ["!!spec"] + config.shortCommands
  }

  // ---------------------------------------------------------------------
  // spectator data and commands
  // ---------------------------------------------------------------------

  datatype Place = Place(dim: string, pos: Coord)

  /** One entry of `data`: where the player left survival, the rotation
      (absent in entries written by the older plugin), the time, and where
      `!!back` leads. */
  datatype SpecEntry = SpecEntry(dim: string, pos: Coord, rotation: Option<(real, real)>, time: real, back: Place)

  type SpecData = map<string, SpecEntry>

  /** What the player is told. */
  datatype Message =
    | SwitchedToSpectator
    | TimeUsed(minutes: int)
    | PlayerOffline(player: string)
    | OnlySpectator
    | NeitherDimensionNorPlayer(arg: string)
    | AlreadyInDimension
    | InvalidCoordinate
    | SamePlace
    | NoSuchDimension
    | TeleportedToPlayer(target: string)
    | TeleportedTo(dim: string, pos: Coord)
    | TeleportedBack
    | PlayersOnly

  /** What the handlers send to the server. */
  datatype Cmd =
    | SetGamemode(mode: string, player: string)
    | TpIn(dim: string, player: string, pos: Coord)
    | TpToPlayer(player: string, target: string)
    | Rotate(player: string, rotation: (real, real))
    | Tell(player: string, msg: Message)
    | Reply(msg: Message)
    | SaveData

  /** Minutes in spectator, rounded up. */
  function UsedMinutes(now: real, since: real): (m: int)
    ensures (m - 1) as real < (now - since) / 60.0 <= m as real
  {
    -((-(now - since) / 60.0).Floor)
  }

  /** The state `!!spec` works on: the spectator data and the players whose
      range is watched. */
  datatype SpecState = SpecState(data: SpecData, monitored: set<string>)

  /** `change_mode`. `target` is the `<player>` argument when given; `here`
      is where the switching player stands and how they face; `exempt` says
      whether the command source holds the `tp` permission. Switching to
      spectator records the place and watches the player unless exempt;
      switching back restores the place and drops both. */
  function ChangeMode(st: SpecState, source: string, target: Option<string>, isOnline: string -> bool,
                      here: Place, rotation: Option<(real, real)>, now: real, exempt: bool): (r: (SpecState, seq<Cmd>))
    ensures var player := if target.Some? then target.value else source;
      && (target.Some? && !isOnline(player) ==> r == (st, [Reply(PlayerOffline(player))]))
      && (!(target.Some? && !isOnline(player)) && player !in st.data ==>
            && r.0.data == st.data[player := SpecEntry(here.dim, here.pos, rotation, now, here)]
            && r.0.monitored == (if exempt then st.monitored else st.monitored + {player})
            && r.1 == [Tell(player, SwitchedToSpectator), SetGamemode("spectator", player), SaveData])
      && (!(target.Some? && !isOnline(player)) && player in st.data ==>
            && r.0.data == st.data - {player}
            && r.0.monitored == st.monitored - {player}
            && |r.1| >= 4 && r.1[0] == Tell(player, TimeUsed(UsedMinutes(now, st.data[player].time)))
            && r.1[1] == TpIn(st.data[player].dim, player, st.data[player].pos)
            && r.1[|r.1| - 2] == SetGamemode("survival", player) && r.1[|r.1| - 1] == SaveData)
  {
    var player := if target.Some? then target.value else source;
    if target.Some? && !isOnline(player) then (st, [Reply(PlayerOffline(player))])
    else if player !in st.data then
      var entry := SpecEntry(here.dim, here.pos, rotation, now, here);
      (SpecState(st.data[player := entry], if exempt then st.monitored else st.monitored + {player}),
       [Tell(player, SwitchedToSpectator), SetGamemode("spectator", player), SaveData])
    else
      var e := st.data[player];
      var rotate := if e.rotation.Some? then [Rotate(player, e.rotation.value)] else [];
      (SpecState(st.data - {player}, st.monitored - {player}),
       [Tell(player, TimeUsed(UsedMinutes(now, e.time))), TpIn(e.dim, player, e.pos)] + rotate
       + [SetGamemode("survival", player), SaveData])
  }

  /** Toggling twice puts a survival player back where the data started,
      and sends them back to the place they left. */
  lemma ChangeModeTwice(st: SpecState, player: string, isOnline: string -> bool, here: Place, rotation: Option<(real, real)>,
                        now: real, later: real, exempt: bool)
    requires player !in st.data && player !in st.monitored
    ensures var once := ChangeMode(st, player, None, isOnline, here, rotation, now, exempt);
      var twice := ChangeMode(once.0, player, None, isOnline, here, rotation, later, exempt);
      && player in once.0.data
      && twice.0 == st
      && TpIn(here.dim, player, here.pos) in twice.1
  {
    var once := ChangeMode(st, player, None, isOnline, here, rotation, now, exempt);
    assert once.0.data - {player} == st.data;
    assert once.0.monitored - {player} == st.monitored;
    var twice := ChangeMode(once.0, player, None, isOnline, here, rotation, later, exempt);
    assert twice.1[1] == TpIn(here.dim, player, here.pos);
  }

  /** The players watched when the plugin loads with the check enabled:
      those in spectator whose level is below the `tp` permission. */
  function MonitoredOnLoad(data: SpecData, level: string -> int, config: ConfigV2): (r: set<string>)
    ensures forall p :: p in r <==> RangeCheckEnabled(config.rangeLimit) && p in data && level(p) < config.permissions.tp
  {
    if RangeCheckEnabled(config.rangeLimit) then set p | p in data && level(p) < config.permissions.tp else {}
  }

  /** `on_player_joined`: a returning spectator is put back in spectator
      mode and watched again unless exempt. */
  function PlayerJoined(st: SpecState, player: string, level: int, config: ConfigV2): (r: (SpecState, seq<Cmd>))
    ensures r.0.data == st.data
    ensures player !in st.data ==> r == (st, [])
    ensures player in st.data ==> r.1 == [SetGamemode("spectator", player)]
    ensures player in st.data ==> (player in r.0.monitored <==> level < config.permissions.tp || player in st.monitored)
  {
    if player !in st.data then (st, [])
    else (SpecState(st.data, if level < config.permissions.tp then st.monitored + {player} else st.monitored),
          [SetGamemode("spectator", player)])
  }

  /** `on_player_left`: a leaving spectator is no longer watched. */
  function PlayerLeft(st: SpecState, player: string): (r: SpecState)
    ensures r.data == st.data
    ensures player in st.data ==> player !in r.monitored
    ensures forall p :: p != player ==> (p in r.monitored <==> p in st.monitored)
  {
    if player in st.data then SpecState(st.data, st.monitored - {player}) else st
  }

  // ---------------------------------------------------------------------
  // !!tp
  // ---------------------------------------------------------------------

  /** The tp parameters: `param1` to `param4` as far as they run without a
      gap (an absent parameter is given as the empty string). */
  function TpParams(given: seq<string>): (r: seq<string>)
    ensures |r| <= |given| && r == given[..|r|]
    ensures forall i :: 0 <= i < |r| ==> r[i] != ""
    ensures |r| < |given| ==> given[|r|] == ""
  {
    if |given| == 0 || given[0] == "" then [] else [given[0]] + TpParams(given[1..])
  }

  /** What a `!!tp` request resolves to; `Crashed` is an exception raised
      while deciding (`float()` refusing an argument the check let through). */
  datatype TpTarget =
    | Refused(msg: Message)
    | ToPlayer(player: string)
    | ToPlace(place: Place)
    | Crashed(error: string)

  /** A decision that teleports. */
  predicate Moves(t: TpTarget)
  {
    t.ToPlayer? || t.ToPlace?
  }

  /** One coordinate argument: `~` keeps the current value, anything else
      is read by `floatOf`, Python's `float()`, which gives `None` where it
      raises `ValueError`. */
  function Axis(arg: string, current: real, floatOf: string -> Option<real>): Option<real>
  {
    if arg == "~" then Some(current) else floatOf(arg)
  }

  /** The three axes, or `None` when one of them does not convert. */
  function ArgsCoord(a: string, b: string, c: string, current: Coord, floatOf: string -> Option<real>): (r: Option<Coord>)
    ensures r.Some? <==> Axis(a, current.x, floatOf).Some? && Axis(b, current.y, floatOf).Some? && Axis(c, current.z, floatOf).Some?
    ensures r.Some? ==> r.value == Coord(Axis(a, current.x, floatOf).value, Axis(b, current.y, floatOf).value, Axis(c, current.z, floatOf).value)
  {
    var x := Axis(a, current.x, floatOf);
    var y := Axis(b, current.y, floatOf);
    var z := Axis(c, current.z, floatOf);
    if x.Some? && y.Some? && z.Some? then Some(Coord(x.value, y.value, z.value)) else None
  }

  /** The decision part of `tp`, for a coordinate check `valid`. One
      argument names a dimension or an online player; three give a
      position in the current dimension; four a dimension and a position.
      The source's handler checks with `IsCoordValid`; the repaired one with
      `IsCoordValidFixed`. */
  function TpDecide(params: seq<string>, here: Place, isOnline: string -> bool, floatOf: string -> Option<real>,
                    valid: string -> bool): (r: TpTarget)
    requires |params| == 1 || |params| == 3 || |params| == 4
    ensures |params| == 1 && DimensionOf(params[0]).None? ==>
      r == (if isOnline(params[0]) then ToPlayer(params[0]) else Refused(NeitherDimensionNorPlayer(params[0])))
    ensures |params| == 1 && DimensionOf(params[0]) == Some(here.dim) ==> r == Refused(AlreadyInDimension)
    ensures |params| == 1 && DimensionOf(params[0]) == Some(NetherName) && here.dim == OverworldName ==>
      r == ToPlace(Place(NetherName, Coord(OverworldToNether(here.pos.x) as real, here.pos.y, OverworldToNether(here.pos.z) as real)))
    ensures |params| == 1 && DimensionOf(params[0]) == Some(OverworldName) && here.dim == NetherName ==>
      r == ToPlace(Place(OverworldName, Coord(NetherToOverworld(here.pos.x) as real, here.pos.y, NetherToOverworld(here.pos.z) as real)))
    ensures |params| == 3 && !(valid(params[0]) && valid(params[1]) && valid(params[2])) ==>
      r == Refused(InvalidCoordinate)
    ensures |params| == 4 && DimensionOf(params[0]).None? ==> r == Refused(NoSuchDimension)
    ensures r.ToPlace? && |params| >= 3 ==>
      var k := |params| - 3;
      && valid(params[k]) && valid(params[k + 1]) && valid(params[k + 2])
      && ArgsCoord(params[k], params[k + 1], params[k + 2], here.pos, floatOf) == Some(r.place.pos)
      && !(params[k] == "~" && params[k + 1] == "~" && params[k + 2] == "~" && r.place.dim == here.dim)
    ensures r.Crashed? ==>
      var k := |params| - 3;
      && |params| >= 3 && r.error == "ValueError"
      && valid(params[k]) && valid(params[k + 1]) && valid(params[k + 2])
      && ArgsCoord(params[k], params[k + 1], params[k + 2], here.pos, floatOf).None?
    ensures r.ToPlace? ==> r.place.dim in {OverworldName, NetherName, EndName} || (|params| == 3 && r.place.dim == here.dim)
    ensures r.ToPlayer? ==> |params| == 1 && isOnline(r.player)
  {
    if |params| == 1 then
      var arg := params[0];
      match DimensionOf(arg)
      case None => if isOnline(arg) then ToPlayer(arg) else Refused(NeitherDimensionNorPlayer(arg))
      case Some(dim) =>
        if dim == here.dim then Refused(AlreadyInDimension)
        else if dim == NetherName && here.dim == OverworldName then
          ToPlace(Place(dim, Coord(OverworldToNether(here.pos.x) as real, here.pos.y, OverworldToNether(here.pos.z) as real)))
        else if dim == OverworldName && here.dim == NetherName then
          ToPlace(Place(dim, Coord(NetherToOverworld(here.pos.x) as real, here.pos.y, NetherToOverworld(here.pos.z) as real)))
        else ToPlace(Place(dim, Coord(0.0, 80.0, 0.0)))
    else if |params| == 3 then
      if !(valid(params[0]) && valid(params[1]) && valid(params[2])) then Refused(InvalidCoordinate)
      else if params[0] == "~" && params[1] == "~" && params[2] == "~" then Refused(SamePlace)
      else match ArgsCoord(params[0], params[1], params[2], here.pos, floatOf)
        case None => Crashed("ValueError")
        case Some(c) => ToPlace(Place(here.dim, c))
    else
      match DimensionOf(params[0])
      case None => Refused(NoSuchDimension)
      case Some(dim) =>
        if dim == here.dim && params[1] == "~" && params[2] == "~" && params[3] == "~" then Refused(SamePlace)
        else if !(valid(params[1]) && valid(params[2]) && valid(params[3])) then Refused(InvalidCoordinate)
        else match ArgsCoord(params[1], params[2], params[3], here.pos, floatOf)
          case None => Crashed("ValueError")
          case Some(c) => ToPlace(Place(dim, c))
  }

  /** The outcome of a command: the new data, the commands sent, and the
      exception it ended with, if any. */
  datatype Outcome = Outcome(data: SpecData, cmds: seq<Cmd>, raised: Option<string>)

  /** Carry out a decided teleport for a spectator: remember where they
      were for `!!back`, save, teleport, confirm. An exception raised while
      deciding ends the command with nothing changed. */
  function Perform(data: SpecData, player: string, here: Place, target: TpTarget): (r: Outcome)
    requires player in data
    ensures target.Refused? ==> r == Outcome(data, [Reply(target.msg)], None)
    ensures target.Crashed? ==> r == Outcome(data, [], Some(target.error))
    ensures Moves(target) ==> r.data == data[player := data[player].(back := here)] && r.raised.None?
    ensures Moves(target) ==> |r.cmds| == 3 && r.cmds[0] == SaveData
    ensures target.ToPlayer? ==> r.cmds[1] == TpToPlayer(player, target.player)
    ensures target.ToPlace? ==> r.cmds[1] == TpIn(target.place.dim, player, target.place.pos)
  {
    match target
    case Refused(msg) => Outcome(data, [Reply(msg)], None)
    case Crashed(e) => Outcome(data, [], Some(e))
    case ToPlayer(p) =>
      Outcome(data[player := data[player].(back := here)], [SaveData, TpToPlayer(player, p), Reply(TeleportedToPlayer(p))], None)
    case ToPlace(place) =>
      Outcome(data[player := data[player].(back := here)], [SaveData, TpIn(place.dim, player, place.pos), Reply(TeleportedTo(place.dim, place.pos))], None)
  }

  /** `tp` with the evidently intended early return (a player not in
      spectator is told so and nothing else happens) and the repaired
      coordinate check. */
  function Tp(data: SpecData, player: string, params: seq<string>, here: Place, isOnline: string -> bool,
              floatOf: string -> Option<real>): (r: Outcome)
    requires |params| == 1 || |params| == 3 || |params| == 4
    ensures player !in data ==> r == Outcome(data, [Reply(OnlySpectator)], None)
    ensures player in data ==> r == Perform(data, player, here, TpDecide(params, here, isOnline, floatOf, IsCoordValidFixed))
  {
    if player !in data then Outcome(data, [Reply(OnlySpectator)], None)
    else Perform(data, player, here, TpDecide(params, here, isOnline, floatOf, IsCoordValidFixed))
  }

  /** `tp` as written: it checks with `IsCoordValid`, and the
      not-in-spectator reply does not return, so the request is decided
      anyway; a refusal adds its own reply, a `float()` failure raises
      `ValueError`, and an accepted request reaches
      `data[src.player]['back'] = ...` and raises `KeyError` before anything
      is saved or sent. */
  function TpAsWritten(data: SpecData, player: string, params: seq<string>, here: Place, isOnline: string -> bool,
                       floatOf: string -> Option<real>): (r: Outcome)
    requires |params| == 1 || |params| == 3 || |params| == 4
    ensures player in data ==> r == Perform(data, player, here, TpDecide(params, here, isOnline, floatOf, IsCoordValid))
    ensures player !in data ==> r.data == data && |r.cmds| > 0 && r.cmds[0] == Reply(OnlySpectator)
    ensures player !in data ==>
      (r.raised == Some("KeyError") <==> Moves(TpDecide(params, here, isOnline, floatOf, IsCoordValid)))
    ensures r.raised == Some("ValueError") <==> TpDecide(params, here, isOnline, floatOf, IsCoordValid).Crashed?
  {
    var target := TpDecide(params, here, isOnline, floatOf, IsCoordValid);
    if player in data then Perform(data, player, here, target)
    else match target
      case Refused(msg) => Outcome(data, [Reply(OnlySpectator), Reply(msg)], None)
      case Crashed(e) => Outcome(data, [Reply(OnlySpectator)], Some(e))
      case _ => Outcome(data, [Reply(OnlySpectator)], Some("KeyError"))
  }

  /** A survival player asking `!!tp 0 64 0` from elsewhere: the repaired
      handler just answers, the one as written raises. */
  lemma TpOutsideSpectatorDiffers(data: SpecData, player: string, here: Place, isOnline: string -> bool,
                                  floatOf: string -> Option<real>)
    requires player !in data
    requires floatOf("0").Some? && floatOf("64").Some?
    ensures Tp(data, player, ["0", "64", "0"], here, isOnline, floatOf).raised.None?
    ensures TpAsWritten(data, player, ["0", "64", "0"], here, isOnline, floatOf).raised == Some("KeyError")
  {
    assert IsDigits("0") && IsDigits("64");
    assert Numeral("0") && Numeral("64");
    NumeralIsCoordValidFixed("0");
    NumeralIsCoordValidFixed("64");
    NumeralsAccepted("0");
    NumeralsAccepted("64");
  }

  /** `!!tp --5 0 0` by a spectator: the source's check lets `--5` through
      and `float('--5')` raises `ValueError`; the repaired check refuses it. */
  lemma DoubleMinusRaises(data: SpecData, player: string, here: Place, isOnline: string -> bool,
                          floatOf: string -> Option<real>)
    requires player in data
    requires floatOf("--5").None?
    ensures TpAsWritten(data, player, ["--5", "0", "0"], here, isOnline, floatOf) == Outcome(data, [], Some("ValueError"))
    ensures Tp(data, player, ["--5", "0", "0"], here, isOnline, floatOf) == Outcome(data, [Reply(InvalidCoordinate)], None)
  {
    CoordValidAcceptsDoubleMinus();
    assert IsDigits("0") && Numeral("0");
    NumeralsAccepted("0");
  }

  /** When `float()` reads every numeral, the repaired check never lets an
      argument through that `float()` refuses. */
  lemma FixedNeverRaises(params: seq<string>, here: Place, isOnline: string -> bool, floatOf: string -> Option<real>)
    requires |params| == 1 || |params| == 3 || |params| == 4
    requires forall s :: Numeral(s) ==> floatOf(s).Some?
    ensures !TpDecide(params, here, isOnline, floatOf, IsCoordValidFixed).Crashed?
  {
    if |params| >= 3 {
      var k := |params| - 3;
      forall i | k <= i < |params| && IsCoordValidFixed(params[i]) && params[i] != "~"
        ensures floatOf(params[i]).Some?
      {
        CoordValidFixedIsNumeral(params[i]);
      }
    }
  }

  /** `back`: a spectator returns to the recorded place, and the place they
      leave becomes the new `!!back` target. */
  function Back(data: SpecData, player: string, here: Place): (r: Outcome)
    ensures player !in data ==> r == Outcome(data, [Reply(OnlySpectator)], None)
    ensures player in data ==>
      && r.data == data[player := data[player].(back := here)]
      && r.cmds == [SaveData, TpIn(data[player].back.dim, player, data[player].back.pos), Reply(TeleportedBack)]
  {
    if player !in data then Outcome(data, [Reply(OnlySpectator)], None)
    else
      var to := data[player].back;
      Outcome(data[player := data[player].(back := here)], [SaveData, TpIn(to.dim, player, to.pos), Reply(TeleportedBack)], None)
  }

  /** A teleport followed by `!!back` returns the player to where the
      teleport started. */
  lemma BackUndoesTp(data: SpecData, player: string, params: seq<string>, here: Place, there: Place,
                     isOnline: string -> bool, floatOf: string -> Option<real>)
    requires |params| == 1 || |params| == 3 || |params| == 4
    requires player in data
    requires Moves(TpDecide(params, here, isOnline, floatOf, IsCoordValidFixed))
    ensures var after := Tp(data, player, params, here, isOnline, floatOf);
      player in after.data && Back(after.data, player, there).cmds[1] == TpIn(here.dim, player, here.pos)
  {
  }
}
