/** The older spectator/teleport plugin (gamemode/gamemode/__init__.py). It
    shares the dimension table and the coordinate conversions with the
    newer one, refuses the console itself, has no range limit, and its
    `!!tp` reads the last two or three arguments as numbers already. */
module LegacyGamemode {
  import opened Basics
  import opened Coords
  import opened Gamemode

  /** The four permission levels of `config.json`. */
  const DefaultPermissions: Permissions := Permissions(1, 2, 1, 1)

  /** `change_mode`: the console is refused; otherwise the named player, or
      the caller, is toggled without any online check. */
  function ChangeMode(data: SpecData, console: bool, source: string, target: Option<string>,
                      here: Place, now: real): (r: Outcome)
    ensures console ==> r == Outcome(data, [Reply(PlayersOnly)], None)
    ensures !console ==>
      var player := if target.Some? then target.value else source;
      && (player !in data ==> r.data == data[player := SpecEntry(here.dim, here.pos, None, now, here)])
      && (player in data ==> r.data == data - {player})
      && (player in data ==> TpIn(data[player].dim, player, data[player].pos) in r.cmds)
  {
    var player := if target.Some? then target.value else source;
    if console then Outcome(data, [Reply(PlayersOnly)], None)
    else if player !in data then
      Outcome(data[player := SpecEntry(here.dim, here.pos, None, now, here)],
              [Tell(player, SwitchedToSpectator), SetGamemode("spectator", player), SaveData], None)
    else
      var e := data[player];
      Outcome(data - {player},
              [Tell(player, TimeUsed(UsedMinutes(now, e.time))), TpIn(e.dim, player, e.pos),
               SetGamemode("survival", player), SaveData], None)
  }

  /** Toggling twice restores the data. */
  lemma ChangeModeTwice(data: SpecData, player: string, here: Place, now: real, later: real)
    requires player !in data
    ensures ChangeMode(ChangeMode(data, false, player, None, here, now).data, false, player, None, here, later).data == data
  {
    assert data[player := SpecEntry(here.dim, here.pos, None, now, here)] - {player} == data;
  }

  /** The argument shapes the `!!tp` command tree accepts: a text, a text
      and two numbers, or a text and three numbers. */
  datatype TpArgs =
    | One(arg: string)
    | Three(xArg: string, y: real, z: real)
    | Four(dim: string, x: real, y: real, z: real)

  /** The decision part of `tp`, for a coordinate check `valid` (the
      source's `LegacyCoordValid`, or the repaired `LegacyCoordValidFixed`).
      Only the first of three arguments is a string to check, and `float()`
      (`floatOf`, `None` where it raises `ValueError`) reads it afterwards;
      an unknown dimension is answered and never teleports. */
  function TpDecide(args: TpArgs, here: Place, floatOf: string -> Option<real>, valid: string -> bool): (r: TpTarget)
    ensures !r.ToPlayer?
    ensures args.One? && DimensionOf(args.arg).None? ==> r == Refused(NoSuchDimension)
    ensures args.One? && DimensionOf(args.arg) == Some(here.dim) ==> r == Refused(AlreadyInDimension)
    ensures args.One? && DimensionOf(args.arg) == Some(NetherName) && here.dim == OverworldName ==>
      r == ToPlace(Place(NetherName, Coord(OverworldToNether(here.pos.x) as real, here.pos.y, OverworldToNether(here.pos.z) as real)))
    ensures args.One? && DimensionOf(args.arg) == Some(OverworldName) && here.dim == NetherName ==>
      r == ToPlace(Place(OverworldName, Coord(NetherToOverworld(here.pos.x) as real, here.pos.y, NetherToOverworld(here.pos.z) as real)))
    ensures args.Three? && !valid(args.xArg) ==> r == Refused(InvalidCoordinate)
    ensures args.Three? && valid(args.xArg) && floatOf(args.xArg).None? ==> r == Crashed("ValueError")
    ensures args.Three? && valid(args.xArg) && floatOf(args.xArg).Some? ==>
      r == ToPlace(Place(here.dim, Coord(floatOf(args.xArg).value, args.y, args.z)))
    ensures r.Crashed? ==> args.Three?
    ensures args.Four? ==>
      r == (if DimensionOf(args.dim).Some? then ToPlace(Place(DimensionOf(args.dim).value, Coord(args.x, args.y, args.z)))
            else Refused(NoSuchDimension))
  {
    match args
    case One(arg) =>
      (match DimensionOf(arg)
       case None => Refused(NoSuchDimension)
       case Some(dim) =>
         if dim == here.dim then Refused(AlreadyInDimension)
         else if dim == NetherName && here.dim == OverworldName then
           ToPlace(Place(dim, Coord(OverworldToNether(here.pos.x) as real, here.pos.y, OverworldToNether(here.pos.z) as real)))
         else if dim == OverworldName && here.dim == NetherName then
           ToPlace(Place(dim, Coord(NetherToOverworld(here.pos.x) as real, here.pos.y, NetherToOverworld(here.pos.z) as real)))
         else ToPlace(Place(dim, Coord(0.0, 80.0, 0.0))))
    case Three(x, y, z) =>
      if !valid(x) then Refused(InvalidCoordinate)
      else
        (match floatOf(x)
         case None => Crashed("ValueError")
         case Some(v) => ToPlace(Place(here.dim, Coord(v, y, z))))
    case Four(d, x, y, z) =>
      match DimensionOf(d)
      case None => Refused(NoSuchDimension)
      case Some(dim) => ToPlace(Place(dim, Coord(x, y, z)))
  }

  /** `tp` with the evidently intended early return for a player not in
      spectator, and the repaired coordinate check. */
  function Tp(data: SpecData, console: bool, player: string, args: TpArgs, here: Place,
              floatOf: string -> Option<real>): (r: Outcome)
    ensures console ==> r == Outcome(data, [Reply(PlayersOnly)], None)
    ensures !console && player !in data ==> r == Outcome(data, [Reply(OnlySpectator)], None)
    ensures !console && player in data ==> r == Perform(data, player, here, TpDecide(args, here, floatOf, LegacyCoordValidFixed))
  {
    if console then Outcome(data, [Reply(PlayersOnly)], None)
    else if player !in data then Outcome(data, [Reply(OnlySpectator)], None)
    else Perform(data, player, here, TpDecide(args, here, floatOf, LegacyCoordValidFixed))
  }

  /** `tp` as written: it checks with `LegacyCoordValid`, and after telling
      a non-spectator so it decides the request anyway; a `float()` failure
      raises `ValueError`, and a decided teleport raises `KeyError` on
      `data[src.player]`. */
  function TpAsWritten(data: SpecData, console: bool, player: string, args: TpArgs, here: Place,
                       floatOf: string -> Option<real>): (r: Outcome)
    ensures console ==> r == Outcome(data, [Reply(PlayersOnly)], None)
    ensures !console && player in data ==> r == Perform(data, player, here, TpDecide(args, here, floatOf, LegacyCoordValid))
    ensures !console && player !in data ==> r.data == data
    ensures !console && player !in data ==>
      (r.raised == Some("KeyError") <==> TpDecide(args, here, floatOf, LegacyCoordValid).ToPlace?)
    ensures !console ==> (r.raised == Some("ValueError") <==> TpDecide(args, here, floatOf, LegacyCoordValid).Crashed?)
  {
    var target := TpDecide(args, here, floatOf, LegacyCoordValid);
    if console then Outcome(data, [Reply(PlayersOnly)], None)
    else if player in data then Perform(data, player, here, target)
    else match target
      case Refused(msg) => Outcome(data, [Reply(OnlySpectator), Reply(msg)], None)
      case Crashed(e) => Outcome(data, [Reply(OnlySpectator)], Some(e))
      case _ => Outcome(data, [Reply(OnlySpectator)], Some("KeyError"))
  }

  /** A survival player asking `!!tp overworld 0 64 0`: the repaired handler
      answers, the one as written raises. */
  lemma TpOutsideSpectatorDiffers(data: SpecData, player: string, here: Place, floatOf: string -> Option<real>)
    requires player !in data
    ensures Tp(data, false, player, Four("overworld", 0.0, 64.0, 0.0), here, floatOf).raised.None?
    ensures TpAsWritten(data, false, player, Four("overworld", 0.0, 64.0, 0.0), here, floatOf).raised == Some("KeyError")
  {
  }

  /** `!!tp 5- 64 0` by a spectator: the source's check lets `5-` through
      and `float('5-')` raises `ValueError`; the repaired check refuses it. */
  lemma TrailingMinusRaises(data: SpecData, player: string, here: Place, floatOf: string -> Option<real>)
    requires player in data
    requires floatOf("5-").None?
    ensures TpAsWritten(data, false, player, Three("5-", 64.0, 0.0), here, floatOf) == Outcome(data, [], Some("ValueError"))
    ensures Tp(data, false, player, Three("5-", 64.0, 0.0), here, floatOf) == Outcome(data, [Reply(InvalidCoordinate)], None)
  {
    LegacyCoordValidAcceptsTrailingMinus();
  }

  /** `back`: the console is refused; otherwise as in the newer plugin. */
  function Back(data: SpecData, console: bool, player: string, here: Place): (r: Outcome)
    ensures console ==> r == Outcome(data, [Reply(PlayersOnly)], None)
    ensures !console ==> r == Gamemode.Back(data, player, here)
  {
    if console then Outcome(data, [Reply(PlayersOnly)], None)
    else if player !in data then Outcome(data, [Reply(OnlySpectator)], None)
    else
      var to := data[player].back;
      Outcome(data[player := data[player].(back := here)], [SaveData, TpIn(to.dim, player, to.pos), Reply(TeleportedBack)], None)
  }

  /** `on_player_joined`: a returning spectator is put back in spectator
      mode. */
  function PlayerJoined(data: SpecData, player: string): (r: seq<Cmd>)
    ensures r == (if player in data then [SetGamemode("spectator", player)] else [])
  {
    if player in data then [SetGamemode("spectator", player)] else []
  }
}
