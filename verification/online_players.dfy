/** The online player list of online_player_api, in both versions
    (src/online_player_api/online_player_api/__init__.py and
    Archive/OnlinePlayerAPI/OnlinePlayerAPI.py): joins and leaves keep a
    duplicate-free list in join order, a server stop empties it, and a
    reload can carry it over. The older version also answers `!!list` and
    hands out the list itself rather than a copy. */
module OnlinePlayers {
  import opened Basics

  /** No player is listed twice. */
  predicate NoDuplicates(ps: seq<string>)
  {
    forall i, j :: 0 <= i < j < |ps| ==> ps[i] != ps[j]
  }

  /** `on_player_joined`: append unless already listed. */
  function Join(ps: seq<string>, player: string): (r: seq<string>)
    ensures player in ps ==> r == ps
    ensures player !in ps ==> r == ps + [player]
  {
    if player in ps then ps else ps + [player]
  }

  /** Where `player` first occurs. */
  function IndexOf(ps: seq<string>, player: string): (i: nat)
    requires player in ps
    ensures i < |ps| && ps[i] == player && player !in ps[..i]
  {
    if ps[0] == player then 0
    else
      var i := IndexOf(ps[1..], player);
      assert ps[..i + 1] == [ps[0]] + ps[1..][..i];
      i + 1
  }

  /** `list.remove`: drops the first occurrence. */
  function RemoveFirst(ps: seq<string>, player: string): (r: seq<string>)
    requires player in ps
    ensures |r| == |ps| - 1
    ensures var i := IndexOf(ps, player);
            forall k :: 0 <= k < |r| ==> r[k] == ps[if k < i then k else k + 1]
  {
    var i := IndexOf(ps, player);
    ps[..i] + ps[i + 1..]
  }

  /** `on_player_left`: remove if listed. */
  function Leave(ps: seq<string>, player: string): (r: seq<string>)
  {
    if player in ps then RemoveFirst(ps, player) else ps
  }

  /** `on_server_stop`. */
  function Stop(ps: seq<string>): (r: seq<string>)
    ensures r == []
  {
    []
  }

  /** `check_online`. */
  predicate CheckOnline(ps: seq<string>, player: string)
  {
    player in ps
  }

  /** What the previous instance of the plugin had at reload: nothing, a
      module without the list, or one with it. */
  datatype Previous = NoPrevious | WithoutList | WithList(players: seq<string>)

  /** `on_load`: take over the previous list if there is one, else start
      empty (both versions agree). */
  function Load(prev: Previous): (r: seq<string>)
    ensures prev.WithList? ==> r == prev.players
    ensures !prev.WithList? ==> r == []
  {
    if prev.WithList? then prev.players else []
  }

  /** The server events the plugin listens to. */
  datatype Event = Joined(player: string) | Left(player: string) | ServerStopped

  function Apply(ps: seq<string>, e: Event): seq<string>
  {
    match e
    case Joined(p) => Join(ps, p)
    case Left(p) => Leave(ps, p)
    case ServerStopped => Stop(ps)
  }

  function ApplyAll(ps: seq<string>, es: seq<Event>): seq<string>
    decreases |es|
  {
    if |es| == 0 then ps else ApplyAll(Apply(ps, es[0]), es[1..])
  }

  // ---------------------------------------------------------------------
  // Properties
  // ---------------------------------------------------------------------

  /** Whatever events arrive, starting from a list carried over at reload or
      an empty one, no player is ever listed twice. */
  lemma {:induction false} EventsKeepNoDuplicates(ps: seq<string>, es: seq<Event>)
    requires NoDuplicates(ps)
    ensures NoDuplicates(ApplyAll(ps, es))
    decreases |es|
  {
    if |es| > 0 {
      if es[0].Joined? {
        JoinKeeps(ps, es[0].player, es[0].player);
      } else if es[0].Left? {
        LeaveKeeps(ps, es[0].player, es[0].player);
      }
      EventsKeepNoDuplicates(Apply(ps, es[0]), es[1..]);
    }
  }

  /** Joining keeps the list duplicate-free and makes the player online;
      nobody else's status changes. */
  lemma JoinKeeps(ps: seq<string>, player: string, other: string)
    requires NoDuplicates(ps)
    ensures NoDuplicates(Join(ps, player))
    ensures CheckOnline(Join(ps, player), player)
    ensures other != player ==> (CheckOnline(Join(ps, player), other) <==> CheckOnline(ps, other))
  {
  }

  /** Leaving keeps the list duplicate-free and in order, and in a
      duplicate-free list takes the player offline entirely; nobody else's
      status changes. */
  lemma LeaveKeeps(ps: seq<string>, player: string, other: string)
    requires NoDuplicates(ps)
    ensures NoDuplicates(Leave(ps, player))
    ensures !CheckOnline(Leave(ps, player), player)
    ensures other != player ==> (CheckOnline(Leave(ps, player), other) <==> CheckOnline(ps, other))
    ensures |Leave(ps, player)| == if player in ps then |ps| - 1 else |ps|
  {
    if player in ps {
      var r := RemoveFirst(ps, player);
      var i := IndexOf(ps, player);
      forall x | x in r
        ensures exists k :: 0 <= k < |ps| && k != i && ps[k] == x
      {
        var a :| 0 <= a < |r| && r[a] == x;
        assert r[a] == ps[if a < i then a else a + 1];
      }
      forall k | 0 <= k < |ps| && k != i
        ensures ps[k] in r
      {
        assert r[if k < i then k else k - 1] == ps[k];
      }
    }
  }

  /** A join followed by a leave of a player who was not online restores
      the list. */
  lemma JoinLeave(ps: seq<string>, player: string)
    requires player !in ps
    ensures Leave(Join(ps, player), player) == ps
  {
    var j := ps + [player];
    assert j[..|ps|] == ps;
    var i := IndexOf(j, player);
    assert i == |ps|;
    assert RemoveFirst(j, player) == ps;
  }

  // ---------------------------------------------------------------------
  // The older version
  // ---------------------------------------------------------------------

  /** `!!list` of the older version: the count and the names. */
  function ListReply(ps: seq<string>): string
  {
    "当前共有" + Str(|ps|) + "名玩家在线: " + JoinWith(ps, ", ")
  }

  /** `sep.join(parts)` for a separator of any length. */
  function JoinWith(parts: seq<string>, sep: string): (r: string)
    ensures |parts| == 0 ==> r == ""
    ensures |parts| == 1 ==> r == parts[0]
  {
    if |parts| == 0 then "" else if |parts| == 1 then parts[0] else parts[0] + sep + JoinWith(parts[1..], sep)
  }

  /** What a caller of `get_player_list` sees after changing the list it
      was given: the newer version hands out a copy, so the plugin's list is
      untouched; the older one hands out the list itself, so the caller's
      change becomes the plugin's state. */
  function AfterCallerEdit(ps: seq<string>, edit: seq<string> -> seq<string>, copy: bool): (r: seq<string>)
    ensures copy ==> r == ps
    ensures !copy ==> r == edit(ps)
  {
    if copy then ps else edit(ps)
  }

  /** Through the older version's live list a caller can break the
      no-duplicates invariant that joins maintain. */
  lemma LiveListBreaksInvariant(player: string)
    ensures NoDuplicates(Join([], player))
    ensures !NoDuplicates(AfterCallerEdit(Join([], player), Doubled, false))
    ensures NoDuplicates(AfterCallerEdit(Join([], player), Doubled, true))
  {
    var l := [player];
    assert Join([], player) == l;
    var d := AfterCallerEdit(l, Doubled, false);
    assert d == Doubled(l) == [player, player];
    assert d[0] == d[1];
  }

  /** A caller's edit that appends the list to itself. */
  function Doubled(l: seq<string>): seq<string>
  {
    l + l
  }
}
