/** The registry of bots (`BotManager` in src/bot/bot/bot_manager.py): an
    insertion-ordered dict from name to bot. Every operation is a pure
    transition from one registry to the next, with the exception it raises
    and the server commands it issues. */
module BotManager {
  import opened Basics
  import opened Dicts
  import opened Bots

  type Registry = Dict<Bot>

  /** What an operation leaves behind: the new registry, its value or error,
      and the commands issued. The registry may change even when an error is
      raised, as the source mutates bots before some of its checks. */
  datatype Step<T> = Step(reg: Registry, result: Result<T, BotError>, cmds: seq<Cmd>)

  /** Every key is its bot's own name and no key repeats; `update_list`
      establishes this, and renaming a bot is the only way to break it. */
  predicate WellKeyed(reg: Registry)
  {
    UniqueKeys(reg) && forall e :: e in reg ==> e.0 == e.1.name
  }

  /** A bot's lookup under its own key. */
  lemma GetEntry(reg: Registry, e: (string, Bot))
    requires UniqueKeys(reg) && e in reg
    ensures Get(reg, e.0) == Some(e.1)
  {
    var i :| 0 <= i < |reg| && reg[i] == e;
    GetAt(reg, i);
  }

  /** Storing a bot under its own name keeps the registry well keyed. */
  lemma PutWellKeyed(reg: Registry, b: Bot)
    requires WellKeyed(reg)
    ensures WellKeyed(Put(reg, b.name, b))
  {
    PutUnique(reg, b.name, b);
    PutEntries(reg, b.name, b);
  }

  // ---------------------------------------------------------------------
  // update_list
  // ---------------------------------------------------------------------

  /** The `(bot.name, bot)` pairs of the online or saved bots, in order. */
  function Kept(reg: Registry): (pairs: seq<(string, Bot)>)
    ensures forall e :: e in pairs ==> e.0 == e.1.name && (e.1.online || e.1.saved) && e.1 in Values(reg)
  {
    if |reg| == 0 then []
    else
      assert Values(reg) == [reg[0].1] + Values(reg[1..]);
      var b := reg[0].1;
      (if b.online || b.saved then [(b.name, b)] else []) + Kept(reg[1..])
  }

  /** A name is kept exactly when some online or saved bot carries it. */
  lemma {:induction false} KeptNames(reg: Registry, k: string)
    ensures (exists e :: e in Kept(reg) && e.0 == k)
        <==> (exists e :: e in reg && e.1.name == k && (e.1.online || e.1.saved))
  {
    if |reg| > 0 {
      KeptNames(reg[1..], k);
      assert reg == [reg[0]] + reg[1..];
      var b := reg[0].1;
      assert Kept(reg) == (if b.online || b.saved then [(b.name, b)] else []) + Kept(reg[1..]);
    }
  }

  /** `update_list`: the online or saved bots, re-keyed by their current
      names. When two bots share a name the dict comprehension keeps the
      first position and the last bot. */
  function UpdateList(reg: Registry): (r: Registry)
    ensures WellKeyed(r)
    ensures forall e :: e in r ==> (e.1.online || e.1.saved) && e.1 in Values(reg)
  {
    FromPairsEntries(Kept(reg));
    FromPairs(Kept(reg))
  }

  /** A name survives `update_list` exactly when an online or saved bot
      carries it. */
  lemma UpdateListKeys(reg: Registry, k: string)
    ensures HasKey(UpdateList(reg), k)
        <==> exists e :: e in reg && e.1.name == k && (e.1.online || e.1.saved)
  {
    var pairs := Kept(reg);
    FromPairsKeys(pairs, k);
    KeptNames(reg, k);
    if exists e :: e in pairs && e.0 == k {
      var e :| e in pairs && e.0 == k;
      var i :| 0 <= i < |pairs| && pairs[i] == e;
    }
  }

  // ---------------------------------------------------------------------
  // Lookup and creation
  // ---------------------------------------------------------------------

  /** `get_bot`: the bot stored under `name`, or `BotNotExistsException`. */
  function GetBot(reg: Registry, name: string): (r: Result<Bot, BotError>)
    ensures r.Ok? <==> HasKey(reg, name)
    ensures r.Ok? ==> Get(reg, name) == Some(r.value)
    ensures r.Err? ==> r.error == BotNotExists(name)
  {
    match Get(reg, name)
    case Some(b) => Ok(b)
    case None => Err(BotNotExists(name))
  }

  /** `new_bot` with only a name and a location: every other setting takes
      its default. */
  function DefaultBot(name: string, location: Location): Bot
  {
    NewBot(name, location, "", [], [], false, false, false)
  }

  /** `new_bot`: refuses a taken name; otherwise appends exactly one entry and
      leaves the others as they were. */
  function NewBotIn(reg: Registry, b: Bot): (r: Result<Registry, BotError>)
    ensures r.Err? <==> HasKey(reg, b.name)
    ensures r.Err? ==> r.error == BotAlreadyExists(b.name)
    ensures r.Ok? ==> r.value == reg + [(b.name, b)]
  {
    if HasKey(reg, b.name) then Err(BotAlreadyExists(b.name))
    else
      PutAbsent(reg, b.name, b);
      Ok(Put(reg, b.name, b))
  }

  /** Creating a bot keeps the registry well keyed. */
  lemma NewBotWellKeyed(reg: Registry, b: Bot)
    requires WellKeyed(reg)
    ensures NewBotIn(reg, b).Ok? ==> WellKeyed(NewBotIn(reg, b).value)
  {
    if !HasKey(reg, b.name) {
      PutAbsent(reg, b.name, b);
      PutWellKeyed(reg, b);
    }
  }

  // ---------------------------------------------------------------------
  // list
  // ---------------------------------------------------------------------

  /** The listing filter: wanted by online or saved state, and carrying the
      tag when one is given. */
  predicate Shown(b: Bot, online: bool, saved: bool, tag: Option<string>)
  {
    ((online && b.online) || (saved && b.saved)) && (tag.None? || tag.value in b.tags)
  }

  function Filtered(bots: seq<Bot>, online: bool, saved: bool, tag: Option<string>): (r: seq<Bot>)
    ensures |r| <= |bots|
  {
    if |bots| == 0 then []
    else (if Shown(bots[0], online, saved, tag) then [bots[0]] else []) + Filtered(bots[1..], online, saved, tag)
  }

  /** The filter keeps exactly the bots it should. */
  lemma {:induction false} FilteredMembership(bots: seq<Bot>, online: bool, saved: bool, tag: Option<string>, b: Bot)
    ensures b in Filtered(bots, online, saved, tag) <==> b in bots && Shown(b, online, saved, tag)
  {
    if |bots| > 0 {
      FilteredMembership(bots[1..], online, saved, tag, b);
      assert bots == [bots[0]] + bots[1..];
    }
  }

  /** `max(0, ceil(n / 10) - 1)`: the last page index for `n` bots. */
  function MaxIndex(n: nat): (m: nat)
    ensures n == 0 ==> m == 0
    ensures n > 0 ==> 10 * m < n <= 10 * m + 10
  {
    if n == 0 then 0 else (n + 9) / 10 - 1
  }

  function Min(a: int, b: int): int { if a < b then a else b }

  /** `bots[10 * i : 10 * i + 10]` with Python's clamped slicing. */
  function Page(bots: seq<Bot>, i: nat): (p: seq<Bot>)
    ensures |p| <= 10
  {
    bots[Min(10 * i, |bots|)..Min(10 * i + 10, |bots|)]
  }

  /** `list`: an index outside `[0, max_index]` is refused; otherwise the
      page and the last index. */
  function List(reg: Registry, index: int, online: bool, saved: bool, tag: Option<string>): (r: Result<(seq<Bot>, nat), BotError>)
    ensures var bots := Filtered(Values(reg), online, saved, tag);
      && (r.Err? <==> !(0 <= index <= MaxIndex(|bots|)))
      && (r.Err? ==> r.error == IllegalListIndex(index))
      && (r.Ok? ==> |r.value.0| <= 10 && r.value.1 == MaxIndex(|bots|))
      && (r.Ok? ==> forall b :: b in r.value.0 ==> b in bots)
  {
    var bots := Filtered(Values(reg), online, saved, tag);
    var maxIndex := MaxIndex(|bots|);
    if !(0 <= index <= maxIndex) then Err(IllegalListIndex(index))
    else Ok((Page(bots, index), maxIndex))
  }

  /** Page 0 always exists, even with nothing to list. */
  lemma ListFirstPage(reg: Registry, online: bool, saved: bool, tag: Option<string>)
    ensures List(reg, 0, online, saved, tag).Ok?
  {
  }

  /** The first `k` pages, concatenated. */
  function Pages(bots: seq<Bot>, k: nat): seq<Bot>
  {
    if k == 0 then [] else Pages(bots, k - 1) + Page(bots, k - 1)
  }

  lemma {:induction false} PagesPrefix(bots: seq<Bot>, k: nat)
    ensures Pages(bots, k) == bots[..Min(10 * k, |bots|)]
  {
    if k > 0 {
      PagesPrefix(bots, k - 1);
      var a := Min(10 * (k - 1), |bots|);
      var c := Min(10 * k, |bots|);
      assert bots[..c] == bots[..a] + bots[a..c];
    }
  }

  /** The pages `0 ..= max_index`, concatenated, give back the whole
      filtered list: nothing is lost between pages and nothing repeats. */
  lemma ListPagesCover(reg: Registry, online: bool, saved: bool, tag: Option<string>)
    ensures var bots := Filtered(Values(reg), online, saved, tag);
      (forall i: nat :: i <= MaxIndex(|bots|) ==> List(reg, i, online, saved, tag) == Ok((Page(bots, i), MaxIndex(|bots|))))
      && Pages(bots, MaxIndex(|bots|) + 1) == bots
  {
    var bots := Filtered(Values(reg), online, saved, tag);
    PagesPrefix(bots, MaxIndex(|bots|) + 1);
  }

  // ---------------------------------------------------------------------
  // spawn, kill, action
  // ---------------------------------------------------------------------

  /** `spawn`: a known bot is spawned unless online; an unknown name is
      created at the calling player's location (`whereIs`), and refused with
      `BotNotSavedException` when there is no player. */
  function Spawn(reg: Registry, name: string, player: Option<string>, whereIs: string -> Location): (r: Step<Bot>)
    ensures r.result.Err? && r.result.error.BotNotSaved? <==> !HasKey(reg, name) && player.None?
    ensures r.result.Err? && r.result.error.BotOnline? <==> HasKey(reg, name) && Get(reg, name).value.online
    ensures r.result.Err? ==> r.reg == reg && r.cmds == []
    ensures r.result.Ok? ==> Get(r.reg, name) == Some(r.result.value) && !r.result.value.online
    ensures r.result.Ok? ==> r.cmds == [SpawnAt(r.result.value.name, r.result.value.location)]
    ensures HasKey(reg, name) ==> r.reg == reg
    ensures !HasKey(reg, name) && player.Some? ==> r.reg == reg + [(name, DefaultBot(name, whereIs(player.value)))]
  {
    if HasKey(reg, name) then
      var b := Get(reg, name).value;
      match Bots.Spawn(b)
      case Ok(cmd) => Step(reg, Ok(b), [cmd])
      case Err(e) => Step(reg, Err(BotOnline(name)), [])
    else if player.Some? then
      var b := DefaultBot(name, whereIs(player.value));
      PutAbsent(reg, name, b);
      Step(Put(reg, name, b), Ok(b), [SpawnAt(b.name, b.location)])
    else Step(reg, Err(BotNotSaved(name)), [])
  }

  /** `kill`: refuses an unknown or offline bot; otherwise kills it and runs
      `update_list`. */
  function Kill(reg: Registry, name: string, whereIs: string -> Location): (r: Step<Bot>)
    ensures r.result.Err? <==> !HasKey(reg, name) || !Get(reg, name).value.online
    ensures !HasKey(reg, name) ==> r.result == Err(BotNotExists(name))
    ensures HasKey(reg, name) && !Get(reg, name).value.online ==> r.result == Err(BotOffline(name))
    ensures r.result.Err? ==> r.reg == reg && r.cmds == []
    ensures r.result.Ok? ==> Bots.Kill(Get(reg, name).value, whereIs) == Ok((r.result.value, r.cmds))
    ensures r.result.Ok? ==> r.reg == UpdateList(Put(reg, name, r.result.value))
  {
    if !HasKey(reg, name) then Step(reg, Err(BotNotExists(name)), [])
    else
      var b := Get(reg, name).value;
      match Bots.Kill(b, whereIs)
      case Err(_) => Step(reg, Err(BotOffline(name)), [])
      case Ok((killed, cmds)) => Step(UpdateList(Put(reg, name, killed)), Ok(killed), cmds)
  }

  /** In a well-keyed registry, killing a bot that is not saved drops it. */
  lemma KillUnsavedDisappears(reg: Registry, name: string, whereIs: string -> Location)
    requires WellKeyed(reg)
    requires HasKey(reg, name) && !Get(reg, name).value.saved
    ensures Kill(reg, name, whereIs).result.Ok? ==> !HasKey(Kill(reg, name, whereIs).reg, name)
  {
    var r := Kill(reg, name, whereIs);
    if r.result.Ok? {
      var killed := r.result.value;
      UpdateListGone(reg, name, killed);
    }
  }

  /** Replacing the bot under `name` by one that is neither online nor saved
      removes `name` from the next `update_list`. */
  lemma UpdateListGone(reg: Registry, name: string, gone: Bot)
    requires WellKeyed(reg) && HasKey(reg, name)
    requires !gone.online && !gone.saved
    ensures !HasKey(UpdateList(Put(reg, name, gone)), name)
  {
    var d := Put(reg, name, gone);
    PutUnique(reg, name, gone);
    PutEntries(reg, name, gone);
    UpdateListKeys(d, name);
    if exists e :: e in d && e.1.name == name && (e.1.online || e.1.saved) {
      var e :| e in d && e.1.name == name && (e.1.online || e.1.saved);
      assert e in reg;
      GetEntry(d, e);
      assert false;
    }
  }

  /** `action`: refuses an unknown or offline bot, then runs its actions. */
  function Action(reg: Registry, name: string, index: Option<int>): (r: Result<seq<Cmd>, BotError>)
    ensures !HasKey(reg, name) ==> r == Err(BotNotExists(name))
    ensures HasKey(reg, name) && !Get(reg, name).value.online ==> r == Err(BotOffline(name))
    ensures HasKey(reg, name) && Get(reg, name).value.online ==> r == RunActions(Get(reg, name).value, index)
  {
    if !HasKey(reg, name) then Err(BotNotExists(name))
    else
      var b := Get(reg, name).value;
      if b.online then RunActions(b, index) else Err(BotOffline(name))
  }

  // ---------------------------------------------------------------------
  // save, delete
  // ---------------------------------------------------------------------

  /** The common tail of `save`: mark the bot saved, or refuse when it
      already is. */
  function MarkSaved(reg: Registry, name: string, b: Bot): (r: Step<Bot>)
  {
    if !b.saved then
      var saved := Apply(b, SetSaved(true));
      Step(Put(reg, name, saved), Ok(saved), [SaveData])
    else Step(reg, Err(BotAlreadySaved(name)), [])
  }

  /** `save(name, player, location)`. Without a location, a known bot is
      saved as it is, an unknown one is created at the player's location, and
      with neither the name is refused. With a location, a `None` dimension
      is refused first; then a known bot is moved there (even if it turns out
      to be saved already) and an unknown one is created there. */
  function Save(reg: Registry, name: string, player: Option<string>, location: Option<Location>,
                whereIs: string -> Location): (r: Step<Bot>)
    ensures (r.result.Err? && r.result.error.IllegalDimension?) <==> location.Some? && location.value.dimension.None?
    ensures (r.result.Err? && r.result.error.BotNotExists?) <==> location.None? && !HasKey(reg, name) && player.None?
    ensures (r.result.Err? && r.result.error.BotAlreadySaved?)
        <==> !(location.Some? && location.value.dimension.None?) && HasKey(reg, name) && Get(reg, name).value.saved
    ensures r.result.Err? ==> r.cmds == []
    ensures r.result.Err? && location.None? ==> r.reg == reg
    ensures r.result.Err? && r.result.error.BotAlreadySaved? && location.Some?
        ==> r.reg == Put(reg, name, Get(reg, name).value.(location := location.value))
    ensures r.result.Ok? ==> Get(r.reg, name) == Some(r.result.value) && r.result.value.saved && r.cmds == [SaveData]
    ensures r.result.Ok? && location.Some? ==> r.result.value.location == location.value
    ensures forall k :: k != name ==> Get(r.reg, k) == Get(reg, k)
  {
    if location.None? then
      if HasKey(reg, name) then
        var b := Get(reg, name).value;
        PutGetOthers(reg, name, b.(saved := true));
        MarkSaved(reg, name, b)
      else if player.Some? then
        var b := DefaultBot(name, whereIs(player.value));
        SaveNewOthers(reg, name, b);
        MarkSaved(Put(reg, name, b), name, b)
      else Step(reg, Err(BotNotExists(name)), [])
    else if location.value.dimension.None? then
      Step(reg, Err(IllegalDimension("None")), [])
    else if HasKey(reg, name) then
      var b := Apply(Get(reg, name).value, SetLocation(location.value));
      SaveNewOthers(reg, name, b);
      MarkSaved(Put(reg, name, b), name, b)
    else
      var b := DefaultBot(name, location.value);
      SaveNewOthers(reg, name, b);
      MarkSaved(Put(reg, name, b), name, b)
  }

  /** Storing under `name` leaves every other key's bot alone. */
  lemma PutGetOthers(reg: Registry, name: string, b: Bot)
    ensures forall k :: k != name ==> Get(Put(reg, name, b), k) == Get(reg, k)
  {
    forall k | k != name
      ensures Get(Put(reg, name, b), k) == Get(reg, k)
    {
      GetPutOther(reg, name, b, k);
    }
  }

  /** Storing a bot and then its saved copy under `name` leaves every other
      key's bot alone. */
  lemma SaveNewOthers(reg: Registry, name: string, b: Bot)
    ensures forall k :: k != name ==> Get(Put(reg, name, b), k) == Get(reg, k)
    ensures forall k :: k != name ==> Get(Put(Put(reg, name, b), name, b.(saved := true)), k) == Get(reg, k)
  {
    PutGetOthers(reg, name, b);
    PutGetOthers(Put(reg, name, b), name, b.(saved := true));
  }

  /** `delete`: refuses an unknown or unsaved bot; otherwise unmarks it,
      runs `update_list` and saves. */
  function Delete(reg: Registry, name: string): (r: Step<Bot>)
    ensures (r.result.Err? && r.result.error.BotNotExists?) <==> !HasKey(reg, name)
    ensures (r.result.Err? && r.result.error.BotNotSaved?) <==> HasKey(reg, name) && !Get(reg, name).value.saved
    ensures r.result.Err? ==> r.reg == reg && r.cmds == []
    ensures r.result.Ok? ==> r.result.value == Get(reg, name).value.(saved := false)
    ensures r.result.Ok? ==> r.reg == UpdateList(Put(reg, name, r.result.value)) && r.cmds == [SaveData]
  {
    if !HasKey(reg, name) then Step(reg, Err(BotNotExists(name)), [])
    else
      var b := Get(reg, name).value;
      if b.saved then
        var unsaved := Apply(b, SetSaved(false));
        Step(UpdateList(Put(reg, name, unsaved)), Ok(unsaved), [SaveData])
      else Step(reg, Err(BotNotSaved(name)), [])
  }

  /** Replacing the bot under `name` by one with that name that is online
      or saved keeps `name` through the next `update_list`. */
  lemma UpdateListStays(reg: Registry, name: string, b: Bot)
    requires b.name == name && (b.online || b.saved)
    ensures HasKey(UpdateList(Put(reg, name, b)), name)
  {
    var d := Put(reg, name, b);
    GetIn(d, name);
    UpdateListKeys(d, name);
  }

  /** In a well-keyed registry, deleting an offline bot drops it, while an
      online one stays listed. */
  lemma DeleteOffline(reg: Registry, name: string)
    requires WellKeyed(reg) && HasKey(reg, name)
    ensures var r := Delete(reg, name);
      r.result.Ok? ==> (HasKey(r.reg, name) <==> Get(reg, name).value.online)
  {
    var r := Delete(reg, name);
    if r.result.Ok? {
      var b := r.result.value;
      GetIn(reg, name);
      if b.online {
        UpdateListStays(reg, name, b);
      } else {
        UpdateListGone(reg, name, b);
      }
    }
  }
}
