/** The decision logic of the bot plugin's chat commands
    (src/bot/bot/command_handler.py) and of its plugin object
    (src/bot/bot/plugin.py): name normalisation, the tag set, the bounded
    edits of the action and tag lists, comment quoting, tag-wide spawn and
    kill, the dimension lookups and the permission defaults. Replies are
    rich text and are not modelled; only state, errors and server commands
    are. */
module BotCommands {
  import opened Basics
  import opened Dicts
  import opened Bots
  import opened BotManager
  import Dimensions

  // ---------------------------------------------------------------------
  // Names
  // ---------------------------------------------------------------------

  /** Prepend `prefix` unless already there. */
  function AddPrefix(n: string, prefix: string): (r: string)
    ensures StartsWith(r, prefix)
  {
    if StartsWith(n, prefix) then n else prefix + n
  }

  /** Append `suffix` unless already there. */
  function AddSuffix(n: string, suffix: string): (r: string)
    ensures EndsWith(r, suffix)
  {
    if EndsWith(n, suffix) then n
    else
      assert (n + suffix)[|n + suffix| - |suffix|..] == suffix;
      n + suffix
  }

  /** Appending keeps a prefix. */
  lemma StartsWithAppend(n: string, prefix: string, more: string)
    ensures StartsWith(n, prefix) ==> StartsWith(n + more, prefix)
  {
    if StartsWith(n, prefix) {
      assert (n + more)[..|prefix|] == n[..|prefix|];
    }
  }

  /** `parse_name`: lower-case first, then add the configured prefix and
      suffix where missing. The result always carries both. */
  function ParseName(name: string, prefix: string, suffix: string): (r: string)
    ensures StartsWith(r, prefix) && EndsWith(r, suffix)
  {
    var p := AddPrefix(Lower(name), prefix);
    StartsWithAppend(p, prefix, suffix);
    AddSuffix(p, suffix)
  }

  /** Adding lower-case affixes to a lower-case name keeps it lower-case. */
  lemma AffixesKeepLower(n: string, prefix: string, suffix: string)
    requires IsLowerString(n) && IsLowerString(prefix) && IsLowerString(suffix)
    ensures IsLowerString(AddPrefix(n, prefix))
    ensures IsLowerString(AddSuffix(n, suffix))
  {
    var p := AddPrefix(n, prefix);
    forall i | 0 <= i < |p|
      ensures !IsUpper(p[i])
    {
      if p != n && i >= |prefix| { assert p[i] == n[i - |prefix|]; }
    }
    var q := AddSuffix(n, suffix);
    forall i | 0 <= i < |q|
      ensures !IsUpper(q[i])
    {
      if q != n && i >= |n| { assert q[i] == suffix[i - |n|]; }
    }
  }

  /** With lower-case affixes the normalised name is lower-case. */
  lemma ParseNameLower(name: string, prefix: string, suffix: string)
    requires IsLowerString(prefix) && IsLowerString(suffix)
    ensures IsLowerString(ParseName(name, prefix, suffix))
  {
    LowerIsLower(name);
    var p := AddPrefix(Lower(name), prefix);
    AffixesKeepLower(Lower(name), prefix, suffix);
    AffixesKeepLower(p, prefix, suffix);
  }

  /** A name already normalised is left alone when the prefix and suffix
      are lower-case; the case of the input never matters. */
  lemma ParseNameIdempotent(name: string, prefix: string, suffix: string)
    requires IsLowerString(prefix) && IsLowerString(suffix)
    ensures ParseName(ParseName(name, prefix, suffix), prefix, suffix) == ParseName(name, prefix, suffix)
    ensures ParseName(Lower(name), prefix, suffix) == ParseName(name, prefix, suffix)
  {
    var r := ParseName(name, prefix, suffix);
    ParseNameLower(name, prefix, suffix);
    LowerIsLower(r);
    assert AddPrefix(Lower(r), prefix) == r;
    LowerIsLower(name);
    LowerIsLower(Lower(name));
  }

  // ---------------------------------------------------------------------
  // Tags
  // ---------------------------------------------------------------------

  /** `tag_list`: every tag any bot carries. */
  function TagList(reg: Registry): (tags: set<string>)
    ensures forall t :: t in tags <==> exists i :: 0 <= i < |reg| && t in reg[i].1.tags
  {
    if |reg| == 0 then {}
    else
      var rest := TagList(reg[1..]);
      assert forall t :: t in rest <==> exists i :: 1 <= i < |reg| && t in reg[i].1.tags by {
        forall t
          ensures t in rest <==> exists i :: 1 <= i < |reg| && t in reg[i].1.tags
        {
          if t in rest {
            var j :| 0 <= j < |reg[1..]| && t in reg[1..][j].1.tags;
            assert reg[j + 1] == reg[1..][j];
          }
          if exists i :: 1 <= i < |reg| && t in reg[i].1.tags {
            var i :| 1 <= i < |reg| && t in reg[i].1.tags;
            assert reg[1..][i - 1] == reg[i];
          }
        }
      }
      (set t | t in reg[0].1.tags) + rest
  }

  /** The bots a tag-wide command acts on: those carrying `tag` and in the
      given online state, in registry order. */
  function Tagged(bots: seq<Bot>, tag: string, online: bool): (r: seq<Bot>)
    ensures |r| <= |bots|
    decreases |bots|
  {
    if |bots| == 0 then []
    else
      var last := bots[|bots| - 1];
      var init := Tagged(bots[..|bots| - 1], tag, online);
      init + (if tag in last.tags && last.online == online then [last] else [])
  }

  /** A tag-wide command acts only on registered bots that carry the tag
      and are in the given state. */
  lemma {:induction false} TaggedMembers(bots: seq<Bot>, tag: string, online: bool)
    ensures forall b :: b in Tagged(bots, tag, online) ==> b in bots && tag in b.tags && b.online == online
    decreases |bots|
  {
    if |bots| > 0 {
      TaggedMembers(bots[..|bots| - 1], tag, online);
      assert forall b :: b in bots[..|bots| - 1] ==> b in bots;
    }
  }

  /** One more bot considered by a tag-wide command. */
  lemma TaggedSnoc(bots: seq<Bot>, i: int, tag: string, online: bool)
    requires 0 <= i < |bots|
    ensures Tagged(bots[..i + 1], tag, online)
         == Tagged(bots[..i], tag, online) + (if tag in bots[i].tags && bots[i].online == online then [bots[i]] else [])
  {
    assert bots[..i + 1][..i] == bots[..i];
  }

  /** The spawn commands for a list of bots, in order. */
  function SpawnCmds(bots: seq<Bot>): (cmds: seq<Cmd>)
    ensures |cmds| == |bots|
    ensures forall i :: 0 <= i < |bots| ==> cmds[i] == SpawnAt(bots[i].name, bots[i].location)
  {
    if |bots| == 0 then [] else [SpawnAt(bots[0].name, bots[0].location)] + SpawnCmds(bots[1..])
  }

  lemma SpawnCmdsSnoc(bots: seq<Bot>, b: Bot)
    ensures SpawnCmds(bots + [b]) == SpawnCmds(bots) + [SpawnAt(b.name, b.location)]
  {
    var l := SpawnCmds(bots + [b]);
    var r := SpawnCmds(bots) + [SpawnAt(b.name, b.location)];
    assert forall i :: 0 <= i < |l| ==> l[i] == r[i];
  }

  /** `tag spawn <tag>`: an unknown tag is refused; otherwise every offline
      bot with the tag is spawned, and the count is how many. */
  method TagSpawn(reg: Registry, tag: string) returns (r: Result<(nat, seq<Cmd>), BotError>)
    ensures r.Err? <==> tag !in TagList(reg)
    ensures r.Err? ==> r.error == TagNotExists(tag)
    ensures r.Ok? ==> r.value.0 == |Tagged(Values(reg), tag, false)|
    ensures r.Ok? ==> r.value.1 == SpawnCmds(Tagged(Values(reg), tag, false))
  {
    if tag !in TagList(reg) {
      return Err(TagNotExists(tag));
    }
    var counter, cmds := SpawnTagged(Values(reg), tag);
    return Ok((counter, cmds));
  }

  /** The loop of `tag spawn`: each offline bot with the tag is spawned, in
      order, and counted. */
  method SpawnTagged(bots: seq<Bot>, tag: string) returns (counter: nat, cmds: seq<Cmd>)
    ensures counter == |Tagged(bots, tag, false)|
    ensures cmds == SpawnCmds(Tagged(bots, tag, false))
  {
    counter := 0;
    cmds := [];
    var i := 0;
    while i < |bots|
      invariant 0 <= i <= |bots|
      invariant counter == |Tagged(bots[..i], tag, false)|
      invariant cmds == SpawnCmds(Tagged(bots[..i], tag, false))
    {
      var b := bots[i];
      TaggedSnoc(bots, i, tag, false);
      if tag in b.tags && !b.online {
        SpawnCmdsSnoc(Tagged(bots[..i], tag, false), b);
        cmds := cmds + [Bots.Spawn(b).value];
        counter := counter + 1;
      }
      i := i + 1;
    }
    assert bots[..i] == bots;
  }

  /** What `tag kill` does to one registry entry: a tagged online bot is
      killed in place under the same key; any other entry is left alone. */
  predicate TagKilled(before: (string, Bot), after: (string, Bot), tag: string, whereIs: string -> Location)
  {
    if tag in before.1.tags && before.1.online
    then after.0 == before.0 && after.1 == Bots.Kill(before.1, whereIs).value.0
    else after == before
  }

  /** One registry entry after `tag kill`. */
  function KillEntry(e: (string, Bot), tag: string, whereIs: string -> Location): (r: (string, Bot))
    ensures TagKilled(e, r, tag, whereIs)
  {
    if tag in e.1.tags && e.1.online then (e.0, Bots.Kill(e.1, whereIs).value.0) else e
  }

  /** The commands `kill` sends for one bot; an offline bot sends none. */
  function KillSent(b: Bot, whereIs: string -> Location): seq<Cmd>
  {
    if b.online then Bots.Kill(b, whereIs).value.1 else []
  }

  /** The kill commands for a list of bots, in order: each online bot's
      player is killed, after a save when it follows its player. */
  function KillCmds(bots: seq<Bot>, whereIs: string -> Location): seq<Cmd>
  {
    if |bots| == 0 then [] else KillSent(bots[0], whereIs) + KillCmds(bots[1..], whereIs)
  }

  /** Every online bot's player is killed; with no bot following its
      player that is one command per bot, and offline bots send nothing. */
  lemma {:induction false} KillCmdsKillsEach(bots: seq<Bot>, whereIs: string -> Location)
    ensures forall i :: 0 <= i < |bots| && bots[i].online ==> KillPlayer(bots[i].mcName) in KillCmds(bots, whereIs)
    ensures (forall i :: 0 <= i < |bots| ==> bots[i].online && !bots[i].autoUpdate) ==> |KillCmds(bots, whereIs)| == |bots|
    ensures (forall i :: 0 <= i < |bots| ==> !bots[i].online) ==> KillCmds(bots, whereIs) == []
  {
    if |bots| > 0 {
      KillCmdsKillsEach(bots[1..], whereIs);
      var rest := KillCmds(bots[1..], whereIs);
      assert KillCmds(bots, whereIs) == KillSent(bots[0], whereIs) + rest;
      forall i | 0 <= i < |bots| && bots[i].online
        ensures KillPlayer(bots[i].mcName) in KillCmds(bots, whereIs)
      {
        if i > 0 {
          assert bots[1..][i - 1] == bots[i];
        }
      }
      if forall i :: 0 <= i < |bots| ==> bots[i].online && !bots[i].autoUpdate {
        assert forall j :: 0 <= j < |bots[1..]| ==> bots[1..][j] == bots[j + 1];
      }
      if forall i :: 0 <= i < |bots| ==> !bots[i].online {
        assert forall j :: 0 <= j < |bots[1..]| ==> bots[1..][j] == bots[j + 1];
      }
    }
  }

  lemma KillCmdsSnoc(bots: seq<Bot>, b: Bot, whereIs: string -> Location)
    ensures KillCmds(bots + [b], whereIs) == KillCmds(bots, whereIs) + KillSent(b, whereIs)
  {
    if |bots| > 0 {
      assert (bots + [b])[1..] == bots[1..] + [b];
      KillCmdsSnoc(bots[1..], b, whereIs);
    } else {
      assert [b][1..] == [];
    }
  }

  /** `tag kill <tag>`: an unknown tag is refused; otherwise every online bot
      with the tag is killed in place (no `update_list`), and the count is
      how many. Keys, order and the other bots stay as they were. */
  method TagKill(reg: Registry, tag: string, whereIs: string -> Location)
    returns (r: Result<(Registry, nat, seq<Cmd>), BotError>)
    ensures r.Err? <==> tag !in TagList(reg)
    ensures r.Err? ==> r.error == TagNotExists(tag)
    ensures r.Ok? ==> r.value.1 == |Tagged(Values(reg), tag, true)|
    ensures r.Ok? ==> |r.value.0| == |reg|
    ensures r.Ok? ==> forall i :: 0 <= i < |reg| ==> TagKilled(reg[i], r.value.0[i], tag, whereIs)
    ensures r.Ok? ==> r.value.2 == KillCmds(Tagged(Values(reg), tag, true), whereIs)
  {
    if tag !in TagList(reg) {
      return Err(TagNotExists(tag));
    }
    var out, counter, cmds := KillTagged(reg, tag, whereIs);
    return Ok((out, counter, cmds));
  }

  /** The loop of `tag kill`: each online bot with the tag is killed in
      place, in order, and counted. */
  method KillTagged(reg: Registry, tag: string, whereIs: string -> Location)
    returns (out: Registry, counter: nat, cmds: seq<Cmd>)
    ensures counter == |Tagged(Values(reg), tag, true)|
    ensures |out| == |reg|
    ensures forall i :: 0 <= i < |reg| ==> TagKilled(reg[i], out[i], tag, whereIs)
    ensures cmds == KillCmds(Tagged(Values(reg), tag, true), whereIs)
  {
    out := KillEntries(reg, tag, whereIs);
    counter, cmds := KillTaggedCmds(Values(reg), tag, whereIs);
  }

  /** The registry side of the `tag kill` loop: each entry as `KillEntry`
      leaves it. */
  method KillEntries(reg: Registry, tag: string, whereIs: string -> Location) returns (out: Registry)
    ensures |out| == |reg|
    ensures forall i :: 0 <= i < |reg| ==> TagKilled(reg[i], out[i], tag, whereIs)
  {
    out := reg;
    var i := 0;
    while i < |reg|
      invariant 0 <= i <= |reg|
      invariant |out| == |reg|
      invariant forall j :: i <= j < |reg| ==> out[j] == reg[j]
      invariant forall j :: 0 <= j < i ==> TagKilled(reg[j], out[j], tag, whereIs)
    {
      out := out[i := KillEntry(reg[i], tag, whereIs)];
      i := i + 1;
    }
  }

  /** The command side of the `tag kill` loop: each online bot with the tag
      sends its kill commands, in order, and is counted. */
  method KillTaggedCmds(bots: seq<Bot>, tag: string, whereIs: string -> Location) returns (counter: nat, cmds: seq<Cmd>)
    ensures counter == |Tagged(bots, tag, true)|
    ensures cmds == KillCmds(Tagged(bots, tag, true), whereIs)
  {
    counter := 0;
    cmds := [];
    var i := 0;
    while i < |bots|
      invariant 0 <= i <= |bots|
      invariant counter == |Tagged(bots[..i], tag, true)|
      invariant cmds == KillCmds(Tagged(bots[..i], tag, true), whereIs)
    {
      var b := bots[i];
      TaggedSnoc(bots, i, tag, true);
      if tag in b.tags && b.online {
        assert Tagged(bots[..i + 1], tag, true) == Tagged(bots[..i], tag, true) + [b];
        KillCmdsSnoc(Tagged(bots[..i], tag, true), b, whereIs);
        cmds := cmds + KillSent(b, whereIs);
        counter := counter + 1;
      } else {
        assert Tagged(bots[..i + 1], tag, true) == Tagged(bots[..i], tag, true);
      }
      i := i + 1;
    }
    assert bots[..i] == bots;
  }

  /** After `tag kill` no bot carrying the tag is online, and every key is
      where it was. */
  lemma TagKillLeavesTagOffline(before: (string, Bot), after: (string, Bot), tag: string, whereIs: string -> Location)
    requires TagKilled(before, after, tag, whereIs)
    ensures after.0 == before.0
    ensures tag in before.1.tags ==> !after.1.online
  {
  }

  // ---------------------------------------------------------------------
  // Bounded list edits
  // ---------------------------------------------------------------------

  /** One of the `actions`/`tags` sub-commands. */
  datatype ListEdit =
    | Append(item: string)
    | Insert(index: int, item: string)
    | Remove(index: int)
    | Edit(index: int, item: string)
    | Clear

  /** The edit itself: insert accepts `0 <= index <= len`, delete and edit
      accept `0 <= index < len`; a rejected index is returned unchanged. */
  function ApplyEdit(xs: seq<string>, e: ListEdit): (r: Result<seq<string>, int>)
    ensures r.Err? <==> (e.Insert? && !(0 <= e.index <= |xs|)) || ((e.Remove? || e.Edit?) && !(0 <= e.index < |xs|))
    ensures r.Err? ==> r.error == e.index
    ensures r.Ok? && e.Append? ==> |r.value| == |xs| + 1 && r.value[..|xs|] == xs && r.value[|xs|] == e.item
    ensures r.Ok? && e.Insert? ==>
      |r.value| == |xs| + 1 && r.value[e.index] == e.item
      && r.value[..e.index] == xs[..e.index] && r.value[e.index + 1..] == xs[e.index..]
    ensures r.Ok? && e.Remove? ==>
      |r.value| == |xs| - 1
      && r.value[..e.index] == xs[..e.index] && r.value[e.index..] == xs[e.index + 1..]
    ensures r.Ok? && e.Edit? ==>
      |r.value| == |xs| && r.value[e.index] == e.item
      && forall j :: 0 <= j < |xs| && j != e.index ==> r.value[j] == xs[j]
    ensures e.Clear? ==> r == Ok([])
  {
    match e
    case Append(x) => Ok(xs + [x])
    case Insert(i, x) =>
      if 0 <= i <= |xs| then
        var r := xs[..i] + [x] + xs[i..];
        assert r[i + 1..] == xs[i..];
        Ok(r)
      else Err(i)
    case Remove(i) =>
      if 0 <= i < |xs| then
        var r := xs[..i] + xs[i + 1..];
        assert r[i..] == xs[i + 1..];
        Ok(r)
      else Err(i)
    case Edit(i, x) => if 0 <= i < |xs| then Ok(xs[i := x]) else Err(i)
    case Clear => Ok([])
  }

  /** Deleting what was just inserted gives the list back, and so does
      writing an element over itself. */
  lemma EditInverses(xs: seq<string>, i: int, x: string)
    ensures 0 <= i <= |xs| ==> ApplyEdit(ApplyEdit(xs, Insert(i, x)).value, Remove(i)) == Ok(xs)
    ensures 0 <= i < |xs| ==> ApplyEdit(xs, Edit(i, xs[i])) == Ok(xs)
  {
    if 0 <= i <= |xs| {
      var ys := ApplyEdit(xs, Insert(i, x)).value;
      var zs := ApplyEdit(ys, Remove(i)).value;
      assert zs == zs[..i] + zs[i..];
      assert xs == xs[..i] + xs[i..];
    }
    if 0 <= i < |xs| {
      assert xs[i := xs[i]] == xs;
    }
  }

  /** An insert or append adds exactly the new item. */
  lemma InsertContents(xs: seq<string>, i: int, x: string)
    requires 0 <= i <= |xs|
    ensures multiset(ApplyEdit(xs, Insert(i, x)).value) == multiset(xs) + multiset{x}
    ensures multiset(ApplyEdit(xs, Append(x)).value) == multiset(xs) + multiset{x}
  {
    var r := ApplyEdit(xs, Insert(i, x)).value;
    assert r == xs[..i] + [x] + xs[i..];
    assert xs == xs[..i] + xs[i..];
  }

  /** A delete takes exactly the element at the index. */
  lemma RemoveContents(xs: seq<string>, i: int)
    requires 0 <= i < |xs|
    ensures multiset(ApplyEdit(xs, Remove(i)).value) + multiset{xs[i]} == multiset(xs)
  {
    var r := ApplyEdit(xs, Remove(i)).value;
    assert r == xs[..i] + xs[i + 1..];
    assert xs == xs[..i] + [xs[i]] + xs[i + 1..];
  }

  /** An edit swaps the element at the index for the item. */
  lemma EditContents(xs: seq<string>, i: int, x: string)
    requires 0 <= i < |xs|
    ensures multiset(ApplyEdit(xs, Edit(i, x)).value) + multiset{xs[i]} == multiset(xs) + multiset{x}
  {
    var r := ApplyEdit(xs, Edit(i, x)).value;
    assert r == xs[..i] + [x] + xs[i + 1..];
    assert xs == xs[..i] + [xs[i]] + xs[i + 1..];
  }

  /** Which list of a bot a `config` sub-command edits. */
  datatype BotList = Actions | Tags

  /** `config <name> actions|tags ...`: an unknown bot or a rejected index
      is refused and nothing changes; otherwise the list is replaced, the
      other fields are untouched, and the data is saved. */
  function ConfigList(reg: Registry, config: Config, rawName: string, which: BotList, e: ListEdit): (r: Step<Bot>)
    ensures var name := ParseName(rawName, config.namePrefix, config.nameSuffix);
      && (!HasKey(reg, name) ==> r.result == Err(BotNotExists(name)))
      && (r.result.Err? ==> r.reg == reg && r.cmds == [])
      && (HasKey(reg, name) ==>
            var b := Get(reg, name).value;
            var xs := if which == Actions then b.actions else b.tags;
            match ApplyEdit(xs, e)
            case Err(i) => r.result == Err(if which == Actions then IllegalActionIndex(i) else IllegalTagIndex(i))
            case Ok(ys) =>
              && r.result == Ok(Apply(b, if which == Actions then SetActions(ys) else SetTags(ys)))
              && r.reg == Put(reg, name, r.result.value)
              && r.cmds == [SaveData])
  {
    var name := ParseName(rawName, config.namePrefix, config.nameSuffix);
    match GetBot(reg, name)
    case Err(err) => Step(reg, Err(err), [])
    case Ok(b) =>
      var xs := if which == Actions then b.actions else b.tags;
      match ApplyEdit(xs, e)
      case Err(i) => Step(reg, Err(if which == Actions then IllegalActionIndex(i) else IllegalTagIndex(i)), [])
      case Ok(ys) =>
        var b' := Apply(b, if which == Actions then SetActions(ys) else SetTags(ys));
        Step(Put(reg, name, b'), Ok(b'), [SaveData])
  }

  // ---------------------------------------------------------------------
  // Comment, name and dimension settings
  // ---------------------------------------------------------------------

  /** A comment typed in quotes loses one quote at each end, so a lone `"`
      becomes empty (`comment[1:-1]`); any other comment is kept as is. */
  function StripComment(c: string): (r: string)
    ensures StartsWith(c, "\"") && EndsWith(c, "\"") && |c| >= 2 ==> "\"" + r + "\"" == c
    ensures !(StartsWith(c, "\"") && EndsWith(c, "\"")) ==> r == c
    ensures |r| <= |c|
  {
    if StartsWith(c, "\"") && EndsWith(c, "\"") then
      if |c| >= 2 then
        Requoted(c);
        c[1..|c| - 1]
      else ""
    else c
  }

  /** A lone quote is both the opening and the closing one, so nothing is
      left of it. */
  lemma LoneQuoteStripped()
    ensures StripComment("\"") == ""
  {
  }

  /** A quoted comment is its inside between two quotes. */
  lemma Requoted(c: string)
    requires |c| >= 2 && StartsWith(c, "\"") && EndsWith(c, "\"")
    ensures "\"" + c[1..|c| - 1] + "\"" == c
  {
    assert c[..1] == "\"" && c[|c| - 1..] == "\"";
    assert c == c[..1] + c[1..|c| - 1] + c[|c| - 1..];
  }

  /** `config <name> comment <comment>` */
  function ConfigComment(reg: Registry, config: Config, rawName: string, comment: string): (r: Step<Bot>)
    ensures var name := ParseName(rawName, config.namePrefix, config.nameSuffix);
      && (r.result.Err? <==> !HasKey(reg, name))
      && (r.result.Err? ==> r.reg == reg && r.cmds == [])
      && (r.result.Ok? ==>
            r.result.value == Get(reg, name).value.(comment := StripComment(comment))
            && r.reg == Put(reg, name, r.result.value) && r.cmds == [SaveData])
  {
    var name := ParseName(rawName, config.namePrefix, config.nameSuffix);
    match GetBot(reg, name)
    case Err(err) => Step(reg, Err(err), [])
    case Ok(b) =>
      var b' := Apply(b, SetComment(StripComment(comment)));
      Step(Put(reg, name, b'), Ok(b'), [SaveData])
  }

  /** The plain `config` sub-commands: each sets one value on the bot. */
  datatype FieldEdit =
    | Position(position: seq<real>)
    | Facing(facing: seq<real>)
    | AutoLogin(autoLogin: bool)
    | AutoRunActions(autoRunActions: bool)
    | AutoUpdate(autoUpdate: bool)

  /** The bot after the setter a sub-command calls; position and facing
      replace one part of the bot's current location. */
  function SetField(b: Bot, f: FieldEdit): Bot
  {
    match f
    case Position(p) => b.(location := b.location.(position := p))
    case Facing(v) => b.(location := b.location.(facing := v))
    case AutoLogin(v) => b.(autoLogin := v)
    case AutoRunActions(v) => b.(autoRunActions := v)
    case AutoUpdate(v) => b.(autoUpdate := v)
  }

  /** `config <name> position|facing|autoLogin|autoRunActions|autoUpdate`:
      an unknown bot is refused; otherwise exactly the chosen value changes
      and the data is saved. */
  function ConfigField(reg: Registry, config: Config, rawName: string, f: FieldEdit): (r: Step<Bot>)
    ensures var name := ParseName(rawName, config.namePrefix, config.nameSuffix);
      && (r.result.Err? <==> !HasKey(reg, name))
      && (r.result.Err? ==> r.result.error == BotNotExists(name) && r.reg == reg && r.cmds == [])
      && (r.result.Ok? ==>
            var b := Get(reg, name).value;
            var b' := r.result.value;
            && r.reg == Put(reg, name, b') && r.cmds == [SaveData]
            && (f.Position? ==> b' == b.(location := b.location.(position := f.position)))
            && (f.Facing? ==> b' == b.(location := b.location.(facing := f.facing)))
            && (f.AutoLogin? ==> b' == b.(autoLogin := f.autoLogin))
            && (f.AutoRunActions? ==> b' == b.(autoRunActions := f.autoRunActions))
            && (f.AutoUpdate? ==> b' == b.(autoUpdate := f.autoUpdate)))
  {
    var name := ParseName(rawName, config.namePrefix, config.nameSuffix);
    match GetBot(reg, name)
    case Err(err) => Step(reg, Err(err), [])
    case Ok(b) =>
      var b' := SetField(b, f);
      Step(Put(reg, name, b'), Ok(b'), [SaveData])
  }

  /** `config <name> name <new name>`: rename, re-key with `update_list`,
      save. */
  function ConfigName(reg: Registry, config: Config, rawName: string, rawNewName: string): (r: Step<Bot>)
    ensures var name := ParseName(rawName, config.namePrefix, config.nameSuffix);
      && (r.result.Err? <==> !HasKey(reg, name))
      && (r.result.Err? ==> r.reg == reg && r.cmds == [])
      && (r.result.Ok? ==>
            r.result.value == Get(reg, name).value.(name := ParseName(rawNewName, config.namePrefix, config.nameSuffix))
            && r.reg == UpdateList(Put(reg, name, r.result.value)) && r.cmds == [SaveData])
  {
    var name := ParseName(rawName, config.namePrefix, config.nameSuffix);
    var newName := ParseName(rawNewName, config.namePrefix, config.nameSuffix);
    match GetBot(reg, name)
    case Err(err) => Step(reg, Err(err), [])
    case Ok(b) =>
      var b' := Apply(b, SetName(newName));
      Step(UpdateList(Put(reg, name, b')), Ok(b'), [SaveData])
  }

  /** In a well-keyed registry a renamed bot that is online or saved is
      found under its new name and no longer under its old one. */
  lemma ConfigNameMovesKey(reg: Registry, config: Config, rawName: string, rawNewName: string)
    requires WellKeyed(reg)
    requires var name := ParseName(rawName, config.namePrefix, config.nameSuffix);
      HasKey(reg, name) && (Get(reg, name).value.online || Get(reg, name).value.saved)
    ensures var name := ParseName(rawName, config.namePrefix, config.nameSuffix);
      var newName := ParseName(rawNewName, config.namePrefix, config.nameSuffix);
      var r := ConfigName(reg, config, rawName, rawNewName);
      HasKey(r.reg, newName) && (newName != name ==> !HasKey(r.reg, name))
  {
    var name := ParseName(rawName, config.namePrefix, config.nameSuffix);
    var newName := ParseName(rawNewName, config.namePrefix, config.nameSuffix);
    var b' := Get(reg, name).value.(name := newName);
    var d := Put(reg, name, b');
    GetIn(d, name);
    UpdateListKeys(d, newName);
    if newName != name {
      UpdateListKeys(d, name);
      PutUnique(reg, name, b');
      PutEntries(reg, name, b');
      if exists e :: e in d && e.1.name == name && (e.1.online || e.1.saved) {
        var e :| e in d && e.1.name == name && (e.1.online || e.1.saved);
        assert e in reg;
        GetEntry(d, e);
        assert false;
      }
    }
  }

  /** The location arguments of `save`: none, or a position with optional
      facing and dimension (the command tree only offers them in that
      order). */
  datatype SaveArgs = NoLocation | WithLocation(position: seq<real>, facing: Option<seq<real>>, dimension: Option<string>)

  /** The location `save` builds from its arguments, looking the dimension
      up in `COMMAND_TRANSLATION`; facing defaults to `[0, 0]` and the
      dimension to `'0'`. */
  function SaveLocation(args: SaveArgs): (l: Option<Location>)
    ensures args.NoLocation? <==> l.None?
    ensures args.WithLocation? ==> l.value.position == args.position
    ensures args.WithLocation? ==>
      var key := if args.dimension.Some? then args.dimension.value else "0";
      (l.value.dimension.Some? <==> key in Dimensions.CommandKeys)
      && (l.value.dimension.Some? ==> Dimensions.IsDimension(l.value.dimension.value))
  {
    match args
    case NoLocation => None
    case WithLocation(pos, facing, dim) =>
      var f := if facing.Some? then facing.value else [0.0, 0.0];
      var key := if dim.Some? then dim.value else "0";
      Some(Location(pos, f, Dimensions.CommandTranslation(key)))
  }

  /** `save <name> [<position> [<facing> [<dimension>]]]` with the dimension
      read from `COMMAND_TRANSLATION`: an unknown dimension is refused before
      anything changes. */
  function SaveCommand(reg: Registry, config: Config, rawName: string, player: Option<string>, args: SaveArgs,
                       whereIs: string -> Location): (r: Step<Bot>)
    ensures (r.result.Err? && r.result.error.IllegalDimension?)
        <==> args.WithLocation? && (if args.dimension.Some? then args.dimension.value else "0") !in Dimensions.CommandKeys
    ensures r.result.Err? && r.result.error.IllegalDimension? ==> r.reg == reg
    ensures r.result.Ok? ==> r.result.value.saved
  {
    var name := ParseName(rawName, config.namePrefix, config.nameSuffix);
    Save(reg, name, player, SaveLocation(args), whereIs)
  }

  /** The same handler as written: with any location argument it reads
      `DIMENSION.INT_TRANSLATION`, which the `DIMENSION` class does not
      define, so the lookup raises before the bot manager is reached. */
  function SaveCommandAsWritten(reg: Registry, config: Config, rawName: string, player: Option<string>, args: SaveArgs,
                                whereIs: string -> Location): (r: (Registry, Result<Bot, BotError>, seq<Cmd>))
    ensures args.WithLocation? ==> r.1 == Err(NoAttribute("INT_TRANSLATION")) && r.0 == reg && r.2 == []
    ensures args.NoLocation? ==> var s := SaveCommand(reg, config, rawName, player, args, whereIs);
      r.0 == s.reg && r.2 == s.cmds && r.1 == s.result
  {
    match args
    case WithLocation(_, _, _) => (reg, Err(NoAttribute("INT_TRANSLATION")), [])
    case NoLocation =>
      var s := SaveCommand(reg, config, rawName, player, args, whereIs);
      (s.reg, s.result, s.cmds)
  }

  /** `save bot_a 0 64 0` saves a new bot in the overworld once the table
      exists, and fails with `AttributeError` as written. */
  lemma SaveWithPositionDiffers(player: Option<string>, whereIs: string -> Location)
    ensures var args := WithLocation([0.0, 64.0, 0.0], None, None);
      && SaveCommand([], DefaultConfig, "bot_a", player, args, whereIs).result.Ok?
      && SaveCommandAsWritten([], DefaultConfig, "bot_a", player, args, whereIs).1.Err?
  {
    var args := WithLocation([0.0, 64.0, 0.0], None, None);
    assert SaveLocation(args) == Some(Location([0.0, 64.0, 0.0], [0.0, 0.0], Some(0)));
    var name := ParseName("bot_a", "bot_", "");
    var empty: Registry := [];
    assert !HasKey(empty, name);
  }

  /** `config <name> dimension <dimension>` with `COMMAND_TRANSLATION`. The
      handler assigns the lookup to the bot's own location object before
      checking it, so an unknown dimension leaves the bot with no dimension
      in memory (not saved) while reporting the error. */
  function ConfigDimension(reg: Registry, config: Config, rawName: string, dimension: string): (r: Step<Bot>)
    ensures var name := ParseName(rawName, config.namePrefix, config.nameSuffix);
      && (!HasKey(reg, name) ==> r == Step(reg, Err(BotNotExists(name)), []))
      && (HasKey(reg, name) ==>
            var b := Get(reg, name).value;
            var moved := b.(location := b.location.(dimension := Dimensions.CommandTranslation(dimension)));
            && r.reg == Put(reg, name, moved)
            && (r.result.Err? <==> dimension !in Dimensions.CommandKeys)
            && (r.result.Err? ==> r.result.error == IllegalDimension(dimension) && r.cmds == [])
            && (r.result.Ok? ==> r.result.value == moved && r.cmds == [SaveData]))
  {
    var name := ParseName(rawName, config.namePrefix, config.nameSuffix);
    match GetBot(reg, name)
    case Err(err) => Step(reg, Err(err), [])
    case Ok(b) =>
      var d := Dimensions.CommandTranslation(dimension);
      var moved := Apply(b, SetLocation(b.location.(dimension := d)));
      if d.None? then Step(Put(reg, name, moved), Err(IllegalDimension(dimension)), [])
      else Step(Put(reg, name, moved), Ok(moved), [SaveData])
  }

  /** The same handler as written: an existing bot reaches the
      `INT_TRANSLATION` lookup, which raises `AttributeError` before the
      assignment, so nothing changes whatever the dimension. */
  function ConfigDimensionAsWritten(reg: Registry, config: Config, rawName: string, dimension: string): (r: (Registry, Result<Bot, BotError>))
    ensures var name := ParseName(rawName, config.namePrefix, config.nameSuffix);
      && r.0 == reg
      && (!HasKey(reg, name) ==> r.1 == Err(BotNotExists(name)))
      && (HasKey(reg, name) ==> r.1 == Err(NoAttribute("INT_TRANSLATION")))
  {
    var name := ParseName(rawName, config.namePrefix, config.nameSuffix);
    match GetBot(reg, name)
    case Err(err) => (reg, Err(err))
    case Ok(_) => (reg, Err(NoAttribute("INT_TRANSLATION")))
  }

  /** On a known bot and a valid dimension the two disagree: the corrected
      handler succeeds and saves, the written one always raises. */
  lemma ConfigDimensionDiffers(reg: Registry, config: Config, rawName: string)
    requires HasKey(reg, ParseName(rawName, config.namePrefix, config.nameSuffix))
    ensures ConfigDimension(reg, config, rawName, "nether").result.Ok?
    ensures ConfigDimensionAsWritten(reg, config, rawName, "nether").1.Err?
  {
    assert "nether" in Dimensions.CommandKeys;
  }

  // ---------------------------------------------------------------------
  // Permission defaults (plugin.py)
  // ---------------------------------------------------------------------

  /** `__check_config`: every default permission missing from the config is
      added with its default level; existing levels are kept; the config is
      saved exactly when something was added. */
  method CheckConfig(perms: Dict<int>) returns (r: Dict<int>, save: bool)
    ensures forall i :: 0 <= i < |DefaultPermissions| ==>
      Get(r, DefaultPermissions[i].0) == (if HasKey(perms, DefaultPermissions[i].0) then Get(perms, DefaultPermissions[i].0) else Some(DefaultPermissions[i].1))
    ensures forall k :: HasKey(perms, k) ==> Get(r, k) == Get(perms, k)
    ensures forall k :: HasKey(r, k) ==> HasKey(perms, k) || HasKey(DefaultPermissions, k)
    ensures save <==> exists i :: 0 <= i < |DefaultPermissions| && !HasKey(perms, DefaultPermissions[i].0)
  {
    r, save := AddDefaults(perms, DefaultPermissions);
  }

  /** One default applied: added only when the key is missing. */
  function WithDefault(r: Dict<int>, entry: (string, int)): (r': Dict<int>)
    ensures HasKey(r', entry.0)
    ensures HasKey(r, entry.0) ==> r' == r
    ensures !HasKey(r, entry.0) ==> Get(r', entry.0) == Some(entry.1)
    ensures forall k :: k != entry.0 ==> Get(r', k) == Get(r, k) && (HasKey(r', k) <==> HasKey(r, k))
  {
    if HasKey(r, entry.0) then r
    else
      var r' := Put(r, entry.0, entry.1);
      PutHasKey(r, entry.0, entry.1, entry.0);
      forall k | k != entry.0
        ensures Get(r', k) == Get(r, k) && (HasKey(r', k) <==> HasKey(r, k))
      {
        GetPutOther(r, entry.0, entry.1, k);
        PutHasKey(r, entry.0, entry.1, k);
      }
      r'
  }

  /** What `__check_config` has established after the first `i` defaults. */
  ghost predicate DefaultsApplied(perms: Dict<int>, defaults: Dict<int>, r: Dict<int>, i: int)
    requires 0 <= i <= |defaults|
  {
    && (forall j :: 0 <= j < i ==>
          Get(r, defaults[j].0) == (if HasKey(perms, defaults[j].0) then Get(perms, defaults[j].0) else Some(defaults[j].1)))
    && (forall k :: HasKey(perms, k) ==> Get(r, k) == Get(perms, k))
    && (forall k :: HasKey(r, k) ==> HasKey(perms, k) || k in Keys(defaults)[..i])
  }

  lemma DefaultsStep(perms: Dict<int>, defaults: Dict<int>, r: Dict<int>, i: int)
    requires UniqueKeys(defaults) && 0 <= i < |defaults|
    requires DefaultsApplied(perms, defaults, r, i)
    ensures DefaultsApplied(perms, defaults, WithDefault(r, defaults[i]), i + 1)
    ensures HasKey(r, defaults[i].0) <==> HasKey(perms, defaults[i].0)
  {
    var ks := Keys(defaults);
    assert ks[..i + 1] == ks[..i] + [defaults[i].0];
    NotEarlier(defaults, i);
    DefaultsStepValues(perms, defaults, r, i);
    DefaultsStepKeys(perms, defaults, r, i);
  }

  /** In a table with unique keys, the `i`-th key is not among the earlier
      ones. */
  lemma {:induction false} NotEarlier(defaults: Dict<int>, i: int)
    requires UniqueKeys(defaults) && 0 <= i < |defaults|
    ensures defaults[i].0 !in Keys(defaults)[..i]
  {
    var ks := Keys(defaults);
    forall j | 0 <= j < i
      ensures ks[..i][j] != defaults[i].0
    {
      assert ks[..i][j] == defaults[j].0;
    }
  }

  /** The values after one more default: the earlier keys keep theirs. */
  lemma DefaultsStepValues(perms: Dict<int>, defaults: Dict<int>, r: Dict<int>, i: int)
    requires 0 <= i < |defaults| && defaults[i].0 !in Keys(defaults)[..i]
    requires DefaultsApplied(perms, defaults, r, i)
    ensures var r' := WithDefault(r, defaults[i]);
            forall j :: 0 <= j < i + 1 ==>
              Get(r', defaults[j].0) == (if HasKey(perms, defaults[j].0) then Get(perms, defaults[j].0) else Some(defaults[j].1))
  {
    var name := defaults[i].0;
    var r' := WithDefault(r, defaults[i]);
    var ks := Keys(defaults);
    forall j | 0 <= j < i + 1
      ensures Get(r', defaults[j].0) == (if HasKey(perms, defaults[j].0) then Get(perms, defaults[j].0) else Some(defaults[j].1))
    {
      if j < i {
        assert ks[..i][j] == defaults[j].0;
      } else if !HasKey(r, name) {
        assert !HasKey(perms, name);
      }
    }
  }

  /** The keys after one more default: the user's keys keep their values,
      and a key is present only if the user or the first `i + 1` defaults
      name it. */
  lemma DefaultsStepKeys(perms: Dict<int>, defaults: Dict<int>, r: Dict<int>, i: int)
    requires 0 <= i < |defaults| && defaults[i].0 !in Keys(defaults)[..i]
    requires DefaultsApplied(perms, defaults, r, i)
    ensures var r' := WithDefault(r, defaults[i]);
            && (forall k :: HasKey(perms, k) ==> Get(r', k) == Get(perms, k))
            && (forall k :: HasKey(r', k) ==> HasKey(perms, k) || k in Keys(defaults)[..i] + [defaults[i].0])
    ensures HasKey(r, defaults[i].0) <==> HasKey(perms, defaults[i].0)
  {
    var name := defaults[i].0;
    if HasKey(perms, name) {
      assert Get(r, name).Some?;
    }
  }

  /** The loop of `__check_config`, over any table of defaults. */
  method AddDefaults(perms: Dict<int>, defaults: Dict<int>) returns (r: Dict<int>, save: bool)
    requires UniqueKeys(defaults)
    ensures forall i :: 0 <= i < |defaults| ==>
      Get(r, defaults[i].0) == (if HasKey(perms, defaults[i].0) then Get(perms, defaults[i].0) else Some(defaults[i].1))
    ensures forall k :: HasKey(perms, k) ==> Get(r, k) == Get(perms, k)
    ensures forall k :: HasKey(r, k) ==> HasKey(perms, k) || HasKey(defaults, k)
    ensures save <==> exists i :: 0 <= i < |defaults| && !HasKey(perms, defaults[i].0)
  {
    r := perms;
    save := false;
    var i := 0;
    while i < |defaults|
      invariant 0 <= i <= |defaults|
      invariant DefaultsApplied(perms, defaults, r, i)
      invariant save <==> exists j :: 0 <= j < i && !HasKey(perms, defaults[j].0)
    {
      DefaultsStep(perms, defaults, r, i);
      if !HasKey(r, defaults[i].0) {
        save := true;
      }
      r := WithDefault(r, defaults[i]);
      i := i + 1;
    }
    assert Keys(defaults)[..i] == Keys(defaults);
  }
}
