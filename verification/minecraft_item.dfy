/** The item builder of MinecraftItemAPI (Archive/MinecraftItemAPI/MinecraftItemAPI.py):
    an item id, a slot, a count and an NBT tag held as an insertion-ordered
    dict, with the setters that write into the tag. Rich-text rendering is
    a parameter. */
module MinecraftItem {
  import opened Basics
  import opened Dicts
  import opened Json

  const IdPrefix := "minecraft:"

  /** The namespace is added unless the id already has it. */
  function NormaliseId(id: string): (r: string)
    ensures StartsWith(r, IdPrefix)
    ensures r == id <==> StartsWith(id, IdPrefix)
    ensures r != id ==> r[|IdPrefix|..] == id
  {
    if StartsWith(id, IdPrefix) then id
    else
      assert (IdPrefix + id)[..|IdPrefix|] == IdPrefix;
      IdPrefix + id
  }

  /** Normalising twice is normalising once. */
  lemma NormaliseIdIdempotent(id: string)
    ensures NormaliseId(NormaliseId(id)) == NormaliseId(id)
  {
  }

  datatype Item = Item(itemId: string, data: Dict<Json>, count: int, slot: int)

  /** `Item(item_id)` for a string: a namespaced id, one item in slot 0, an
      empty tag. */
  function NewItem(id: string): (it: Item)
    ensures StartsWith(it.itemId, IdPrefix)
    ensures it.data == [] && it.count == 1 && it.slot == 0
  {
    Item(NormaliseId(id), [], 1, 0)
  }

  // ---------------------------------------------------------------------
  // Plain setters
  // ---------------------------------------------------------------------

  /** `self.data[key] = value`, the body of every setter that stores its
      argument as given (`set_damage`, `set_custom_model_data`,
      `set_repair_cost`, `set_potion`, `set_generation`, `set_author`,
      `set_title`, `set_entity_tag`, `set_bucket_variant_tag`, `set_map`,
      `set_lodestone_dimension`, `set_block_entity_tag` with a dict). */
  function SetTag(it: Item, key: string, value: Json): (r: Item)
    ensures Get(r.data, key) == Some(value)
    ensures forall k :: HasKey(r.data, k) <==> HasKey(it.data, k) || k == key
    ensures r.itemId == it.itemId && r.count == it.count && r.slot == it.slot
  {
    forall k ensures HasKey(Put(it.data, key, value), k) <==> HasKey(it.data, k) || k == key {
      PutHasKey(it.data, key, value, k);
    }
    it.(data := Put(it.data, key, value))
  }

  /** A setter touches only its own key. */
  lemma SetTagOther(it: Item, key: string, value: Json, other: string)
    requires other != key
    ensures Get(SetTag(it, key, value).data, other) == Get(it.data, other)
  {
    GetPutOther(it.data, key, value, other);
  }

  /** `set_count` */
  function SetCount(it: Item, count: int): (r: Item)
    ensures r.count == count && r.itemId == it.itemId && r.data == it.data && r.slot == it.slot
  {
    it.(count := count)
  }

  /** `set_slot` */
  function SetSlot(it: Item, slot: int): (r: Item)
    ensures r.slot == slot && r.itemId == it.itemId && r.data == it.data && r.count == it.count
  {
    it.(slot := slot)
  }

  /** `set_tag(*args)`: the `Tags` list. */
  function SetTags(it: Item, tags: seq<string>): (r: Item)
    ensures Get(r.data, "Tags").Some? && AsStrings(Get(r.data, "Tags").value) == Some(tags)
  {
    StrArrayRoundTrip(tags);
    SetTag(it, "Tags", StrArray(tags))
  }

  /** `set_lodestone_pos`: an `{x, y, z}` compound. */
  function SetLodestonePos(it: Item, x: int, y: int, z: int): (r: Item)
    ensures Get(r.data, "LodestonePos").Some? && Get(r.data, "LodestonePos").value.JObj?
    ensures var p := Get(r.data, "LodestonePos").value;
      Keys(p.fields) == ["x", "y", "z"] && Field(p, "x") == Some(JInt(x)) && Field(p, "y") == Some(JInt(y)) && Field(p, "z") == Some(JInt(z))
  {
    var d := [("x", JInt(x)), ("y", JInt(y)), ("z", JInt(z))];
    assert d[1..] == [("y", JInt(y)), ("z", JInt(z))];
    assert d[1..][1..] == [("z", JInt(z))];
    assert Keys(d) == ["x", "y", "z"] by {
      assert Keys(d[1..][1..]) == ["z"];
      assert Keys(d[1..]) == ["y", "z"];
    }
    assert Get(d, "x") == Some(JInt(x));
    assert Get(d, "y") == Some(JInt(y)) by { assert Get(d, "y") == Get(d[1..], "y"); }
    assert Get(d, "z") == Some(JInt(z)) by {
      assert Get(d, "z") == Get(d[1..], "z");
      assert Get(d[1..], "z") == Get(d[1..][1..], "z");
    }
    SetTag(it, "LodestonePos", JObj(d))
  }

  // ---------------------------------------------------------------------
  // Boolean flags
  // ---------------------------------------------------------------------

  /** NBT has no booleans: `1 if value else 0`. */
  function Flag(b: bool): (j: Json)
    ensures j.JInt? && (j.i == 1 <==> b) && (j.i == 0 <==> !b)
  {
    JInt(if b then 1 else 0)
  }

  /** What a stored flag reads back as. */
  function AsFlag(j: Json): Option<bool>
  {
    match j
    case JInt(1) => Some(true)
    case JInt(0) => Some(false)
    case _ => None
  }

  /** `set_unbreakable`, `set_charged` and `set_lodestone_tracked`. */
  function SetFlag(it: Item, key: string, b: bool): (r: Item)
    ensures Get(r.data, key).Some? && AsFlag(Get(r.data, key).value) == Some(b)
  {
    SetTag(it, key, Flag(b))
  }

  function SetUnbreakable(it: Item, b: bool): (r: Item)
    ensures Get(r.data, "Unbreakable").Some? && AsFlag(Get(r.data, "Unbreakable").value) == Some(b)
  {
    SetFlag(it, "Unbreakable", b)
  }

  function SetCharged(it: Item, b: bool): (r: Item)
    ensures Get(r.data, "Charged").Some? && AsFlag(Get(r.data, "Charged").value) == Some(b)
  {
    SetFlag(it, "Charged", b)
  }

  function SetLodestoneTracked(it: Item, b: bool): (r: Item)
    ensures Get(r.data, "LodestoneTracked").Some? && AsFlag(Get(r.data, "LodestoneTracked").value) == Some(b)
  {
    SetFlag(it, "LodestoneTracked", b)
  }

  // ---------------------------------------------------------------------
  // Block lists
  // ---------------------------------------------------------------------

  /** An argument of `set_can_destroy` / `set_can_place_on`: an item, a
      string, or anything else (which is skipped). */
  datatype Target = ItemTarget(item: Item) | StrTarget(s: string) | OtherTarget

  /** The ids the list receives: an item gives its (namespaced) id, a
      string is kept as written. */
  function TargetIds(args: seq<Target>): (r: seq<string>)
    ensures |r| <= |args|
    ensures (forall i :: 0 <= i < |args| ==> args[i].StrTarget?) ==>
      |r| == |args| && forall i :: 0 <= i < |args| ==> r[i] == args[i].s
    ensures (forall i :: 0 <= i < |args| ==> args[i].ItemTarget?) ==>
      |r| == |args| && forall i :: 0 <= i < |args| ==> r[i] == args[i].item.itemId
  {
    if |args| == 0 then []
    else
      var rest := TargetIds(args[1..]);
      match args[0]
      case ItemTarget(item) => [item.itemId] + rest
      case StrTarget(s) => [s] + rest
      case OtherTarget => rest
  }

  /** `set_can_destroy` */
  function SetCanDestroy(it: Item, args: seq<Target>): (r: Item)
    ensures Get(r.data, "CanDestroy").Some? && AsStrings(Get(r.data, "CanDestroy").value) == Some(TargetIds(args))
  {
    StrArrayRoundTrip(TargetIds(args));
    SetTag(it, "CanDestroy", StrArray(TargetIds(args)))
  }

  /** `set_can_place_on` */
  function SetCanPlaceOn(it: Item, args: seq<Target>): (r: Item)
    ensures Get(r.data, "CanPlaceOn").Some? && AsStrings(Get(r.data, "CanPlaceOn").value) == Some(TargetIds(args))
  {
    StrArrayRoundTrip(TargetIds(args));
    SetTag(it, "CanPlaceOn", StrArray(TargetIds(args)))
  }

  // ---------------------------------------------------------------------
  // The display compound
  // ---------------------------------------------------------------------

  /** The `display` compound, or the empty one that `set_color`,
      `set_name` and `set_lore` put in place when it is missing. */
  function Display(it: Item): Dict<Json>
  {
    var g: Option<Json> := Get(it.data, "display");
    match g
    case Some(JObj(fields)) => fields
    case _ => []
  }

  /** `self.data['display'].get(key)` when `display` is a compound. */
  function DisplayField(it: Item, key: string): Option<Json>
  {
    var g: Option<Json> := Get(it.data, "display");
    match g
    case Some(JObj(fields)) => Get(fields, key)
    case _ => None
  }

  /** `self.data['display'][key] = value`, creating `display` first; a
      `display` that is not a compound cannot take a key (`TypeError`). */
  function SetDisplay(it: Item, key: string, value: Json): (r: Result<Item, string>)
    ensures r.Err? <==> HasKey(it.data, "display") && !Get(it.data, "display").value.JObj?
    ensures r.Err? ==> r.error == "TypeError"
    ensures r.Ok? ==> DisplayField(r.value, key) == Some(value)
    ensures r.Ok? ==> forall k :: k != key ==> DisplayField(r.value, k) == DisplayField(it, k)
    ensures r.Ok? ==> forall k :: k != "display" ==> Get(r.value.data, k) == Get(it.data, k)
  {
    if HasKey(it.data, "display") && !Get(it.data, "display").value.JObj? then Err("TypeError")
    else
      var d := JObj(Put(Display(it), key, value));
      forall k | k != key ensures Get(Put(Display(it), key, value), k) == Get(Display(it), k) {
        GetPutOther(Display(it), key, value, k);
      }
      forall k | k != "display" ensures Get(Put(it.data, "display", d), k) == Get(it.data, k) {
        GetPutOther(it.data, "display", d, k);
      }
      Ok(SetTag(it, "display", d))
  }

  /** `(red * 65536) + (green * 256) + blue`, the packing of `set_color`. */
  function PackColor(red: int, green: int, blue: int): int
  {
    red * 65536 + green * 256 + blue
  }

  /** Python's `<<` on integers, of any sign. */
  function ShiftLeft(x: int, n: nat): int
  {
    if n == 0 then x else 2 * ShiftLeft(x, n - 1)
  }

  lemma {:induction false} ShiftLeftIsMultiplication(x: int, n: nat)
    ensures ShiftLeft(x, 8) == x * 256
    ensures ShiftLeft(x, 16) == x * 65536
  {
    assert ShiftLeft(x, 1) == 2 * x;
    assert ShiftLeft(x, 2) == 4 * x;
    assert ShiftLeft(x, 3) == 8 * x;
    assert ShiftLeft(x, 4) == 16 * x;
    assert ShiftLeft(x, 5) == 32 * x;
    assert ShiftLeft(x, 6) == 64 * x;
    assert ShiftLeft(x, 7) == 128 * x;
    assert ShiftLeft(x, 8) == 256 * x;
    assert ShiftLeft(x, 9) == 512 * x;
    assert ShiftLeft(x, 10) == 1024 * x;
    assert ShiftLeft(x, 11) == 2048 * x;
    assert ShiftLeft(x, 12) == 4096 * x;
    assert ShiftLeft(x, 13) == 8192 * x;
    assert ShiftLeft(x, 14) == 16384 * x;
    assert ShiftLeft(x, 15) == 32768 * x;
  }

  /** `(red << 16) + (green << 8) + blue`, the packing of
      `set_custom_potion_color`: the same number as `set_color`'s, for
      every input. */
  function ShiftColor(red: int, green: int, blue: int): (c: int)
    ensures c == PackColor(red, green, blue)
  {
    ShiftLeftIsMultiplication(red, 16);
    ShiftLeftIsMultiplication(green, 8);
    ShiftLeft(red, 16) + ShiftLeft(green, 8) + blue
  }

  predicate IsByte(x: int) { 0 <= x < 256 }

  /** For components in 0..255 the packed colour is a 24-bit number from
      which each component can be read back. */
  lemma ColorUnpacks(red: int, green: int, blue: int)
    requires IsByte(red) && IsByte(green) && IsByte(blue)
    ensures 0 <= PackColor(red, green, blue) < 16777216
    ensures PackColor(red, green, blue) / 65536 == red
    ensures (PackColor(red, green, blue) / 256) % 256 == green
    ensures PackColor(red, green, blue) % 256 == blue
  {
    var c := PackColor(red, green, blue);
    var lo := green * 256 + blue;
    assert 0 <= lo < 65536;
    assert c == red * 65536 + lo;
    assert c / 256 == red * 256 + green by {
      assert c == (red * 256 + green) * 256 + blue;
    }
    assert (red * 256 + green) % 256 == green;
  }

  /** `set_color`: the leather colour inside `display`. */
  function SetColor(it: Item, red: int, green: int, blue: int): (r: Result<Item, string>)
    ensures r.Ok? <==> !HasKey(it.data, "display") || Get(it.data, "display").value.JObj?
    ensures r.Ok? ==> DisplayField(r.value, "color") == Some(JInt(PackColor(red, green, blue)))
  {
    SetDisplay(it, "color", JInt(PackColor(red, green, blue)))
  }

  /** `set_custom_potion_color` */
  function SetCustomPotionColor(it: Item, red: int, green: int, blue: int): (r: Item)
    ensures Get(r.data, "CustomPotionColor") == Some(JInt(PackColor(red, green, blue)))
  {
    SetTag(it, "CustomPotionColor", JInt(ShiftColor(red, green, blue)))
  }

  /** `set_name`: a string is rendered to its JSON text by `render`. */
  function SetName(it: Item, name: string, render: string -> string): (r: Result<Item, string>)
    ensures r.Ok? <==> !HasKey(it.data, "display") || Get(it.data, "display").value.JObj?
    ensures r.Ok? ==> DisplayField(r.value, "Name") == Some(JStr(render(name)))
  {
    SetDisplay(it, "Name", JStr(render(name)))
  }

  /** `set_lore`: every line rendered, in order. */
  function SetLore(it: Item, lines: seq<string>, render: string -> string): (r: Result<Item, string>)
    ensures r.Ok? <==> !HasKey(it.data, "display") || Get(it.data, "display").value.JObj?
    ensures r.Ok? ==> DisplayField(r.value, "Lore") == Some(StrArray(seq(|lines|, i requires 0 <= i < |lines| => render(lines[i]))))
  {
    SetDisplay(it, "Lore", StrArray(seq(|lines|, i requires 0 <= i < |lines| => render(lines[i]))))
  }

  // ---------------------------------------------------------------------
  // Hide flags
  // ---------------------------------------------------------------------

  /** The `HideFlags` values. */
  const HideEnchantments := 1
  const HideAttributeModifiers := 2
  const HideUnbreakable := 4
  const HideCanDestroy := 8
  const HideCanPlaceOn := 16
  const HideOther := 32

  function Sum(xs: seq<int>): int
  {
    if |xs| == 0 then 0 else xs[0] + Sum(xs[1..])
  }

  lemma {:induction false} SumAppend(a: seq<int>, b: seq<int>)
    ensures Sum(a + b) == Sum(a) + Sum(b)
    decreases |a|
  {
    if |a| > 0 {
      assert (a + b)[1..] == a[1..] + b;
      SumAppend(a[1..], b);
    } else {
      assert a + b == b;
    }
  }

  /** `set_hide_flags(*args)`: the sum of the arguments, whatever their
      order. */
  function SetHideFlags(it: Item, flags: seq<int>): (r: Item)
    ensures Get(r.data, "HideFlags") == Some(JInt(Sum(flags)))
  {
    SetTag(it, "HideFlags", JInt(Sum(flags)))
  }

  lemma HideFlagsOrderFree(it: Item, a: seq<int>, b: seq<int>)
    ensures SetHideFlags(it, a + b) == SetHideFlags(it, b + a)
  {
    SumAppend(a, b);
    SumAppend(b, a);
  }

  /** Each distinct `HideFlags` value passed at most once is one bit of the
      sum, so the stored number tells exactly which were passed. */
  lemma HideFlagsBits(e: bool, m: bool, u: bool, d: bool, p: bool, o: bool)
    ensures var s := Sum([if e then HideEnchantments else 0, if m then HideAttributeModifiers else 0,
                          if u then HideUnbreakable else 0, if d then HideCanDestroy else 0,
                          if p then HideCanPlaceOn else 0, if o then HideOther else 0]);
      && 0 <= s < 64
      && (s % 2 == 1 <==> e) && ((s / 2) % 2 == 1 <==> m) && ((s / 4) % 2 == 1 <==> u)
      && ((s / 8) % 2 == 1 <==> d) && ((s / 16) % 2 == 1 <==> p) && (s / 32 == 1 <==> o)
  {
    Sum6(Bit(e), 2 * Bit(m), 4 * Bit(u), 8 * Bit(d), 16 * Bit(p), 32 * Bit(o));
    FlagBits(Bit(e), Bit(m), Bit(u), Bit(d), Bit(p), Bit(o));
  }

  lemma Sum6(a: int, b: int, c: int, d: int, e: int, f: int)
    ensures Sum([a, b, c, d, e, f]) == a + b + c + d + e + f
  {
    var xs := [a, b, c, d, e, f];
    assert Sum(xs[5..]) == f by { assert xs[5..][1..] == []; }
    assert Sum(xs[4..]) == e + f by { assert xs[4..][1..] == xs[5..]; }
    assert Sum(xs[3..]) == d + e + f by { assert xs[3..][1..] == xs[4..]; }
    assert Sum(xs[2..]) == c + d + e + f by { assert xs[2..][1..] == xs[3..]; }
    assert Sum(xs[1..]) == b + c + d + e + f by { assert xs[1..][1..] == xs[2..]; }
  }

  function Bit(b: bool): nat
  {
    if b then 1 else 0
  }

  /** Six binary digits read back from their weighted sum. */
  lemma FlagBits(e: nat, m: nat, u: nat, d: nat, p: nat, o: nat)
    requires e < 2 && m < 2 && u < 2 && d < 2 && p < 2 && o < 2
    ensures var s := e + 2 * m + 4 * u + 8 * d + 16 * p + 32 * o;
      && s < 64 && s % 2 == e && (s / 2) % 2 == m && (s / 4) % 2 == u
      && (s / 8) % 2 == d && (s / 16) % 2 == p && s / 32 == o
  {
  }

  // ---------------------------------------------------------------------
  // Enchantments and other appended lists
  // ---------------------------------------------------------------------

  /** `Enchantments(id, level).data` */
  function Enchantment(id: string, level: int): (j: Json)
    ensures j.JObj? && Keys(j.fields) == ["id", "lvl"]
    ensures Field(j, "id") == Some(JStr(id)) && Field(j, "lvl") == Some(JInt(level))
  {
    var d := [("id", JStr(id)), ("lvl", JInt(level))];
    assert d[1..] == [("lvl", JInt(level))];
    assert Keys(d) == ["id", "lvl"] by { assert Keys(d[1..]) == ["lvl"]; }
    assert Get(d, "lvl") == Some(JInt(level)) by { assert Get(d, "lvl") == Get(d[1..], "lvl"); }
    JObj(d)
  }

  /** The last entry of the list under `key`. */
  function LastEntry(it: Item, key: string): Option<Json>
  {
    var g: Option<Json> := Get(it.data, key);
    match g
    case Some(JArr(items)) => if |items| > 0 then Some(items[|items| - 1]) else None
    case _ => None
  }

  /** What is appended is the list's last entry. */
  lemma AppendedLast(it: Item, key: string, e: Json)
    ensures AppendTo(it, key, e).Ok? ==> LastEntry(AppendTo(it, key, e).value, key) == Some(e)
  {
    var r := AppendTo(it, key, e);
    if r.Ok? {
      var items := if HasKey(it.data, key) then Get(it.data, key).value.items else [];
      assert Get(r.value.data, key) == Some(JArr(items + [e]));
    }
  }

  /** `self.data[key].append(e)`, creating the list when the key is
      missing; a value that is not a list has no `append`
      (`AttributeError`). */
  function AppendTo(it: Item, key: string, e: Json): (r: Result<Item, string>)
    ensures r.Err? <==> HasKey(it.data, key) && !Get(it.data, key).value.JArr?
    ensures r.Err? ==> r.error == "AttributeError"
    ensures r.Ok? && !HasKey(it.data, key) ==> Get(r.value.data, key) == Some(JArr([e]))
    ensures r.Ok? && HasKey(it.data, key) ==> Get(r.value.data, key) == Some(JArr(Get(it.data, key).value.items + [e]))
    ensures r.Ok? ==> forall k :: k != key ==> Get(r.value.data, k) == Get(it.data, k)
  {
    var g: Option<Json> := Get(it.data, key);
    var existing: Option<seq<Json>> := match g case Some(JArr(items)) => Some(items) case None => Some([]) case _ => None;
    match existing
    case None => Err("AttributeError")
    case Some(items) =>
      forall k | k != key ensures Get(Put(it.data, key, JArr(items + [e])), k) == Get(it.data, k) {
        GetPutOther(it.data, key, JArr(items + [e]), k);
      }
      assert g.None? ==> items + [e] == [e];
      Ok(SetTag(it, key, JArr(items + [e])))
  }

  /** `add_enchantment(enchantment, level)` with an id. */
  function AddEnchantment(it: Item, id: string, level: int): (r: Result<Item, string>)
    ensures r.Err? <==> HasKey(it.data, "Enchantments") && !Get(it.data, "Enchantments").value.JArr?
    ensures r.Ok? ==> LastEntry(r.value, "Enchantments") == Some(Enchantment(id, level))
  {
    AppendedLast(it, "Enchantments", Enchantment(id, level));
    AppendTo(it, "Enchantments", Enchantment(id, level))
  }

  /** `set_enchantments(*args)`: the list is replaced by the given
      compounds (arguments of other types are skipped by the caller). */
  function SetEnchantments(it: Item, es: seq<Json>): (r: Item)
    ensures Get(r.data, "Enchantments") == Some(JArr(es))
  {
    SetTag(it, "Enchantments", JArr(es))
  }

  /** The compound of one suspicious-stew effect. */
  function Effect(effectId: int, duration: int): (j: Json)
    ensures j.JObj? && Keys(j.fields) == ["EffectId", "EffectDuration"]
    ensures Field(j, "EffectId") == Some(JInt(effectId)) && Field(j, "EffectDuration") == Some(JInt(duration))
  {
    var d := [("EffectId", JInt(effectId)), ("EffectDuration", JInt(duration))];
    assert d[1..] == [("EffectDuration", JInt(duration))];
    assert Keys(d) == ["EffectId", "EffectDuration"] by { assert Keys(d[1..]) == ["EffectDuration"]; }
    assert Get(d, "EffectDuration") == Some(JInt(duration)) by { assert Get(d, "EffectDuration") == Get(d[1..], "EffectDuration"); }
    JObj(d)
  }

  /** `add_effect`: a suspicious-stew effect. */
  function AddEffect(it: Item, effectId: int, duration: int): (r: Result<Item, string>)
    ensures r.Err? <==> HasKey(it.data, "Effects") && !Get(it.data, "Effects").value.JArr?
    ensures r.Ok? ==> LastEntry(r.value, "Effects") == Some(Effect(effectId, duration))
  {
    AppendedLast(it, "Effects", Effect(effectId, duration));
    AppendTo(it, "Effects", Effect(effectId, duration))
  }

  /** `add_debug_property`: the block's namespaced id maps to the state. */
  function AddDebugProperty(it: Item, block: string, state: string): (r: Result<Item, string>)
    ensures r.Err? <==> HasKey(it.data, "DebugProperty") && !Get(it.data, "DebugProperty").value.JObj?
    ensures r.Ok? ==> Get(r.value.data, "DebugProperty").Some? && Field(Get(r.value.data, "DebugProperty").value, NormaliseId(block)) == Some(JStr(state))
  {
    var g: Option<Json> := Get(it.data, "DebugProperty");
    match g
    case Some(JObj(fields)) => Ok(SetTag(it, "DebugProperty", JObj(Put(fields, NormaliseId(block), JStr(state)))))
    case None => Ok(SetTag(it, "DebugProperty", JObj(Put([], NormaliseId(block), JStr(state)))))
    case _ => Err("TypeError")
  }

  /** `convert_stored_enchantments`: the list moves to
      `StoredEnchantments` and `Enchantments` is deleted; without an
      `Enchantments` key the lookup raises `KeyError`. */
  function ConvertStoredEnchantments(it: Item): (r: Result<Item, string>)
    ensures r.Err? <==> !HasKey(it.data, "Enchantments")
    ensures r.Err? ==> r.error == "KeyError"
    ensures r.Ok? ==> Get(r.value.data, "StoredEnchantments") == Get(it.data, "Enchantments")
    ensures r.Ok? ==> !HasKey(r.value.data, "Enchantments")
    ensures r.Ok? ==> forall k :: k != "Enchantments" && k != "StoredEnchantments" ==> Get(r.value.data, k) == Get(it.data, k)
  {
    match Get(it.data, "Enchantments")
    case None => Err("KeyError")
    case Some(es) =>
      var moved := Put(it.data, "StoredEnchantments", es);
      var r := Remove(moved, "Enchantments");
      GetRemoveOther(moved, "Enchantments", "StoredEnchantments");
      forall k | k != "Enchantments" && k != "StoredEnchantments" ensures Get(r, k) == Get(it.data, k) {
        GetRemoveOther(moved, "Enchantments", k);
        GetPutOther(it.data, "StoredEnchantments", es, k);
      }
      Ok(it.(data := r))
  }

  /** An enchanted book: one enchantment added to an item without any,
      then converted, is stored and no longer active. */
  lemma EnchantedBook(id: string, ench: string, level: int)
    ensures AddEnchantment(NewItem(id), ench, level).Ok?
    ensures ConvertStoredEnchantments(AddEnchantment(NewItem(id), ench, level).value).Ok?
    ensures var b := ConvertStoredEnchantments(AddEnchantment(NewItem(id), ench, level).value).value;
      Get(b.data, "StoredEnchantments") == Some(JArr([Enchantment(ench, level)])) && !HasKey(b.data, "Enchantments")
  {
  }

  // ---------------------------------------------------------------------
  // Output
  // ---------------------------------------------------------------------

  /** `to_json_object`: exactly the keys `Slot`, `id`, `Count` and `tag`. */
  function ToJsonObject(it: Item): (j: Json)
    ensures j.JObj? && Keys(j.fields) == ["Slot", "id", "Count", "tag"]
  {
    JObj([("Slot", JInt(it.slot)), ("id", JStr(it.itemId)), ("Count", JInt(it.count)), ("tag", JObj(it.data))])
  }

  /** Reading an item back from its common tags. */
  function FromJsonObject(j: Json): Option<Item>
  {
    match (Field(j, "Slot"), Field(j, "id"), Field(j, "Count"), Field(j, "tag"))
    case (Some(JInt(slot)), Some(JStr(id)), Some(JInt(count)), Some(JObj(data))) => Some(Item(id, data, count, slot))
    case _ => None
  }

  /** The common tags hold the whole item. */
  lemma JsonObjectRoundTrip(it: Item)
    ensures FromJsonObject(ToJsonObject(it)) == Some(it)
  {
    var d := ToJsonObject(it).fields;
    assert d[1..] == [("id", JStr(it.itemId)), ("Count", JInt(it.count)), ("tag", JObj(it.data))];
    assert d[1..][1..] == [("Count", JInt(it.count)), ("tag", JObj(it.data))];
    assert d[1..][1..][1..] == [("tag", JObj(it.data))];
    assert Get(d, "id") == Some(JStr(it.itemId)) by { assert Get(d, "id") == Get(d[1..], "id"); }
    assert Get(d, "Count") == Some(JInt(it.count)) by {
      assert Get(d, "Count") == Get(d[1..], "Count");
      assert Get(d[1..], "Count") == Get(d[1..][1..], "Count");
    }
    assert Get(d, "tag") == Some(JObj(it.data)) by {
      assert Get(d, "tag") == Get(d[1..], "tag");
      assert Get(d[1..], "tag") == Get(d[1..][1..], "tag");
      assert Get(d[1..][1..], "tag") == Get(d[1..][1..][1..], "tag");
    }
  }

  /** `set_charged_projectiles(*args)`: compounds as given, items through
      `to_json_object`. */
  datatype Projectile = CompoundProjectile(j: Json) | ItemProjectile(item: Item)

  function ProjectileJson(p: Projectile): (j: Json)
    ensures p.ItemProjectile? ==> FromJsonObject(j) == Some(p.item)
  {
    match p
    case CompoundProjectile(j) => j
    case ItemProjectile(item) => JsonObjectRoundTrip(item); ToJsonObject(item)
  }

  function SetChargedProjectiles(it: Item, ps: seq<Projectile>): (r: Item)
    ensures Get(r.data, "ChargedProjectiles").Some? && Get(r.data, "ChargedProjectiles").value.JArr?
    ensures var items := Get(r.data, "ChargedProjectiles").value.items;
      |items| == |ps| && forall i :: 0 <= i < |ps| && ps[i].ItemProjectile? ==> FromJsonObject(items[i]) == Some(ps[i].item)
  {
    SetTag(it, "ChargedProjectiles", JArr(seq(|ps|, i requires 0 <= i < |ps| => ProjectileJson(ps[i]))))
  }
}
