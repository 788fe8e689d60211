/** The protocol records of the Satori client (im_api/models/model.py):
    reading a record from a JSON object with `ModelBase.parse`, writing it
    back with `dump`, the derived `Login.id` and the values an event must
    be able to resolve, message content rendered from raw elements, and
    paged results. Datetimes are kept as their millisecond timestamps. */
module ImModels {
  import opened Basics
  import opened Dicts
  import opened Json
  import T = MarkupTree

  /** Python truthiness of a JSON value. */
  predicate JTruthy(j: Json)
  {
    match j
    case JNull => false
    case JBool(b) => b
    case JInt(i) => i != 0
    case JReal(r) => r != 0.0
    case JStr(s) => |s| > 0
    case JArr(items) => |items| > 0
    case JObj(fields) => |fields| > 0
  }

  /** The record classes. */
  datatype Model =
    | ChannelM | GuildM | UserM | MemberM | RoleM | LoginM | LoginPreviewM
    | ArgvM | ButtonM | MessageM | EventM

  /** A field once parsed: JSON kept as it came, a member of an integer
      enum, a datetime (as milliseconds), or a nested record holding the
      value of each field of its class, in the order of its field list. */
  datatype Val = Raw(j: Json) | EnumV(n: nat) | Stamp(ms: int) | Inst(m: Model, vals: seq<Val>)

  /** Truthiness: enum members are false only at 0; datetimes and records
      define no truth value and are always true. */
  predicate Truthy(v: Val)
  {
    match v
    case Raw(j) => JTruthy(j)
    case EnumV(n) => n != 0
    case Stamp(_) => true
    case Inst(_, _) => true
  }

  /** How `parse` converts a field: not at all, through an enum, through
      `datetime.fromtimestamp(int(ts) / 1000)`, through a nested class's
      `parse`, or through the event's choice between a login class and a
      login preview class. */
  datatype Conv = Plain | Enum(size: nat) | Time | Nested(of: Model) | LoginOrPreview(login: Model, preview: Model)

  /** When `dump` writes a field: always, or only when it is truthy. */
  datatype Dumped = Always | IfSet

  /** One dataclass field: its name, its converter, its default (`None`
      when it has none and is required) and how it is dumped. */
  datatype FieldSpec = FieldSpec(name: string, conv: Conv, default: Option<Val>, dumped: Dumped)

  const NoneVal: Val := Raw(JNull)
  const EmptyList: Val := Raw(JArr([]))

  function Req(name: string, conv: Conv): FieldSpec { FieldSpec(name, conv, None, Always) }
  function Opt(name: string, conv: Conv): FieldSpec { FieldSpec(name, conv, Some(NoneVal), IfSet) }

  /** The fields of each class in declaration order, with the converters of
      its `__converter__`. */
  function Spec(m: Model): seq<FieldSpec>
  {
    match m
    case ChannelM => [Req("id", Plain), Req("type", Enum(4)), Opt("name", Plain), Opt("parent_id", Plain)]
    case GuildM => [Req("id", Plain), Opt("name", Plain), Opt("avatar", Plain)]
    case UserM => [Req("id", Plain), Opt("name", Plain), Opt("nick", Plain), Opt("avatar", Plain), Opt("is_bot", Plain)]
    case MemberM => [Opt("user", Nested(UserM)), Opt("nick", Plain), Opt("avatar", Plain), Opt("joined_at", Time)]
    case RoleM => [Req("id", Plain), Opt("name", Plain)]
    case LoginM =>
      [Req("status", Enum(5)), Opt("user", Nested(UserM)), Opt("self_id", Plain), Opt("platform", Plain),
       FieldSpec("features", Plain, Some(EmptyList), Always), FieldSpec("proxy_urls", Plain, Some(EmptyList), Always)]
    case LoginPreviewM =>
      [Req("user", Nested(UserM)), Req("platform", Plain), Opt("status", Enum(5)),
       FieldSpec("features", Plain, Some(EmptyList), Always), FieldSpec("proxy_urls", Plain, Some(EmptyList), Always)]
    case ArgvM => [Req("name", Plain), Req("arguments", Plain), Req("options", Plain)]
    case ButtonM => [Req("id", Plain)]
    case MessageM =>
      [Req("id", Plain), Req("content", Plain), Opt("channel", Nested(ChannelM)), Opt("guild", Nested(GuildM)),
       Opt("member", Nested(MemberM)), Opt("user", Nested(UserM)), Opt("created_at", Time), Opt("updated_at", Time)]
    case EventM =>
      [Req("id", Plain), Req("type", Plain), Req("timestamp", Time), Opt("platform", Plain), Opt("self_id", Plain),
       Opt("argv", Nested(ArgvM)), Opt("button", Nested(ButtonM)), Opt("channel", Nested(ChannelM)),
       Opt("guild", Nested(GuildM)), Opt("login", LoginOrPreview(LoginM, LoginPreviewM)), Opt("member", Nested(MemberM)),
       Opt("message", Nested(MessageM)), Opt("operator", Nested(UserM)), Opt("role", Nested(RoleM)),
       Opt("user", Nested(UserM)), Opt("_type", Plain), Opt("_data", Plain)]
  }

  /** The order in which `dump` writes the fields, as positions in the
      field list. The event's list leaves out its platform and self id,
      which `dump` writes resolved. */
  function DumpOrder(m: Model): seq<int>
  {
    match m
    case ChannelM => [0, 1, 2, 3]
    case GuildM => [0, 1, 2]
    case UserM => [0, 1, 2, 3, 4]
    case MemberM => [0, 1, 2, 3]
    case RoleM => [0, 1]
    case LoginM => [0, 4, 5, 1, 2, 3]
    case LoginPreviewM => [0, 1, 3, 4, 2]
    case ArgvM => [0, 1, 2]
    case ButtonM => [0]
    case MessageM => [0, 1, 2, 3, 4, 5, 6, 7]
    case EventM => [0, 1, 2, 5, 6, 7, 8, 9, 10, 11, 12, 13, 14, 15, 16]
  }

  /** How deep a class nests other classes. */
  function Rank(m: Model): nat
  {
    match m
    case MemberM => 1
    case LoginM => 1
    case LoginPreviewM => 1
    case MessageM => 2
    case EventM => 3
    case _ => 0
  }

  function ConvRank(c: Conv): nat
  {
    match c
    case Nested(m) => Rank(m) + 1
    case LoginOrPreview(l, p) => (if Rank(l) < Rank(p) then Rank(p) else Rank(l)) + 1
    case _ => 0
  }

  predicate RankedBelow(lvl: nat, fs: seq<FieldSpec>)
  {
    forall i :: 0 <= i < |fs| ==> ConvRank(fs[i].conv) <= lvl
  }

  /** A class only nests classes of lower rank. */
  lemma SpecRanked(m: Model)
    ensures RankedBelow(Rank(m), Spec(m))
  {
  }

  // ---------------------------------------------------------------------
  // Converters
  // ---------------------------------------------------------------------

  /** `SomeIntEnum(v)`: the member whose value equals `v`; a boolean
      equals 0 or 1 and an integral float its integer. */
  function EnumOf(size: nat, j: Json): (r: Result<Val, string>)
    ensures r.Ok? ==> r.value.EnumV? && r.value.n < size
    ensures j.JInt? && 0 <= j.i < size ==> r == Ok(EnumV(j.i))
  {
    match j
    case JInt(i) => if 0 <= i < size then Ok(EnumV(i)) else Err("ValueError")
    case JBool(b) => var i := if b then 1 else 0; if i < size then Ok(EnumV(i)) else Err("ValueError")
    case JReal(x) =>
      if x == x.Floor as real && 0 <= x.Floor < size then Ok(EnumV(x.Floor)) else Err("ValueError")
    case _ => Err("ValueError")
  }

  /** `int(ts)`, the milliseconds of `datetime.fromtimestamp(int(ts) / 1000)`:
      integers and booleans as they are, floats truncated, strings of
      decimal digits with an optional sign. */
  function TimeOf(j: Json): (r: Result<Val, string>)
    ensures r.Ok? ==> r.value.Stamp?
    ensures j.JInt? ==> r == Ok(Stamp(j.i))
  {
    match j
    case JInt(i) => Ok(Stamp(i))
    case JBool(b) => Ok(Stamp(if b then 1 else 0))
    case JReal(x) => Ok(Stamp(Trunc(x)))
    case JStr(s) => (match ParseInt(s) case Some(n) => Ok(Stamp(n)) case None => Err("ValueError"))
    case _ => Err("TypeError")
  }

  /** The raw object the event's `login` converter hands to
      `LoginPreview.parse`: an empty user is replaced by one holding the
      self id, when there is a self id. */
  function PreviewRaw(raw: Dict<Json>): (r: Dict<Json>)
    requires HasKey(raw, "user")
    ensures JTruthy(Get(raw, "user").value) || !HasKey(raw, "self_id") ==> r == raw
    ensures !JTruthy(Get(raw, "user").value) && HasKey(raw, "self_id") ==>
      Get(r, "user") == Some(JObj([("id", Get(raw, "self_id").value)]))
    ensures Keys(r) == Keys(raw)
  {
    if JTruthy(Get(raw, "user").value) then raw
    else if HasKey(raw, "self_id") then Put(raw, "user", JObj([("id", Get(raw, "self_id").value)]))
    else raw
  }

  /** A field's converter applied to the raw value. */
  function Convert(c: Conv, j: Json): (r: Result<Val, string>)
    decreases 2 * ConvRank(c), 0
  {
    match c
    case Plain => Ok(Raw(j))
    case Enum(size) => EnumOf(size, j)
    case Time => TimeOf(j)
    case Nested(m) => if j.JObj? then ParseModel(m, j.fields) else Err("TypeError")
    case LoginOrPreview(login, preview) =>
      if !j.JObj? then Err("TypeError")
      else if HasKey(j.fields, "user") then ParseModel(preview, PreviewRaw(j.fields))
      else ParseModel(login, j.fields)
  }

  // ---------------------------------------------------------------------
  // ModelBase.parse
  // ---------------------------------------------------------------------

  /** The converted value of each field present in `raw`, `None` for each
      absent one; the first converter to fail raises. */
  function Converted(lvl: nat, fs: seq<FieldSpec>, raw: Dict<Json>): (r: Result<seq<Option<Val>>, string>)
    requires RankedBelow(lvl, fs)
    ensures r.Ok? ==> |r.value| == |fs|
    ensures r.Ok? ==> forall i :: 0 <= i < |fs| ==> (r.value[i].Some? <==> HasKey(raw, fs[i].name))
    decreases 2 * lvl + 1, |fs|
  {
    if |fs| == 0 then Ok([])
    else
      var head: Result<Option<Val>, string> :=
        match Get(raw, fs[0].name)
        case None => Ok(None)
        case Some(j) => (match Convert(fs[0].conv, j) case Ok(v) => Ok(Some(v)) case Err(e) => Err(e));
      assert RankedBelow(lvl, fs[1..]);
      match head
      case Err(e) => Err(e)
      case Ok(h) =>
        match Converted(lvl, fs[1..], raw)
        case Err(e) => Err(e)
        case Ok(t) => Ok([h] + t)
  }

  /** Each present field holds what its converter gives. */
  lemma {:induction false} ConvertedAt(lvl: nat, fs: seq<FieldSpec>, raw: Dict<Json>, i: nat)
    requires RankedBelow(lvl, fs) && Converted(lvl, fs, raw).Ok?
    requires i < |fs| && HasKey(raw, fs[i].name)
    ensures Convert(fs[i].conv, Get(raw, fs[i].name).value) == Ok(Converted(lvl, fs, raw).value[i].value)
    decreases |fs|
  {
    assert RankedBelow(lvl, fs[1..]);
    if i > 0 {
      ConvertedAt(lvl, fs[1..], raw, i - 1);
    }
  }

  /** When every present field converts, all of them do. */
  lemma {:induction false} ConvertedOk(lvl: nat, fs: seq<FieldSpec>, raw: Dict<Json>)
    requires RankedBelow(lvl, fs)
    requires forall i :: 0 <= i < |fs| && HasKey(raw, fs[i].name) ==> Convert(fs[i].conv, Get(raw, fs[i].name).value).Ok?
    ensures Converted(lvl, fs, raw).Ok?
    decreases |fs|
  {
    if |fs| > 0 {
      assert RankedBelow(lvl, fs[1..]);
      forall i | 0 <= i < |fs[1..]| && HasKey(raw, fs[1..][i].name)
        ensures Convert(fs[1..][i].conv, Get(raw, fs[1..][i].name).value).Ok?
      {
        assert fs[1..][i] == fs[i + 1];
      }
      ConvertedOk(lvl, fs[1..], raw);
    }
  }

  /** The value a field takes: the one given, else its default. */
  function Pick(given: Option<Val>, default: Option<Val>): Val
  {
    match given
    case Some(v) => v
    case None => (match default case Some(d) => d case None => NoneVal)
  }

  /** A field given no value and having no default. */
  predicate Missing(fs: seq<FieldSpec>, given: seq<Option<Val>>, i: int)
    requires |given| == |fs|
  {
    0 <= i < |fs| && given[i].None? && fs[i].default.None?
  }

  /** `cls(**data)`: every field takes its given value or its default; a
      required field left out raises `TypeError`. */
  function Fill(fs: seq<FieldSpec>, given: seq<Option<Val>>): (r: Result<seq<Val>, string>)
    requires |given| == |fs|
    ensures r.Err? <==> exists i :: 0 <= i < |fs| && Missing(fs, given, i)
    ensures r.Err? ==> r == Err("TypeError")
    ensures r.Ok? ==> |r.value| == |fs| && forall i :: 0 <= i < |fs| ==> r.value[i] == Pick(given[i], fs[i].default)
  {
    if exists i :: 0 <= i < |fs| && Missing(fs, given, i) then Err("TypeError")
    else Ok(seq(|fs|, i requires 0 <= i < |fs| => Pick(given[i], fs[i].default)))
  }

  /** The fields of a record of class `m` read from `raw`. */
  function Build(m: Model, raw: Dict<Json>): (r: Result<seq<Val>, string>)
    decreases 2 * Rank(m) + 1, |Spec(m)| + 1
  {
    SpecRanked(m);
    match Converted(Rank(m), Spec(m), raw)
    case Err(e) => Err(e)
    case Ok(given) => Fill(Spec(m), given)
  }

  /** `Class.parse(raw)`: a message first renders its raw elements into its
      content; the fields are then read, converted and defaulted; an event
      then checks that it can resolve its platform and self id. */
  function ParseModel(m: Model, raw: Dict<Json>): (r: Result<Val, string>)
    ensures r.Ok? ==> r.value.Inst? && r.value.m == m && |r.value.vals| == |Spec(m)|
    decreases 2 * Rank(m) + 1, |Spec(m)| + 2
  {
    match (if m == MessageM then Prepared(raw) else Ok(raw))
    case Err(e) => Err(e)
    case Ok(raw') => Checked(m, Build(m, raw'))
  }

  /** The record built from the fields, once an event has checked that it
      can resolve its platform and self id. */
  function Checked(m: Model, built: Result<seq<Val>, string>): (r: Result<Val, string>)
    ensures r.Ok? ==> built.Ok? && r.value == Inst(m, built.value)
  {
    match built
    case Err(e) => Err(e)
    case Ok(f) =>
      if m == EventM && (PlatformOf(Inst(m, f)).Err? || SelfIdOf(Inst(m, f)).Err?) then Err("ValueError")
      else Ok(Inst(m, f))
  }

  // ---------------------------------------------------------------------
  // Reading fields of a parsed record
  // ---------------------------------------------------------------------

  /** The position of the field called `name`. */
  function IndexOf(fs: seq<FieldSpec>, name: string): (r: Option<nat>)
    ensures r.Some? ==> r.value < |fs| && fs[r.value].name == name
    ensures r.None? ==> forall i :: 0 <= i < |fs| ==> fs[i].name != name
  {
    if |fs| == 0 then None
    else if fs[0].name == name then Some(0)
    else match IndexOf(fs[1..], name) case Some(i) => Some(i + 1) case None => None
  }

  /** `record.name`: the value of a field of a record, `None` when there
      is no such field. */
  function FieldOf(v: Val, name: string): Val
  {
    match v
    case Inst(m, vals) =>
      (match IndexOf(Spec(m), name)
       case Some(i) => if i < |vals| then vals[i] else NoneVal
       case None => NoneVal)
    case _ => NoneVal
  }

  /** `Login.id`: the self id when set, else the user's id when there is a
      user, else `None`; `LoginPreview.id`: the user's id. */
  function LoginId(login: Val): (r: Val)
    ensures login.Inst? && login.m == LoginM && Truthy(FieldOf(login, "self_id")) ==> r == FieldOf(login, "self_id")
    ensures login.Inst? && login.m == LoginM && !Truthy(FieldOf(login, "self_id")) && FieldOf(login, "user").Inst? ==>
      r == FieldOf(FieldOf(login, "user"), "id")
    ensures login.Inst? && login.m == LoginM && !Truthy(FieldOf(login, "self_id")) && !FieldOf(login, "user").Inst? ==>
      r == NoneVal
    ensures login.Inst? && login.m == LoginPreviewM ==> r == FieldOf(FieldOf(login, "user"), "id")
  {
    match login
    case Inst(LoginM, _) =>
      if Truthy(FieldOf(login, "self_id")) then FieldOf(login, "self_id")
      else if FieldOf(login, "user").Inst? then FieldOf(FieldOf(login, "user"), "id")
      else NoneVal
    case Inst(LoginPreviewM, _) => FieldOf(FieldOf(login, "user"), "id")
    case _ => NoneVal
  }

  /** `Event.platform_`: the event's platform when set, else its login's
      platform when set; otherwise `ValueError`. */
  function PlatformOf(event: Val): (r: Result<Val, string>)
    ensures r.Ok? ==> Truthy(r.value)
    ensures r.Ok? && Truthy(FieldOf(event, "platform")) ==> r.value == FieldOf(event, "platform")
    ensures r.Err? <==> (!Truthy(FieldOf(event, "platform")) &&
      !(FieldOf(event, "login").Inst? && Truthy(FieldOf(FieldOf(event, "login"), "platform"))))
  {
    var login := FieldOf(event, "login");
    if Truthy(FieldOf(event, "platform")) then Ok(FieldOf(event, "platform"))
    else if login.Inst? && Truthy(FieldOf(login, "platform")) then Ok(FieldOf(login, "platform"))
    else Err("ValueError")
  }

  /** `Event.self_id_`: the event's self id when set, else its login's id
      when set; otherwise `ValueError`. */
  function SelfIdOf(event: Val): (r: Result<Val, string>)
    ensures r.Ok? ==> Truthy(r.value)
    ensures r.Ok? && Truthy(FieldOf(event, "self_id")) ==> r.value == FieldOf(event, "self_id")
    ensures r.Err? <==> (!Truthy(FieldOf(event, "self_id")) &&
      !(FieldOf(event, "login").Inst? && Truthy(LoginId(FieldOf(event, "login")))))
  {
    var login := FieldOf(event, "login");
    if Truthy(FieldOf(event, "self_id")) then Ok(FieldOf(event, "self_id"))
    else if login.Inst? && Truthy(LoginId(login)) then Ok(LoginId(login))
    else Err("ValueError")
  }

  // ---------------------------------------------------------------------
  // Message content from raw elements
  // ---------------------------------------------------------------------

  /** A JSON scalar as a markup attribute value; other values are not
      modelled as attributes. */
  function AttrValue(j: Json): Option<T.Value>
  {
    match j
    case JNull => Some(T.Nil)
    case JBool(b) => Some(T.Bool(b))
    case JInt(i) => Some(T.Int(i))
    case JStr(s) => Some(T.Text(s))
    case _ => None
  }

  function AttrValues(d: Dict<Json>): (r: Option<Dict<T.Value>>)
    ensures r.Some? ==> Keys(r.value) == Keys(d)
  {
    if |d| == 0 then Some([])
    else match (AttrValue(d[0].1), AttrValues(d[1..]))
      case (Some(v), Some(rest)) => Some([(d[0].0, v)] + rest)
      case _ => None
  }

  /** One item of a content list: a scalar, or `ValueError` for a dict or a
      list, which `make_element` rejects. */
  function ContentOf(j: Json): Result<T.Content, string>
  {
    match j
    case JNull => Ok(T.NoContent)
    case JBool(b) => Ok(T.BoolContent(b))
    case JInt(i) => Ok(T.IntContent(i))
    case JStr(s) => Ok(T.StrContent(s))
    case JReal(_) => Err("float content is not modelled")
    case _ => Err("ValueError")
  }

  function ContentsOf(js: seq<Json>): (r: Result<seq<T.Content>, string>)
    ensures r.Ok? ==> |r.value| == |js|
  {
    if |js| == 0 then Ok([])
    else match (ContentOf(js[0]), ContentsOf(js[1..]))
      case (Ok(c), Ok(cs)) => Ok([c] + cs)
      case (Err(e), _) => Err(e)
      case (_, Err(e)) => Err(e)
  }

  /** A positional child argument: a list or a single content. */
  function FragmentOf(j: Json): Result<T.Fragment, string>
  {
    match j
    case JArr(items) => (match ContentsOf(items) case Ok(cs) => Ok(T.Many(cs)) case Err(e) => Err(e))
    case _ => (match ContentOf(j) case Ok(c) => Ok(T.One(c)) case Err(e) => Err(e))
  }

  function FragmentsOf(js: seq<Json>): (r: Result<seq<T.Fragment>, string>)
    ensures r.Ok? ==> |r.value| == |js|
  {
    if |js| == 0 then Ok([])
    else match (FragmentOf(js[0]), FragmentsOf(js[1..]))
      case (Ok(c), Ok(cs)) => Ok([c] + cs)
      case (Err(e), _) => Err(e)
      case (_, Err(e)) => Err(e)
  }

  /** `RawElement(*item.values())`: the item's values, in order, are the
      type, the attributes and the children. */
  function ElementOf(item: Json): (r: Result<T.Element, string>)
    ensures r.Ok? ==> item.JObj? && |item.fields| > 0 && item.fields[0].1 == JStr(r.value.kind)
  {
    if !item.JObj? then Err("AttributeError")
    else
      var vs := Values(item.fields);
      if |vs| == 0 then Err("TypeError")
      else if !vs[0].JStr? then Err("component types are not modelled")
      else
        var attrs: Result<Dict<T.Value>, string> :=
          if |vs| < 2 || !JTruthy(vs[1]) then Ok([])
          else if !vs[1].JObj? then Err("AttributeError")
          else (match AttrValues(vs[1].fields) case Some(a) => Ok(a) case None => Err("nested attribute values are not modelled"));
        match attrs
        case Err(e) => Err(e)
        case Ok(a) =>
          match FragmentsOf(if |vs| < 2 then [] else vs[2..])
          case Err(e) => Err(e)
          case Ok(fr) => T.Init(vs[0].s, a, fr)
  }

  /** `"".join(str(e) for e in elements)`. */
  function RenderItems(items: seq<Json>): Result<string, string>
  {
    if |items| == 0 then Ok("")
    else match ElementOf(items[0])
      case Err(e) => Err(e)
      case Ok(e) =>
        match T.Dumps(e, false)
        case Err(x) => Err(x)
        case Ok(s) => Prepend(s, RenderItems(items[1..]))
  }

  function Prepend(s: string, r: Result<string, string>): (r': Result<string, string>)
    ensures r.Ok? <==> r'.Ok?
    ensures r.Ok? ==> r'.value == s + r.value
  {
    match r
    case Ok(t) => Ok(s + t)
    case Err(e) => Err(e)
  }

  /** The first step of `MessageObject.parse`: with `elements` and without
      `content`, the content becomes the rendered elements. */
  function Prepared(raw: Dict<Json>): (r: Result<Dict<Json>, string>)
    ensures !(HasKey(raw, "elements") && !HasKey(raw, "content")) ==> r == Ok(raw)
    ensures r.Ok? && HasKey(raw, "elements") && !HasKey(raw, "content") ==>
      var es := Get(raw, "elements").value;
      es.JArr? && RenderItems(es.items).Ok? && Get(r.value, "content") == Some(JStr(RenderItems(es.items).value))
    ensures r.Ok? ==> forall k :: k != "content" ==> Get(r.value, k) == Get(raw, k)
  {
    if HasKey(raw, "elements") && !HasKey(raw, "content") then
      match Get(raw, "elements").value
      case JArr(items) =>
        (match RenderItems(items)
         case Ok(s) =>
           assert forall k :: k != "content" ==> Get(Put(raw, "content", JStr(s)), k) == Get(raw, k) by {
             forall k | k != "content" ensures Get(Put(raw, "content", JStr(s)), k) == Get(raw, k) {
               GetPutOther(raw, "content", JStr(s), k);
             }
           }
           Ok(Put(raw, "content", JStr(s)))
         case Err(e) => Err(e))
      case _ => Err("TypeError")
    else Ok(raw)
  }

  // ---------------------------------------------------------------------
  // dump
  // ---------------------------------------------------------------------

  /** A parsed value as `dump` writes it: enums by value, datetimes as
      milliseconds, nested records by their own `dump`. */
  function Unconv(v: Val): Json
    decreases v, 0
  {
    match v
    case Raw(j) => j
    case EnumV(n) => JInt(n)
    case Stamp(ms) => JInt(ms)
    case Inst(m, vals) => JObj(DumpFrom(vals, Spec(m), DumpOrder(m)))
  }

  /** The entries `dump` writes for the fields at the positions `order`:
      a field marked `Always` unconditionally, any other only when it is
      truthy. */
  function DumpFrom(vals: seq<Val>, fs: seq<FieldSpec>, order: seq<int>): (r: Dict<Json>)
    ensures |r| <= |order|
    decreases vals, |order|
  {
    if |order| == 0 then []
    else
      var i := order[0];
      var rest := DumpFrom(vals, fs, order[1..]);
      if 0 <= i < |vals| && i < |fs| && Dumps(fs[i], vals[i]) then [(fs[i].name, Unconv(vals[i]))] + rest
      else rest
  }

  /** Whether `dump` writes a field holding `v`. */
  predicate Dumps(f: FieldSpec, v: Val)
  {
    f.dumped == Always || Truthy(v)
  }

  /** `record.dump()` for every class but the event. */
  function Dump(m: Model, vals: seq<Val>): Json
  {
    Unconv(Inst(m, vals))
  }

  /** `Event.dump()`: id and type, then the resolved platform and self id,
      then the timestamp and every other field that is set. */
  function EventDump(vals: seq<Val>): (r: Result<Json, string>)
    ensures var e := Inst(EventM, vals);
      r.Ok? <==> PlatformOf(e).Ok? && SelfIdOf(e).Ok?
    ensures var e := Inst(EventM, vals);
      r.Ok? ==> (r.value.JObj? && Get(r.value.fields, "platform") == Some(Unconv(PlatformOf(e).value))
        && Get(r.value.fields, "self_id") == Some(Unconv(SelfIdOf(e).value)))
  {
    var e := Inst(EventM, vals);
    var p := PlatformOf(e);
    var sid := SelfIdOf(e);
    if p.Err? then Err(p.error)
    else if sid.Err? then Err(sid.error)
    else
      EventDumpKeys(vals, p.value, sid.value);
      Ok(JObj(EventEntries(vals, p.value, sid.value)))
  }

  function EventEntries(vals: seq<Val>, p: Val, sid: Val): Dict<Json>
  {
    var order := DumpOrder(EventM);
    DumpFrom(vals, Spec(EventM), order[..2]) + [("platform", Unconv(p)), ("self_id", Unconv(sid))]
      + DumpFrom(vals, Spec(EventM), order[2..])
  }

  /** The keys of a dump are names of the fields dumped. */
  lemma {:induction false} DumpFromKeys(vals: seq<Val>, fs: seq<FieldSpec>, order: seq<int>, k: string)
    requires HasKey(DumpFrom(vals, fs, order), k)
    ensures exists j :: 0 <= j < |order| && 0 <= order[j] < |fs| && fs[order[j]].name == k
    decreases |order|
  {
    var i := order[0];
    var rest := DumpFrom(vals, fs, order[1..]);
    if 0 <= i < |vals| && i < |fs| && Dumps(fs[i], vals[i]) && fs[i].name == k {
      assert 0 <= order[0] < |fs| && fs[order[0]].name == k;
    } else {
      assert HasKey(rest, k) by {
        if 0 <= i < |vals| && i < |fs| && Dumps(fs[i], vals[i]) {
          assert Keys([(fs[i].name, Unconv(vals[i]))] + rest) == [fs[i].name] + Keys(rest);
        }
      }
      DumpFromKeys(vals, fs, order[1..], k);
      var j :| 0 <= j < |order[1..]| && 0 <= order[1..][j] < |fs| && fs[order[1..][j]].name == k;
      assert order[j + 1] == order[1..][j];
    }
  }

  lemma EventDumpKeys(vals: seq<Val>, p: Val, sid: Val)
    ensures Get(EventEntries(vals, p, sid), "platform") == Some(Unconv(p))
    ensures Get(EventEntries(vals, p, sid), "self_id") == Some(Unconv(sid))
  {
    var spec := Spec(EventM);
    var head := DumpFrom(vals, spec, DumpOrder(EventM)[..2]);
    var tail := DumpFrom(vals, spec, DumpOrder(EventM)[2..]);
    EventHead();
    NotInFirstTwo(vals, spec, "platform");
    NotInFirstTwo(vals, spec, "self_id");
    MiddleKeys(head, Unconv(p), Unconv(sid), tail);
  }

  /** The platform and the self id, put between two parts that name
      neither, are read back. */
  lemma MiddleKeys(head: Dict<Json>, pv: Json, sv: Json, tail: Dict<Json>)
    requires !HasKey(head, "platform") && !HasKey(head, "self_id")
    ensures Get(head + [("platform", pv), ("self_id", sv)] + tail, "platform") == Some(pv)
    ensures Get(head + [("platform", pv), ("self_id", sv)] + tail, "self_id") == Some(sv)
  {
    var mid: Dict<Json> := [("platform", pv), ("self_id", sv)];
    var second: Dict<Json> := [("self_id", sv)] + tail;
    var first: Dict<Json> := [("platform", pv)] + second;
    assert head + mid + tail == head + first;
    GetAppendLeft(head, first, "platform");
    GetFront(("platform", pv), second, "platform");
    SelfIdAfterPlatform(head, pv, sv, tail);
  }

  lemma SelfIdAfterPlatform(head: Dict<Json>, pv: Json, sv: Json, tail: Dict<Json>)
    requires !HasKey(head, "self_id")
    ensures Get(head + ([("platform", pv)] + ([("self_id", sv)] + tail)), "self_id") == Some(sv)
  {
    var second: Dict<Json> := [("self_id", sv)] + tail;
    var first: Dict<Json> := [("platform", pv)] + second;
    GetAppendLeft(head, first, "self_id");
    GetFront(("platform", pv), second, "self_id");
    GetFront(("self_id", sv), tail, "self_id");
  }

  /** Looking up a key in a dict with one more entry in front. */
  lemma GetFront<V>(e: (string, V), rest: Dict<V>, k: string)
    ensures e.0 == k ==> Get([e] + rest, k) == Some(e.1)
    ensures e.0 != k ==> Get([e] + rest, k) == Get(rest, k)
  {
    assert ([e] + rest)[1..] == rest;
  }

  /** The entries for the first two fields hold only their names. */
  lemma NotInFirstTwo(vals: seq<Val>, fs: seq<FieldSpec>, k: string)
    requires |fs| >= 2 && k != fs[0].name && k != fs[1].name
    ensures !HasKey(DumpFrom(vals, fs, [0, 1]), k)
  {
    if HasKey(DumpFrom(vals, fs, [0, 1]), k) {
      DumpFromKeys(vals, fs, [0, 1], k);
    }
  }

  /** An event dump starts with the id and the type. */
  lemma EventHead()
    ensures DumpOrder(EventM)[..2] == [0, 1]
    ensures Spec(EventM)[0].name == "id" && Spec(EventM)[1].name == "type"
  {
  }

  /** Looking up a key the first part lacks reads the second part. */
  lemma {:induction false} GetAppendLeft<V>(a: Dict<V>, b: Dict<V>, k: string)
    requires !HasKey(a, k)
    ensures Get(a + b, k) == Get(b, k)
    decreases |a|
  {
    if |a| > 0 {
      assert Keys(a) == [a[0].0] + Keys(a[1..]);
      assert (a + b)[1..] == a[1..] + b;
      GetAppendLeft(a[1..], b, k);
    } else {
      assert a + b == b;
    }
  }

  // ---------------------------------------------------------------------
  // Reading back what dump wrote
  // ---------------------------------------------------------------------

  /** No two fields share a name. */
  predicate DistinctNames(fs: seq<FieldSpec>)
  {
    forall a, b :: 0 <= a < |fs| && 0 <= b < |fs| && a != b ==> fs[a].name != fs[b].name
  }

  function Names(fs: seq<FieldSpec>): (ns: seq<string>)
    ensures |ns| == |fs| && forall i :: 0 <= i < |fs| ==> ns[i] == fs[i].name
  {
    seq(|fs|, i requires 0 <= i < |fs| => fs[i].name)
  }

  /** Every position below `n` is listed. */
  predicate Covers(order: seq<int>, n: nat)
  {
    forall i :: 0 <= i < n ==> i in order
  }

  /** A field without a default is always written. */
  predicate RequiredDumped(fs: seq<FieldSpec>)
  {
    forall i :: 0 <= i < |fs| && fs[i].default.None? ==> fs[i].dumped == Always
  }

  /** A value `dump` writes so that the converter reads it back: JSON
      under no converter, a member of the enum, a datetime, a well-formed
      record of the nested class (never an event), and for the event's
      login a preview, or a login without a user. */
  predicate Fits(c: Conv, v: Val)
    decreases v, 2
  {
    match c
    case Plain => v.Raw?
    case Enum(size) => v.EnumV? && v.n < size
    case Time => v.Stamp?
    case Nested(m) => v.Inst? && v.m == m && m != EventM && Shaped(m, v.vals)
    case LoginOrPreview(login, preview) =>
      login == LoginM && preview == LoginPreviewM && v.Inst? && Shaped(v.m, v.vals) &&
      (v.m == LoginPreviewM || (v.m == LoginM && !Truthy(v.vals[1])))
  }

  /** A field's value: one `dump` writes and the converter reads back, or,
      when `dump` leaves it out, the field's default. */
  predicate FieldFits(f: FieldSpec, v: Val)
    decreases v, 3
  {
    if Dumps(f, v) then Fits(f.conv, v) else Some(v) == f.default
  }

  /** A well-formed record of class `m`: one value per field, each fitting
      its field. */
  predicate Shaped(m: Model, vals: seq<Val>)
    decreases vals, 1
  {
    |vals| == |Spec(m)| && forall i :: 0 <= i < |vals| ==> FieldFits(Spec(m)[i], vals[i])
  }

  /** The entry `dump` wrote for a field is found under its name, and there
      is none when the field was left out. */
  lemma {:induction false} DumpGet(vals: seq<Val>, fs: seq<FieldSpec>, order: seq<int>, i: nat)
    requires DistinctNames(fs) && |vals| == |fs| && i < |fs|
    ensures Get(DumpFrom(vals, fs, order), fs[i].name) ==
      if i in order && Dumps(fs[i], vals[i]) then Some(Unconv(vals[i])) else None
    decreases |order|
  {
    if |order| > 0 {
      var h := order[0];
      var rest := DumpFrom(vals, fs, order[1..]);
      DumpGet(vals, fs, order[1..], i);
      assert i in order <==> h == i || i in order[1..] by {
        assert order == [h] + order[1..];
      }
      if 0 <= h < |vals| && h < |fs| && Dumps(fs[h], vals[h]) {
        assert DumpFrom(vals, fs, order) == [(fs[h].name, Unconv(vals[h]))] + rest;
      }
    }
  }

  /** The per-class facts the round trip rests on. */
  lemma SpecFacts(m: Model)
    requires m != EventM
    ensures DistinctNames(Spec(m)) && Covers(DumpOrder(m), |Spec(m)|) && RequiredDumped(Spec(m))
  {
    match m
    case ChannelM => ChannelFacts();
    case GuildM => GuildFacts();
    case UserM => UserFacts();
    case MemberM => MemberFacts();
    case RoleM => RoleFacts();
    case LoginM => LoginFacts();
    case LoginPreviewM => LoginPreviewFacts();
    case ArgvM => ArgvFacts();
    case ButtonM => ButtonFacts();
    case MessageM => MessageFacts();
  }

  lemma ChannelFacts()
    ensures DistinctNames(Spec(ChannelM)) && Covers(DumpOrder(ChannelM), |Spec(ChannelM)|) && RequiredDumped(Spec(ChannelM))
  {
  }

  lemma GuildFacts()
    ensures DistinctNames(Spec(GuildM)) && Covers(DumpOrder(GuildM), |Spec(GuildM)|) && RequiredDumped(Spec(GuildM))
  {
  }

  lemma UserFacts()
    ensures DistinctNames(Spec(UserM)) && Covers(DumpOrder(UserM), |Spec(UserM)|) && RequiredDumped(Spec(UserM))
  {
  }

  lemma MemberFacts()
    ensures DistinctNames(Spec(MemberM)) && Covers(DumpOrder(MemberM), |Spec(MemberM)|) && RequiredDumped(Spec(MemberM))
  {
  }

  lemma RoleFacts()
    ensures DistinctNames(Spec(RoleM)) && Covers(DumpOrder(RoleM), |Spec(RoleM)|) && RequiredDumped(Spec(RoleM))
  {
  }

  lemma LoginFacts()
    ensures DistinctNames(Spec(LoginM)) && Covers(DumpOrder(LoginM), |Spec(LoginM)|) && RequiredDumped(Spec(LoginM))
  {
    var ns := ["status", "user", "self_id", "platform", "features", "proxy_urls"];
    assert Names(Spec(LoginM)) == ns;
    forall a | 0 <= a < 6 ensures forall b :: 0 <= b < 6 && a != b ==> ns[a] != ns[b] {
      assert ns[3][0] == 'p' && ns[4][0] == 'f';
    }
  }

  lemma LoginPreviewFacts()
    ensures DistinctNames(Spec(LoginPreviewM)) && Covers(DumpOrder(LoginPreviewM), |Spec(LoginPreviewM)|)
      && RequiredDumped(Spec(LoginPreviewM))
  {
  }

  lemma ArgvFacts()
    ensures DistinctNames(Spec(ArgvM)) && Covers(DumpOrder(ArgvM), |Spec(ArgvM)|) && RequiredDumped(Spec(ArgvM))
  {
  }

  lemma ButtonFacts()
    ensures DistinctNames(Spec(ButtonM)) && Covers(DumpOrder(ButtonM), |Spec(ButtonM)|) && RequiredDumped(Spec(ButtonM))
  {
  }

  lemma MessageFacts()
    ensures DistinctNames(Spec(MessageM)) && Covers(DumpOrder(MessageM), |Spec(MessageM)|) && RequiredDumped(Spec(MessageM))
  {
    MessageNames();
  }

  lemma MessageNames()
    ensures DistinctNames(Spec(MessageM))
  {
    var ns := ["id", "content", "channel", "guild", "member", "user", "created_at", "updated_at"];
    assert Names(Spec(MessageM)) == ns;
    forall a | 0 <= a < 8 ensures forall b :: 0 <= b < 8 && a != b ==> ns[a] != ns[b] {
      assert ns[2][6] == 'l' && ns[1][6] == 't';
      assert ns[6][0] == 'c' && ns[7][0] == 'u';
    }
  }

  /** Reading back the fields `dump` wrote gives every field its value:
      the written ones through their converters, the others through their
      defaults. */
  lemma FieldsBack(lvl: nat, fs: seq<FieldSpec>, order: seq<int>, vals: seq<Val>)
    requires RankedBelow(lvl, fs) && DistinctNames(fs) && Covers(order, |fs|) && RequiredDumped(fs)
    requires |vals| == |fs| && forall i :: 0 <= i < |fs| ==> FieldFits(fs[i], vals[i])
    requires forall i :: 0 <= i < |fs| && Dumps(fs[i], vals[i]) ==> Convert(fs[i].conv, Unconv(vals[i])) == Ok(vals[i])
    ensures Converted(lvl, fs, DumpFrom(vals, fs, order)).Ok?
    ensures Fill(fs, Converted(lvl, fs, DumpFrom(vals, fs, order)).value) == Ok(vals)
  {
    var raw := DumpFrom(vals, fs, order);
    forall i | 0 <= i < |fs|
      ensures Get(raw, fs[i].name) == if Dumps(fs[i], vals[i]) then Some(Unconv(vals[i])) else None
    {
      DumpGet(vals, fs, order, i);
    }
    ConvertedOk(lvl, fs, raw);
    var given := Converted(lvl, fs, raw).value;
    forall i | 0 <= i < |fs|
      ensures given[i] == if Dumps(fs[i], vals[i]) then Some(vals[i]) else None
    {
      if Dumps(fs[i], vals[i]) {
        ConvertedAt(lvl, fs, raw, i);
      }
    }
    assert forall i :: 0 <= i < |fs| ==> !Missing(fs, given, i) && Pick(given[i], fs[i].default) == vals[i];
    assert Fill(fs, given).value == vals;
  }

  /** `Class.parse(record.dump())` gives the record back, for every class
      but the event. */
  lemma RoundTrip(m: Model, vals: seq<Val>)
    requires m != EventM && Shaped(m, vals)
    ensures ParseModel(m, DumpFrom(vals, Spec(m), DumpOrder(m))) == Ok(Inst(m, vals))
    decreases vals, 1
  {
    SpecRanked(m);
    SpecFacts(m);
    var fs := Spec(m);
    forall i | 0 <= i < |fs| && Dumps(fs[i], vals[i])
      ensures Convert(fs[i].conv, Unconv(vals[i])) == Ok(vals[i])
    {
      ConvRoundTrip(fs[i].conv, vals[i]);
    }
    FieldsBack(Rank(m), fs, DumpOrder(m), vals);
    if m == MessageM {
      ContentWritten(vals);
    }
  }

  /** A field's converter reads back what `dump` wrote for it. */
  lemma ConvRoundTrip(c: Conv, v: Val)
    requires Fits(c, v)
    ensures Convert(c, Unconv(v)) == Ok(v)
    decreases v, 2
  {
    match c
    case Nested(m) =>
      RoundTrip(m, v.vals);
    case LoginOrPreview(_, _) =>
      RoundTrip(v.m, v.vals);
      if v.m == LoginPreviewM {
        ConvPreview(c, v);
      } else {
        ConvLogin(c, v);
      }
    case _ =>
  }

  /** A dumped preview holds a user, so it is read back as a preview. */
  lemma ConvPreview(c: Conv, v: Val)
    requires c.LoginOrPreview? && v.Inst? && v.m == LoginPreviewM && v.m == c.preview && Shaped(v.m, v.vals)
    ensures var raw := DumpFrom(v.vals, Spec(v.m), DumpOrder(v.m));
            Unconv(v) == JObj(raw) && Convert(c, JObj(raw)) == ParseModel(v.m, raw)
  {
    var raw := DumpFrom(v.vals, Spec(v.m), DumpOrder(v.m));
    PreviewUserWritten(v.vals);
    ConvertPreview(c, raw);
  }

  /** A dumped login without a user is read back as a login. */
  lemma ConvLogin(c: Conv, v: Val)
    requires c.LoginOrPreview? && v.Inst? && v.m == LoginM && v.m == c.login
    requires Shaped(v.m, v.vals) && !Truthy(v.vals[1])
    ensures var raw := DumpFrom(v.vals, Spec(v.m), DumpOrder(v.m));
            Unconv(v) == JObj(raw) && Convert(c, JObj(raw)) == ParseModel(v.m, raw)
  {
    var raw := DumpFrom(v.vals, Spec(v.m), DumpOrder(v.m));
    LoginFacts();
    DumpGet(v.vals, Spec(LoginM), DumpOrder(LoginM), 1);
    ConvertLogin(c, raw);
  }

  /** An object holding a non-empty user goes to the preview class as it is. */
  lemma ConvertPreview(c: Conv, raw: Dict<Json>)
    requires c.LoginOrPreview? && HasKey(raw, "user") && JTruthy(Get(raw, "user").value)
    ensures Convert(c, JObj(raw)) == ParseModel(c.preview, raw)
  {
    assert PreviewRaw(raw) == raw;
  }

  /** An object without a user goes to the login class. */
  lemma ConvertLogin(c: Conv, raw: Dict<Json>)
    requires c.LoginOrPreview? && !HasKey(raw, "user")
    ensures Convert(c, JObj(raw)) == ParseModel(c.login, raw)
  {
  }

  /** A message's dump always holds its content. */
  lemma ContentWritten(vals: seq<Val>)
    requires |vals| == |Spec(MessageM)|
    ensures HasKey(DumpFrom(vals, Spec(MessageM), DumpOrder(MessageM)), "content")
  {
    MessageFacts();
    DumpGet(vals, Spec(MessageM), DumpOrder(MessageM), 1);
  }

  /** A preview's dump holds a non-empty user, so the event's login
      converter passes it on unchanged. */
  lemma PreviewUserWritten(vals: seq<Val>)
    requires Shaped(LoginPreviewM, vals)
    ensures var raw := DumpFrom(vals, Spec(LoginPreviewM), DumpOrder(LoginPreviewM));
      HasKey(raw, "user") && JTruthy(Get(raw, "user").value)
  {
    LoginPreviewFacts();
    DumpGet(vals, Spec(LoginPreviewM), DumpOrder(LoginPreviewM), 0);
    var f := Spec(LoginPreviewM)[0];
    assert f == Req("user", Nested(UserM));
    assert FieldFits(f, vals[0]) && Dumps(f, vals[0]);
    UserWritten(vals[0]);
  }

  /** A user's dump holds its id, so it is never empty. */
  lemma UserWritten(user: Val)
    requires Fits(Nested(UserM), user)
    ensures JTruthy(Unconv(user))
  {
    UserFacts();
    DumpGet(user.vals, Spec(UserM), DumpOrder(UserM), 0);
  }

  /** The event's field list: names apart, and a required field is always
      written. */
  lemma EventFacts()
    ensures DistinctNames(Spec(EventM)) && RequiredDumped(Spec(EventM))
  {
    EventNamesListed();
    EventNamesApart();
  }

  const EventNames: seq<string> :=
    ["id", "type", "timestamp", "platform", "self_id", "argv", "button", "channel", "guild",
     "login", "member", "message", "operator", "role", "user", "_type", "_data"]

  lemma EventNamesListed()
    ensures Names(Spec(EventM)) == EventNames
  {
  }

  /** The first character of each event field name. */
  const EventNameHeads: string := "ittpsabcglmmoru__"

  /** The event's field names are told apart by their first character,
      except three pairs, which differ at their second or third. */
  lemma EventNamesApart()
    ensures forall a, b :: 0 <= a < 17 && 0 <= b < 17 && a != b ==> EventNames[a] != EventNames[b]
  {
    var ns := EventNames;
    forall a | 0 <= a < 17 ensures |ns[a]| > 1 && ns[a][0] == EventNameHeads[a] {}
    assert ns[1][1] == 'y' && ns[2][1] == 'i';
    assert ns[10][2] == 'm' && ns[11][2] == 's';
    assert ns[15][1] == 't' && ns[16][1] == 'd';
  }

  /** The order of the keys in an event's dump, as positions in its field
      list: id, type, platform, self id, timestamp, then the rest. */
  const EventWriteOrder: seq<int> := [0, 1, 3, 4, 2, 5, 6, 7, 8, 9, 10, 11, 12, 13, 14, 15, 16]

  /** Dumping the fields at two runs of positions writes the entries of
      the first run, then those of the second. */
  lemma {:induction false} DumpFromAppend(vals: seq<Val>, fs: seq<FieldSpec>, o1: seq<int>, o2: seq<int>)
    ensures DumpFrom(vals, fs, o1 + o2) == DumpFrom(vals, fs, o1) + DumpFrom(vals, fs, o2)
    decreases |o1|
  {
    if |o1| == 0 {
      assert o1 + o2 == o2;
    } else {
      assert (o1 + o2)[0] == o1[0] && (o1 + o2)[1..] == o1[1..] + o2;
      DumpFromAppend(vals, fs, o1[1..], o2);
    }
  }

  /** A field is found at its own position when no other shares its name. */
  lemma IndexOfDistinct(fs: seq<FieldSpec>, i: nat)
    requires DistinctNames(fs) && i < |fs|
    ensures IndexOf(fs, fs[i].name) == Some(i)
  {
  }

  /** `record.name` reads the field of that name. */
  lemma FieldOfAt(m: Model, vals: seq<Val>, i: nat)
    requires DistinctNames(Spec(m)) && |vals| == |Spec(m)| && i < |vals|
    ensures FieldOf(Inst(m, vals), Spec(m)[i].name) == vals[i]
  {
    IndexOfDistinct(Spec(m), i);
  }

  /** Where the event keeps its platform and self id. */
  lemma EventOwnFields()
    ensures |Spec(EventM)| == 17
    ensures Spec(EventM)[3] == Opt("platform", Plain) && Spec(EventM)[4] == Opt("self_id", Plain)
  {
  }

  /** An event with its own platform and self id resolves them to
      themselves. */
  lemma EventResolvesOwn(vals: seq<Val>)
    requires |vals| == |Spec(EventM)| && Truthy(vals[3]) && Truthy(vals[4])
    ensures PlatformOf(Inst(EventM, vals)) == Ok(vals[3])
    ensures SelfIdOf(Inst(EventM, vals)) == Ok(vals[4])
  {
    EventFacts();
    EventOwnFields();
    FieldOfAt(EventM, vals, 3);
    FieldOfAt(EventM, vals, 4);
  }

  /** Two fields that are both written. */
  lemma DumpTwo(vals: seq<Val>, fs: seq<FieldSpec>, a: nat, b: nat)
    requires a < |fs| && b < |fs| && |vals| == |fs| && Dumps(fs[a], vals[a]) && Dumps(fs[b], vals[b])
    ensures DumpFrom(vals, fs, [a, b]) == [(fs[a].name, Unconv(vals[a])), (fs[b].name, Unconv(vals[b]))]
  {
    assert [a, b][1..] == [b];
    assert [b][1..] == [];
  }

  /** With its own platform and self id, an event's dump writes every
      field in the order of `EventWriteOrder`. */
  lemma EventEntriesOwn(vals: seq<Val>)
    requires |vals| == |Spec(EventM)| && Truthy(vals[3]) && Truthy(vals[4])
    ensures EventEntries(vals, vals[3], vals[4]) == DumpFrom(vals, Spec(EventM), EventWriteOrder)
  {
    var fs, order := Spec(EventM), DumpOrder(EventM);
    EventOwnFields();
    assert Dumps(fs[3], vals[3]) && Dumps(fs[4], vals[4]);
    Splice(vals, fs, order);
    EventOrderSplit();
  }

  /** Writing the platform and self id between the first two fields and
      the rest is dumping positions 3 and 4 there. */
  lemma Splice(vals: seq<Val>, fs: seq<FieldSpec>, order: seq<int>)
    requires |vals| == |fs| > 4 && |order| >= 2
    requires fs[3].name == "platform" && fs[4].name == "self_id" && Dumps(fs[3], vals[3]) && Dumps(fs[4], vals[4])
    ensures DumpFrom(vals, fs, order[..2]) + [("platform", Unconv(vals[3])), ("self_id", Unconv(vals[4]))]
      + DumpFrom(vals, fs, order[2..]) == DumpFrom(vals, fs, order[..2] + ([3, 4] + order[2..]))
  {
    DumpFromAppend(vals, fs, order[..2], [3, 4] + order[2..]);
    DumpFromAppend(vals, fs, [3, 4], order[2..]);
    DumpTwo(vals, fs, 3, 4);
  }

  /** The dump order is id and type, platform and self id, then the rest. */
  lemma EventOrderSplit()
    ensures EventWriteOrder == DumpOrder(EventM)[..2] + ([3, 4] + DumpOrder(EventM)[2..])
  {
  }

  /** Every position of the event's field list is written. */
  lemma EventOrderCovers()
    ensures Covers(EventWriteOrder, |Spec(EventM)|)
  {
    forall i | 0 <= i < 17 ensures i in EventWriteOrder {
      var j := if i < 2 then i else if i == 2 then 4 else if i < 5 then i - 1 else i;
      assert EventWriteOrder[j] == i;
    }
  }

  /** `Event.parse(event.dump())` gives the event back when it carries its
      own platform and self id. */
  lemma EventRoundTrip(vals: seq<Val>)
    requires Shaped(EventM, vals) && Truthy(vals[3]) && Truthy(vals[4])
    ensures EventDump(vals).Ok?
    ensures ParseModel(EventM, EventDump(vals).value.fields) == Ok(Inst(EventM, vals))
  {
    var fs := Spec(EventM);
    EventFacts();
    EventResolvesOwn(vals);
    EventEntriesOwn(vals);
    EventOrderCovers();
    SpecRanked(EventM);
    forall i | 0 <= i < |fs| && Dumps(fs[i], vals[i])
      ensures Convert(fs[i].conv, Unconv(vals[i])) == Ok(vals[i])
    {
      ConvRoundTrip(fs[i].conv, vals[i]);
    }
    FieldsBack(Rank(EventM), fs, EventWriteOrder, vals);
  }

  // ---------------------------------------------------------------------
  // What parse reads and rejects
  // ---------------------------------------------------------------------

  /** Converters agree on raw objects that agree on every field name. */
  lemma {:induction false} ConvertedAgree(lvl: nat, fs: seq<FieldSpec>, raw: Dict<Json>, raw': Dict<Json>)
    requires RankedBelow(lvl, fs)
    requires forall j :: 0 <= j < |fs| ==> Get(raw, fs[j].name) == Get(raw', fs[j].name)
    ensures Converted(lvl, fs, raw) == Converted(lvl, fs, raw')
    decreases |fs|
  {
    if |fs| > 0 {
      assert RankedBelow(lvl, fs[1..]);
      assert Get(raw, fs[0].name) == Get(raw', fs[0].name);
      forall j | 0 <= j < |fs[1..]| ensures Get(raw, fs[1..][j].name) == Get(raw', fs[1..][j].name) {
        assert fs[1..][j] == fs[j + 1];
      }
      ConvertedAgree(lvl, fs[1..], raw, raw');
    }
  }

  /** Keys that name no field are ignored: raw objects that agree on every
      field name (and, for a message, on its raw elements) parse alike. */
  lemma ParseAgree(m: Model, raw: Dict<Json>, raw': Dict<Json>)
    requires forall j :: 0 <= j < |Spec(m)| ==> Get(raw, Spec(m)[j].name) == Get(raw', Spec(m)[j].name)
    requires m == MessageM ==> Get(raw, "elements") == Get(raw', "elements")
    ensures ParseModel(m, raw) == ParseModel(m, raw')
  {
    if m == MessageM {
      PreparedAgree(raw, raw');
      MessageBuildAgree(raw, raw');
      MessageParseAgree(raw, raw');
    } else {
      OtherParseAgree(m, raw, raw');
    }
  }

  lemma OtherParseAgree(m: Model, raw: Dict<Json>, raw': Dict<Json>)
    requires m != MessageM
    requires forall j :: 0 <= j < |Spec(m)| ==> Get(raw, Spec(m)[j].name) == Get(raw', Spec(m)[j].name)
    ensures ParseModel(m, raw) == ParseModel(m, raw')
  {
    BuildAgree(m, raw, raw');
  }

  lemma BuildAgree(m: Model, raw: Dict<Json>, raw': Dict<Json>)
    requires forall j :: 0 <= j < |Spec(m)| ==> Get(raw, Spec(m)[j].name) == Get(raw', Spec(m)[j].name)
    ensures Build(m, raw) == Build(m, raw')
  {
    SpecRanked(m);
    ConvertedAgree(Rank(m), Spec(m), raw, raw');
  }

  lemma MessageParseAgree(raw: Dict<Json>, raw': Dict<Json>)
    requires Prepared(raw).Ok? <==> Prepared(raw').Ok?
    requires Prepared(raw).Ok? ==> Build(MessageM, Prepared(raw).value) == Build(MessageM, Prepared(raw').value)
    requires Prepared(raw).Err? ==> Prepared(raw) == Prepared(raw')
    ensures ParseModel(MessageM, raw) == ParseModel(MessageM, raw')
  {
  }

  lemma MessageBuildAgree(raw: Dict<Json>, raw': Dict<Json>)
    requires Prepared(raw).Ok? <==> Prepared(raw').Ok?
    requires Prepared(raw).Ok? ==> forall j :: 0 <= j < |Spec(MessageM)| ==>
      Get(Prepared(raw).value, Spec(MessageM)[j].name) == Get(Prepared(raw').value, Spec(MessageM)[j].name)
    ensures Prepared(raw).Ok? ==> Build(MessageM, Prepared(raw).value) == Build(MessageM, Prepared(raw').value)
  {
    SpecRanked(MessageM);
    if Prepared(raw).Ok? {
      ConvertedAgree(Rank(MessageM), Spec(MessageM), Prepared(raw).value, Prepared(raw').value);
    }
  }

  /** Rendering the raw elements keeps two messages that agree on their
      fields and elements in agreement. */
  lemma PreparedAgree(raw: Dict<Json>, raw': Dict<Json>)
    requires forall j :: 0 <= j < |Spec(MessageM)| ==> Get(raw, Spec(MessageM)[j].name) == Get(raw', Spec(MessageM)[j].name)
    requires Get(raw, "elements") == Get(raw', "elements")
    ensures Prepared(raw).Ok? <==> Prepared(raw').Ok?
    ensures Prepared(raw).Err? ==> Prepared(raw) == Prepared(raw')
    ensures Prepared(raw).Ok? ==> forall j :: 0 <= j < |Spec(MessageM)| ==>
      Get(Prepared(raw).value, Spec(MessageM)[j].name) == Get(Prepared(raw').value, Spec(MessageM)[j].name)
  {
    var fs := Spec(MessageM);
    assert fs[1].name == "content";
    assert Get(raw, "content") == Get(raw', "content");
    if Prepared(raw).Ok? {
      var p, p' := Prepared(raw).value, Prepared(raw').value;
      forall j | 0 <= j < |fs|
        ensures Get(p, fs[j].name) == Get(p', fs[j].name)
      {
        var k := fs[j].name;
        if k != "content" {
          assert Get(p, k) == Get(raw, k) && Get(p', k) == Get(raw', k);
        }
      }
    }
  }

  /** The fields of a record with a required field missing: an error, and
      `TypeError` once every present field converts. */
  lemma BuildMissing(m: Model, raw: Dict<Json>, i: nat)
    requires i < |Spec(m)| && Spec(m)[i].default.None? && !HasKey(raw, Spec(m)[i].name)
    ensures Build(m, raw).Err?
    ensures (forall j :: 0 <= j < |Spec(m)| && HasKey(raw, Spec(m)[j].name) ==>
      Convert(Spec(m)[j].conv, Get(raw, Spec(m)[j].name).value).Ok?) ==> Build(m, raw) == Err("TypeError")
  {
    SpecRanked(m);
    var c := Converted(Rank(m), Spec(m), raw);
    if c.Ok? {
      assert Missing(Spec(m), c.value, i);
    }
    if forall j :: 0 <= j < |Spec(m)| && HasKey(raw, Spec(m)[j].name) ==>
      Convert(Spec(m)[j].conv, Get(raw, Spec(m)[j].name).value).Ok? {
      ConvertedOk(Rank(m), Spec(m), raw);
    }
  }

  /** A record missing a required field does not parse; when every field
      present converts, the error is the constructor's `TypeError`. */
  lemma RequiredMissing(m: Model, raw: Dict<Json>, i: nat)
    requires i < |Spec(m)| && Spec(m)[i].default.None? && !HasKey(raw, Spec(m)[i].name)
    requires m == MessageM ==> Spec(m)[i].name != "content"
    ensures ParseModel(m, raw).Err?
    ensures (m != MessageM && forall j :: 0 <= j < |Spec(m)| && HasKey(raw, Spec(m)[j].name) ==>
               Convert(Spec(m)[j].conv, Get(raw, Spec(m)[j].name).value).Ok?)
      ==> ParseModel(m, raw) == Err("TypeError")
  {
    if m == MessageM {
      var p := Prepared(raw);
      if p.Ok? {
        assert !HasKey(p.value, Spec(m)[i].name) by {
          assert Get(p.value, Spec(m)[i].name) == Get(raw, Spec(m)[i].name);
        }
        BuildMissing(m, p.value, i);
      }
    } else {
      BuildMissing(m, raw, i);
    }
  }

  /** A parsed event can always be dumped: parse already resolved its
      platform and self id. */
  lemma ParsedEventDumps(raw: Dict<Json>)
    requires ParseModel(EventM, raw).Ok?
    ensures EventDump(ParseModel(EventM, raw).value.vals).Ok?
  {
    var f := Build(EventM, raw).value;
    assert ParseModel(EventM, raw).value == Inst(EventM, f);
  }

  /** An event whose fields were read but which can resolve no platform is
      rejected with `ValueError`. */
  lemma EventNeedsPlatform(raw: Dict<Json>)
    requires Build(EventM, raw).Ok? && PlatformOf(Inst(EventM, Build(EventM, raw).value)).Err?
    ensures ParseModel(EventM, raw) == Err("ValueError")
  {
  }

  // ---------------------------------------------------------------------
  // Dumps that do not read back as written
  // ---------------------------------------------------------------------

  /** Records that differ only in fields `dump` leaves out dump alike. */
  lemma {:induction false} DumpFromUnwritten(vals: seq<Val>, vals': seq<Val>, fs: seq<FieldSpec>, order: seq<int>)
    requires |vals| == |vals'| == |fs|
    requires forall i :: 0 <= i < |fs| ==> Dumps(fs[i], vals[i]) == Dumps(fs[i], vals'[i])
    requires forall i :: 0 <= i < |fs| && Dumps(fs[i], vals[i]) ==> vals[i] == vals'[i]
    ensures DumpFrom(vals, fs, order) == DumpFrom(vals', fs, order)
    decreases |order|
  {
    if |order| > 0 {
      DumpFromUnwritten(vals, vals', fs, order[1..]);
    }
  }

  /** A login preview whose status is OFFLINE (0, a false enum member)
      dumps without a status and reads back with status `None`. */
  lemma {:induction false} OfflinePreviewLosesStatus(vals: seq<Val>)
    requires |vals| > 2 && vals[2] == EnumV(0) && Shaped(LoginPreviewM, vals[2 := NoneVal])
    ensures ParseModel(LoginPreviewM, DumpFrom(vals, Spec(LoginPreviewM), DumpOrder(LoginPreviewM)))
      == Ok(Inst(LoginPreviewM, vals[2 := NoneVal]))
    ensures vals[2 := NoneVal] != vals
  {
    var fs := Spec(LoginPreviewM);
    assert Dumps(fs[2], vals[2]) == Dumps(fs[2], NoneVal);
    DumpFromUnwritten(vals, vals[2 := NoneVal], fs, DumpOrder(LoginPreviewM));
    RoundTrip(LoginPreviewM, vals[2 := NoneVal]);
  }

  /** The event's login converter reads a dumped login that has a user
      as a login preview, never as the login it was. */
  lemma LoginWithUserReadAsPreview(vals: seq<Val>)
    requires |vals| == |Spec(LoginM)| && vals[1].Inst?
    ensures var r := Convert(LoginOrPreview(LoginM, LoginPreviewM), Dump(LoginM, vals));
      r.Ok? ==> r.value.m == LoginPreviewM
  {
    LoginUserWritten(vals);
  }

  lemma LoginUserWritten(vals: seq<Val>)
    requires |vals| == |Spec(LoginM)| && vals[1].Inst?
    ensures Dump(LoginM, vals).JObj? && HasKey(Dump(LoginM, vals).fields, "user")
  {
    LoginFacts();
    DumpGet(vals, Spec(LoginM), DumpOrder(LoginM), 1);
  }

  // ---------------------------------------------------------------------
  // Paged results
  // ---------------------------------------------------------------------

  /** `PageResult` and `PageDequeResult`: the records, the cursor of the
      next page and, for a deque page, that of the previous one (`null`
      when there is none). */
  datatype Page = Page(data: seq<Val>, next: Json, prev: Json)

  /** `raw.get(key)`: the value, or `None` when the key is absent. */
  function OrNull(o: Option<Json>): Json
  {
    match o
    case Some(j) => j
    case None => JNull
  }

  /** One item read with the class's `parse`. */
  function ParseItem(m: Model, item: Json): (r: Result<Val, string>)
    ensures r.Ok? ==> r.value.Inst? && r.value.m == m
  {
    if item.JObj? then ParseModel(m, item.fields) else Err("TypeError")
  }

  /** Each item read with the class's `parse`; the first that fails raises. */
  function ParseItems(m: Model, items: seq<Json>): (r: Result<seq<Val>, string>)
    ensures r.Ok? ==> |r.value| == |items| && forall i :: 0 <= i < |items| ==> ParseItem(m, items[i]) == Ok(r.value[i])
  {
    if |items| == 0 then Ok([])
    else match (ParseItem(m, items[0]), ParseItems(m, items[1..]))
      case (Ok(v), Ok(vs)) => Ok([v] + vs)
      case (Err(e), _) => Err(e)
      case (_, Err(e)) => Err(e)
  }

  /** `PageResult.parse(raw, Class.parse)` and, when `deque`,
      `PageDequeResult.parse`: without `data` it raises `KeyError`. */
  function ParsePage(m: Model, raw: Dict<Json>, deque: bool): (r: Result<Page, string>)
    ensures !HasKey(raw, "data") ==> r == Err("KeyError")
    ensures r.Ok? ==> (Get(raw, "data").Some? && Get(raw, "data").value.JArr? &&
                       ParseItems(m, Get(raw, "data").value.items) == Ok(r.value.data))
    ensures r.Ok? ==> r.value.next == OrNull(Get(raw, "next"))
    ensures r.Ok? ==> r.value.prev == if deque then OrNull(Get(raw, "prev")) else JNull
  {
    match Get(raw, "data")
    case None => Err("KeyError")
    case Some(data) =>
      if !data.JArr? then Err("TypeError")
      else match ParseItems(m, data.items)
        case Err(e) => Err(e)
        case Ok(vs) => Ok(Page(vs, OrNull(Get(raw, "next")), if deque then OrNull(Get(raw, "prev")) else JNull))
  }

  /** `item.dump()`: an event resolves its platform and self id. */
  function ItemDump(v: Val): Result<Json, string>
  {
    if v.Inst? && v.m == EventM then EventDump(v.vals) else Ok(Unconv(v))
  }

  function DumpItems(vs: seq<Val>): (r: Result<seq<Json>, string>)
    ensures r.Ok? ==> |r.value| == |vs| && forall i :: 0 <= i < |vs| ==> ItemDump(vs[i]) == Ok(r.value[i])
  {
    if |vs| == 0 then Ok([])
    else match (ItemDump(vs[0]), DumpItems(vs[1..]))
      case (Ok(j), Ok(js)) => Ok([j] + js)
      case (Err(e), _) => Err(e)
      case (_, Err(e)) => Err(e)
  }

  /** `page.dump()`: the dumped records, then the cursors that are set. */
  function PageDump(p: Page, deque: bool): Result<Json, string>
  {
    match DumpItems(p.data)
    case Err(e) => Err(e)
    case Ok(items) =>
      Ok(JObj([("data", JArr(items))]
        + (if JTruthy(p.next) then [("next", p.next)] else [])
        + (if deque && JTruthy(p.prev) then [("prev", p.prev)] else [])))
  }

  /** A cursor `dump` writes back as it is, or leaves out as `None`. */
  predicate Cursor(j: Json)
  {
    j == JNull || JTruthy(j)
  }

  /** A page of well-formed records of class `m`, other than events. */
  predicate PageShaped(m: Model, p: Page, deque: bool)
  {
    m != EventM && Cursor(p.next) && Cursor(p.prev) && (!deque ==> p.prev == JNull) &&
    forall i :: 0 <= i < |p.data| ==> p.data[i].Inst? && p.data[i].m == m && Shaped(m, p.data[i].vals)
  }

  /** Each record's dump reads back as the record. */
  lemma {:induction false} ItemsRoundTrip(m: Model, vs: seq<Val>)
    requires m != EventM
    requires forall i :: 0 <= i < |vs| ==> vs[i].Inst? && vs[i].m == m && Shaped(m, vs[i].vals)
    ensures DumpItems(vs).Ok? && ParseItems(m, DumpItems(vs).value) == Ok(vs)
    decreases |vs|
  {
    if |vs| > 0 {
      var v, tail := vs[0], vs[1..];
      ItemRoundTrip(m, v);
      ItemsRoundTrip(m, tail);
      var rest := DumpItems(tail).value;
      var js := [Unconv(v)] + rest;
      assert DumpItems(vs) == Ok(js);
      assert js[0] == Unconv(v) && js[1..] == rest;
      assert ParseItems(m, js) == Ok([v] + tail);
      assert [v] + tail == vs;
    }
  }

  lemma ItemRoundTrip(m: Model, v: Val)
    requires m != EventM && v.Inst? && v.m == m && Shaped(m, v.vals)
    ensures ItemDump(v) == Ok(Unconv(v)) && ParseItem(m, Unconv(v)) == Ok(v)
  {
    var raw := DumpFrom(v.vals, Spec(m), DumpOrder(m));
    assert Unconv(v) == JObj(raw);
    RoundTrip(m, v.vals);
    assert ParseItem(m, JObj(raw)) == ParseModel(m, raw);
    assert v == Inst(m, v.vals);
  }

  /** Parsing a dumped page gives the page back. */
  lemma PageRoundTrip(m: Model, p: Page, deque: bool)
    requires PageShaped(m, p, deque)
    ensures PageDump(p, deque).Ok?
    ensures ParsePage(m, PageDump(p, deque).value.fields, deque) == Ok(p)
  {
    ItemsRoundTrip(m, p.data);
    var items := DumpItems(p.data).value;
    var nx: Dict<Json> := if JTruthy(p.next) then [("next", p.next)] else [];
    var pv: Dict<Json> := if deque && JTruthy(p.prev) then [("prev", p.prev)] else [];
    PageDumpEntries(p, deque, items, nx, pv);
    var raw := [("data", JArr(items))] + nx + pv;
    CursorsRead(items, nx, pv, p, deque);
    PageParsed(m, raw, deque, items);
  }

  lemma PageParsed(m: Model, raw: Dict<Json>, deque: bool, items: seq<Json>)
    requires Get(raw, "data") == Some(JArr(items)) && ParseItems(m, items).Ok?
    ensures ParsePage(m, raw, deque) ==
      Ok(Page(ParseItems(m, items).value, OrNull(Get(raw, "next")), if deque then OrNull(Get(raw, "prev")) else JNull))
  {
  }

  lemma PageDumpEntries(p: Page, deque: bool, items: seq<Json>, nx: Dict<Json>, pv: Dict<Json>)
    requires DumpItems(p.data) == Ok(items)
    requires nx == if JTruthy(p.next) then [("next", p.next)] else []
    requires pv == if deque && JTruthy(p.prev) then [("prev", p.prev)] else []
    ensures PageDump(p, deque) == Ok(JObj([("data", JArr(items))] + nx + pv))
  {
  }

  /** Where the data and the cursors of a dumped page are found. */
  lemma CursorsRead(items: seq<Json>, nx: Dict<Json>, pv: Dict<Json>, p: Page, deque: bool)
    requires nx == if JTruthy(p.next) then [("next", p.next)] else []
    requires pv == if deque && JTruthy(p.prev) then [("prev", p.prev)] else []
    requires Cursor(p.next) && Cursor(p.prev)
    ensures var raw := [("data", JArr(items))] + nx + pv;
      Get(raw, "data") == Some(JArr(items)) && OrNull(Get(raw, "next")) == p.next &&
      (deque ==> OrNull(Get(raw, "prev")) == p.prev)
  {
    var head: Dict<Json> := [("data", JArr(items))];
    assert head + nx + pv == head + (nx + pv);
    GetAppendLeft(head, nx + pv, "next");
    GetAppendLeft(head, nx + pv, "prev");
    if |nx| > 0 {
      GetAppendLeft(nx, pv, "prev");
    } else {
      assert nx + pv == pv;
    }
  }
}
