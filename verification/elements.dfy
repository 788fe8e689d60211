/** The typed message elements (im_api/models/element.py): the element
    classes and their fields, building one from a parsed element's
    attributes, adding children, rendering, converting a parsed tree, and
    selecting by class. Building elements from files, paths or bytes
    (`Resource.of`) and selecting by a query string are not modelled. */
module Elements {
  import opened Basics
  import opened Dicts
  import M = Markup
  import T = MarkupTree

  /** The element classes. A custom element carries its own tag. */
  datatype Class =
    | Text | At | Sharp | Link
    | Resource | Image | Audio | Video | File
    | Style | Bold | Italic | Underline | Strikethrough | Spoiler | Code | Superscript | Subscript | Br | Paragraph
    | Message | Quote | Author | Button | Custom(kind: string) | Raw

  /** `tag`: the class name in lower case, unless the class says otherwise. */
  function TagOf(c: Class): string
  {
    match c
    case Text => "text"
    case At => "at"
    case Sharp => "sharp"
    case Link => "a"
    case Resource => "resource"
    case Image => "img"
    case Audio => "audio"
    case Video => "video"
    case File => "file"
    case Style => "style"
    case Bold => "b"
    case Italic => "i"
    case Underline => "u"
    case Strikethrough => "s"
    case Spoiler => "spl"
    case Code => "code"
    case Superscript => "sup"
    case Subscript => "sub"
    case Br => "br"
    case Paragraph => "p"
    case Message => "message"
    case Quote => "quote"
    case Author => "author"
    case Button => "button"
    case Custom(k) => k
    case Raw => "raw"
  }

  /** The direct base class other than `Element`. */
  function Base(c: Class): Option<Class>
  {
    match c
    case Quote => Some(Message)
    case Image => Some(Resource)
    case Audio => Some(Resource)
    case Video => Some(Resource)
    case File => Some(Resource)
    case Bold => Some(Style)
    case Italic => Some(Style)
    case Underline => Some(Style)
    case Strikethrough => Some(Style)
    case Spoiler => Some(Style)
    case Code => Some(Style)
    case Superscript => Some(Style)
    case Subscript => Some(Style)
    case Br => Some(Style)
    case Paragraph => Some(Style)
    case _ => None
  }

  /** Two classes are the same class; every custom element is a `Custom`. */
  predicate SameClass(a: Class, b: Class)
  {
    a == b || (a.Custom? && b.Custom?)
  }

  /** `isinstance`: the class itself or its base. */
  predicate InstanceOf(c: Class, q: Class)
  {
    SameClass(c, q) || (Base(c).Some? && SameClass(Base(c).value, q))
  }

  // ---------------------------------------------------------------------
  // Fields
  // ---------------------------------------------------------------------

  datatype FieldType = StrField | BoolField | IntField

  /** A dataclass field: its name, its type, and whether it lacks a default. */
  datatype Field = Field(name: string, ty: FieldType, required: bool)

  function OptStr(name: string): Field { Field(name, StrField, false) }
  function OptInt(name: string): Field { Field(name, IntField, false) }

  const ResourceFields: seq<Field> :=
    [Field("src", StrField, true), OptStr("title"), Field("cache", BoolField, false), OptInt("timeout")]

  /** The fields of each class in declaration order, a base's first. */
  function Fields(c: Class): seq<Field>
  {
    match c
    case Text => [Field("text", StrField, true)]
    case At => [OptStr("id"), OptStr("name"), OptStr("role"), OptStr("type")]
    case Sharp => [Field("id", StrField, true), OptStr("name")]
    case Link => [Field("href", StrField, true)]
    case Resource => ResourceFields
    case Image => ResourceFields + [OptInt("width"), OptInt("height")]
    case Audio => ResourceFields + [OptInt("duration"), OptStr("poster")]
    case Video => ResourceFields + [OptInt("width"), OptInt("height"), OptInt("duration"), OptStr("poster")]
    case File => ResourceFields + [OptStr("poster")]
    case Message => [OptStr("id"), Field("forward", BoolField, false)]
    case Quote => [OptStr("id"), Field("forward", BoolField, false)]
    case Author => [Field("id", StrField, true), OptStr("name"), OptStr("avatar")]
    case Button => [Field("type", StrField, true), OptStr("id"), OptStr("href"), OptStr("text"), OptStr("theme")]
    case Custom(_) => [Field("type", StrField, true)]
    case Raw => [Field("content", StrField, true)]
    case _ => []
  }

  /** `__names__`, the attributes `unpack` passes to the constructor, as
      written: `Sharp` declares none, so looking them up fails. */
  function NamesAsWritten(c: Class): Option<seq<string>>
  {
    match c
    case Text => Some(["text"])
    case At => Some(["id", "name", "role", "type"])
    case Sharp => None
    case Link => Some(["href"])
    case Resource => Some(["src", "title"])
    case Image => Some(["src", "title", "width", "height"])
    case Audio => Some(["src", "title", "duration", "poster"])
    case Video => Some(["src", "title", "width", "height", "duration", "poster"])
    case File => Some(["src", "title", "poster"])
    case Message => Some(["id", "forward"])
    case Quote => Some(["id", "forward"])
    case Author => Some(["id", "name", "avatar"])
    case Button => Some(["type", "id", "href", "text", "theme"])
    case _ => Some([])
  }

  /** The names table evidently intended: `Sharp` names its two fields. */
  function Names(c: Class): (r: Option<seq<string>>)
    ensures r.Some?
    ensures c != Sharp ==> r == NamesAsWritten(c)
  {
    if c == Sharp then Some(["id", "name"]) else NamesAsWritten(c)
  }

  /** Every name `unpack` passes is a field of the class, and no class
      has two fields of one name. */
  lemma NamesAreFields(c: Class)
    ensures forall n :: n in Names(c).value ==> exists i :: 0 <= i < |Fields(c)| && Fields(c)[i].name == n
    ensures forall i, j :: 0 <= i < j < |Fields(c)| ==> Fields(c)[i].name != Fields(c)[j].name
  {
    var fs := Fields(c);
    var ns := Names(c).value;
    forall n | n in ns ensures exists i :: 0 <= i < |fs| && fs[i].name == n {
      var i :| 0 <= i < |ns| && ns[i] == n;
      FieldOfName(c, i);
    }
  }

  lemma FieldOfName(c: Class, i: nat)
    requires i < |Names(c).value|
    ensures exists j :: 0 <= j < |Fields(c)| && Fields(c)[j].name == Names(c).value[i]
  {
    var n := Names(c).value[i];
    var fs := Fields(c);
    if c.Image? || c.Audio? || c.Video? || c.File? {
      if i < 2 {
        assert fs[i].name == n;
      } else {
        assert fs[i + 2].name == n;
      }
    } else {
      assert fs[i].name == n;
    }
  }

  /** The conversion of `__post_init__`: a string given for a field of
      another type is read as that type, case-insensitively `true` or
      `false` for a flag and `int(...)` for a number; any other value is
      kept as given. */
  function Coerce(f: Field, v: T.Value): (r: Result<T.Value, string>)
    ensures f.ty == StrField || !v.Text? ==> r == Ok(v)
    ensures f.ty == BoolField && v.Text? ==> (r.Ok? <==> Lower(v.s) in {"true", "false"})
    ensures f.ty == IntField && v.Text? ==> (r.Ok? <==> ParseInt(v.s).Some?)
    ensures r.Ok? && f.ty != StrField && v.Text? ==> (if f.ty == BoolField then r.value.Bool? else r.value.Int?)
    ensures r.Ok? ==> (r.value == T.Nil <==> v == T.Nil)
  {
    if f.ty == StrField || !v.Text? then Ok(v)
    else if f.ty == BoolField then
      var l := Lower(v.s);
      if l == "true" then Ok(T.Bool(true))
      else if l == "false" then Ok(T.Bool(false))
      else Err("TypeError")
    else
      match ParseInt(v.s)
      case Some(n) => Ok(T.Int(n))
      case None => Err("ValueError")
  }

  /** A value of the field's type, written out with `str`, converts back
      to itself. */
  lemma CoerceStr(f: Field, v: T.Value)
    requires f.ty == BoolField ==> v.Bool?
    requires f.ty == IntField ==> v.Int?
    requires f.ty == StrField ==> v.Text?
    ensures Coerce(f, T.Text(T.ValueStr(v))) == Ok(v)
  {
    match v
    case Bool(b) =>
      LowerBoolNames();
    case Int(n) =>
      if n < 0 {
        ParseNegative(-n);
      } else {
        ParseIntStr(n);
      }
    case Text(s) =>
    case Nil =>
  }

  lemma LowerBoolNames()
    ensures Lower("True") == "true" && Lower("False") == "false"
  {
  }

  lemma ParseNegative(n: nat)
    requires n > 0
    ensures ParseInt("-" + Str(n)) == Some(-(n as int))
  {
    ParseIntStr(n);
    var s := "-" + Str(n);
    assert s[1..] == Str(n);
    assert s[0] == '-' && !IsDigit(s[0]);
  }

  /** The value a dict holds for `k`, `None` when it holds none. */
  function Lookup(d: Dict<T.Value>, k: string): T.Value
  {
    match Get(d, k)
    case Some(v) => v
    case None => T.Nil
  }

  /** The entries whose key is (or is not) among `ns`, in order. */
  function Part(d: Dict<T.Value>, ns: seq<string>, named: bool): (r: Dict<T.Value>)
    ensures forall k :: (k in ns) == named ==> Get(r, k) == Get(d, k)
    ensures forall k :: (k in ns) != named ==> !HasKey(r, k)
    ensures forall e :: e in r ==> e in d
    ensures forall k :: HasKey(r, k) ==> HasKey(d, k)
    ensures UniqueKeys(d) ==> UniqueKeys(r)
  {
    if |d| == 0 then []
    else
      var rest := Part(d[1..], ns, named);
      assert Keys(d) == [d[0].0] + Keys(d[1..]);
      if (d[0].0 in ns) == named then
        assert Keys([d[0]] + rest) == [d[0].0] + Keys(rest);
        [d[0]] + rest
      else rest
  }

  /** The entries whose value is not `None`, in order. */
  function DropNil(d: Dict<T.Value>): (r: Dict<T.Value>)
    ensures forall e :: e in r <==> e in d && e.1 != T.Nil
    ensures UniqueKeys(d) ==> UniqueKeys(r)
  {
    if |d| == 0 then []
    else
      var rest := DropNil(d[1..]);
      assert forall e :: e in d <==> e == d[0] || e in d[1..];
      assert UniqueKeys(d) ==> forall e :: e in rest ==> e.0 != d[0].0 by {
        if UniqueKeys(d) {
          forall e | e in rest ensures e.0 != d[0].0 {
            var i :| 0 <= i < |d[1..]| && d[1..][i] == e;
            assert d[i + 1] == e;
          }
        }
      }
      if d[0].1 != T.Nil then
        assert forall i :: 0 < i < |[d[0]] + rest| ==> ([d[0]] + rest)[i] in rest;
        [d[0]] + rest
      else rest
  }

  /** Whether a field without a default is missing from the arguments. */
  predicate MissingRequired(fs: seq<Field>, kw: Dict<T.Value>)
  {
    exists i :: 0 <= i < |fs| && fs[i].required && !HasKey(kw, fs[i].name)
  }

  /** The loop of `__post_init__`: each field's value converted in turn,
      the first failure raised. */
  function FieldValues(fs: seq<Field>, kw: Dict<T.Value>): (r: Result<Dict<T.Value>, string>)
    ensures r.Ok? <==> forall i :: 0 <= i < |fs| ==> Coerce(fs[i], Lookup(kw, fs[i].name)).Ok?
    ensures r.Ok? ==> |r.value| == |fs|
    ensures r.Ok? ==> forall i :: 0 <= i < |fs| ==> r.value[i] == (fs[i].name, Coerce(fs[i], Lookup(kw, fs[i].name)).value)
  {
    if |fs| == 0 then Ok([])
    else
      assert forall i :: 0 < i < |fs| ==> fs[i] == fs[1..][i - 1];
      match Coerce(fs[0], Lookup(kw, fs[0].name))
      case Err(e) => Err(e)
      case Ok(v) =>
        match FieldValues(fs[1..], kw)
        case Err(e) => Err(e)
        case Ok(rest) => Ok([(fs[0].name, v)] + rest)
  }

  /** Field names that are pairwise distinct. */
  predicate DistinctNames(fs: seq<Field>)
  {
    forall i, j :: 0 <= i < j < |fs| ==> fs[i].name != fs[j].name
  }

  /** The attributes the constructor leaves: the named attributes go to
      the constructor, which needs every field without a default and
      converts the values; it keeps the fields not `None`, and every
      attribute not named is added after them. */
  function Construct(fs: seq<Field>, attrs: Dict<T.Value>, ns: seq<string>): (r: Result<Dict<T.Value>, string>)
    requires DistinctNames(fs)
    ensures MissingRequired(fs, Part(attrs, ns, true)) ==> r == Err("TypeError")
    ensures r.Ok? && UniqueKeys(attrs) ==> forall k :: k !in ns ==> Get(r.value, k) == Get(attrs, k)
    ensures r.Ok? ==> forall i :: 0 <= i < |fs| && fs[i].name in ns ==>
      var cv := Coerce(fs[i], Lookup(attrs, fs[i].name));
      cv.Ok? && Lookup(r.value, fs[i].name) == cv.value
  {
    var kw := Part(attrs, ns, true);
    if MissingRequired(fs, kw) then Err("TypeError")
    else match FieldValues(fs, kw)
      case Err(e) => Err(e)
      case Ok(fv) =>
        ConstructFacts(fs, attrs, ns, fv);
        ConstructKeeps(fs, attrs, ns, fv);
        Ok(Update(DropNil(fv), Part(attrs, ns, false)))
  }

  /** An attribute not named for the constructor keeps its value: a field
      not named gets `None`, which is dropped. */
  lemma ConstructKeeps(fs: seq<Field>, attrs: Dict<T.Value>, ns: seq<string>, fv: Dict<T.Value>)
    requires FieldValues(fs, Part(attrs, ns, true)) == Ok(fv)
    ensures UniqueKeys(attrs) ==> forall k :: k !in ns ==> Get(Update(DropNil(fv), Part(attrs, ns, false)), k) == Get(attrs, k)
  {
    if UniqueKeys(attrs) {
      KeepsUnique(fs, attrs, ns, fv);
    }
  }

  lemma {:induction false} KeepsUnique(fs: seq<Field>, attrs: Dict<T.Value>, ns: seq<string>, fv: Dict<T.Value>)
    requires UniqueKeys(attrs)
    requires FieldValues(fs, Part(attrs, ns, true)) == Ok(fv)
    ensures forall k :: k !in ns ==> Get(Update(DropNil(fv), Part(attrs, ns, false)), k) == Get(attrs, k)
  {
    var kw := Part(attrs, ns, true);
    var own := DropNil(fv);
    var extra := Part(attrs, ns, false);
    forall k | k !in ns
      ensures Get(Update(own, extra), k) == Get(attrs, k)
    {
      if !HasKey(extra, k) {
        assert Get(Update(own, extra), k) == Get(own, k);
        OwnKeysGiven(fs, kw, fv, k);
      }
    }
  }

  /** A field that keeps a value after the `None`s are dropped was given. */
  lemma OwnKeysGiven(fs: seq<Field>, kw: Dict<T.Value>, fv: Dict<T.Value>, k: string)
    requires FieldValues(fs, kw) == Ok(fv)
    ensures HasKey(DropNil(fv), k) ==> HasKey(kw, k)
  {
    if HasKey(DropNil(fv), k) {
      GetIn(DropNil(fv), k);
      var e := (k, Get(DropNil(fv), k).value);
      assert e in fv;
      var j :| 0 <= j < |fv| && fv[j] == e;
      assert fv[j] == (fs[j].name, Coerce(fs[j], Lookup(kw, fs[j].name)).value);
    }
  }

  lemma {:induction false} ConstructFacts(fs: seq<Field>, attrs: Dict<T.Value>, ns: seq<string>, fv: Dict<T.Value>)
    requires DistinctNames(fs)
    requires FieldValues(fs, Part(attrs, ns, true)) == Ok(fv)
    ensures forall i :: 0 <= i < |fs| && fs[i].name in ns ==>
      var cv := Coerce(fs[i], Lookup(attrs, fs[i].name));
      cv.Ok? && Lookup(Update(DropNil(fv), Part(attrs, ns, false)), fs[i].name) == cv.value
  {
    forall i | 0 <= i < |fs| && fs[i].name in ns
      ensures var cv := Coerce(fs[i], Lookup(attrs, fs[i].name));
        cv.Ok? && Lookup(Update(DropNil(fv), Part(attrs, ns, false)), fs[i].name) == cv.value
    {
      ConstructAt(fs, attrs, ns, fv, i);
    }
  }

  lemma {:induction false} ConstructAt(fs: seq<Field>, attrs: Dict<T.Value>, ns: seq<string>, fv: Dict<T.Value>, i: nat)
    requires DistinctNames(fs)
    requires FieldValues(fs, Part(attrs, ns, true)) == Ok(fv)
    requires i < |fs| && fs[i].name in ns
    ensures var cv := Coerce(fs[i], Lookup(attrs, fs[i].name));
      cv.Ok? && Lookup(Update(DropNil(fv), Part(attrs, ns, false)), fs[i].name) == cv.value
  {
    var kw := Part(attrs, ns, true);
    var own := DropNil(fv);
    var extra := Part(attrs, ns, false);
    var n := fs[i].name;
    assert !HasKey(extra, n);
    assert Lookup(kw, n) == Lookup(attrs, n);
    assert Lookup(Update(own, extra), n) == Lookup(own, n);
    OwnLookup(fs, kw, fv, i);
  }

  /** Each field keeps its coerced value once the `None`s are dropped. */
  lemma OwnLookup(fs: seq<Field>, kw: Dict<T.Value>, fv: Dict<T.Value>, i: nat)
    requires DistinctNames(fs)
    requires FieldValues(fs, kw) == Ok(fv)
    requires i < |fs|
    ensures Lookup(DropNil(fv), fs[i].name) == Coerce(fs[i], Lookup(kw, fs[i].name)).value
  {
    var n := fs[i].name;
    var v := Coerce(fs[i], Lookup(kw, n)).value;
    assert fv[i] == (n, v);
    assert UniqueKeys(fv) by {
      assert forall j :: 0 <= j < |fv| ==> fv[j].0 == fs[j].name;
    }
    if v != T.Nil {
      assert (n, v) in DropNil(fv);
      GetOfEntry(DropNil(fv), n, v);
    } else {
      NilDropped(fv, i);
    }
  }

  /** A field whose value is `None` is dropped together with its name. */
  lemma NilDropped(fv: Dict<T.Value>, i: nat)
    requires UniqueKeys(fv) && i < |fv| && fv[i].1 == T.Nil
    ensures !HasKey(DropNil(fv), fv[i].0)
  {
    var own := DropNil(fv);
    forall j | 0 <= j < |own|
      ensures Keys(own)[j] != fv[i].0
    {
      assert own[j] in own;
      var m :| 0 <= m < |fv| && fv[m] == own[j];
    }
  }

  /** An element: its class, its attributes (the fields first), and its
      children. */
  datatype Elem = Elem(cls: Class, attrs: Dict<T.Value>, children: seq<Elem>)

  /** `cls.unpack(attrs)` under a names table. Without a names tuple the
      comprehensions raise AttributeError at their first attribute; with no
      attributes at all they never look, and the constructor runs bare. */
  function Unpack(c: Class, attrs: Dict<T.Value>, names: Option<seq<string>>): (r: Result<Elem, string>)
    ensures names.None? && |attrs| > 0 ==> r == Err("AttributeError")
    ensures names.None? && |attrs| == 0 && MissingRequired(Fields(c), []) ==> r == Err("TypeError")
    ensures names.Some? && MissingRequired(Fields(c), Part(attrs, names.value, true)) ==> r == Err("TypeError")
    ensures r.Ok? ==> r.value.cls == c && r.value.children == []
    ensures r.Ok? && names.None? ==> |attrs| == 0
    ensures r.Ok? && names.Some? && UniqueKeys(attrs) ==>
      forall k :: k !in names.value ==> Get(r.value.attrs, k) == Get(attrs, k)
    ensures r.Ok? && names.Some? ==> forall i :: 0 <= i < |Fields(c)| && Fields(c)[i].name in names.value ==>
      var cv := Coerce(Fields(c)[i], Lookup(attrs, Fields(c)[i].name));
      cv.Ok? && Lookup(r.value.attrs, Fields(c)[i].name) == cv.value
  {
    NamesAreFields(c);
    match names
    case None =>
      if |attrs| > 0 then Err("AttributeError")
      else
        (match Construct(Fields(c), [], [])
         case Err(e) => Err(e)
         case Ok(a) => Ok(Elem(c, a, [])))
    case Some(ns) =>
      match Construct(Fields(c), attrs, ns)
      case Err(e) => Err(e)
      case Ok(a) => Ok(Elem(c, a, []))
  }

  /** In a dict without repeated keys, an entry is what lookup finds. */
  lemma GetOfEntry<V>(d: Dict<V>, k: string, v: V)
    requires UniqueKeys(d) && (k, v) in d
    ensures Get(d, k) == Some(v)
  {
    var i :| 0 <= i < |d| && d[i] == (k, v);
    GetAt(d, i);
  }

  // ---------------------------------------------------------------------
  // Children
  // ---------------------------------------------------------------------

  /** The children a class accepts (`__post_call__`): a link or a button at
      most one text child, a line break none, the rest any. */
  predicate ChildrenAllowed(c: Class, cs: seq<Elem>)
  {
    if c == Link || c == Button then |cs| == 0 || (|cs| == 1 && cs[0].cls == Text)
    else if c == Br then |cs| == 0
    else true
  }

  /** What `__call__` is given: a string or an element. */
  datatype Piece = Chars(s: string) | Node(e: Elem)

  function TextElem(s: string): (e: Elem)
    ensures forall t :: Dumps(e, true, t) == Ok(s)
    ensures forall t :: Dumps(e, false, t).Ok? && M.Unescape(Dumps(e, false, t).value) == Ok(s)
  {
    Elem(Text, [("text", T.Text(s))], [])
  }

  function PieceElem(p: Piece): Elem
  {
    match p
    case Chars(s) => TextElem(s)
    case Node(e) => e
  }

  function Elems(ps: seq<Piece>): (r: seq<Elem>)
    ensures |r| == |ps| && forall i :: 0 <= i < |ps| ==> r[i] == PieceElem(ps[i])
  {
    seq(|ps|, i requires 0 <= i < |ps| => PieceElem(ps[i]))
  }

  function Nodes(es: seq<Elem>): (r: seq<Piece>)
    ensures Elems(r) == es
  {
    seq(|es|, i requires 0 <= i < |es| => Node(es[i]))
  }

  /** `elem(*content)`: strings become text elements, everything is
      appended to the children, then the class checks its children. */
  function Call(e: Elem, content: seq<Piece>): (r: Result<Elem, string>)
    ensures r.Ok? <==> ChildrenAllowed(e.cls, e.children + Elems(content))
    ensures r.Ok? ==> r.value == e.(children := e.children + Elems(content))
  {
    var cs := e.children + Elems(content);
    if ChildrenAllowed(e.cls, cs) then Ok(e.(children := cs)) else Err("ValueError")
  }

  // ---------------------------------------------------------------------
  // Rendering
  // ---------------------------------------------------------------------

  /** One attribute of `Button.attributes` as written: the whole
      ` name="value"` is escaped, without `inline`, so a `"` in the value
      is left as it is. */
  function QuotedAsWritten(name: string, v: T.Value): string
  {
    M.Escape(" " + name + "=\"" + T.ValueStr(v) + "\"", false)
  }

  /** The same attribute with the value escaped for an attribute. */
  function Quoted(name: string, v: T.Value): (r: string)
    ensures '"' !in name ==> CountChar(r, '"') == 2
    ensures '<' !in name ==> '<' !in r
  {
    var q := M.Escape(T.ValueStr(v), true);
    QuoteCount(name, q);
    " " + name + "=\"" + q + "\""
  }

  lemma QuoteCount(name: string, q: string)
    ensures '"' !in name && '"' !in q ==> CountChar(" " + name + "=\"" + q + "\"", '"') == 2
  {
    if '"' !in name && '"' !in q {
      CountCharAbsent(q, '"');
      CountCharAbsent(" " + name, '"');
      CountCharAppend(" " + name, "=\"", '"');
      CountCharAppend(" " + name + "=\"", q, '"');
      CountCharAppend(" " + name + "=\"" + q, "\"", '"');
    }
  }

  /** The attribute a button of type `ty` names besides its type. */
  function TargetOf(ty: string): (r: Option<string>)
    ensures r.Some? ==> '"' !in r.value && '<' !in r.value
  {
    if ty == "action" then Some("id")
    else if ty == "link" then Some("href")
    else if ty == "input" then Some("text")
    else None
  }

  /** The number of attributes a button renders. */
  function ButtonAttrCount(attrs: Dict<T.Value>): nat
  {
    1 + (if Lookup(attrs, "type").Text? && TargetOf(Lookup(attrs, "type").s).Some? then 1 else 0)
      + (if T.Truthy(Lookup(attrs, "theme")) then 1 else 0)
  }

  /** `Button.attributes` as written: the type, the one attribute its type
      calls for (`str(None)` when absent), and the theme when set. */
  function ButtonAttributesAsWritten(attrs: Dict<T.Value>): (r: Result<string, string>)
    ensures r.Ok? <==> Lookup(attrs, "type").Text?
  {
    match Lookup(attrs, "type")
    case Text(ty) =>
      var target := match TargetOf(ty) case Some(n) => QuotedAsWritten(n, Lookup(attrs, n)) case None => "";
      var theme := Lookup(attrs, "theme");
      Ok(" type=\"" + M.Escape(ty, false) + "\"" + target + (if T.Truthy(theme) then QuotedAsWritten("theme", theme) else ""))
    case _ => Err("AttributeError")
  }

  lemma CountThree(a: string, b: string, c: string)
    ensures CountChar(a + b + c, '"') == CountChar(a, '"') + CountChar(b, '"') + CountChar(c, '"')
    ensures '<' !in a && '<' !in b && '<' !in c ==> '<' !in a + b + c
  {
    CountCharAppend(a, b, '"');
    CountCharAppend(a + b, c, '"');
  }

  /** The rendering evidently intended: every value escaped for an
      attribute, so each attribute has exactly its two quotes. */
  function ButtonAttributes(attrs: Dict<T.Value>): (r: Result<string, string>)
    ensures r.Ok? <==> Lookup(attrs, "type").Text?
    ensures r.Ok? ==> CountChar(r.value, '"') == 2 * ButtonAttrCount(attrs)
    ensures r.Ok? ==> '<' !in r.value
  {
    match Lookup(attrs, "type")
    case Text(ty) =>
      var target := match TargetOf(ty) case Some(n) => Quoted(n, Lookup(attrs, n)) case None => "";
      var theme := Lookup(attrs, "theme");
      var themed := if T.Truthy(theme) then Quoted("theme", theme) else "";
      var head := Quoted("type", T.Text(ty));
      CountThree(head, target, themed);
      Ok(head + target + themed)
    case _ => Err("AttributeError")
  }

  /** A button's attributes: as written, or escaped as evidently intended. */
  function ButtonAttrs(attrs: Dict<T.Value>, t: Table): (r: Result<string, string>)
    ensures r.Ok? <==> Lookup(attrs, "type").Text?
  {
    if t == AsWritten then ButtonAttributesAsWritten(attrs) else ButtonAttributes(attrs)
  }

  /** `dumps(strip)`: text and raw content render as their text; any other
      element as its tag around its children, a button with its own
      `attributes` (as written under `AsWritten`, repaired under `Fixed`).
      Stripped, only the children's text is left. */
  function Dumps(e: Elem, strip: bool, t: Table): (r: Result<string, string>)
    ensures e.cls == Text ==> r == T.LeafText(Lookup(e.attrs, "text"), strip)
    decreases e
  {
    if e.cls == Text then T.LeafText(Lookup(e.attrs, "text"), strip)
    else if e.cls == Raw then T.LeafText(Lookup(e.attrs, "content"), strip)
    else if TagOf(e.cls) == "text" && HasKey(e.attrs, "text") then T.LeafText(Get(e.attrs, "text").value, strip)
    else
      match DumpsAll(e.children, strip, t)
      case Err(x) => Err(x)
      case Ok(inner) =>
        if strip then Ok(inner)
        else match (if e.cls == Button then ButtonAttrs(e.attrs, t) else T.Attributes(e.attrs))
          case Err(x) => Err(x)
          case Ok(a) => Ok(Tagged(TagOf(e.cls), a, inner, |e.children| == 0))
  }

  /** A button dumps as its own `attributes` inside a `button` tag (as
      written or repaired, following `t`); one without a text `type` fails to
      dump, and stripped only its children's text is left. */
  lemma DumpsButton(e: Elem, strip: bool, t: Table)
    requires e.cls == Button
    ensures strip ==> Dumps(e, strip, t) == DumpsAll(e.children, true, t)
    ensures !strip && Dumps(e, strip, t).Ok? ==>
      && ButtonAttrs(e.attrs, t).Ok?
      && StartsWith(Dumps(e, strip, t).value, "<" + TagOf(Button) + ButtonAttrs(e.attrs, t).value)
    ensures !strip && !Lookup(e.attrs, "type").Text? ==> Dumps(e, strip, t).Err?
  {
    assert TagOf(Button) != "text";
  }

  /** An element's markup around its rendered children. */
  function Tagged(tag: string, a: string, inner: string, empty: bool): (r: string)
    ensures StartsWith(r, "<" + tag + a)
  {
    if empty then "<" + tag + a + "/>" else "<" + tag + a + ">" + inner + "</" + tag + ">"
  }

  function DumpsAll(es: seq<Elem>, strip: bool, t: Table): Result<string, string>
    decreases es
  {
    if |es| == 0 then Ok("")
    else match Dumps(es[0], strip, t)
      case Err(x) => Err(x)
      case Ok(d) => M.Prepend(d, DumpsAll(es[1..], strip, t))
  }

  /** A childless action button whose id holds one quote: dumped as written
      it carries five quotes, dumped as repaired four. */
  lemma ButtonDumpQuotes()
    ensures var b := Elem(Button, [("type", T.Text("action")), ("id", T.Text("a\"b"))], []);
      && Dumps(b, false, AsWritten).Ok? && CountChar(Dumps(b, false, AsWritten).value, '"') == 5
      && Dumps(b, false, Fixed).Ok? && CountChar(Dumps(b, false, Fixed).value, '"') == 4
  {
    var attrs := [("type", T.Text("action")), ("id", T.Text("a\"b"))];
    ButtonQuoteExample();
    ButtonQuoteFixed();
    DumpsChildlessButton(attrs, AsWritten);
    DumpsChildlessButton(attrs, Fixed);
    WrappedQuotes(ButtonAttributesAsWritten(attrs).value);
    WrappedQuotes(ButtonAttributes(attrs).value);
  }

  /** Repaired, the same attributes carry four quotes. */
  lemma ButtonQuoteFixed()
    ensures var attrs := [("type", T.Text("action")), ("id", T.Text("a\"b"))];
      ButtonAttributes(attrs).Ok? && CountChar(ButtonAttributes(attrs).value, '"') == 4
  {
    var attrs := [("type", T.Text("action")), ("id", T.Text("a\"b"))];
    assert Lookup(attrs, "type") == T.Text("action");
    assert Lookup(attrs, "id") == T.Text("a\"b");
    assert Lookup(attrs, "theme") == T.Nil;
    ButtonQuoteBreaks(attrs, "a\"b");
  }

  /** A childless button with a text `type` dumps as its attributes in an
      empty `button` tag. */
  lemma DumpsChildlessButton(attrs: Dict<T.Value>, t: Table)
    requires Lookup(attrs, "type").Text?
    ensures Dumps(Elem(Button, attrs, []), false, t) == Ok(Tagged(TagOf(Button), ButtonAttrs(attrs, t).value, "", true))
  {
    assert TagOf(Button) != "text";
    assert DumpsAll([], false, t) == Ok("");
  }

  /** `<button` and `/>` add no quote. */
  lemma WrappedQuotes(a: string)
    ensures CountChar(Tagged(TagOf(Button), a, "", true), '"') == CountChar(a, '"')
  {
    var open := "<" + TagOf(Button);
    assert '"' !in open && '"' !in "/>";
    CountCharAbsent(open, '"');
    CountCharAbsent("/>", '"');
    CountCharAppend(open, a, '"');
    CountCharAppend(open + a, "/>", '"');
  }

  /** The untyped element with the same tag, attributes and children. */
  function ToRaw(e: Elem): (r: T.Element)
    ensures r.kind == TagOf(e.cls) && r.attrs == e.attrs && |r.children| == |e.children|
    decreases e
  {
    T.Element(TagOf(e.cls), e.attrs, ToRawAll(e.children))
  }

  function ToRawAll(es: seq<Elem>): (r: seq<T.Element>)
    ensures |r| == |es|
    decreases es
  {
    if |es| == 0 then [] else [ToRaw(es[0])] + ToRawAll(es[1..])
  }

  /** A tree without buttons or raw content, whose text elements hold their
      text. */
  predicate Generic(e: Elem)
    decreases e
  {
    && e.cls != Button && e.cls != Raw
    && (e.cls == Text ==> HasKey(e.attrs, "text"))
    && forall i :: 0 <= i < |e.children| ==> Generic(e.children[i])
  }

  /** Only buttons and raw content render differently from the untyped
      element with the same tag, attributes and children. */
  lemma {:induction false} DumpsAgree(e: Elem, strip: bool, t: Table)
    requires Generic(e)
    ensures Dumps(e, strip, t) == T.Dumps(ToRaw(e), strip)
    decreases e
  {
    if e.cls != Text && !(TagOf(e.cls) == "text" && HasKey(e.attrs, "text")) {
      DumpsAllAgree(e.children, strip, t);
    }
  }

  lemma {:induction false} DumpsAllAgree(es: seq<Elem>, strip: bool, t: Table)
    requires forall i :: 0 <= i < |es| ==> Generic(es[i])
    ensures DumpsAll(es, strip, t) == T.DumpsAll(ToRawAll(es), strip)
    decreases es
  {
    if |es| > 0 {
      DumpsAgree(es[0], strip, t);
      DumpsAllAgree(es[1..], strip, t);
      assert ToRawAll(es)[1..] == ToRawAll(es[1..]);
    }
  }

  /** As written, a `"` in a button's id is not escaped: every quote in
      the id adds one to the rendered attributes, so an id with one quote
      leaves them unbalanced; the corrected rendering keeps exactly four. */
  lemma ButtonQuoteBreaks(attrs: Dict<T.Value>, id: string)
    requires Lookup(attrs, "type") == T.Text("action") && Lookup(attrs, "id") == T.Text(id)
    requires !T.Truthy(Lookup(attrs, "theme"))
    requires '&' !in id && '<' !in id && '>' !in id
    ensures ButtonAttributesAsWritten(attrs).Ok?
    ensures CountChar(ButtonAttributesAsWritten(attrs).value, '"') == 4 + CountChar(id, '"')
    ensures CountChar(ButtonAttributes(attrs).value, '"') == 4
  {
    IdAsWritten(id);
    var target := QuotedAsWritten("id", T.Text(id));
    var head := " type=\"" + "action" + "\"";
    ActionAsWritten(attrs, id);
    ActionHead();
    CountCharAppend(head, target, '"');
  }

  lemma ActionAsWritten(attrs: Dict<T.Value>, id: string)
    requires Lookup(attrs, "type") == T.Text("action") && Lookup(attrs, "id") == T.Text(id)
    requires !T.Truthy(Lookup(attrs, "theme"))
    ensures ButtonAttributesAsWritten(attrs) == Ok(" type=\"" + "action" + "\"" + QuotedAsWritten("id", T.Text(id)))
  {
    assert TargetOf("action") == Some("id");
    EscapeAction();
    var head := " type=\"" + "action" + "\"";
    var target := QuotedAsWritten("id", T.Text(id));
    assert head + target + "" == head + target;
  }

  lemma EscapeAction()
    ensures M.Escape("action", false) == "action"
  {
    assert '&' !in "action" && '<' !in "action" && '>' !in "action";
  }

  lemma ActionHead()
    ensures CountChar(" type=\"" + "action" + "\"", '"') == 2
  {
    assert CountChar(" type=\"", '"') == 1;
    assert CountChar("action", '"') == 0;
    CountCharAppend(" type=\"", "action", '"');
    CountCharAppend(" type=\"" + "action", "\"", '"');
  }

  /** An id without characters to escape is written as it is, between
      two quotes. */
  lemma IdAsWritten(id: string)
    requires '&' !in id && '<' !in id && '>' !in id
    ensures CountChar(QuotedAsWritten("id", T.Text(id)), '"') == 2 + CountChar(id, '"')
  {
    var pre := " " + "id" + "=\"";
    assert T.ValueStr(T.Text(id)) == id;
    Absent3(pre, id, "\"", '&');
    Absent3(pre, id, "\"", '<');
    Absent3(pre, id, "\"", '>');
    var target := pre + id + "\"";
    assert QuotedAsWritten("id", T.Text(id)) == target;
    assert CountChar(" ", '"') == 0 && CountChar("id", '"') == 0 && CountChar("=\"", '"') == 1;
    assert CountChar("\"", '"') == 1;
    CountCharAppend(" ", "id", '"');
    CountCharAppend(" " + "id", "=\"", '"');
    CountCharAppend(pre, id, '"');
    CountCharAppend(pre + id, "\"", '"');
  }

  lemma Absent3(a: string, b: string, c: string, ch: char)
    requires ch !in a && ch !in b && ch !in c
    ensures ch !in a + b + c
  {
  }

  /** The attributes of a button whose id holds one quote. */
  lemma ButtonQuoteExample()
    ensures var attrs := [("type", T.Text("action")), ("id", T.Text("a\"b"))];
      CountChar(ButtonAttributesAsWritten(attrs).value, '"') == 5
  {
    var attrs := [("type", T.Text("action")), ("id", T.Text("a\"b"))];
    assert Lookup(attrs, "type") == T.Text("action");
    assert Lookup(attrs, "id") == T.Text("a\"b");
    assert Lookup(attrs, "theme") == T.Nil;
    ButtonQuoteBreaks(attrs, "a\"b");
    assert CountChar("a\"b", '"') == 1;
  }

  // ---------------------------------------------------------------------
  // Converting a parsed tree
  // ---------------------------------------------------------------------

  /** Which reading of the element classes: as written (the names table
      `unpack` reads, `Button.attributes`), or repaired. */
  datatype Table = AsWritten | Fixed

  function NamesIn(t: Table, c: Class): Option<seq<string>>
  {
    if t == Fixed then Names(c) else NamesAsWritten(c)
  }

  /** The element table: tags `transform` unpacks into a content class. */
  function ElementType(tag: string): (r: Option<Class>)
    ensures r == Some(Text) <==> tag == "text"
    ensures r.Some? ==> r.value in {Text, At, Sharp, Image, Audio, Video, File, Author}
  {
    if tag == "text" then Some(Text)
    else if tag == "at" then Some(At)
    else if tag == "sharp" then Some(Sharp)
    else if tag == "img" || tag == "image" then Some(Image)
    else if tag == "audio" then Some(Audio)
    else if tag == "video" then Some(Video)
    else if tag == "file" then Some(File)
    else if tag == "author" then Some(Author)
    else None
  }

  /** The style table, which also holds `br`. */
  function StyleType(tag: string): (r: Option<Class>)
    ensures r.Some? ==> r.value in {Bold, Italic, Underline, Strikethrough, Spoiler, Code, Superscript, Subscript, Paragraph, Br}
  {
    if tag == "b" || tag == "strong" || tag == "bold" then Some(Bold)
    else if tag == "i" || tag == "em" || tag == "italic" then Some(Italic)
    else if tag == "u" || tag == "ins" || tag == "underline" then Some(Underline)
    else if tag == "s" || tag == "del" || tag == "strike" || tag == "strikethrough" then Some(Strikethrough)
    else if tag == "spl" || tag == "spoiler" then Some(Spoiler)
    else if tag == "code" then Some(Code)
    else if tag == "sup" || tag == "superscript" then Some(Superscript)
    else if tag == "sub" || tag == "subscript" then Some(Subscript)
    else if tag == "p" || tag == "paragraph" then Some(Paragraph)
    else if tag == "br" then Some(Br)
    else None
  }

  /** The class `transform` picks for a tag, trying in turn the element
      table, links, buttons, the style table, line breaks, messages and
      quotes; anything else is a custom element of that tag. Only `text`
      gives text, and raw content, resources and bare styles never come
      out of a tree. */
  function ClassFor(tag: string): (c: Class)
    ensures c == Text <==> tag == "text"
    ensures c != Raw && c != Resource && c != Style
    ensures c.Custom? ==> c.kind == tag
  {
    if ElementType(tag).Some? then ElementType(tag).value
    else if tag == "a" || tag == "link" then Link
    else if tag == "button" then Button
    else if StyleType(tag).Some? then StyleType(tag).value
    else if tag == "newline" then Br
    else if tag == "message" then Message
    else if tag == "quote" then Quote
    else Custom(tag)
  }

  lemma TagsBack0()
    ensures ClassFor("text") == Text && ClassFor("at") == At
  {
  }

  lemma TagsBack1()
    ensures ClassFor("sharp") == Sharp && ClassFor("img") == Image
  {
  }

  lemma TagsBack2()
    ensures ClassFor("audio") == Audio && ClassFor("video") == Video
  {
  }

  lemma TagsBack3()
    ensures ClassFor("file") == File && ClassFor("author") == Author
  {
  }

  lemma TagsBack4()
    ensures ClassFor("a") == Link && ClassFor("button") == Button
  {
  }

  lemma TagsBack5()
    ensures ClassFor("b") == Bold && ClassFor("i") == Italic
  {
  }

  lemma TagsBack6()
    ensures ClassFor("u") == Underline && ClassFor("s") == Strikethrough
  {
  }

  lemma TagsBack7()
    ensures ClassFor("spl") == Spoiler && ClassFor("code") == Code
  {
  }

  lemma TagsBack8()
    ensures ClassFor("sup") == Superscript && ClassFor("sub") == Subscript
  {
  }

  lemma TagsBack9()
    ensures ClassFor("br") == Br && ClassFor("p") == Paragraph
  {
  }

  lemma TagsBack10()
    ensures ClassFor("message") == Message
  {
  }

  lemma TagsBack11()
    ensures ClassFor("quote") == Quote
  {
  }

  /** The tag an element renders with leads back to its class, for every
      class `transform` produces. */
  lemma ClassForTag(c: Class)
    requires c != Resource && c != Style && c != Raw
    requires c.Custom? ==> ClassFor(c.kind).Custom?
    ensures ClassFor(TagOf(c)) == c
  {
    match c
    case Custom(k) =>
    case Text => TagsBack0();
    case At => TagsBack0();
    case Sharp => TagsBack1();
    case Image => TagsBack1();
    case Audio => TagsBack2();
    case Video => TagsBack2();
    case File => TagsBack3();
    case Author => TagsBack3();
    case Link => TagsBack4();
    case Button => TagsBack4();
    case Bold => TagsBack5();
    case Italic => TagsBack5();
    case Underline => TagsBack6();
    case Strikethrough => TagsBack6();
    case Spoiler => TagsBack7();
    case Code => TagsBack7();
    case Superscript => TagsBack8();
    case Subscript => TagsBack8();
    case Br => TagsBack9();
    case Paragraph => TagsBack9();
    case Message => TagsBack10();
    case Quote => TagsBack11();
  }

  lemma NewlineIsBr()
    ensures ClassFor("newline") == Br
  {
  }

  /** A custom element: its type first, then the attributes given. */
  function CustomElem(kind: string, attrs: Dict<T.Value>): (e: Elem)
    ensures e.cls == Custom(kind) && e.children == []
    ensures forall k :: HasKey(e.attrs, k) <==> k == "type" || HasKey(attrs, k)
    ensures UniqueKeys(attrs) ==> forall k :: HasKey(attrs, k) ==> Get(e.attrs, k) == Get(attrs, k)
  {
    assert Keys([("type", T.Text(kind))]) == ["type"];
    Elem(Custom(kind), Update([("type", T.Text(kind))], attrs), [])
  }

  /** The childless element `transform` builds for a tag other than
      `newline`, before calling it with the children. */
  function Make(kind: string, attrs: Dict<T.Value>, t: Table): (r: Result<Elem, string>)
    ensures r.Ok? ==> r.value.cls == ClassFor(kind) && r.value.children == []
  {
    var c := ClassFor(kind);
    if c.Custom? then Ok(CustomElem(kind, attrs)) else Unpack(c, attrs, NamesIn(t, c))
  }

  /** `transform` of one parsed element: `newline` becomes a bare line
      break; any other tag is unpacked into its class (a custom element
      keeps every attribute), its children are converted, and it is called
      with them. */
  function TransformOne(r: T.Element, t: Table): (res: Result<Elem, string>)
    ensures res.Ok? ==> res.value.cls == ClassFor(r.kind) && ChildrenAllowed(res.value.cls, res.value.children)
    ensures res.Ok? && r.kind != "newline" ==> |res.value.children| == |r.children|
    decreases r
  {
    if r.kind == "newline" then NewlineIsBr(); Ok(Elem(Br, [], []))
    else
      match Make(r.kind, r.attrs, t)
      case Err(e) => Err(e)
      case Ok(e) =>
        match Transform(r.children, t)
        case Err(x) => Err(x)
        case Ok(cs) => Call(e, Nodes(cs))
  }

  /** `transform`: each element in turn, the first failure raised. */
  function Transform(rs: seq<T.Element>, t: Table): (res: Result<seq<Elem>, string>)
    ensures res.Ok? ==> |res.value| == |rs| && forall i :: 0 <= i < |rs| ==> res.value[i].cls == ClassFor(rs[i].kind)
    decreases rs
  {
    if |rs| == 0 then Ok([])
    else match TransformOne(rs[0], t)
      case Err(e) => Err(e)
      case Ok(e) =>
        match Transform(rs[1..], t)
        case Err(x) => Err(x)
        case Ok(es) => Ok([e] + es)
  }

  /** As written, no `<sharp>` element can be converted: one with
      attributes trips over the missing names tuple, one without lacks its
      required `id`. */
  lemma SharpFails(attrs: Dict<T.Value>, children: seq<T.Element>)
    ensures |attrs| > 0 ==> TransformOne(T.Element("sharp", attrs, children), AsWritten) == Err("AttributeError")
    ensures |attrs| == 0 ==> TransformOne(T.Element("sharp", attrs, children), AsWritten) == Err("TypeError")
  {
    TagsBack1();
    var none: Dict<T.Value> := [];
    assert Fields(Sharp)[0].required && !HasKey(none, Fields(Sharp)[0].name);
  }

  /** With its names declared, a childless `<sharp>` with an id converts
      and keeps its id and name. */
  lemma SharpConverts(attrs: Dict<T.Value>)
    requires HasKey(attrs, "id")
    ensures TransformOne(T.Element("sharp", attrs, []), Fixed).Ok?
    ensures var e := TransformOne(T.Element("sharp", attrs, []), Fixed).value;
      Lookup(e.attrs, "id") == Lookup(attrs, "id") && Lookup(e.attrs, "name") == Lookup(attrs, "name")
  {
    TagsBack1();
    SharpUnpacks(attrs);
    assert Transform([], Fixed) == Ok([]);
  }

  lemma SharpUnpacks(attrs: Dict<T.Value>)
    requires HasKey(attrs, "id")
    ensures var r := Unpack(Sharp, attrs, Names(Sharp));
      r.Ok? && Lookup(r.value.attrs, "id") == Lookup(attrs, "id") && Lookup(r.value.attrs, "name") == Lookup(attrs, "name")
  {
    var ns := Names(Sharp).value;
    var fs := Fields(Sharp);
    var kw := Part(attrs, ns, true);
    assert HasKey(kw, "id") by {
      assert Get(kw, "id") == Get(attrs, "id");
    }
    assert !MissingRequired(fs, kw);
    assert FieldValues(fs, kw).Ok?;
    assert fs[0].name == "id" && fs[1].name == "name";
  }

  /** Parsed trees whose `newline` elements are empty (a `newline`'s
      children are dropped by the conversion). */
  predicate NoNewlineChildren(r: T.Element)
    decreases r
  {
    && (r.kind == "newline" ==> |r.children| == 0)
    && forall i :: 0 <= i < |r.children| ==> NoNewlineChildren(r.children[i])
  }

  /** Converting keeps the text: the stripped rendering of the converted
      tree is the stripped rendering of the parsed one. */
  lemma {:induction false} StripAgrees(r: T.Element, t: Table)
    requires TransformOne(r, t).Ok? && NoNewlineChildren(r)
    ensures Dumps(TransformOne(r, t).value, true, t) == T.Dumps(r, true)
    decreases r
  {
    if r.kind == "text" {
      StripTextAgrees(r, t);
    } else if r.kind != "newline" {
      assert Transform(r.children, t).Ok?;
      StripAgreesAll(r.children, t);
      StripNodeAgrees(r, t);
    }
  }

  lemma StripTextAgrees(r: T.Element, t: Table)
    requires TransformOne(r, t).Ok? && r.kind == "text"
    ensures Dumps(TransformOne(r, t).value, true, t) == T.Dumps(r, true)
  {
    var e := TransformOne(r, t).value;
    var ns := NamesIn(t, Text).value;
    var made := Unpack(Text, r.attrs, NamesIn(t, Text));
    assert made.Ok?;
    assert Fields(Text)[0].name == "text" && "text" in ns;
    assert HasKey(r.attrs, "text") by {
      assert !MissingRequired(Fields(Text), Part(r.attrs, ns, true));
    }
    assert e.attrs == made.value.attrs;
    assert Lookup(e.attrs, "text") == Lookup(r.attrs, "text");
  }

  lemma StripNodeAgrees(r: T.Element, t: Table)
    requires TransformOne(r, t).Ok? && r.kind != "text" && r.kind != "newline"
    requires Transform(r.children, t).Ok?
    requires DumpsAll(Transform(r.children, t).value, true, t) == T.DumpsAll(r.children, true)
    ensures Dumps(TransformOne(r, t).value, true, t) == T.Dumps(r, true)
  {
    var e := TransformOne(r, t).value;
    var e0 := Make(r.kind, r.attrs, t).value;
    var cs := Transform(r.children, t).value;
    assert e == e0.(children := e0.children + Elems(Nodes(cs)));
    assert e.children == cs by { assert [] + cs == cs; }
    TagOfIsText(e.cls);
    assert !T.IsTextLeaf(r);
  }

  /** Only the text class, or a custom element named `text`, has the tag
      `text`. */
  lemma TagOfIsText(c: Class)
    ensures TagOf(c) == "text" <==> c == Text || c == Custom("text")
  {
    match c
    case Text =>
    case At =>
    case Sharp =>
    case Link =>
    case Resource =>
    case Image =>
    case Audio =>
    case Video =>
    case File =>
    case Style =>
    case Bold =>
    case Italic =>
    case Underline =>
    case Strikethrough =>
    case Spoiler =>
    case Code =>
    case Superscript =>
    case Subscript =>
    case Br =>
    case Paragraph =>
    case Message =>
    case Quote =>
    case Author =>
    case Button =>
    case Custom(k) =>
    case Raw =>
  }

  lemma {:induction false} StripAgreesAll(rs: seq<T.Element>, t: Table)
    requires Transform(rs, t).Ok? && forall i :: 0 <= i < |rs| ==> NoNewlineChildren(rs[i])
    ensures DumpsAll(Transform(rs, t).value, true, t) == T.DumpsAll(rs, true)
    decreases rs
  {
    if |rs| > 0 {
      StripAgrees(rs[0], t);
      StripAgreesAll(rs[1..], t);
      assert Transform(rs, t).value[1..] == Transform(rs[1..], t).value;
    }
  }

  // ---------------------------------------------------------------------
  // Selecting
  // ---------------------------------------------------------------------

  /** What `select` is asked for: `Element` itself, or a class. */
  datatype Query = AnyElement | Instance(of: Class)

  /** `select` by class: `Element` gives the elements back; otherwise each
      element that is an instance, followed by the matches among its
      children, in order. */
  function Select(es: seq<Elem>, q: Query): seq<Elem>
    decreases es, 1
  {
    if |es| == 0 then []
    else match q
      case AnyElement => es
      case Instance(c) => SelectEach(es, c)
  }

  function SelectEach(es: seq<Elem>, c: Class): seq<Elem>
    decreases es, 0
  {
    if |es| == 0 then []
    else
      var e := es[0];
      (if InstanceOf(e.cls, c) then [e] else [])
        + (if |e.children| > 0 then Select(e.children, Instance(c)) else [])
        + SelectEach(es[1..], c)
  }

  /** Every element of a forest, each before its children (pre-order). */
  function Flatten(es: seq<Elem>): (r: seq<Elem>)
    ensures |es| > 0 ==> |r| > 0 && r[0] == es[0]
    decreases es
  {
    if |es| == 0 then [] else [es[0]] + Flatten(es[0].children) + Flatten(es[1..])
  }

  function Instances(es: seq<Elem>, c: Class): (r: seq<Elem>)
    ensures forall i :: 0 <= i < |r| ==> InstanceOf(r[i].cls, c)
  {
    if |es| == 0 then []
    else Own(es[0], c) + Instances(es[1..], c)
  }

  /** The element itself when it is an instance of `c`, else nothing. */
  function Own(e: Elem, c: Class): (r: seq<Elem>)
    ensures forall i :: 0 <= i < |r| ==> InstanceOf(r[i].cls, c)
  {
    if InstanceOf(e.cls, c) then [e] else []
  }

  lemma {:induction false} InstancesAppend(a: seq<Elem>, b: seq<Elem>, c: Class)
    ensures Instances(a + b, c) == Instances(a, c) + Instances(b, c)
    decreases |a|
  {
    if |a| > 0 {
      var h := Own(a[0], c);
      assert (a + b)[0] == a[0] && (a + b)[1..] == a[1..] + b;
      assert Instances(a + b, c) == h + Instances(a[1..] + b, c);
      InstancesAppend(a[1..], b, c);
      assert Instances(a, c) == h + Instances(a[1..], c);
    } else {
      assert a + b == b;
    }
  }

  /** Selecting a class finds exactly its instances, in document order. */
  lemma {:induction false} SelectFindsInstances(es: seq<Elem>, c: Class)
    ensures Select(es, Instance(c)) == Instances(Flatten(es), c)
    decreases es
  {
    if |es| > 0 {
      var e := es[0];
      SelectFindsInstances(e.children, c);
      SelectFindsInstances(es[1..], c);
      SelectStep(es, c);
      FlattenStep(es, c);
    }
  }

  lemma SelectStep(es: seq<Elem>, c: Class)
    requires |es| > 0
    ensures Select(es, Instance(c)) == (if InstanceOf(es[0].cls, c) then [es[0]] else [])
      + Select(es[0].children, Instance(c)) + Select(es[1..], Instance(c))
  {
    assert SelectEach(es[1..], c) == Select(es[1..], Instance(c));
    if |es[0].children| == 0 {
      assert Select(es[0].children, Instance(c)) == [];
    }
  }

  lemma FlattenStep(es: seq<Elem>, c: Class)
    requires |es| > 0
    ensures Instances(Flatten(es), c) == (if InstanceOf(es[0].cls, c) then [es[0]] else [])
      + Instances(Flatten(es[0].children), c) + Instances(Flatten(es[1..]), c)
  {
    var e := es[0];
    InstancesAppend([e], Flatten(e.children), c);
    InstancesAppend([e] + Flatten(e.children), Flatten(es[1..]), c);
    assert Instances([e], c) == (if InstanceOf(e.cls, c) then [e] else []) + Instances([], c);
  }
}
