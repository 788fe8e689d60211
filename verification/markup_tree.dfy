/** The element tree of the Satori markup as the parser builds it
    (im_api/models/parser.py): building an element from attributes and
    content, rendering it back to markup, and reading one attribute of a
    parsed tag. Elements whose type is a render function (`component`) are
    not modelled; the type is always a tag name. */
module MarkupTree {
  import opened Basics
  import opened Dicts
  import opened Markup

  /** The attribute values markup carries. */
  datatype Value = Nil | Bool(b: bool) | Int(n: int) | Text(s: string)

  /** Python truthiness. */
  predicate Truthy(v: Value)
  {
    match v
    case Nil => false
    case Bool(b) => b
    case Int(n) => n != 0
    case Text(s) => |s| > 0
  }

  /** `str(v)` */
  function ValueStr(v: Value): string
  {
    match v
    case Nil => "None"
    case Bool(b) => if b then "True" else "False"
    case Int(n) => if n < 0 then "-" + Str(-n) else Str(n)
    case Text(s) => s
  }

  datatype Element = Element(kind: string, attrs: Dict<Value>, children: seq<Element>)

  // ---------------------------------------------------------------------
  // Building
  // ---------------------------------------------------------------------

  /** What may stand as content: an element, a boolean, an integer, a
      string, or `None`. */
  datatype Content = Node(e: Element) | BoolContent(b: bool) | IntContent(n: int) | StrContent(s: string) | NoContent

  /** A positional argument of the constructor: one content or a list. */
  datatype Fragment = One(c: Content) | Many(cs: seq<Content>)

  function TextElement(s: string): Element
  {
    Element("text", [("text", Text(s))], [])
  }

  /** `str(content)` for the scalar contents. */
  function ContentStr(c: Content): string
  {
    match c
    case BoolContent(b) => ValueStr(Bool(b))
    case IntContent(n) => ValueStr(Int(n))
    case StrContent(s) => s
    case _ => ""
  }

  /** `make_element`: an element stays, a scalar becomes a text element,
      `None` gives nothing, and the empty string, which fails the
      non-empty-string test and is not `None`, raises `ValueError`. */
  function MakeElement(c: Content): (r: Result<Option<Element>, string>)
    ensures c.Node? ==> r == Ok(Some(c.e))
    ensures r.Err? <==> c == StrContent("")
    ensures r.Err? ==> r.error == "ValueError"
    ensures r == Ok(None) <==> c == NoContent
    ensures !c.Node? && r.Ok? && r.value.Some? ==> Dumps(r.value.value, true) == Ok(ContentStr(c))
    ensures !c.Node? && r.Ok? && r.value.Some? ==> Dumps(r.value.value, false) == Ok(Escape(ContentStr(c), false))
  {
    match c
    case Node(e) => Ok(Some(e))
    case NoContent => Ok(None)
    case StrContent(s) => if |s| == 0 then Err("ValueError") else Ok(Some(TextElement(s)))
    case _ => Ok(Some(TextElement(ContentStr(c))))
  }

  /** Some content is the empty string. */
  predicate HasEmptyText(cs: seq<Content>)
  {
    exists i :: 0 <= i < |cs| && cs[i] == StrContent("")
  }

  /** `make_elements` on a list: every content is made (the first failure
      raises), then the `None`s are dropped. */
  function MakeAll(cs: seq<Content>): (r: Result<seq<Element>, string>)
    ensures r.Err? <==> HasEmptyText(cs)
    ensures r.Ok? ==> |r.value| <= |cs|
    ensures (forall i :: 0 <= i < |cs| ==> cs[i].Node?) ==>
      r.Ok? && |r.value| == |cs| && forall i :: 0 <= i < |cs| ==> r.value[i] == cs[i].e
  {
    if |cs| == 0 then Ok([])
    else
      assert forall i :: 0 <= i < |cs| - 1 ==> cs[1..][i] == cs[i + 1];
      assert HasEmptyText(cs) <==> cs[0] == StrContent("") || HasEmptyText(cs[1..]) by {
        if HasEmptyText(cs) && cs[0] != StrContent("") {
          var i :| 0 <= i < |cs| && cs[i] == StrContent("");
          assert cs[1..][i - 1] == cs[i];
        }
      }
      match MakeElement(cs[0])
      case Err(e) => Err(e)
      case Ok(head) =>
        match MakeAll(cs[1..])
        case Err(e) => Err(e)
        case Ok(rest) =>
          Ok((if head.Some? then [head.value] else []) + rest)
  }

  /** The contents a fragment stands for. */
  function Contents(f: Fragment): seq<Content>
  {
    match f
    case One(c) => [c]
    case Many(cs) => cs
  }

  /** `make_elements`, applied to each positional fragment in turn. */
  function MakeFragments(fs: seq<Fragment>): (r: Result<seq<Element>, string>)
    ensures r.Err? <==> exists i :: 0 <= i < |fs| && HasEmptyText(Contents(fs[i]))
  {
    if |fs| == 0 then Ok([])
    else
      assert forall i :: 0 <= i < |fs| - 1 ==> fs[1..][i] == fs[i + 1];
      assert (exists i :: 0 <= i < |fs| && HasEmptyText(Contents(fs[i])))
         <==> HasEmptyText(Contents(fs[0])) || exists i :: 0 <= i < |fs| - 1 && HasEmptyText(Contents(fs[1..][i]));
      match MakeAll(Contents(fs[0]))
      case Err(e) => Err(e)
      case Ok(h) =>
        match MakeFragments(fs[1..])
        case Err(e) => Err(e)
        case Ok(rest) => Ok(h + rest)
  }

  /** An empty string among the children raises, wherever it stands; the
      same content without it is accepted. */
  lemma EmptyTextRaises(before: Content, after: Content)
    requires before != StrContent("") && after != StrContent("")
    ensures MakeAll([before, StrContent(""), after]) == Err("ValueError")
    ensures MakeAll([before, after]).Ok?
  {
    assert [before, StrContent(""), after][1] == StrContent("");
    assert !HasEmptyText([before, after]);
  }

  /** Whether some attribute given to the constructor becomes `k`. */
  predicate Given(attrs: Dict<Value>, k: string)
  {
    exists i :: 0 <= i < |attrs| && attrs[i].1 != Nil && attrs[i].0 != "children" && CamelCase(attrs[i].0) == k
  }

  /** Whether no attribute given to the constructor is kept. */
  predicate NoneGiven(attrs: Dict<Value>)
  {
    forall i :: 0 <= i < |attrs| ==> attrs[i].1 == Nil || attrs[i].0 == "children"
  }

  /** The attribute loop of `Element.__init__`: `None` values are skipped,
      a `children` attribute contributes children, and every other key is
      camel-cased (a later value for the same name wins, in the first
      one's place). Only elements are children here, so a truthy
      `children` value that is not one is refused. */
  function InitAttrs(attrs: Dict<Value>, acc: Dict<Value>): (r: Result<Dict<Value>, string>)
    ensures r.Err? <==> exists i :: 0 <= i < |attrs| && attrs[i].0 == "children" && Truthy(attrs[i].1)
    ensures r.Ok? ==> forall k :: HasKey(r.value, k) <==> HasKey(acc, k) || Given(attrs, k)
    ensures r.Ok? ==> forall e :: e in r.value ==> e in acc || e.1 != Nil
    decreases |attrs|
  {
    if |attrs| == 0 then Ok(acc)
    else
      var k := attrs[0].0;
      var v := attrs[0].1;
      assert forall i :: 1 <= i < |attrs| ==> attrs[i] == attrs[1..][i - 1];
      assert forall i :: 0 <= i < |attrs| - 1 ==> attrs[1..][i] == attrs[i + 1];
      if v == Nil then InitAttrs(attrs[1..], acc)
      else if k == "children" then (if Truthy(v) then Err("children must be elements") else InitAttrs(attrs[1..], acc))
      else
        PutEntries(acc, CamelCase(k), v);
        PutKeys(acc, CamelCase(k), v);
        InitAttrs(attrs[1..], Put(acc, CamelCase(k), v))
  }

  /** The text rule of `Element.__init__`: `content` is renamed `text`, and
      a text element without attributes gets an empty `text`. */
  function TextRule(a: Dict<Value>): (r: Dict<Value>)
    ensures !HasKey(r, "content")
    ensures HasKey(a, "content") ==> Get(r, "text") == Get(a, "content")
    ensures |a| == 0 ==> Get(r, "text") == Some(Text(""))
    ensures !HasKey(a, "content") && |a| > 0 ==> r == a
    ensures HasKey(r, "text") <==> HasKey(a, "text") || HasKey(a, "content") || |a| == 0
  {
    var g: Option<Value> := Get(a, "content");
    match g
    case Some(v) =>
      var r := Put(Remove(a, "content"), "text", v);
      PutHasKey(Remove(a, "content"), "text", v, "content");
      r
    case None => if |a| == 0 then [("text", Text(""))] else a
  }

  /** `Element(type, attrs, *children)` */
  function Init(kind: string, attrs: Dict<Value>, fragments: seq<Fragment>): (r: Result<Element, string>)
    ensures r.Err? <==> (exists i :: 0 <= i < |attrs| && attrs[i].0 == "children" && Truthy(attrs[i].1))
                        || MakeFragments(fragments).Err?
    ensures r.Ok? ==> r.value.kind == kind && r.value.children == MakeFragments(fragments).value
    ensures r.Ok? && kind == "text" ==> !HasKey(r.value.attrs, "content")
    ensures r.Ok? && kind == "text" ==>
      (HasKey(r.value.attrs, "text") <==> Given(attrs, "text") || Given(attrs, "content") || NoneGiven(attrs))
  {
    match InitAttrs(attrs, [])
    case Err(e) => Err(e)
    case Ok(a) =>
      assert |a| > 0 ==> HasKey(a, Keys(a)[0]);
      assert |a| == 0 <==> NoneGiven(attrs) by {
        if !NoneGiven(attrs) {
          var i :| 0 <= i < |attrs| && attrs[i].1 != Nil && attrs[i].0 != "children";
          assert Given(attrs, CamelCase(attrs[i].0));
        }
      }
      var a' := if kind == "text" then TextRule(a) else a;
      match MakeFragments(fragments)
      case Err(e) => Err(e)
      case Ok(children) => Ok(Element(kind, a', children))
  }

  // ---------------------------------------------------------------------
  // Rendering
  // ---------------------------------------------------------------------

  /** How an attribute stands in a tag: its name, and its quoted value if
      it has one. */
  datatype AttrToken = AttrToken(name: string, quoted: Option<string>)

  /** `_attr(key, value)` of `attributes`, as a token: nothing for `None`,
      the bare name for `True`, `no-name` for `False`, otherwise the name
      with the inline-escaped `str(value)`. */
  function RenderAttr(k: string, v: Value): (r: Result<Option<AttrToken>, string>)
    ensures v == Nil ==> r == Ok(None)
    ensures v != Nil ==> (r.Err? <==> |k| == 0)
    ensures r.Ok? && r.value.Some? ==> '<' !in r.value.value.name || '<' in k
    ensures r.Ok? && r.value.Some? && r.value.value.quoted.Some? ==> '"' !in r.value.value.quoted.value && '<' !in r.value.value.quoted.value
  {
    if v == Nil then Ok(None)
    else match ParamCase(k)
      case Err(e) => Err(e)
      case Ok(key) =>
        match v
        case Bool(b) => Ok(Some(AttrToken(if b then key else "no-" + key, None)))
        case _ => Ok(Some(AttrToken(key, Some(Escape(ValueStr(v), true)))))
  }

  function TokenText(t: AttrToken): string
  {
    " " + t.name + match t.quoted case Some(q) => "=\"" + q + "\"" case None => ""
  }

  /** The tokens of `attributes()`, in the dict's order. */
  function Tokens(attrs: Dict<Value>): (r: Result<seq<AttrToken>, string>)
    ensures r.Ok? <==> forall i :: 0 <= i < |attrs| && attrs[i].1 != Nil ==> |attrs[i].0| > 0
    ensures (forall i :: 0 <= i < |attrs| ==> '<' !in attrs[i].0) && r.Ok? ==>
      forall j :: 0 <= j < |r.value| ==> '<' !in r.value[j].name && (r.value[j].quoted.Some? ==> '<' !in r.value[j].quoted.value)
    decreases |attrs|
  {
    if |attrs| == 0 then Ok([])
    else
      assert forall i :: 0 <= i < |attrs| - 1 ==> attrs[1..][i] == attrs[i + 1];
      assert forall i :: 1 <= i < |attrs| ==> attrs[i] == attrs[1..][i - 1];
      match RenderAttr(attrs[0].0, attrs[0].1)
      case Err(e) => Err(e)
      case Ok(t) =>
        var head := match t case Some(tok) => [tok] case None => [];
        match Tokens(attrs[1..])
        case Err(e) => Err(e)
        case Ok(ts) => Ok(head + ts)
  }

  function TokensText(ts: seq<AttrToken>): (r: string)
    ensures (forall j :: 0 <= j < |ts| ==> '<' !in ts[j].name && (ts[j].quoted.Some? ==> '<' !in ts[j].quoted.value)) ==> '<' !in r
  {
    if |ts| == 0 then "" else TokenText(ts[0]) + TokensText(ts[1..])
  }

  /** `attributes()`: the rendered attributes in order. */
  function Attributes(attrs: Dict<Value>): (r: Result<string, string>)
    ensures (forall i :: 0 <= i < |attrs| ==> '<' !in attrs[i].0) && r.Ok? ==> '<' !in r.value
  {
    match Tokens(attrs)
    case Err(e) => Err(e)
    case Ok(ts) => Ok(TokensText(ts))
  }

  /** How a text element renders its text: escaped, or as it is when
      stripping. Only a string can be rendered (`escape` of anything else
      fails, and so does joining it when stripping). */
  function LeafText(v: Value, strip: bool): (r: Result<string, string>)
    ensures r.Ok? <==> v.Text?
    ensures r.Ok? && strip ==> r.value == v.s
    ensures r.Ok? && !strip ==> '<' !in r.value && Unescape(r.value) == Ok(v.s)
  {
    match v
    case Text(s) =>
      UnescapeEscape(s, false);
      Ok(if strip then s else Escape(s, false))
    case _ => Err(if strip then "TypeError" else "AttributeError")
  }

  /** A text element that holds its text: rendered as the text alone. */
  predicate IsTextLeaf(e: Element)
  {
    e.kind == "text" && HasKey(e.attrs, "text")
  }

  /** `dumps(strip)`: a text element is its text (escaped unless
      stripping); otherwise the children's renderings, wrapped in the tag
      unless stripping, self-closing when there are none. */
  function Dumps(e: Element, strip: bool): (r: Result<string, string>)
    ensures !strip && r.Ok? && !IsTextLeaf(e) ==> StartsWith(r.value, "<" + e.kind)
    decreases e
  {
    if IsTextLeaf(e) then LeafText(Get(e.attrs, "text").value, strip)
    else
      match DumpsAll(e.children, strip)
      case Err(x) => Err(x)
      case Ok(inner) =>
        if strip then Ok(inner)
        else match Attributes(e.attrs)
          case Err(x) => Err(x)
          case Ok(a) =>
            var open := "<" + e.kind + a;
            var r := if |e.children| == 0 then open + "/>" else open + ">" + inner + "</" + e.kind + ">";
            assert r[..|"<" + e.kind|] == "<" + e.kind;
            Ok(r)
  }

  function DumpsAll(cs: seq<Element>, strip: bool): Result<string, string>
    decreases cs
  {
    if |cs| == 0 then Ok("")
    else match Dumps(cs[0], strip)
      case Err(x) => Err(x)
      case Ok(d) => Prepend(d, DumpsAll(cs[1..], strip))
  }

  /** Tag names and attribute names free of `<`, throughout the tree. */
  predicate WellNamed(e: Element)
    decreases e
  {
    && '<' !in e.kind
    && (forall i :: 0 <= i < |e.attrs| ==> '<' !in e.attrs[i].0)
    && forall i :: 0 <= i < |e.children| ==> WellNamed(e.children[i])
  }

  /** The number of `<` the tags of a tree write: one for a self-closing
      tag, two for an open and close pair, none for text. */
  function Tags(e: Element): nat
    decreases e
  {
    if IsTextLeaf(e) then 0
    else (if |e.children| == 0 then 1 else 2) + TagsAll(e.children)
  }

  function TagsAll(cs: seq<Element>): nat
    decreases cs
  {
    if |cs| == 0 then 0 else Tags(cs[0]) + TagsAll(cs[1..])
  }

  /** Text and attribute values cannot open a tag: every `<` in the
      rendering belongs to a tag of the tree. */
  lemma {:induction false} DumpsTagCount(e: Element)
    requires WellNamed(e) && Dumps(e, false).Ok?
    ensures CountChar(Dumps(e, false).value, '<') == Tags(e)
    decreases e
  {
    if IsTextLeaf(e) {
      CountCharAbsent(Dumps(e, false).value, '<');
    } else {
      var inner := DumpsAll(e.children, false).value;
      var a := Attributes(e.attrs).value;
      DumpsAllTagCount(e.children);
      CountCharAbsent(e.kind, '<');
      CountCharAbsent(a, '<');
      CountCharAppend("<", e.kind, '<');
      CountCharAppend("<" + e.kind, a, '<');
      var open := "<" + e.kind + a;
      if |e.children| == 0 {
        CountCharAppend(open, "/>", '<');
      } else {
        CountCharAppend(open, ">", '<');
        CountCharAppend(open + ">", inner, '<');
        CountCharAppend(open + ">" + inner, "</", '<');
        CountCharAppend(open + ">" + inner + "</", e.kind, '<');
        CountCharAppend(open + ">" + inner + "</" + e.kind, ">", '<');
      }
    }
  }

  lemma {:induction false} DumpsAllTagCount(cs: seq<Element>)
    requires forall i :: 0 <= i < |cs| ==> WellNamed(cs[i])
    requires DumpsAll(cs, false).Ok?
    ensures CountChar(DumpsAll(cs, false).value, '<') == TagsAll(cs)
    decreases cs
  {
    if |cs| > 0 {
      DumpsTagCount(cs[0]);
      DumpsAllTagCount(cs[1..]);
      CountCharAppend(Dumps(cs[0], false).value, DumpsAll(cs[1..], false).value, '<');
    }
  }

  // ---------------------------------------------------------------------
  // Reading attributes back
  // ---------------------------------------------------------------------

  /** How `parse_tokens` reads one attribute of a tag, as written (template
      interpolation aside): `value1 or value2` treats an empty quoted value
      as no value at all. */
  function ReadAttrAsWritten(t: AttrToken): (r: Result<(string, Value), string>)
    ensures t.quoted == Some("") ==> r == Ok(if StartsWith(t.name, "no-") then (t.name[3..], Bool(false)) else (t.name, Bool(true)))
  {
    match t.quoted
    case Some(q) =>
      if |q| > 0 then
        (match Unescape(q)
         case Err(e) => Err(e)
         case Ok(u) => Ok((t.name, Text(u))))
      else ReadFlag(t.name)
    case None => ReadFlag(t.name)
  }

  /** A bare name: `no-name` is `False`, any other name `True`. */
  function ReadFlag(name: string): (r: Result<(string, Value), string>)
    ensures r.Ok? && r.value.1.Bool?
    ensures r.value.1 == Bool(false) <==> StartsWith(name, "no-")
    ensures StartsWith(name, "no-") ==> "no-" + r.value.0 == name
    ensures !StartsWith(name, "no-") ==> r.value.0 == name
  {
    if StartsWith(name, "no-") then
      assert name == "no-" + name[3..];
      Ok((name[3..], Bool(false)))
    else Ok((name, Bool(true)))
  }

  /** The reading evidently intended: any quoted value, empty or not, is
      the attribute's value. */
  function ReadAttr(t: AttrToken): (r: Result<(string, Value), string>)
    ensures r.Ok? ==> r.value.1.Bool? || r.value.1.Text?
    ensures t.quoted.Some? ==> (r.Ok? <==> Unescape(t.quoted.value).Ok?)
    ensures t.quoted.Some? && r.Ok? ==> r.value == (t.name, Text(Unescape(t.quoted.value).value))
  {
    match t.quoted
    case Some(q) =>
      (match Unescape(q)
       case Err(e) => Err(e)
       case Ok(u) => Ok((t.name, Text(u))))
    case None => ReadFlag(t.name)
  }

  /** As written, an empty string attribute comes back as `True`. */
  lemma EmptyValueReadsTrue()
    ensures RenderAttr("title", Text("")) == Ok(Some(AttrToken("title", Some(""))))
    ensures ReadAttrAsWritten(AttrToken("title", Some(""))) == Ok(("title", Bool(true)))
    ensures ReadAttr(AttrToken("title", Some(""))) == Ok(("title", Text("")))
  {
    EmptyTitleRendered();
    EmptyTitleReadAsWritten();
    EmptyTitleRead();
  }

  lemma EmptyTitleRendered()
    ensures RenderAttr("title", Text("")) == Ok(Some(AttrToken("title", Some(""))))
  {
    CamelParamTitle();
    assert Escape("", true) == "";
  }

  lemma EmptyTitleReadAsWritten()
    ensures ReadAttrAsWritten(AttrToken("title", Some(""))) == Ok(("title", Bool(true)))
  {
    assert "title"[..3][0] != "no-"[0];
  }

  lemma EmptyTitleRead()
    ensures ReadAttr(AttrToken("title", Some(""))) == Ok(("title", Text("")))
  {
    assert Unescape("") == Ok("");
  }

  lemma CamelParamTitle()
    ensures ParamCase("title") == Ok("title")
  {
    assert Uncapitalize("title") == Ok("title") by {
      assert [LowerChar('t')] + "title"[1..] == "title";
    }
    assert SubstChar("title", '_', '-') == "title";
    assert HyphenateCapitals("title") == "title" by {
      NoCapitalsKept("title");
    }
  }

  /** Text with no capitals is not hyphenated. */
  lemma {:induction false} NoCapitalsKept(t: string)
    requires forall i :: 0 <= i < |t| ==> !IsUpper(t[i])
    ensures HyphenateCapitals(t) == t
    decreases |t|
  {
    if |t| > 0 {
      NoCapitalsKept(t[1..]);
      assert t == [t[0]] + t[1..];
    }
  }

  /** What an attribute reads back as: a flag stays a flag, anything else
      becomes its string. */
  function ReadBackValue(v: Value): Value
  {
    if v.Bool? then v else Text(ValueStr(v))
  }

  /** A rendered attribute, read back and camel-cased, gives the name and
      the value it came from, unless a true flag's name itself starts with
      `no-`. */
  lemma AttrRoundTrip(k: string, v: Value)
    requires IsCamelName(k) && v != Nil
    requires v == Bool(true) ==> !StartsWith(ParamCase(k).value, "no-")
    ensures RenderAttr(k, v).Ok? && RenderAttr(k, v).value.Some?
    ensures var t := RenderAttr(k, v).value.value;
      && ReadAttr(t).Ok? && CamelCase(ReadAttr(t).value.0) == k && ReadAttr(t).value.1 == ReadBackValue(v)
      && ReadAttr(t).value.0 == ParamCase(k).value
  {
    CamelCaseParamCase(k);
    var key := ParamCase(k).value;
    var t := RenderAttr(k, v).value.value;
    match v
    case Bool(b) =>
      if !b {
        assert t.name == "no-" + key;
        assert StartsWith(t.name, "no-");
        assert t.name[3..] == key;
      }
    case _ =>
      UnescapeEscape(ValueStr(v), true);
  }

  /** The attribute loop of `parse_tokens`: each token read in turn into
      a dict, a later name overwriting an earlier one. */
  function ReadTag(ts: seq<AttrToken>, acc: Dict<Value>): (r: Result<Dict<Value>, string>)
    ensures r.Ok? ==> forall e :: e in r.value ==> e in acc || e.1 != Nil
    decreases |ts|
  {
    if |ts| == 0 then Ok(acc)
    else match ReadAttr(ts[0])
      case Err(e) => Err(e)
      case Ok(p) =>
        PutEntries(acc, p.0, p.1);
        ReadTag(ts[1..], Put(acc, p.0, p.1))
  }

  /** An attribute that survives rendering and reading unchanged: a
      camel-case name other than `children`, a flag or a string, and no
      true flag whose name starts with `no-` once hyphenated. */
  predicate Plain(k: string, v: Value)
  {
    && IsCamelName(k) && k != "children" && (v.Bool? || v.Text?)
    && (v == Bool(true) ==> !StartsWith(ParamCase(k).value, "no-"))
  }

  predicate AllPlain(attrs: Dict<Value>)
  {
    forall i :: 0 <= i < |attrs| ==> Plain(attrs[i].0, attrs[i].1)
  }

  /** The attributes under their hyphenated names, as a tag spells them. */
  function ParamKeys(attrs: Dict<Value>): (r: Dict<Value>)
    requires AllPlain(attrs)
    ensures |r| == |attrs|
  {
    if |attrs| == 0 then []
    else
      assert forall i :: 0 <= i < |attrs| - 1 ==> attrs[1..][i] == attrs[i + 1];
      [(ParamCase(attrs[0].0).value, attrs[0].1)] + ParamKeys(attrs[1..])
  }

  lemma {:induction false} ReadRendered(attrs: Dict<Value>, acc: Dict<Value>)
    requires AllPlain(attrs) && UniqueKeys(attrs)
    requires forall i :: 0 <= i < |attrs| ==> !HasKey(acc, ParamCase(attrs[i].0).value)
    ensures Tokens(attrs).Ok? && ReadTag(Tokens(attrs).value, acc) == Ok(acc + ParamKeys(attrs))
    decreases |attrs|
  {
    if |attrs| == 0 {
      assert acc + ParamKeys(attrs) == acc;
    } else {
      var k0 := attrs[0].0;
      var v0 := attrs[0].1;
      var rest := attrs[1..];
      AttrRoundTrip(k0, v0);
      var t := RenderAttr(k0, v0).value.value;
      var pk0 := ParamCase(k0).value;
      var acc' := acc + [(pk0, v0)];
      RestFresh(attrs, acc);
      ReadRendered(rest, acc');
      var ts := Tokens(rest).value;
      TokensHead(attrs);
      ReadTagHead(t, ts, acc, pk0, v0);
      assert ParamKeys(attrs) == [(pk0, v0)] + ParamKeys(rest);
      AppendOne(acc, (pk0, v0), ParamKeys(rest));
    }
  }

  /** The rest of the attributes stay fresh once the first is read. */
  lemma RestFresh(attrs: Dict<Value>, acc: Dict<Value>)
    requires |attrs| > 0 && AllPlain(attrs) && UniqueKeys(attrs)
    requires forall i :: 0 <= i < |attrs| ==> !HasKey(acc, ParamCase(attrs[i].0).value)
    ensures AllPlain(attrs[1..]) && UniqueKeys(attrs[1..])
    ensures forall i :: 0 <= i < |attrs[1..]| ==>
              !HasKey(acc + [(ParamCase(attrs[0].0).value, attrs[0].1)], ParamCase(attrs[1..][i].0).value)
  {
    var rest := attrs[1..];
    var pk0 := ParamCase(attrs[0].0).value;
    assert forall i :: 0 <= i < |rest| ==> rest[i] == attrs[i + 1];
    forall i | 0 <= i < |rest|
      ensures ParamCase(rest[i].0).value != pk0
    {
      CamelCaseParamCase(rest[i].0);
      CamelCaseParamCase(attrs[0].0);
    }
    var acc' := acc + [(pk0, attrs[0].1)];
    assert Keys(acc') == Keys(acc) + [pk0];
  }

  /** Rendering a plain first attribute puts its token first. */
  lemma {:induction false} TokensHead(attrs: Dict<Value>)
    requires |attrs| > 0 && RenderAttr(attrs[0].0, attrs[0].1).Ok? && RenderAttr(attrs[0].0, attrs[0].1).value.Some?
    requires Tokens(attrs[1..]).Ok?
    ensures Tokens(attrs) == Ok([RenderAttr(attrs[0].0, attrs[0].1).value.value] + Tokens(attrs[1..]).value)
  {
  }

  /** Reading a token whose name is not yet present appends its entry. */
  lemma ReadTagHead(t: AttrToken, ts: seq<AttrToken>, acc: Dict<Value>, k: string, v: Value)
    requires ReadAttr(t) == Ok((k, v)) && !HasKey(acc, k)
    ensures ReadTag([t] + ts, acc) == ReadTag(ts, acc + [(k, v)])
  {
    assert ([t] + ts)[1..] == ts;
    PutAbsent(acc, k, v);
  }

  lemma {:induction false} InitParamKeys(attrs: Dict<Value>, acc: Dict<Value>)
    requires AllPlain(attrs) && UniqueKeys(acc + attrs)
    ensures InitAttrs(ParamKeys(attrs), acc) == Ok(acc + attrs)
    decreases |attrs|
  {
    if |attrs| > 0 {
      var k0 := attrs[0].0;
      var v0 := attrs[0].1;
      var rest := attrs[1..];
      assert attrs == [(k0, v0)] + rest;
      assert AllPlain(rest);
      var p := ParamKeys(attrs);
      var pk0 := ParamCase(k0).value;
      assert p == [(pk0, v0)] + ParamKeys(rest);
      ParamNameBack(k0, v0);
      UniqueHead(acc, attrs);
      PutAbsent(acc, k0, v0);
      InitAttrsStep(p, acc);
      assert p[1..] == ParamKeys(rest);
      AppendOne(acc, (k0, v0), rest);
      InitParamKeys(rest, acc + [(k0, v0)]);
    } else {
      assert acc + attrs == acc;
    }
  }

  lemma InitAttrsStep(p: Dict<Value>, acc: Dict<Value>)
    requires |p| > 0 && p[0].1 != Nil && p[0].0 != "children"
    ensures InitAttrs(p, acc) == InitAttrs(p[1..], Put(acc, CamelCase(p[0].0), p[0].1))
  {
  }

  lemma ParamNameBack(k: string, v: Value)
    requires Plain(k, v)
    ensures CamelCase(ParamCase(k).value) == k && ParamCase(k).value != "children" && v != Nil
  {
    CamelCaseParamCase(k);
    CamelCaseFixed("children");
  }

  lemma UniqueHead<V>(acc: Dict<V>, d: Dict<V>)
    requires UniqueKeys(acc + d) && |d| > 0
    ensures !HasKey(acc, d[0].0)
  {
    forall i | 0 <= i < |acc| ensures Keys(acc)[i] != d[0].0 {
      assert (acc + d)[i].0 != (acc + d)[|acc|].0;
    }
  }

  /** A tag's attributes, rendered, read back and given to the constructor,
      are the attributes it was rendered from. */
  lemma ParseRenderedAttrs(kind: string, attrs: Dict<Value>)
    requires AllPlain(attrs) && UniqueKeys(attrs) && kind != "text"
    ensures Tokens(attrs).Ok? && ReadTag(Tokens(attrs).value, []).Ok?
    ensures InitAttrs(ReadTag(Tokens(attrs).value, []).value, []) == Ok(attrs)
    ensures Init(kind, ReadTag(Tokens(attrs).value, []).value, []) == Ok(Element(kind, attrs, []))
  {
    ReadRendered(attrs, []);
    assert [] + ParamKeys(attrs) == ParamKeys(attrs);
    InitParamKeys(attrs, []);
    assert [] + attrs == attrs;
  }

  /** The flip side of the `no-` convention: a true flag whose name starts
      with `no` and a capital reads back as a false flag of the rest. */
  lemma NoPrefixedFlagFlips()
    ensures RenderAttr("noX", Bool(true)) == Ok(Some(AttrToken("no-x", None)))
    ensures ReadAttr(AttrToken("no-x", None)) == Ok(("x", Bool(false)))
  {
    assert Uncapitalize("noX") == Ok("noX") by {
      assert [LowerChar('n')] + "noX"[1..] == "noX";
    }
    assert SubstChar("noX", '_', '-') == "noX";
    HyphenateNoX();
    assert "no-x"[3..] == "x";
  }

  lemma HyphenateNoX()
    ensures HyphenateCapitals("noX") == "no-x"
  {
    var u := "oX";
    assert UpperRun(u[1..]) == 1 by {
      assert u[1..] == "X";
      assert UpperRun(u[1..][1..]) == 0;
    }
    assert HyphenateCapitals(u) == "o-x" by {
      assert u[1..2] == "X";
      assert Lower("X") == "x";
      assert u[2..] == "";
    }
    assert "noX"[1..] == u;
  }
}
