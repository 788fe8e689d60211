/** Command trees written as nested dicts (`Node` in
    src/dict_command_registration/dict_command_registration/node.py): reading
    a node and its children from a dict with the documented defaults, and
    turning it into an MCDR node. The values a dict may hold are modelled
    as a small universe of Python values; the MCDR node classes, callables
    and the user's own argument classes are known only by identity. The
    `NodeType` members are those of test1/test1/node_type.py, since the
    package's own node_type.py is not part of this model. */
module DictNodes {
  import opened Basics
  import opened Dicts

  /** The members of `NodeType`; each stands for an MCDR node class. */
  datatype NodeKind = Literal | Number | Integer | Float | Text | QuotableText | GreedyText | Boolean | Enumeration

  /** The Python values a command dict holds. */
  datatype Value =
    | VNone
    | VBool(b: bool)
    | VInt(i: int)
    | VStr(s: string)
    | VList(items: seq<Value>)
    | VDict(entries: Dict<Value>)
    | VFunc(fid: nat)        // a function or lambda
    | VClass(cid: nat)       // a class, e.g. a custom argument node class
    | VNodeType(kind: NodeKind)
    | VNode(nid: nat)        // an MCDR node instance built elsewhere

  /** `isinstance(v, Callable)`: functions and classes. */
  predicate Callable(v: Value)
  {
    v.VFunc? || v.VClass?
  }

  datatype NodeError =
    | MissingRequiredAttribute(attr: string)
    | AttributeError            // `.get` on something that is not a dict
    | TypeError(what: string)

  /** A `Node` after `__init__`. */
  datatype Node = Node(
    name: Value, node: Value, literal: Value, typ: Value,
    enumeration: Value, args: Value, kwargs: Value,
    runs: Value, requirements: Value, redirects: Value, suggests: Value,
    onError: Value, onChildError: Value,
    children: seq<Node>)

  /** Where `k` first occurs among the entries. */
  function FindKey(d: Dict<Value>, k: string): (r: Option<nat>)
    ensures r.Some? ==> r.value < |d| && d[r.value].0 == k && forall j :: 0 <= j < r.value ==> d[j].0 != k
    ensures r.None? ==> forall j :: 0 <= j < |d| ==> d[j].0 != k
  {
    if |d| == 0 then None
    else if d[0].0 == k then Some(0)
    else
      match FindKey(d[1..], k)
      case None => None
      case Some(i) => Some(i + 1)
  }

  /** `d.get(k, default)`. */
  function GetOr(d: Dict<Value>, k: string, default: Value): (r: Value)
    ensures FindKey(d, k).None? ==> r == default
    ensures FindKey(d, k).Some? ==> r == d[FindKey(d, k).value].1
  {
    match FindKey(d, k)
    case None => default
    case Some(i) => d[i].1
  }

  /** The first error among the built children, or all of them. */
  function AllOk<T>(rs: seq<Result<T, NodeError>>): (r: Result<seq<T>, NodeError>)
    ensures r.Ok? <==> forall i :: 0 <= i < |rs| ==> rs[i].Ok?
    ensures r.Ok? ==> |r.value| == |rs| && forall i :: 0 <= i < |rs| ==> rs[i] == Ok(r.value[i])
    ensures r.Err? ==> exists i :: 0 <= i < |rs| && rs[i] == Err(r.error) &&
                                   forall j :: 0 <= j < i ==> rs[j].Ok?
  {
    if |rs| == 0 then Ok([])
    else if rs[0].Err? then Err(rs[0].error)
    else match AllOk(rs[1..])
      case Err(e) =>
        ghost var i :| 0 <= i < |rs[1..]| && rs[1..][i] == Err(e) && forall j :: 0 <= j < i ==> rs[1..][j].Ok?;
        assert rs[i + 1] == Err(e);
        Err(e)
      case Ok(vs) => Ok([rs[0].value] + vs)
  }

  /** `Node(data)`: the name is required, and is checked before the
      children are read. */
  function BuildNode(data: Value): (r: Result<Node, NodeError>)
    ensures !data.VDict? ==> r == Err(AttributeError)
    ensures data.VDict? && GetOr(data.entries, "name", VNone).VNone? ==> r == Err(MissingRequiredAttribute("name"))
    ensures data.VDict? && !GetOr(data.entries, "name", VNone).VNone? ==>
              match ReadChildren(data.entries)
              case Err(e) => r == Err(e)
              case Ok(kids) => r == Ok(NodeFrom(data.entries, kids))
    decreases data, 1
  {
    match data
    case VDict(d) =>
      if GetOr(d, "name", VNone).VNone? then Err(MissingRequiredAttribute("name"))
      else
        (match ReadChildren(d)
         case Err(e) => Err(e)
         case Ok(kids) => Ok(NodeFrom(d, kids)))
    case _ => Err(AttributeError)
  }

  /** `for i in data.get("children", []): Node(i)`. Iterating the value the
      Python way: a list yields its items, which are built in order; a dict
      yields its keys and a string its characters, which are not dicts, so
      the first of them fails at `.get`; anything else is not iterable. */
  function ReadChildren(d: Dict<Value>): (r: Result<seq<Node>, NodeError>)
    ensures FindKey(d, "children").None? ==> r == Ok([])
    decreases VDict(d), 0
  {
    match FindKey(d, "children")
    case None => Ok([])
    case Some(k) =>
      assert d[k] in d;
      match d[k].1
      case VList(items) => AllOk(seq(|items|, i requires 0 <= i < |items| => BuildNode(items[i])))
      case VDict(es) => if |es| == 0 then Ok([]) else Err(AttributeError)
      case VStr(s) => if |s| == 0 then Ok([]) else Err(AttributeError)
      case _ => Err(TypeError("object is not iterable"))
  }

  /** Every attribute but the children, each with its default. */
  function NodeFrom(d: Dict<Value>, children: seq<Node>): (n: Node)
    ensures n.children == children
  {
    var name := GetOr(d, "name", VNone);
    Node(name, GetOr(d, "node", VNone), GetOr(d, "literal", name),
         GetOr(d, "type", VNodeType(Literal)), GetOr(d, "enumeration", VDict([])),
         GetOr(d, "args", VList([])), GetOr(d, "kwargs", VDict([])),
         GetOr(d, "runs", VNone), GetOr(d, "requires", VNone),
         GetOr(d, "redirects", VNone), GetOr(d, "suggests", VNone),
         GetOr(d, "on_error", VNone), GetOr(d, "on_child_error", VNone),
         children)
  }

  // ---------------------------------------------------------------------
  // to_mcdr_node
  // ---------------------------------------------------------------------

  /** How the MCDR node was instantiated. */
  datatype Base =
    | LiteralNode(literal: Value)
    | EnumNode(name: Value, members: Value)      // `Enumeration(name, Enum(name, enumeration))`
    | ArgNode(kind: NodeKind, name: Value)
    | CustomNode(cls: Value, name: Value, args: Value, kwargs: Value)

  /** The arguments of `on_error` / `on_child_error`. */
  datatype Handler = Handler(errorType: Value, handler: Value, handled: Value)

  /** The MCDR node: one handed over as it is, or one built here. */
  datatype McdrNode =
    | Given(node: Value)
    | Built(base: Base, runs: Value, requirements: seq<Value>, redirects: Value, suggests: Value,
            onError: Option<Handler>, onChildError: Option<Handler>, children: seq<McdrNode>)

  /** The defaults `on_error` falls back to: `CommandError` and a handler
      that does nothing. */
  const CommandErrorClass: Value := VClass(0)
  const NoopHandler: Value := VFunc(0)

  function Instantiate(n: Node): (r: Result<Base, NodeError>)
    ensures n.typ.VNodeType? ==> r.Ok?
    ensures r.Ok? && n.typ == VNodeType(Literal) ==> r.value == LiteralNode(n.literal)
  {
    match n.typ
    case VNodeType(Literal) => Ok(LiteralNode(n.literal))
    case VNodeType(Enumeration) => Ok(EnumNode(n.name, n.enumeration))
    case VNodeType(k) => Ok(ArgNode(k, n.name))
    case _ =>
      if Callable(n.typ) then Ok(CustomNode(n.typ, n.name, n.args, n.kwargs))
      else Err(TypeError("object is not callable"))
  }

  /** The `requires` attribute: a list of predicates, one predicate, or
      nothing; anything else is refused. */
  function RequiresOf(v: Value): (r: Result<seq<Value>, NodeError>)
    ensures r.Err? <==> !(v.VNone? || v.VList? || Callable(v))
    ensures v.VList? ==> r == Ok(v.items)
    ensures Callable(v) ==> r == Ok([v])
    ensures v.VNone? ==> r == Ok([])
  {
    if v.VNone? then Ok([])
    else if v.VList? then Ok(v.items)
    else if Callable(v) then Ok([v])
    else Err(TypeError("Error requires type"))
  }

  /** The `on_error` / `on_child_error` attribute: a dict whose missing
      entries take their defaults. */
  function HandlerOf(v: Value): (r: Result<Option<Handler>, NodeError>)
    ensures v.VNone? <==> r == Ok(None)
    ensures r.Err? <==> !(v.VNone? || v.VDict?)
    ensures v.VDict? ==> r == Ok(Some(Handler(GetOr(v.entries, "error_type", CommandErrorClass),
                                               GetOr(v.entries, "handler", NoopHandler),
                                               GetOr(v.entries, "handled", VBool(false)))))
  {
    match v
    case VNone => Ok(None)
    case VDict(d) =>
      Ok(Some(Handler(GetOr(d, "error_type", CommandErrorClass), GetOr(d, "handler", NoopHandler),
                      GetOr(d, "handled", VBool(false)))))
    case _ => Err(AttributeError)
  }

  /** `to_mcdr_node`: an explicit `node` is returned as it is, without
      looking at anything else; otherwise the node is built, configured in
      source order, and its children converted in order. */
  function ToMcdr(n: Node): (r: Result<McdrNode, NodeError>)
    ensures !n.node.VNone? ==> r == Ok(Given(n.node))
    ensures n.node.VNone? && r.Ok? ==>
              (r.value.Built? && |r.value.children| == |n.children| &&
               forall i :: 0 <= i < |n.children| ==> ToMcdr(n.children[i]) == Ok(r.value.children[i]))
    ensures n.node.VNone? && Instantiate(n).Ok? && RequiresOf(n.requirements).Err? ==> r == Err(RequiresOf(n.requirements).error)
    decreases n
  {
    if !n.node.VNone? then Ok(Given(n.node))
    else
      match Instantiate(n)
      case Err(e) => Err(e)
      case Ok(base) =>
        match RequiresOf(n.requirements)
        case Err(e) => Err(e)
        case Ok(reqs) =>
          match HandlerOf(n.onError)
          case Err(e) => Err(e)
          case Ok(onError) =>
            match HandlerOf(n.onChildError)
            case Err(e) => Err(e)
            case Ok(onChildError) =>
              match AllOk(seq(|n.children|, i requires 0 <= i < |n.children| => ToMcdr(n.children[i])))
              case Err(e) => Err(e)
              case Ok(kids) => Ok(Built(base, n.runs, reqs, n.redirects, n.suggests, onError, onChildError, kids))
  }

  // ---------------------------------------------------------------------
  // Properties
  // ---------------------------------------------------------------------

  /** A dict with only a name reads as a literal node of that name, with
      empty enumeration, args and kwargs and nothing else set. */
  lemma NameOnlyDefaults(name: string)
    ensures BuildNode(VDict([("name", VStr(name))])) ==
            Ok(Node(VStr(name), VNone, VStr(name), VNodeType(Literal), VDict([]), VList([]), VDict([]),
                    VNone, VNone, VNone, VNone, VNone, VNone, []))
  {
  }

  /** The defaults in general: `literal` falls back to the name, `type` to
      `NodeType.LITERAL`, enumeration and kwargs to `{}` and args to `[]`. */
  lemma BuildDefaults(d: Dict<Value>, kids: seq<Node>)
    ensures var n := NodeFrom(d, kids);
            n.name == GetOr(d, "name", VNone) &&
            (FindKey(d, "literal").None? ==> n.literal == n.name) &&
            (FindKey(d, "type").None? ==> n.typ == VNodeType(Literal)) &&
            (FindKey(d, "enumeration").None? ==> n.enumeration == VDict([])) &&
            (FindKey(d, "args").None? ==> n.args == VList([])) &&
            (FindKey(d, "kwargs").None? ==> n.kwargs == VDict([]))
  {
  }

  /** A child list yields one node per item, in order, and the first child
      that cannot be read makes the whole read fail. */
  lemma ChildrenInOrder(d: Dict<Value>)
    requires GetOr(d, "children", VNone).VList?
    ensures var items := GetOr(d, "children", VNone).items;
            (ReadChildren(d).Ok? <==> forall i :: 0 <= i < |items| ==> BuildNode(items[i]).Ok?) &&
            (ReadChildren(d).Ok? ==>
               |ReadChildren(d).value| == |items| &&
               forall i :: 0 <= i < |items| ==> BuildNode(items[i]) == Ok(ReadChildren(d).value[i]))
  {
    var k := FindKey(d, "children").value;
    assert GetOr(d, "children", VNone) == d[k].1;
    var items := d[k].1.items;
    var built := seq(|items|, i requires 0 <= i < |items| => BuildNode(items[i]));
    assert ReadChildren(d) == AllOk(built);
    ListedChildren(items, built, AllOk(built));
  }

  lemma ListedChildren(items: seq<Value>, built: seq<Result<Node, NodeError>>, r: Result<seq<Node>, NodeError>)
    requires |built| == |items| && forall i :: 0 <= i < |items| ==> built[i] == BuildNode(items[i])
    requires r == AllOk(built)
    ensures (r.Ok? <==> forall i :: 0 <= i < |items| ==> BuildNode(items[i]).Ok?) &&
            (r.Ok? ==> |r.value| == |items| && forall i :: 0 <= i < |items| ==> BuildNode(items[i]) == Ok(r.value[i]))
  {
  }

  /** The attribute names a node dict may hold, in the order `Node.__init__`
      reads them. */
  const NodeKeys: seq<string> := ["name", "node", "literal", "type", "enumeration", "args", "kwargs",
                                  "runs", "requires", "redirects", "suggests", "on_error",
                                  "on_child_error", "children"]

  lemma NodeKeysDistinct()
    ensures forall i, j :: 0 <= i < j < |NodeKeys| ==> NodeKeys[i] != NodeKeys[j]
  {
    forall i, j | 0 <= i < j < |NodeKeys|
      ensures NodeKeys[i] != NodeKeys[j]
    {
      assert |NodeKeys[i]| != |NodeKeys[j]| || NodeKeys[i][0] != NodeKeys[j][0] || NodeKeys[i][1] != NodeKeys[j][1];
    }
  }

  /** A key that occurs once is found where it is. */
  lemma FindAt(d: Dict<Value>, i: nat)
    requires i < |d|
    requires forall j :: 0 <= j < |d| && j != i ==> d[j].0 != d[i].0
    ensures FindKey(d, d[i].0) == Some(i)
  {
  }

  /** Writing a node back as a dict, with every attribute under its name;
      `BuildNode` reads it back unchanged. */
  function DumpNode(n: Node): (r: Value)
    ensures r.VDict? && |r.entries| == |NodeKeys|
    ensures forall k :: 0 <= k < |NodeKeys| ==> r.entries[k].0 == NodeKeys[k]
    decreases n
  {
    VDict([("name", n.name), ("node", n.node), ("literal", n.literal), ("type", n.typ),
           ("enumeration", n.enumeration), ("args", n.args), ("kwargs", n.kwargs),
           ("runs", n.runs), ("requires", n.requirements), ("redirects", n.redirects),
           ("suggests", n.suggests), ("on_error", n.onError), ("on_child_error", n.onChildError),
           ("children", VList(seq(|n.children|, i requires 0 <= i < |n.children| => DumpNode(n.children[i]))))])
  }

  /** Every node in the tree has a name. */
  predicate Named(n: Node)
    decreases n
  {
    !n.name.VNone? && forall i :: 0 <= i < |n.children| ==> Named(n.children[i])
  }

  /** Reading a dumped node gives the node back. */
  lemma {:induction false} DumpRoundTrip(n: Node)
    requires Named(n)
    ensures BuildNode(DumpNode(n)) == Ok(n)
    decreases n
  {
    forall i | 0 <= i < |n.children|
      ensures BuildNode(DumpNode(n.children[i])) == Ok(n.children[i])
    {
      DumpRoundTrip(n.children[i]);
    }
    var d := DumpNode(n).entries;
    DumpKeys(n);
    assert GetOr(d, "name", VNone) == n.name;
    ChildrenReadBack(n);
    DumpFields(n);
  }

  /** Once each child reads back, the children of a dumped node do. */
  lemma ChildrenReadBack(n: Node)
    requires forall i :: 0 <= i < |n.children| ==> BuildNode(DumpNode(n.children[i])) == Ok(n.children[i])
    ensures ReadChildren(DumpNode(n).entries) == Ok(n.children)
  {
    var d := DumpNode(n).entries;
    var items := ChildrenEntry(n);
    var built := seq(|items|, i requires 0 <= i < |items| => BuildNode(items[i]));
    ReadListed(d, 13, items);
    var r := AllOk(built);
    ListedChildren(items, built, r);
    assert r.value == n.children;
  }

  /** A dumped node lists its dumped children under `children`. */
  lemma ChildrenEntry(n: Node) returns (items: seq<Value>)
    ensures var d := DumpNode(n).entries;
            FindKey(d, "children") == Some(13) && 13 < |d| && d[13].1 == VList(items)
    ensures |items| == |n.children| && forall i :: 0 <= i < |items| ==> items[i] == DumpNode(n.children[i])
  {
    DumpKeys(n);
    items := DumpNode(n).entries[13].1.items;
  }

  /** The children of a dict whose `children` entry is a list are that
      list's items, built one by one. */
  lemma {:induction false} ReadListed(d: Dict<Value>, k: nat, items: seq<Value>)
    requires FindKey(d, "children") == Some(k) && k < |d| && d[k].1 == VList(items)
    ensures ReadChildren(d) == AllOk(seq(|items|, i requires 0 <= i < |items| => BuildNode(items[i])))
  {
  }

  /** Every attribute of a dumped node is found at its own place. */
  lemma DumpKeys(n: Node)
    ensures forall k :: 0 <= k < |NodeKeys| ==> FindKey(DumpNode(n).entries, NodeKeys[k]) == Some(k)
  {
    var d := DumpNode(n).entries;
    NodeKeysDistinct();
    forall k | 0 <= k < |NodeKeys|
      ensures FindKey(d, NodeKeys[k]) == Some(k)
    {
      FindAt(d, k);
    }
  }

  /** Reading the attributes of a dumped node gives the node's own. */
  lemma DumpFields(n: Node)
    ensures NodeFrom(DumpNode(n).entries, n.children) == n
  {
    DumpKeys(n);
    var d := DumpNode(n).entries;
    assert GetOr(d, NodeKeys[0], VNone) == n.name;
    assert GetOr(d, NodeKeys[1], VNone) == n.node;
    assert GetOr(d, NodeKeys[2], n.name) == n.literal;
    assert GetOr(d, NodeKeys[3], VNodeType(Literal)) == n.typ;
    assert GetOr(d, NodeKeys[4], VDict([])) == n.enumeration;
    assert GetOr(d, NodeKeys[5], VList([])) == n.args;
    assert GetOr(d, NodeKeys[6], VDict([])) == n.kwargs;
    assert GetOr(d, NodeKeys[7], VNone) == n.runs;
    assert GetOr(d, NodeKeys[8], VNone) == n.requirements;
    assert GetOr(d, NodeKeys[9], VNone) == n.redirects;
    assert GetOr(d, NodeKeys[10], VNone) == n.suggests;
    assert GetOr(d, NodeKeys[11], VNone) == n.onError;
    assert GetOr(d, NodeKeys[12], VNone) == n.onChildError;
  }

  /** An explicit `node` wins: the result ignores `requires`, the handlers
      and the children, so a bad `requires` goes unnoticed. */
  lemma GivenNodeIgnoresRest(n: Node)
    requires n.node == VNode(7) && n.requirements == VInt(1)
    ensures ToMcdr(n) == Ok(Given(VNode(7)))
    ensures ToMcdr(n.(node := VNone, typ := VNodeType(Literal))) == Err(TypeError("Error requires type"))
  {
  }
}
