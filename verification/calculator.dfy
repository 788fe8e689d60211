/** The in-game calculator (advanced_calculator/advanced_calculator/__init__.py
    and its predecessor AdvancedCalculator/AdvancedCalculator.py): the
    character screen put in front of `eval`, item counts split into boxes,
    stacks and single items and back, and RGB colours to and from hex.
    Python's `eval` itself is a parameter: only what the plugin does around
    it is modelled. */
module Calculator {
  import opened Basics

  // ---------------------------------------------------------------------
  // The expression screen
  // ---------------------------------------------------------------------

  /** The characters an expression may use. */
  predicate Allowed(c: char)
  {
    IsDigit(c) || c in {' ', '.', '+', '-', '*', '/', '(', ')', '<', '>', '='}
  }

  /** The index of the first character outside the whitelist, if any. */
  function FirstIllegal(s: string): (r: Option<nat>)
    ensures r.None? <==> forall i :: 0 <= i < |s| ==> Allowed(s[i])
    ensures r.Some? ==> r.value < |s| && !Allowed(s[r.value]) && forall i :: 0 <= i < r.value ==> Allowed(s[i])
  {
    if |s| == 0 then None
    else if !Allowed(s[0]) then Some(0)
    else match FirstIllegal(s[1..])
      case None => None
      case Some(i) => Some(i + 1)
  }

  /** The screen of `security_eval`: `None` lets the expression through,
      otherwise the offending text — `**` before any single character. */
  function Screen(expression: string): (r: Option<string>)
    ensures r.None? <==> !Contains(expression, "**") && forall i :: 0 <= i < |expression| ==> Allowed(expression[i])
    ensures Contains(expression, "**") ==> r == Some("**")
    ensures r.Some? && r.value != "**" ==>
      exists i :: 0 <= i < |expression| && r.value == [expression[i]] && !Allowed(expression[i])
  {
    if Contains(expression, "**") then Some("**")
    else match FirstIllegal(expression)
      case None => None
      case Some(i) => Some([expression[i]])
  }

  /** What Python's `eval` gives back: an integer, or one of the
      exceptions the plugin names, or another one it does not catch. */
  datatype Evaluated = Value(n: int) | Raised(error: EvalError)

  datatype EvalError = NameError | SyntaxError | ZeroDivisionError | Uncaught(name: string)

  predicate Caught(e: EvalError)
  {
    !e.Uncaught?
  }

  function ErrorName(e: EvalError): string
  {
    match e
    case NameError => "NameError"
    case SyntaxError => "SyntaxError"
    case ZeroDivisionError => "ZeroDivisionError"
    case Uncaught(name) => name
  }

  /** `security_eval`: the screen first, `eval` only on what it lets
      through. A refused expression raises `IllegalCharacterException`. */
  function SecurityEval(eval: string -> Evaluated, expression: string): (r: Result<int, string>)
    ensures Screen(expression).Some? ==> r == Err("IllegalCharacterException")
    ensures Screen(expression).None? && eval(expression).Value? ==> r == Ok(eval(expression).n)
    ensures Screen(expression).None? && eval(expression).Raised? ==> r == Err(ErrorName(eval(expression).error))
  {
    if Screen(expression).Some? then Err("IllegalCharacterException")
    else match eval(expression)
      case Value(n) => Ok(n)
      case Raised(e) => Err(ErrorName(e))
  }

  /** An expression the screen refuses never reaches `eval`. */
  lemma ScreenedNeverEvaluated(e1: string -> Evaluated, e2: string -> Evaluated, expression: string)
    requires Screen(expression).Some?
    ensures SecurityEval(e1, expression) == SecurityEval(e2, expression)
  {
  }

  /** `2**100000` is refused, whatever `eval` would make of it. */
  lemma PowerRefused(eval: string -> Evaluated)
    ensures SecurityEval(eval, "2**9") == Err("IllegalCharacterException")
  {
    assert "2**9"[1..3] == "**";
  }

  // ---------------------------------------------------------------------
  // Items
  // ---------------------------------------------------------------------

  const StackSize := 64
  const BoxSize := 64 * 27

  /** A count as shulker boxes, stacks and single items. */
  datatype Stack = Stack(box: int, stack: int, single: int)

  /** `calc_item` with one argument. Python's `//` and `%` round towards
      minus infinity; with a positive divisor that is Dafny's `/` and `%`. */
  function Decompose(count: int): (s: Stack)
    ensures 0 <= s.stack < 27 && 0 <= s.single < 64
    ensures count >= 0 <==> s.box >= 0
    ensures Compose(s) == count
  {
    var box := count / BoxSize;
    var rest := count - box * BoxSize;
    assert 0 <= rest < BoxSize;
    assert count % StackSize == rest % StackSize by {
      assert count == rest + (box * 27) * StackSize;
    }
    Stack(box, rest / StackSize, count % StackSize)
  }

  /** `calc_item` with three arguments. */
  function Compose(s: Stack): int
  {
    s.box * BoxSize + s.stack * StackSize + s.single
  }

  /** A split with stacks and singles in range is the one `Decompose` gives. */
  lemma DecomposeCompose(s: Stack)
    requires 0 <= s.stack < 27 && 0 <= s.single < 64
    ensures Decompose(Compose(s)) == s
  {
    var c := Compose(s);
    var d := Decompose(c);
    assert Compose(d) == c;
    assert d.box == s.box by {
      assert 0 <= s.stack * StackSize + s.single < BoxSize;
      assert c == s.box * BoxSize + (s.stack * StackSize + s.single);
    }
    assert d.single == s.single by {
      assert c == (s.box * 27 + s.stack) * StackSize + s.single;
    }
  }

  /** What the calculator says. */
  datatype Msg =
    | ExpressionValue(expression: string, value: int)
    | ExpressionError(expression: string, error: string)
    | ItemSplit(count: int, split: Stack)
    | ItemJoin(split: Stack, count: int)
    | InvalidInteger
    | HexToRgbResult(hex: string, red: int, green: int, blue: int)
    | RgbToHexResult(red: int, green: int, blue: int, hex: string)
    | ColorError(error: string)

  /** `!!calc <expression>`: the value, or the caught error by name; an
      exception the plugin does not name escapes the handler. */
  function CalcExpression(eval: string -> Evaluated, expression: string): (r: Result<Msg, string>)
    ensures r.Err? <==> Screen(expression).None? && eval(expression).Raised? && !Caught(eval(expression).error)
    ensures r.Ok? && r.value.ExpressionValue? ==> Screen(expression).None? && eval(expression) == Value(r.value.value)
  {
    if Screen(expression).None? && eval(expression).Raised? && !Caught(eval(expression).error) then
      Err(ErrorName(eval(expression).error))
    else match SecurityEval(eval, expression)
      case Ok(v) => Ok(ExpressionValue(expression, v))
      case Err(e) => Ok(ExpressionError(expression, e))
  }

  /** `!!calc item <count/expression>`: the count is itself screened and
      evaluated before it is split. */
  function CalcItemCount(eval: string -> Evaluated, expression: string): (r: Result<Msg, string>)
    ensures r.Err? <==> Screen(expression).None? && eval(expression).Raised? && !Caught(eval(expression).error)
    ensures r.Ok? && r.value.ItemSplit? ==>
      eval(expression) == Value(r.value.count) && Compose(r.value.split) == r.value.count
  {
    if Screen(expression).None? && eval(expression).Raised? && !Caught(eval(expression).error) then
      Err(ErrorName(eval(expression).error))
    else match SecurityEval(eval, expression)
      case Ok(count) => Ok(ItemSplit(count, Decompose(count)))
      case Err(e) => Ok(ExpressionError(expression, e))
  }

  /** `!!calc item <box> <stack> <single>`: the box count is text and must
      read as an integer. */
  function CalcItemStacks(box: string, stack: int, single: int): (r: Msg)
    ensures ParseInt(box).None? <==> r == InvalidInteger
    ensures ParseInt(box).Some? ==>
      r == ItemJoin(Stack(ParseInt(box).value, stack, single), Compose(Stack(ParseInt(box).value, stack, single)))
  {
    match ParseInt(box)
    case None => InvalidInteger
    case Some(b) => ItemJoin(Stack(b, stack, single), Compose(Stack(b, stack, single)))
  }

  /** The older `calc_item`, whose count is already an integer argument. */
  function LegacyCalcItem(count: int): (r: Msg)
    ensures r.ItemSplit? && r.count == count
    ensures 0 <= r.split.stack < 27 && 0 <= r.split.single < 64 && Compose(r.split) == count
  {
    ItemSplit(count, Decompose(count))
  }

  /** The older three-argument `calc_item`: splitting back the count it
      reports gives the same boxes, stacks and items whenever those are in
      range. */
  function LegacyCalcStacks(s: Stack): (r: Msg)
    ensures r.ItemJoin? && r.split == s
    ensures 0 <= s.stack < 27 && 0 <= s.single < 64 ==> Decompose(r.count) == s
  {
    if 0 <= s.stack < 27 && 0 <= s.single < 64 then
      DecomposeCompose(s);
      ItemJoin(s, Compose(s))
    else ItemJoin(s, Compose(s))
  }

  /** How a chat line is routed: `==` is an item count, a single `=` an
      expression. */
  datatype Route = ToItem(argument: string) | ToExpression(argument: string) | Ignored

  function RouteChat(content: string): (r: Route)
    ensures StartsWith(content, "==") <==> r.ToItem?
    ensures r.ToItem? ==> content == "==" + r.argument
    ensures r.ToExpression? ==> content == "=" + r.argument && !StartsWith(r.argument, "=")
    ensures r.Ignored? <==> !StartsWith(content, "=")
  {
    if StartsWith(content, "==") then ToItem(content[2..])
    else if StartsWith(content, "=") then
      assert content == "=" + content[1..];
      ToExpression(content[1..])
    else Ignored
  }

  // ---------------------------------------------------------------------
  // Colours
  // ---------------------------------------------------------------------

  /** An upper-case hex digit. */
  function HexDigit(n: int): (c: char)
    requires 0 <= n < 16
    ensures IsUpperHex(c)
    ensures HexValue(c) == n
  {
    if n < 10 then ('0' as int + n) as char else ('A' as int + n - 10) as char
  }

  predicate IsUpperHex(c: char)
  {
    IsDigit(c) || 'A' <= c <= 'F'
  }

  predicate IsHexChar(c: char)
  {
    IsDigit(c) || 'A' <= c <= 'F' || 'a' <= c <= 'f'
  }

  function HexValue(c: char): (n: nat)
    requires IsHexChar(c)
    ensures n < 16
  {
    if IsDigit(c) then c as int - '0' as int
    else if 'A' <= c <= 'F' then c as int - 'A' as int + 10
    else c as int - 'a' as int + 10
  }

  /** `int(s, 16)` on a non-empty run of hex digits. */
  function HexNumber(s: string): (r: Option<nat>)
    ensures r.Some? <==> |s| > 0 && forall i :: 0 <= i < |s| ==> IsHexChar(s[i])
    decreases |s|
  {
    if |s| == 0 || !IsHexChar(s[|s| - 1]) then None
    else if |s| == 1 then Some(HexValue(s[0]))
    else match HexNumber(s[..|s| - 1])
      case None => None
      case Some(high) => Some(16 * high + HexValue(s[|s| - 1]))
  }

  /** `hex(n)[-2:].replace('x', '0').zfill(2).upper()` for `0 <= n <= 255`. */
  function Hex2(n: int): (s: string)
    requires 0 <= n < 256
    ensures |s| == 2 && IsUpperHex(s[0]) && IsUpperHex(s[1])
    ensures HexNumber(s) == Some(n)
  {
    var s := [HexDigit(n / 16), HexDigit(n % 16)];
    assert s[..1] == [HexDigit(n / 16)];
    s
  }

  predicate InByte(n: int)
  {
    0 <= n <= 255
  }

  /** `rgb_to_hex`: six upper-case hex digits, or `ValueError` when a
      component is outside 0..255. */
  function RgbToHex(red: int, green: int, blue: int): (r: Result<string, string>)
    ensures r.Ok? <==> InByte(red) && InByte(green) && InByte(blue)
    ensures r.Err? ==> r.error == "ValueError"
    ensures r.Ok? ==> |r.value| == 6 && forall i :: 0 <= i < 6 ==> IsUpperHex(r.value[i])
  {
    if InByte(red) && InByte(green) && InByte(blue) then Ok(Hex2(red) + Hex2(green) + Hex2(blue))
    else Err("ValueError")
  }

  /** Python's `s[i:j]` for `0 <= i <= j`: ends past the text are cut. */
  function Slice(s: string, i: nat, j: nat): (r: string)
    requires i <= j
    ensures |r| <= j - i
  {
    if i >= |s| then "" else if j >= |s| then s[i..] else s[i..j]
  }

  /** One `int(part, 16)` of `hex_to_rgb`, range-checked. */
  function Component(part: string): (r: Result<int, string>)
    ensures r.Ok? ==> InByte(r.value) && HexNumber(part) == Some(r.value)
    ensures r.Err? ==> r.error == "ValueError"
  {
    match HexNumber(part)
    case None => Err("ValueError")
    case Some(n) => if n <= 255 then Ok(n) else Err("ValueError")
  }

  /** `hex_to_rgb` on `#RRGGBB`: the first character is skipped unchecked,
      and the blue part is everything after the fifth. */
  function HexToRgb(text: string): (r: Result<(int, int, int), string>)
    ensures r.Ok? ==> InByte(r.value.0) && InByte(r.value.1) && InByte(r.value.2)
    ensures r.Err? ==> r.error == "ValueError"
  {
    var h := Upper(text);
    match (Component(Slice(h, 1, 3)), Component(Slice(h, 3, 5)), Component(Slice(h, 5, if |h| > 5 then |h| else 5)))
    case (Ok(red), Ok(green), Ok(blue)) => Ok((red, green, blue))
    case _ => Err("ValueError")
  }

  lemma UpperHex(s: string)
    requires forall i :: 0 <= i < |s| ==> IsUpperHex(s[i])
    ensures Upper(s) == s
  {
  }

  /** `hex_to_rgb` reads back what `rgb_to_hex` writes. */
  lemma HexRoundTrip(red: int, green: int, blue: int)
    requires InByte(red) && InByte(green) && InByte(blue)
    ensures HexToRgb("#" + RgbToHex(red, green, blue).value) == Ok((red, green, blue))
  {
    var t := "#" + RgbToHex(red, green, blue).value;
    var h := Upper(t);
    assert h[1..] == Upper(RgbToHex(red, green, blue).value);
    UpperHex(RgbToHex(red, green, blue).value);
    assert h[1..] == Hex2(red) + Hex2(green) + Hex2(blue);
    assert Slice(h, 1, 3) == Hex2(red);
    assert Slice(h, 3, 5) == Hex2(green);
    assert Slice(h, 5, |h|) == Hex2(blue);
  }

  /** `!!calc color <#HEX>` and `!!calc color <red> <green> <blue>`: a
      failure anywhere is reported by the exception's name. */
  function CalcColor(first: string, rest: Option<(int, int)>): (r: Msg)
    ensures rest.None? ==> (r.HexToRgbResult? <==> HexToRgb(first).Ok?)
    ensures rest.None? && r.HexToRgbResult? ==>
      r.hex == Upper(first) && (r.red, r.green, r.blue) == HexToRgb(first).value
    ensures rest.Some? ==> (r.RgbToHexResult? <==> ParseInt(first).Some? && RgbToHex(ParseInt(first).value, rest.value.0, rest.value.1).Ok?)
    ensures r.RgbToHexResult? ==> RgbToHex(r.red, r.green, r.blue) == Ok(r.hex)
    ensures !r.HexToRgbResult? && !r.RgbToHexResult? ==> r == ColorError("ValueError")
  {
    match rest
    case None =>
      (match HexToRgb(first)
       case Ok(c) => HexToRgbResult(Upper(first), c.0, c.1, c.2)
       case Err(e) => ColorError(e))
    case Some(gb) =>
      match ParseInt(first)
      case None => ColorError("ValueError")
      case Some(red) =>
        match RgbToHex(red, gb.0, gb.1)
        case Ok(h) => RgbToHexResult(red, gb.0, gb.1, h)
        case Err(e) => ColorError(e)
  }

  /** A colour written out and read back through both commands is the
      colour itself. */
  lemma CalcColorRoundTrip(red: int, green: int, blue: int)
    requires InByte(red) && InByte(green) && InByte(blue)
    ensures var hex := CalcColor(Str(red), Some((green, blue)));
      (hex.RgbToHexResult? && CalcColor("#" + hex.hex, None) == HexToRgbResult("#" + hex.hex, red, green, blue))
  {
    ParseIntStr(red);
    var h := RgbToHex(red, green, blue).value;
    HexRoundTrip(red, green, blue);
    UpperHex(h);
    assert Upper("#" + h) == "#" + h by {
      assert Upper("#" + h)[1..] == Upper(h);
    }
  }
}
