/** The extra argument nodes of more_command_nodes
    (src/more_command_nodes/more_command_nodes/__init__.py): a run of
    space-separated floats (`FloatsArgument`, with `Position` reading three
    and `Facing` two) and an enumeration matched on its members' values
    (`EnumeratedText`). Python's `float()` is a parameter, since which
    strings it accepts is not part of this model. */
module CommandNodes {
  import opened Basics

  datatype FloatError = IllegalFloat(text: string) | IncompleteFloat(text: string)

  /** MCDR's `ParseResult`: the value and how many characters were read. */
  datatype Parsed<T> = Parsed(value: T, charRead: int)

  /** The non-empty pieces, in order. */
  function Tokens(ps: seq<string>): (ts: seq<string>)
    ensures |ts| <= |ps|
    ensures forall i :: 0 <= i < |ts| ==> ts[i] != ""
  {
    if |ps| == 0 then []
    else if ps[0] == "" then Tokens(ps[1..])
    else [ps[0]] + Tokens(ps[1..])
  }

  /** How the scan over the pieces of `text.split(' ')` ends: the tokens it
      collected, how many pieces it looked at, and the characters those
      pieces cover, each counted with the space after it. `need` is how
      many tokens are still wanted; 0 means the scan never stops early,
      which is what a node built with `number == 0` does. */
  datatype Scan = Scan(tokens: seq<string>, pieces: nat, width: nat)

  function ScanPieces(ps: seq<string>, need: nat): (r: Scan)
    ensures r.pieces <= |ps|
    ensures |ps| > 0 ==> r.pieces > 0
  {
    if |ps| == 0 then Scan([], 0, 0)
    else if ps[0] == "" then
      var r := ScanPieces(ps[1..], need);
      Scan(r.tokens, r.pieces + 1, r.width + 1)
    else if need == 1 then Scan([ps[0]], 1, |ps[0]| + 1)
    else
      var r := ScanPieces(ps[1..], if need == 0 then 0 else need - 1);
      Scan([ps[0]] + r.tokens, r.pieces + 1, r.width + |ps[0]| + 1)
  }

  /** `FloatsArgument.parse` read as a reference: scan, then refuse too few
      tokens before trying to convert any of them. */
  function ParseFloatsSpec(text: string, number: nat, toFloat: string -> Option<real>): Result<Parsed<seq<real>>, FloatError>
  {
    var s := ScanPieces(Split(text, ' '), number);
    if |s.tokens| < number then Err(IncompleteFloat(text))
    else if exists i :: 0 <= i < |s.tokens| && toFloat(s.tokens[i]).None? then Err(IllegalFloat(text))
    else Ok(Parsed(seq(|s.tokens|, i requires 0 <= i < |s.tokens| => toFloat(s.tokens[i]).value), s.width - 1))
  }

  /** One piece of the scan: an empty piece adds its separator, a token is
      kept, and the scan ends at the token that completes `need`. */
  lemma ScanUnfold(ps: seq<string>, i: nat, need: nat)
    requires i < |ps|
    ensures ps[i] == "" ==> ScanPieces(ps[i..], need).tokens == ScanPieces(ps[i + 1..], need).tokens &&
                            ScanPieces(ps[i..], need).width == ScanPieces(ps[i + 1..], need).width + 1
    ensures ps[i] != "" && need == 1 ==> ScanPieces(ps[i..], need) == Scan([ps[i]], 1, |ps[i]| + 1)
    ensures ps[i] != "" && need != 1 ==>
              var need' := if need == 0 then 0 else need - 1;
              ScanPieces(ps[i..], need).tokens == [ps[i]] + ScanPieces(ps[i + 1..], need').tokens &&
              ScanPieces(ps[i..], need).width == ScanPieces(ps[i + 1..], need').width + |ps[i]| + 1
  {
    assert ps[i..][1..] == ps[i + 1..];
  }

  /** The loop of `FloatsArgument.parse`: it collects tokens and counts
      characters, starting from -1, until `number` tokens are in hand. */
  method ScanText(split: seq<string>, number: nat) returns (args: seq<string>, charRead: int)
    ensures args == ScanPieces(split, number).tokens
    ensures charRead == ScanPieces(split, number).width - 1
  {
    charRead := -1;
    args := [];
    var i := 0;
    while i < |split|
      invariant 0 <= i <= |split|
      invariant number == 0 || |args| < number
      invariant ScanPieces(split, number).tokens == args + ScanPieces(split[i..], if number == 0 then 0 else number - |args|).tokens
      invariant ScanPieces(split, number).width == charRead + 1 + ScanPieces(split[i..], if number == 0 then 0 else number - |args|).width
    {
      ghost var need: nat := if number == 0 then 0 else number - |args|;
      ghost var here := ScanPieces(split[i..], need);
      ScanUnfold(split, i, need);
      if split[i] == "" {
        charRead := charRead + 1;
        ghost var next := ScanPieces(split[i + 1..], need);
        assert here.tokens == next.tokens && here.width == next.width + 1;
      } else {
        ghost var args0 := args;
        args := args + [split[i]];
        charRead := charRead + |split[i]| + 1;
        if |args| == number {
          assert need == 1 && here == Scan([split[i]], 1, |split[i]| + 1);
          return;
        }
        ghost var need' := if number == 0 then 0 else number - |args|;
        assert need != 1 && need' == (if need == 0 then 0 else need - 1);
        ghost var next := ScanPieces(split[i + 1..], need');
        assert here.tokens == [split[i]] + next.tokens;
        AppendOne(args0, split[i], next.tokens);
      }
      i := i + 1;
    }
    assert split[i..] == [];
  }

  /** `float()` applied to every token, stopping at the first failure. */
  method ToFloats(args: seq<string>, toFloat: string -> Option<real>) returns (r: Option<seq<real>>)
    ensures r.None? <==> exists i :: 0 <= i < |args| && toFloat(args[i]).None?
    ensures r.Some? ==> |r.value| == |args| && forall k :: 0 <= k < |args| ==> r.value[k] == toFloat(args[k]).value
  {
    var coords: seq<real> := [];
    var j := 0;
    while j < |args|
      invariant 0 <= j <= |args|
      invariant |coords| == j
      invariant forall k :: 0 <= k < j ==> toFloat(args[k]).Some? && coords[k] == toFloat(args[k]).value
    {
      var f := toFloat(args[j]);
      if f.None? {
        return None;
      }
      coords := coords + [f.value];
      j := j + 1;
    }
    return Some(coords);
  }

  /** `FloatsArgument.parse` as written: one pass over the pieces that
      breaks as soon as `number` tokens are collected, then the count check,
      then the conversions. */
  method ParseFloats(text: string, number: nat, toFloat: string -> Option<real>) returns (r: Result<Parsed<seq<real>>, FloatError>)
    ensures r == ParseFloatsSpec(text, number, toFloat)
  {
    var args, charRead := ScanText(Split(text, ' '), number);
    if |args| < number {
      return Err(IncompleteFloat(text));
    }
    var coords := ToFloats(args, toFloat);
    if coords.None? {
      return Err(IllegalFloat(text));
    }
    ghost var sp := ScanPieces(Split(text, ' '), number);
    assert !exists i :: 0 <= i < |sp.tokens| && toFloat(sp.tokens[i]).None?;
    assert coords.value == seq(|sp.tokens|, i requires 0 <= i < |sp.tokens| => toFloat(sp.tokens[i]).value);
    assert charRead == sp.width - 1;
    return Ok(Parsed(coords.value, charRead));
  }

  /** A `Position` argument. */
  method ParsePosition(text: string, toFloat: string -> Option<real>) returns (r: Result<Parsed<seq<real>>, FloatError>)
    ensures r.Ok? ==> |r.value.value| == 3
    ensures r.Err? && r.error.IncompleteFloat? <==> |Tokens(Split(text, ' '))| < 3
  {
    r := ParseFloats(text, 3, toFloat);
    ScanTokens(Split(text, ' '), 3);
  }

  /** A `Facing` argument. */
  method ParseFacing(text: string, toFloat: string -> Option<real>) returns (r: Result<Parsed<seq<real>>, FloatError>)
    ensures r.Ok? ==> |r.value.value| == 2
    ensures r.Err? && r.error.IncompleteFloat? <==> |Tokens(Split(text, ' '))| < 2
  {
    r := ParseFloats(text, 2, toFloat);
    ScanTokens(Split(text, ' '), 2);
  }

  // ---------------------------------------------------------------------
  // What the scan reads
  // ---------------------------------------------------------------------

  /** The scan collects the first `need` tokens of the pieces (all of them
      when `need` is 0 or there are fewer). */
  lemma {:induction false} ScanTokens(ps: seq<string>, need: nat)
    ensures need == 0 || |Tokens(ps)| < need ==> ScanPieces(ps, need).tokens == Tokens(ps)
    ensures need > 0 && |Tokens(ps)| >= need ==> ScanPieces(ps, need).tokens == Tokens(ps)[..need]
    decreases |ps|
  {
    if |ps| > 0 {
      var need' := if ps[0] == "" || need == 0 then need else need - 1;
      ScanTokens(ps[1..], need');
    }
  }

  /** The characters the scan covers are exactly the pieces it looked at,
      rejoined with their spaces: a prefix of the text. */
  lemma {:induction false} ScanWidth(ps: seq<string>, need: nat)
    requires |ps| > 0
    ensures ScanPieces(ps, need).width == |Join(ps[..ScanPieces(ps, need).pieces], ' ')| + 1
    decreases |ps|
  {
    var r := ScanPieces(ps, need);
    if ps[0] == "" || need != 1 {
      var need' := if ps[0] == "" || need == 0 then need else need - 1;
      if |ps| > 1 {
        ScanWidth(ps[1..], need');
        var r' := ScanPieces(ps[1..], need');
        assert ps[..r.pieces][1..] == ps[1..][..r'.pieces];
      }
    }
  }

  /** Joining a prefix of the pieces gives a prefix of the whole, followed by
      a separator unless nothing is left. */
  lemma {:induction false} JoinTake(ps: seq<string>, k: nat, sep: char)
    requires 1 <= k <= |ps|
    ensures k == |ps| ==> Join(ps[..k], sep) == Join(ps, sep)
    ensures k < |ps| ==> Join(ps, sep) == Join(ps[..k], sep) + [sep] + Join(ps[k..], sep)
    decreases k
  {
    assert ps[..|ps|] == ps;
    if k > 1 {
      JoinTake(ps[1..], k - 1, sep);
      assert ps[1..][..k - 1] == ps[..k][1..];
      assert ps[1..][k - 1..] == ps[k..];
    }
  }

  /** On success the number of characters read is the length of the part of
      the text the floats came from, which ends at the text's end or at a
      space; the floats are those of its first `number` tokens. */
  lemma FloatsRead(text: string, number: nat, toFloat: string -> Option<real>)
    requires number > 0
    requires ParseFloatsSpec(text, number, toFloat).Ok?
    ensures var p := ParseFloatsSpec(text, number, toFloat).value;
            var ts := Tokens(Split(text, ' '));
            0 <= p.charRead <= |text| && number <= |ts| &&
            (p.charRead == |text| || text[p.charRead] == ' ') &&
            Tokens(Split(text[..p.charRead], ' ')) == ts[..number] &&
            |p.value| == number &&
            forall i :: 0 <= i < number ==> toFloat(ts[i]) == Some(p.value[i])
  {
    var ps := Split(text, ' ');
    var s := ScanPieces(ps, number);
    ScanTokens(ps, number);
    ScanWidth(ps, number);
    JoinSplit(text, ' ');
    JoinTake(ps, s.pieces, ' ');
    var head := Join(ps[..s.pieces], ' ');
    assert text[..s.width - 1] == head;
    SplitJoin(ps[..s.pieces], ' ');
    TokensTake(ps, s.pieces, number);
  }

  /** Splitting a join of separator-free pieces gives the pieces back. */
  lemma {:induction false} SplitJoin(ps: seq<string>, sep: char)
    requires |ps| > 0
    requires forall i :: 0 <= i < |ps| ==> sep !in ps[i]
    ensures Split(Join(ps, sep), sep) == ps
    decreases |ps|
  {
    if |ps| == 1 {
      SplitNoSep(ps[0], "", sep);
      assert ps[0] + "" == ps[0];
    } else {
      SplitJoin(ps[1..], sep);
      var rest := [sep] + Join(ps[1..], sep);
      SplitNoSep(ps[0], rest, sep);
      assert rest[1..] == Join(ps[1..], sep);
      assert ps[0] + [sep] + Join(ps[1..], sep) == ps[0] + rest;
      assert ps == [ps[0]] + ps[1..];
    }
  }

  /** The tokens of the pieces the scan looked at are the ones it kept. */
  lemma {:induction false} TokensTake(ps: seq<string>, k: nat, need: nat)
    requires need > 0 && |Tokens(ps)| >= need
    requires k == ScanPieces(ps, need).pieces
    ensures Tokens(ps[..k]) == Tokens(ps)[..need]
    decreases |ps|
  {
    if ps[0] == "" {
      var k' := ScanPieces(ps[1..], need).pieces;
      assert ps[..k][1..] == ps[1..][..k'];
      TokensTake(ps[1..], k', need);
    } else if need == 1 {
      assert ps[..k] == [ps[0]];
      assert Tokens(ps[..k]) == [ps[0]] + Tokens([]);
    } else {
      var k' := ScanPieces(ps[1..], need - 1).pieces;
      assert ps[..k][1..] == ps[1..][..k'];
      TokensTake(ps[1..], k', need - 1);
    }
  }

  /** Too few tokens is reported as incomplete even when some of them are
      not numbers: the count is checked before any conversion. */
  lemma IncompleteBeforeIllegal(text: string, number: nat, toFloat: string -> Option<real>)
    ensures ParseFloatsSpec(text, number, toFloat) == Err(IncompleteFloat(text))
            <==> |Tokens(Split(text, ' '))| < number
  {
    ScanTokens(Split(text, ' '), number);
  }

  // ---------------------------------------------------------------------
  // EnumeratedText
  // ---------------------------------------------------------------------

  /** An `Enum` class with string values: its members' names and values in
      definition order. A later member with an earlier member's value is an
      alias of it. */
  datatype EnumClass = EnumClass(members: seq<(string, string)>)

  datatype EnumError = InvalidEnumeration(arg: string)

  /** MCDR's `command_builder_utils.get_element`: the text up to the first
      space. */
  function Element(text: string): (r: string)
    ensures |r| <= |text| && r == text[..|r|]
    ensures ' ' !in r
    ensures |r| < |text| ==> text[|r|] == ' '
  {
    if |text| == 0 || text[0] == ' ' then "" else [text[0]] + Element(text[1..])
  }

  /** `enum_class(value)`: the first member with that value. */
  function ByValue(e: EnumClass, value: string): (r: Option<nat>)
    ensures r.Some? <==> exists i :: 0 <= i < |e.members| && e.members[i].1 == value
    ensures r.Some? ==> r.value < |e.members| && e.members[r.value].1 == value &&
                        forall j :: 0 <= j < r.value ==> e.members[j].1 != value
  {
    FirstWithValue(e.members, value)
  }

  function FirstWithValue(ms: seq<(string, string)>, value: string): (r: Option<nat>)
    ensures r.Some? <==> exists i :: 0 <= i < |ms| && ms[i].1 == value
    ensures r.Some? ==> r.value < |ms| && ms[r.value].1 == value &&
                        forall j :: 0 <= j < r.value ==> ms[j].1 != value
  {
    if |ms| == 0 then None
    else if ms[0].1 == value then Some(0)
    else match FirstWithValue(ms[1..], value)
      case None => None
      case Some(i) => Some(i + 1)
  }

  /** `EnumeratedText.parse`: the member whose value is the first word, and
      that word's length; the member is given by its position. */
  function ParseEnum(e: EnumClass, text: string): (r: Result<Parsed<nat>, EnumError>)
    ensures r.Err? <==> ByValue(e, Element(text)).None?
    ensures r.Err? ==> r.error == InvalidEnumeration(Element(text))
    ensures r.Ok? ==> r.value.value < |e.members| && e.members[r.value.value].1 == Element(text) &&
                      r.value.charRead == |Element(text)|
  {
    var arg := Element(text);
    match ByValue(e, arg)
    case None => Err(InvalidEnumeration(arg))
    case Some(i) => Ok(Parsed(i, |arg|))
  }

  /** Iterating an `Enum` class skips aliases; the suggestions are the
      values of what remains. */
  function Suggestions(e: EnumClass): (r: seq<string>)
    ensures forall v :: v in r <==> exists i :: 0 <= i < |e.members| && e.members[i].1 == v
  {
    SuggestFrom(e.members, [])
  }

  function SuggestFrom(ms: seq<(string, string)>, seen: seq<string>): (r: seq<string>)
    ensures forall v :: v in r ==> v !in seen
    ensures forall v :: v in r <==> v !in seen && exists i :: 0 <= i < |ms| && ms[i].1 == v
    ensures forall i, j :: 0 <= i < j < |r| ==> r[i] != r[j]
  {
    if |ms| == 0 then []
    else if ms[0].1 in seen then SuggestFrom(ms[1..], seen)
    else
      var rest := SuggestFrom(ms[1..], seen + [ms[0].1]);
      assert forall i :: 0 <= i < |rest| ==> rest[i] !in seen + [ms[0].1];
      [ms[0].1] + rest
  }

  /** Every suggestion without a space is accepted as typed and names a
      member with that value; one with a space never matches as a whole,
      because only the first word is read. */
  lemma SuggestionsAccepted(e: EnumClass, v: string)
    requires v in Suggestions(e)
    ensures ' ' !in v ==> ParseEnum(e, v).Ok? && e.members[ParseEnum(e, v).value.value].1 == v &&
                          ParseEnum(e, v).value.charRead == |v|
    ensures ' ' in v ==> ParseEnum(e, v).Err? || e.members[ParseEnum(e, v).value.value].1 != v
  {
    if ' ' !in v {
      ElementWhole(v);
    }
  }

  lemma {:induction false} ElementWhole(s: string)
    requires ' ' !in s
    ensures Element(s) == s
    decreases |s|
  {
    if |s| > 0 {
      assert ' ' !in s[1..] by {
        assert forall i :: 0 <= i < |s[1..]| ==> s[1..][i] == s[i + 1];
      }
      ElementWhole(s[1..]);
    }
  }
}
