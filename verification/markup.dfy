/** The text layer of the Satori message markup (im_api/models/parser.py):
    character entities, the case conversions between attribute names in
    code (camelCase) and in markup (param-case), and the splitting of
    selector queries. */
module Markup {
  import opened Basics

  // ---------------------------------------------------------------------
  // Entities
  // ---------------------------------------------------------------------

  /** The four characters markup writes as named entities. */
  datatype Entity = Amp | Lt | Gt | Quot

  function EntityChar(e: Entity): char
  {
    match e
    case Amp => '&'
    case Lt => '<'
    case Gt => '>'
    case Quot => '"'
  }

  function EntityText(e: Entity): string
  {
    match e
    case Amp => "&amp;"
    case Lt => "&lt;"
    case Gt => "&gt;"
    case Quot => "&quot;"
  }

  function EntityOf(c: char): (r: Option<Entity>)
    ensures r.Some? ==> EntityChar(r.value) == c
    ensures r.None? ==> forall e: Entity :: EntityChar(e) != c
  {
    if c == '&' then Some(Amp)
    else if c == '<' then Some(Lt)
    else if c == '>' then Some(Gt)
    else if c == '"' then Some(Quot)
    else None
  }

  /** Which of the four characters are currently written as entities. */
  datatype Flags = Flags(amp: bool, lt: bool, gt: bool, quot: bool)

  const Plain := Flags(false, false, false, false)

  predicate Encoded(f: Flags, e: Entity)
  {
    match e
    case Amp => f.amp
    case Lt => f.lt
    case Gt => f.gt
    case Quot => f.quot
  }

  function With(f: Flags, e: Entity, b: bool): (g: Flags)
    ensures Encoded(g, e) == b
    ensures forall e' :: e' != e ==> Encoded(g, e') == Encoded(f, e')
  {
    match e
    case Amp => f.(amp := b)
    case Lt => f.(lt := b)
    case Gt => f.(gt := b)
    case Quot => f.(quot := b)
  }

  /** How one character is written under `f`. */
  function Code(c: char, f: Flags): string
  {
    match EntityOf(c)
    case Some(e) => if Encoded(f, e) then EntityText(e) else [c]
    case None => [c]
  }

  /** A string written character by character under `f`: the reference
      the replacement chains of `escape` and `unescape` are measured
      against. */
  function Enc(s: string, f: Flags): string
    decreases |s|
  {
    if |s| == 0 then "" else Code(s[0], f) + Enc(s[1..], f)
  }

  /** With nothing encoded, a string is written as itself. */
  lemma {:induction false} EncPlain(s: string)
    ensures Enc(s, Plain) == s
    decreases |s|
  {
    if |s| > 0 {
      EncPlain(s[1..]);
      assert s == [s[0]] + s[1..];
    }
  }

  /** Whichever characters are encoded, the entity characters that are
      encoded never appear literally. */
  lemma {:induction false} EncExcludes(s: string, f: Flags, e: Entity)
    requires Encoded(f, e) && e != Amp
    ensures EntityChar(e) !in Enc(s, f)
    decreases |s|
  {
    if |s| > 0 {
      EncExcludes(s[1..], f, e);
      var c := Code(s[0], f);
      assert EntityChar(e) !in c;
      assert Enc(s, f) == c + Enc(s[1..], f);
    }
  }

  /** One `str.replace(c, entity)` of `escape` turns on one more flag. The
      ampersand goes first, while nothing else is encoded, since every
      entity contains one. */
  lemma {:induction false} EncodeStep(s: string, f: Flags, e: Entity)
    requires !Encoded(f, e)
    requires e == Amp ==> f == Plain
    ensures Replace(Enc(s, f), [EntityChar(e)], EntityText(e)) == Enc(s, With(f, e, true))
    decreases |s|
  {
    var pat := [EntityChar(e)];
    if |s| > 0 {
      var c := Code(s[0], f);
      var rest := Enc(s[1..], f);
      assert Enc(s, f) == c + rest;
      EncodeStep(s[1..], f, e);
      CodeEncode(s[0], f, e);
      if s[0] == EntityChar(e) {
        ReplaceAtHead(rest, pat, EntityText(e));
      } else {
        ReplaceSkipPrefix(c, rest, pat, EntityText(e));
      }
    }
  }

  /** What encoding one more entity does to one character. */
  lemma CodeEncode(x: char, f: Flags, e: Entity)
    requires !Encoded(f, e)
    requires e == Amp ==> f == Plain
    ensures x == EntityChar(e) ==> Code(x, f) == [x] && Code(x, With(f, e, true)) == EntityText(e)
    ensures x != EntityChar(e) ==> EntityChar(e) !in Code(x, f) && Code(x, With(f, e, true)) == Code(x, f)
  {
    match EntityOf(x)
    case None =>
    case Some(e') =>
      if e' != e && Encoded(f, e') {
        assert EntityChar(e) !in EntityText(e') by {
          assert e != Amp;
        }
      }
  }

  /** A replacement whose pattern starts like `c` but differs from it at
      the second character passes over `c` whole. */
  lemma ReplacePassesOver(c: string, t: string, pat: string, rep: string)
    requires 1 < |c| && 1 < |pat| && c[0] == pat[0] && c[1] != pat[1]
    requires pat[0] !in c[1..]
    ensures Replace(c + t, pat, rep) == c + Replace(t, pat, rep)
  {
    var s := c + t;
    if |s| < |pat| {
      ReplaceAbsentHeadShort(s, pat, rep);
      ReplaceAbsentHeadShort(t, pat, rep);
    } else {
      assert s[..|pat|][1] == c[1];
      assert s[1..] == c[1..] + t;
      ReplaceSkipPrefix(c[1..], t, pat, rep);
      assert c == [c[0]] + c[1..];
    }
  }

  /** One `str.replace(entity, c)` of `unescape` turns one flag off again,
      provided ampersands are encoded (so a literal `&` never starts a
      false match). */
  lemma {:induction false} DecodeStep(s: string, f: Flags, e: Entity)
    requires f.amp && e != Amp
    ensures Replace(Enc(s, f), EntityText(e), [EntityChar(e)]) == Enc(s, With(f, e, false))
    decreases |s|
  {
    var pat := EntityText(e);
    var rep := [EntityChar(e)];
    if |s| == 0 {
      ReplaceAbsentHeadShort("", pat, rep);
    } else {
      var c := Code(s[0], f);
      var rest := Enc(s[1..], f);
      assert Enc(s, f) == c + rest;
      DecodeStep(s[1..], f, e);
      if s[0] == EntityChar(e) && Encoded(f, e) {
        assert c == pat;
        ReplaceAtHead(rest, pat, rep);
      } else {
        assert Code(s[0], With(f, e, false)) == c;
        match EntityOf(s[0])
        case Some(e') =>
          if Encoded(f, e') {
            assert e' != e;
            assert c == EntityText(e');
            ReplacePassesOver(c, rest, pat, rep);
          } else {
            assert c == [s[0]] && s[0] != '&';
            ReplaceSkipPrefix(c, rest, pat, rep);
          }
        case None =>
          assert c == [s[0]];
          ReplaceSkipPrefix(c, rest, pat, rep);
      }
    }
  }

  /** `escape(text, inline)`: `&` first, then `<` and `>`, and `"` only
      inline. */
  function Escape(text: string, inline: bool): (r: string)
    ensures '<' !in r && '>' !in r
    ensures inline ==> '"' !in r
    ensures '&' !in text && '<' !in text && '>' !in text && (inline ==> '"' !in text) ==> r == text
  {
    var result := Replace(Replace(Replace(text, "&", "&amp;"), "<", "&lt;"), ">", "&gt;");
    EscapeFacts(text, inline);
    if inline then Replace(result, "\"", "&quot;") else result
  }

  lemma EscapeFacts(text: string, inline: bool)
    ensures var result := Replace(Replace(Replace(text, "&", "&amp;"), "<", "&lt;"), ">", "&gt;");
      var r := if inline then Replace(result, "\"", "&quot;") else result;
      && '<' !in r && '>' !in r
      && (inline ==> '"' !in r)
      && ('&' !in text && '<' !in text && '>' !in text && (inline ==> '"' !in text) ==> r == text)
  {
    EscapeIsEnc(text, inline);
    var f := Flags(true, true, true, inline);
    EncExcludes(text, f, Lt);
    EncExcludes(text, f, Gt);
    if inline {
      EncExcludes(text, f, Quot);
    }
    if '&' !in text && '<' !in text && '>' !in text && (inline ==> '"' !in text) {
      EncUntouched(text, f);
    }
  }

  /** A string none of whose encoded characters occur is written as itself. */
  lemma {:induction false} EncUntouched(s: string, f: Flags)
    requires forall e :: Encoded(f, e) ==> EntityChar(e) !in s
    ensures Enc(s, f) == s
    decreases |s|
  {
    if |s| > 0 {
      assert forall x :: x in s[1..] ==> x in s;
      EncUntouched(s[1..], f);
      assert s == [s[0]] + s[1..];
    }
  }

  /** The replacement chain of `escape` writes the string character by
      character. */
  lemma EscapeIsEnc(text: string, inline: bool)
    ensures Replace(Replace(Replace(text, "&", "&amp;"), "<", "&lt;"), ">", "&gt;")
      == Enc(text, Flags(true, true, true, false))
    ensures Replace(Replace(Replace(Replace(text, "&", "&amp;"), "<", "&lt;"), ">", "&gt;"), "\"", "&quot;")
      == Enc(text, Flags(true, true, true, true))
  {
    EncPlain(text);
    EncodeStep(text, Plain, Amp);
    EncodeStep(text, Flags(true, false, false, false), Lt);
    EncodeStep(text, Flags(true, true, false, false), Gt);
    EncodeStep(text, Flags(true, true, true, false), Quot);
  }

  // ---------------------------------------------------------------------
  // Numeric character references
  // ---------------------------------------------------------------------

  /** A character of `\d` (ASCII) or of `[0-9a-f]`. */
  predicate IsRefDigit(c: char, hex: bool)
  {
    IsDigit(c) || (hex && 'a' <= c <= 'f')
  }

  function RefDigitRun(s: string, hex: bool): (n: nat)
    ensures n <= |s|
    ensures forall i :: 0 <= i < n ==> IsRefDigit(s[i], hex)
    ensures n < |s| ==> !IsRefDigit(s[n], hex)
  {
    if |s| == 0 || !IsRefDigit(s[0], hex) then 0 else 1 + RefDigitRun(s[1..], hex)
  }

  function RefPrefix(hex: bool): string
  {
    if hex then "&#x" else "&#"
  }

  /** The digits of the reference `&#digits;` (or `&#xhexdigits;`) at the
      front of `s`, if there is one; the digit run is greedy, so a shorter
      run never ends in `;` either. */
  function NumericRef(s: string, hex: bool): (r: Option<string>)
    ensures r.Some? ==>
      && StartsWith(s, RefPrefix(hex))
      && |r.value| > 0
      && |RefPrefix(hex)| + |r.value| < |s|
      && s[|RefPrefix(hex)|..|RefPrefix(hex)| + |r.value|] == r.value
      && s[|RefPrefix(hex)| + |r.value|] == ';'
      && forall i :: 0 <= i < |r.value| ==> IsRefDigit(r.value[i], hex)
    ensures |s| > 0 && s[0] != '&' ==> r.None?
    ensures |s| > 1 && s[1] != '#' ==> r.None?
  {
    var p := RefPrefix(hex);
    assert p[0] == '&' && p[1] == '#';
    if !StartsWith(s, p) then None
    else
      var rest := s[|p|..];
      var n := RefDigitRun(rest, hex);
      if n > 0 && |p| + n < |s| && s[|p| + n] == ';' then
        assert s[|p|..|p| + n] == rest[..n];
        assert forall i :: 0 <= i < n ==> rest[..n][i] == rest[i];
        Some(rest[..n])
      else None
  }

  function HexDigitValue(c: char): (v: nat)
    ensures v < 16
  {
    if '0' <= c <= '9' then c as int - '0' as int
    else if 'a' <= c <= 'f' then c as int - 'a' as int + 10
    else 0
  }

  /** `int(digits, 16)` */
  function HexValue(s: string): nat
    decreases |s|
  {
    if |s| == 0 then 0 else 16 * HexValue(s[..|s| - 1]) + HexDigitValue(s[|s| - 1])
  }

  /** `chr(n)`: `ValueError` beyond the last code point. A surrogate code
      point is not a character here, and is refused as well. */
  function Chr(n: nat): (r: Result<char, string>)
    ensures r.Ok? <==> n < 0xD800 || 0xE000 <= n < 0x11_0000
    ensures r.Ok? ==> r.value as int == n
  {
    if n >= 0x11_0000 then Err("ValueError")
    else if 0xD800 <= n < 0xE000 then Err("surrogate")
    else Ok(n as char)
  }

  function Prepend(a: string, r: Result<string, string>): Result<string, string>
  {
    match r
    case Ok(v) => Ok(a + v)
    case Err(e) => Err(e)
  }

  /** One `re.sub` over numeric references, left to right: `&#38;` (or
      `&#x26;`) is kept for the last pass, any other reference becomes its
      character, and a replacement is never scanned again. */
  function NumericPass(s: string, hex: bool): (r: Result<string, string>)
    decreases |s|
  {
    if |s| == 0 then Ok("")
    else match NumericRef(s, hex)
      case None => Prepend([s[0]], NumericPass(s[1..], hex))
      case Some(digits) =>
        var len := |RefPrefix(hex)| + |digits| + 1;
        if digits == (if hex then "26" else "38") then Prepend(s[..len], NumericPass(s[len..], hex))
        else
          var code := if hex then HexValue(digits) else DigitsValue(digits);
          match Chr(code)
          case Err(e) => Err(e)
          case Ok(c) => Prepend([c], NumericPass(s[len..], hex))
  }

  /** Text without `&` holds no reference and passes through. */
  lemma {:induction false} NumericPassPlain(a: string, t: string, hex: bool)
    requires '&' !in a
    ensures NumericPass(a + t, hex) == Prepend(a, NumericPass(t, hex))
    decreases |a|
  {
    if |a| == 0 {
      assert a + t == t;
      match NumericPass(t, hex)
      case Ok(v) => assert a + v == v;
      case Err(_) =>
    } else {
      var s := a + t;
      assert s[0] == a[0] && s[1..] == a[1..] + t;
      assert forall x :: x in a[1..] ==> x in a;
      NumericPassPlain(a[1..], t, hex);
      match NumericPass(t, hex)
      case Ok(v) => assert [a[0]] + (a[1..] + v) == a + v;
      case Err(_) =>
    }
  }

  /** The final `re.sub` of `unescape`: `&amp;`, `&#38;` and `&#x26;` become `&`. */
  function AmpPass(s: string): string
    decreases |s|
  {
    if |s| == 0 then ""
    else if StartsWith(s, "&amp;") || StartsWith(s, "&#38;") then "&" + AmpPass(s[5..])
    else if StartsWith(s, "&#x26;") then "&" + AmpPass(s[6..])
    else [s[0]] + AmpPass(s[1..])
  }

  lemma {:induction false} AmpPassPlain(s: string)
    requires '&' !in s
    ensures AmpPass(s) == s
    decreases |s|
  {
    if |s| > 0 {
      NoAmpStart(s);
      assert forall x :: x in s[1..] ==> x in s;
      AmpPassPlain(s[1..]);
      assert s == [s[0]] + s[1..];
    }
  }

  /** A string not starting with `&` starts no reference. */
  lemma NoAmpStart(s: string)
    requires |s| > 0 && s[0] != '&'
    ensures !StartsWith(s, "&amp;") && !StartsWith(s, "&#38;") && !StartsWith(s, "&#x26;")
  {
  }

  /** `unescape(text)`: the three named entities, then decimal and
      hexadecimal references, then the ampersand. A reference to a
      character that does not exist is an error. */
  function Unescape(text: string): (r: Result<string, string>)
    ensures '&' !in text ==> r == Ok(text)
  {
    var a := Replace(Replace(Replace(text, "&lt;", "<"), "&gt;", ">"), "&quot;", "\"");
    UnescapePlain(text);
    match NumericPass(a, false)
    case Err(e) => Err(e)
    case Ok(b) =>
      match NumericPass(b, true)
      case Err(e) => Err(e)
      case Ok(c) => Ok(AmpPass(c))
  }

  lemma UnescapePlain(text: string)
    ensures '&' !in text ==> Replace(Replace(Replace(text, "&lt;", "<"), "&gt;", ">"), "&quot;", "\"") == text
    ensures '&' !in text ==> NumericPass(text, false) == Ok(text) && NumericPass(text, true) == Ok(text)
    ensures '&' !in text ==> AmpPass(text) == text
  {
    if '&' in text {
      return;
    }
    ReplaceAbsentHead(text, "&lt;", "<");
    ReplaceAbsentHead(text, "&gt;", ">");
    ReplaceAbsentHead(text, "&quot;", "\"");
    NumericPassPlain(text, "", false);
    NumericPassPlain(text, "", true);
    assert text + "" == text;
    AmpPassPlain(text);
  }

  /** Only ampersands encoded: the numeric passes find nothing. */
  lemma {:induction false} NumericPassEnc(s: string, hex: bool)
    ensures NumericPass(Enc(s, Flags(true, false, false, false)), hex) == Ok(Enc(s, Flags(true, false, false, false)))
    decreases |s|
  {
    var f := Flags(true, false, false, false);
    if |s| > 0 {
      var rest := Enc(s[1..], f);
      NumericPassEnc(s[1..], hex);
      AmpHead(s, f);
      if s[0] == '&' {
        NumericPassAmpHead(rest, hex);
      } else {
        NumericPassOtherHead(s[0], rest, hex);
      }
    }
  }

  /** How `Enc` writes the first character when only ampersands are encoded. */
  lemma AmpHead(s: string, f: Flags)
    requires |s| > 0 && f == Flags(true, false, false, false)
    ensures s[0] == '&' ==> Enc(s, f) == "&amp;" + Enc(s[1..], f)
    ensures s[0] != '&' ==> Enc(s, f) == [s[0]] + Enc(s[1..], f)
  {
  }

  /** `&amp;` is no numeric reference and is passed over whole. */
  lemma NumericPassAmpHead(rest: string, hex: bool)
    requires NumericPass(rest, hex) == Ok(rest)
    ensures NumericPass("&amp;" + rest, hex) == Ok("&amp;" + rest)
  {
    var t := "&amp;" + rest;
    assert t[1] == 'a';
    assert t[1..] == "amp;" + rest;
    NumericPassPlain("amp;", rest, hex);
    assert [t[0]] + ("amp;" + rest) == t;
  }

  /** A character other than `&` starts no reference and is passed over. */
  lemma NumericPassOtherHead(c: char, rest: string, hex: bool)
    requires c != '&' && NumericPass(rest, hex) == Ok(rest)
    ensures NumericPass([c] + rest, hex) == Ok([c] + rest)
  {
    var t := [c] + rest;
    assert t[0] == c && t[1..] == rest;
  }

  /** Only ampersands encoded: the last pass restores them. */
  lemma {:induction false} AmpPassEnc(s: string)
    ensures AmpPass(Enc(s, Flags(true, false, false, false))) == s
    decreases |s|
  {
    var f := Flags(true, false, false, false);
    if |s| > 0 {
      var rest := Enc(s[1..], f);
      AmpPassEnc(s[1..]);
      AmpHead(s, f);
      if s[0] == '&' {
        AmpPassAmpHead(rest);
      } else {
        AmpPassOtherHead(s[0], rest);
      }
      assert s == [s[0]] + s[1..];
    }
  }

  /** `&amp;` at the front becomes `&`. */
  lemma AmpPassAmpHead(rest: string)
    ensures AmpPass("&amp;" + rest) == "&" + AmpPass(rest)
  {
    var t := "&amp;" + rest;
    assert StartsWith(t, "&amp;");
    assert t[5..] == rest;
  }

  /** A character other than `&` at the front is kept. */
  lemma AmpPassOtherHead(c: char, rest: string)
    requires c != '&'
    ensures AmpPass([c] + rest) == [c] + AmpPass(rest)
  {
    var t := [c] + rest;
    NoAmpStart(t);
    assert t[0] == c && t[1..] == rest;
  }

  /** `unescape(escape(s, inline)) == s` for both settings of `inline`. */
  lemma UnescapeEscape(s: string, inline: bool)
    ensures Unescape(Escape(s, inline)) == Ok(s)
  {
    var f := Flags(true, true, true, inline);
    EscapeIsEnc(s, inline);
    DecodeStep(s, f, Lt);
    DecodeStep(s, Flags(true, false, true, inline), Gt);
    DecodeStep(s, Flags(true, false, false, inline), Quot);
    NumericPassEnc(s, false);
    NumericPassEnc(s, true);
    AmpPassEnc(s);
  }

  // ---------------------------------------------------------------------
  // Case conversions
  // ---------------------------------------------------------------------

  predicate IsSeparator(c: char)
  {
    c == '_' || c == '-'
  }

  /** No `_x` or `-x` with `x` a lower-case letter. */
  predicate NoCamelBreak(s: string)
  {
    forall i :: 0 <= i < |s| - 1 ==> !(IsSeparator(s[i]) && IsLower(s[i + 1]))
  }

  /** `camel_case`: each `_x` or `-x` (x lower-case) becomes `X`, scanning
      left to right without overlap. */
  function CamelCase(s: string): (r: string)
    ensures |s| > 0 ==> |r| > 0 && (r[0] == s[0] || (IsSeparator(s[0]) && IsUpper(r[0])))
    ensures NoCamelBreak(r)
    decreases |s|
  {
    if |s| == 0 then ""
    else if |s| >= 2 && IsSeparator(s[0]) && IsLower(s[1]) then
      var rest := CamelCase(s[2..]);
      var r := [UpperChar(s[1])] + rest;
      assert forall i :: 1 <= i < |r| ==> r[i] == rest[i - 1];
      r
    else
      var rest := CamelCase(s[1..]);
      var r := [s[0]] + rest;
      assert forall i :: 1 <= i < |r| ==> r[i] == rest[i - 1];
      assert |rest| > 0 && IsSeparator(s[0]) ==> !IsLower(rest[0]);
      r
  }

  /** A name with nothing to convert is left alone, so `camel_case` is
      idempotent. */
  lemma {:induction false} CamelCaseFixed(s: string)
    ensures CamelCase(s) == s <==> NoCamelBreak(s)
    ensures CamelCase(CamelCase(s)) == CamelCase(s)
    decreases |s|
  {
    if NoCamelBreak(s) {
      CamelCaseKeeps(s);
    }
    CamelCaseKeeps(CamelCase(s));
  }

  lemma {:induction false} CamelCaseKeeps(s: string)
    requires NoCamelBreak(s)
    ensures CamelCase(s) == s
    decreases |s|
  {
    if |s| > 0 {
      assert !(|s| >= 2 && IsSeparator(s[0]) && IsLower(s[1]));
      assert NoCamelBreak(s[1..]) by {
        forall i | 0 <= i < |s[1..]| - 1
          ensures !(IsSeparator(s[1..][i]) && IsLower(s[1..][i + 1]))
        {
          assert s[1..][i] == s[i + 1] && s[1..][i + 1] == s[i + 2];
        }
      }
      CamelCaseKeeps(s[1..]);
      assert s == [s[0]] + s[1..];
    }
  }

  /** `uncapitalize`: the first character lower-cased; `IndexError` on the
      empty string. */
  function Uncapitalize(s: string): (r: Result<string, string>)
    ensures r.Err? <==> |s| == 0
    ensures r.Ok? ==> |r.value| == |s| && !IsUpper(r.value[0])
    ensures r.Ok? ==> forall c :: c in r.value ==> c in s || IsLower(c)
  {
    if |s| == 0 then Err("IndexError")
    else
      var r := [LowerChar(s[0])] + s[1..];
      assert forall i :: 1 <= i < |r| ==> r[i] == s[i];
      Ok(r)
  }

  /** `s.replace(a, b)` for single characters. */
  function SubstChar(s: string, a: char, b: char): (r: string)
    ensures |r| == |s|
    ensures forall i :: 0 <= i < |s| ==> r[i] == if s[i] == a then b else s[i]
  {
    seq(|s|, i requires 0 <= i < |s| => if s[i] == a then b else s[i])
  }

  /** The length of the leading run of upper-case letters. */
  function UpperRun(s: string): (n: nat)
    ensures n <= |s|
    ensures forall i :: 0 <= i < n ==> IsUpper(s[i])
    ensures n < |s| ==> !IsUpper(s[n])
  {
    if |s| == 0 || !IsUpper(s[0]) then 0 else 1 + UpperRun(s[1..])
  }

  /** `re.sub(".[A-Z]+", ...)` of `param_case`: a character other than a
      newline followed by a run of capitals becomes that character, `-`,
      and the run in lower case. */
  function HyphenateCapitals(t: string): (r: string)
    ensures forall c :: c in r ==> c in t || c == '-' || IsLower(c)
    ensures '\n' !in t && (|t| > 0 ==> !IsUpper(t[0])) ==> forall i :: 0 <= i < |r| ==> !IsUpper(r[i])
    decreases |t|
  {
    if |t| == 0 then ""
    else if |t| >= 2 && t[0] != '\n' && IsUpper(t[1]) then
      var n := UpperRun(t[1..]);
      var rest := HyphenateCapitals(t[1 + n..]);
      assert forall c :: c in t[1 + n..] ==> c in t;
      assert 1 + n < |t| ==> t[1 + n..][0] == t[1..][n];
      [t[0]] + "-" + Lower(t[1..1 + n]) + rest
    else
      var rest := HyphenateCapitals(t[1..]);
      assert forall c :: c in t[1..] ==> c in t;
      [t[0]] + rest
  }

  /** `param_case`: uncapitalise, `_` to `-`, then hyphenate the capital
      runs. */
  function ParamCase(s: string): (r: Result<string, string>)
    ensures r.Err? <==> |s| == 0
    ensures r.Ok? ==> '_' !in r.value
    ensures r.Ok? ==> forall c :: c in r.value ==> c in s || c == '-' || IsLower(c)
    ensures r.Ok? && '\n' !in s ==> forall i :: 0 <= i < |r.value| ==> !IsUpper(r.value[i])
  {
    match Uncapitalize(s)
    case Err(e) => Err(e)
    case Ok(u) =>
      var t := SubstChar(u, '_', '-');
      assert forall c :: c in t ==> (c in u && c != '_') || c == '-';
      Ok(HyphenateCapitals(t))
  }

  /** A name as code writes it: it does not start with a capital, has no
      separators or newlines, and no two capitals in a row. */
  predicate IsCamelName(k: string)
  {
    && |k| > 0 && !IsUpper(k[0])
    && (forall i :: 0 <= i < |k| ==> !IsSeparator(k[i]) && k[i] != '\n')
    && (forall i :: 0 <= i < |k| - 1 ==> !(IsUpper(k[i]) && IsUpper(k[i + 1])))
  }

  lemma {:induction false} HyphenateCamel(t: string)
    requires forall i :: 0 <= i < |t| ==> !IsSeparator(t[i]) && t[i] != '\n'
    requires forall i :: 0 <= i < |t| - 1 ==> !(IsUpper(t[i]) && IsUpper(t[i + 1]))
    requires |t| > 0 ==> !IsUpper(t[0])
    ensures CamelCase(HyphenateCapitals(t)) == t
    decreases |t|
  {
    if |t| > 0 {
      if |t| >= 2 && IsUpper(t[1]) {
        CamelTail(t, 2);
        HyphenateCamel(t[2..]);
        HyphenateCamelCapital(t);
      } else {
        CamelTail(t, 1);
        HyphenateCamel(t[1..]);
        HyphenateCamelPlain(t);
      }
    }
  }

  /** The step of `HyphenateCamel` at a lone capital. */
  lemma HyphenateCamelCapital(t: string)
    requires |t| >= 2 && !IsSeparator(t[0]) && t[0] != '\n' && IsUpper(t[1])
    requires |t| > 2 ==> !IsUpper(t[2])
    requires CamelCase(HyphenateCapitals(t[2..])) == t[2..]
    ensures CamelCase(HyphenateCapitals(t)) == t
  {
    var rest := HyphenateCapitals(t[2..]);
    var l := LowerChar(t[1]);
    HyphenateOneCapital(t);
    assert IsLower(l) && UpperChar(l) == t[1];
    CamelCaseHyphen(t[0], l, rest);
    calc {
      CamelCase(HyphenateCapitals(t));
      CamelCase([t[0]] + "-" + [l] + rest);
      [t[0]] + [t[1]] + t[2..];
      { assert t == [t[0]] + [t[1]] + t[2..]; }
      t;
    }
  }

  /** The step of `HyphenateCamel` at a character followed by no capital. */
  lemma HyphenateCamelPlain(t: string)
    requires |t| > 0 && !IsSeparator(t[0])
    requires !(|t| >= 2 && t[0] != '\n' && IsUpper(t[1]))
    requires CamelCase(HyphenateCapitals(t[1..])) == t[1..]
    ensures CamelCase(HyphenateCapitals(t)) == t
  {
    var rest := HyphenateCapitals(t[1..]);
    assert HyphenateCapitals(t) == [t[0]] + rest;
    CamelCaseHead(t[0], rest);
    assert t == [t[0]] + t[1..];
  }

  /** A suffix not starting with a capital is a camel-case text too. */
  lemma CamelTail(t: string, k: nat)
    requires forall i :: 0 <= i < |t| ==> !IsSeparator(t[i]) && t[i] != '\n'
    requires forall i :: 0 <= i < |t| - 1 ==> !(IsUpper(t[i]) && IsUpper(t[i + 1]))
    requires k <= |t| && (k < |t| ==> !IsUpper(t[k]))
    ensures forall i :: 0 <= i < |t[k..]| ==> !IsSeparator(t[k..][i]) && t[k..][i] != '\n'
    ensures forall i :: 0 <= i < |t[k..]| - 1 ==> !(IsUpper(t[k..][i]) && IsUpper(t[k..][i + 1]))
    ensures |t[k..]| > 0 ==> !IsUpper(t[k..][0])
  {
    forall i | 0 <= i < |t[k..]| - 1
      ensures !(IsUpper(t[k..][i]) && IsUpper(t[k..][i + 1]))
    {
      assert t[k..][i] == t[k + i] && t[k..][i + 1] == t[k + i + 1];
    }
  }

  /** A single capital after the first character is hyphenated alone. */
  lemma HyphenateOneCapital(t: string)
    requires |t| >= 2 && t[0] != '\n' && IsUpper(t[1])
    requires |t| > 2 ==> !IsUpper(t[2])
    ensures HyphenateCapitals(t) == [t[0]] + "-" + [LowerChar(t[1])] + HyphenateCapitals(t[2..])
  {
    UpperRunOne(t[1..]);
    assert t[1..][1..] == t[2..];
    LowerOne(t[1..2]);
    HyphenateRun(t, 1);
  }

  /** One step of `HyphenateCapitals` over a run of `n` capitals. */
  lemma HyphenateRun(t: string, n: nat)
    requires |t| >= 2 && t[0] != '\n' && IsUpper(t[1]) && n == UpperRun(t[1..])
    ensures HyphenateCapitals(t) == [t[0]] + "-" + Lower(t[1..1 + n]) + HyphenateCapitals(t[1 + n..])
  {
  }

  lemma UpperRunOne(u: string)
    requires |u| >= 1 && IsUpper(u[0]) && (|u| > 1 ==> !IsUpper(u[1]))
    ensures UpperRun(u) == 1
  {
    assert UpperRun(u) == 1 + UpperRun(u[1..]);
  }

  lemma LowerOne(u: string)
    requires |u| == 1
    ensures Lower(u) == [LowerChar(u[0])]
  {
  }

  lemma CamelCaseHead(a: char, rest: string)
    requires !IsSeparator(a)
    ensures CamelCase([a] + rest) == [a] + CamelCase(rest)
  {
    assert ([a] + rest)[1..] == rest;
  }

  lemma CamelCaseHyphen(a: char, l: char, rest: string)
    requires !IsSeparator(a) && IsLower(l)
    ensures CamelCase([a] + "-" + [l] + rest) == [a] + [UpperChar(l)] + CamelCase(rest)
  {
    var h := [a] + "-" + [l] + rest;
    assert h[1..] == "-" + [l] + rest;
    assert h[1..][2..] == rest;
    CamelCaseHead(a, h[1..]);
  }

  /** An attribute name written by `param_case` reads back through
      `camel_case` as the name it came from. */
  lemma CamelCaseParamCase(k: string)
    requires IsCamelName(k)
    ensures ParamCase(k).Ok? && CamelCase(ParamCase(k).value) == k
  {
    assert Uncapitalize(k) == Ok(k) by {
      assert LowerChar(k[0]) == k[0];
      assert [k[0]] + k[1..] == k;
    }
    assert SubstChar(k, '_', '-') == k;
    HyphenateCamel(k);
  }

  // ---------------------------------------------------------------------
  // Selectors
  // ---------------------------------------------------------------------

  predicate IsCombinator(c: char)
  {
    c == ' ' || c == '>' || c == '+' || c == '~'
  }

  /** One step of a selector query: an element type, and how it relates to
      the step before. */
  datatype Selector = Selector(kind: string, combinator: char)

  function FirstCombinator(q: string): (p: nat)
    ensures p <= |q|
    ensures forall i :: 0 <= i < p ==> !IsCombinator(q[i])
    ensures p < |q| ==> IsCombinator(q[p])
  {
    if |q| == 0 || IsCombinator(q[0]) then 0 else 1 + FirstCombinator(q[1..])
  }

  function SpaceRun(q: string): (n: nat)
    ensures n <= |q|
    ensures forall i :: 0 <= i < n ==> q[i] == ' '
    ensures n < |q| ==> q[n] != ' '
  {
    if |q| == 0 || q[0] != ' ' then 0 else 1 + SpaceRun(q[1..])
  }

  /** Where `comb_pat.search` matches, and the combinator it captures. */
  datatype Match = Match(start: nat, end: nat, comb: char)

  /** `comb_pat.search(q)` for ` *([ >+~]) *`. The leftmost match starts at
      the first combinator character; its group is the first of `>+~` after
      the spaces, or else the last space, which then ends the match. */
  function SearchCombinator(q: string): (m: Option<Match>)
    ensures m.None? <==> FirstCombinator(q) == |q|
    ensures m.Some? ==> m.value.start == FirstCombinator(q) < m.value.end <= |q| && IsCombinator(m.value.comb)
  {
    var p := FirstCombinator(q);
    if p == |q| then None
    else
      var n := SpaceRun(q[p..]);
      if p + n < |q| && q[p + n] != ' ' && IsCombinator(q[p + n]) then
        Some(Match(p, p + n + 1 + SpaceRun(q[p + n + 1..]), q[p + n]))
      else
        assert q[p] == ' ';
        assert n > 0 by {
          assert q[p..][0] == ' ';
        }
        Some(Match(p, p + n, ' '))
  }

  /** `_quert`: the steps of one comma-separated group. */
  function Group(q: string, comb: char): (r: seq<Selector>)
    ensures |r| >= 1 && r[0].combinator == comb
    ensures forall i :: 1 <= i < |r| ==> IsCombinator(r[i].combinator)
    decreases |q|
  {
    var o := SearchCombinator(q);
    if o.None? then [Selector(q, comb)]
    else
      var m := o.value;
      var rest := Group(q[m.end..], m.comb);
      [Selector(q[..m.start], comb)] + rest
  }

  /** Each step of a group names a type free of combinators, spelled with
      the group's own characters. */
  lemma {:induction false} GroupKindAt(q: string, comb: char, i: nat)
    requires i < |Group(q, comb)|
    ensures var kind := Group(q, comb)[i].kind;
            (forall j :: 0 <= j < |kind| ==> !IsCombinator(kind[j])) && (forall c :: c in kind ==> c in q)
    decreases |q|
  {
    match SearchCombinator(q)
    case None =>
    case Some(m) =>
      var rest := Group(q[m.end..], m.comb);
      assert Group(q, comb) == [Selector(q[..m.start], comb)] + rest;
      if i == 0 {
        assert forall c :: c in q[..m.start] ==> c in q;
      } else {
        assert Group(q, comb)[i] == rest[i - 1];
        GroupKindAt(q[m.end..], m.comb, i - 1);
        assert forall c :: c in q[m.end..] ==> c in q;
      }
  }

  /** `parse_selector`: comma-separated groups, each starting with the
      descendant combinator. */
  function ParseSelector(input: string): (r: seq<seq<Selector>>)
    ensures |r| == |Split(input, ',')|
    ensures forall g :: 0 <= g < |r| ==> |r[g]| >= 1 && r[g][0].combinator == ' '
    ensures forall g, i :: 0 <= g < |r| && 0 <= i < |r[g]| ==> ',' !in r[g][i].kind
  {
    var parts := Split(input, ',');
    var r := seq(|parts|, g requires 0 <= g < |parts| => Group(parts[g], ' '));
    assert forall g, i :: 0 <= g < |r| && 0 <= i < |r[g]| ==> ',' !in r[g][i].kind by {
      forall g, i | 0 <= g < |r| && 0 <= i < |r[g]|
        ensures ',' !in r[g][i].kind
      {
        GroupKindAt(parts[g], ' ', i);
      }
    }
    r
  }

  /** The steps after the first, written back with bare combinators. */
  function Unparse(rest: seq<Selector>): string
  {
    if |rest| == 0 then "" else [rest[0].combinator] + rest[0].kind + Unparse(rest[1..])
  }

  /** A type name a query can hold: non-empty and free of combinators. */
  predicate IsStepName(kind: string)
  {
    |kind| > 0 && forall i :: 0 <= i < |kind| ==> !IsCombinator(kind[i])
  }

  lemma {:induction false} FirstCombinatorAt(t: string, c: char, u: string)
    requires forall i :: 0 <= i < |t| ==> !IsCombinator(t[i])
    requires IsCombinator(c)
    ensures FirstCombinator(t + [c] + u) == |t|
  {
    var q := t + [c] + u;
    assert q[|t|] == c;
  }

  /** Splitting a query written from well-formed steps gives the steps back. */
  lemma {:induction false} GroupUnparse(t: string, comb: char, rest: seq<Selector>)
    requires forall i :: 0 <= i < |t| ==> !IsCombinator(t[i])
    requires forall i :: 0 <= i < |rest| ==> IsStepName(rest[i].kind) && IsCombinator(rest[i].combinator)
    ensures Group(t + Unparse(rest), comb) == [Selector(t, comb)] + rest
    decreases |rest|
  {
    var q := t + Unparse(rest);
    if |rest| == 0 {
      assert q == t;
      assert FirstCombinator(q) == |q|;
    } else {
      var c1 := rest[0].combinator;
      var t1 := rest[0].kind;
      var u := Unparse(rest[1..]);
      assert q == t + [c1] + (t1 + u);
      SearchAt(t, c1, t1 + u);
      var m := Match(|t|, |t| + 1, c1);
      GroupStep(q, comb, m);
      assert q[..|t|] == t;
      assert q[|t| + 1..] == t1 + u;
      GroupUnparse(t1, c1, rest[1..]);
      assert rest == [rest[0]] + rest[1..];
    }
  }

  /** A combinator between a combinator-free prefix and a type name is
      matched alone. */
  lemma SearchAt(t: string, c: char, v: string)
    requires forall i :: 0 <= i < |t| ==> !IsCombinator(t[i])
    requires IsCombinator(c) && |v| > 0 && !IsCombinator(v[0])
    ensures SearchCombinator(t + [c] + v) == Some(Match(|t|, |t| + 1, c))
  {
    var q := t + [c] + v;
    var p := |t|;
    FirstCombinatorAt(t, c, v);
    assert q[p] == c && q[p + 1] == v[0];
    if c == ' ' {
      assert q[p..][0] == ' ' && q[p..][1] == v[0];
      assert SpaceRun(q[p..]) == 1 + SpaceRun(q[p..][1..]);
      assert SpaceRun(q[p..]) == 1;
    } else {
      assert SpaceRun(q[p..]) == 0 by {
        assert q[p..][0] == c;
      }
      assert SpaceRun(q[p + 1..]) == 0 by {
        assert q[p + 1..][0] == v[0];
      }
    }
  }

  /** `Group` at a match: the step before it, then the group after it. */
  lemma GroupStep(q: string, comb: char, m: Match)
    requires SearchCombinator(q) == Some(m)
    ensures m.start <= m.end <= |q|
    ensures Group(q, comb) == [Selector(q[..m.start], comb)] + Group(q[m.end..], m.comb)
  {
  }
}
