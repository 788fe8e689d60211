/** The release workflow's change detector: for every plugin id it picks the
    newest tag named after the plugin, reads the plugin's git history since that
    tag (or all of it when there is none), and reports the plugins whose history
    mentions a releasable change. Running `git` is replaced by the two inputs
    it produces: the text printed by `git tag`, and a function from a log range
    to the text `git log` prints for it. */
module ChangeFinder {
  import opened Basics

  /** The characters JavaScript's `trim` removes: its white space (the
      tab, vertical tab, form feed, byte order mark and the Unicode space
      separators) and its line terminators. */
  predicate IsSpace(c: char)
  {
    var n := c as int;
    (0x09 <= n <= 0x0D) || n == 0x20 || n == 0xA0 || n == 0x1680 || (0x2000 <= n <= 0x200A)
    || n == 0x2028 || n == 0x2029 || n == 0x202F || n == 0x205F || n == 0x3000 || n == 0xFEFF
  }

  function TrimStart(s: string): (r: string)
    ensures |r| <= |s| && s[|s| - |r|..] == r
    ensures |r| > 0 ==> !IsSpace(r[0])
    ensures forall i :: 0 <= i < |s| - |r| ==> IsSpace(s[i])
  {
    if |s| > 0 && IsSpace(s[0]) then TrimStart(s[1..]) else s
  }

  function TrimEnd(s: string): (r: string)
    ensures |r| <= |s| && s[..|r|] == r
    ensures |r| > 0 ==> !IsSpace(r[|r| - 1])
    ensures forall i :: |r| <= i < |s| ==> IsSpace(s[i])
  {
    if |s| > 0 && IsSpace(s[|s| - 1]) then TrimEnd(s[..|s| - 1]) else s
  }

  /** `s.trim()` */
  function Trim(s: string): string
  {
    TrimEnd(TrimStart(s))
  }

  function Reverse<T>(s: seq<T>): (r: seq<T>)
    ensures |r| == |s|
    ensures forall i :: 0 <= i < |s| ==> r[i] == s[|s| - 1 - i]
  {
    if |s| == 0 then [] else Reverse(s[1..]) + [s[0]]
  }

  /** `execSync('git tag').trim().split('\n').reverse()`: newest tag first. */
  function TagList(gitTagOutput: string): (tags: seq<string>)
    ensures |tags| >= 1
  {
    Reverse(Split(Trim(gitTagOutput), '\n'))
  }

  /** The history a plugin's log is read from. */
  datatype LogRange =
    | SinceTag(tag: string, path: string)  // git log <tag>...HEAD <path>
    | Whole(path: string)                   // git log <path>

  /** The first tag, in list order, whose name starts with the plugin id.
      The test is a bare prefix test: `foo` also selects a tag of `foo_bar`. */
  function FindTag(tags: seq<string>, id: string): (r: Option<nat>)
    ensures r.Some? ==> r.value < |tags| && StartsWith(tags[r.value], id)
    ensures r.Some? ==> forall j :: 0 <= j < r.value ==> !StartsWith(tags[j], id)
    ensures r.None? ==> forall j :: 0 <= j < |tags| ==> !StartsWith(tags[j], id)
  {
    if |tags| == 0 then None
    else if StartsWith(tags[0], id) then Some(0)
    else
      match FindTag(tags[1..], id)
      case None => None
      case Some(k) => Some(k + 1)
  }

  /** The range the detector reads for one plugin. */
  function RangeFor(tags: seq<string>, id: string): LogRange
  {
    match FindTag(tags, id)
    case Some(k) => SinceTag(tags[k], id)
    case None => Whole(id)
  }

  /** `isAffectReleaseLog` (both copies in the script have this body). */
  predicate IsAffectReleaseLog(log: string)
  {
    Contains(log, "fix") || Contains(log, "feat") || Contains(log, "!") || Contains(log, "Release-As: ")
  }

  /** Whether a plugin is reported. */
  predicate IsChanged(tags: seq<string>, gitLog: LogRange -> string, id: string)
  {
    IsAffectReleaseLog(gitLog(RangeFor(tags, id)))
  }

  /** Reference definition of the result: the plugins that pass, in list order. */
  function Filter(plugins: seq<string>, tags: seq<string>, gitLog: LogRange -> string): seq<string>
  {
    if |plugins| == 0 then []
    else
      (if IsChanged(tags, gitLog, plugins[0]) then [plugins[0]] else [])
      + Filter(plugins[1..], tags, gitLog)
  }

  /** The tag scan for one plugin: stop at the first tag that matches. */
  method SelectRange(tags: seq<string>, id: string) returns (range: LogRange)
    ensures range.SinceTag? <==> exists j :: 0 <= j < |tags| && StartsWith(tags[j], id)
    ensures range.SinceTag? ==> range.path == id && range.tag in tags && StartsWith(range.tag, id)
    ensures range.Whole? ==> range.path == id
    ensures range == RangeFor(tags, id)
  {
    var found := false;
    range := Whole(id);
    var k := 0;
    while k < |tags|
      invariant 0 <= k <= |tags|
      invariant forall j :: 0 <= j < k ==> !StartsWith(tags[j], id)
      invariant range == Whole(id)
    {
      if StartsWith(tags[k], id) {
        range := SinceTag(tags[k], id);
        found := true;
        break;
      }
      k := k + 1;
    }
    if !found {
      assert forall j :: 0 <= j < |tags| ==> !StartsWith(tags[j], id);
    }
  }

  /** One plugin's verdict: its range, then the release-log test on that
      range's log. */
  method PluginChanged(tags: seq<string>, gitLog: LogRange -> string, id: string) returns (c: bool)
    ensures c == IsChanged(tags, gitLog, id)
  {
    var range := SelectRange(tags, id);
    c := IsAffectReleaseLog(gitLog(range));
  }

  /** The script's main loop: one range per plugin, push the passing ids. */
  method ChangedList(plugins: seq<string>, tags: seq<string>, gitLog: LogRange -> string)
    returns (changed: seq<string>)
    ensures changed == Filter(plugins, tags, gitLog)
  {
    changed := [];
    var p := 0;
    while p < |plugins|
      invariant 0 <= p <= |plugins|
      invariant changed + Filter(plugins[p..], tags, gitLog) == Filter(plugins, tags, gitLog)
    {
      var id := plugins[p];
      var c := PluginChanged(tags, gitLog, id);
      FilterStep(plugins, p, tags, gitLog);
      var rest := Filter(plugins[p + 1..], tags, gitLog);
      if c {
        assert changed + [id] + rest == changed + ([id] + rest);
        changed := changed + [id];
      } else {
        assert [] + rest == rest;
      }
      assert changed + rest == Filter(plugins, tags, gitLog);
      p := p + 1;
    }
    assert plugins[p..] == [];
  }

  /** The filter over a suffix: its first plugin, then the rest. */
  lemma FilterStep(plugins: seq<string>, p: nat, tags: seq<string>, gitLog: LogRange -> string)
    requires p < |plugins|
    ensures Filter(plugins[p..], tags, gitLog)
         == (if IsChanged(tags, gitLog, plugins[p]) then [plugins[p]] else []) + Filter(plugins[p + 1..], tags, gitLog)
  {
    assert plugins[p..][0] == plugins[p] && plugins[p..][1..] == plugins[p + 1..];
  }

  /** A plugin is reported exactly when its log passes the predicate. */
  lemma {:induction false} FilterMembership(plugins: seq<string>, tags: seq<string>,
                                            gitLog: LogRange -> string, id: string)
    ensures id in Filter(plugins, tags, gitLog) <==> id in plugins && IsChanged(tags, gitLog, id)
  {
    if |plugins| > 0 {
      FilterMembership(plugins[1..], tags, gitLog, id);
      assert plugins == [plugins[0]] + plugins[1..];
    }
  }

  /** The reported list is a subsequence of the plugin list: each entry can be
      matched to a strictly later position of the plugin list than the previous one. */
  predicate IsSubsequence(sub: seq<string>, s: seq<string>)
    decreases |s|
  {
    |sub| == 0 || (|s| > 0 && ((sub[0] == s[0] && IsSubsequence(sub[1..], s[1..])) || IsSubsequence(sub, s[1..])))
  }

  lemma {:induction false} FilterIsSubsequence(plugins: seq<string>, tags: seq<string>,
                                               gitLog: LogRange -> string)
    ensures IsSubsequence(Filter(plugins, tags, gitLog), plugins)
  {
    if |plugins| > 0 {
      FilterIsSubsequence(plugins[1..], tags, gitLog);
      var rest := Filter(plugins[1..], tags, gitLog);
      if IsChanged(tags, gitLog, plugins[0]) {
        assert Filter(plugins, tags, gitLog) == [plugins[0]] + rest;
        assert ([plugins[0]] + rest)[1..] == rest;
      } else {
        assert Filter(plugins, tags, gitLog) == rest;
      }
    }
  }

  /** Distinct plugin ids give a report without repeats. */
  lemma {:induction false} FilterDistinct(plugins: seq<string>, tags: seq<string>,
                                          gitLog: LogRange -> string)
    requires forall i, j :: 0 <= i < j < |plugins| ==> plugins[i] != plugins[j]
    ensures var r := Filter(plugins, tags, gitLog);
            forall i, j :: 0 <= i < j < |r| ==> r[i] != r[j]
  {
    if |plugins| > 0 {
      FilterDistinct(plugins[1..], tags, gitLog);
      var rest := Filter(plugins[1..], tags, gitLog);
      FilterMembership(plugins[1..], tags, gitLog, plugins[0]);
      assert plugins[0] !in plugins[1..];
    }
  }

  // ---------------------------------------------------------------------
  // Outputs: `changed` and `plugins` (JSON.stringify of a string array)
  // ---------------------------------------------------------------------

  function HexDigit(n: nat): char
    requires n < 16
  {
    if n < 10 then ('0' as int + n) as char else ('a' as int + n - 10) as char
  }

  /** JSON.stringify's escape of one character inside a string literal. */
  function EscapeChar(c: char): string
  {
    if c == '"' then "\\\""
    else if c == '\\' then "\\\\"
    else if c == '\n' then "\\n"
    else if c == '\r' then "\\r"
    else if c == '\t' then "\\t"
    else if c as int == 8 then "\\b"
    else if c as int == 12 then "\\f"
    else if c as int < 32 then "\\u00" + [HexDigit(c as int / 16), HexDigit(c as int % 16)]
    else [c]
  }

  function EscapeString(s: string): string
  {
    if |s| == 0 then "" else EscapeChar(s[0]) + EscapeString(s[1..])
  }

  function JsonItems(items: seq<string>): string
  {
    if |items| == 0 then ""
    else if |items| == 1 then "\"" + EscapeString(items[0]) + "\""
    else "\"" + EscapeString(items[0]) + "\"," + JsonItems(items[1..])
  }

  /** `JSON.stringify(list)` for a list of strings. */
  function JsonStringList(items: seq<string>): string
  {
    "[" + JsonItems(items) + "]"
  }

  /** The two workflow outputs. */
  datatype Outputs = Outputs(changed: bool, plugins: string)

  function MakeOutputs(changedList: seq<string>): (o: Outputs)
    ensures o.changed <==> |changedList| > 0
    ensures o.plugins == JsonStringList(changedList)
  {
    Outputs(|changedList| > 0, JsonStringList(changedList))
  }

  /** The whole script as a function of its inputs. */
  method Run(plugins: seq<string>, gitTagOutput: string, gitLog: LogRange -> string)
    returns (o: Outputs)
    ensures o.changed <==> exists id :: id in plugins && IsChanged(TagList(gitTagOutput), gitLog, id)
    ensures |plugins| == 0 ==> o == Outputs(false, "[]")
    ensures DecodeStringList(o.plugins) == Some(Filter(plugins, TagList(gitTagOutput), gitLog))
  {
    var tags := TagList(gitTagOutput);
    var changed := ChangedList(plugins, tags, gitLog);
    o := MakeOutputs(changed);
    JsonRoundTrip(changed);
    if |changed| > 0 {
      FilterMembership(plugins, tags, gitLog, changed[0]);
    }
    if exists id :: id in plugins && IsChanged(tags, gitLog, id) {
      var id :| id in plugins && IsChanged(tags, gitLog, id);
      FilterMembership(plugins, tags, gitLog, id);
    }
  }

  // ---------------------------------------------------------------------
  // Decoding the `plugins` output gives back the list
  // ---------------------------------------------------------------------

  function HexValue(c: char): Option<nat>
  {
    if '0' <= c <= '9' then Some(c as int - '0' as int)
    else if 'a' <= c <= 'f' then Some(c as int - 'a' as int + 10)
    else None
  }

  /** Reads the body of a JSON string up to its closing quote; returns the
      decoded text and the rest of the input after the quote. */
  function DecodeStringBody(s: string): Option<(string, string)>
    decreases |s|
  {
    if |s| == 0 then None
    else if s[0] == '"' then Some(("", s[1..]))
    else if s[0] == '\\' then
      if |s| < 2 then None
      else
        var e := s[1];
        var decoded: Option<(char, nat)> :=
          if e == '"' then Some(('"', 2))
          else if e == '\\' then Some(('\\', 2))
          else if e == 'n' then Some(('\n', 2))
          else if e == 'r' then Some(('\r', 2))
          else if e == 't' then Some(('\t', 2))
          else if e == 'b' then Some((8 as char, 2))
          else if e == 'f' then Some((12 as char, 2))
          else if e == 'u' && |s| >= 6 && s[2] == '0' && s[3] == '0'
                  && HexValue(s[4]).Some? && HexValue(s[5]).Some? && HexValue(s[4]).value < 2 then
            Some(((HexValue(s[4]).value * 16 + HexValue(s[5]).value) as char, 6))
          else None;
        match decoded
        case None => None
        case Some((c, n)) =>
          match DecodeStringBody(s[n..])
          case None => None
          case Some((body, rest)) => Some(([c] + body, rest))
    else
      match DecodeStringBody(s[1..])
      case None => None
      case Some((body, rest)) => Some(([s[0]] + body, rest))
  }

  /** Reads `"…"` items separated by commas up to the closing bracket. */
  function DecodeItems(s: string): Option<seq<string>>
    decreases |s|
  {
    if |s| == 0 || s[0] != '"' then None
    else
      match DecodeStringBody(s[1..])
      case None => None
      case Some((item, rest)) =>
        if |rest| >= |s| then None
        else if rest == "]" then Some([item])
        else if |rest| > 0 && rest[0] == ',' then
          match DecodeItems(rest[1..])
          case None => None
          case Some(items) => Some([item] + items)
        else None
  }

  /** A JSON array of strings. */
  function DecodeStringList(s: string): Option<seq<string>>
  {
    if s == "[]" then Some([])
    else if |s| >= 2 && s[0] == '[' then DecodeItems(s[1..])
    else None
  }

  lemma EscapeCharDecodes(c: char, tail: string)
    ensures DecodeStringBody(EscapeChar(c) + tail) ==
            match DecodeStringBody(tail)
            case None => None
            case Some((body, rest)) => Some(([c] + body, rest))
  {
    var s := EscapeChar(c) + tail;
    if c as int < 32 && c != '\n' && c != '\r' && c != '\t' && c as int != 8 && c as int != 12 {
      var hi, lo := c as int / 16, c as int % 16;
      assert s[..6] == "\\u00" + [HexDigit(hi), HexDigit(lo)];
      assert HexValue(s[4]) == Some(hi);
      assert HexValue(s[5]) == Some(lo);
      assert s[6..] == tail;
    } else if c == '"' || c == '\\' || c == '\n' || c == '\r' || c == '\t' || c as int == 8 || c as int == 12 {
      assert s[2..] == tail;
    } else {
      assert s[1..] == tail;
    }
  }

  lemma {:induction false} EscapeStringDecodes(t: string, tail: string)
    ensures DecodeStringBody(EscapeString(t) + "\"" + tail) == Some((t, tail))
  {
    if |t| == 0 {
      assert EscapeString(t) + "\"" + tail == "\"" + tail;
    } else {
      EscapeStringDecodes(t[1..], tail);
      assert EscapeString(t) + "\"" + tail == EscapeChar(t[0]) + (EscapeString(t[1..]) + "\"" + tail);
      EscapeCharDecodes(t[0], EscapeString(t[1..]) + "\"" + tail);
      assert [t[0]] + t[1..] == t;
    }
  }

  lemma LastItemDecodes(first: string)
    ensures DecodeItems(JsonItems([first]) + "]") == Some([first])
  {
    var s := JsonItems([first]) + "]";
    assert s == "\"" + (EscapeString(first) + "\"" + "]");
    assert s[1..] == EscapeString(first) + "\"" + "]";
    EscapeStringDecodes(first, "]");
    assert s[0] == '"';
  }

  lemma {:induction false} JsonItemsDecode(items: seq<string>)
    requires |items| > 0
    ensures DecodeItems(JsonItems(items) + "]") == Some(items)
  {
    var s := JsonItems(items) + "]";
    var first := items[0];
    if |items| == 1 {
      LastItemDecodes(first);
      assert items == [first];
    } else {
      JsonItemsDecode(items[1..]);
      ItemThenMore(first, items[1..]);
      assert [first] + items[1..] == items;
    }
  }

  /** One more item in front of a list that decodes is decoded in front. */
  lemma ItemThenMore(first: string, more: seq<string>)
    requires |more| > 0
    requires DecodeItems(JsonItems(more) + "]") == Some(more)
    ensures DecodeItems(JsonItems([first] + more) + "]") == Some([first] + more)
  {
    var items := [first] + more;
    assert items[0] == first && items[1..] == more;
    var e := EscapeString(first);
    var j := JsonItems(more);
    assert JsonItems(items) == "\"" + e + "\"," + j;
    var tail := "," + j + "]";
    var s := JsonItems(items) + "]";
    Regroup(e, j);
    EscapeStringDecodes(first, tail);
    assert DecodeItems(s) == Some([first] + more);
  }

  /** The text of an item followed by more items, cut after its opening
      quote and after its comma. */
  lemma Regroup(e: string, j: string)
    ensures var s := "\"" + e + "\"," + j + "]";
      s[0] == '"' && s[1..] == e + "\"" + ("," + j + "]")
    ensures var tail := "," + j + "]";
      tail[0] == ',' && tail != "]" && tail[1..] == j + "]"
  {
    var tail := "," + j + "]";
    assert tail[1..] == j + "]";
    assert |tail| >= 2;
  }

  /** The `plugins` output decodes to exactly the reported list. */
  lemma JsonRoundTrip(items: seq<string>)
    ensures DecodeStringList(JsonStringList(items)) == Some(items)
  {
    if |items| > 0 {
      var s := JsonStringList(items);
      JsonItemsDecode(items);
      assert s[1..] == JsonItems(items) + "]";
      assert s[0] == '[';
      assert JsonItems(items)[0] == '"';
    }
  }
}
