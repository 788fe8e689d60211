/** The chat colouring plugin (ColoredChat/colored_chat/__init__.py): player
    messages have `&` colour codes turned into `§` codes, every message is
    kept in a history of at most 100 entries, and after each one the
    newest entries are shown again. Translated join and leave texts are
    parameters; the rich-text broadcast is the list of lines it shows. */
module ColoredChat {
  import opened Basics

  const MaxMessages: nat := 100

  /** `[0-9a-z]` */
  predicate CodeChar(c: char)
  {
    '0' <= c <= '9' || 'a' <= c <= 'z'
  }

  /** The pattern `&([0-9a-z].)` matches at `i`; `.` is any character but a
      newline. */
  predicate CodeAt(s: string, i: int)
  {
    0 <= i && i + 2 < |s| && s[i] == '&' && CodeChar(s[i + 1]) && s[i + 2] != '\n'
  }

  /** `re.sub(r'&([0-9a-z].)', r'§\1', s)`: scanning from the left, each match
      has its `&` replaced and the scan resumes after the match's three
      characters. */
  function Recolor(s: string): (r: string)
    ensures |r| == |s|
    ensures forall i :: 0 <= i < |s| && r[i] != s[i] ==> CodeAt(s, i) && r[i] == '§'
    ensures forall i :: 0 <= i < |s| && !CodeAt(s, i) ==> r[i] == s[i]
    ensures forall i :: 0 <= i < |s| && CodeAt(s, i) && r[i] == s[i] ==> 2 <= i && r[i - 2] != s[i - 2]
    decreases |s|
  {
    if |s| == 0 then ""
    else if CodeAt(s, 0) then
      var rest := Recolor(s[3..]);
      assert forall i :: 3 <= i < |s| ==> (CodeAt(s, i) <==> CodeAt(s[3..], i - 3));
      var r := "§" + s[1..3] + rest;
      assert forall i :: 3 <= i < |s| ==> r[i] == rest[i - 3] && s[i] == s[3..][i - 3];
      assert !CodeAt(s, 1);
      r
    else
      var rest := Recolor(s[1..]);
      assert forall i :: 1 <= i < |s| ==> (CodeAt(s, i) <==> CodeAt(s[1..], i - 1));
      var r := [s[0]] + rest;
      assert forall i :: 1 <= i < |s| ==> r[i] == rest[i - 1] && s[i] == s[1..][i - 1];
      r
  }

  /** `append_msg`: the entry gets a leading newline and a closing `§r`,
      and the oldest entry is dropped once there are more than 100. */
  function Append(history: seq<string>, msg: string): (r: seq<string>)
    ensures |history| < MaxMessages ==> r == history + ["\n" + msg + "§r"]
    ensures |history| >= MaxMessages ==> r == history[1..] + ["\n" + msg + "§r"]
    ensures |history| <= MaxMessages ==> |r| <= MaxMessages
  {
    var l := history + ["\n" + msg + "§r"];
    if |l| > MaxMessages then l[1..] else l
  }

  /** Python's `l[-k:]` for `k > 0`. */
  function Last(l: seq<string>, k: nat): (r: seq<string>)
    requires k > 0
    ensures |r| == if |l| < k then |l| else k
    ensures r == l[|l| - |r|..]
  {
    if k >= |l| then l else l[|l| - k..]
  }

  /** `refresh`: the last 100 entries with `force_refresh`, else the last 10. */
  function Refresh(history: seq<string>, forceRefresh: bool): (r: seq<string>)
    ensures |history| > 0 ==> |r| > 0 && r[|r| - 1] == history[|history| - 1]
    ensures |history| <= MaxMessages && forceRefresh ==> r == history
    ensures !forceRefresh ==> |r| <= 10
  {
    Last(history, if forceRefresh then MaxMessages else 10)
  }

  /** The events the plugin handles; `text` is the translated join or leave
      message. */
  datatype Event = PlayerSaid(player: string, content: string) | PlayerJoined(text: string) | PlayerLeft(text: string)

  /** The entry an event adds. */
  function EntryOf(e: Event): string
  {
    match e
    case PlayerSaid(p, c) => "<" + p + "> " + Recolor(c)
    case PlayerJoined(t) => t
    case PlayerLeft(t) => t
  }

  /** Every event adds its entry and then shows the window, which ends
      with that entry; with `force_refresh` a bounded history is shown whole. */
  function Handle(history: seq<string>, e: Event, forceRefresh: bool): (r: (seq<string>, seq<string>))
    ensures |r.1| > 0 && r.1[|r.1| - 1] == "\n" + EntryOf(e) + "§r"
    ensures |history| <= MaxMessages ==> |r.0| <= MaxMessages && (forceRefresh ==> r.1 == r.0)
    ensures |history| < MaxMessages ==> r.0 == history + ["\n" + EntryOf(e) + "§r"]
  {
    var h := Append(history, EntryOf(e));
    (h, Refresh(h, forceRefresh))
  }

  /** `on_load`: a non-empty history of the previous instance is kept. */
  function Load(previous: Option<seq<string>>): (r: seq<string>)
    ensures previous.Some? && |previous.value| > 0 ==> r == previous.value
    ensures !(previous.Some? && |previous.value| > 0) ==> r == []
  {
    match previous
    case Some(l) => if |l| > 0 then l else []
    case None => []
  }

  function HandleAll(history: seq<string>, es: seq<Event>, forceRefresh: bool): seq<string>
    decreases |es|
  {
    if |es| == 0 then history else HandleAll(Append(history, EntryOf(es[0])), es[1..], forceRefresh)
  }

  // ---------------------------------------------------------------------
  // Properties
  // ---------------------------------------------------------------------

  /** From a history of at most 100 entries, whatever events follow, the
      history never holds more than 100. */
  lemma {:induction false} HistoryBounded(history: seq<string>, es: seq<Event>, forceRefresh: bool)
    requires |history| <= MaxMessages
    ensures |HandleAll(history, es, forceRefresh)| <= MaxMessages
    decreases |es|
  {
    if |es| > 0 {
      HistoryBounded(Append(history, EntryOf(es[0])), es[1..], forceRefresh);
    }
  }

  /** After any non-empty run of events the newest entry is the last
      event's. */
  lemma {:induction false} NewestLast(history: seq<string>, es: seq<Event>, forceRefresh: bool)
    requires |es| > 0
    ensures var h := HandleAll(history, es, forceRefresh);
            |h| > 0 && h[|h| - 1] == "\n" + EntryOf(es[|es| - 1]) + "§r"
    decreases |es|
  {
    var h := Append(history, EntryOf(es[0]));
    assert h[|h| - 1] == "\n" + EntryOf(es[0]) + "§r";
    if |es| > 1 {
      NewestLast(h, es[1..], forceRefresh);
      assert es[1..][|es[1..]| - 1] == es[|es| - 1];
    }
  }

  /** A code needs a character after it: `&a` at the very end stays as it
      is, while `&a!` is recoloured. */
  lemma TrailingCodeKept()
    ensures Recolor("&a") == "&a"
    ensures Recolor("&a!") == "§a!"
  {
    assert !CodeAt("&a", 0);
    assert CodeAt("&a!", 0);
  }

  /** Matches do not overlap: in `&a&b!` the pattern also matches at the
      second `&`, but that `&` is part of the first match, so it is not
      recoloured. */
  lemma OverlapNotRecoloured()
    ensures CodeAt("&a&b!", 2)
    ensures Recolor("&a&b!") == "§a&b!"
  {
    assert CodeAt("&a&b!", 0);
    assert "&a&b!"[3..] == "b!";
    assert "&a&b!"[1..3] == "a&";
    assert !CodeAt("b!", 0) && "b!"[1..] == "!";
  }
}
