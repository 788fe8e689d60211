/** The older chat colouring plugin (ColoredChat/ColoredChat.py): one `&`
    code anywhere turns every `&` of the message into `§`, and only such a
    message shows the history again, from its oldest entry on. The
    history is cut back to its newest 100 entries whenever it grows past
    that. */
module LegacyColoredChat {
  import opened Basics
  import ColoredChat

  const MaxMessages: nat := 100

  /** `msg_length` with `force_refresh` fixed at true. */
  const MsgLength: nat := 100

  /** `re.search(r'&[0-9a-z]', s)` */
  predicate HasCode(s: string)
  {
    exists i :: 0 <= i < |s| - 1 && s[i] == '&' && ColoredChat.CodeChar(s[i + 1])
  }

  /** `s.replace('&', '§')` */
  function ReplaceAmp(s: string): (r: string)
    ensures |r| == |s|
    ensures forall i :: 0 <= i < |s| ==> r[i] == if s[i] == '&' then '§' else s[i]
  {
    if |s| == 0 then "" else [if s[0] == '&' then '§' else s[0]] + ReplaceAmp(s[1..])
  }

  /** `append_msg`: the entry gets a closing `§r`, and the history is cut to
      its newest 100 entries. */
  function Append(history: seq<string>, msg: string): (r: seq<string>)
    ensures |r| <= MaxMessages
    ensures |r| > 0 && r[|r| - 1] == msg + "§r"
    ensures |history| < MaxMessages ==> r == history + [msg + "§r"]
    ensures r == (history + [msg + "§r"])[|history| + 1 - |r|..]
  {
    var l := history + [msg + "§r"];
    if |l| > MaxMessages then l[|l| - MaxMessages..] else l
  }

  /** The broadcast: the first `msg_length` entries, each on a new line. */
  function Broadcast(history: seq<string>): (r: seq<string>)
    ensures |r| == if |history| < MsgLength then |history| else MsgLength
    ensures forall i :: 0 <= i < |r| ==> r[i] == "\n" + history[i]
  {
    var shown := if |history| < MsgLength then history else history[..MsgLength];
    seq(|shown|, i requires 0 <= i < |shown| => "\n" + shown[i])
  }

  datatype Event =
    | PlayerSaid(player: string, content: string)
    | PlayerJoined(player: string)
    | PlayerLeft(player: string)
    | Death(message: string)

  /** An event's new history and what is shown, if anything. */
  function Handle(history: seq<string>, e: Event): (r: (seq<string>, Option<seq<string>>))
    ensures r.1.Some? <==> e.PlayerSaid? && HasCode(e.content)
    ensures e.PlayerSaid? && HasCode(e.content) ==>
              r.0 == Append(history, ColouredLine(e.player, e.content)) && r.1 == Some(Broadcast(r.0))
    ensures e.PlayerSaid? && !HasCode(e.content) ==> r.0 == Append(history, "<" + e.player + "> " + e.content)
    ensures e.PlayerJoined? ==> r.0 == Append(history, "§e" + e.player + " joined the game")
    ensures e.PlayerLeft? ==> r.0 == Append(history, "§e" + e.player + " left the game")
    ensures e.Death? ==> r.0 == Append(history, e.message)
  {
    match e
    case PlayerSaid(p, c) =>
      if HasCode(c) then
        var h := Append(history, ColouredLine(p, c));
        (h, Some(Broadcast(h)))
      else (Append(history, "<" + p + "> " + c), None)
    case PlayerJoined(p) => (Append(history, "§e" + p + " joined the game"), None)
    case PlayerLeft(p) => (Append(history, "§e" + p + " left the game"), None)
    case Death(m) => (Append(history, m), None)
  }

  /** `on_load`: a non-empty history of the previous instance is kept. */
  function Load(previous: Option<seq<string>>): (r: seq<string>)
    ensures previous.Some? && |previous.value| > 0 ==> r == previous.value
    ensures !(previous.Some? && |previous.value| > 0) ==> r == []
  {
    match previous
    case Some(l) => if |l| > 0 then l else []
    case None => []
  }

  // ---------------------------------------------------------------------
  // Properties
  // ---------------------------------------------------------------------

  /** With at most 100 entries the broadcast shows the whole history, and
      its last line is the message just added. */
  lemma BroadcastShowsAll(history: seq<string>, player: string, content: string)
    requires HasCode(content)
    ensures var (h, shown) := Handle(history, PlayerSaid(player, content));
            shown.Some? && |shown.value| == |h| &&
            shown.value[|h| - 1] == "\n" + (ColouredLine(player, content) + "§r")
  {
    var h := Append(history, ColouredLine(player, content));
    assert Handle(history, PlayerSaid(player, content)) == (h, Some(Broadcast(h)));
  }

  /** The entry of a message that holds a code. */
  function ColouredLine(player: string, content: string): string
  {
    "<" + player + "> " + ReplaceAmp(content)
  }

  /** Unlike the newer plugin, every `&` is recoloured once the message holds
      one code, even one at the very end or one with no code after it. */
  lemma EveryAmpRecoloured()
    ensures HasCode("&x& &a")
    ensures ReplaceAmp("&x& &a") == "§x§ §a"
    ensures ColoredChat.Recolor("&a") == "&a"
  {
    assert "&x& &a"[0] == '&' && "&x& &a"[1] == 'x';
    ColoredChat.TrailingCodeKept();
  }

  /** The history is cut back however long it was; the newer plugin only
      ever drops one entry. */
  lemma CutBackFromAnyLength(history: seq<string>, msg: string)
    requires |history| > MaxMessages
    ensures |Append(history, msg)| == MaxMessages
    ensures |ColoredChat.Append(history, msg)| == |history|
  {
  }
}
