/** The ban list of AdvancedBan (AdvancedBan/AdvancedBan.py): permanent and
    timed bans keyed by player name, the duration grammar of `!!tempban`,
    and the check made when a player joins. The clock is a parameter; the
    ban list display and the permission table are not part of this model. */
module AdvancedBan {
  import opened Basics
  import opened Dicts

  // ---------------------------------------------------------------------
  // Durations
  // ---------------------------------------------------------------------

  /** The length of the leading run of digits. */
  function DigitRun(s: string): (n: nat)
    ensures n <= |s|
    ensures forall i :: 0 <= i < n ==> IsDigit(s[i])
    ensures n < |s| ==> !IsDigit(s[n])
  {
    if |s| == 0 || !IsDigit(s[0]) then 0 else 1 + DigitRun(s[1..])
  }

  /** The length of the leading run of lower-case letters, at most three. */
  function LetterRun(s: string): (n: nat)
    ensures n <= |s| && n <= 3
    ensures forall i :: 0 <= i < n ==> IsLower(s[i])
    ensures n < 3 && n < |s| ==> !IsLower(s[n])
  {
    if |s| == 0 || !IsLower(s[0]) then 0
    else if |s| >= 3 && IsLower(s[1]) && IsLower(s[2]) then 3
    else if |s| >= 2 && IsLower(s[1]) then 2
    else 1
  }

  /** A token of `re.findall(r'[0-9]+|[a-z]{1,3}', s)`. */
  predicate IsToken(t: string)
  {
    IsDigits(t) || (1 <= |t| <= 3 && forall i :: 0 <= i < |t| ==> IsLower(t[i]))
  }

  /** `re.findall(r'[0-9]+|[a-z]{1,3}', s)`: maximal digit runs and
      lower-case runs cut into threes; every other character is skipped. */
  function Tokens(s: string): (r: seq<string>)
    decreases |s|
  {
    if |s| == 0 then []
    else if IsDigit(s[0]) then
      var n := DigitRun(s);
      [s[..n]] + Tokens(s[n..])
    else if IsLower(s[0]) then
      var n := LetterRun(s);
      [s[..n]] + Tokens(s[n..])
    else Tokens(s[1..])
  }

  /** Every piece `findall` returns matches the pattern. */
  lemma {:induction false} TokensAreTokens(s: string)
    ensures forall i :: 0 <= i < |Tokens(s)| ==> IsToken(Tokens(s)[i])
    decreases |s|
  {
    if |s| > 0 {
      if IsDigit(s[0]) {
        var n := DigitRun(s);
        TokensAreTokens(s[n..]);
        assert IsDigits(s[..n]);
        assert Tokens(s) == [s[..n]] + Tokens(s[n..]);
      } else if IsLower(s[0]) {
        var n := LetterRun(s);
        TokensAreTokens(s[n..]);
        assert IsToken(s[..n]);
        assert Tokens(s) == [s[..n]] + Tokens(s[n..]);
      } else {
        TokensAreTokens(s[1..]);
      }
    }
  }

  /** Seconds per unit: s, m, h, d, w, mon, y. */
  function UnitSeconds(unit: string): (r: Option<nat>)
    ensures r.Some? <==> unit in {"s", "m", "h", "d", "w", "mon", "y"}
  {
    if unit == "s" then Some(1)
    else if unit == "m" then Some(60)
    else if unit == "h" then Some(60 * 60)
    else if unit == "d" then Some(60 * 60 * 24)
    else if unit == "w" then Some(60 * 60 * 24 * 7)
    else if unit == "mon" then Some(60 * 60 * 24 * 30)
    else if unit == "y" then Some(60 * 60 * 24 * 365)
    else None
  }

  /** Why `calc_time` fails. */
  datatype TimeError = ValueError | IndexError

  /** Pair `k` of a token list is a number followed by a known unit. */
  predicate PairOk(ts: seq<string>, k: int)
  {
    0 <= k && 2 * k + 1 < |ts| && IsDigits(ts[2 * k]) && UnitSeconds(ts[2 * k + 1]).Some?
  }

  /** Every pair of an even token list is well formed exactly when its
      first one is and every pair after it is. */
  lemma {:induction false} PairsOkStep(ts: seq<string>)
    requires |ts| % 2 == 0 && |ts| >= 2
    ensures (forall k :: 0 <= k < |ts| / 2 ==> PairOk(ts, k)) <==>
      PairOk(ts, 0) && (forall j :: 0 <= j < |ts[2..]| / 2 ==> PairOk(ts[2..], j))
  {
    var t := ts[2..];
    assert |t| / 2 == |ts| / 2 - 1;
    forall j | 0 <= j < |t| / 2
      ensures PairOk(t, j) <==> PairOk(ts, j + 1)
    {
      assert t[2 * j] == ts[2 * (j + 1)] && t[2 * j + 1] == ts[2 * (j + 1) + 1];
    }
    if PairOk(ts, 0) && (forall j :: 0 <= j < |t| / 2 ==> PairOk(t, j)) {
      forall k | 0 <= k < |ts| / 2 ensures PairOk(ts, k) {
        if k > 0 { assert PairOk(t, k - 1); }
      }
    }
  }

  /** The loop of `calc_time` over (value, unit) token pairs. A value that is
      not a number fails `int()`, an unknown unit is rejected. */
  function SumPairs(ts: seq<string>): (r: Result<nat, TimeError>)
    requires |ts| % 2 == 0
    ensures r.Err? ==> r.error == ValueError
    ensures r.Ok? <==> forall k :: 0 <= k < |ts| / 2 ==> PairOk(ts, k)
    decreases |ts|
  {
    if |ts| == 0 then Ok(0)
    else if (PairsOkStep(ts); !IsDigits(ts[0]) || UnitSeconds(ts[1]).None?) then Err(ValueError)
    else match SumPairs(ts[2..])
      case Err(e) => Err(e)
      case Ok(rest) => Ok(DigitsValue(ts[0]) * UnitSeconds(ts[1]).value + rest)
  }

  /** `calc_time`: no token at all fails on `time_list[0]` with an
      `IndexError`; a first token that is not a number or an odd number of
      tokens is a `ValueError`. */
  function CalcTime(s: string): (r: Result<nat, TimeError>)
    ensures r == Err(IndexError) <==> Tokens(s) == []
    ensures |Tokens(s)| % 2 != 0 ==> r == Err(ValueError)
    ensures r.Ok? ==> |Tokens(s)| % 2 == 0 && r == SumPairs(Tokens(s))
    ensures Tokens(s) != [] && !IsDigits(Tokens(s)[0]) ==> r == Err(ValueError)
    ensures Tokens(s) != [] && IsDigits(Tokens(s)[0]) && |Tokens(s)| % 2 == 0 ==> r == SumPairs(Tokens(s))
  {
    var ts := Tokens(s);
    if |ts| == 0 then Err(IndexError)
    else if !IsDigits(ts[0]) || |ts| % 2 != 0 then Err(ValueError)
    else SumPairs(ts)
  }

  /** One pair is its number times its unit's seconds. */
  lemma OnePair(v: string, u: string)
    requires IsDigits(v) && UnitSeconds(u).Some?
    ensures SumPairs([v, u]) == Ok(DigitsValue(v) * UnitSeconds(u).value)
  {
  }

  /** Pairs add up: the loop over two runs of pairs is the sum of the two. */
  lemma {:induction false} SumPairsAppend(a: seq<string>, b: seq<string>)
    requires |a| % 2 == 0 && |b| % 2 == 0
    requires SumPairs(a).Ok? && SumPairs(b).Ok?
    ensures SumPairs(a + b) == Ok(SumPairs(a).value + SumPairs(b).value)
    decreases |a|
  {
    if |a| == 0 {
      assert a + b == b;
    } else {
      SumPairsAppend(a[2..], b);
      assert (a + b)[2..] == a[2..] + b;
      assert (a + b)[0] == a[0] && (a + b)[1] == a[1];
    }
  }

  /** Text that does not end in a digit, followed by text that starts
      with one, splits at the seam. */
  lemma {:induction false} TokensAppend(a: string, b: string)
    requires |b| > 0 && IsDigit(b[0])
    requires |a| == 0 || !IsDigit(a[|a| - 1])
    ensures Tokens(a + b) == Tokens(a) + Tokens(b)
    decreases |a|, 1
  {
    if |a| == 0 {
      assert a + b == b;
    } else {
      var s := a + b;
      assert s[0] == a[0];
      if IsDigit(a[0]) {
        var n := DigitRun(a);
        DigitRunPrefix(a, b);
        TokensAppendAt(a, b, n);
      } else if IsLower(a[0]) {
        var n := LetterRun(a);
        LetterRunPrefix(a, b);
        TokensAppendAt(a, b, n);
      } else {
        assert s[1..] == a[1..] + b;
        TokensAppend(a[1..], b);
      }
    }
  }

  /** One step of `TokensAppend`: the first token of `a` is also the first
      of `a + b`. */
  lemma {:induction false} TokensAppendAt(a: string, b: string, n: nat)
    requires |b| > 0 && IsDigit(b[0])
    requires 0 < |a| && !IsDigit(a[|a| - 1])
    requires IsDigit(a[0]) || IsLower(a[0])
    requires n == (if IsDigit(a[0]) then DigitRun(a) else LetterRun(a))
    requires n == (if IsDigit(a[0]) then DigitRun(a + b) else LetterRun(a + b))
    requires 0 < n <= |a|
    ensures Tokens(a + b) == Tokens(a) + Tokens(b)
    decreases |a|, 0
  {
    SliceSeam(a, b, n);
    TokensFirst(a + b, n);
    TokensFirst(a, n);
    TokensAppend(a[n..], b);
  }

  /** Cutting `a + b` inside `a`. */
  lemma SliceSeam(a: string, b: string, n: nat)
    requires 0 < n <= |a|
    ensures (a + b)[0] == a[0] && (a + b)[..n] == a[..n] && (a + b)[n..] == a[n..] + b
  {
  }

  /** `Tokens` takes its first token and goes on after it. */
  lemma TokensFirst(s: string, n: nat)
    requires |s| > 0 && (IsDigit(s[0]) || IsLower(s[0]))
    requires n == (if IsDigit(s[0]) then DigitRun(s) else LetterRun(s))
    ensures Tokens(s) == [s[..n]] + Tokens(s[n..])
  {
  }

  lemma {:induction false} DigitRunPrefix(a: string, b: string)
    requires |a| > 0 && !IsDigit(a[|a| - 1])
    ensures DigitRun(a + b) == DigitRun(a) && DigitRun(a) < |a|
    decreases |a|
  {
    if IsDigit(a[0]) {
      assert (a + b)[1..] == a[1..] + b;
      DigitRunPrefix(a[1..], b);
    }
  }

  lemma LetterRunPrefix(a: string, b: string)
    requires |a| > 0 && IsLower(a[0])
    requires |b| > 0 && IsDigit(b[0])
    ensures LetterRun(a + b) == LetterRun(a)
  {
    var s := a + b;
    assert s[0] == a[0];
    if |a| == 1 {
      assert s[1] == b[0];
    } else if |a| == 2 {
      assert s[1] == a[1];
      assert s[2] == b[0];
    } else {
      assert s[1] == a[1] && s[2] == a[2];
    }
  }

  /** Durations written one after another add up: `calc_time('1d12h')` is
      `calc_time('1d') + calc_time('12h')`. */
  lemma CalcTimeAppend(a: string, b: string)
    requires CalcTime(a).Ok? && CalcTime(b).Ok?
    requires |b| > 0 && IsDigit(b[0])
    requires |a| == 0 || !IsDigit(a[|a| - 1])
    ensures CalcTime(a + b) == Ok(CalcTime(a).value + CalcTime(b).value)
  {
    TokensAppend(a, b);
    SumPairsAppend(Tokens(a), Tokens(b));
    assert Tokens(a + b)[0] == Tokens(a)[0];
  }

  /** `hour` is read as `hou` and `r`, so it is not a unit. */
  lemma HourIsNotAUnit()
    ensures Tokens("hour") == ["hou", "r"]
    ensures CalcTime("1hour") == Err(ValueError)
  {
    assert LetterRun("r") == 1 && "r"[..1] == "r" && "r"[1..] == "";
    assert Tokens("r") == ["r"];
    assert LetterRun("hour") == 3 && "hour"[..3] == "hou" && "hour"[3..] == "r";
    assert Tokens("hour") == ["hou", "r"];
    assert DigitRun("hour") == 0;
    assert DigitRun("1hour") == 1 && "1hour"[..1] == "1" && "1hour"[1..] == "hour";
    assert Tokens("1hour") == ["1", "hou", "r"];
  }

  /** A day and a half. */
  lemma OneDayTwelveHours()
    ensures CalcTime("1d12h") == Ok(129600)
  {
    TokensOneDayTwelveHours();
    SumOneDayTwelveHours();
  }

  lemma SumOneDayTwelveHours()
    ensures SumPairs(["1", "d", "12", "h"]) == Ok(129600)
  {
    var ts := ["1", "d", "12", "h"];
    assert ts[2..] == ["12", "h"];
    TwelveHours();
    assert UnitSeconds("d") == Some(86400);
    assert DigitsValue("1") == 1 && IsDigits("1");
  }

  lemma TwelveHours()
    ensures SumPairs(["12", "h"]) == Ok(43200)
  {
    assert DigitsValue("12") == 12 by { assert "12"[..1] == "1"; }
    assert IsDigits("12");
    assert UnitSeconds("h") == Some(3600);
    assert ["12", "h"][2..] == [];
  }

  lemma TokensOneDayTwelveHours()
    ensures Tokens("1d12h") == ["1", "d", "12", "h"]
  {
    assert LetterRun("h") == 1 && "h"[..1] == "h" && "h"[1..] == "";
    assert Tokens("h") == ["h"];
    assert DigitRun("h") == 0;
    assert DigitRun("2h") == 1;
    assert DigitRun("12h") == 2 && "12h"[..2] == "12" && "12h"[2..] == "h";
    assert Tokens("12h") == ["12", "h"];
    assert LetterRun("d12h") == 1 && "d12h"[..1] == "d" && "d12h"[1..] == "12h";
    assert Tokens("d12h") == ["d", "12", "h"];
    assert DigitRun("d12h") == 0;
    assert DigitRun("1d12h") == 1 && "1d12h"[..1] == "1" && "1d12h"[1..] == "d12h";
  }

  // ---------------------------------------------------------------------
  // Bans
  // ---------------------------------------------------------------------

  /** One ban. `unbanTime == -1` is a permanent ban. */
  datatype Ban = Ban(operator: Option<string>, banTime: int, unbanTime: int, reason: Option<string>)

  type Bans = Dict<Ban>

  /** The texts the commands answer with, by meaning. */
  datatype Text = AlreadyBanned | BannedNow(player: string) | InvalidTime | UnbannedNow(player: string) | NotBanned

  /** Replies to the issuer, console commands, and saving the ban file. */
  datatype Out = Reply(text: Text) | Execute(command: string) | SaveData

  datatype Step = Step(bans: Bans, outs: seq<Out>)

  /** `s.rstrip(' ')` */
  function RStrip(s: string): (r: string)
    ensures |r| <= |s| && r == s[..|r|]
    ensures |r| == 0 || r[|r| - 1] != ' '
    ensures forall i :: |r| <= i < |s| ==> s[i] == ' '
  {
    if |s| == 0 || s[|s| - 1] != ' ' then s
    else RStrip(s[..|s| - 1])
  }

  const KickBanner := "§c你被踢出游戏!"

  /** The console command of `kick(server, player, reason)`: trailing
      blanks are cut, so an empty reason leaves no " 原因:" tail blank. */
  function KickCommand(player: string, reason: Option<string>): (r: string)
    ensures reason.None? ==> r == KickLine(player)
    ensures reason.Some? && |reason.value| > 0 && reason.value[|reason.value| - 1] != ' ' ==>
      r == KickLine(player) + (" 原因: " + reason.value)
    ensures StartsWith(r, KickLine(player))
    ensures |r| == 0 || r[|r| - 1] != ' '
  {
    var tail := if reason.None? then "" else " 原因: " + reason.value;
    var full := KickLine(player) + tail;
    RStripKeeps(KickLine(player), tail);
    RStrip(full)
  }

  /** The kick command without a reason. */
  function KickLine(player: string): (r: string)
    ensures |r| > 0 && r[|r| - 1] != ' '
  {
    "kick " + player + " " + KickBanner
  }

  /** Stripping blanks never reaches into text that ends in something else. */
  lemma {:induction false} RStripKeeps(a: string, b: string)
    requires |a| > 0 && a[|a| - 1] != ' '
    ensures StartsWith(RStrip(a + b), a)
    decreases |b|
  {
    if |b| == 0 {
      assert a + b == a;
    } else if b[|b| - 1] != ' ' {
    } else {
      assert (a + b)[..|a + b| - 1] == a + b[..|b| - 1];
      RStripKeeps(a, b[..|b| - 1]);
    }
  }

  /** How a ban's reason is printed: `None` when there is none. */
  function ReasonText(reason: Option<string>): string
  {
    if reason.None? then "None" else reason.value
  }

  /** The kick message of a ban: the permanent notice with the reason in
      full-width brackets, or the reason and the formatted unban time. */
  function KickReason(b: Ban, formatTime: int -> string): string
  {
    if b.unbanTime == -1 then "永久封禁" + (if b.reason.None? then "" else "（" + b.reason.value + "）")
    else "§c" + ReasonText(b.reason) + ", 解禁时间: " + formatTime(b.unbanTime)
  }

  /** `baned_check` at time `now`: a permanent or still running ban kicks
      the player, an expired one is lifted, and one that ends exactly now
      does nothing. `formatTime` renders an unban time. */
  function BanedCheck(bans: Bans, player: string, now: real, formatTime: int -> string): (r: Step)
    ensures !HasKey(bans, player) ==> r == Step(bans, [])
    ensures HasKey(bans, player) && Get(bans, player).value.unbanTime == -1 ==>
      r == Step(bans, [Execute(KickCommand(player, Some("永久封禁" +
        (if Get(bans, player).value.reason.None? then "" else "（" + Get(bans, player).value.reason.value + "）"))))])
    ensures HasKey(bans, player) && Get(bans, player).value.unbanTime != -1 ==>
      var until := Get(bans, player).value.unbanTime;
      && (until as real > now ==>
            r == Step(bans, [Execute(KickCommand(player, Some("§c" + ReasonText(Get(bans, player).value.reason) + ", 解禁时间: " + formatTime(until))))]))
      && (until as real < now ==> r == Step(Remove(bans, player), [SaveData]))
      && (until as real == now ==> r == Step(bans, []))
  {
    match Get(bans, player)
    case None => Step(bans, [])
    case Some(b) =>
      if b.unbanTime == -1 then
        Step(bans, [Execute(KickCommand(player, Some("永久封禁" + (if b.reason.None? then "" else "（" + b.reason.value + "）"))))])
      else if b.unbanTime as real > now then
        Step(bans, [Execute(KickCommand(player, Some("§c" + ReasonText(b.reason) + ", 解禁时间: " + formatTime(b.unbanTime))))])
      else if b.unbanTime as real < now then Step(Remove(bans, player), [SaveData])
      else Step(bans, [])
  }

  /** The ban is permanent or has not ended before `now`. */
  predicate Active(b: Ban, now: real)
  {
    b.unbanTime == -1 || b.unbanTime as real >= now
  }

  /** The ban is permanent or ends after `now`. */
  predicate Kicks(b: Ban, now: real)
  {
    b.unbanTime == -1 || b.unbanTime as real > now
  }

  /** Recording a new ban: it is saved, the join check runs on it at once,
      and the issuer is told. A ban that has already run out is lifted by
      that check, leaving the list as it was. */
  function Impose(bans: Bans, player: string, entry: Ban, now: real, formatTime: int -> string): (r: Step)
    requires !HasKey(bans, player)
    ensures |r.outs| >= 2 && r.outs[0] == SaveData && r.outs[|r.outs| - 1] == Reply(BannedNow(player))
    ensures Active(entry, now) ==> r.bans == bans + [(player, entry)]
    ensures Kicks(entry, now) ==> r.outs[1] == Execute(KickCommand(player, Some(KickReason(entry, formatTime))))
    ensures !Active(entry, now) ==> r.bans == bans
  {
    PutAbsent(bans, player, entry);
    RemoveAppended(bans, player, entry);
    var check := BanedCheck(Put(bans, player, entry), player, now, formatTime);
    Step(check.bans, [SaveData] + check.outs + [Reply(BannedNow(player))])
  }

  /** `!!ban <player> [reason]`: a permanent ban, refused when the player is
      banned already; the check that follows kicks the player at once. */
  function BanCommand(bans: Bans, player: string, operator: Option<string>, reason: Option<string>, now: real, formatTime: int -> string): (r: Step)
    ensures HasKey(bans, player) ==> r == Step(bans, [Reply(AlreadyBanned)])
    ensures !HasKey(bans, player) ==>
      && r.bans == bans + [(player, Ban(operator, Trunc(now), -1, reason))]
      && |r.outs| >= 2 && r.outs[0] == SaveData && r.outs[|r.outs| - 1] == Reply(BannedNow(player))
      && r.outs[1] == Execute(KickCommand(player, Some("永久封禁" + (if reason.None? then "" else "（" + reason.value + "）"))))
  {
    if HasKey(bans, player) then Step(bans, [Reply(AlreadyBanned)])
    else Impose(bans, player, Ban(operator, Trunc(now), -1, reason), now, formatTime)
  }

  /** `!!tempban` as written: a duration that reads no token at all raises
      `IndexError`, which only the `ValueError` handler was meant to turn
      into "invalid time"; the command then fails with nothing changed. */
  function TempbanAsWritten(bans: Bans, player: string, time: string, operator: Option<string>, reason: Option<string>, now: real, formatTime: int -> string): (r: Result<Step, TimeError>)
    ensures HasKey(bans, player) ==> r == Ok(Step(bans, [Reply(AlreadyBanned)]))
    ensures !HasKey(bans, player) && Tokens(time) == [] ==> r == Err(IndexError)
    ensures !HasKey(bans, player) && CalcTime(time) == Err(ValueError) ==> r == Ok(Step(bans, [Reply(InvalidTime)]))
    ensures !HasKey(bans, player) && CalcTime(time).Ok? ==> r == Ok(Tempban(bans, player, time, operator, reason, now, formatTime))
  {
    if HasKey(bans, player) then Ok(Step(bans, [Reply(AlreadyBanned)]))
    else match CalcTime(time)
      case Err(IndexError) => Err(IndexError)
      case Err(ValueError) => Ok(Step(bans, [Reply(InvalidTime)]))
      case Ok(_) => Ok(Tempban(bans, player, time, operator, reason, now, formatTime))
  }

  /** What imposing a ban ending at `until` leaves: it is saved and
      confirmed; it is stored unless already over; while it runs the player
      is kicked with the reason and the end time, except that an end of -1
      reads as permanent. */
  predicate TempBanned(bans: Bans, player: string, until: int, operator: Option<string>, reason: Option<string>,
                       now: real, formatTime: int -> string, r: Step)
  {
    && |r.outs| >= 2 && r.outs[0] == SaveData && r.outs[|r.outs| - 1] == Reply(BannedNow(player))
    && (until as real >= now ==> r.bans == bans + [(player, Ban(operator, Trunc(now), until, reason))])
    && (until as real > now && until != -1 ==>
          r.outs[1] == Execute(KickCommand(player, Some("§c" + ReasonText(reason) + ", 解禁时间: " + formatTime(until)))))
    && (until == -1 ==>
          r.outs[1] == Execute(KickCommand(player, Some("永久封禁" + (if reason.None? then "" else "（" + reason.value + "）")))))
    && (until as real < now ==> r.bans == bans)
  }

  /** `!!tempban <player> <time> [reason]`, with every unreadable duration
      answered as invalid: the ban ends `calc_time(time)` seconds after
      the whole second it starts in. */
  function Tempban(bans: Bans, player: string, time: string, operator: Option<string>, reason: Option<string>, now: real, formatTime: int -> string): (r: Step)
    ensures HasKey(bans, player) ==> r == Step(bans, [Reply(AlreadyBanned)])
    ensures !HasKey(bans, player) && CalcTime(time).Err? ==> r == Step(bans, [Reply(InvalidTime)])
    ensures !HasKey(bans, player) && CalcTime(time).Ok? ==>
      TempBanned(bans, player, Trunc(now) + CalcTime(time).value, operator, reason, now, formatTime, r)
  {
    if HasKey(bans, player) then Step(bans, [Reply(AlreadyBanned)])
    else if CalcTime(time).Err? then Step(bans, [Reply(InvalidTime)])
    else ImposeFor(bans, player, CalcTime(time).value, operator, reason, now, formatTime)
  }

  /** A temporary ban of `seconds` from the whole second it starts in. */
  function ImposeFor(bans: Bans, player: string, seconds: nat, operator: Option<string>, reason: Option<string>, now: real, formatTime: int -> string): (r: Step)
    requires !HasKey(bans, player)
    ensures TempBanned(bans, player, Trunc(now) + seconds, operator, reason, now, formatTime, r)
  {
    NeverPermanent(now, seconds);
    var entry := Ban(operator, Trunc(now), Trunc(now) + seconds, reason);
    var r := ImposeUntil(bans, player, entry, now, formatTime);
    TempBannedBy(bans, player, entry, now, formatTime, r);
    r
  }

  /** A new ban that is not marked permanent while already over, in terms
      of its end. */
  function ImposeUntil(bans: Bans, player: string, entry: Ban, now: real, formatTime: int -> string): (r: Step)
    requires !HasKey(bans, player)
    requires entry.unbanTime == -1 ==> entry.unbanTime as real >= now
    ensures |r.outs| >= 2 && r.outs[0] == SaveData && r.outs[|r.outs| - 1] == Reply(BannedNow(player))
    ensures entry.unbanTime as real >= now ==> r.bans == bans + [(player, entry)]
    ensures Kicks(entry, now) ==> r.outs[1] == Execute(KickCommand(player, Some(KickReason(entry, formatTime))))
    ensures entry.unbanTime as real < now ==> r.bans == bans
  {
    assert Active(entry, now) <==> entry.unbanTime as real >= now;
    Impose(bans, player, entry, now, formatTime)
  }

  /** ImposeUntil's outcome for a ban from the current whole second, in the
      terms of TempBanned. */
  lemma TempBannedBy(bans: Bans, player: string, entry: Ban, now: real, formatTime: int -> string, r: Step)
        requires |r.outs| >= 2 && r.outs[0] == SaveData && r.outs[|r.outs| - 1] == Reply(BannedNow(player))
    requires entry.unbanTime as real >= now ==> r.bans == bans + [(player, entry)]
    requires Kicks(entry, now) ==> r.outs[1] == Execute(KickCommand(player, Some(KickReason(entry, formatTime))))
    requires entry.unbanTime as real < now ==> r.bans == bans
    ensures entry.banTime == Trunc(now) ==>
      TempBanned(bans, player, entry.unbanTime, entry.operator, entry.reason, now, formatTime, r)
  {
  }

  /** A ban that starts now cannot end at -1, the mark of a permanent ban,
      unless that is still ahead of `now`. */
  lemma NeverPermanent(now: real, seconds: nat)
    ensures var until := Trunc(now) + seconds;
            until == -1 ==> until as real >= now
  {
  }

  /** Lifting a ban just added gives back the list from before. */
  lemma {:induction false} RemoveAppended(d: Bans, k: string, v: Ban)
    requires !HasKey(d, k)
    ensures Remove(d + [(k, v)], k) == d
  {
    if |d| == 0 {
      assert [(k, v)][1..] == [];
    } else {
      var e := d + [(k, v)];
      assert Keys(d) == [d[0].0] + Keys(d[1..]);
      assert d[0].0 != k && !HasKey(d[1..], k);
      assert e[0] == d[0] && e[1..] == d[1..] + [(k, v)];
      RemoveAppended(d[1..], k, v);
      assert Remove(e, k) == [d[0]] + Remove(e[1..], k);
      assert d == [d[0]] + d[1..];
    }
  }

  /** A duration with no number or unit in it, such as `XYZ`, escapes the
      handler as written, and is answered as invalid once corrected. */
  lemma TempbanAsWrittenDiffers(bans: Bans, player: string, operator: Option<string>, reason: Option<string>, now: real, formatTime: int -> string)
    requires !HasKey(bans, player)
    ensures TempbanAsWritten(bans, player, "XYZ", operator, reason, now, formatTime) == Err(IndexError)
    ensures Tempban(bans, player, "XYZ", operator, reason, now, formatTime) == Step(bans, [Reply(InvalidTime)])
  {
    assert Tokens("XYZ") == Tokens("YZ") == Tokens("Z") == [] by {
      assert "XYZ"[1..] == "YZ" && "YZ"[1..] == "Z";
    }
  }

  /** `!!unban <player>` removes exactly that player's ban. */
  function Unban(bans: Bans, player: string): (r: Step)
    ensures !HasKey(r.bans, player)
    ensures !HasKey(bans, player) ==> r == Step(bans, [Reply(NotBanned)])
    ensures HasKey(bans, player) ==> r.outs == [Reply(UnbannedNow(player)), SaveData]
    ensures forall other :: other != player ==> Get(r.bans, other) == Get(bans, other)
  {
    forall other | other != player ensures Get(Remove(bans, player), other) == Get(bans, other) {
      GetRemoveOther(bans, player, other);
    }
    if HasKey(bans, player) then Step(Remove(bans, player), [Reply(UnbannedNow(player)), SaveData])
    else Step(bans, [Reply(NotBanned)])
  }

  /** `!!kick <player> [reason]` */
  function Kick(player: string, reason: Option<string>): (r: seq<Out>)
    ensures r == [Execute(KickCommand(player, reason))]
  {
    [Execute(KickCommand(player, reason))]
  }
}
