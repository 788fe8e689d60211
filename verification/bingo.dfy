/** `!!bingo team [<num>]` of the Bingo plugin (Bingo/bingo/__init__.py):
    the online players, read from the server's `list` answer, are shuffled
    and cut into at most `num` consecutive teams of equal size but the
    last. The shuffle is a parameter: the model takes the shuffled list. */
module Bingo {
  import opened Basics

  const TeamNames: seq<string> := ["§cRed", "§eYellow", "§aGreen", "\U{00A7}3Blue"]

  /** `Integer('num').in_range(1, 4)` and `ctx.get('num', 4)`. */
  datatype CommandError = NumberOutOfRange(value: int)

  function TeamCount(num: Option<int>): (r: Result<nat, CommandError>)
    ensures r.Ok? ==> 1 <= r.value <= |TeamNames|
    ensures num.None? ==> r == Ok(4)
    ensures num.Some? ==> (r.Ok? <==> 1 <= num.value <= 4) && (r.Ok? ==> r.value == num.value)
  {
    match num
    case None => Ok(4)
    case Some(n) => if 1 <= n <= 4 then Ok(n) else Err(NumberOutOfRange(n))
  }

  /** `s.split(sep)` for a separator of any non-empty length. */
  function SplitOn(s: string, sep: string): (r: seq<string>)
    requires |sep| > 0
    ensures |r| >= 1
    decreases |s|
  {
    if SepAt(s, sep, 0) then [""] + SplitOn(s[|sep|..], sep)
    else if |s| == 0 then [""]
    else
      var rest := SplitOn(s[1..], sep);
      [[s[0]] + rest[0]] + rest[1..]
  }

  /** `sep` occurs in `s` at position `i`. */
  predicate SepAt(s: string, sep: string, i: nat)
  {
    i + |sep| <= |s| && s[i..i + |sep|] == sep
  }

  /** `sep` does not start anywhere before position `k` of `s`. */
  predicate NoSepBefore(s: string, sep: string, k: nat)
  {
    forall i: nat :: i < k ==> !SepAt(s, sep, i)
  }

  datatype ListError = IndexError

  /** `rcon_query('list').split(': ')[1].split(', ')`: the text after the
      colon, cut at the commas; an answer without `: ` fails. */
  function PlayerNames(answer: string): (r: Result<seq<string>, ListError>)
    ensures r.Ok? <==> |SplitOn(answer, ": ")| >= 2
    ensures r.Ok? ==> |r.value| >= 1 && r.value == SplitOn(SplitOn(answer, ": ")[1], ", ")
  {
    var parts := SplitOn(answer, ": ");
    if |parts| < 2 then Err(IndexError) else Ok(SplitOn(parts[1], ", "))
  }

  /** `math.ceil(n / d)`: the number of `d`-sized steps that cover `n`. */
  function CeilDiv(n: nat, d: nat): (q: nat)
    requires d > 0
    ensures n > 0 <==> q > 0
    ensures q <= n
    decreases n
  {
    if n == 0 then 0 else if n <= d then 1 else 1 + CeilDiv(n - d, d)
  }

  /** `[l[i:i + size] for i in range(0, len(l), size)]` */
  function Chunks(l: seq<string>, size: nat): (r: seq<seq<string>>)
    requires size > 0
    decreases |l|
  {
    if |l| == 0 then []
    else if |l| <= size then [l]
    else [l[..size]] + Chunks(l[size..], size)
  }

  function Concat(gs: seq<seq<string>>): (r: seq<string>)
  {
    if |gs| == 0 then [] else gs[0] + Concat(gs[1..])
  }

  /** The teams: group size `ceil(n / num)`, then consecutive chunks; there
      are never more of them than team names. */
  function Teams(shuffled: seq<string>, num: nat): (r: seq<seq<string>>)
    requires 1 <= num <= |TeamNames|
    ensures |r| <= num
    ensures Concat(r) == shuffled
    ensures forall i :: 0 <= i < |r| ==> 0 < |r[i]| <= CeilDiv(|shuffled|, num)
    ensures forall i :: 0 <= i < |r| - 1 ==> |r[i]| == CeilDiv(|shuffled|, num)
  {
    if |shuffled| == 0 then []
    else
      var size := CeilDiv(|shuffled|, num);
      ChunksConcat(shuffled, size);
      ChunksSizes(shuffled, size);
      ChunkCount(|shuffled|, num);
      Chunks(shuffled, size)
  }

  /** What the command says: a heading, then one line per team. */
  function TeamLines(shuffled: seq<string>, num: nat): (r: seq<string>)
    requires 1 <= num <= |TeamNames|
    ensures |r| == 1 + |Teams(shuffled, num)|
  {
    var teams := Teams(shuffled, num);
    ["\U{00A7}6§l分组结果如下："] +
    seq(|teams|, i requires 0 <= i < |teams| => TeamNames[i] + ": §r" + JoinComma(teams[i]))
  }

  function JoinComma(names: seq<string>): string
  {
    if |names| == 0 then "" else if |names| == 1 then names[0] else names[0] + ", " + JoinComma(names[1..])
  }

  datatype TeamError = ListFailed(listError: ListError) | BadNumber(numberError: CommandError)

  /** `team`: the team count, the players from the `list` answer, the
      shuffle (a parameter), then the announcement. */
  function Team(answer: string, num: Option<int>, shuffle: seq<string> -> seq<string>): (r: Result<seq<string>, TeamError>)
    ensures TeamCount(num).Err? ==> r == Err(BadNumber(TeamCount(num).error))
    ensures TeamCount(num).Ok? && PlayerNames(answer).Err? ==> r == Err(ListFailed(IndexError))
    ensures TeamCount(num).Ok? && PlayerNames(answer).Ok? ==>
              r == Ok(TeamLines(shuffle(PlayerNames(answer).value), TeamCount(num).value))
  {
    match TeamCount(num)
    case Err(e) => Err(BadNumber(e))
    case Ok(n) =>
      match PlayerNames(answer)
      case Err(e) => Err(ListFailed(e))
      case Ok(names) => Ok(TeamLines(shuffle(names), n))
  }

  /** `!!bingo end`: permission level 2 runs the win function, anyone else
      is refused. */
  function End(permission: int): (r: Result<string, string>)
    ensures r.Ok? <==> permission >= 2
    ensures r.Ok? ==> r.value == "function flytre:win/all"
    ensures r.Err? ==> r.error == "§c权限不足！"
  {
    if permission >= 2 then Ok("function flytre:win/all") else Err("§c权限不足！")
  }

  // ---------------------------------------------------------------------
  // Properties
  // ---------------------------------------------------------------------

  /** Dropping the first character shifts every occurrence by one. */
  lemma SepAtShift(s: string, sep: string, i: nat)
    requires |s| > 0
    ensures SepAt(s[1..], sep, i) <==> SepAt(s, sep, i + 1)
  {
    if i + |sep| <= |s[1..]| {
      assert s[1..][i..i + |sep|] == s[i + 1..i + 1 + |sep|];
    }
  }

  /** A separator occurring first at `k` cuts off the first piece there. */
  lemma {:induction false} SplitOnFirst(s: string, sep: string, k: nat)
    requires |sep| > 0 && SepAt(s, sep, k) && NoSepBefore(s, sep, k)
    ensures SplitOn(s, sep) == [s[..k]] + SplitOn(s[k + |sep|..], sep)
    decreases k
  {
    if k > 0 {
      var t := s[1..];
      SplitOnStep(s, sep);
      SepAtShift(s, sep, k - 1);
      NoSepShift(s, sep, k);
      SplitOnFirst(t, sep, k - 1);
      var rest := SplitOn(t, sep);
      assert rest[0] == t[..k - 1] && rest[1..] == SplitOn(t[k - 1 + |sep|..], sep);
      assert t[k - 1 + |sep|..] == s[k + |sep|..];
      assert [s[0]] + t[..k - 1] == s[..k];
    } else {
      assert s[..0] == "";
    }
  }

  /** A first character that does not start the separator joins the first
      piece of the rest. */
  lemma SplitOnStep(s: string, sep: string)
    requires |sep| > 0 && |s| > 0 && !SepAt(s, sep, 0)
    ensures var rest := SplitOn(s[1..], sep);
            SplitOn(s, sep) == [[s[0]] + rest[0]] + rest[1..]
  {
  }

  lemma NoSepShift(s: string, sep: string, k: nat)
    requires |s| > 0 && k > 0 && NoSepBefore(s, sep, k)
    ensures NoSepBefore(s[1..], sep, k - 1)
  {
    forall i: nat | i < k - 1
      ensures !SepAt(s[1..], sep, i)
    {
      SepAtShift(s, sep, i);
    }
  }

  /** Without the separator the text is one piece. */
  lemma {:induction false} SplitOnNone(s: string, sep: string)
    requires |sep| > 0 && NoSepBefore(s, sep, |s|)
    ensures SplitOn(s, sep) == [s]
    decreases |s|
  {
    if |s| > 0 {
      assert !SepAt(s, sep, 0);
      var t := s[1..];
      NoSepShift(s, sep, |s|);
      SplitOnNone(t, sep);
      assert [s[0]] + t == s;
    }
  }

  /** Together the chunks are the list. */
  lemma {:induction false} ChunksConcat(l: seq<string>, size: nat)
    requires size > 0
    ensures Concat(Chunks(l, size)) == l
    decreases |l|
  {
    if |l| > size {
      ChunksConcat(l[size..], size);
      var rest := Chunks(l[size..], size);
      assert ([l[..size]] + rest)[1..] == rest;
      assert l == l[..size] + l[size..];
    } else if |l| > 0 {
      assert Concat([l]) == l + Concat([]);
    }
  }

  /** There are `ceil(n / size)` chunks, each non-empty and at most `size`
      long, and all but the last exactly `size` long. */
  lemma {:induction false} ChunksSizes(l: seq<string>, size: nat)
    requires size > 0
    ensures |Chunks(l, size)| == CeilDiv(|l|, size)
    ensures forall i :: 0 <= i < |Chunks(l, size)| ==> 0 < |Chunks(l, size)[i]| <= size
    ensures forall i :: 0 <= i < |Chunks(l, size)| - 1 ==> |Chunks(l, size)[i]| == size
    decreases |l|
  {
    if |l| > size {
      ChunksSizes(l[size..], size);
      var rest := Chunks(l[size..], size);
      assert Chunks(l, size) == [l[..size]] + rest;
    }
  }

  /** `ceil(n / d)` steps of `d` cover `n`, one step fewer does not. */
  lemma {:induction false} CeilDivIsCeiling(n: nat, d: nat)
    requires d > 0
    ensures CeilDiv(n, d) * d >= n
    ensures CeilDiv(n, d) == 0 || (CeilDiv(n, d) - 1) * d < n
    decreases n
  {
    if n > d {
      var c := CeilDiv(n - d, d);
      CeilDivIsCeiling(n - d, d);
      assert (c + 1) * d == c * d + d;
      assert c * d == (c - 1) * d + d;
    }
  }

  /** Any `k` steps of `d` that cover `n` are at least `ceil(n / d)`. */
  lemma {:induction false} CeilDivLeast(n: nat, d: nat, k: nat)
    requires d > 0 && k * d >= n
    ensures CeilDiv(n, d) <= k
    decreases n
  {
    if n > d {
      assert (k - 1) * d == k * d - d;
      CeilDivLeast(n - d, d, k - 1);
    }
  }

  /** Cutting `n` players into groups of `ceil(n / num)` gives at most `num`
      groups. */
  lemma ChunkCount(n: nat, num: nat)
    requires n > 0 && num > 0
    ensures CeilDiv(n, CeilDiv(n, num)) <= num
  {
    var size := CeilDiv(n, num);
    CeilDivIsCeiling(n, num);
    assert num * size == size * num;
    CeilDivLeast(n, size, num);
  }

  /** With nobody online the `list` answer ends in `: `, its player list is
      one empty name, and the command announces a single team. */
  lemma NobodyOnlineOneTeam(num: nat)
    requires 1 <= num <= |TeamNames|
    ensures SplitOn("", ", ") == [""]
    ensures Teams([""], num) == [[""]]
    ensures TeamLines([""], num) == ["\U{00A7}6§l分组结果如下：", "§cRed: §r"]
  {
    assert CeilDiv(1, num) == 1;
    assert Chunks([""], 1) == [[""]];
    var teams := Teams([""], num);
    assert teams == [[""]];
    assert JoinComma(teams[0]) == "";
    assert TeamNames[0] + ": §r" + "" == "§cRed: §r";
  }
}
