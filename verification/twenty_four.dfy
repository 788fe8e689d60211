/** The twenty-four points game (TwentyFourPoints/TwentyFourPoints.py): the
    table of operator triples and the checks an answer `24=<expression>`
    goes through. Drawing numbers, the timer thread and Python's `eval`
    are outside the model; `eval` is a parameter. */
module TwentyFourPoints {
  import opened Basics

  const Operations: seq<char> := ['+', '-', '*', '/']

  /** `ops_list`: every triple of operators, the first varying slowest. */
  const OpsList: seq<seq<char>> := seq(64, i requires 0 <= i < 64 => [Operations[i / 16], Operations[(i / 4) % 4], Operations[i % 4]])

  /** Every triple of operators is in the table, at the place the nested
      loops put it, and no triple is there twice. */
  lemma OpsListComplete(x: nat, y: nat, z: nat)
    requires x < 4 && y < 4 && z < 4
    ensures 16 * x + 4 * y + z < |OpsList|
    ensures OpsList[16 * x + 4 * y + z] == [Operations[x], Operations[y], Operations[z]]
  {
    var i := 16 * x + 4 * y + z;
    assert i / 16 == x;
    assert (i / 4) % 4 == y;
    assert i % 4 == z;
  }

  lemma OpsListDistinct(i: nat, j: nat)
    requires i < j < |OpsList|
    ensures OpsList[i] != OpsList[j]
  {
    assert i == 16 * (i / 16) + 4 * ((i / 4) % 4) + i % 4;
    assert j == 16 * (j / 16) + 4 * ((j / 4) % 4) + j % 4;
    var d := if i / 16 != j / 16 then 0 else if (i / 4) % 4 != (j / 4) % 4 then 1 else 2;
    assert OpsList[i][d] != OpsList[j][d];
  }

  /** The characters an answer may use. */
  predicate IsOperator(c: char)
  {
    c in {'+', '-', '*', '/', '(', ')'}
  }

  predicate Permitted(c: char)
  {
    IsDigit(c) || IsOperator(c)
  }

  /** The length of the leading run of non-operator characters. */
  function RunLength(s: string): (n: nat)
    ensures n <= |s|
    ensures forall i :: 0 <= i < n ==> !IsOperator(s[i])
    ensures n < |s| ==> IsOperator(s[n])
  {
    if |s| == 0 || IsOperator(s[0]) then 0 else 1 + RunLength(s[1..])
  }

  /** `re.split` on the operators with the empty pieces removed: the
      maximal runs between operators. */
  function Numbers(s: string): (r: seq<string>)
    ensures forall i :: 0 <= i < |r| ==> |r[i]| > 0 && forall j :: 0 <= j < |r[i]| ==> !IsOperator(r[i][j])
    ensures (forall i :: 0 <= i < |s| ==> Permitted(s[i])) ==> forall i :: 0 <= i < |r| ==> IsDigits(r[i])
    decreases |s|
  {
    if |s| == 0 then []
    else if IsOperator(s[0]) then Numbers(s[1..])
    else
      var n := RunLength(s);
      assert forall j :: 0 <= j < n ==> s[..n][j] == s[j];
      [s[..n]] + Numbers(s[n..])
  }

  /** An operator separates: what stands on its two sides is read apart. */
  lemma {:induction false} NumbersAppend(a: string, op: char, b: string)
    requires IsOperator(op)
    ensures Numbers(a + [op] + b) == Numbers(a) + Numbers(b)
    decreases |a|
  {
    var s := a + [op] + b;
    if |a| == 0 {
      assert s[1..] == b;
    } else if IsOperator(a[0]) {
      assert s[1..] == a[1..] + [op] + b;
      NumbersAppend(a[1..], op, b);
    } else {
      var n := RunLength(a);
      RunLengthAppend(a, op, b);
      assert s[..n] == a[..n];
      assert s[n..] == a[n..] + [op] + b;
      NumbersAppend(a[n..], op, b);
    }
  }

  lemma {:induction false} RunLengthAppend(a: string, op: char, b: string)
    requires IsOperator(op)
    ensures RunLength(a + [op] + b) == RunLength(a)
    decreases |a|
  {
    if |a| > 0 && !IsOperator(a[0]) {
      assert (a + [op] + b)[1..] == a[1..] + [op] + b;
      RunLengthAppend(a[1..], op, b);
    }
  }

  /** `int(x)` of each number read. */
  function Values(ps: seq<string>): (r: seq<int>)
    requires forall i :: 0 <= i < |ps| ==> IsDigits(ps[i])
    ensures |r| == |ps| && forall i :: 0 <= i < |ps| ==> IsDigits(ps[i]) && r[i] == DigitsValue(ps[i])
  {
    if |ps| == 0 then []
    else
      assert IsDigits(ps[0]);
      [DigitsValue(ps[0])] + Values(ps[1..])
  }

  /** What `eval` makes of an answer: a number, or any exception. */
  datatype Evaluated = Number(value: real) | Raised

  /** The verdicts of `check_answer`. */
  datatype Verdict = Correct | WrongNumbers | NotTwentyFour | Unreadable

  /** `check_answer`: foreign characters first, then the four numbers (a
      sorted comparison, which is equality of multisets), and only then
      the value. */
  function CheckAnswer(expression: string, nums: seq<int>, eval: string -> Evaluated): (r: Verdict)
    ensures (exists i :: 0 <= i < |expression| && !Permitted(expression[i])) ==> r == Unreadable
    ensures r == Correct <==>
      && (forall i :: 0 <= i < |expression| ==> Permitted(expression[i]))
      && |Numbers(expression)| == 4
      && multiset(Values(Numbers(expression))) == multiset(nums)
      && eval(expression) == Number(24.0)
    ensures r == WrongNumbers <==>
      && (forall i :: 0 <= i < |expression| ==> Permitted(expression[i]))
      && (|Numbers(expression)| != 4 || multiset(Values(Numbers(expression))) != multiset(nums))
  {
    if exists i :: 0 <= i < |expression| && !Permitted(expression[i]) then Unreadable
    else if |Numbers(expression)| != 4 then WrongNumbers
    else if multiset(Values(Numbers(expression))) != multiset(nums) then WrongNumbers
    else match eval(expression)
      case Number(v) => if v == 24.0 then Correct else NotTwentyFour
      case Raised => Unreadable
  }

  /** The round: whether a question is open, how many rounds it has been
      open, whether it was answered, and its numbers. */
  datatype Game = Game(askOn: bool, askWait: int, ansCorrect: bool, nums: seq<int>)

  const Prize := 100

  datatype Text = AnsweredRight(player: string) | Reward(amount: int) | UsedWrongNumbers | ResultNot24 | CannotEvaluate

  /** Broadcasts, private messages, and the vault payment. */
  datatype Out = Say(text: Text) | Tell(player: string, text: Text) | Give(player: string, amount: int)

  datatype Step = Step(game: Game, outs: seq<Out>)

  /** `on_user_info`: only a player's `24=` line while a question is open
      is an answer; a right one closes the question and pays the prize. */
  function OnUserInfo(g: Game, isPlayer: bool, player: string, content: string, eval: string -> Evaluated): (r: Step)
    ensures !(g.askOn && isPlayer && StartsWith(content, "24=")) ==> r == Step(g, [])
    ensures (exists i :: 0 <= i < |r.outs| && r.outs[i].Give?) <==>
      g.askOn && isPlayer && StartsWith(content, "24=") && CheckAnswer(content[3..], g.nums, eval) == Correct
    ensures r.game.askOn ==> r.game == g
    ensures r.game.nums == g.nums
  {
    if !(g.askOn && isPlayer && StartsWith(content, "24=")) then Step(g, [])
    else match CheckAnswer(content[3..], g.nums, eval)
      case Correct =>
        var outs := [Say(AnsweredRight(player)), Give(player, Prize), Tell(player, Reward(Prize))];
        assert outs[1].Give?;
        Step(g.(askOn := false, askWait := 0, ansCorrect := true), outs)
      case WrongNumbers => Step(g, [Tell(player, UsedWrongNumbers)])
      case NotTwentyFour => Step(g, [Tell(player, ResultNot24)])
      case Unreadable => Step(g, [Tell(player, CannotEvaluate)])
  }

  /** The prize is paid once per question: after a right answer the next
      line, right or not, pays nothing. */
  lemma PaidOnce(g: Game, p1: string, c1: string, p2: string, c2: string, eval: string -> Evaluated)
    requires Give(p1, Prize) in OnUserInfo(g, true, p1, c1, eval).outs
    ensures OnUserInfo(OnUserInfo(g, true, p1, c1, eval).game, true, p2, c2, eval).outs == []
  {
  }
}
