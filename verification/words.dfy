/** Python's argument-less `str.split()`: the maximal runs of
    non-whitespace characters, in order. */
module Words {
  import opened Basics

  /** The characters `str.isspace` accepts: the ASCII controls tab to
      carriage return and the four separators after them, the space, the
      next-line control, and the Unicode space and line separators. */
  predicate IsSpace(c: char)
  {
    var n := c as int;
    (0x09 <= n <= 0x0D) || (0x1C <= n <= 0x20) || n == 0x85 || n == 0xA0 || n == 0x1680
    || (0x2000 <= n <= 0x200A) || n == 0x2028 || n == 0x2029 || n == 0x202F || n == 0x205F || n == 0x3000
  }

  predicate NoSpace(s: string)
  {
    forall i :: 0 <= i < |s| ==> !IsSpace(s[i])
  }

  predicate AllSpace(s: string)
  {
    forall i :: 0 <= i < |s| ==> IsSpace(s[i])
  }

  /** A word as `split()` returns it: non-empty, without whitespace. */
  predicate IsWord(w: string)
  {
    |w| > 0 && NoSpace(w)
  }

  /** The length of the leading run of non-whitespace characters. */
  function WordLen(s: string): (n: nat)
    ensures n <= |s|
    ensures forall i :: 0 <= i < n ==> !IsSpace(s[i])
    ensures n < |s| ==> IsSpace(s[n])
  {
    if |s| == 0 || IsSpace(s[0]) then 0 else 1 + WordLen(s[1..])
  }

  /** `s.split()` */
  function SplitWords(s: string): (r: seq<string>)
    ensures forall i :: 0 <= i < |r| ==> IsWord(r[i])
    ensures |r| == 0 <==> AllSpace(s)
    decreases |s|
  {
    if |s| == 0 then []
    else if IsSpace(s[0]) then
      var r := SplitWords(s[1..]);
      assert AllSpace(s) <==> AllSpace(s[1..]) by {
        if AllSpace(s[1..]) {
          forall i | 0 <= i < |s| ensures IsSpace(s[i]) {
            if i > 0 { assert s[i] == s[1..][i - 1]; }
          }
        }
      }
      r
    else
      var n := WordLen(s);
      [s[..n]] + SplitWords(s[n..])
  }

  /** The leading word of a word followed by whitespace or nothing is that
      word. */
  lemma {:induction false} WordLenOf(w: string, rest: string)
    requires NoSpace(w)
    requires |rest| == 0 || IsSpace(rest[0])
    ensures WordLen(w + rest) == |w|
    decreases |w|
  {
    if |w| > 0 {
      assert (w + rest)[1..] == w[1..] + rest;
      WordLenOf(w[1..], rest);
    }
  }

  /** A word, then a separating space, then more text: the word comes first. */
  lemma SplitWordsCons(w: string, rest: string)
    requires IsWord(w)
    ensures SplitWords(w + " " + rest) == [w] + SplitWords(rest)
  {
    var s := w + " " + rest;
    WordLenOf(w, " " + rest);
    assert s == w + (" " + rest);
    assert s[..|w|] == w;
    assert s[|w|..] == " " + rest;
    assert (" " + rest)[1..] == rest;
  }

  /** Splitting words joined with single spaces gives back the words. */
  lemma {:induction false} SplitWordsJoin(ws: seq<string>)
    requires forall i :: 0 <= i < |ws| ==> IsWord(ws[i])
    ensures SplitWords(Join(ws, ' ')) == ws
    decreases |ws|
  {
    if |ws| == 1 {
      WordLenOf(ws[0], "");
      assert ws[0] + "" == ws[0];
      assert ws[0][..|ws[0]|] == ws[0];
    } else if |ws| > 1 {
      SplitWordsJoin(ws[1..]);
      SplitWordsCons(ws[0], Join(ws[1..], ' '));
      assert ws[0] + [' '] + Join(ws[1..], ' ') == ws[0] + " " + Join(ws[1..], ' ');
      assert ws == [ws[0]] + ws[1..];
    }
  }

  /** Leading whitespace is skipped. */
  lemma {:induction false} SplitWordsSkipsSpaces(sp: string, s: string)
    requires AllSpace(sp)
    ensures SplitWords(sp + s) == SplitWords(s)
    decreases |sp|
  {
    if |sp| > 0 {
      assert (sp + s)[1..] == sp[1..] + s;
      SplitWordsSkipsSpaces(sp[1..], s);
    } else {
      assert sp + s == s;
    }
  }
}
