/** Shared vocabulary: optional values, results, and the few Python string
    operations (ASCII case mapping, `startswith`, `in`, `split`, `join`,
    `replace`, `count`) that the plugins rely on, each written the way
    Python evaluates it. */
module Basics {

  /** Python's `None`-or-value. */
  datatype Option<+T> = None | Some(value: T)

  /** The value of an operation or the exception it raises. */
  datatype Result<+T, +E> = Ok(value: T) | Err(error: E)

  // ---------------------------------------------------------------------
  // Characters (ASCII semantics of `str.isdigit`, `str.lower`, `str.upper`)
  // ---------------------------------------------------------------------

  predicate IsDigit(c: char) { '0' <= c <= '9' }
  predicate IsLower(c: char) { 'a' <= c <= 'z' }
  predicate IsUpper(c: char) { 'A' <= c <= 'Z' }

  function LowerChar(c: char): char
  {
    if IsUpper(c) then (c as int + 32) as char else c
  }

  function UpperChar(c: char): char
  {
    if IsLower(c) then (c as int - 32) as char else c
  }

  function Lower(s: string): (r: string)
    ensures |r| == |s|
    ensures forall i :: 0 <= i < |s| ==> r[i] == LowerChar(s[i])
  {
    if |s| == 0 then "" else [LowerChar(s[0])] + Lower(s[1..])
  }

  function Upper(s: string): (r: string)
    ensures |r| == |s|
    ensures forall i :: 0 <= i < |s| ==> r[i] == UpperChar(s[i])
  {
    if |s| == 0 then "" else [UpperChar(s[0])] + Upper(s[1..])
  }

  /** A string with no ASCII upper-case letter. */
  predicate IsLowerString(s: string)
  {
    forall i :: 0 <= i < |s| ==> !IsUpper(s[i])
  }

  /** Lower-casing works character by character, so it distributes over
      concatenation. */
  lemma LowerConcat(a: string, b: string)
    ensures Lower(a + b) == Lower(a) + Lower(b)
  {
    assert forall i :: 0 <= i < |a + b| ==> Lower(a + b)[i] == (Lower(a) + Lower(b))[i];
  }

  /** Lower-casing yields a lower-case string and leaves one unchanged. */
  lemma LowerIsLower(s: string)
    ensures IsLowerString(Lower(s))
    ensures IsLowerString(s) ==> Lower(s) == s
  {
    if IsLowerString(s) {
      assert forall i :: 0 <= i < |s| ==> Lower(s)[i] == s[i];
    }
  }

  /** Python's `str.isdigit()` restricted to ASCII: non-empty and all digits. */
  predicate IsDigits(s: string)
  {
    |s| > 0 && forall i :: 0 <= i < |s| ==> IsDigit(s[i])
  }

  /** The number a run of decimal digits denotes (`int(s)` for such `s`). */
  function DigitsValue(s: string): (n: nat)
    requires forall i :: 0 <= i < |s| ==> IsDigit(s[i])
    decreases |s|
  {
    if |s| == 0 then 0
    else
      assert IsDigit(s[|s| - 1]);
      10 * DigitsValue(s[..|s| - 1]) + (s[|s| - 1] as int - '0' as int)
  }

  /** Python's `int(s)` on text: an optional sign and a run of decimal
      digits; anything else is a `ValueError`, here `None`. */
  function ParseInt(s: string): (r: Option<int>)
    ensures |s| > 0 && IsDigits(s) ==> r == Some(DigitsValue(s))
    ensures |s| > 0 && s[0] == '-' && IsDigits(s[1..]) ==> r == Some(-(DigitsValue(s[1..]) as int))
    ensures r.Some? ==> IsDigits(s) || (|s| > 0 && (s[0] == '-' || s[0] == '+') && IsDigits(s[1..]))
  {
    if IsDigits(s) then Some(DigitsValue(s))
    else if |s| > 0 && (s[0] == '-' || s[0] == '+') && IsDigits(s[1..]) then
      var v: int := DigitsValue(s[1..]);
      Some(if s[0] == '-' then -v else v)
    else None
  }

  /** `str(n)` for a natural number: its decimal digits. */
  function Str(n: nat): (s: string)
    ensures IsDigits(s)
  {
    if n < 10 then [('0' as int + n) as char] else Str(n / 10) + [('0' as int + n % 10) as char]
  }

  lemma {:induction false} ParseIntStr(n: nat)
    ensures ParseInt(Str(n)) == Some(n)
    ensures DigitsValue(Str(n)) == n
  {
    if n < 10 {
      var s := Str(n);
      assert s[..0] == "";
      assert DigitsValue(s) == DigitsValue(s[..0]) + (s[0] as int - '0' as int);
    } else {
      ParseIntStr(n / 10);
      var s := Str(n);
      assert s[..|s| - 1] == Str(n / 10);
    }
  }

  /** Python's `int(x)` on a float: towards zero. */
  function Trunc(x: real): (t: int)
    ensures 0.0 <= x ==> t as real <= x < t as real + 1.0
    ensures x < 0.0 ==> t as real - 1.0 < x <= t as real
  {
    if x >= 0.0 then x.Floor else -((-x).Floor)
  }

  // ---------------------------------------------------------------------
  // Substrings
  // ---------------------------------------------------------------------

  /** Moving one element across a concatenation. */
  lemma AppendOne<T>(a: seq<T>, x: T, b: seq<T>)
    ensures (a + [x]) + b == a + ([x] + b)
  {
  }

  /** `s.startswith(p)` */
  predicate StartsWith(s: string, p: string)
  {
    |p| <= |s| && s[..|p|] == p
  }

  /** `s.endswith(p)` */
  predicate EndsWith(s: string, p: string)
  {
    |p| <= |s| && s[|s| - |p|..] == p
  }

  /** `sub in s` */
  predicate Contains(s: string, sub: string)
    decreases |s|
  {
    StartsWith(s, sub) || (|s| > 0 && Contains(s[1..], sub))
  }

  /** `s.count(c)` for a single character. */
  function CountChar(s: string, c: char): (n: nat)
    ensures n <= |s|
  {
    if |s| == 0 then 0
    else (if s[0] == c then 1 else 0) + CountChar(s[1..], c)
  }

  /** Counting distributes over concatenation. */
  lemma {:induction false} CountCharAppend(a: string, b: string, c: char)
    ensures CountChar(a + b, c) == CountChar(a, c) + CountChar(b, c)
    decreases |a|
  {
    if |a| == 0 {
      assert a + b == b;
    } else {
      assert (a + b)[1..] == a[1..] + b;
      CountCharAppend(a[1..], b, c);
    }
  }

  /** A character that does not occur is counted zero times. */
  lemma {:induction false} CountCharAbsent(s: string, c: char)
    requires c !in s
    ensures CountChar(s, c) == 0
    decreases |s|
  {
    if |s| > 0 {
      assert s[0] != c;
      assert forall x :: x in s[1..] ==> x in s;
      CountCharAbsent(s[1..], c);
    }
  }

  /** `s.replace(c, '')` for a single character. */
  function RemoveChar(s: string, c: char): (r: string)
    ensures c !in r
    ensures |r| == |s| - CountChar(s, c)
  {
    if |s| == 0 then ""
    else (if s[0] == c then "" else [s[0]]) + RemoveChar(s[1..], c)
  }

  // ---------------------------------------------------------------------
  // split / join / replace
  // ---------------------------------------------------------------------

  /** `s.split(sep)` for a one-character separator: never empty, and the
      pieces hold no separator. */
  function Split(s: string, sep: char): (r: seq<string>)
    ensures |r| >= 1
    ensures forall i :: 0 <= i < |r| ==> sep !in r[i]
    decreases |s|
  {
    if |s| == 0 then [""]
    else if s[0] == sep then [""] + Split(s[1..], sep)
    else
      var rest := Split(s[1..], sep);
      [[s[0]] + rest[0]] + rest[1..]
  }

  /** `sep.join(parts)` for a one-character separator. */
  function Join(parts: seq<string>, sep: char): string
  {
    if |parts| == 0 then ""
    else if |parts| == 1 then parts[0]
    else parts[0] + [sep] + Join(parts[1..], sep)
  }

  /** Splitting and joining again gives back the original string. */
  lemma {:induction false} JoinSplit(s: string, sep: char)
    ensures Join(Split(s, sep), sep) == s
    decreases |s|
  {
    if |s| == 0 {
    } else if s[0] == sep {
      JoinSplit(s[1..], sep);
      assert s == [sep] + s[1..];
    } else {
      JoinSplit(s[1..], sep);
      var rest := Split(s[1..], sep);
      if |rest| == 1 {
        assert s == [s[0]] + rest[0];
      } else {
        assert Join(rest, sep) == rest[0] + [sep] + Join(rest[1..], sep);
        assert s == [s[0]] + s[1..];
      }
    }
  }

  /** A separator-free head joins the first piece of what follows. */
  lemma {:induction false} SplitNoSep(a: string, b: string, sep: char)
    requires sep !in a
    requires |b| == 0 || b[0] == sep
    ensures |b| == 0 ==> Split(a + b, sep) == [a]
    ensures |b| > 0 ==> Split(a + b, sep) == [a] + Split(b[1..], sep)
    decreases |a|
  {
    if |a| == 0 {
      assert a + b == b;
      if |b| > 0 {
        assert Split(b, sep) == [""] + Split(b[1..], sep);
      }
    } else {
      assert (a + b)[1..] == a[1..] + b;
      SplitNoSep(a[1..], b, sep);
      assert a == [a[0]] + a[1..];
    }
  }

  /** `s.replace(pat, rep)`: leftmost, non-overlapping occurrences. */
  function Replace(s: string, pat: string, rep: string): string
    requires |pat| > 0
    decreases |s|
  {
    if |s| < |pat| then s
    else if s[..|pat|] == pat then rep + Replace(s[|pat|..], pat, rep)
    else [s[0]] + Replace(s[1..], pat, rep)
  }

  /** Replacing a pattern that starts with a character `s` lacks changes nothing. */
  lemma {:induction false} ReplaceAbsentHead(s: string, pat: string, rep: string)
    requires |pat| > 0 && pat[0] !in s
    ensures Replace(s, pat, rep) == s
    decreases |s|
  {
    if |s| < |pat| {
    } else {
      assert s[0] != pat[0];
      assert s[..|pat|][0] == s[0];
      ReplaceAbsentHead(s[1..], pat, rep);
      assert s == [s[0]] + s[1..];
    }
  }

  /** A prefix lacking the pattern's first character passes through unchanged. */
  lemma {:induction false} ReplaceSkipPrefix(a: string, b: string, pat: string, rep: string)
    requires |pat| > 0 && pat[0] !in a
    ensures Replace(a + b, pat, rep) == a + Replace(b, pat, rep)
    decreases |a|
  {
    if |a| == 0 {
      assert a + b == b;
    } else {
      var s := a + b;
      assert s[0] == a[0];
      if |s| < |pat| {
        // impossible to match anywhere; still need the shape of the result
        ReplaceAbsentHeadShort(s, pat, rep);
        ReplaceAbsentHeadShort(b, pat, rep);
      } else {
        assert s[..|pat|][0] == a[0];
        assert s[1..] == a[1..] + b;
        ReplaceSkipPrefix(a[1..], b, pat, rep);
        assert a == [a[0]] + a[1..];
      }
    }
  }

  /** A string shorter than the pattern is returned unchanged. */
  lemma ReplaceAbsentHeadShort(s: string, pat: string, rep: string)
    requires |pat| > 0 && |s| < |pat|
    ensures Replace(s, pat, rep) == s
  {
  }

  /** An occurrence of the pattern at the front is replaced. */
  lemma ReplaceAtHead(b: string, pat: string, rep: string)
    requires |pat| > 0
    ensures Replace(pat + b, pat, rep) == rep + Replace(b, pat, rep)
  {
    var s := pat + b;
    assert s[..|pat|] == pat;
    assert s[|pat|..] == b;
  }
}
