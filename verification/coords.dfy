/** The coordinate-string validators of the gamemode plugins
    (`is_coord_valid` in src/gamemode/gamemode/__init__.py and `coordValid`
    in gamemode/gamemode/__init__.py), and the decimal numerals they are
    meant to accept. Only ASCII digits are modelled. */
module Coords {
  import opened Basics

  /** Every character is a digit; the empty string qualifies. */
  predicate AllDigits(s: string)
  {
    forall i :: 0 <= i < |s| ==> IsDigit(s[i])
  }

  /** Digits with at most one `.` that has digits after it; a leading `.`
      only when `bareDot` holds. */
  predicate Unsigned(t: string, bareDot: bool)
  {
    IsDigits(t) ||
    exists i :: 0 <= i < |t| - 1 && t[i] == '.' && AllDigits(t[..i]) && IsDigits(t[i + 1..]) && (i > 0 || bareDot)
  }

  /** The strings Python's `float` reads among those made of digits, `-`
      and `.`, less the leading and trailing `.` forms both validators
      deliberately refuse: `5`, `-5`, `5.25`, `-.5`. */
  predicate Numeral(s: string)
  {
    Unsigned(s, false) || (|s| > 0 && s[0] == '-' && Unsigned(s[1..], true))
  }

  /** `is_coord_valid` as written: `-` is only checked to be at the front
      when present, never counted. */
  predicate IsCoordValid(s: string)
  {
    s == "~" ||
    (!(StartsWith(s, ".") || EndsWith(s, ".") || CountChar(s, '.') > 1 ||
       (CountChar(s, '-') >= 1 && !StartsWith(s, "-")))
     && IsDigits(RemoveChar(RemoveChar(s, '-'), '.')))
  }

  /** `coordValid` as written: `-` is counted but its place is not checked. */
  predicate LegacyCoordValid(s: string)
  {
    !(CountChar(s, '-') > 1 || CountChar(s, '.') > 1 || StartsWith(s, ".") || EndsWith(s, "."))
    && IsDigits(RemoveChar(RemoveChar(s, '-'), '.'))
  }

  /** `is_coord_valid` with the one missing check: a second `-` refuses. */
  predicate IsCoordValidFixed(s: string)
  {
    s == "~" ||
    (!(StartsWith(s, ".") || EndsWith(s, ".") || CountChar(s, '.') > 1 ||
       (CountChar(s, '-') >= 1 && !StartsWith(s, "-")) || CountChar(s, '-') > 1)
     && IsDigits(RemoveChar(RemoveChar(s, '-'), '.')))
  }

  /** `coordValid` with the one missing check: a `-` must come first. */
  predicate LegacyCoordValidFixed(s: string)
  {
    !(CountChar(s, '-') > 1 || CountChar(s, '.') > 1 || StartsWith(s, ".") || EndsWith(s, ".") ||
      (CountChar(s, '-') == 1 && !StartsWith(s, "-")))
    && IsDigits(RemoveChar(RemoveChar(s, '-'), '.'))
  }

  // ---------------------------------------------------------------------
  // count / replace over concatenation
  // ---------------------------------------------------------------------

  lemma {:induction false} CountConcat(a: string, b: string, c: char)
    ensures CountChar(a + b, c) == CountChar(a, c) + CountChar(b, c)
    ensures RemoveChar(a + b, c) == RemoveChar(a, c) + RemoveChar(b, c)
    decreases |a|
  {
    if |a| == 0 {
      assert a + b == b;
    } else {
      assert (a + b)[1..] == a[1..] + b;
      CountConcat(a[1..], b, c);
    }
  }

  lemma {:induction false} CountAbsent(s: string, c: char)
    requires c !in s
    ensures CountChar(s, c) == 0 && RemoveChar(s, c) == s
    decreases |s|
  {
    if |s| > 0 {
      assert s[1..] == s[1..];
      assert c !in s[1..] by {
        forall i | 0 <= i < |s[1..]| ensures s[1..][i] != c {
          assert s[1..][i] == s[i + 1];
        }
      }
      CountAbsent(s[1..], c);
      assert s == [s[0]] + s[1..];
    }
  }

  lemma {:induction false} CountZero(s: string, c: char)
    requires CountChar(s, c) == 0
    ensures c !in s
    decreases |s|
  {
    if |s| > 0 {
      CountZero(s[1..], c);
      assert s == [s[0]] + s[1..];
    }
  }

  /** A character that occurs exactly once splits the string around it. */
  lemma {:induction false} CountOne(s: string, c: char) returns (i: nat)
    requires CountChar(s, c) == 1
    ensures i < |s| && s[i] == c && c !in s[..i] && c !in s[i + 1..]
    decreases |s|
  {
    if s[0] == c {
      i := 0;
      CountZero(s[1..], c);
    } else {
      var j := CountOne(s[1..], c);
      i := j + 1;
      assert s[..i] == [s[0]] + s[1..][..j];
      assert s[i + 1..] == s[1..][j + 1..];
    }
  }

  lemma SingleChar(c: char, d: char)
    ensures CountChar([c], d) == (if c == d then 1 else 0)
    ensures RemoveChar([c], d) == (if c == d then "" else [c])
  {
    assert [c][1..] == "";
  }

  lemma EndsStartsChar(s: string, c: char)
    ensures EndsWith(s, [c]) <==> |s| > 0 && s[|s| - 1] == c
    ensures StartsWith(s, [c]) <==> |s| > 0 && s[0] == c
  {
    if |s| > 0 {
      assert s[|s| - 1..] == [s[|s| - 1]];
      assert s[..1] == [s[0]];
    }
  }

  lemma DigitsHaveNo(s: string, c: char)
    requires AllDigits(s) && !IsDigit(c)
    ensures c !in s
  {
  }

  // ---------------------------------------------------------------------
  // the validators against the numerals
  // ---------------------------------------------------------------------

  /** A run of digits has neither `-` nor `.`. */
  lemma DigitsFacts(t: string)
    requires AllDigits(t)
    ensures '-' !in t && '.' !in t
    ensures CountChar(t, '.') == 0 && RemoveChar(t, '.') == t
  {
    DigitsHaveNo(t, '-');
    DigitsHaveNo(t, '.');
    CountAbsent(t, '.');
  }

  /** Two digit runs around one `.`: no `-`, one `.`, and the runs joined
      once the `.` is removed. */
  lemma DottedFacts(a: string, b: string)
    requires AllDigits(a) && AllDigits(b)
    ensures '-' !in a + "." + b
    ensures CountChar(a + "." + b, '.') == 1
    ensures RemoveChar(a + "." + b, '.') == a + b
  {
    DigitsFacts(a);
    DigitsFacts(b);
    var d := "." + b;
    assert a + "." + b == a + d;
    assert CountChar(d, '.') == 1 && RemoveChar(d, '.') == b by {
      CountConcat(".", b, '.');
      SingleChar('.', '.');
      assert "" + b == b;
    }
    assert '-' !in d;
    CountConcat(a, d, '.');
  }

  /** An unsigned numeral has no `-`, at most one `.`, and strips to digits. */
  lemma UnsignedShape(t: string, bareDot: bool)
    requires Unsigned(t, bareDot)
    ensures '-' !in t && CountChar(t, '.') <= 1 && !EndsWith(t, ".")
    ensures !bareDot ==> !StartsWith(t, ".")
    ensures IsDigits(RemoveChar(t, '.'))
  {
    if IsDigits(t) {
      DigitsShape(t);
    } else {
      var i :| 0 <= i < |t| - 1 && t[i] == '.' && AllDigits(t[..i]) && IsDigits(t[i + 1..]) && (i > 0 || bareDot);
      DottedShape(t, i, bareDot);
    }
  }

  lemma DigitsShape(t: string)
    requires IsDigits(t)
    ensures '-' !in t && CountChar(t, '.') == 0 && !EndsWith(t, ".") && !StartsWith(t, ".")
    ensures RemoveChar(t, '.') == t
  {
    DigitsFacts(t);
    EndsStartsChar(t, '.');
  }

  lemma DottedShape(t: string, i: int, bareDot: bool)
    requires 0 <= i < |t| - 1 && t[i] == '.' && AllDigits(t[..i]) && IsDigits(t[i + 1..]) && (i > 0 || bareDot)
    ensures '-' !in t && CountChar(t, '.') == 1 && !EndsWith(t, ".")
    ensures !bareDot ==> !StartsWith(t, ".")
    ensures IsDigits(RemoveChar(t, '.'))
  {
    DottedCounts(t, i);
    EndsStartsChar(t, '.');
    assert t[|t| - 1] == t[i + 1..][|t| - i - 2];
    if !bareDot {
      assert t[0] == t[..i][0];
    }
  }

  lemma DottedCounts(t: string, i: int)
    requires 0 <= i < |t| - 1 && t[i] == '.' && AllDigits(t[..i]) && IsDigits(t[i + 1..])
    ensures '-' !in t && CountChar(t, '.') == 1
    ensures IsDigits(RemoveChar(t, '.'))
  {
    var a, b := t[..i], t[i + 1..];
    assert t == a + "." + b;
    DottedFacts(a, b);
    JoinDigits(a, b);
  }

  lemma JoinDigits(a: string, b: string)
    requires AllDigits(a) && IsDigits(b)
    ensures IsDigits(a + b)
  {
    assert forall k :: 0 <= k < |a| ==> (a + b)[k] == a[k];
    assert forall k :: 0 <= k < |b| ==> (a + b)[|a| + k] == b[k];
  }

  lemma SplitDigits(a: string, b: string)
    requires IsDigits(a + b)
    ensures AllDigits(a) && AllDigits(b)
  {
    assert forall k :: 0 <= k < |a| ==> (a + b)[k] == a[k];
    assert forall k :: 0 <= k < |b| ==> (a + b)[|a| + k] == b[k];
  }

  /** A numeral passes the repaired `is_coord_valid`. */
  lemma NumeralIsCoordValidFixed(s: string)
    requires Numeral(s)
    ensures IsCoordValidFixed(s)
  {
    if Unsigned(s, false) {
      UnsignedShape(s, false);
      CountAbsent(s, '-');
    } else {
      var t := s[1..];
      assert s == "-" + t;
      UnsignedShape(t, true);
      CountAbsent(t, '-');
      CountConcat("-", t, '-');
      CountConcat("-", t, '.');
      SingleChar('-', '-');
      SingleChar('-', '.');
      assert RemoveChar(s, '-') == t;
      if |t| > 0 {
        assert s[|s| - 1..] == t[|t| - 1..];
      }
    }
  }

  /** With at most one `.` that is neither first nor last, and digits left
      once it is removed, a `-`-free string is an unsigned numeral. */
  lemma StripsToUnsigned(t: string, bareDot: bool)
    requires CountChar(t, '.') <= 1 && !EndsWith(t, ".")
    requires !bareDot ==> !StartsWith(t, ".")
    requires IsDigits(RemoveChar(t, '.'))
    ensures Unsigned(t, bareDot)
  {
    if CountChar(t, '.') == 0 {
      CountZero(t, '.');
      CountAbsent(t, '.');
    } else {
      var i := CountOne(t, '.');
      StripsAroundDot(t, i, bareDot);
    }
  }

  lemma StripsAroundDot(t: string, i: nat, bareDot: bool)
    requires i < |t| && t[i] == '.' && '.' !in t[..i] && '.' !in t[i + 1..]
    requires !EndsWith(t, ".")
    requires !bareDot ==> !StartsWith(t, ".")
    requires IsDigits(RemoveChar(t, '.'))
    ensures 0 <= i < |t| - 1 && AllDigits(t[..i]) && IsDigits(t[i + 1..]) && (i > 0 || bareDot)
  {
    EndsStartsChar(t, '.');
    StripsAroundDotDigits(t, i);
    assert i != |t| - 1;
  }

  lemma StripsAroundDotDigits(t: string, i: nat)
    requires i < |t| && t[i] == '.' && '.' !in t[..i] && '.' !in t[i + 1..]
    requires IsDigits(RemoveChar(t, '.'))
    ensures AllDigits(t[..i]) && AllDigits(t[i + 1..])
  {
    var a, b := t[..i], t[i + 1..];
    assert t == a + "." + b;
    RemoveAround(a, b, '.');
    SplitDigits(a, b);
  }

  /** Removing the one occurrence of a character joins its two sides. */
  lemma RemoveAround(a: string, b: string, c: char)
    requires c !in a && c !in b
    ensures RemoveChar(a + [c] + b, c) == a + b
  {
    var d := [c] + b;
    CountConcat([c], b, c);
    SingleChar(c, c);
    CountAbsent(b, c);
    assert RemoveChar(d, c) == b by {
      assert RemoveChar(d, c) == "" + b;
    }
    assert a + [c] + b == a + d;
    CountConcat(a, d, c);
    CountAbsent(a, c);
  }

  /** What the repaired `is_coord_valid` accepts besides `~` is a numeral. */
  lemma CoordValidFixedIsNumeral(s: string)
    requires IsCoordValidFixed(s) && s != "~"
    ensures Numeral(s)
  {
    if StartsWith(s, "-") {
      var t := s[1..];
      assert s == "-" + t;
      CountConcat("-", t, '-');
      CountConcat("-", t, '.');
      SingleChar('-', '-');
      SingleChar('-', '.');
      CountZero(t, '-');
      CountAbsent(t, '-');
      assert RemoveChar(s, '-') == t;
      assert s[|s| - 1..] == t[|t| - 1..];
      StripsToUnsigned(t, true);
    } else {
      CountZero(s, '-');
      CountAbsent(s, '-');
      StripsToUnsigned(s, false);
    }
  }

  /** The repaired validator accepts exactly `~` and the numerals. */
  lemma CoordValidFixedExact(s: string)
    ensures IsCoordValidFixed(s) <==> s == "~" || Numeral(s)
  {
    if IsCoordValidFixed(s) && s != "~" {
      CoordValidFixedIsNumeral(s);
    }
    if Numeral(s) {
      NumeralIsCoordValidFixed(s);
    }
  }

  /** The repaired `coordValid` accepts exactly the numerals. */
  lemma LegacyCoordValidFixedExact(s: string)
    ensures LegacyCoordValidFixed(s) <==> Numeral(s)
  {
    assert !Numeral("~") by {
      assert !IsDigits("~");
    }
    if LegacyCoordValidFixed(s) {
      assert s != "~" by {
        assert RemoveChar(RemoveChar("~", '-'), '.') == "~";
      }
      assert IsCoordValidFixed(s);
      CoordValidFixedIsNumeral(s);
    }
    if Numeral(s) {
      NumeralIsCoordValidFixed(s);
    }
  }

  /** Both validators as written accept every numeral: the defect is only
      ever an extra acceptance. */
  lemma NumeralsAccepted(s: string)
    requires Numeral(s)
    ensures IsCoordValid(s) && LegacyCoordValid(s)
  {
    NumeralIsCoordValidFixed(s);
  }

  /** `--5` passes `is_coord_valid` as written yet is no numeral, so the
      `float` call that follows the check raises `ValueError`. */
  lemma CoordValidAcceptsDoubleMinus()
    ensures IsCoordValid("--5") && !Numeral("--5") && !IsCoordValidFixed("--5")
  {
    DoubleMinusCounts();
    assert !IsDigits("--5") && !IsDigits("-5");
    assert "--5"[1..] == "-5";
  }

  /** What the checks see of `--5`: two minus signs, no dot, and the
      digit `5` once both are removed. */
  lemma DoubleMinusCounts()
    ensures CountChar("--5", '-') == 2 && CountChar("--5", '.') == 0
    ensures RemoveChar(RemoveChar("--5", '-'), '.') == "5"
    ensures StartsWith("--5", "-") && !StartsWith("--5", ".") && !EndsWith("--5", ".")
  {
    assert "--5"[1..] == "-5" && "-5"[1..] == "5" && "5"[1..] == "";
    assert RemoveChar("5", '.') == "5";
  }

  /** `5-` passes `coordValid` as written yet is no numeral. */
  lemma LegacyCoordValidAcceptsTrailingMinus()
    ensures LegacyCoordValid("5-") && !Numeral("5-") && !LegacyCoordValidFixed("5-")
  {
    assert RemoveChar("5-", '-') == "5";
    assert RemoveChar("5", '.') == "5";
    assert !IsDigits("5-");
    assert CountChar("5-", '-') == 1;
    assert "5-"[..1] == "5";
  }
}
