/**
 * The two JavaScript string operations the post form relies on:
 * `String.prototype.trim`, which strips WhiteSpace and LineTerminator
 * characters from both ends, and `length`, which counts UTF-16 code units.
 */
module JsString {

  /** ECMAScript's WhiteSpace (TAB, VT, FF, ZWNBSP and the Zs category) and LineTerminator characters. */
  predicate IsWhitespace(c: char) {
    || c == '\t' || c == '\n' || c == '\U{000B}' || c == '\U{000C}' || c == '\r'
    || c == ' ' || c == '\U{00A0}' || c == '\U{1680}'
    || ('\U{2000}' <= c <= '\U{200A}')
    || c == '\U{2028}' || c == '\U{2029}' || c == '\U{202F}' || c == '\U{205F}'
    || c == '\U{3000}' || c == '\U{FEFF}'
  }

  predicate AllWhitespace(s: string) {
    forall k | 0 <= k < |s| :: IsWhitespace(s[k])
  }

  /** A character outside the Basic Multilingual Plane takes a surrogate pair. */
  function CodeUnits(c: char): nat {
    if c as int > 0xFFFF then 2 else 1
  }

  /** The value of `s.length` in JavaScript. */
  function Utf16Length(s: string): (n: nat)
    ensures |s| <= n <= 2 * |s|
  {
    if s == [] then 0 else CodeUnits(s[0]) + Utf16Length(s[1..])
  }

  lemma {:induction false} Utf16LengthConcat(a: string, b: string)
    ensures Utf16Length(a + b) == Utf16Length(a) + Utf16Length(b)
  {
    if a != [] {
      assert (a + b)[1..] == a[1..] + b;
      Utf16LengthConcat(a[1..], b);
    } else {
      assert a + b == b;
    }
  }

  lemma {:induction false} Utf16LengthDrop(s: string, i: nat)
    requires i <= |s|
    ensures Utf16Length(s[i..]) <= Utf16Length(s)
  {
    if i > 0 {
      assert s[i..] == s[1..][i - 1..];
      Utf16LengthDrop(s[1..], i - 1);
    }
  }

  lemma {:induction false} Utf16LengthTake(s: string, j: nat)
    requires j <= |s|
    ensures Utf16Length(s[..j]) <= Utf16Length(s)
  {
    if j > 0 {
      assert s[..j][1..] == s[1..][..j - 1];
      Utf16LengthTake(s[1..], j - 1);
    }
  }

  lemma Utf16LengthSlice(s: string, i: nat, j: nat)
    requires i <= j <= |s|
    ensures Utf16Length(s[i..j]) <= Utf16Length(s)
  {
    assert s[i..j] == s[..j][i..];
    Utf16LengthDrop(s[..j], i);
    Utf16LengthTake(s, j);
  }

  /** Text made only of Basic Multilingual Plane characters has one code unit per character. */
  lemma {:induction false} Utf16LengthOfBmp(s: string)
    requires forall k | 0 <= k < |s| :: s[k] as int <= 0xFFFF
    ensures Utf16Length(s) == |s|
  {
    if s != [] {
      Utf16LengthOfBmp(s[1..]);
    }
  }

  /** How many whitespace characters `s` starts with (LeadingBlanksShape). */
  function LeadingBlanks(s: string): (n: nat)
    ensures n <= |s|
  {
    if s != [] && IsWhitespace(s[0]) then 1 + LeadingBlanks(s[1..]) else 0
  }

  /** The leading blanks are whitespace, and the character after them is not. */
  lemma {:induction false} LeadingBlanksShape(s: string)
    ensures AllWhitespace(s[..LeadingBlanks(s)])
    ensures LeadingBlanks(s) < |s| ==> !IsWhitespace(s[LeadingBlanks(s)])
  {
    if s != [] && IsWhitespace(s[0]) {
      LeadingBlanksShape(s[1..]);
      forall k | 0 <= k < LeadingBlanks(s) ensures IsWhitespace(s[k]) {
        if k > 0 {
          assert s[k] == s[1..][..LeadingBlanks(s[1..])][k - 1];
        }
      }
    }
  }

  /** How many whitespace characters `s` ends with (TrailingBlanksShape). */
  function TrailingBlanks(s: string): (n: nat)
    ensures n <= |s|
  {
    if s != [] && IsWhitespace(s[|s| - 1]) then 1 + TrailingBlanks(s[..|s| - 1]) else 0
  }

  /** The trailing blanks are whitespace, and the character before them is not. */
  lemma {:induction false} TrailingBlanksShape(s: string)
    ensures AllWhitespace(s[|s| - TrailingBlanks(s)..])
    ensures TrailingBlanks(s) < |s| ==> !IsWhitespace(s[|s| - 1 - TrailingBlanks(s)])
  {
    if s != [] && IsWhitespace(s[|s| - 1]) {
      var init := s[..|s| - 1];
      TrailingBlanksShape(init);
      var n := TrailingBlanks(s);
      forall k | |s| - n <= k < |s| ensures IsWhitespace(s[k]) {
        if k < |s| - 1 {
          assert s[k] == init[|init| - TrailingBlanks(init)..][k - (|init| - TrailingBlanks(init))];
        }
      }
      if n < |s| {
        assert s[|s| - 1 - n] == init[|init| - 1 - TrailingBlanks(init)];
      }
    }
  }

  /** Where the trimmed text ends: the leading blanks are skipped, then the trailing ones. */
  function TrimEnd(s: string): (j: nat)
    ensures LeadingBlanks(s) <= j <= |s|
  {
    |s| - TrailingBlanks(s[LeadingBlanks(s)..])
  }

  /** Only blanks follow the end of the trimmed text, and the character before it is not blank. */
  lemma TrimEndShape(s: string)
    ensures AllWhitespace(s[TrimEnd(s)..])
    ensures LeadingBlanks(s) < TrimEnd(s) ==> !IsWhitespace(s[TrimEnd(s) - 1])
  {
    var i := LeadingBlanks(s);
    var rest := s[i..];
    var n := TrailingBlanks(rest);
    TrailingBlanksShape(rest);
    assert TrimEnd(s) == i + (|rest| - n);
    assert s[TrimEnd(s)..] == rest[|rest| - n..];
    if n < |rest| {
      assert s[TrimEnd(s) - 1] == rest[|rest| - 1 - n];
    }
  }

  /** `s.trim()`: the part of `s` left once the whitespace at both ends is removed (TrimShape). */
  function Trim(s: string): (t: string)
    ensures Utf16Length(t) <= Utf16Length(s)
  {
    Utf16LengthSlice(s, LeadingBlanks(s), TrimEnd(s));
    s[LeadingBlanks(s)..TrimEnd(s)]
  }

  /**
   * What trimming leaves: the infix of `s` that starts after the leading
   * blanks, with only blanks before and after it, neither starting nor
   * ending with a blank, and empty exactly when `s` is all blank.
   */
  lemma TrimShape(s: string)
    ensures var t := Trim(s);
            && LeadingBlanks(s) + |t| <= |s|
            && t == s[LeadingBlanks(s)..LeadingBlanks(s) + |t|]
            && AllWhitespace(s[..LeadingBlanks(s)])
            && AllWhitespace(s[LeadingBlanks(s) + |t|..])
            && (t != [] ==> !IsWhitespace(t[0]) && !IsWhitespace(t[|t| - 1]))
            && (t == [] <==> AllWhitespace(s))
  {
    LeadingBlanksShape(s);
    TrimEndShape(s);
    TrimmedBlankIffAllBlank(s);
  }

  lemma TrimmedBlankIffAllBlank(s: string)
    ensures LeadingBlanks(s) == TrimEnd(s) <==> AllWhitespace(s)
  {
    LeadingBlanksShape(s);
    TrimEndShape(s);
    var i, j := LeadingBlanks(s), TrimEnd(s);
    if i == j {
      forall k | 0 <= k < |s| ensures IsWhitespace(s[k]) {
        assert s[k] == s[..i][k];
      }
    }
  }

  lemma TrimIdempotent(s: string)
    ensures Trim(Trim(s)) == Trim(s)
  {
    var t := Trim(s);
    TrimShape(s);
    if t != [] {
      assert LeadingBlanks(t) == 0;
      assert t[1..][..|t| - 1] == t[1..];
      assert TrailingBlanks(t) == 0;
    }
  }

  /** Blanks in front of a string change nothing once it is trimmed. */
  lemma {:induction false} LeadingBlanksOfPadded(p: string, s: string)
    requires AllWhitespace(p)
    ensures LeadingBlanks(p + s) == |p| + LeadingBlanks(s)
  {
    if p != [] {
      assert (p + s)[0] == p[0];
      assert (p + s)[1..] == p[1..] + s;
      LeadingBlanksOfPadded(p[1..], s);
    } else {
      assert p + s == s;
    }
  }

  lemma TrimEndOfPadded(p: string, s: string)
    requires LeadingBlanks(p + s) == |p| + LeadingBlanks(s)
    ensures TrimEnd(p + s) == |p| + TrimEnd(s)
  {
    var i := LeadingBlanks(s);
    assert (p + s)[|p| + i..] == s[i..];
  }

  lemma ShiftedSlice(p: string, s: string, i: nat, j: nat)
    requires i <= j <= |s|
    ensures (p + s)[|p| + i..|p| + j] == s[i..j]
  {
    assert (p + s)[|p|..] == s;
  }

  lemma TrimIgnoresLeadingBlanks(p: string, s: string)
    requires AllWhitespace(p)
    ensures Trim(p + s) == Trim(s)
  {
    LeadingBlanksOfPadded(p, s);
    TrimEndOfPadded(p, s);
    ShiftedSlice(p, s, LeadingBlanks(s), TrimEnd(s));
  }
}
