/**
 The string primitives the task views rely on: `String.prototype.toLowerCase`,
 `String.prototype.includes` and `String.prototype.trim`.
 */
module Text {

  // ---------------------------------------------------------------------
  // Case folding

  /** Folds an ASCII capital letter to lower case and leaves every other character alone. */
  function LowerChar(c: char): (d: char)
    ensures 'A' <= c <= 'Z' ==> 'a' <= d <= 'z' && d as int - c as int == 32
    ensures !('A' <= c <= 'Z') ==> d == c
  {
    if 'A' <= c <= 'Z' then (c as int + 32) as char else c
  }

  /** `s.toLowerCase()`, character by character. */
  function ToLower(s: string): (r: string)
    ensures |r| == |s|
    ensures forall i :: 0 <= i < |s| ==> r[i] == LowerChar(s[i])
  {
    if |s| == 0 then "" else [LowerChar(s[0])] + ToLower(s[1..])
  }

  /** A string without ASCII capital letters. */
  predicate IsLower(s: string)
  {
    forall i :: 0 <= i < |s| ==> !('A' <= s[i] <= 'Z')
  }

  /** Folding produces a lower-case string, and folding it again changes nothing. */
  lemma ToLowerIdempotent(s: string)
    ensures IsLower(ToLower(s))
    ensures ToLower(ToLower(s)) == ToLower(s)
  {
  }

  /** Only the empty string folds to the empty string. */
  lemma ToLowerEmpty(s: string)
    ensures ToLower(s) == "" <==> s == ""
  {
  }

  // ---------------------------------------------------------------------
  // Substring search

  /** `q` occurs in `s` starting at index `i`. */
  ghost predicate OccursAt(q: string, s: string, i: int)
  {
    0 <= i && i + |q| <= |s| && s[i..i + |q|] == q
  }

  /** `q` is a contiguous part of `s`. */
  ghost predicate IsSubstring(q: string, s: string)
  {
    exists i :: OccursAt(q, s, i)
  }

  /** An occurrence past the first character is an occurrence in the tail, and back. */
  lemma ShiftOccurrence(q: string, s: string, i: int)
    requires |s| > 0 && i >= 1
    ensures OccursAt(q, s, i) <==> OccursAt(q, s[1..], i - 1)
  {
  }

  /** An occurrence at index 0 is a prefix. */
  lemma PrefixOccurrence(q: string, s: string)
    ensures OccursAt(q, s, 0) <==> q <= s
  {
  }

  /** `s.includes(q)`: whether `q` occurs anywhere in `s`. */
  function Includes(s: string, q: string): (b: bool)
    ensures b <==> IsSubstring(q, s)
    decreases |s|
  {
    if q <= s then
      assert OccursAt(q, s, 0) by { assert s[0..|q|] == q; }
      true
    else if |s| == 0 then
      false
    else
      var b := Includes(s[1..], q);
      assert IsSubstring(q, s) ==> IsSubstring(q, s[1..]) by {
        if IsSubstring(q, s) {
          PrefixOccurrence(q, s);
          var i :| OccursAt(q, s, i);
          ShiftOccurrence(q, s, i);
        }
      }
      assert IsSubstring(q, s[1..]) ==> IsSubstring(q, s) by {
        if IsSubstring(q, s[1..]) {
          var i :| OccursAt(q, s[1..], i);
          ShiftOccurrence(q, s, i + 1);
        }
      }
      b
  }

  // ---------------------------------------------------------------------
  // Trimming

  /**
   The characters `String.prototype.trim` removes: the ECMAScript WhiteSpace
   code points (TAB, VT, FF, SP, NBSP, ZWNBSP and the Zs space separators)
   and the LineTerminator code points (LF, CR, LS, PS).
   */
  predicate IsWhitespace(c: char)
  {
    || c == '\t' || c == '\U{000B}' || c == '\U{000C}' || c == ' ' || c == '\U{00A0}'
    || c == '\U{FEFF}' || c == '\U{1680}' || ('\U{2000}' <= c <= '\U{200A}') || c == '\U{202F}'
    || c == '\U{205F}' || c == '\U{3000}'
    || c == '\n' || c == '\r' || c == '\U{2028}' || c == '\U{2029}'
  }

  /** Every character of `s` is whitespace. */
  predicate AllWhitespace(s: string)
  {
    forall i :: 0 <= i < |s| ==> IsWhitespace(s[i])
  }

  /** `s.trimStart()`: the longest suffix of `s` not starting with whitespace. */
  function TrimStart(s: string): (r: string)
    ensures |r| <= |s| && r == s[|s| - |r|..]
    ensures AllWhitespace(s[..|s| - |r|])
    ensures |r| > 0 ==> !IsWhitespace(r[0])
  {
    if |s| > 0 && IsWhitespace(s[0]) then
      var r := TrimStart(s[1..]);
      var k := |s| - |r|;
      assert s[1..][k - 1..] == s[k..];
      assert AllWhitespace(s[1..][..k - 1]);
      assert s[..k] == [s[0]] + s[1..][..k - 1];
      r
    else s
  }

  /** `s.trimEnd()`: the longest prefix of `s` not ending in whitespace. */
  function TrimEnd(s: string): (r: string)
    ensures |r| <= |s| && r == s[..|r|]
    ensures AllWhitespace(s[|r|..])
    ensures |r| > 0 ==> !IsWhitespace(r[|r| - 1])
  {
    if |s| > 0 && IsWhitespace(s[|s| - 1]) then
      var r := TrimEnd(s[..|s| - 1]);
      assert s[|r|..] == s[..|s| - 1][|r|..] + [s[|s| - 1]];
      r
    else s
  }

  /**
   `s.trim()`: what is left of `s` after cutting whitespace from both ends; a part of `s`
   with no whitespace at either end, empty exactly for all-whitespace `s`. `TrimCutsEnds`
   states that what was cut is whitespace.
   */
  function Trim(s: string): (r: string)
    ensures IsSubstring(r, s)
    ensures |r| > 0 ==> !IsWhitespace(r[0]) && !IsWhitespace(r[|r| - 1])
    ensures r == "" <==> AllWhitespace(s)
  {
    var t := TrimStart(s);
    var r := TrimEnd(t);
    TrimmedParts(s, t, r);
    r
  }

  /** `Trim` cuts only whitespace: the result sits between an all-whitespace prefix and an all-whitespace suffix of `s`. */
  lemma TrimCutsEnds(s: string)
    ensures var r := Trim(s);
      exists k :: 0 <= k <= |s| && AllWhitespace(s[..k]) && OccursAt(r, s, k) && AllWhitespace(s[k + |r|..])
  {
    var t := TrimStart(s);
    TrimmedParts(s, t, TrimEnd(t));
  }

  /**
   Whitespace cut from the front of `s` leaves `t`, and whitespace cut from the back of `t`
   leaves `r`: then `r` sits between an all-whitespace prefix and suffix of `s`, and it is
   empty exactly when `s` is all whitespace.
   */
  lemma TrimmedParts(s: string, t: string, r: string)
    requires |t| <= |s| && t == s[|s| - |t|..] && AllWhitespace(s[..|s| - |t|])
    requires |t| > 0 ==> !IsWhitespace(t[0])
    requires |r| <= |t| && r == t[..|r|] && AllWhitespace(t[|r|..])
    ensures exists k :: 0 <= k <= |s| && AllWhitespace(s[..k]) && OccursAt(r, s, k) && AllWhitespace(s[k + |r|..])
    ensures IsSubstring(r, s)
    ensures |r| > 0 ==> !IsWhitespace(r[0])
    ensures r == "" <==> AllWhitespace(s)
  {
    var k := |s| - |t|;
    WhitespaceConcat(s[..k], t);
    assert s[..k] + t == s;
    assert s[k..k + |r|] == r;
    assert s[k + |r|..] == t[|r|..];
    assert OccursAt(r, s, k);
    if r == "" {
      assert t[|r|..] == t;
    } else {
      assert s[k] == r[0] == t[0];
    }
  }

  /** A concatenation is all whitespace exactly when both parts are. */
  lemma WhitespaceConcat(a: string, b: string)
    ensures AllWhitespace(a + b) <==> AllWhitespace(a) && AllWhitespace(b)
  {
    if AllWhitespace(a) && AllWhitespace(b) {
      forall i | 0 <= i < |a + b|
        ensures IsWhitespace((a + b)[i])
      {
        if i >= |a| { assert (a + b)[i] == b[i - |a|]; }
      }
    }
    if AllWhitespace(a + b) {
      forall i | 0 <= i < |a|
        ensures IsWhitespace(a[i])
      {
        assert (a + b)[i] == a[i];
      }
      forall i | 0 <= i < |b|
        ensures IsWhitespace(b[i])
      {
        assert (a + b)[|a| + i] == b[i];
      }
    }
  }

  /** `!s.trim()`: the string trims to nothing. */
  predicate IsBlank(s: string)
  {
    Trim(s) == ""
  }

  /** A string is blank exactly when it consists of whitespace only. */
  lemma BlankIffAllWhitespace(s: string)
    ensures IsBlank(s) <==> AllWhitespace(s)
  {
  }
}
