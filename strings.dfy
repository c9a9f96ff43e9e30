/** The JavaScript string operations the screens rely on: `toLowerCase`
    (restricted to ASCII letters), `includes` and `trim`. */
module Strings {

  /** Lower-cases one ASCII capital letter and leaves every other character. */
  function LowerChar(c: char): (d: char)
    ensures 'A' <= c <= 'Z' ==> 'a' <= d <= 'z' && d as int - c as int == 'a' as int - 'A' as int
    ensures !('A' <= c <= 'Z') ==> d == c
  {
    if 'A' <= c <= 'Z' then (c as int - 'A' as int + 'a' as int) as char else c
  }

  /** `s.toLowerCase()`, character by character. */
  function ToLower(s: string): (r: string)
    ensures |r| == |s|
    ensures forall i :: 0 <= i < |s| ==> r[i] == LowerChar(s[i])
  {
    if s == [] then [] else [LowerChar(s[0])] + ToLower(s[1..])
  }

  /** Lower-casing twice is lower-casing once. */
  lemma ToLowerIdempotent(s: string)
    ensures ToLower(ToLower(s)) == ToLower(s)
  {
  }

  /** `pat` occurs in `text` starting at position `i`. */
  predicate OccursAt(text: string, pat: string, i: int) {
    0 <= i && i + |pat| <= |text| && text[i..i + |pat|] == pat
  }

  /** `text.includes(pat)`: `pat` is a prefix of some suffix of `text`. */
  function Includes(text: string, pat: string): (b: bool)
    ensures pat <= text ==> b
    ensures b ==> |pat| <= |text|
  {
    pat <= text || (text != [] && Includes(text[1..], pat))
  }

  /** `Includes` holds exactly when `pat` occurs at some position of `text`. */
  lemma {:induction false} IncludesIffOccurs(text: string, pat: string)
    ensures Includes(text, pat) <==> exists i :: OccursAt(text, pat, i)
  {
    if pat <= text {
      assert text[0..|pat|] == pat;
      assert OccursAt(text, pat, 0);
    } else if text != [] {
      IncludesIffOccurs(text[1..], pat);
      if Includes(text[1..], pat) {
        var i :| OccursAt(text[1..], pat, i);
        OccursShift(text, pat, i + 1);
      }
      if i :| OccursAt(text, pat, i) && i > 0 {
        OccursShift(text, pat, i);
      }
    }
  }

  /** An occurrence past the first position of `text` is one in its tail,
      one position earlier. */
  lemma OccursShift(text: string, pat: string, i: int)
    requires text != [] && i > 0
    ensures OccursAt(text, pat, i) <==> OccursAt(text[1..], pat, i - 1)
  {
    if i + |pat| <= |text| {
      assert text[1..][i - 1..i - 1 + |pat|] == text[i..i + |pat|];
    }
  }

  /** An occurrence at a known position makes `Includes` hold. */
  lemma IncludesAt(text: string, pat: string, i: nat)
    requires i + |pat| <= |text| && text[i..i + |pat|] == pat
    ensures Includes(text, pat)
  {
    IncludesIffOccurs(text, pat);
    assert OccursAt(text, pat, i);
  }

  /** The empty string is included in every string. */
  lemma IncludesEmpty(text: string)
    ensures Includes(text, "")
  {
  }

  /** A pattern holding a character the text lacks is not included in it. */
  lemma MissingCharExcludes(text: string, pat: string, c: char)
    requires c in pat && c !in text
    ensures !Includes(text, pat)
  {
    IncludesIffOccurs(text, pat);
    var j :| 0 <= j < |pat| && pat[j] == c;
    forall i | 0 <= i && i + |pat| <= |text|
      ensures !OccursAt(text, pat, i)
    {
      assert text[i..i + |pat|][j] == text[i + j] != c;
    }
  }

  /** Lower-casing never creates a character that is not a letter. */
  lemma NonLetterSurvivesLower(text: string, c: char)
    requires !('A' <= c <= 'Z') && !('a' <= c <= 'z') && c !in text
    ensures c !in ToLower(text)
  {
    forall i | 0 <= i < |text| ensures ToLower(text)[i] != c {
      assert text[i] != c;
    }
  }

  /** `text.toLowerCase().includes(term.toLowerCase())`, the case-insensitive
      search every screen uses. */
  function IncludesIgnoringCase(text: string, term: string): bool {
    Includes(ToLower(text), ToLower(term))
  }

  /** Two search terms that differ only in the case of ASCII letters match the
      same texts. */
  lemma IgnoringCaseOnlyLowerMatters(text: string, term1: string, term2: string)
    requires ToLower(term1) == ToLower(term2)
    ensures IncludesIgnoringCase(text, term1) == IncludesIgnoringCase(text, term2)
  {
  }

  /** The characters `trim` removes: ECMAScript WhiteSpace (tab, vertical tab,
      form feed, the byte order mark and the Unicode space separators) and
      LineTerminator (line feed, carriage return, U+2028, U+2029). */
  predicate IsWhitespace(c: char) {
    var n := c as int;
    n == 0x09 || n == 0x0A || n == 0x0B || n == 0x0C || n == 0x0D || n == 0x20
    || n == 0xA0 || n == 0x1680 || (0x2000 <= n <= 0x200A) || n == 0x2028 || n == 0x2029
    || n == 0x202F || n == 0x205F || n == 0x3000 || n == 0xFEFF
  }

  /** Drops leading whitespace. */
  function TrimStart(s: string): (r: string)
    ensures |r| <= |s| && r == s[|s| - |r|..]
    ensures forall i :: 0 <= i < |s| - |r| ==> IsWhitespace(s[i])
    ensures r != [] ==> !IsWhitespace(r[0])
  {
    if s != [] && IsWhitespace(s[0]) then TrimStart(s[1..]) else s
  }

  /** Drops trailing whitespace. */
  function TrimEnd(s: string): (r: string)
    ensures |r| <= |s| && r == s[..|r|]
    ensures forall i :: |r| <= i < |s| ==> IsWhitespace(s[i])
    ensures r != [] ==> !IsWhitespace(r[|r| - 1])
  {
    if s != [] && IsWhitespace(s[|s| - 1]) then TrimEnd(s[..|s| - 1]) else s
  }

  /** `s.trim()`: empty exactly when every character of `s` is whitespace,
      otherwise a slice of `s` that starts and ends with non-whitespace. */
  function Trim(s: string): (r: string)
    ensures r == [] <==> forall i :: 0 <= i < |s| ==> IsWhitespace(s[i])
    ensures r != [] ==> !IsWhitespace(r[0]) && !IsWhitespace(r[|r| - 1])
    ensures |r| <= |s|
    ensures exists a, b :: 0 <= a <= b <= |s| && r == s[a..b]
  {
    var t := TrimStart(s);
    var r := TrimEnd(t);
    assert r == s[|s| - |t|..|s| - |t| + |r|];
    r
  }

  /** `trim` drops only whitespace: the result is a slice of `s`, and every
      character before and after that slice is whitespace. */
  lemma TrimDropsOnlyWhitespace(s: string)
    ensures exists a, b :: (0 <= a <= b <= |s| && Trim(s) == s[a..b]
      && (forall i :: 0 <= i < a ==> IsWhitespace(s[i]))
      && (forall i :: b <= i < |s| ==> IsWhitespace(s[i])))
  {
    var t := TrimStart(s);
    var r := TrimEnd(t);
    var a, b := |s| - |t|, |s| - |t| + |r|;
    assert t == s[a..] && r == t[..|r|];
    forall i | b <= i < |s| ensures IsWhitespace(s[i]) {
      assert s[i] == t[i - a];
    }
    assert r == s[a..b];
    assert 0 <= a <= b <= |s| && Trim(s) == s[a..b]
      && (forall i :: 0 <= i < a ==> IsWhitespace(s[i]))
      && (forall i :: b <= i < |s| ==> IsWhitespace(s[i]));
  }

}
