/** The two JavaScript string operations the page's chat logic depends on:
    `String.prototype.trim` (blank-input guard) and `String.prototype.includes`
    (discount-marker detection). */
module Text {

  /** A code point that ECMAScript's WhiteSpace or LineTerminator productions
      accept, i.e. one that `trim` strips from either end of a string. */
  predicate IsWhitespace(c: char)
    ensures c == ' ' || c == '\t' || c == '\n' || c == '\r' ==> IsWhitespace(c)
    ensures ('0' <= c <= '9') || ('A' <= c <= 'Z') || ('a' <= c <= 'z') ==> !IsWhitespace(c)
  {
    // WhiteSpace: TAB, VT, FF, ZWNBSP and every Space_Separator (Zs) code point
    c == '\t' || c == '\U{000B}' || c == '\U{000C}' || c == '\U{FEFF}' ||
    c == ' ' || c == '\U{00A0}' || c == '\U{1680}' ||
    ('\U{2000}' <= c <= '\U{200A}') ||
    c == '\U{202F}' || c == '\U{205F}' || c == '\U{3000}' ||
    // LineTerminator: LF, CR, LINE SEPARATOR, PARAGRAPH SEPARATOR
    c == '\n' || c == '\r' || c == '\U{2028}' || c == '\U{2029}'
  }

  /** Drops the leading whitespace: the result is the suffix of `s` that
      starts at the first non-whitespace character. */
  function TrimStart(s: string): (r: string)
    ensures |r| <= |s|
    ensures r == [] || !IsWhitespace(r[0])
    ensures forall i | 0 <= i < |s| - |r| :: IsWhitespace(s[i])
  {
    if s != [] && IsWhitespace(s[0]) then TrimStart(s[1..]) else s
  }

  /** Drops the trailing whitespace: the result is the prefix of `s` that
      ends at the last non-whitespace character. */
  function TrimEnd(s: string): (r: string)
    ensures |r| <= |s|
    ensures r == [] || !IsWhitespace(r[|r| - 1])
    ensures forall i | |r| <= i < |s| :: IsWhitespace(s[i])
  {
    if s != [] && IsWhitespace(s[|s| - 1]) then TrimEnd(s[..|s| - 1]) else s
  }

  /** What `TrimStart` keeps is a suffix of its argument. */
  lemma {:induction false} TrimStartIsSuffix(s: string)
    ensures TrimStart(s) == s[|s| - |TrimStart(s)|..]
  {
    if s != [] && IsWhitespace(s[0]) {
      TrimStartIsSuffix(s[1..]);
    }
  }

  /** What `TrimEnd` keeps is a prefix of its argument. */
  lemma {:induction false} TrimEndIsPrefix(s: string)
    ensures TrimEnd(s) == s[..|TrimEnd(s)|]
  {
    if s != [] && IsWhitespace(s[|s| - 1]) {
      TrimEndIsPrefix(s[..|s| - 1]);
    }
  }

  /** `s.trim()`: empty exactly when `s` consists of whitespace only, and
      otherwise starts and ends with a non-whitespace character. */
  function Trim(s: string): (r: string)
    ensures |r| <= |s|
    ensures r == [] <==> forall i | 0 <= i < |s| :: IsWhitespace(s[i])
    ensures r != [] ==> !IsWhitespace(r[0]) && !IsWhitespace(r[|r| - 1])
  {
    var t := TrimStart(s);
    var r := TrimEnd(t);
    TrimStartIsSuffix(s);
    TrimEndIsPrefix(t);
    assert r != [] ==> !IsWhitespace(r[0]) by {
      if r != [] {
        assert r[0] == t[0];
      }
    }
    r
  }

  /** `s.trim()` is a contiguous slice of `s`. */
  lemma TrimIsSlice(s: string)
    ensures exists a, b | 0 <= a <= b <= |s| :: Trim(s) == s[a..b]
  {
    var t := TrimStart(s);
    TrimStartIsSuffix(s);
    TrimEndIsPrefix(t);
    var a := |s| - |t|;
    var b := a + |Trim(s)|;
    assert Trim(s) == s[a..b];
  }

  /** `!s.trim()`: JavaScript treats the empty string as false. */
  predicate IsBlank(s: string)
    ensures IsBlank(s) <==> forall i | 0 <= i < |s| :: IsWhitespace(s[i])
  {
    Trim(s) == []
  }

  /** `s.includes(t)`, scanning `s` from the left for an occurrence of `t`. */
  function Includes(s: string, t: string): (b: bool)
    ensures b ==> |t| <= |s|
    ensures t == [] ==> b
    decreases |s|
  {
    if |t| > |s| then false
    else if s[..|t|] == t then true
    else Includes(s[1..], t)
  }

  /** `t` occurs in `s` starting at index `i`. */
  ghost predicate OccursAt(s: string, t: string, i: int) {
    0 <= i && i + |t| <= |s| && s[i..i + |t|] == t
  }

  /** The scan agrees with the definition of "is a substring of". */
  lemma {:induction false} IncludesIff(s: string, t: string)
    ensures Includes(s, t) <==> exists i :: OccursAt(s, t, i)
    decreases |s|
  {
    if |t| > |s| {
      assert forall i :: !OccursAt(s, t, i);
    } else if s[..|t|] == t {
      assert OccursAt(s, t, 0);
    } else {
      IncludesIff(s[1..], t);
      forall j | OccursAt(s[1..], t, j) ensures OccursAt(s, t, j + 1) {
        assert s[1..][j..j + |t|] == s[j + 1..j + 1 + |t|];
      }
      forall i | OccursAt(s, t, i) ensures OccursAt(s[1..], t, i - 1) {
        assert i != 0;
        assert s[1..][i - 1..i - 1 + |t|] == s[i..i + |t|];
      }
    }
  }

  /** Appending text never hides an occurrence that was already there. */
  lemma IncludesExtend(s: string, u: string, t: string)
    requires Includes(s, t)
    ensures Includes(s + u, t)
  {
    IncludesIff(s, t);
    var i :| OccursAt(s, t, i);
    assert (s + u)[i..i + |t|] == s[i..i + |t|];
    assert OccursAt(s + u, t, i);
    IncludesIff(s + u, t);
  }
}
