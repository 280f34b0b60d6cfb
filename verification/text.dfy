/**
 * The two string tests the screens apply to form fields: JavaScript
 * truthiness (a string is truthy iff it is non-empty) and
 * `String.prototype.trim`.
 */
module Text {

  /**
   * Truthiness of a JavaScript string: only "" is falsy. Unlike a test on
   * the trimmed text, a string of spaces is truthy.
   */
  predicate Filled(s: string) {
    |s| > 0
  }

  /**
   * The fields that pass the truthiness test but whose trimmed text fails
   * it are exactly the non-empty all-whitespace ones.
   */
  lemma BlankFieldIsFilled(s: string)
    ensures Filled(s) && !Filled(Trim(s)) <==> s != [] && Blank(s)
  {
  }

  /**
   * The code points `trim` strips: the WhiteSpace and LineTerminator
   * productions of ECMAScript (section 12.2 and 12.3 of ECMA-262).
   */
  predicate IsWhitespace(c: char) {
    || c == '\t' || c == '\n' || c == '\U{000B}' || c == '\U{000C}' || c == '\r'
    || c == ' ' || c == '\U{00A0}' || c == '\U{1680}'
    || ('\U{2000}' <= c <= '\U{200A}')
    || c == '\U{2028}' || c == '\U{2029}' || c == '\U{202F}' || c == '\U{205F}'
    || c == '\U{3000}' || c == '\U{FEFF}'
  }

  predicate Blank(s: string) {
    forall i :: 0 <= i < |s| ==> IsWhitespace(s[i])
  }

  /** Drops the leading whitespace: the longest whitespace prefix goes, nothing else. */
  function TrimStart(s: string): (r: string)
    ensures |r| <= |s| && r == s[|s| - |r|..]
    ensures forall i :: 0 <= i < |s| - |r| ==> IsWhitespace(s[i])
    ensures r == [] || !IsWhitespace(r[0])
  {
    if s != [] && IsWhitespace(s[0]) then
      var r := TrimStart(s[1..]);
      assert s[1..][|s| - 1 - |r|..] == s[|s| - |r|..];
      assert forall i :: 1 <= i < |s| - |r| ==> s[i] == s[1..][i - 1];
      r
    else s
  }

  /** Drops the trailing whitespace: the longest whitespace suffix goes, nothing else. */
  function TrimEnd(s: string): (r: string)
    ensures |r| <= |s| && r == s[..|r|]
    ensures forall i :: |r| <= i < |s| ==> IsWhitespace(s[i])
    ensures r == [] || !IsWhitespace(r[|r| - 1])
  {
    if s != [] && IsWhitespace(s[|s| - 1]) then TrimEnd(s[..|s| - 1]) else s
  }

  /**
   * `s.trim()`: `s` with a whitespace-only prefix and suffix dropped, empty
   * exactly when `s` is blank, and otherwise starting and ending on a
   * non-whitespace character, so the dropped parts are the longest such.
   */
  function Trim(s: string): (r: string)
    ensures TrimmedOf(r, s)
    ensures r == [] <==> Blank(s)
    ensures EndsOnText(r)
  {
    TrimFacts(s);
    TrimEnd(TrimStart(s))
  }

  lemma TrimFacts(s: string)
    ensures var r := TrimEnd(TrimStart(s));
      && TrimmedOf(r, s)
      && (r == [] <==> Blank(s))
      && EndsOnText(r)
  {
    var t := TrimStart(s);
    var r := TrimEnd(t);
    TrimmedOfParts(s, t, r);
    if r == [] {
      assert t == [];
    } else {
      assert s[|s| - |t|] == t[0] == r[0];
    }
  }

  /** `r` is empty or begins and ends on a non-whitespace character. */
  predicate EndsOnText(r: string) {
    r != [] ==> !IsWhitespace(r[0]) && !IsWhitespace(r[|r| - 1])
  }

  /** `r` is `s` with a blank prefix and a blank suffix dropped. */
  predicate TrimmedOf(r: string, s: string) {
    exists a, b :: 0 <= a <= b <= |s| && r == s[a..b] && Blank(s[..a]) && Blank(s[b..])
  }

  /** Dropping a blank prefix and then a blank suffix leaves a trimmed slice. */
  lemma TrimmedOfParts(s: string, t: string, r: string)
    requires |t| <= |s| && t == s[|s| - |t|..]
    requires forall i :: 0 <= i < |s| - |t| ==> IsWhitespace(s[i])
    requires |r| <= |t| && r == t[..|r|]
    requires forall i :: |r| <= i < |t| ==> IsWhitespace(t[i])
    ensures TrimmedOf(r, s)
  {
    var a := |s| - |t|;
    var b := a + |r|;
    assert forall i :: 0 <= i < |r| ==> r[i] == t[i] == s[a + i];
    assert r == s[a..b];
    assert forall i :: b <= i < |s| ==> s[i] == t[i - a];
    assert s[b..] == t[|r|..];
    assert Blank(s[..a]);
    assert Blank(s[b..]);
  }
}
