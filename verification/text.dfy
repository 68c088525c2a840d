/** The string operations the row mappers and the lot-number derivation use, with the
    semantics of JavaScript's String.prototype.trim, replace (string pattern) and
    split(' ').pop(). */
module Text {
  import opened Common

  /** The characters trim removes: the ECMAScript WhiteSpace set (tab, vertical tab,
      form feed, the byte-order mark and the Unicode space separators) and the
      LineTerminator set. */
  predicate IsWhitespace(c: char) {
    c == ' ' || c == '\t' || c == '\n' || c == '\r' || c == '\U{000B}' || c == '\U{000C}'
    || c == '\U{00A0}' || c == '\U{1680}' || ('\U{2000}' <= c <= '\U{200A}')
    || c == '\U{2028}' || c == '\U{2029}' || c == '\U{202F}' || c == '\U{205F}'
    || c == '\U{3000}' || c == '\U{FEFF}'
  }

  /** Every character of s is whitespace (the empty string included). */
  predicate Blank(s: string) {
    forall k {:trigger IsWhitespace(s[k])} :: 0 <= k < |s| ==> IsWhitespace(s[k])
  }

  /** The index of the first character at or after i that is not whitespace, or |s|. */
  function SkipWhitespace(s: string, i: nat): (k: nat)
    requires i <= |s|
    ensures i <= k <= |s|
    ensures forall j :: i <= j < k ==> IsWhitespace(s[j])
    ensures k == |s| || !IsWhitespace(s[k])
    decreases |s| - i
  {
    if i < |s| && IsWhitespace(s[i]) then SkipWhitespace(s, i + 1) else i
  }

  /** The index just after the last character before e that is not whitespace, or 0. */
  function SkipWhitespaceBack(s: string, e: nat): (k: nat)
    requires e <= |s|
    ensures k <= e
    ensures forall j :: k <= j < e ==> IsWhitespace(s[j])
    ensures k == 0 || !IsWhitespace(s[k - 1])
  {
    if e > 0 && IsWhitespace(s[e - 1]) then SkipWhitespaceBack(s, e - 1) else e
  }

  /** s neither starts nor ends with whitespace. */
  predicate Trimmed(s: string) {
    s == [] || (!IsWhitespace(s[0]) && !IsWhitespace(s[|s| - 1]))
  }

  /** String.prototype.trim: s without whitespace at either end. */
  function Trim(s: string): (r: string)
    ensures |r| <= |s|
    ensures Trimmed(r)
  {
    var a := SkipWhitespace(s, 0);
    var b := SkipWhitespaceBack(s, |s|);
    if a < b then s[a..b] else []
  }

  /** What trim keeps is the contiguous middle of s, and all it removes is whitespace. */
  lemma TrimKeepsMiddle(s: string)
    ensures var a := SkipWhitespace(s, 0); var r := Trim(s);
      && a + |r| <= |s| && Blank(s[..a]) && r == s[a..a + |r|] && Blank(s[a + |r|..])
  {
    var a := SkipWhitespace(s, 0);
    var b := SkipWhitespaceBack(s, |s|);
    BlankSlice(s, 0, a);
    if a < b {
      assert Trim(s) == s[a..b];
      BlankSlice(s, b, |s|);
      assert s[b..|s|] == s[b..];
    } else {
      assert Trim(s) == [];
      BlankSlice(s, a, |s|);
      assert s[a..|s|] == s[a..];
    }
  }

  /** A slice whose characters are all whitespace is blank. */
  lemma BlankSlice(s: string, i: nat, j: nat)
    requires i <= j <= |s|
    requires forall k :: i <= k < j ==> IsWhitespace(s[k])
    ensures Blank(s[i..j])
  {
    forall k | 0 <= k < j - i ensures IsWhitespace(s[i..j][k]) {
      assert s[i..j][k] == s[i + k];
    }
  }

  /** A string that neither starts nor ends with whitespace is left as it is by trim. */
  lemma TrimOfTrimmed(s: string)
    requires Trimmed(s)
    ensures Trim(s) == s
  {
    if s != [] {
      assert s[0..|s|] == s;
    }
  }

  /** trim() === "" exactly for the blank strings. */
  lemma TrimEmptyIffBlank(s: string)
    ensures Trim(s) == [] <==> Blank(s)
  {
    var a := SkipWhitespace(s, 0);
    var b := SkipWhitespaceBack(s, |s|);
    if Blank(s) {
      assert a == |s|;
    } else {
      var k :| 0 <= k < |s| && !IsWhitespace(s[k]);
      assert a <= k < b;
    }
  }

  /** Trimming a trimmed string changes nothing. */
  lemma TrimIdempotent(s: string)
    ensures Trim(Trim(s)) == Trim(s)
  {
    TrimOfTrimmed(Trim(s));
  }

  /** pat occurs in s starting at index i. */
  predicate OccursAt(s: string, pat: string, i: nat) {
    i + |pat| <= |s| && s[i..i + |pat|] == pat
  }

  /** String.prototype.indexOf with a start position: the first index at or after
      from where pat occurs, if any. */
  function IndexOf(s: string, pat: string, from: nat): (r: Option<nat>)
    ensures r.Some? ==> from <= r.value && OccursAt(s, pat, r.value)
    ensures forall j: nat :: from <= j && (r.None? || j < r.value) ==> !OccursAt(s, pat, j)
    decreases |s| - from
  {
    if from + |pat| > |s| then None
    else if OccursAt(s, pat, from) then Some(from)
    else IndexOf(s, pat, from + 1)
  }

  /** String.prototype.replace with a string pattern: only the first occurrence of pat
      is replaced by rep; without an occurrence s is returned unchanged. */
  function ReplaceFirst(s: string, pat: string, rep: string): (r: string)
    ensures (forall j: nat :: !OccursAt(s, pat, j)) ==> r == s
    ensures (exists j: nat :: OccursAt(s, pat, j)) ==> |r| == |s| - |pat| + |rep|
  {
    match IndexOf(s, pat, 0)
    case None => s
    case Some(i) => s[..i] + rep + s[i + |pat|..]
  }

  /** replace substitutes rep for the first occurrence of pat, wherever it is. */
  lemma ReplaceFirstAtFirstOccurrence(s: string, pat: string, rep: string, i: nat)
    requires OccursAt(s, pat, i)
    requires forall j: nat :: j < i ==> !OccursAt(s, pat, j)
    ensures ReplaceFirst(s, pat, rep) == s[..i] + rep + s[i + |pat|..]
  {
  }

  /** When s starts with pat, its first occurrence is that prefix. */
  lemma ReplaceFirstOfPrefix(s: string, pat: string, rep: string)
    requires |pat| <= |s| && s[..|pat|] == pat
    ensures ReplaceFirst(s, pat, rep) == rep + s[|pat|..]
  {
    assert OccursAt(s, pat, 0);
    assert IndexOf(s, pat, 0) == Some(0);
  }

  /** The index just after the last space before e, or 0 when there is none. */
  function AfterLastSpace(s: string, e: nat): (k: nat)
    requires e <= |s|
    ensures k <= e
    ensures forall j :: k <= j < e ==> s[j] != ' '
    ensures k == 0 || s[k - 1] == ' '
  {
    if e == 0 || s[e - 1] == ' ' then e else AfterLastSpace(s, e - 1)
  }

  /** s.split(' ').pop(): the text after the last space of s, or all of s when it has no space. */
  function LastToken(s: string): (r: string)
    ensures |r| <= |s|
  {
    s[AfterLastSpace(s, |s|)..]
  }

  /** The last token is the part of s after its last space: a space-free suffix of s,
      preceded by a space unless it is all of s. */
  lemma LastTokenIsLastWord(s: string)
    ensures var d := LastToken(s);
      && s == s[..|s| - |d|] + d
      && ' ' !in d
      && (|d| == |s| || s[|s| - |d| - 1] == ' ')
      && (' ' !in s ==> d == s)
  {
    var k := AfterLastSpace(s, |s|);
    assert s == s[..k] + s[k..];
  }

  /** A common prefix can be cancelled from two concatenations. */
  lemma CancelPrefix(p: string, x: string, y: string)
    requires p + x == p + y
    ensures x == y
  {
    assert x == (p + x)[|p|..];
  }

  /** Removing the first occurrence of a pattern that ends in whitespace from a non-empty
      string that neither starts nor ends with whitespace leaves a string that is not blank. */
  lemma RemoveFirstKeepsNonBlank(s: string, pat: string)
    requires s != [] && !IsWhitespace(s[0]) && !IsWhitespace(s[|s| - 1])
    requires pat != [] && IsWhitespace(pat[|pat| - 1])
    ensures !Blank(ReplaceFirst(s, pat, []))
  {
    var r := ReplaceFirst(s, pat, []);
    match IndexOf(s, pat, 0)
    case None =>
      assert r[0] == s[0];
    case Some(i) =>
      assert r == s[..i] + s[i + |pat|..];
      assert IsWhitespace(s[i + |pat| - 1]) by {
        assert s[i + |pat| - 1] == s[i..i + |pat|][|pat| - 1];
      }
      if i > 0 {
        assert r[0] == s[0];
      } else if i + |pat| < |s| {
        assert r[|r| - 1] == s[|s| - 1];
      }
  }
}
