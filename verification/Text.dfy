/** Trimming and lower case, as far as the settings and the receiver use them. */
module Text {
  /** The white space of Unicode. */
  predicate IsSpace(c: char) {
    || '\t' <= c <= '\r' || c == ' '
    || c == '\U{85}' || c == '\U{A0}' || c == '\U{1680}' || '\U{2000}' <= c <= '\U{200A}'
    || c == '\U{2028}' || c == '\U{2029}' || c == '\U{202F}' || c == '\U{205F}' || c == '\U{3000}'
  }

  /** The same characters by their codes. */
  lemma SpacesAre(c: char)
    ensures IsSpace(c) <==>
              || c as int in {9, 10, 11, 12, 13, 32, 0x85, 0xA0, 0x1680, 0x2028, 0x2029, 0x202F, 0x205F, 0x3000}
              || 0x2000 <= c as int <= 0x200A
  {
  }

  predicate IsTrimmed(s: string) {
    s == "" || (!IsSpace(s[0]) && !IsSpace(s[|s| - 1]))
  }

  function Trim(s: string): (t: string)
    ensures IsTrimmed(t)
    ensures IsTrimmed(s) ==> t == s
  {
    if s == "" then s
    else if IsSpace(s[0]) then Trim(s[1..])
    else if IsSpace(s[|s| - 1]) then Trim(s[..|s| - 1])
    else s
  }

  /** Lower case of ASCII letters. */
  function Lower(s: string): string {
    if s == "" then ""
    else [if 'A' <= s[0] <= 'Z' then s[0] - 'A' + 'a' else s[0]] + Lower(s[1..])
  }

  predicate IsLower(s: string) {
    forall k :: 0 <= k < |s| ==> !('A' <= s[k] <= 'Z')
  }

  lemma {:induction false} LowerKeepsLower(s: string)
    requires IsLower(s)
    ensures Lower(s) == s
  {
    if s != "" {
      LowerKeepsLower(s[1..]);
    }
  }

  predicate IsBlank(s: string) {
    forall k :: 0 <= k < |s| ==> IsSpace(s[k])
  }

  /** White space lies before `i` and from `j` on, and the text between neither begins nor ends with it. */
  predicate IsTrimAt(s: string, i: int, j: int) {
    && 0 <= i <= j <= |s| && (forall k :: 0 <= k < |s| && (k < i || j <= k) ==> IsSpace(s[k]))
    && (i < j ==> !IsSpace(s[i]) && !IsSpace(s[j - 1]))
  }

  /** `t` is what is left of `s` without the white space around it. */
  ghost predicate IsTrimOf(t: string, s: string) {
    exists i, j :: IsTrimAt(s, i, j) && t == s[i..j]
  }

  lemma TrimBehind(t: string, s: string)
    requires s != "" && IsSpace(s[0]) && IsTrimOf(t, s[1..])
    ensures IsTrimOf(t, s)
  {
    var i, j :| IsTrimAt(s[1..], i, j) && t == s[1..][i..j];
    assert IsTrimAt(s, i + 1, j + 1) by {
      assert forall k :: 0 < k < |s| ==> s[k] == s[1..][k - 1];
    }
    assert s[i + 1..j + 1] == t;
  }

  lemma TrimBefore(t: string, s: string)
    requires s != "" && IsSpace(s[|s| - 1]) && IsTrimOf(t, s[..|s| - 1])
    ensures IsTrimOf(t, s)
  {
    var i, j :| IsTrimAt(s[..|s| - 1], i, j) && t == s[..|s| - 1][i..j];
    assert IsTrimAt(s, i, j) && s[i..j] == t;
  }

  lemma {:induction false} TrimIs(s: string)
    ensures IsTrimOf(Trim(s), s)
  {
    if s != "" && IsSpace(s[0]) {
      TrimIs(s[1..]);
      TrimBehind(Trim(s), s);
    } else if s != "" && IsSpace(s[|s| - 1]) {
      TrimIs(s[..|s| - 1]);
      TrimBefore(Trim(s), s);
    } else {
      assert IsTrimAt(s, 0, |s|) && s[0..|s|] == s;
    }
  }

  /** Only one text is left. */
  lemma TrimIsOnly(t: string, s: string)
    requires IsTrimOf(t, s)
    ensures t == Trim(s)
  {
    TrimIs(s);
    var i, j :| IsTrimAt(s, i, j) && t == s[i..j];
    var k, l :| IsTrimAt(s, k, l) && Trim(s) == s[k..l];
    SameTrim(s, i, j, k, l);
  }

  lemma SameTrim(s: string, i: int, j: int, k: int, l: int)
    requires IsTrimAt(s, i, j) && IsTrimAt(s, k, l)
    ensures s[i..j] == s[k..l]
  {
    if i < j {
      InsideTrim(s, k, l, i);
      InsideTrim(s, k, l, j - 1);
    }
    if k < l {
      InsideTrim(s, i, j, k);
      InsideTrim(s, i, j, l - 1);
    }
  }

  lemma InsideTrim(s: string, i: int, j: int, k: nat)
    requires IsTrimAt(s, i, j) && k < |s| && !IsSpace(s[k])
    ensures i <= k < j
  {
  }

  lemma BlankIsEmpty(s: string)
    ensures IsBlank(s) <==> Trim(s) == ""
  {
    TrimIs(s);
    if IsBlank(s) {
      assert IsTrimAt(s, |s|, |s|) && s[|s|..|s|] == "";
      TrimIsOnly("", s);
    }
  }

  /** `word` in any letter case; the word is one of lower-case letters. */
  predicate IsSpelled(s: string, word: string) {
    |s| == |word| && forall k :: 0 <= k < |s| ==> s[k] == word[k] || ('A' <= s[k] <= 'Z' && s[k] as int + 32 == word[k] as int)
  }

  /** The text is `word` in any letter case with any white space around it. */
  ghost predicate ReadsAs(text: string, word: string) {
    exists s :: IsTrimOf(s, text) && IsSpelled(s, word)
  }

  lemma {:induction false} LowerIs(s: string, word: string)
    requires IsLower(word)
    ensures Lower(s) == word <==> IsSpelled(s, word)
  {
    if s != "" && word != "" {
      LowerIs(s[1..], word[1..]);
      assert Lower(s) == word <==> Lower(s)[0] == word[0] && Lower(s[1..]) == word[1..] by {
        assert word == [word[0]] + word[1..] && Lower(s) == [Lower(s)[0]] + Lower(s[1..]);
      }
      assert IsSpelled(s, word) <==> IsSpelled(s[..1], word[..1]) && IsSpelled(s[1..], word[1..]) by {
        SpelledInParts(s, word);
      }
    }
  }

  lemma SpelledInParts(s: string, word: string)
    requires s != "" && word != ""
    ensures IsSpelled(s, word) <==> IsSpelled(s[..1], word[..1]) && IsSpelled(s[1..], word[1..])
  {
    if IsSpelled(s[..1], word[..1]) && IsSpelled(s[1..], word[1..]) {
      forall k | 0 <= k < |s|
        ensures s[k] == word[k] || ('A' <= s[k] <= 'Z' && s[k] as int + 32 == word[k] as int)
      {
        assert k == 0 ==> s[..1][0] == s[k] && word[..1][0] == word[k];
        assert k > 0 ==> s[1..][k - 1] == s[k] && word[1..][k - 1] == word[k];
      }
    }
  }

  lemma NormalReads(text: string, word: string)
    requires IsLower(word)
    ensures Normal(text) == word <==> ReadsAs(text, word)
  {
    TrimIs(text);
    LowerIs(Trim(text), word);
    if s :| IsTrimOf(s, text) && IsSpelled(s, word) {
      TrimIsOnly(s, text);
    }
  }

  /** Lower case of the trimmed text, the form in which names of types and protocols are compared. */
  function Normal(s: string): string {
    Lower(Trim(s))
  }

  lemma NormalKeeps(s: string)
    requires IsTrimmed(s) && IsLower(s)
    ensures Normal(s) == s
  {
    LowerKeepsLower(s);
  }
}
