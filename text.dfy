/** Character classes and substring primitives over the artifact's text. */
module Text {

  /** The `\s` class of JavaScript regular expressions: the WhiteSpace and
      LineTerminator code points of ECMAScript. Within ASCII these are the
      control codes 9 to 13 and the space; no letter, digit, quote or `=`, the
      characters the patterns are written with, is whitespace. */
  predicate IsWhitespace(c: char)
    ensures (c as int) < 0x80 ==> (IsWhitespace(c) <==> 9 <= c as int <= 13 || c == ' ')
    ensures IsWhitespace(c) ==> !('a' <= c <= 'z' || 'A' <= c <= 'Z' || '0' <= c <= '9')
    ensures IsWhitespace(c) ==> c != '=' && c != '"' && c != '\'' && c != '-'
  {
    || c == '\t' || c == '\n' || c == '\U{000B}' || c == '\U{000C}' || c == '\r' || c == ' '
    || c == '\U{00A0}' || c == '\U{1680}' || ('\U{2000}' <= c <= '\U{200A}')
    || c == '\U{2028}' || c == '\U{2029}' || c == '\U{202F}' || c == '\U{205F}'
    || c == '\U{3000}' || c == '\U{FEFF}'
  }

  /** `pat` occurs in `s` starting at index `i`. */
  predicate StartsAt(s: string, i: nat, pat: string)
  {
    i + |pat| <= |s| && s[i..i + |pat|] == pat
  }

  /** `pat` occurs somewhere in `s` (what a regex made of literal characters
      tests). The empty pattern occurs everywhere; an occurrence needs every
      character of the pattern to be in the text. */
  predicate Contains(s: string, pat: string)
    ensures pat == [] ==> Contains(s, pat)
    ensures Contains(s, pat) ==> |pat| <= |s| && forall k | 0 <= k < |pat| :: pat[k] in s
  {
    assert pat == [] ==> StartsAt(s, 0, pat);
    exists i | 0 <= i <= |s| :: StartsAt(s, i, pat)
  }

  predicate AllWhitespace(s: string, lo: nat, hi: nat)
    requires lo <= hi <= |s|
  {
    forall k | lo <= k < hi :: IsWhitespace(s[k])
  }

  /** The end of the longest run of whitespace starting at `i`: what a greedy
      `\s*` consumes. */
  function SkipWhitespace(s: string, i: nat): (j: nat)
    requires i <= |s|
    ensures i <= j <= |s|
    ensures AllWhitespace(s, i, j)
    ensures j == |s| || !IsWhitespace(s[j])
    decreases |s| - i
  {
    if i < |s| && IsWhitespace(s[i]) then SkipWhitespace(s, i + 1) else i
  }

  /** A whitespace run that ends in a non-whitespace character is exactly the
      run the greedy scan consumes. */
  lemma {:induction false} SkipWhitespaceStopsAt(s: string, i: nat, j: nat)
    requires i <= j < |s|
    requires AllWhitespace(s, i, j) && !IsWhitespace(s[j])
    ensures SkipWhitespace(s, i) == j
    decreases j - i
  {
    if i < j {
      SkipWhitespaceStopsAt(s, i + 1, j);
    }
  }

  /** The greedy scan consumes at least every whitespace run starting at `i`. */
  lemma {:induction false} SkipWhitespaceCoversRun(s: string, i: nat, j: nat)
    requires i <= j <= |s| && AllWhitespace(s, i, j)
    ensures j <= SkipWhitespace(s, i)
    decreases j - i
  {
    if i < j {
      SkipWhitespaceCoversRun(s, i + 1, j);
    }
  }

  /** An occurrence of `inner` inside an occurrence of `outer` is an occurrence in `s`. */
  lemma {:induction false} StartsAtNested(s: string, i: nat, outer: string, off: nat, inner: string)
    requires StartsAt(s, i, outer) && StartsAt(outer, off, inner)
    ensures StartsAt(s, i + off, inner)
  {
    forall k | 0 <= k < |inner|
      ensures s[i + off + k] == inner[k]
    {
      assert s[i..i + |outer|][off + k] == outer[off + k];
      assert outer[off..off + |inner|][k] == inner[k];
    }
    assert s[i + off..i + off + |inner|] == inner;
  }

  /** A text lacking one of the pattern's characters does not contain the pattern. */
  lemma MissingCharExcludes(s: string, pat: string, k: nat)
    requires k < |pat| && pat[k] !in s
    ensures !Contains(s, pat)
  {
    forall i | 0 <= i <= |s|
      ensures !StartsAt(s, i, pat)
    {
      if i + |pat| <= |s| {
        assert s[i + k] in s;
        assert s[i..i + |pat|][k] == s[i + k];
      }
    }
  }
}
