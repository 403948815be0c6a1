/** The matchers the checks apply to the artifact. Patterns made of literal
    characters and simple whitespace runs are modelled exactly; every other
    regular expression is handed to a regex engine supplied by the caller. */
module Matchers {
  import opened Text

  /** A JavaScript regular expression literal: its source and its flags. */
  datatype Pattern = Pattern(source: string, flags: string)

  /** The host's regex engine: the number of matches of a pattern in a text, as
      `text.match(pattern)` reports it under the global flag (0 for `null`).
      `pattern.test(text)` holds exactly when this number is positive. */
  type RegexEngine = (Pattern, string) -> nat

  datatype Matcher =
    | Literal(text: string)                       // /verifyChecksum/
    | Assignment(name: string, value: string)     // /freq0\s*=\s*4500/
    | Declaration(keyword: string, name: string)  // /class\s+ModeController/
    | QuotedId(id: string)                        // /id=["']textInput["']/
    | Either(left: Matcher, right: Matcher)       // /a|b/
    | Regex(pattern: Pattern)                     // anything else

  predicate IsQuote(c: char)
  {
    c == '"' || c == '\''
  }

  /** Scanner for `name\s*=\s*value` at index `i`, consuming whitespace greedily. */
  predicate AssignmentAt(s: string, i: nat, name: string, value: string)
  {
    && StartsAt(s, i, name)
    && var j := SkipWhitespace(s, i + |name|);
    && j < |s| && s[j] == '='
    && StartsAt(s, SkipWhitespace(s, j + 1), value)
  }

  /** Scanner for `keyword\s+name` at index `i`. */
  predicate DeclarationAt(s: string, i: nat, keyword: string, name: string)
  {
    && StartsAt(s, i, keyword)
    && var j := SkipWhitespace(s, i + |keyword|);
    && i + |keyword| < j
    && StartsAt(s, j, name)
  }

  /** Scanner for `id=["']id["']` at index `i`; the two quotes are chosen independently. */
  predicate QuotedIdAt(s: string, i: nat, id: string)
  {
    && StartsAt(s, i, "id=")
    && i + 3 < |s| && IsQuote(s[i + 3])
    && StartsAt(s, i + 4, id)
    && i + 4 + |id| < |s| && IsQuote(s[i + 4 + |id|])
  }

  predicate HasAssignment(s: string, name: string, value: string)
  {
    exists i | 0 <= i <= |s| :: AssignmentAt(s, i, name, value)
  }

  predicate HasDeclaration(s: string, keyword: string, name: string)
  {
    exists i | 0 <= i <= |s| :: DeclarationAt(s, i, keyword, name)
  }

  predicate HasQuotedId(s: string, id: string)
  {
    exists i | 0 <= i <= |s| :: QuotedIdAt(s, i, id)
  }

  /** Whether the matcher finds its pattern in `text`. A scanned pattern is
      only found where each of its literal pieces occurs; a pattern left to the
      regex engine is found exactly when its match count is positive. */
  predicate Matches(m: Matcher, text: string, re: RegexEngine)
    ensures Matches(m, text, re) && m.Assignment? ==> Contains(text, m.name) && Contains(text, m.value)
    ensures Matches(m, text, re) && m.Declaration? ==> Contains(text, m.keyword) && Contains(text, m.name)
    ensures Matches(m, text, re) && m.QuotedId? ==> Contains(text, "id=") && Contains(text, m.id)
    ensures m.Regex? ==> (Matches(m, text, re) <==> re(m.pattern, text) > 0)
  {
    match m
    case Literal(p) => Contains(text, p)
    case Assignment(n, v) => HasAssignment(text, n, v)
    case Declaration(k, n) => HasDeclaration(text, k, n)
    case QuotedId(id) => QuotedIdContainsId(text, id); HasQuotedId(text, id)
    case Either(l, r) => Matches(l, text, re) || Matches(r, text, re)
    case Regex(p) => re(p, text) > 0
  }

  // ---------------------------------------------------------------------------
  // The regex semantics of the scanned patterns, stated without a scanner: some
  // split of the text into the pieces the pattern names. Backtracking may pick
  // any whitespace run, not only the longest one.

  ghost predicate AssignmentSplit(s: string, name: string, value: string, i: nat, j: nat, k: nat)
  {
    && StartsAt(s, i, name)
    && i + |name| <= j < k <= |s|
    && AllWhitespace(s, i + |name|, j)
    && s[j] == '='
    && AllWhitespace(s, j + 1, k)
    && StartsAt(s, k, value)
  }

  ghost predicate DeclarationSplit(s: string, keyword: string, name: string, i: nat, j: nat)
  {
    && StartsAt(s, i, keyword)
    && i + |keyword| < j <= |s|
    && AllWhitespace(s, i + |keyword|, j)
    && StartsAt(s, j, name)
  }

  /** The greedy scanner finds `name\s*=\s*value` exactly when the regex does,
      provided the value does not itself start with whitespace. */
  lemma AssignmentScanIsExact(s: string, name: string, value: string)
    requires value == [] || !IsWhitespace(value[0])
    ensures HasAssignment(s, name, value) <==>
            exists i: nat, j: nat, k: nat :: AssignmentSplit(s, name, value, i, j, k)
  {
    if HasAssignment(s, name, value) {
      var i :| 0 <= i <= |s| && AssignmentAt(s, i, name, value);
      ScannedAssignmentIsSplit(s, name, value, i);
    }
    if exists i: nat, j: nat, k: nat :: AssignmentSplit(s, name, value, i, j, k) {
      var i: nat, j: nat, k: nat :| AssignmentSplit(s, name, value, i, j, k);
      SplitAssignmentIsScanned(s, name, value, i, j, k);
    }
  }

  lemma ScannedAssignmentIsSplit(s: string, name: string, value: string, i: nat)
    requires AssignmentAt(s, i, name, value)
    ensures var j := SkipWhitespace(s, i + |name|);
            AssignmentSplit(s, name, value, i, j, SkipWhitespace(s, j + 1))
  {
  }

  lemma SplitAssignmentIsScanned(s: string, name: string, value: string, i: nat, j: nat, k: nat)
    requires value == [] || !IsWhitespace(value[0])
    requires AssignmentSplit(s, name, value, i, j, k)
    ensures i <= |s| && AssignmentAt(s, i, name, value)
  {
    SkipWhitespaceStopsAt(s, i + |name|, j);
    if value != [] {
      assert s[k] == s[k..k + |value|][0] == value[0];
      SkipWhitespaceStopsAt(s, j + 1, k);
    } else {
      assert StartsAt(s, SkipWhitespace(s, j + 1), value);
    }
  }

  /** The greedy scanner finds `keyword\s+name` exactly when the regex does,
      provided the name does not itself start with whitespace. */
  lemma DeclarationScanIsExact(s: string, keyword: string, name: string)
    requires name == [] || !IsWhitespace(name[0])
    ensures HasDeclaration(s, keyword, name) <==>
            exists i: nat, j: nat :: DeclarationSplit(s, keyword, name, i, j)
  {
    if HasDeclaration(s, keyword, name) {
      var i :| 0 <= i <= |s| && DeclarationAt(s, i, keyword, name);
      assert DeclarationSplit(s, keyword, name, i, SkipWhitespace(s, i + |keyword|));
    }
    if exists i: nat, j: nat :: DeclarationSplit(s, keyword, name, i, j) {
      var i: nat, j: nat :| DeclarationSplit(s, keyword, name, i, j);
      if name != [] {
        assert s[j] == name[0];
        SkipWhitespaceStopsAt(s, i + |keyword|, j);
      } else {
        SkipWhitespaceCoversRun(s, i + |keyword|, j);
      }
      assert DeclarationAt(s, i, keyword, name);
    }
  }

  /** `id=["']X["']` is the same as the presence of one of its four literal spellings. */
  lemma QuotedIdIsFourLiterals(s: string, id: string)
    ensures HasQuotedId(s, id) <==>
            || Contains(s, "id=\"" + id + "\"") || Contains(s, "id='" + id + "'")
            || Contains(s, "id=\"" + id + "'") || Contains(s, "id='" + id + "\"")
  {
    if HasQuotedId(s, id) {
      var i :| 0 <= i <= |s| && QuotedIdAt(s, i, id);
      var open, close := s[i + 3], s[i + 4 + |id|];
      var lit := s[i..i + 5 + |id|];
      assert lit == "id=" + [open] + id + [close];
      assert StartsAt(s, i, lit);
      if open == '"' && close == '"' {
        assert lit == "id=\"" + id + "\"";
        assert Contains(s, "id=\"" + id + "\"");
      } else if open == '\'' && close == '\'' {
        assert lit == "id='" + id + "'";
        assert Contains(s, "id='" + id + "'");
      } else if open == '"' {
        assert lit == "id=\"" + id + "'";
        assert Contains(s, "id=\"" + id + "'");
      } else {
        assert lit == "id='" + id + "\"";
        assert Contains(s, "id='" + id + "\"");
      }
    }
    QuotedIdFromLiteral(s, id, '"', '"');
    assert "id=" + ['"'] + id + ['"'] == "id=\"" + id + "\"";
    QuotedIdFromLiteral(s, id, '\'', '\'');
    assert "id=" + ['\''] + id + ['\''] == "id='" + id + "'";
    QuotedIdFromLiteral(s, id, '"', '\'');
    assert "id=" + ['"'] + id + ['\''] == "id=\"" + id + "'";
    QuotedIdFromLiteral(s, id, '\'', '"');
    assert "id=" + ['\''] + id + ['"'] == "id='" + id + "\"";
  }

  /** A quoted id attribute contains the id itself. */
  lemma QuotedIdContainsId(s: string, id: string)
    ensures HasQuotedId(s, id) ==> Contains(s, id)
  {
    if HasQuotedId(s, id) {
      var i :| 0 <= i <= |s| && QuotedIdAt(s, i, id);
      assert StartsAt(s, i + 4, id);
    }
  }

  lemma QuotedIdFromLiteral(s: string, id: string, open: char, close: char)
    requires IsQuote(open) && IsQuote(close)
    ensures Contains(s, "id=" + [open] + id + [close]) ==> HasQuotedId(s, id)
  {
    var f := "id=" + [open] + id + [close];
    if Contains(s, f) {
      var i :| 0 <= i <= |s| && StartsAt(s, i, f);
      StartsAtNested(s, i, f, 0, "id=");
      StartsAtNested(s, i, f, 4, id);
      assert s[i..i + |f|][3] == f[3] == open;
      assert s[i..i + |f|][4 + |id|] == f[4 + |id|] == close;
      assert QuotedIdAt(s, i, id);
    }
  }
}
