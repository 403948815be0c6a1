/** Test 7's informational metrics: byte size, line count and the size
    advisory, none of which enters the summary. */
module Metrics {

  /** `text.split(sep)`: the pieces between separators, keeping empty pieces. */
  function Split(s: string, sep: char): (parts: seq<string>)
    ensures |parts| >= 1
    decreases |s|
  {
    if s == [] then [[]]
    else
      var rest := Split(s[1..], sep);
      if s[0] == sep then [[]] + rest
      else [[s[0]] + rest[0]] + rest[1..]
  }

  /** `parts.join(sep)`, the inverse of `Split`. */
  function Join(parts: seq<string>, sep: char): string
    requires |parts| >= 1
  {
    if |parts| == 1 then parts[0] else parts[0] + [sep] + Join(parts[1..], sep)
  }

  /** `split` produces one more piece than there are separators. */
  lemma {:induction false} SplitCountsSeparators(s: string, sep: char)
    ensures |Split(s, sep)| == multiset(s)[sep] + 1
    decreases |s|
  {
    if s != [] {
      SplitCountsSeparators(s[1..], sep);
      assert s == [s[0]] + s[1..];
      assert multiset(s) == multiset([s[0]]) + multiset(s[1..]);
    }
  }

  /** No piece contains the separator, and joining the pieces gives back the text. */
  lemma {:induction false} SplitJoinRoundTrip(s: string, sep: char)
    ensures forall p | p in Split(s, sep) :: sep !in p
    ensures Join(Split(s, sep), sep) == s
    decreases |s|
  {
    if s != [] {
      var rest := Split(s[1..], sep);
      SplitJoinRoundTrip(s[1..], sep);
      if s[0] == sep {
        assert Split(s, sep)[1..] == rest;
      } else {
        var parts := Split(s, sep);
        assert parts[1..] == rest[1..];
        if |rest| > 1 {
          assert rest[1..] != [];
          assert Join(rest, sep) == rest[0] + [sep] + Join(rest[1..], sep);
        }
        assert s == [s[0]] + s[1..];
      }
    }
  }

  /** `htmlContent.split('\n').length`. */
  function LineCount(text: string): (n: nat)
    ensures n == multiset(text)['\n'] + 1
  {
    SplitCountsSeparators(text, '\n');
    |Split(text, '\n')|
  }

  /** Bytes of one character in UTF-8. */
  function Utf8Width(c: char): (w: nat)
    ensures 1 <= w <= 4
    ensures w == 1 <==> (c as int) < 0x80
  {
    if (c as int) < 0x80 then 1
    else if (c as int) < 0x800 then 2
    else if (c as int) < 0x1_0000 then 3
    else 4
  }

  /** `Buffer.byteLength(text, 'utf8')`. */
  function Utf8Size(text: string): (n: nat)
    ensures |text| <= n <= 4 * |text|
    ensures n == |text| <==> forall i | 0 <= i < |text| :: (text[i] as int) < 0x80
  {
    if text == [] then 0
    else
      var rest := text[1..];
      assert forall i | 1 <= i < |text| :: text[i] == rest[i - 1];
      Utf8Width(text[0]) + Utf8Size(rest)
  }

  /** The advisory of Test 7: the artifact stays under one mebibyte. A
      reasonable text has fewer than 1048576 characters, and any text of fewer
      than 262144 characters is reasonable. */
  predicate SizeIsReasonable(text: string)
    ensures SizeIsReasonable(text) ==> |text| < 1024 * 1024
    ensures 4 * |text| < 1024 * 1024 ==> SizeIsReasonable(text)
  {
    Utf8Size(text) < 1024 * 1024
  }

  /** The informational report of Test 7. */
  datatype Metrics = Metrics(fileSize: nat, lineCount: nat, sizeIsReasonable: bool)

  function Measure(text: string): (m: Metrics)
    ensures m.lineCount == multiset(text)['\n'] + 1
    ensures |text| <= m.fileSize <= 4 * |text|
    ensures m.sizeIsReasonable <==> m.fileSize < 1024 * 1024
  {
    Metrics(Utf8Size(text), LineCount(text), SizeIsReasonable(text))
  }
}
