/** The fixed catalog of checks the validator runs over `audio-transfer.html`:
    one table per test, in the order the script declares them. */
module Catalog {
  import opened Text
  import opened Matchers

  /** A must-be-present check: passes when its matcher finds its pattern. */
  datatype Check = Check(name: string, matcher: Matcher)

  /** A must-be-absent check: a global, case-insensitive regex whose match
      count is reported; any match fails it. */
  datatype Probe = Probe(name: string, pattern: Pattern)

  /** Test 1: references to externally hosted resources. */
  const ExternalDependencies: seq<Probe> := [
    Probe("External CSS", Pattern("<link[^>]*rel=[\"']stylesheet[\"'][^>]*>", "gi")),
    Probe("External JavaScript", Pattern("<script[^>]*src=[\"'][^\"']+[\"'][^>]*>", "gi")),
    Probe("External Images", Pattern("<img[^>]*src=[\"']http[^\"']+[\"'][^>]*>", "gi")),
    Probe("CDN Links", Pattern("https?:\\/\\/(cdn|unpkg|jsdelivr|cdnjs)", "gi")),
    Probe("Import Statements", Pattern("import\\s+.*\\s+from\\s+['\"][^'\"]+['\"]", "gi"))
  ]

  /** Test 2: the classes the application must declare, each as `class\s+Name`. */
  const RequiredComponents: seq<Check> := [
    Check("ModeController class", Declaration("class", "ModeController")),
    Check("DataProcessor class", Declaration("class", "DataProcessor")),
    Check("InputHandler class", Declaration("class", "InputHandler")),
    Check("AudioEncoder class", Declaration("class", "AudioEncoder")),
    Check("AudioPlayer class", Declaration("class", "AudioPlayer")),
    Check("ProgressTracker class", Declaration("class", "ProgressTracker")),
    Check("AudioVisualizer class", Declaration("class", "AudioVisualizer")),
    Check("EmitterController class", Declaration("class", "EmitterController")),
    Check("GoertzelFilter class", Declaration("class", "GoertzelFilter")),
    Check("FrequencyDetector class", Declaration("class", "FrequencyDetector")),
    Check("AudioDecoder class", Declaration("class", "AudioDecoder")),
    Check("AudioRecorder class", Declaration("class", "AudioRecorder")),
    Check("ReceiverController class", Declaration("class", "ReceiverController"))
  ]

  /** Test 3: an inline presentation block and an inline behaviour block. */
  const StyleBlock: Pattern := Pattern("<style[^>]*>[\\s\\S]*<\\/style>", "i")
  const ScriptBlock: Pattern := Pattern("<script[^>]*>[\\s\\S]*<\\/script>", "i")

  /** Test 4: the modem's constants, each as `name\s*=\s*value`. */
  const AudioParameters: seq<Check> := [
    Check("Frequency 0 (4500 Hz)", Assignment("freq0", "4500")),
    Check("Frequency 1 (6500 Hz)", Assignment("freq1", "6500")),
    Check("Preamble Frequency (5500 Hz)", Assignment("freqPreamble", "5500")),
    Check("Baud Rate (100 bps)", Assignment("baudRate", "100")),
    Check("Sample Rate (48000 Hz)", Assignment("sampleRate", "48000")),
    Check("Chunk Size (255 bytes)", Assignment("chunkSize", "255"))
  ]

  /** Test 5: lexical signals of defensive code. */
  const ErrorHandling: seq<Check> := [
    Check("Microphone permission error", Regex(Pattern("permission\\s+denied", "i"))),
    Check("Web Audio API check", Either(Literal("AudioContext"), Literal("webkitAudioContext"))),
    Check("Checksum verification", Literal("verifyChecksum")),
    Check("Preamble timeout", Literal("preambleTimeout")),
    Check("Try-catch blocks", Regex(Pattern("try\\s*{[\\s\\S]*}\\s*catch", "")))
  ]

  /** Test 6: the user-interface affordances. */
  const UiElements: seq<Check> := [
    Check("Mode selection buttons", Either(QuotedId("emitterBtn"), QuotedId("receiverBtn"))),
    Check("Text input", QuotedId("textInput")),
    Check("File input", QuotedId("fileInput")),
    Check("Send button", QuotedId("sendBtn")),
    Check("Progress bars", Literal("progress-bar")),
    Check("Status messages", Literal("status-message")),
    Check("Data display", QuotedId("dataDisplay")),
    Check("Audio visualizer", Literal("audio-visualizer"))
  ]

  /** The six tables together, as the engine consumes them. */
  datatype Tables = Tables(
    dependencies: seq<Probe>,
    components: seq<Check>,
    styleBlock: Pattern,
    scriptBlock: Pattern,
    parameters: seq<Check>,
    errorHandling: seq<Check>,
    ui: seq<Check>)

  /** The catalog `validate-structure.js` declares. */
  const Standard: Tables :=
    Tables(ExternalDependencies, RequiredComponents, StyleBlock, ScriptBlock,
           AudioParameters, ErrorHandling, UiElements)

  /** No two checks of a table share a name (the tables are object literals,
      whose keys are distinct). */
  predicate DistinctNames(checks: seq<Check>)
  {
    forall i, j | 0 <= i < j < |checks| :: checks[i].name != checks[j].name
  }

  /** Test 1's table: five probes, all global and case-insensitive. */
  lemma DependencyTableShape()
    ensures |Standard.dependencies| == 5
    ensures forall p | 0 <= p < 5 :: Standard.dependencies[p].pattern.flags == "gi"
  {
  }

  /** Test 2's table: thirteen checks, each a `class` declaration. */
  lemma ComponentTableShape()
    ensures |Standard.components| == 13
    ensures forall c | 0 <= c < 13 ::
              Standard.components[c].matcher.Declaration? && Standard.components[c].matcher.keyword == "class"
  {
  }

  /** Test 3's patterns are case-insensitive and not global. */
  lemma BlockPatternShape()
    ensures Standard.styleBlock.flags == "i" && Standard.scriptBlock.flags == "i"
  {
  }

  /** Test 4's table: six distinct checks, each assigning a decimal constant. */
  lemma ParameterTableShape()
    ensures |Standard.parameters| == 6 && DistinctNames(AudioParameters)
    ensures forall p | 0 <= p < 6 ::
              && Standard.parameters[p].matcher.Assignment?
              && Standard.parameters[p].matcher.value != []
              && forall k | 0 <= k < |Standard.parameters[p].matcher.value| ::
                   '0' <= Standard.parameters[p].matcher.value[k] <= '9'
  {
  }

  /** Test 5's table: five checks with distinct names. */
  lemma ErrorTableShape()
    ensures |Standard.errorHandling| == 5 && DistinctNames(ErrorHandling)
  {
  }

  /** Test 6's table: eight checks with distinct names. */
  lemma UiTableShape()
    ensures |Standard.ui| == 8 && DistinctNames(UiElements)
  {
  }

  /** Every component check is a `class\s+Name` scan, and the scan is exactly
      the regex: some occurrence of `class`, a non-empty whitespace run, then the name. */
  lemma ComponentChecksAreExact(text: string, re: RegexEngine, c: nat)
    requires c < |RequiredComponents|
    ensures RequiredComponents[c].matcher.Declaration?
    ensures var m := RequiredComponents[c].matcher;
            Matches(m, text, re) <==>
            exists i: nat, j: nat :: DeclarationSplit(text, "class", m.name, i, j)
  {
    var m := RequiredComponents[c].matcher;
    assert m.keyword == "class" && m.name != [] && !IsWhitespace(m.name[0]);
    DeclarationScanIsExact(text, "class", m.name);
  }

  /** Every parameter check is a `name\s*=\s*value` scan, and the scan is
      exactly the regex. */
  lemma ParameterChecksAreExact(text: string, re: RegexEngine, p: nat)
    requires p < |AudioParameters|
    ensures AudioParameters[p].matcher.Assignment?
    ensures var m := AudioParameters[p].matcher;
            Matches(m, text, re) <==>
            exists i: nat, j: nat, k: nat :: AssignmentSplit(text, m.name, m.value, i, j, k)
  {
    var m := AudioParameters[p].matcher;
    assert m.value != [] && !IsWhitespace(m.value[0]);
    AssignmentScanIsExact(text, m.name, m.value);
  }

  /** `/AudioContext|webkitAudioContext/` tests nothing more than the presence
      of `AudioContext`: the second alternative contains the first. */
  lemma WebAudioCheckIsContainment(text: string, re: RegexEngine)
    ensures Matches(ErrorHandling[1].matcher, text, re) <==> Contains(text, "AudioContext")
  {
    if Contains(text, "webkitAudioContext") {
      var i :| 0 <= i <= |text| && StartsAt(text, i, "webkitAudioContext");
      assert StartsAt("webkitAudioContext", 6, "AudioContext");
      StartsAtNested(text, i, "webkitAudioContext", 6, "AudioContext");
    }
  }

  /** The mode-selection check needs only one of the two buttons: a text with
      the receiver button and no emitter button passes it. */
  lemma ModeSelectionNeedsOneButton(re: RegexEngine)
    ensures var s := "<button id=\"receiverBtn\">";
            Matches(UiElements[0].matcher, s, re) && !HasQuotedId(s, "emitterBtn")
  {
    var s := "<button id=\"receiverBtn\">";
    assert s[8..11] == "id=" && s[12..23] == "receiverBtn";
    assert QuotedIdAt(s, 8, "receiverBtn");
    assert 'm' !in s;
    MissingCharExcludes(s, "emitterBtn", 1);
    QuotedIdContainsId(s, "emitterBtn");
  }

  /** On every text, the mode-selection check passes exactly when one of the
      eight literal spellings of either button's id attribute occurs: either
      button alone suffices. */
  lemma ModeSelectionIsEitherButton(s: string, re: RegexEngine)
    ensures Matches(UiElements[0].matcher, s, re) <==>
            || Contains(s, "id=\"emitterBtn\"") || Contains(s, "id='emitterBtn'")
            || Contains(s, "id=\"emitterBtn'") || Contains(s, "id='emitterBtn\"")
            || Contains(s, "id=\"receiverBtn\"") || Contains(s, "id='receiverBtn'")
            || Contains(s, "id=\"receiverBtn'") || Contains(s, "id='receiverBtn\"")
  {
    assert UiElements[0].matcher == Either(QuotedId("emitterBtn"), QuotedId("receiverBtn"));
    EmitterSpellings(s);
    ReceiverSpellings(s);
  }

  lemma EmitterSpellings(s: string)
    ensures HasQuotedId(s, "emitterBtn") <==>
            || Contains(s, "id=\"emitterBtn\"") || Contains(s, "id='emitterBtn'")
            || Contains(s, "id=\"emitterBtn'") || Contains(s, "id='emitterBtn\"")
  {
    QuotedIdIsFourLiterals(s, "emitterBtn");
    assert "id=\"" + "emitterBtn" + "\"" == "id=\"emitterBtn\"";
    assert "id='" + "emitterBtn" + "'" == "id='emitterBtn'";
    assert "id=\"" + "emitterBtn" + "'" == "id=\"emitterBtn'";
    assert "id='" + "emitterBtn" + "\"" == "id='emitterBtn\"";
  }

  lemma ReceiverSpellings(s: string)
    ensures HasQuotedId(s, "receiverBtn") <==>
            || Contains(s, "id=\"receiverBtn\"") || Contains(s, "id='receiverBtn'")
            || Contains(s, "id=\"receiverBtn'") || Contains(s, "id='receiverBtn\"")
  {
    QuotedIdIsFourLiterals(s, "receiverBtn");
    assert "id=\"" + "receiverBtn" + "\"" == "id=\"receiverBtn\"";
    assert "id='" + "receiverBtn" + "'" == "id='receiverBtn'";
    assert "id=\"" + "receiverBtn" + "'" == "id=\"receiverBtn'";
    assert "id='" + "receiverBtn" + "\"" == "id='receiverBtn\"";
  }

  /** The parameter patterns have no boundary after the value, so a longer
      number that begins with the expected digits passes the check. */
  lemma ParameterValueIsAPrefixMatch(re: RegexEngine)
    ensures Matches(AudioParameters[3].matcher, "baudRate = 1000", re)
    ensures Matches(AudioParameters[4].matcher, "sampleRate=480000", re)
  {
    var s := "baudRate = 1000";
    assert SkipWhitespace(s, 8) == 9 && SkipWhitespace(s, 10) == 11;
    assert AssignmentAt(s, 0, "baudRate", "100");
    var t := "sampleRate=480000";
    assert SkipWhitespace(t, 10) == 10 && SkipWhitespace(t, 11) == 11;
    assert AssignmentAt(t, 0, "sampleRate", "48000");
  }

  /** `freq0 = 4400` names the first parameter but with another value, and
      the check misses it, just as it misses an empty text. */
  lemma DifferentFrequencyIsNotFound(re: RegexEngine)
    ensures !Matches(AudioParameters[0].matcher, "freq0 = 4400", re)
    ensures !Matches(AudioParameters[0].matcher, "", re)
  {
    var s := "freq0 = 4400";
    assert 'f' !in s[1..];
    forall i | 0 <= i <= |s|
      ensures !AssignmentAt(s, i, "freq0", "4500")
    {
      if i == 0 {
        assert SkipWhitespace(s, 5) == 6 && SkipWhitespace(s, 7) == 8;
        assert s[8..12] == "4400";
      } else if i + 5 <= |s| {
        assert s[i] == s[1..][i - 1];
        assert s[i..i + 5][0] == s[i];
      }
    }
    assert !AssignmentAt("", 0, "freq0", "4500");
  }
}
