# Structure validator of the Web Audio Transfer modem, in Dafny

`validate-structure.js` checks `audio-transfer.html` without running it. The
artifact is meant to be a self-contained acoustic modem page. The script runs
six suites of textual checks over the page:

1. no external dependencies;
2. the thirteen required classes;
3. an inline `<style>` and `<script>` block;
4. the modem's constants (`freq0 = 4500`, `baudRate = 100`, …);
5. lexical signs of error handling;
6. the UI elements.

Each suite folds its per-check results into one flag. The six flags form the
`tests` summary. The script counts the passed entries and exits 0 only when all
six pass. A failed read of the page exits 1 before any suite runs. Test 7 reports
size and line metrics and a size advisory, none of which is counted.

The model follows the script's structure:

- `Text`: JavaScript's `\s` class, substring occurrence and the greedy
  whitespace scan.
- `Matchers`: the matchers a check can use. Scanners model the literal patterns
  and the `name\s*=\s*value`, `class\s+Name` and `id=["']X["']` patterns
  exactly. Lemmas prove these scanners agree with the regex semantics. Every
  other regular expression is a `Regex(pattern)` matcher. A caller-supplied
  `RegexEngine` function gives its match count, and `test` holds exactly when
  that count is positive.
- `Catalog`: the six check tables as constants, with the script's names,
  patterns and expected values, gathered into `Catalog.Standard`.
- `Scans`: the two loop shapes as methods with loop invariants.
  - `ScanAbsent` is the dependency loop; it raises `hasExternalDeps`.
  - `ScanPresent` is the loop of Tests 2, 4, 5 and 6; it clears its flag on each
    miss.
- `Summary`: the `tests` array, `filter(...).length`, the pass rate and the exit
  status.
- `Metrics`: `split('\n').length`, the UTF-8 byte size and the size advisory.
- `Validator`: the load result, the whole run (`Run`), its functional
  specification (`Validate`) and the properties of a run. The suites are
  evaluated against any catalog of tables; `Run` passes `Catalog.Standard`,
  and the general properties hold for every catalog.

These checks are lexical. A pattern inside a comment still counts, and code
written differently from the expected pattern does not. The model keeps this
behaviour; it does not correct it.

Two labels in the script promise more than their patterns check:

- The parameter labels name exact values, such as `'Frequency 0 (4500 Hz)'`
  (`validate-structure.js:127`), and a hit prints "configured correctly"
  (`:138`). The patterns have no boundary after the value, so
  `baudRate = 1000` passes the `'Baud Rate (100 bps)'` check
  (`Catalog.ParameterValueIsAPrefixMatch`).
- The label `'Mode selection buttons'` (`:188`) is plural, but its pattern is
  an alternation, so either `emitterBtn` or `receiverBtn` alone passes
  (`Catalog.ModeSelectionIsEitherButton`).

## Model

| member | source | states |
|---|---|---|
| `Text.IsWhitespace` | validate-structure.js:127-132 | JavaScript's `\s`: within ASCII exactly the control codes 9 to 13 and the space; no letter, digit, quote, `=` or `-` is whitespace |
| `Text.Contains` | validate-structure.js:160-161 | a literal pattern's `test`: the empty pattern is found in every text, and a found pattern is no longer than the text and has each of its characters in it |
| `Text.SkipWhitespace` | validate-structure.js:127-132 | the greedy `\s*` scan stops at the end of the text or at the first non-whitespace character, and everything it skipped is whitespace |
| `Matchers.Matches` | validate-structure.js:77-85 | `regex.test(htmlContent)` for each kind of check: a scanned pattern is found only where its literal pieces (name and value, keyword and name, `id=` and the id) occur; a pattern left to the regex engine is found exactly when its match count is positive |
| `Matchers.AssignmentScanIsExact` | validate-structure.js:126-133 | the greedy `name\s*=\s*value` scanner finds a match exactly when some split of the text into name, whitespace, `=`, whitespace, value exists (the regex's backtracking semantics) |
| `Matchers.DeclarationScanIsExact` | validate-structure.js:61-75 | the `keyword\s+name` scanner finds a match exactly when the keyword, a non-empty whitespace run and the name occur in sequence |
| `Matchers.QuotedIdIsFourLiterals` | validate-structure.js:188-194 | `id=["']X["']` matches exactly when one of the four quote combinations occurs literally |
| `Catalog.DependencyTableShape` | validate-structure.js:30-36 | the dependency table has five probes, each global and case-insensitive |
| `Catalog.ComponentTableShape` | validate-structure.js:61-75 | the component table has thirteen checks, each a `class` declaration |
| `Catalog.BlockPatternShape` | validate-structure.js:99-100 | both block patterns are case-insensitive |
| `Catalog.ParameterTableShape` | validate-structure.js:126-133 | the parameter table has six checks with distinct names, each assigning a non-empty decimal constant |
| `Catalog.ErrorTableShape` | validate-structure.js:157-163 | the error-handling table has five checks with distinct names |
| `Catalog.UiTableShape` | validate-structure.js:187-196 | the UI table has eight checks with distinct names |
| `Catalog.ComponentChecksAreExact` | validate-structure.js:61-75 | each of the 13 component checks is a `class\s+Name` scan and agrees with the regex |
| `Catalog.ParameterChecksAreExact` | validate-structure.js:126-133 | each of the 6 parameter checks is a `name\s*=\s*value` scan and agrees with the regex |
| `Catalog.WebAudioCheckIsContainment` | validate-structure.js:159 | `/AudioContext\|webkitAudioContext/` passes exactly when `AudioContext` occurs |
| `Catalog.ModeSelectionIsEitherButton` | validate-structure.js:188 | on every page, the mode-selection check passes exactly when one of the eight literal spellings of `id="emitterBtn"` or `id="receiverBtn"` (either quote on each side) occurs, so either button alone suffices |
| `Catalog.ModeSelectionNeedsOneButton` | validate-structure.js:188 | a page with only the receiver button passes the mode-selection check; the emitter button is not needed |
| `Catalog.ParameterValueIsAPrefixMatch` | validate-structure.js:127-132 | `baudRate = 1000` passes the 100 bps check and `sampleRate=480000` passes the 48000 Hz check |
| `Catalog.DifferentFrequencyIsNotFound` | validate-structure.js:127 | `freq0 = 4400` and the empty text both miss the `freq0` check |
| `Scans.AllPassedIsAFold` | validate-structure.js:77-85 | a suite's verdict `AllPassed` is the fold the loops compute: true for no outcomes, and appending an outcome ANDs in its verdict |
| `Scans.AbsenceOutcomes` | validate-structure.js:38-47 | one outcome per dependency probe, all passing exactly when every probe's count is zero |
| `Scans.PresenceOutcomes` | validate-structure.js:77-85 | one outcome per check, all passing exactly when every check matches (also the tables of Tests 4 to 6) |
| `Scans.ScanAbsent` | validate-structure.js:38-47 | every probe is counted, with no early exit; the flag is raised exactly when some probe's count is positive, which is exactly when the outcomes do not all pass |
| `Scans.ScanPresent` | validate-structure.js:77-85 | every check is tested, with no early exit (also the loops at 135-143, 165-173 and 199-206); the flag is the conjunction of all checks; the ghost trace starts true and each step ANDs in one check's result |
| `Scans.FlagNeverRecovers` | validate-structure.js:77-85 | a flag updated step by step as in the presence loops only ever moves from true to false |
| `Scans.MissesReportAlike` | validate-structure.js:136-142 | two texts that a check misses, for whatever reason, give that check the same outcome and both fail the suite |
| `Summary.PassedOnlyCountsPassing` | validate-structure.js:251 | `filter(t => t.passed).length` equals the number of indices whose entry passed |
| `Summary.PassedOnly` | validate-structure.js:251 | the filtered summary is no longer than the summary, and every entry in it passed and comes from the summary |
| `Summary.PassedOnlyKeepsAllIff` | validate-structure.js:251-252 | `passedTests == totalTests` exactly when every summary entry passed |
| `Summary.PassedOnlyDropsByOne` | validate-structure.js:251 | failing one passing entry, with the others unchanged, lowers `passedTests` by exactly one |
| `Summary.PassRateFullIffExitZero` | validate-structure.js:253-274 | the pass rate (as an exact rational, before rounding) is 100 exactly when the exit status is 0 |
| `Summary.Tests` | validate-structure.js:242-249 | the summary has six entries, entry k carries suite k's verdict (Test 3's is both block flags), and all of them pass exactly when all six suite verdicts pass |
| `Summary.ExitStatus` | validate-structure.js:266-274 | the status is 0 or 1, and 0 exactly when every test passed |
| `Summary.PassRate` | validate-structure.js:253 | when no more tests passed than ran, the rate lies between 0 and 100 |
| `Summary.OneSuiteLossLowersCount` | validate-structure.js:251-274 | one suite going from pass to fail, the other five unchanged, lowers `passedTests` by one and makes the exit status 1 |
| `Metrics.Split` | validate-structure.js:222 | `split` always yields at least one piece |
| `Metrics.SplitCountsSeparators` | validate-structure.js:222 | `split('\n')` yields one more piece than the text has newlines |
| `Metrics.SplitJoinRoundTrip` | validate-structure.js:222 | no piece contains the separator, and joining the pieces restores the text |
| `Metrics.LineCount` | validate-structure.js:222 | the line count is the number of newlines plus one |
| `Metrics.SizeIsReasonable` | validate-structure.js:231 | the advisory holds only for texts under 1048576 characters, and always for texts under 262144 characters |
| `Metrics.Measure` | validate-structure.js:219-231 | the reported line count is the newline count plus one, the byte size lies between one and four bytes per character, and the advisory holds exactly when the byte size is under one mebibyte |
| `Metrics.Utf8Size` | validate-structure.js:220 | the UTF-8 size is between one and four bytes per character, and equals the character count exactly when the text is ASCII |
| `Validator.Evaluate` | validate-structure.js:29-212 | one outcome per check of each table, and each suite's verdict holds exactly when every probe of Test 1 counts zero, or every check of its table matches |
| `Validator.Validate` | validate-structure.js:242-253 | the report's suites are `Evaluate`'s outcomes for the page and its summary is `Tests` of them; `totalTests` is 6; `passedTests` is the number of summary entries that passed, at most 6; they are equal exactly when every suite passes |
| `Validator.RunSuites` | validate-structure.js:29-212 | running the six suites in order yields `Evaluate`'s outcomes, and each of the script's flags equals its suite's verdict |
| `Validator.Run` | validate-structure.js:16-274 | a failed load (`Load`, lines 16-22) exits 1 with no report; a loaded page yields `Validate`'s report and the status `ExitStatus` gives for its counts; the status is always 0 or 1, and 0 exactly when the page loaded and all six suites pass |
| `Validator.DependencySuiteExact` | validate-structure.js:38-53 | Test 1 passes exactly when every dependency pattern has zero matches |
| `Validator.TablesDecideTheirTests` | validate-structure.js:77-212 | Tests 2, 4, 5 and 6 each pass exactly when every check of their own table matches the page |
| `Validator.InlineSuiteNeedsBothBlocks` | validate-structure.js:99-118 | Test 3 passes exactly when both a style block and a script block match |
| `Validator.ExitZeroIffAllSuitesPass` | validate-structure.js:251-274 | the exit status is 0, and the pass rate is 100, exactly when all six suites pass |
| `Validator.SummaryCountsOnlySuites` | validate-structure.js:231-252 | the summary is the six suite entries and nothing else; two pages that the suites see alike get the same summary and count, whatever their size |
| `Validator.ComponentLossFailsOnlyComponents` | validate-structure.js:61-91 | losing one required class, with every other check unaffected, fails Test 2 only, lowers `passedTests` by one and makes the exit status 1 |
| `Validator.ChecksumLossFailsOnlyErrorHandling` | validate-structure.js:157-179 | removing `verifyChecksum` from a page that passes everything, with every other check unaffected, fails Test 5 only: 5 of 6 pass and the exit status is 1 |
| `Validator.SignalLossFailsOnlyErrorHandling` | validate-structure.js:157-179 | losing any one error-handling signal from a page that passes everything, with every other check unaffected, fails Test 5 only: 5 of 6 pass and the exit status is 1 |
| `Validator.WrongParameterReportsLikeMissing` | validate-structure.js:136-143 | a wrong value that the pattern misses and a missing parameter give the same `NOT found or incorrect` outcome and both fail Test 4 |
| `Validator.DifferentFrequencyFails` | validate-structure.js:127 | `freq0 = 4400` fails Test 4 and gets the same outcome as a page without `freq0` |

## Left out

- Reading the file (`fs.readFileSync`, `path.join`, lines 13-22) is external. The model takes its result as a `Load` value, either the content or a failure.
- Console output is left out: banners, per-check messages and the summary lines. `process.exit` is the returned status.
- JavaScript regex matching is not modelled for the patterns that are not plain literals or whitespace-separated tokens. These are the five dependency patterns, the style and script block pairs, `permission\s+denied` with the `i` flag, and the try/catch pattern. Their match counts come from the `RegexEngine` parameter. `test` is taken to hold exactly when the global match count is positive.
- `Summary.PassRate`: the model uses the exact rational `passedTests / totalTests * 100`. It does not model the one-decimal rounding that `toFixed(1)` adds.
- `fileSizeKB` (line 221) is a formatted decimal and is not modelled. The class and function counts (lines 223-224) use `\w+` regex scans and are not modelled either. Both values are informational only.
- `Metrics.Utf8Size` counts the bytes of Unicode scalar values. The text comes from `readFileSync(htmlPath, 'utf8')`, whose decoding replaces ill-formed bytes with U+FFFD, so it never holds a lone surrogate; nothing is lost by leaving them out.
- Determinism of a run is not stated as a lemma. Every model operation is a function or a method without state, so the same input always gives the same report.
