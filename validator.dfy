/** The whole run of the structure validator: load the artifact, run the six
    suites, summarise, and pick the exit status. The suites are evaluated
    against a catalog of check tables; the script uses `Catalog.Standard`. */
module Validator {
  import opened Text
  import opened Matchers
  import opened Catalog
  import opened Scans
  import opened Summary
  import opened Metrics

  /** What reading `audio-transfer.html` produced. */
  datatype Load = Loaded(content: string) | LoadFailed(message: string)

  datatype Option<T> = None | Some(value: T)

  /** Everything the script reports after the suites have run. */
  datatype Report = Report(
    suites: Suites,
    tests: seq<Test>,
    passedTests: nat,
    totalTests: nat,
    metrics: Metrics)

  /** Runs the six suites of `tables` over the artifact, in the script's order. */
  function Evaluate(tables: Tables, text: string, re: RegexEngine): (s: Suites)
    ensures |s.dependencies| == |tables.dependencies| && |s.components| == |tables.components|
    ensures |s.parameters| == |tables.parameters| && |s.errorHandling| == |tables.errorHandling|
    ensures |s.ui| == |tables.ui|
    ensures AllPassed(s.dependencies) <==> forall p | 0 <= p < |tables.dependencies| :: re(tables.dependencies[p].pattern, text) == 0
    ensures AllPassed(s.components) <==> forall c | 0 <= c < |tables.components| :: Matches(tables.components[c].matcher, text, re)
    ensures AllPassed(s.parameters) <==> forall c | 0 <= c < |tables.parameters| :: Matches(tables.parameters[c].matcher, text, re)
    ensures AllPassed(s.errorHandling) <==> forall c | 0 <= c < |tables.errorHandling| :: Matches(tables.errorHandling[c].matcher, text, re)
    ensures AllPassed(s.ui) <==> forall c | 0 <= c < |tables.ui| :: Matches(tables.ui[c].matcher, text, re)
  {
    Suites(
      AbsenceOutcomes(tables.dependencies, text, re),
      PresenceOutcomes(tables.components, text, re),
      Matches(Regex(tables.styleBlock), text, re),
      Matches(Regex(tables.scriptBlock), text, re),
      PresenceOutcomes(tables.parameters, text, re),
      PresenceOutcomes(tables.errorHandling, text, re),
      PresenceOutcomes(tables.ui, text, re))
  }

  /** The report of a run over a loaded artifact. */
  function Validate(tables: Tables, text: string, re: RegexEngine): (r: Report)
    ensures r.suites == Evaluate(tables, text, re) && r.tests == Tests(r.suites)
    ensures r.totalTests == 6 && r.passedTests <= r.totalTests
    ensures r.passedTests == |set i: nat | i < |r.tests| && r.tests[i].passed|
    ensures r.passedTests == r.totalTests <==> AllSuitesPass(r.suites)
  {
    var suites := Evaluate(tables, text, re);
    var tests := Tests(suites);
    PassedOnlyCountsPassing(tests);
    PassedOnlyKeepsAllIff(tests);
    Report(suites, tests, |PassedOnly(tests)|, |tests|, Measure(text))
  }

  /** Tests 1 to 6 in the script's order, each loop run to completion. The
      flags are the script's `hasExternalDeps`, `allComponentsPresent`,
      `hasStyleTag && hasScriptTag`, `allParamsCorrect`, `hasErrorHandling`
      and `allUIPresent`. */
  method RunSuites(tables: Tables, html: string, re: RegexEngine)
    returns (suites: Suites, hasExternalDeps: bool, allComponentsPresent: bool, inline: bool,
             allParamsCorrect: bool, hasErrorHandling: bool, allUIPresent: bool)
    ensures suites == Evaluate(tables, html, re)
    ensures hasExternalDeps == !AllPassed(suites.dependencies)
    ensures allComponentsPresent == AllPassed(suites.components)
    ensures inline == (suites.hasStyleTag && suites.hasScriptTag)
    ensures allParamsCorrect == AllPassed(suites.parameters)
    ensures hasErrorHandling == AllPassed(suites.errorHandling)
    ensures allUIPresent == AllPassed(suites.ui)
  {
    var dependencies, components, parameters, errorHandling, ui;
    ghost var trace: seq<bool>;
    hasExternalDeps, dependencies := ScanAbsent(tables.dependencies, html, re);
    allComponentsPresent, components, trace := ScanPresent(tables.components, html, re);
    var hasStyleTag := re(tables.styleBlock, html) > 0;
    var hasScriptTag := re(tables.scriptBlock, html) > 0;
    inline := hasStyleTag && hasScriptTag;
    allParamsCorrect, parameters, trace := ScanPresent(tables.parameters, html, re);
    hasErrorHandling, errorHandling, trace := ScanPresent(tables.errorHandling, html, re);
    allUIPresent, ui, trace := ScanPresent(tables.ui, html, re);
    suites := Suites(dependencies, components, hasStyleTag, hasScriptTag, parameters, errorHandling, ui);
  }

  /** The script from top to bottom. A failed load exits 1 before any suite
      runs and prints no report; otherwise every suite runs in full and the
      exit status is 0 exactly when all six pass. */
  method Run(load: Load, re: RegexEngine) returns (status: nat, report: Option<Report>)
    ensures load.LoadFailed? ==> status == 1 && report == None
    ensures load.Loaded? ==> report == Some(Validate(Standard, load.content, re))
    ensures load.Loaded? ==> status == ExitStatus(report.value.passedTests, report.value.totalTests)
    ensures status == 0 || status == 1
    ensures status == 0 <==> load.Loaded? && AllSuitesPass(Evaluate(Standard, load.content, re))
  {
    if load.LoadFailed? {
      return 1, None;
    }
    var html := load.content;
    var suites, hasExternalDeps, allComponentsPresent, inline, allParamsCorrect, hasErrorHandling, allUIPresent :=
      RunSuites(Standard, html, re);
    var metrics := Measure(html);
    var tests := [
      Test("Single File Structure", !hasExternalDeps),
      Test("Required Components", allComponentsPresent),
      Test("Inline CSS and JavaScript", inline),
      Test("Audio Encoding Parameters", allParamsCorrect),
      Test("Error Handling", hasErrorHandling),
      Test("UI Elements", allUIPresent)
    ];
    assert tests == Tests(suites);
    var passedTests := |PassedOnly(tests)|;
    var totalTests := |tests|;
    report := Some(Report(suites, tests, passedTests, totalTests, metrics));
    status := ExitStatus(passedTests, totalTests);
    assert report.value == Validate(Standard, html, re);
  }

  // ---------------------------------------------------------------------------
  // Properties of a run.

  /** Test 1 passes exactly when none of the dependency patterns matches; one
      positive count fails it. */
  lemma DependencySuiteExact(tables: Tables, text: string, re: RegexEngine)
    ensures Validate(tables, text, re).tests[0].passed <==>
            forall p | 0 <= p < |tables.dependencies| :: re(tables.dependencies[p].pattern, text) == 0
  {
    var outcomes := Evaluate(tables, text, re).dependencies;
    assert forall p | 0 <= p < |tables.dependencies| ::
      outcomes[p].Passed() == (re(tables.dependencies[p].pattern, text) == 0);
  }

  /** Tests 2, 4, 5 and 6 each pass exactly when every check of their own
      table matches the artifact. */
  lemma TablesDecideTheirTests(tables: Tables, text: string, re: RegexEngine)
    ensures var r := Validate(tables, text, re);
            && (r.tests[1].passed <==> forall c | 0 <= c < |tables.components| :: Matches(tables.components[c].matcher, text, re))
            && (r.tests[3].passed <==> forall c | 0 <= c < |tables.parameters| :: Matches(tables.parameters[c].matcher, text, re))
            && (r.tests[4].passed <==> forall c | 0 <= c < |tables.errorHandling| :: Matches(tables.errorHandling[c].matcher, text, re))
            && (r.tests[5].passed <==> forall c | 0 <= c < |tables.ui| :: Matches(tables.ui[c].matcher, text, re))
  {
  }

  /** Test 3 passes exactly when both an inline style block and an inline
      script block are present. */
  lemma InlineSuiteNeedsBothBlocks(tables: Tables, text: string, re: RegexEngine)
    ensures Validate(tables, text, re).tests[2].passed <==>
            re(tables.styleBlock, text) > 0 && re(tables.scriptBlock, text) > 0
  {
  }

  /** The exit status is 0 exactly when all six suites pass, which is exactly
      when the pass rate is 100. */
  lemma ExitZeroIffAllSuitesPass(tables: Tables, text: string, re: RegexEngine)
    ensures var r := Validate(tables, text, re);
            && (ExitStatus(r.passedTests, r.totalTests) == 0 <==> AllSuitesPass(Evaluate(tables, text, re)))
            && (PassRate(r.passedTests, r.totalTests) == 100.0 <==> AllSuitesPass(Evaluate(tables, text, re)))
  {
    var r := Validate(tables, text, re);
    PassRateFullIffExitZero(r.passedTests, r.totalTests);
  }

  /** `passedTests` counts the summary entries that passed and lies between 0
      and `totalTests`, which is 6. The size advisory of Test 7 is not among
      the entries: two artifacts the suites see alike get the same summary,
      whatever their sizes. */
  lemma SummaryCountsOnlySuites(tables: Tables, t1: string, t2: string, re: RegexEngine)
    requires Evaluate(tables, t1, re) == Evaluate(tables, t2, re)
    ensures var r1, r2 := Validate(tables, t1, re), Validate(tables, t2, re);
            && r1.tests == Tests(Evaluate(tables, t1, re)) && |r1.tests| == r1.totalTests == 6
            && r1.passedTests == |PassedOnly(r1.tests)| <= 6
            && r1.tests == r2.tests && r1.passedTests == r2.passedTests
  {
  }

  /** Losing one required component, with every other suite unaffected, fails
      Test 2, leaves the other five entries as they were, lowers the passed
      count by one and turns the exit status to 1. */
  lemma ComponentLossFailsOnlyComponents(tables: Tables, before: string, after: string, re: RegexEngine, c: nat)
    requires c < |tables.components|
    requires AllPassed(Evaluate(tables, before, re).components)
    requires !Matches(tables.components[c].matcher, after, re)
    requires Evaluate(tables, after, re).(components := []) == Evaluate(tables, before, re).(components := [])
    ensures var rb, ra := Validate(tables, before, re), Validate(tables, after, re);
            && rb.tests[1].passed && !ra.tests[1].passed
            && (forall j | 0 <= j < 6 && j != 1 :: ra.tests[j] == rb.tests[j])
            && ra.passedTests + 1 == rb.passedTests
            && ExitStatus(ra.passedTests, ra.totalTests) == 1
  {
    var sb, sa := Evaluate(tables, before, re), Evaluate(tables, after, re);
    assert !sa.components[c].Passed();
    OneSuiteLossLowersCount(sb, sa, 1);
  }

  /** Losing one error-handling signal from an artifact that passes
      everything, with every other suite unaffected, fails Test 5 alone: five
      of six pass and the exit status is 1. */
  lemma SignalLossFailsOnlyErrorHandling(tables: Tables, before: string, after: string, re: RegexEngine, e: nat)
    requires e < |tables.errorHandling|
    requires AllSuitesPass(Evaluate(tables, before, re))
    requires !Matches(tables.errorHandling[e].matcher, after, re)
    requires Evaluate(tables, after, re).(errorHandling := []) == Evaluate(tables, before, re).(errorHandling := [])
    ensures var ra := Validate(tables, after, re);
            && !ra.tests[4].passed
            && (forall j | 0 <= j < 6 && j != 4 :: ra.tests[j].passed)
            && ra.passedTests == 5 == ra.totalTests - 1
            && ExitStatus(ra.passedTests, ra.totalTests) == 1
  {
    var sb, sa := Evaluate(tables, before, re), Evaluate(tables, after, re);
    assert !sa.errorHandling[e].Passed();
    PassedOnlyKeepsAllIff(Tests(sb));
    OneSuiteLossLowersCount(sb, sa, 4);
  }

  /** Removing `verifyChecksum` from an artifact that passes the script's
      catalog, with every other suite unaffected, fails Test 5 alone. */
  lemma ChecksumLossFailsOnlyErrorHandling(before: string, after: string, re: RegexEngine)
    requires AllSuitesPass(Evaluate(Standard, before, re))
    requires !Contains(after, "verifyChecksum")
    requires Evaluate(Standard, after, re).(errorHandling := []) == Evaluate(Standard, before, re).(errorHandling := [])
    ensures var ra := Validate(Standard, after, re);
            && !ra.tests[4].passed
            && (forall j | 0 <= j < 6 && j != 4 :: ra.tests[j].passed)
            && ra.passedTests == 5
            && ExitStatus(ra.passedTests, ra.totalTests) == 1
  {
    assert Standard.errorHandling[2].matcher == Literal("verifyChecksum");
    SignalLossFailsOnlyErrorHandling(Standard, before, after, re, 2);
  }

  /** A parameter written with the wrong value reports exactly like a missing
      one: the same outcome for that check and a failing Test 4. */
  lemma WrongParameterReportsLikeMissing(tables: Tables, wrong: string, missing: string, re: RegexEngine, p: nat)
    requires p < |tables.parameters|
    requires !Matches(tables.parameters[p].matcher, wrong, re)
    requires !Matches(tables.parameters[p].matcher, missing, re)
    ensures Evaluate(tables, wrong, re).parameters[p] == Evaluate(tables, missing, re).parameters[p]
            == Presence(tables.parameters[p].name, false)
    ensures !Validate(tables, wrong, re).tests[3].passed && !Validate(tables, missing, re).tests[3].passed
  {
    MissesReportAlike(tables.parameters, wrong, missing, re, p);
  }

  /** `freq0 = 4400` names the parameter with a different value and fails
      Test 4 just as a text without it does. */
  lemma DifferentFrequencyFails(re: RegexEngine)
    ensures !Validate(Standard, "freq0 = 4400", re).tests[3].passed
    ensures Evaluate(Standard, "freq0 = 4400", re).parameters[0] == Evaluate(Standard, "", re).parameters[0]
  {
    DifferentFrequencyIsNotFound(re);
    WrongParameterReportsLikeMissing(Standard, "freq0 = 4400", "", re, 0);
  }
}
