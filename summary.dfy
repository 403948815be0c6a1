/** The validation summary: one entry per gating test, the number that passed,
    the pass rate and the exit status derived from them. */
module Summary {
  import opened Scans

  /** Everything the six suites observed in one run. */
  datatype Suites = Suites(
    dependencies: seq<Outcome>,
    components: seq<Outcome>,
    hasStyleTag: bool,
    hasScriptTag: bool,
    parameters: seq<Outcome>,
    errorHandling: seq<Outcome>,
    ui: seq<Outcome>)

  /** One entry of the summary array. */
  datatype Test = Test(name: string, passed: bool)

  /** The summary array, in the order the tests ran: entry k carries suite k's
      verdict, and the entries all pass exactly when every suite verdict passes. */
  function Tests(s: Suites): (tests: seq<Test>)
    ensures |tests| == 6
    ensures tests[0].passed == AllPassed(s.dependencies) && tests[1].passed == AllPassed(s.components)
    ensures tests[2].passed == (s.hasStyleTag && s.hasScriptTag) && tests[3].passed == AllPassed(s.parameters)
    ensures tests[4].passed == AllPassed(s.errorHandling) && tests[5].passed == AllPassed(s.ui)
    ensures (forall i | 0 <= i < 6 :: tests[i].passed) <==> AllSuitesPass(s)
  {
    var t := [
      Test("Single File Structure", AllPassed(s.dependencies)),
      Test("Required Components", AllPassed(s.components)),
      Test("Inline CSS and JavaScript", s.hasStyleTag && s.hasScriptTag),
      Test("Audio Encoding Parameters", AllPassed(s.parameters)),
      Test("Error Handling", AllPassed(s.errorHandling)),
      Test("UI Elements", AllPassed(s.ui)) ];
    t
  }

  /** Every suite verdict passes. */
  predicate AllSuitesPass(s: Suites)
  {
    && AllPassed(s.dependencies)
    && AllPassed(s.components)
    && s.hasStyleTag && s.hasScriptTag
    && AllPassed(s.parameters)
    && AllPassed(s.errorHandling)
    && AllPassed(s.ui)
  }

  /** `tests.filter(t => t.passed)`. */
  function PassedOnly(tests: seq<Test>): (r: seq<Test>)
    ensures |r| <= |tests|
    ensures forall t | t in r :: t.passed && t in tests
  {
    if tests == [] then []
    else (if tests[0].passed then [tests[0]] else []) + PassedOnly(tests[1..])
  }

  /** The filter keeps every entry exactly when every entry passed. */
  lemma {:induction false} PassedOnlyKeepsAllIff(tests: seq<Test>)
    ensures |PassedOnly(tests)| == |tests| <==> forall i | 0 <= i < |tests| :: tests[i].passed
  {
    if tests != [] {
      PassedOnlyKeepsAllIff(tests[1..]);
      assert forall i | 1 <= i < |tests| :: tests[i] == tests[1..][i - 1];
    }
  }

  /** Turning one passing entry into a failing one, with every other entry
      unchanged, lowers the filtered count by exactly one. */
  lemma {:induction false} PassedOnlyDropsByOne(before: seq<Test>, after: seq<Test>, k: nat)
    requires |before| == |after| && k < |before|
    requires before[k].passed && !after[k].passed
    requires forall j | 0 <= j < |before| && j != k :: after[j] == before[j]
    ensures |PassedOnly(after)| + 1 == |PassedOnly(before)|
  {
    if k == 0 {
      assert before[1..] == after[1..];
    } else {
      PassedOnlyDropsByOne(before[1..], after[1..], k - 1);
    }
  }

  /** The indices from `lo` on whose entries passed. */
  ghost function PassingFrom(tests: seq<Test>, lo: nat): set<nat>
  {
    set i: nat | lo <= i < |tests| && tests[i].passed
  }

  /** `filter(t => t.passed).length` is the number of entries that passed. */
  lemma PassedOnlyCountsPassing(tests: seq<Test>)
    ensures |PassedOnly(tests)| == |set i: nat | i < |tests| && tests[i].passed|
  {
    PassedOnlyCountsFrom(tests, 0);
    assert tests[0..] == tests;
    assert PassingFrom(tests, 0) == set i: nat | i < |tests| && tests[i].passed;
  }

  lemma {:induction false} PassedOnlyCountsFrom(tests: seq<Test>, lo: nat)
    requires lo <= |tests|
    ensures |PassedOnly(tests[lo..])| == |PassingFrom(tests, lo)|
    decreases |tests| - lo
  {
    if lo == |tests| {
      assert PassingFrom(tests, lo) == {};
    } else {
      PassedOnlyCountsFrom(tests, lo + 1);
      assert tests[lo..][1..] == tests[lo + 1..];
      var head: set<nat> := if tests[lo].passed then {lo} else {};
      assert PassingFrom(tests, lo) == head + PassingFrom(tests, lo + 1);
      assert lo !in PassingFrom(tests, lo + 1);
    }
  }

  /** Exit status of the script: 0 when every test passed, 1 otherwise; no
      other status exists. */
  function ExitStatus(passedTests: nat, totalTests: nat): (status: nat)
    ensures status == 0 || status == 1
    ensures status == 0 <==> passedTests == totalTests
  {
    if passedTests == totalTests then 0 else 1
  }

  /** `passedTests / totalTests * 100`, before `toFixed(1)` formats it. */
  function PassRate(passedTests: nat, totalTests: nat): (rate: real)
    requires totalTests > 0
    ensures passedTests <= totalTests ==> 0.0 <= rate <= 100.0
  {
    (passedTests as real / totalTests as real) * 100.0
  }

  /** The pass rate reads 100 exactly when the script exits 0. */
  lemma PassRateFullIffExitZero(passedTests: nat, totalTests: nat)
    requires 0 < totalTests && passedTests <= totalTests
    ensures PassRate(passedTests, totalTests) == 100.0 <==> ExitStatus(passedTests, totalTests) == 0
  {
    var q := passedTests as real / totalTests as real;
    assert q * totalTests as real == passedTests as real;
    if PassRate(passedTests, totalTests) == 100.0 {
      assert q == 1.0;
    }
  }

  /** One suite going from pass to fail while the other five keep their
      verdicts lowers the passed count by one and makes the exit status 1. */
  lemma {:induction false} OneSuiteLossLowersCount(before: Suites, after: Suites, k: nat)
    requires k < 6
    requires Tests(before)[k].passed && !Tests(after)[k].passed
    requires forall j | 0 <= j < 6 && j != k :: Tests(after)[j] == Tests(before)[j]
    ensures |PassedOnly(Tests(after))| + 1 == |PassedOnly(Tests(before))|
    ensures ExitStatus(|PassedOnly(Tests(after))|, |Tests(after)|) == 1
  {
    PassedOnlyDropsByOne(Tests(before), Tests(after), k);
  }
}
