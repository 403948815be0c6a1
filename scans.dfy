/** The loops that run one table of checks over the artifact and fold the
    per-check results into the table's flag. */
module Scans {
  import opened Matchers
  import opened Catalog

  /** What one check reports: the match count of a must-be-absent probe, or
      whether a must-be-present check found its pattern. The outcome carries no
      reason for a miss: a parameter with the wrong value and a missing one
      yield the same outcome. */
  datatype Outcome =
    | Absence(name: string, matches: nat)
    | Presence(name: string, found: bool)
  {
    predicate Passed()
    {
      match this
      case Absence(_, n) => n == 0
      case Presence(_, f) => f
    }
  }

  /** A suite passes when every one of its checks passes. */
  predicate AllPassed(outcomes: seq<Outcome>)
  {
    forall i | 0 <= i < |outcomes| :: outcomes[i].Passed()
  }

  /** `AllPassed` is the fold the loops compute: it holds of no outcomes, and
      appending one outcome ANDs in that outcome's verdict. */
  lemma AllPassedIsAFold(outcomes: seq<Outcome>, last: Outcome)
    ensures AllPassed([])
    ensures AllPassed(outcomes + [last]) <==> AllPassed(outcomes) && last.Passed()
  {
    assert forall i | 0 <= i < |outcomes| :: (outcomes + [last])[i] == outcomes[i];
    assert (outcomes + [last])[|outcomes|] == last;
  }

  /** One outcome per probe; they all pass exactly when no probe matches. */
  function AbsenceOutcomes(probes: seq<Probe>, text: string, re: RegexEngine): (outcomes: seq<Outcome>)
    ensures |outcomes| == |probes|
    ensures AllPassed(outcomes) <==> forall i | 0 <= i < |probes| :: re(probes[i].pattern, text) == 0
  {
    var outcomes := seq(|probes|, i requires 0 <= i < |probes| => Absence(probes[i].name, re(probes[i].pattern, text)));
    assert forall i | 0 <= i < |probes| :: outcomes[i].Passed() == (re(probes[i].pattern, text) == 0);
    outcomes
  }

  /** One outcome per check; they all pass exactly when every check matches. */
  function PresenceOutcomes(checks: seq<Check>, text: string, re: RegexEngine): (outcomes: seq<Outcome>)
    ensures |outcomes| == |checks|
    ensures AllPassed(outcomes) <==> forall i | 0 <= i < |checks| :: Matches(checks[i].matcher, text, re)
  {
    var outcomes := seq(|checks|, i requires 0 <= i < |checks| => Presence(checks[i].name, Matches(checks[i].matcher, text, re)));
    assert forall i | 0 <= i < |checks| :: outcomes[i].Passed() == Matches(checks[i].matcher, text, re);
    outcomes
  }

  /** The must-be-absent loop: counts every probe's matches, never stopping
      early, and raises the flag as soon as one count is positive. */
  method ScanAbsent(probes: seq<Probe>, text: string, re: RegexEngine)
    returns (found: bool, outcomes: seq<Outcome>)
    ensures outcomes == AbsenceOutcomes(probes, text, re)
    ensures found <==> exists i | 0 <= i < |probes| :: re(probes[i].pattern, text) > 0
    ensures found <==> !AllPassed(outcomes)
  {
    found := false;
    outcomes := [];
    for i := 0 to |probes|
      invariant |outcomes| == i
      invariant forall j | 0 <= j < i :: outcomes[j] == Absence(probes[j].name, re(probes[j].pattern, text))
      invariant found <==> exists j | 0 <= j < i :: re(probes[j].pattern, text) > 0
    {
      var count := re(probes[i].pattern, text);
      if count > 0 {
        found := true;
      }
      outcomes := outcomes + [Absence(probes[i].name, count)];
    }
  }

  /** The must-be-present loop: tests every check, never stopping early, and
      clears the flag on each miss. The ghost `flags` records the flag before
      the loop and after each step. */
  method ScanPresent(checks: seq<Check>, text: string, re: RegexEngine)
    returns (allFound: bool, outcomes: seq<Outcome>, ghost flags: seq<bool>)
    ensures outcomes == PresenceOutcomes(checks, text, re)
    ensures allFound <==> forall i | 0 <= i < |checks| :: Matches(checks[i].matcher, text, re)
    ensures allFound <==> AllPassed(outcomes)
    ensures |flags| == |checks| + 1 && flags[0] && flags[|checks|] == allFound
    ensures forall i | 0 <= i < |checks| :: flags[i + 1] == (flags[i] && Matches(checks[i].matcher, text, re))
  {
    allFound := true;
    outcomes := [];
    flags := [true];
    for i := 0 to |checks|
      invariant |outcomes| == i
      invariant forall j | 0 <= j < i :: outcomes[j] == Presence(checks[j].name, Matches(checks[j].matcher, text, re))
      invariant allFound <==> forall j | 0 <= j < i :: Matches(checks[j].matcher, text, re)
      invariant |flags| == i + 1 && flags[0] && flags[i] == allFound
      invariant forall j | 0 <= j < i :: flags[j + 1] == (flags[j] && Matches(checks[j].matcher, text, re))
    {
      var hit := Matches(checks[i].matcher, text, re);
      if !hit {
        allFound := false;
      }
      outcomes := outcomes + [Presence(checks[i].name, hit)];
      flags := flags + [allFound];
    }
  }

  /** A flag updated as `ScanPresent` updates it only ever moves from true to
      false: once cleared, it stays cleared. */
  lemma {:induction false} FlagNeverRecovers(flags: seq<bool>, hits: seq<bool>, i: nat, j: nat)
    requires |flags| == |hits| + 1
    requires forall k | 0 <= k < |hits| :: flags[k + 1] == (flags[k] && hits[k])
    requires i <= j < |flags|
    ensures flags[j] ==> flags[i]
    decreases j - i
  {
    if i < j {
      FlagNeverRecovers(flags, hits, i, j - 1);
    }
  }

  /** A check's outcome depends only on whether its pattern matched, so two
      texts it misses in any way report identically. */
  lemma {:induction false} MissesReportAlike(checks: seq<Check>, t1: string, t2: string, re: RegexEngine, k: nat)
    requires k < |checks|
    requires !Matches(checks[k].matcher, t1, re) && !Matches(checks[k].matcher, t2, re)
    ensures PresenceOutcomes(checks, t1, re)[k] == PresenceOutcomes(checks, t2, re)[k]
    ensures !AllPassed(PresenceOutcomes(checks, t1, re)) && !AllPassed(PresenceOutcomes(checks, t2, re))
  {
    assert !PresenceOutcomes(checks, t1, re)[k].Passed();
    assert !PresenceOutcomes(checks, t2, re)[k].Passed();
  }
}
