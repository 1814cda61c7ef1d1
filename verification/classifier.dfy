/**
 * Outcome classification: how each script turns an expectation tag and a
 * captured result into PASS or FAIL, and how example.py shortens long output
 * before it classifies it.
 */
module Classifier {
  import opened Common
  import opened Text
  import opened Sandbox

  /** Expectation tags as they appear in the test tables. */
  const Blocked := "blocked"
  const Success := "success"

  /** Displayed output is cut to this many characters ... */
  const DisplayLimit := 200
  /** ... and marked with this suffix. */
  const Ellipsis := "..."

  /** example.py's output shortening: more than 200 characters become the first 200 plus `...`. */
  function Truncate(output: string): (r: string)
    ensures |r| <= DisplayLimit + |Ellipsis|
    ensures |output| <= DisplayLimit ==> r == output
    ensures |output| > DisplayLimit ==> |r| == DisplayLimit + |Ellipsis|
    ensures |output| > DisplayLimit ==> r[..DisplayLimit] == output[..DisplayLimit] && r[DisplayLimit..] == Ellipsis
  {
    if |output| > DisplayLimit then output[..DisplayLimit] + Ellipsis else output
  }

  /** The output example.py shows and classifies: `(stdout + stderr).strip()`, shortened. */
  function Displayed(stdout: string, stderr: string): (output: string) {
    Truncate(Strip(stdout + stderr))
  }

  /**
   * example.py's signs that a probe was blocked: `blocked`, `denied`,
   * `permission` or `not found` in the lower-cased output, or `400` as written.
   */
  predicate BlockedSignal(output: string) {
    var low := Lower(output);
    || Contains(low, "blocked")
    || Contains(low, "denied")
    || Contains(low, "permission")
    || Contains(output, "400")
    || Contains(low, "not found")
  }

  /**
   * example.py's verdict on a completed probe: a `blocked` probe passes on a
   * non-zero (or missing) exit code or a blocked signal; a `success` probe
   * passes on exit code 0; any other tag passes.
   */
  predicate ExamplePasses(tag: string, exitCode: Option<int>, output: string) {
    if tag == Blocked then exitCode != Some(0) || BlockedSignal(output)
    else if tag == Success then exitCode == Some(0)
    else true
  }

  /** None of the signal keywords uses a `.`, so the appended ellipsis can never complete one. */
  lemma EllipsisIsInert(a: string)
    ensures BlockedSignal(a + Ellipsis) <==> BlockedSignal(a)
  {
    LowerAppend(a, Ellipsis);
    assert Lower(Ellipsis) == Ellipsis;
    assert forall k :: 0 <= k < |Ellipsis| ==> Ellipsis[k] == '.';
    ContainsPastForeign(Lower(a), Ellipsis, "blocked");
    ContainsPastForeign(Lower(a), Ellipsis, "denied");
    ContainsPastForeign(Lower(a), Ellipsis, "permission");
    ContainsPastForeign(a, Ellipsis, "400");
    ContainsPastForeign(Lower(a), Ellipsis, "not found");
  }

  /**
   * Classification sees only the first 200 characters of long output: the
   * blocked signals of the shortened output are exactly those of its first
   * 200 characters, so a keyword that starts at or after position 200, or
   * straddles it, is never seen.
   */
  lemma SignalSeesOnlyPrefix(output: string)
    requires |output| > DisplayLimit
    ensures BlockedSignal(Truncate(output)) <==> BlockedSignal(output[..DisplayLimit])
  {
    EllipsisIsInert(output[..DisplayLimit]);
  }

  /** 200 characters of filler that hold no keyword. */
  const Filler: string := seq(DisplayLimit, _ => 'x')

  /**
   * A concrete case of the above: a `blocked` probe that exits 0 and prints
   * 200 characters of filler followed by `denied` is judged FAIL, although
   * its full output contains `denied`.
   */
  lemma LateKeywordIsMissed()
    ensures BlockedSignal(Filler + "denied")
    ensures !ExamplePasses(Blocked, Some(0), Displayed(Filler + "denied", ""))
  {
    var o := Filler + "denied";
    assert o + "" == o;
    assert Lead(o) == 0 && Trail(o) == 0;
    assert Strip(o) == o;
    LateDeniedFound();
    assert o[..DisplayLimit] == Filler;
    SignalSeesOnlyPrefix(o);
    FillerHasNoSignal();
  }

  /** `denied` after the filler is a blocked signal of the full output. */
  lemma LateDeniedFound()
    ensures BlockedSignal(Filler + "denied")
  {
    var o := Filler + "denied";
    assert Lower(o)[DisplayLimit..DisplayLimit + 6] == "denied";
    assert OccursAt(Lower(o), "denied", DisplayLimit);
    ContainsIff(Lower(o), "denied");
  }

  /** The filler alone holds no blocked signal. */
  lemma FillerHasNoSignal()
    ensures !BlockedSignal(Filler)
  {
    var low := Lower(Filler);
    assert forall k :: 0 <= k < |low| ==> low[k] == 'x';
    ContainsNeedsFirstChar(low, "blocked");
    ContainsNeedsFirstChar(low, "denied");
    ContainsNeedsFirstChar(low, "permission");
    ContainsNeedsFirstChar(Filler, "400");
    ContainsNeedsFirstChar(low, "not found");
  }

  /** tests.py's success test for API and health probes: exit code 0 and something printed. */
  predicate Answered(c: Captured) {
    c.exitCode == 0 && Strip(c.stdout + c.stderr) != []
  }

  /**
   * tests.py's verdict on an isolation probe: a `blocked` probe passes on a
   * non-zero exit code, on `denied` or `not found` in the lower-cased output,
   * or on empty output; any other tag passes exactly on exit code 0.
   */
  predicate IsolationPasses(tag: string, c: Captured) {
    var output := Strip(c.stdout + c.stderr);
    if tag == Blocked then
      || c.exitCode != 0
      || Contains(Lower(output), "denied")
      || Contains(Lower(output), "not found")
      || output == []
    else c.exitCode == 0
  }

  /**
   * A probe counts as answered exactly when the provider reported exit code 0
   * and at least one non-whitespace character on stdout or stderr; in particular
   * a call that raised is never answered.
   */
  lemma AnsweredIff(reply: Reply)
    ensures Answered(RunCommand(reply)) <==>
      && reply.Exited?
      && reply.returnCode == Some(0)
      && exists k :: 0 <= k < |RunCommand(reply).stdout + RunCommand(reply).stderr|
                    && !IsSpace((RunCommand(reply).stdout + RunCommand(reply).stderr)[k])
  {
    var c := RunCommand(reply);
    StripEmptyIff(c.stdout + c.stderr);
  }

  /**
   * In tests.py an exception during a probe is not an error but exit code -1:
   * a `blocked` isolation probe whose call raised passes, and a `success` one fails.
   */
  lemma FaultPassesBlockedProbe(fault: Fault)
    ensures IsolationPasses(Blocked, RunCommand(Threw(fault)))
    ensures !IsolationPasses(Success, RunCommand(Threw(fault)))
  {
  }
}
