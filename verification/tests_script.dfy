/**
 * tests.py's `main`: create the sandbox, then inside `try` configure the
 * daemon, open a session and run the API, session and isolation checks with
 * passed / failed counters, and in `finally` terminate the sandbox. Reading
 * the configuration files and printing are not modelled.
 */
module TestsScript {
  import opened Common
  import opened Text
  import opened Sandbox
  import opened Classifier
  import opened Suite
  import opened Readiness
  import opened Session

  /** The API probes, in order (names only). */
  const ApiTests: seq<string> := [
    "Health endpoint", "Ready endpoint", "Metrics endpoint", "Policy list", "Server info"]

  /** The isolation probes with their expectation tags, in order. */
  const IsolationTests: seq<TestCase> := [
    TestCase("AWS metadata blocked", Blocked),
    TestCase("No docker socket", Blocked),
    TestCase("No host filesystem", Blocked),
    TestCase("Container runs as root", Success),
    TestCase("Git available", Success),
    TestCase("Python available", Success)]

  /** The verdict on one API probe. */
  function ApiVerdict(reply: Reply): (v: Verdict)
    ensures v == Pass <==> Answered(RunCommand(reply))
    ensures v != Error
  {
    if Answered(RunCommand(reply)) then Pass else Fail
  }

  /** The verdicts of the API section, the k-th probe answered by `api(k)`. */
  function ApiVerdicts(api: nat -> Reply): (vs: seq<Verdict>)
    ensures |vs| == |ApiTests|
    ensures Error !in vs
  {
    var vs := seq(|ApiTests|, k requires 0 <= k < |ApiTests| => ApiVerdict(api(k)));
    assert forall k :: 0 <= k < |vs| ==> vs[k] == ApiVerdict(api(k));
    vs
  }

  /** The verdict on one isolation probe. */
  function IsolationVerdict(t: TestCase, reply: Reply): (v: Verdict)
    ensures v == Pass <==> IsolationPasses(t.tag, RunCommand(reply))
    ensures v != Error
  {
    if IsolationPasses(t.tag, RunCommand(reply)) then Pass else Fail
  }

  /** The verdicts of the isolation section, the k-th probe answered by `isolation(k)`. */
  function IsolationVerdicts(isolation: nat -> Reply): (vs: seq<Verdict>)
    ensures |vs| == |IsolationTests|
    ensures Error !in vs
  {
    var vs := seq(|IsolationTests|, k requires 0 <= k < |IsolationTests| => IsolationVerdict(IsolationTests[k], isolation(k)));
    assert forall k :: 0 <= k < |vs| ==> vs[k] == IsolationVerdict(IsolationTests[k], isolation(k));
    vs
  }

  /**
   * The verdicts of the session section: without a session id, one failure;
   * with one, a pass for the creation and a verdict on the `session info`
   * call, which passes exactly on exit code 0.
   */
  function SessionVerdicts(id: string, info: Reply): (vs: seq<Verdict>)
    ensures id == NoSession ==> vs == [Fail]
    ensures id != NoSession ==> |vs| == 2 && vs[0] == Pass && (vs[1] == Pass <==> RunCommand(info).exitCode == 0)
  {
    if id == NoSession then [Fail]
    else [Pass, if RunCommand(info).exitCode == 0 then Pass else Fail]
  }

  /** The API loop: every probe adds one pass or one fail. */
  method ApiSection(api: nat -> Reply, before: Counters, ghost prior: seq<Verdict>) returns (after: Counters)
    requires before == Tally(prior)
    ensures after == Tally(prior + ApiVerdicts(api))
  {
    after := before;
    var vs := ApiVerdicts(api);
    assert prior + vs[..0] == prior;
    for k := 0 to |ApiTests|
      invariant after == Tally(prior + vs[..k])
    {
      var c := RunCommand(api(k));
      var output := Strip(c.stdout + c.stderr);
      assert vs[k] == ApiVerdict(api(k));
      assert vs[k] == Pass <==> c.exitCode == 0 && output != [];
      TallySnoc(prior + vs[..k], vs[k]);
      assert prior + vs[..k + 1] == prior + vs[..k] + [vs[k]];
      if c.exitCode == 0 && output != [] {
        after := after.(passed := after.passed + 1);
      } else {
        after := after.(failed := after.failed + 1);
      }
    }
    assert vs[..|ApiTests|] == vs;
  }

  /** The session checks: they add one or two verdicts depending on the session id. */
  method SessionSection(id: string, info: Reply, before: Counters, ghost prior: seq<Verdict>) returns (after: Counters)
    requires before == Tally(prior)
    ensures after == Tally(prior + SessionVerdicts(id, info))
  {
    var vs := SessionVerdicts(id, info);
    if id != NoSession {
      TallySnoc(prior, Pass);
      after := before.(passed := before.passed + 1);
      var c := RunCommand(info);
      TallySnoc(prior + [Pass], vs[1]);
      assert prior + vs == prior + [Pass] + [vs[1]];
      if c.exitCode == 0 {
        after := after.(passed := after.passed + 1);
      } else {
        after := after.(failed := after.failed + 1);
      }
    } else {
      TallySnoc(prior, Fail);
      after := before.(failed := before.failed + 1);
    }
  }

  /** The isolation loop: every probe adds one pass or one fail according to its tag. */
  method IsolationSection(isolation: nat -> Reply, before: Counters, ghost prior: seq<Verdict>) returns (after: Counters)
    requires before == Tally(prior)
    ensures after == Tally(prior + IsolationVerdicts(isolation))
  {
    after := before;
    var vs := IsolationVerdicts(isolation);
    assert prior + vs[..0] == prior;
    for k := 0 to |IsolationTests|
      invariant after == Tally(prior + vs[..k])
    {
      var c := RunCommand(isolation(k));
      assert vs[k] == IsolationVerdict(IsolationTests[k], isolation(k));
      TallySnoc(prior + vs[..k], vs[k]);
      assert prior + vs[..k + 1] == prior + vs[..k] + [vs[k]];
      if IsolationPasses(IsolationTests[k].tag, c) {
        after := after.(passed := after.passed + 1);
      } else {
        after := after.(failed := after.failed + 1);
      }
    }
    assert vs[..|IsolationTests|] == vs;
  }

  /**
   * The three counted sections in order, then the `agentsh exec` probe, which
   * runs only with a session id and changes no counter. No section can raise,
   * so `errors` stays 0.
   */
  method RunChecks(id: string, api: nat -> Reply, info: Reply, isolation: nat -> Reply, exec: Reply)
    returns (results: Counters, execProbes: nat)
    ensures results == Tally(ApiVerdicts(api) + SessionVerdicts(id, info) + IsolationVerdicts(isolation))
    ensures results.errors == 0
    ensures results.passed + results.failed == 5 + (if id == NoSession then 1 else 2) + 6
    ensures execProbes == if id != NoSession then 1 else 0
  {
    assert Tally([]) == Zero;
    results := ApiSection(api, Zero, []);
    ghost var seen := [] + ApiVerdicts(api);
    results := SessionSection(id, info, results, seen);
    seen := seen + SessionVerdicts(id, info);
    results := IsolationSection(isolation, results, seen);
    seen := seen + IsolationVerdicts(isolation);
    execProbes := 0;
    if id != NoSession {
      var _ := RunCommand(exec);
      execProbes := 1;
    }
    TallyTotal(seen);
    NoErrors(seen, ApiVerdicts(api), SessionVerdicts(id, info), IsolationVerdicts(isolation));
    assert [] + ApiVerdicts(api) == ApiVerdicts(api);
  }

  /**
   * The body of the `try` once the daemon was launched: wait for it, open a
   * session, then run the counted checks. Nothing here can raise.
   */
  method ConfiguredRun(
    health: nat -> Reply, sessionReply: Reply, decode: Decoder,
    api: nat -> Reply, info: Reply, isolation: nat -> Reply, exec: Reply)
    returns (w: Wait, id: string, results: Counters, execProbes: nat)
    ensures TestsPollFits(w, health)
    ensures id == CreateSession(sessionReply, decode)
    ensures results == Tally(ApiVerdicts(api) + SessionVerdicts(id, info) + IsolationVerdicts(isolation))
    ensures results.errors == 0
    ensures results.passed + results.failed == 5 + (if id == NoSession then 1 else 2) + 6
    ensures execProbes == if id != NoSession then 1 else 0
  {
    w := AwaitTests(health);
    id := CreateSession(sessionReply, decode);
    results, execProbes := RunChecks(id, api, info, isolation, exec);
  }

  /**
   * One run: what happened to the sandbox, the readiness wait and session id
   * (when setup got that far), the counters (when the summary was reached),
   * the exception that left `main` (when one did), and how many `agentsh exec`
   * probes were issued.
   */
  datatype TestsRun = TestsRun(
    events: seq<SandboxEvent>,
    wait: Option<Wait>,
    sessionId: string,
    summary: Option<Counters>,
    escaped: Option<Fault>,
    execProbes: nat)

  /**
   * tests.py's `main`. `create` is the exception `Sandbox.create` raised, if
   * any; `configure` the one raised while writing the configuration files or
   * launching the daemon; every other call goes through the total wrapper and
   * cannot raise. A created sandbox is terminated exactly once, in the `finally`; the
   * summary holds 5 API verdicts, 1 or 2 session verdicts and 6 isolation
   * verdicts and no errors; the exec probe changes no counter.
   */
  method TestsMain(
    create: Option<Fault>, configure: Option<Fault>,
    health: nat -> Reply, sessionReply: Reply, decode: Decoder,
    api: nat -> Reply, info: Reply, isolation: nat -> Reply, exec: Reply)
    returns (run: TestsRun)
    ensures create.Some? ==> run == TestsRun([], None, NoSession, None, create, 0)
    ensures create.None? ==> run.events == [Created, Terminated]
    ensures create.None? && configure.Some? ==> run.escaped == configure && run.summary.None? && run.wait.None?
    ensures create.None? && configure.None? ==> run.escaped.None? && run.summary.Some? && run.wait.Some?
    // the wait is the one the health answers determine (as `AwaitTests` promises)
    ensures run.wait.Some? ==> TestsPollFits(run.wait.value, health)
    ensures run.summary.Some? ==> run.sessionId == CreateSession(sessionReply, decode)
    ensures run.summary.Some? ==>
      run.summary.value == Tally(ApiVerdicts(api) + SessionVerdicts(run.sessionId, info) + IsolationVerdicts(isolation))
    ensures run.summary.Some? ==> run.summary.value.errors == 0
    ensures run.summary.Some? ==>
      run.summary.value.passed + run.summary.value.failed == 5 + (if run.sessionId == NoSession then 1 else 2) + 6
    ensures run.execProbes == if run.summary.Some? && run.sessionId != NoSession then 1 else 0
  {
    if create.Some? {
      return TestsRun([], None, NoSession, None, create, 0);
    }
    var events := [Created];
    var wait: Option<Wait> := None;
    var id := NoSession;
    var summary: Option<Counters> := None;
    var escaped: Option<Fault> := None;
    var execProbes := 0;
    // try
    if configure.Some? {
      escaped := configure;
    } else {
      var w, sid, results, probes := ConfiguredRun(health, sessionReply, decode, api, info, isolation, exec);
      wait := Some(w);
      id := sid;
      execProbes := probes;
      summary := Some(results);
    }
    // finally
    events := events + [Terminated];
    run := TestsRun(events, wait, id, summary, escaped, execProbes);
  }

  /** tests.py never produces an error verdict. */
  lemma NoErrors(all: seq<Verdict>, a: seq<Verdict>, b: seq<Verdict>, c: seq<Verdict>)
    requires all == [] + a + b + c
    requires Error !in a && Error !in b && Error !in c
    ensures Tally(all).errors == 0
  {
    CountAbsent(all, Error);
  }
}
