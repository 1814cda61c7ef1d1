/**
 * example.py's `main`: create the sandbox, then inside `try` configure the
 * daemon and run the table of security tests, and in `finally` terminate the
 * sandbox. Reading the configuration files and printing are not modelled.
 */
module ExampleScript {
  import opened Common
  import opened Sandbox
  import opened Suite
  import opened Readiness

  /**
   * One run: what happened to the sandbox, the readiness wait (when it ran),
   * the final counters (when the summary was reached), and the exception that
   * left `main` (when one did).
   */
  datatype ExampleRun = ExampleRun(
    events: seq<SandboxEvent>,
    poll: Option<Poll>,
    summary: Option<Counters>,
    escaped: Option<Fault>)

  /**
   * `create` is the exception `Sandbox.create` raised, if any; `configure` the
   * one raised while writing the two configuration files or launching the
   * daemon. A sandbox that was created is terminated exactly once, in the
   * `finally`, whether the run reached its summary or an exception
   * escaped from the setup step; the summary counts all 28 cases.
   */
  method ExampleMain(
    create: Option<Fault>, configure: Option<Fault>,
    health: nat -> Reply, liveness: nat -> Reply, log: Reply,
    reply: nat -> Reply)
    returns (run: ExampleRun)
    ensures create.Some? ==> run == ExampleRun([], None, None, create)
    ensures create.None? ==> run.events == [Created, Terminated]
    ensures run.summary.Some? <==> run.escaped.None?
    ensures create.None? && configure.Some? ==> run.escaped == configure && run.poll.None?
    ensures create.None? && configure.None? ==> run.poll.Some?
    ensures run.poll.Some? ==> (run.summary.Some? <==> !run.poll.value.end.Aborted?)
    // the wait is the one the provider's answers determine (as `AwaitExample` promises)
    ensures run.poll.Some? ==> 1 <= run.poll.value.probes <= ExampleAttempts
    ensures run.poll.Some? ==>
      forall i :: 0 <= i < run.poll.value.probes - 1 ==> ExampleAttempt(health(i), liveness(i), log) == None
    ensures run.poll.Some? && run.poll.value.end == GaveUp ==> run.poll.value.probes == ExampleAttempts
    ensures run.poll.Some? ==>
      ExampleAttempt(health(run.poll.value.probes - 1), liveness(run.poll.value.probes - 1), log)
      == if run.poll.value.end == GaveUp then None else Some(run.poll.value.end)
    ensures run.poll.Some? && run.poll.value.end.Aborted? ==> run.escaped == Some(run.poll.value.end.fault)
    ensures run.summary.Some? ==> run.summary.value == Tally(Verdicts(Flatten(SecurityTests), reply))
    ensures run.summary.Some? ==> run.summary.value.Total() == 28
  {
    if create.Some? {
      return ExampleRun([], None, None, create);
    }
    var events := [Created];
    var poll: Option<Poll> := None;
    var summary: Option<Counters> := None;
    var escaped: Option<Fault> := None;
    // try
    if configure.Some? {
      escaped := configure;
    } else {
      var p := AwaitExample(health, liveness, log);
      poll := Some(p);
      if p.end.Aborted? {
        escaped := Some(p.end.fault);
      } else {
        var results := RunSuite(SecurityTests, reply);
        SecurityTestsShape();
        summary := Some(results);
      }
    }
    // finally
    events := events + [Terminated];
    run := ExampleRun(events, poll, summary, escaped);
  }
}
