/**
 * Daemon readiness: after starting the daemon in the background, both
 * scripts poll its health endpoint a bounded number of times, one attempt
 * per second. Elapsed time is modelled as the attempt number only; the
 * provider's answers to the probes of attempt `i` are `health(i)` (and, in
 * example.py, `liveness(i)`).
 */
module Readiness {
  import opened Common
  import opened Text
  import opened Sandbox
  import opened Classifier

  /** Attempts allowed by example.py and by tests.py. */
  const ExampleAttempts := 10
  const TestsAttempts := 20

  /** How example.py's wait ended. */
  datatype PollEnd =
    | Ready                    // a health probe exited 0
    | DaemonDown               // the liveness probe printed `not running`; the log tail was fetched
    | GaveUp                   // every attempt failed with the daemon still alive
    | Aborted(fault: Fault)    // a probe raised; the exception leaves the setup step

  /** The end of example.py's wait and the number of health probes it issued. */
  datatype Poll = Poll(end: PollEnd, probes: nat)

  /**
   * One attempt of example.py's loop, decided from the provider's answers:
   * `None` means the loop goes on to the next attempt. A health probe that
   * exits 0 ends the wait; otherwise the liveness probe runs, and if its
   * stdout contains `not running` the log is fetched and the wait ends.
   */
  function ExampleAttempt(health: Reply, liveness: Reply, log: Reply): (r: Option<PollEnd>)
    ensures r == Some(Ready) <==> RunCommandStrict(health).Ran? && RunCommandStrict(health).exitCode == Some(0)
    ensures r.None? <==>
      && RunCommandStrict(health).Ran? && RunCommandStrict(health).exitCode != Some(0)
      && RunCommandStrict(liveness).Ran? && !Contains(RunCommandStrict(liveness).stdout, "not running")
    ensures r == Some(DaemonDown) <==>
      && RunCommandStrict(health).Ran? && RunCommandStrict(health).exitCode != Some(0)
      && RunCommandStrict(liveness).Ran? && Contains(RunCommandStrict(liveness).stdout, "not running")
      && RunCommandStrict(log).Ran?
    ensures r != Some(GaveUp)
    ensures health.Threw? ==> r == Some(Aborted(health.fault))
    // each failing call aborts the wait with its own exception
    ensures var h := RunCommandStrict(health);
      h.Failed? ==> r == Some(Aborted(h.fault))
    ensures var h, ps := RunCommandStrict(health), RunCommandStrict(liveness);
      h.Ran? && h.exitCode != Some(0) && ps.Failed? ==> r == Some(Aborted(ps.fault))
    ensures var h, ps, tail := RunCommandStrict(health), RunCommandStrict(liveness), RunCommandStrict(log);
      h.Ran? && h.exitCode != Some(0) && ps.Ran? && Contains(ps.stdout, "not running") && tail.Failed? ==>
        r == Some(Aborted(tail.fault))
  {
    match RunCommandStrict(health)
    case Failed(f) => Some(Aborted(f))
    case Ran(_, _, code) =>
      if code == Some(0) then Some(Ready)
      else
        match RunCommandStrict(liveness)
        case Failed(f) => Some(Aborted(f))
        case Ran(psOut, _, _) =>
          if !Contains(psOut, "not running") then None
          else
            match RunCommandStrict(log)
            case Failed(f) => Some(Aborted(f))
            case Ran(_, _, _) => Some(DaemonDown)
  }

  /**
   * example.py's wait for the daemon: at most ten attempts; every attempt
   * before the last one went on; the last one ended the wait the way it
   * reports, or, after ten attempts that all went on, the wait gives up.
   */
  method AwaitExample(health: nat -> Reply, liveness: nat -> Reply, log: Reply) returns (p: Poll)
    ensures 1 <= p.probes <= ExampleAttempts
    ensures forall i :: 0 <= i < p.probes - 1 ==> ExampleAttempt(health(i), liveness(i), log) == None
    ensures p.end == GaveUp ==> p.probes == ExampleAttempts
    ensures ExampleAttempt(health(p.probes - 1), liveness(p.probes - 1), log)
            == if p.end == GaveUp then None else Some(p.end)
  {
    var i := 0;
    while i < ExampleAttempts
      invariant 0 <= i <= ExampleAttempts
      invariant forall k :: 0 <= k < i ==> ExampleAttempt(health(k), liveness(k), log) == None
    {
      var probe := RunCommandStrict(health(i));
      if probe.Failed? {
        return Poll(Aborted(probe.fault), i + 1);
      }
      if probe.exitCode == Some(0) {
        return Poll(Ready, i + 1);
      }
      var ps := RunCommandStrict(liveness(i));
      if ps.Failed? {
        return Poll(Aborted(ps.fault), i + 1);
      }
      if Contains(ps.stdout, "not running") {
        var tail := RunCommandStrict(log);
        if tail.Failed? {
          return Poll(Aborted(tail.fault), i + 1);
        }
        return Poll(DaemonDown, i + 1);
      }
      i := i + 1;
    }
    return Poll(GaveUp, ExampleAttempts);
  }

  /** tests.py's wait for the daemon: the number of health probes, whether one succeeded, and how often the log tail was fetched. */
  datatype Wait = Wait(ready: bool, probes: nat, logFetches: nat)

  /**
   * `w` is the wait tests.py's loop reaches on the health answers `health`:
   * one to twenty probes, all but the last unanswered, ready exactly when the
   * last was answered, twenty probes when not ready, and the log tail fetched
   * once exactly when not ready.
   */
  predicate TestsPollFits(w: Wait, health: nat -> Reply) {
    && 1 <= w.probes <= TestsAttempts
    && (forall i :: 0 <= i < w.probes - 1 ==> !Answered(RunCommand(health(i))))
    && (w.ready <==> Answered(RunCommand(health(w.probes - 1))))
    && (!w.ready ==> w.probes == TestsAttempts)
    && w.logFetches == if w.ready then 0 else 1
  }

  /**
   * tests.py's wait for the daemon: at most twenty probes; a probe succeeds
   * when it exits 0 with non-empty stripped output, and the first success
   * stops the loop. The log tail is fetched once, and only when all twenty
   * probes failed (the `else` branch of the `for` loop).
   */
  method AwaitTests(health: nat -> Reply) returns (w: Wait)
    ensures 1 <= w.probes <= TestsAttempts
    ensures forall i :: 0 <= i < w.probes - 1 ==> !Answered(RunCommand(health(i)))
    ensures w.ready <==> Answered(RunCommand(health(w.probes - 1)))
    ensures !w.ready ==> w.probes == TestsAttempts
    ensures w.logFetches == if w.ready then 0 else 1
  {
    var i := 0;
    while i < TestsAttempts
      invariant 0 <= i <= TestsAttempts
      invariant forall k :: 0 <= k < i ==> !Answered(RunCommand(health(k)))
    {
      var c := RunCommand(health(i));
      var output := Strip(c.stdout + c.stderr);
      if c.exitCode == 0 && output != [] {
        return Wait(true, i + 1, 0);
      }
      i := i + 1;
    }
    return Wait(false, TestsAttempts, 1);
  }
}
