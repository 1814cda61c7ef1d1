/**
 * example.py's test runner: an ordered table of categories, each an ordered
 * list of cases, run one case at a time against the sandbox with
 * passed / failed / errors counters.
 */
module Suite {
  import opened Common
  import opened Text
  import opened Sandbox
  import opened Classifier

  /** A declared probe: its name and expectation tag (the command text is not modelled). */
  datatype TestCase = TestCase(name: string, tag: string)

  /** A named, ordered group of probes. */
  datatype Category = Category(key: string, tests: seq<TestCase>)

  /** The judgement on one case; `Error` only when the call itself raised. */
  datatype Verdict = Pass | Fail | Error

  /** The run's counters. */
  datatype Counters = Counters(passed: nat, failed: nat, errors: nat) {
    function Total(): nat { passed + failed + errors }
  }

  const Zero := Counters(0, 0, 0)

  /** The `SECURITY_TESTS` table of example.py, in declaration order. */
  const SecurityTests: seq<Category> := [
    Category("modal_network", [
      TestCase("AWS metadata blocked (Modal)", Blocked),
      TestCase("GCP metadata blocked (Modal)", Blocked),
      TestCase("Public HTTPS works", Success),
      TestCase("Public HTTP works", Success)]),
    Category("agentsh_daemon", [
      TestCase("agentsh health check", Success),
      TestCase("agentsh metrics endpoint", Success),
      TestCase("agentsh ready check", Success)]),
    Category("basic_ops", [
      TestCase("Basic echo", Success),
      TestCase("List files", Success),
      TestCase("Git version", Success),
      TestCase("Python version", Success),
      TestCase("agentsh binary", Success),
      TestCase("Policy file loaded", Success)]),
    Category("modal_isolation", [
      TestCase("Running as root", Success),
      TestCase("No docker socket", Blocked),
      TestCase("No host PID namespace", Success),
      TestCase("Isolated filesystem", Blocked)]),
    Category("modal_specific", [
      TestCase("Environment variables visible", Success),
      TestCase("Modal token exposure check", Success),
      TestCase("Outbound data exfiltration possible", Success),
      TestCase("Can access any public API", Success),
      TestCase("Write to /tmp unrestricted", Success),
      TestCase("Process limits exist", Success)]),
    Category("agentsh_api", [
      TestCase("List policies via API", Success),
      TestCase("Get server info", Success)]),
    Category("security_gaps", [
      TestCase("rm -rf executes freely", Success),
      TestCase("Can read system files", Success),
      TestCase("Can write anywhere in /tmp", Success)])
  ]

  /** The cases of the first `n` categories, categories in order and cases in order within each. */
  function CasesUpTo(cats: seq<Category>, n: nat): (cases: seq<TestCase>)
    requires n <= |cats|
  {
    if n == 0 then [] else CasesUpTo(cats, n - 1) + cats[n - 1].tests
  }

  /** All cases of `cats`, in execution order. */
  function Flatten(cats: seq<Category>): (cases: seq<TestCase>) {
    CasesUpTo(cats, |cats|)
  }

  /**
   * The verdict example.py reaches on one case: an escaping exception is an
   * error; otherwise the tag decides on the exit code and the shortened output.
   */
  function CaseVerdict(t: TestCase, reply: Reply): (v: Verdict)
    ensures v == Error <==> RunCommandStrict(reply).Failed?
    ensures reply.Threw? ==> v == Error
    ensures v != Error && t.tag == Success ==> (v == Pass <==> reply.returnCode == Some(0))
    ensures v != Error && t.tag == Blocked ==>
      (v == Pass <==> reply.returnCode != Some(0) || BlockedSignal(Displayed(reply.stdout.value, reply.stderr.value)))
    ensures v != Error && t.tag != Success && t.tag != Blocked ==> v == Pass
  {
    match RunCommandStrict(reply)
    case Failed(_) => Error
    case Ran(out, err, code) => if ExamplePasses(t.tag, code, Displayed(out, err)) then Pass else Fail
  }

  /** The verdicts of `cases`, the k-th case answered by `reply(k)`. */
  function Verdicts(cases: seq<TestCase>, reply: nat -> Reply): (vs: seq<Verdict>)
    ensures |vs| == |cases|
  {
    seq(|cases|, k requires 0 <= k < |cases| => CaseVerdict(cases[k], reply(k)))
  }

  /** One case's effect on the counters: exactly one counter goes up by one. */
  function Bump(c: Counters, v: Verdict): (d: Counters)
    ensures d.Total() == c.Total() + 1
    ensures d.passed >= c.passed && d.failed >= c.failed && d.errors >= c.errors
  {
    match v
    case Pass => c.(passed := c.passed + 1)
    case Fail => c.(failed := c.failed + 1)
    case Error => c.(errors := c.errors + 1)
  }

  /** The number of verdicts `v` in `vs`. */
  function Count(vs: seq<Verdict>, v: Verdict): (n: nat) {
    if |vs| == 0 then 0 else (if vs[0] == v then 1 else 0) + Count(vs[1..], v)
  }

  /** The counters a run should end with: each one is the number of verdicts of its kind. */
  function Tally(vs: seq<Verdict>): (c: Counters) {
    Counters(Count(vs, Pass), Count(vs, Fail), Count(vs, Error))
  }

  lemma {:induction false} CountSnoc(vs: seq<Verdict>, x: Verdict, v: Verdict)
    ensures Count(vs + [x], v) == Count(vs, v) + (if x == v then 1 else 0)
  {
    if |vs| > 0 {
      assert (vs + [x])[1..] == vs[1..] + [x];
      CountSnoc(vs[1..], x, v);
    }
  }

  /** A kind of verdict that never occurs is counted zero times. */
  lemma {:induction false} CountAbsent(vs: seq<Verdict>, v: Verdict)
    requires v !in vs
    ensures Count(vs, v) == 0
  {
    if |vs| > 0 {
      assert vs[0] != v;
      assert forall x :: x in vs[1..] ==> x in vs;
      CountAbsent(vs[1..], v);
    }
  }

  /** Counting one more verdict is one `Bump`: the incremental counters agree with the tally. */
  lemma TallySnoc(vs: seq<Verdict>, x: Verdict)
    ensures Tally(vs + [x]) == Bump(Tally(vs), x)
  {
    CountSnoc(vs, x, Pass);
    CountSnoc(vs, x, Fail);
    CountSnoc(vs, x, Error);
  }

  /** Every verdict is counted exactly once: the three counters add up to the number of verdicts. */
  lemma {:induction false} TallyTotal(vs: seq<Verdict>)
    ensures Tally(vs).Total() == |vs|
  {
    if |vs| > 0 {
      TallyTotal(vs[1..]);
    }
  }

  /** Counters never go down: the tally of a prefix is below the tally of the whole, counter by counter. */
  lemma {:induction false} TallyMonotone(vs: seq<Verdict>, n: nat)
    requires n <= |vs|
    ensures Tally(vs[..n]).passed <= Tally(vs).passed
    ensures Tally(vs[..n]).failed <= Tally(vs).failed
    ensures Tally(vs[..n]).errors <= Tally(vs).errors
  {
    if n > 0 {
      assert vs[..n][1..] == vs[1..][..n - 1];
      TallyMonotone(vs[1..], n - 1);
    }
  }

  /**
   * A case whose call raised adds one to `errors` and nothing else, and the
   * cases after it are still counted.
   */
  lemma FaultOnlyCountsError(prefix: seq<Verdict>, t: TestCase, reply: Reply, rest: seq<Verdict>)
    requires RunCommandStrict(reply).Failed?
    ensures Tally(prefix + [CaseVerdict(t, reply)]) == Tally(prefix).(errors := Tally(prefix).errors + 1)
    ensures Tally(prefix + [CaseVerdict(t, reply)] + rest).Total() == |prefix| + 1 + |rest|
  {
    TallySnoc(prefix, CaseVerdict(t, reply));
    TallyTotal(prefix + [CaseVerdict(t, reply)] + rest);
  }

  /** Running one more case bumps the tally by that case's verdict. */
  lemma StepTally(cases: seq<TestCase>, t: TestCase, reply: nat -> Reply)
    ensures Tally(Verdicts(cases + [t], reply)) == Bump(Tally(Verdicts(cases, reply)), CaseVerdict(t, reply(|cases|)))
  {
    var vs := Verdicts(cases, reply);
    var ws := Verdicts(cases + [t], reply);
    var longer := vs + [CaseVerdict(t, reply(|cases|))];
    forall k | 0 <= k < |ws|
      ensures ws[k] == longer[k]
    {
      if k < |cases| {
        assert (cases + [t])[k] == cases[k];
      }
    }
    assert ws == longer;
    TallySnoc(vs, CaseVerdict(t, reply(|cases|)));
  }

  /**
   * example.py's body for one case: an escaping exception adds one error;
   * otherwise the tag is judged on the exit code and the shortened
   * `(stdout + stderr).strip()`, adding one pass or one fail.
   */
  method RunCase(t: TestCase, reply: Reply, before: Counters) returns (after: Counters)
    ensures after == Bump(before, CaseVerdict(t, reply))
  {
    after := before;
    match RunCommandStrict(reply)
    case Failed(_) =>
      after := after.(errors := after.errors + 1);
    case Ran(out, err, code) =>
      var output := Truncate(Strip(out + err));
      if ExamplePasses(t.tag, code, output) {
        after := after.(passed := after.passed + 1);
      } else {
        after := after.(failed := after.failed + 1);
      }
  }

  /**
   * The inner loop of example.py's runner: the cases of one category, in
   * order, after the `offset` cases `seen` that ran before them.
   */
  method RunCategory(tests: seq<TestCase>, reply: nat -> Reply, offset: nat, ghost seen: seq<TestCase>, before: Counters)
    returns (after: Counters)
    requires offset == |seen|
    requires before == Tally(Verdicts(seen, reply))
    ensures after == Tally(Verdicts(seen + tests, reply))
  {
    after := before;
    var done := offset;
    ghost var cur := seen;
    for j := 0 to |tests|
      invariant cur == seen + tests[..j]
      invariant done == |cur|
      invariant after == Tally(Verdicts(cur, reply))
    {
      after := RunCase(tests[j], reply(done), after);
      StepTally(cur, tests[j], reply);
      assert tests[..j + 1] == tests[..j] + [tests[j]];
      cur := cur + [tests[j]];
      done := done + 1;
    }
    assert tests[..|tests|] == tests;
  }

  /**
   * example.py's main loop over the table: every case runs once, in order;
   * an escaping exception counts as an error and the loop goes on. The
   * counters it returns hold, for each kind, the number of cases with that verdict.
   */
  method RunSuite(cats: seq<Category>, reply: nat -> Reply) returns (results: Counters)
    ensures results == Tally(Verdicts(Flatten(cats), reply))
    ensures results.Total() == |Flatten(cats)|
  {
    results := Zero;
    var done := 0;
    assert Verdicts([], reply) == [];
    for i := 0 to |cats|
      invariant done == |CasesUpTo(cats, i)|
      invariant results == Tally(Verdicts(CasesUpTo(cats, i), reply))
    {
      results := RunCategory(cats[i].tests, reply, done, CasesUpTo(cats, i), results);
      done := done + |cats[i].tests|;
    }
    TallyTotal(Verdicts(Flatten(cats), reply));
  }

  /**
   * example.py declares 28 cases; exactly four of them (the two metadata
   * probes, the docker socket and the host filesystem) are `blocked`, and all
   * others are `success`.
   */
  lemma SecurityTestsShape()
    ensures |Flatten(SecurityTests)| == 28
    ensures forall k :: 0 <= k < 28 ==>
      (Flatten(SecurityTests)[k].tag == Blocked <==> k in {0, 1, 14, 16})
    ensures forall k :: 0 <= k < 28 ==>
      (Flatten(SecurityTests)[k].tag == Success <==> k !in {0, 1, 14, 16})
  {
    var c := SecurityTests;
    SecurityTestsFlat();
    var all := c[0].tests + c[1].tests + c[2].tests + c[3].tests + c[4].tests + c[5].tests + c[6].tests;
    assert |all| == 28;
    assert forall k :: 0 <= k < 28 ==> (all[k].tag == Blocked <==> k in {0, 1, 14, 16});
  }

  /** The flattened table is the seven categories' cases, one after the other. */
  lemma SecurityTestsFlat()
    ensures var c := SecurityTests;
      Flatten(c) == c[0].tests + c[1].tests + c[2].tests + c[3].tests + c[4].tests + c[5].tests + c[6].tests
  {
    var c := SecurityTests;
    assert CasesUpTo(c, 1) == c[0].tests;
    assert CasesUpTo(c, 2) == c[0].tests + c[1].tests;
    assert CasesUpTo(c, 3) == c[0].tests + c[1].tests + c[2].tests;
    assert CasesUpTo(c, 4) == c[0].tests + c[1].tests + c[2].tests + c[3].tests;
    assert CasesUpTo(c, 5) == c[0].tests + c[1].tests + c[2].tests + c[3].tests + c[4].tests;
    assert CasesUpTo(c, 6) == c[0].tests + c[1].tests + c[2].tests + c[3].tests + c[4].tests + c[5].tests;
    var all := c[0].tests + c[1].tests + c[2].tests + c[3].tests + c[4].tests + c[5].tests + c[6].tests;
    assert Flatten(c) == all;
  }
}
