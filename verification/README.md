# agentsh-modal harness core in Dafny

This project models the two driver scripts of the agentsh-on-Modal security
demo: `example.py` and `tests.py`. Each script creates a remote sandbox,
configures and starts the agentsh daemon inside it, and waits for the daemon
to answer its health endpoint. It then runs a fixed battery of shell probes
against the sandbox, sorts each probe into pass, fail or error, keeps running
counters, and terminates the sandbox in a `finally` block.

The sandbox provider is an oracle. Every remote call is a `Reply`: either an
exception, or two output streams and a return code, any of which may be
missing. A run receives the replies as total functions from the call's
position (attempt number or case number) to a `Reply`.

Modules, in dependency order:

- `Common`: the `Option` type.
- `Text`: Python's `str.strip()`, `str.lower()` restricted to ASCII, and the substring test `p in s`.
- `Sandbox`: the two `run_command` wrappers.
  - `tests.py` wraps the call in `try` and never raises.
  - `example.py` lets the exception escape.
- `Classifier`: the pass/fail rules of both scripts and the 200-character output shortening.
- `Suite`: the `SECURITY_TESTS` table and the `example.py` counter loop. Its reference definition is `Tally`, which counts the verdicts of every case.
- `Readiness`: the two bounded readiness polls, 10 attempts in `example.py` and 20 in `tests.py`.
- `Session`: session-id extraction. The leftmost match of `\{[^{}]*"id"[^{}]*\}` is decoded; when nothing matches, the whole output is decoded instead.
- `ExampleScript` and `TestsScript`: the two `main` functions and their `try`/`finally` around the sandbox.

## Model

| member | source | states |
|---|---|---|
| Sandbox.RunCommand | tests.py:92-102 | The total wrapper never raises. An exception becomes `("", str(e), -1)`. A missing stream becomes `""`. A missing return code becomes -1. Each present field is passed through unchanged. |
| Sandbox.RunCommandStrict | example.py:343-350 | The wrapper without `try` fails exactly when the call raised or a stream is missing (reading `None` raises). Otherwise it returns both streams and the return code unchanged, including a `None` code. |
| Sandbox.TotalExtendsStrict | tests.py:92-102 | The two wrappers agree wherever the strict one returns an exit code. Where the call raised, the total one reports -1 with the message on stderr. |
| Sandbox.TotalConflatesFaults | tests.py:101-102 | For every exception, the total wrapper returns the same triple as a process that exited -1 with nothing on stdout and the exception text on stderr. |
| Text.Strip | example.py:458 | `strip()` returns a contiguous slice of its input. The slice neither starts nor ends with whitespace and holds every non-whitespace character of the input. |
| Text.StripIdempotent | example.py:458 | Stripping twice gives the same result as stripping once. |
| Text.StripEmptyIff | tests.py:195 | The stripped output is empty exactly when every character is whitespace. |
| Text.ContainsIff | example.py:469-473 | The recursive substring test holds exactly when the pattern occurs at some position. |
| Classifier.Truncate | example.py:460-462 | Output of at most 200 characters is unchanged. Longer output becomes its first 200 characters plus `...`, so the result never exceeds 203 characters. |
| Classifier.EllipsisIsInert | example.py:462-474 | Appending `...` cannot create or destroy any of the five blocked signals. |
| Classifier.SignalSeesOnlyPrefix | example.py:458-474 | On output longer than 200 characters, the blocked signals found in the shortened output are exactly those of its first 200 characters. |
| Classifier.LateKeywordIsMissed | example.py:458-474 | A `blocked` probe that exits 0 and prints 200 filler characters followed by `denied` is judged FAIL, although its full output contains `denied`. |
| Classifier.AnsweredIff | tests.py:120-122 | A health or API probe counts as answered exactly when the call did not raise, the return code was 0, and some character of stdout+stderr is not whitespace. |
| Classifier.FaultPassesBlockedProbe | tests.py:243-250 | In `tests.py` an isolation probe whose call raised is judged like exit -1. A `blocked` probe then passes and a `success` probe fails. |
| Suite.CaseVerdict | example.py:456-494 | A case is an error exactly when the strict call failed. Otherwise a `success` case passes iff the code is 0. A `blocked` case passes iff the code is not 0 or the shortened output carries a blocked signal. Any other tag passes. |
| Suite.Bump | example.py:481-494 | One case raises exactly one counter by one, and no counter goes down. |
| Suite.TallySnoc | example.py:481-494 | Bumping the counters incrementally for one more verdict agrees with recounting all verdicts. |
| Suite.TallyTotal | example.py:443-494 | Every verdict is counted exactly once: passed + failed + errors equals the number of verdicts. |
| Suite.TallyMonotone | example.py:481-494 | The counters of any prefix of the run are at most the final counters, counter by counter. |
| Suite.FaultOnlyCountsError | example.py:487-494 | A case whose call raised adds one error and nothing else. The cases after it are still counted. |
| Suite.StepTally | example.py:451-494 | Running one more case changes the tally by that case's verdict. |
| Suite.RunCase | example.py:456-494 | The imperative body for one case raises exactly the counter of the case's verdict. |
| Suite.RunCategory | example.py:451-494 | The inner loop runs the cases of one category in order. The counters it returns equal the tally of every case run so far. |
| Suite.RunSuite | example.py:443-494 | The whole loop runs every case of the table once, in declaration order. Each counter equals the number of cases with that verdict, and the three counters sum to the number of cases. |
| Suite.SecurityTestsShape | example.py:47-285 | The table holds 28 cases. Exactly those at positions 0, 1, 14 and 16 are tagged `blocked`; all others are tagged `success`. |
| Readiness.ExampleAttempt | example.py:388-400 | One attempt is ready exactly when the health probe ran and exited 0. It goes on exactly when the health probe ran without exit 0 and the liveness probe ran without printing `not running` on stdout. It reports the daemon down exactly when the health probe ran without exit 0, the liveness probe printed `not running`, and the log tail was read. Each failing call (health, liveness or log, including a missing stream) aborts the wait with its own exception. |
| Readiness.AwaitExample | example.py:386-402 | The poll makes between 1 and 10 attempts. Every attempt before the last went on. The last attempt ended the wait the way the poll reports it (ready, daemon down, or exception). Giving up happens only after all 10 attempts. |
| Readiness.AwaitTests | tests.py:117-127 | The poll makes between 1 and 20 probes. Every earlier probe went unanswered. The wait is ready exactly when the last probe was answered; when it is not ready, all 20 probes were used. The log tail is fetched once, and only when the wait is not ready. |
| Session.NextBrace | tests.py:136 | Returns the first `{` or `}` at or after a position, or the end of the text when there is none. |
| Session.SearchFrom | tests.py:136 | Returns the leftmost match of the pattern at or after a start position. It returns nothing exactly when no match starts there or later. |
| Session.Search | tests.py:135-136 | `re.search` returns the leftmost match. It returns nothing exactly when no substring matches. |
| Session.Candidate | tests.py:136-140 | With no match, the whole output is decoded. Otherwise the decoded text is exactly the leftmost matched substring: it starts with `{`, ends with `}` and contains `"id"`. |
| Session.SessionId | tests.py:134-146 | A decode failure gives `""`. An object without `id` gives `""`. A decoded object with an `id` gives that id, and a non-empty result is always that field. |
| Session.CreateSession | tests.py:129-146 | The id is extracted from `(stdout + stderr).strip()` of the total wrapper. When the session command raised, it is therefore parsed from the exception's message. With both streams missing, it is parsed from empty text. |
| Session.SessionIgnoresExitCode | tests.py:131-141 | The session command's exit code plays no part in the extracted id. |
| Session.SurroundingTextIgnored | tests.py:136-138 | When the text before an `id` object holds no match of its own, that object is selected, whatever text follows it. |
| Session.UniqueEnd | tests.py:136 | A match that starts at a given brace has exactly one possible end. |
| Session.NoisyOutputExample | tests.py:131-143 | Log lines around `{"id":"abc123"}` yield the id `abc123`. |
| Session.NoMatchDecodesWhole | tests.py:139-146 | Output with no match whose whole-text decode fails gives the empty session id. |
| ExampleScript.ExampleMain | example.py:425-543 | If creation raised, nothing is terminated. Otherwise the sandbox is terminated exactly once, whether or not an exception escaped. The readiness wait is the one the provider's answers determine, and a setup or readiness exception escapes unchanged. The summary is reached exactly when nothing escaped, and it equals the tally of all 28 cases. |
| TestsScript.ApiVerdict | tests.py:193-202 | An API probe passes exactly when it was answered. It is never an error. |
| TestsScript.IsolationVerdict | tests.py:243-257 | An isolation probe passes exactly when the `tests.py` isolation rule holds. It is never an error. |
| TestsScript.SessionVerdicts | tests.py:211-225 | Without a session id there is one failure. With an id there is one pass for creation, plus one verdict that passes exactly when `session info` exits 0. |
| TestsScript.ApiSection | tests.py:192-202 | The API loop adds exactly the tally of the five API verdicts. |
| TestsScript.SessionSection | tests.py:211-225 | The session checks add exactly the tally of the session verdicts. |
| TestsScript.IsolationSection | tests.py:243-258 | The isolation loop adds exactly the tally of the six isolation verdicts. |
| TestsScript.RunChecks | tests.py:184-281 | The counters equal the tally of the API, session and isolation verdicts, in order. `errors` stays 0. passed + failed is 12 without a session id and 13 with one. The exec probe runs only with an id and changes no counter. |
| TestsScript.ConfiguredRun | tests.py:175-281 | Once the daemon is launched, the wait is the 20-probe poll the health answers determine, the session id is the one extracted from the session command, and the counters are those of `RunChecks` for that id. |
| TestsScript.TestsMain | tests.py:163-324 | If creation raised, nothing is terminated. Otherwise the sandbox is terminated exactly once, whether or not an exception escaped. The readiness wait is the 20-probe poll the health answers determine, and the log tail is fetched only after 20 unanswered probes. A setup exception escapes and skips the summary; otherwise the summary holds the counters of `RunChecks` for the extracted session id. |
| TestsScript.NoErrors | tests.py:171 | `tests.py` has no error counter: a run with no error verdicts counts zero errors. |

## Left out

- The Modal API, image building, the app object and `detect.py` are left out. Sandbox creation is an optional exception; every remote call is an oracle `Reply`.
- `write_file_to_sandbox` and the daemon launch are left out; the exception any of them raises is one optional `configure` fault. Reading `config.yaml` and `default.yaml` is also left out.
- `time.sleep`, per-call timeouts and wall-clock time are left out. A timeout is modelled as the `Timeout` fault of the call it cancels, and an attempt is identified by its number.
- Category titles and descriptions are left out, because they only reach `print`.
- Probe command strings are left out. A command string is passed to `run_command` and on to `sb.exec`, so it only decides the reply to its call; the model takes that reply from the oracle by case number instead. A test case is therefore its name and tag.
- All printing is left out, including the summary text, the 60- and 500-character display cuts, and the `agentsh exec` "seccomp" message. None of them affects a counter.
- The `use_shim=True` branch of `example.py`'s `setup_agentsh` is left out, because `main` always passes `False`.
- `json.loads` is an abstract `Decoder` that returns a map from strings to strings, or `None` for `JSONDecodeError`.
  - Non-string `id` values are not modelled.
  - A decoded value that is not an object is not modelled. In the source, `.get` on such a value raises `AttributeError`, which escapes `setup_agentsh`.
- Text.Lower: lower-cases ASCII letters only. Python's `str.lower()` also maps non-ASCII letters, some of them (the Kelvin sign, for one) onto ASCII letters, so a keyword spelled with such characters is not detected here.
- TestsScript.TestsMain: the exec probe's reply is consumed but its output is not inspected, because it only selects a printed message.
- ExampleScript.ExampleMain: the final "daemon may not be fully ready" warning is not modelled, because it only prints.
- ExampleScript.ExampleMain: the sandbox trace records only creation and termination, not the probe calls, so it does not order termination after the probes; the `finally` runs last by construction of the method.
- TestsScript.TestsMain: its sandbox trace likewise records only creation and termination.

Behaviour a reader might not expect, which the model follows:

- `example.py` classifies the shortened output, not the full output, so a keyword after the first 200 characters is missed (`Classifier.LateKeywordIsMissed`).
- `tests.py` tries the regular-expression match first and decodes the whole output only when nothing matches. The match is the leftmost one, not the smallest.
- `tests.py` turns an exception into exit code -1 and classifies it. A blocked isolation probe therefore passes when its call raised (`Classifier.FaultPassesBlockedProbe`).
- `example.py` checks after each failed health probe whether the daemon is still alive, and stops early when it is not.
- `tests.py` has no `errors` counter.
