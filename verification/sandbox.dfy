/**
 * The remote executor. The sandbox provider is an oracle: each remote call
 * either raises or finishes with two streams and a return code, any of which
 * may be missing. The two scripts wrap that call differently.
 */
module Sandbox {
  import opened Common

  /** An exception escaping a sandbox call, with its `str(e)`. */
  datatype Fault = Timeout(message: string) | Raised(message: string)

  /** What the provider gives back for one `exec` + `wait` + stream reads. */
  datatype Reply =
    | Threw(fault: Fault)
    | Exited(stdout: Option<string>, stderr: Option<string>, returnCode: Option<int>)

  /** The `(stdout, stderr, exit_code)` triple of the total wrapper. */
  datatype Captured = Captured(stdout: string, stderr: string, exitCode: int)

  /** The result of the wrapper that lets exceptions escape: a triple whose exit code may be `None`, or the exception. */
  datatype Strict =
    | Ran(stdout: string, stderr: string, exitCode: Option<int>)
    | Failed(fault: Fault)

  /** What happens to the one sandbox a run owns. */
  datatype SandboxEvent = Created | Terminated

  /** `str(e)` of the `AttributeError` raised by reading a stream that is `None`. */
  const NoStream := "'NoneType' object has no attribute 'read'"

  /** The code standing for "no exit code" in the total wrapper. */
  const NoExitCode := -1

  /**
   * The total wrapper: it never raises. An exception becomes
   * `("", str(e), -1)`; a missing stream becomes `""`; a missing return code becomes -1.
   */
  function RunCommand(reply: Reply): (c: Captured)
    ensures reply.Threw? ==> c.stdout == [] && c.stderr == reply.fault.message && c.exitCode == NoExitCode
    ensures reply.Exited? && reply.stdout.Some? ==> c.stdout == reply.stdout.value
    ensures reply.Exited? && reply.stdout.None? ==> c.stdout == []
    ensures reply.Exited? && reply.stderr.Some? ==> c.stderr == reply.stderr.value
    ensures reply.Exited? && reply.stderr.None? ==> c.stderr == []
    ensures reply.Exited? && reply.returnCode.Some? ==> c.exitCode == reply.returnCode.value
    ensures reply.Exited? && reply.returnCode.None? ==> c.exitCode == NoExitCode
  {
    match reply
    case Threw(f) => Captured("", f.message, NoExitCode)
    case Exited(out, err, code) => Captured(out.GetOr(""), err.GetOr(""), code.GetOr(NoExitCode))
  }

  /**
   * The wrapper without a `try`: the exception of the call escapes, reading a
   * missing stream raises `AttributeError`, and a missing return code is
   * passed on as `None`.
   */
  function RunCommandStrict(reply: Reply): (r: Strict)
    ensures r.Failed? <==> reply.Threw? || reply.stdout.None? || reply.stderr.None?
    ensures reply.Threw? ==> r == Failed(reply.fault)
    ensures r.Ran? ==> r.stdout == reply.stdout.value && r.stderr == reply.stderr.value && r.exitCode == reply.returnCode
  {
    match reply
    case Threw(f) => Failed(f)
    case Exited(out, err, code) =>
      if out.None? || err.None? then Failed(Raised(NoStream)) else Ran(out.value, err.value, code)
  }

  /**
   * The total wrapper extends the strict one: wherever the strict wrapper
   * returns a triple with an exit code, the total wrapper returns the same triple,
   * and wherever the call itself raised, the total wrapper reports exit code -1
   * with the exception text on stderr.
   */
  lemma TotalExtendsStrict(reply: Reply)
    ensures RunCommandStrict(reply).Ran? && RunCommandStrict(reply).exitCode.Some? ==>
      var r := RunCommandStrict(reply);
      RunCommand(reply) == Captured(r.stdout, r.stderr, r.exitCode.value)
    ensures reply.Threw? ==> RunCommand(reply) == Captured("", RunCommandStrict(reply).fault.message, NoExitCode)
  {
  }

  /**
   * The total wrapper cannot tell an exception from a process that really
   * exited with code -1, printed nothing on stdout and the exception's text on
   * stderr; so no caller of it can treat the two differently.
   */
  lemma TotalConflatesFaults(f: Fault)
    ensures RunCommand(Threw(f)) == RunCommand(Exited(Some(""), Some(f.message), Some(NoExitCode)))
  {
  }
}
