/**
 * How the shell classifies a foreground command's termination: success
 * exactly when `WIFEXITED(status) && WEXITSTATUS(status) == 0`, on the Linux
 * layout of the status word `waitpid` fills in.
 */
module ExitStatus {

  /** How a child process ended. A signal number lies in 1..127. */
  datatype Termination =
    | Exited(code: int)
    | Signaled(signal: int, coreDumped: bool)

  predicate WellFormed(t: Termination) {
    t.Signaled? ==> 1 <= t.signal < 128
  }

  /** The status word: the low 8 bits of the exit code in bits 8..15, or the signal in bits 0..6 and the core flag in bit 7. */
  function StatusWord(t: Termination): int
  {
    match t
    case Exited(code) => (code % 256) * 256
    case Signaled(sig, core) => sig + (if core then 128 else 0)
  }

  /** `WIFEXITED(status)`: `(status & 0x7f) == 0`. */
  predicate IfExited(status: int) {
    status % 128 == 0
  }

  /** `WEXITSTATUS(status)`: `(status >> 8) & 0xff`. */
  function ExitStatusOf(status: int): int {
    (status / 256) % 256
  }

  /** The success test the shell applies after `waitpid`. */
  predicate Succeeded(status: int) {
    IfExited(status) && ExitStatusOf(status) == 0
  }

  /**
   * A command counts as a success exactly when it exited normally with a
   * code that is 0 in its low 8 bits; a signalled command always fails.
   */
  lemma SucceededIff(t: Termination)
    requires WellFormed(t)
    ensures Succeeded(StatusWord(t)) <==> t.Exited? && t.code % 256 == 0
  {
    match t
    case Exited(code) =>
      var c := code % 256;
      assert StatusWord(t) == c * 256;
      assert (c * 256) % 128 == 0;
      assert (c * 256) / 256 == c;
    case Signaled(sig, core) =>
      var w := sig + (if core then 128 else 0);
      assert w % 128 == sig;
  }

  /** `WEXITSTATUS` gives back the exit code a process passed to `exit`, modulo 256. */
  lemma ExitCodeRoundTrip(code: int)
    ensures IfExited(StatusWord(Exited(code)))
    ensures ExitStatusOf(StatusWord(Exited(code))) == code % 256
  {
    var c := code % 256;
    assert (c * 256) / 256 == c;
  }

  /** The code a child exits with when `execvp` returns: 1 inside a pipeline, 127 for a single command. */
  function ExecFailureCode(inPipeline: bool): (code: int)
    ensures 0 < code < 256
  {
    if inPipeline then 1 else 127
  }

  /** A child whose program could not be started is reported as a failure. */
  lemma ExecFailureIsFailure(inPipeline: bool)
    ensures !Succeeded(StatusWord(Exited(ExecFailureCode(inPipeline))))
  {
    SucceededIff(Exited(ExecFailureCode(inPipeline)));
  }
}
