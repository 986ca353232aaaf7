/**
 * What a forked child does before its program replaces it: apply the
 * redirections of its segment over the streams it was given, then `execvp`
 * the remaining tokens; and how the child then ends.
 */
module Launch {
  import opened Wrappers
  import opened Redirection
  import opened ExitStatus

  /** Where a standard stream of the child points. */
  datatype Stream = Inherited | Descriptor(fd: int) | FileStream(path: string)

  /** The child either replaces itself by the program `argv[0]`, or exits without doing so. */
  datatype ChildRun =
    | Exec(argv: seq<string>, stdin: Stream, stdout: Stream)
    | ExitEarly(code: int)

  /** A redirection, when there is one, overrides whatever the stream pointed to. */
  function Rebind(s: Stream, binding: Option<string>): Stream {
    if binding.Some? then FileStream(binding.value) else s
  }

  /**
   * Where a stream given as `given` ends up after the redirections `redirects`
   * were applied over it: the file of the last redirection of `op`, or `given`
   * itself when there is none, so a file redirection overrides a pipe end.
   */
  function LastBinding(redirects: seq<Redirect>, op: string, given: Stream): Stream {
    var last := LastPath(redirects, op);
    if last.Some? then FileStream(last.value) else given
  }

  /**
   * The child as the source writes it: `handleRedirection` reports an error
   * only by printing it and returning, and the child goes on to `execvp`
   * whatever tokens are left in the vector, operators included.
   */
  function PrepareChildAsWritten(args: seq<string>, fs: FileSystem, stdin: Stream, stdout: Stream): ChildRun
  {
    var r := Resolve(args, fs, Inherit);
    Exec(r.Tokens(), Rebind(stdin, r.bindings.stdin), Rebind(stdout, r.bindings.stdout))
  }

  /** `cat < missing` with no readable file still runs `cat` with the arguments `<` and `missing`. */
  lemma AsWrittenExecsPastRedirectionError()
    ensures PrepareChildAsWritten(["cat", "<", "missing"], FileSystem({}, {}), Inherited, Inherited)
            == Exec(["cat", "<", "missing"], Inherited, Inherited)
  {
    var args := ["cat", "<", "missing"];
    assert !IsOperator(args[0]) && IsOperator(args[1]);
    assert args[1..][1..] == ["missing"];
    var r := Resolve(args[1..], FileSystem({}, {}), Inherit);
    assert r == Resolution([], args[1..], Inherit, [], OpenFailed("<", "missing"));
  }

  /** Whenever a redirection fails, the program as written is started with an operator among its arguments. */
  lemma AsWrittenPassesOperator(args: seq<string>, fs: FileSystem, stdin: Stream, stdout: Stream)
    requires !Resolve(args, fs, Inherit).status.Applied?
    ensures var run := PrepareChildAsWritten(args, fs, stdin, stdout);
      run.Exec? && exists i :: 0 <= i < |run.argv| && IsOperator(run.argv[i])
  {
    ResolveStops(args, fs, Inherit);
    var r := Resolve(args, fs, Inherit);
    assert r.Tokens()[|r.kept|] == r.pending[0];
  }

  /** The status a child exits with when its redirections fail and it does not start its program. */
  const RedirectionFailureCode := 1

  /**
   * The child as evidently intended: a failed redirection aborts the segment,
   * so the program is only ever started on a clean argument vector.
   */
  function PrepareChild(args: seq<string>, fs: FileSystem, stdin: Stream, stdout: Stream): (run: ChildRun)
    ensures run.Exec? <==> Resolve(args, fs, Inherit).status.Applied?
    ensures run.Exec? ==> IsSubsequence(run.argv, args)
    ensures run.Exec? ==> forall i :: 0 <= i < |run.argv| ==> !IsOperator(run.argv[i])
    ensures run.ExitEarly? ==> run.code == RedirectionFailureCode
    ensures run.Exec? ==> run.argv == Resolve(args, fs, Inherit).kept
    ensures run.Exec? ==> run.stdin == LastBinding(Resolve(args, fs, Inherit).redirects, "<", stdin)
    ensures run.Exec? ==> run.stdout == LastBinding(Resolve(args, fs, Inherit).redirects, ">", stdout)
  {
    var r := Resolve(args, fs, Inherit);
    ResolveKeeps(args, fs, Inherit);
    ResolveShape(args, fs, Inherit);
    LastRedirectionWins(args, fs, Inherit);
    if r.status.Applied? then
      assert r.Tokens() == r.kept;
      Exec(r.kept, Rebind(stdin, r.bindings.stdin), Rebind(stdout, r.bindings.stdout))
    else
      ExitEarly(RedirectionFailureCode)
  }

  /**
   * How the child ends: a program `execvp` can start ends as `program` does;
   * otherwise the child exits with the exec-failure code of its context.
   */
  function Outcome(run: ChildRun, executables: set<string>, program: Termination, inPipeline: bool): Termination
  {
    match run
    case ExitEarly(code) => Exited(code)
    case Exec(argv, _, _) =>
      if |argv| > 0 && argv[0] in executables then program else Exited(ExecFailureCode(inPipeline))
  }

  /**
   * A foreground command is reported as completed exactly when its
   * redirections applied, its program could be started, and that program
   * exited with a code that is 0 modulo 256.
   */
  lemma ForegroundSuccessIff(args: seq<string>, fs: FileSystem, executables: set<string>, program: Termination)
    requires WellFormed(program)
    ensures var run := PrepareChild(args, fs, Inherited, Inherited);
      Succeeded(StatusWord(Outcome(run, executables, program, false))) <==>
        && run.Exec? && |run.argv| > 0 && run.argv[0] in executables
        && program.Exited? && program.code % 256 == 0
  {
    var run := PrepareChild(args, fs, Inherited, Inherited);
    var t := Outcome(run, executables, program, false);
    if run.ExitEarly? {
      SucceededIff(Exited(RedirectionFailureCode));
    } else if |run.argv| > 0 && run.argv[0] in executables {
      SucceededIff(program);
    } else {
      ExecFailureIsFailure(false);
    }
  }
}
