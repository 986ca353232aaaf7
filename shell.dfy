/**
 * `executeCommand` and one turn of `main`'s read loop: record the line,
 * pick the pipeline or single-command path, match builtins on the first
 * token, and otherwise fork the external program, in the foreground or as
 * a background job.  Everything the operating system decides is a field of
 * `World`.
 */
module Shell {
  import opened Wrappers
  import opened Tokens
  import opened Line
  import opened Redirection
  import opened ExitStatus
  import opened Launch
  import opened Pipeline
  import opened Jobs

  /** What the operating system answers during one command. */
  datatype World = World(
    fs: FileSystem,                    // which paths `open` accepts
    executables: set<string>,          // which names `execvp` can start
    program: Termination,              // how a started program ends
    forkPid: Option<int>,              // the child pid `fork` returns, `None` when it fails
    continued: bool,                   // whether `kill(pid, SIGCONT)` succeeds
    jobId: int,                        // the value `stoi` gives the argument of `fg` or `bg`
    pipes: nat -> Option<PipeEnds>,    // the result of the `pipe` call for each pipe
    forkSucceeds: nat -> bool)         // whether the `fork` for each segment succeeds

  /** The first tokens `executeCommand` treats itself; the same eleven names `help` lists. */
  const BuiltinNames: set<string> :=
    {"cd", "exit", "help", "history", "!!", "whoami", "setenv", "printenv", "jobs", "fg", "bg"}

  /** The branch of `executeCommand` a token vector takes. */
  datatype Command =
    | NoArgs
    | ChangeDir | Exit | Help | ShowHistory | Repeat | WhoAmI | SetEnv | PrintEnv
    | ListJobs
    | FgUsage | Fg
    | BgUsage | Bg
    | External

  /** The builtin chain of lines 218-280, in its order. */
  function Dispatch(args: seq<string>): Command
  {
    if |args| == 0 then NoArgs
    else
      var cmd := args[0];
      if cmd == "cd" then ChangeDir
      else if cmd == "exit" then Exit
      else if cmd == "help" then Help
      else if cmd == "history" then ShowHistory
      else if cmd == "!!" then Repeat
      else if cmd == "whoami" then WhoAmI
      else if cmd == "setenv" then SetEnv
      else if cmd == "printenv" then PrintEnv
      else if cmd == "jobs" then ListJobs
      else if cmd == "fg" then (if |args| < 2 then FgUsage else Fg)
      else if cmd == "bg" then (if |args| < 2 then BgUsage else Bg)
      else External
  }

  /**
   * The chain matches exactly the listed builtin names: any other first
   * token is an external program, and `fg`/`bg` without an argument only
   * print their usage.
   */
  lemma DispatchMatchesBuiltinNames(args: seq<string>)
    ensures Dispatch(args).NoArgs? <==> |args| == 0
    ensures Dispatch(args).External? <==> |args| > 0 && args[0] !in BuiltinNames
    ensures Dispatch(args).Fg? <==> |args| >= 2 && args[0] == "fg"
    ensures Dispatch(args).FgUsage? <==> |args| == 1 && args[0] == "fg"
    ensures Dispatch(args).Bg? <==> |args| >= 2 && args[0] == "bg"
    ensures Dispatch(args).BgUsage? <==> |args| == 1 && args[0] == "bg"
    ensures Dispatch(args).ListJobs? <==> |args| > 0 && args[0] == "jobs"
    ensures Dispatch(args).Repeat? <==> |args| > 0 && args[0] == "!!"
  {
  }

  /** What the shell reports after one command. */
  datatype Report =
    | Ignored                                   // an empty token vector
    | NotModelled(name: string)                 // cd, help, history, whoami, setenv, printenv
    | Exiting                                   // `exit(0)`
    | Repeating(line: string, args: seq<string>) // `!!` re-dispatches `parseInput(lastCommand)`
    | JobList(entries: seq<(int, Job)>)
    | Usage(name: string)
    | ForegroundWaited(waited: Option<int>, signalFailed: bool)
    | BackgroundSignal(result: BackgroundResult)
    | StartedInBackground(id: int, pid: int)
    | ForegroundFinished(success: bool)
    | ForkError

  /** A report together with the job table it leaves. */
  datatype Effect = Effect(report: Report, table: Table)

  /** The result `sendToBackground` reports for `id`. */
  function BackgroundReport(t: Table, id: int, continued: bool): BackgroundResult {
    if id !in t.jobs then NotFound
    else if !continued then SignalFailed(t.jobs[id].pid)
    else Resumed(t.jobs[id].pid)
  }

  /** How a foreground external command is judged: its child's plan, its ending, the status test. */
  function ForegroundSucceeds(args: seq<string>, w: World): bool {
    Succeeded(StatusWord(Outcome(PrepareChild(args, w.fs, Inherited, Inherited), w.executables, w.program, false)))
  }

  /** What `executeCommand(args, background)` reports and does to the job table. */
  ghost function CommandEffect(t: Table, args: seq<string>, background: bool, w: World): Effect
  {
    match Dispatch(args)
    case NoArgs => Effect(Ignored, t)
    case Exit => Effect(Exiting, t)
    case Repeat => Effect(Repeating(Join(args), Tokenize(Join(args))), t)
    case ListJobs => Effect(JobList(Listing(t.jobs)), t)
    case FgUsage => Effect(Usage("fg"), t)
    case BgUsage => Effect(Usage("bg"), t)
    case Fg =>
      var id := w.jobId;
      Effect(ForegroundWaited(if id in t.jobs then Some(t.jobs[id].pid) else None, id in t.jobs && !w.continued),
             Foregrounded(t, id))
    case Bg =>
      var id := w.jobId;
      Effect(BackgroundSignal(BackgroundReport(t, id, w.continued)), Backgrounded(t, id, w.continued))
    case External =>
      if w.forkPid.None? then Effect(ForkError, t)
      else if background then Effect(StartedInBackground(t.counter, w.forkPid.value), Launched(t, w.forkPid.value, args[0]))
      else Effect(ForegroundFinished(ForegroundSucceeds(args, w)), t)
    case _ => Effect(NotModelled(args[0]), t)
  }

  /** Only a background launch, `fg` and `bg` touch the job table; every other path leaves it as it was. */
  lemma OnlyJobCommandsChangeTable(t: Table, args: seq<string>, background: bool, w: World)
    ensures var e := CommandEffect(t, args, background, w);
      e.table != t ==>
        || (Dispatch(args).External? && background && w.forkPid.Some?)
        || Dispatch(args).Fg?
        || (Dispatch(args).Bg? && w.continued)
  {
  }

  /** The `&` flag matters only to external programs: builtins run the same either way. */
  lemma BuiltinsIgnoreBackground(t: Table, args: seq<string>, w: World)
    requires |args| > 0 && args[0] in BuiltinNames
    ensures CommandEffect(t, args, true, w) == CommandEffect(t, args, false, w)
  {
  }

  /** A failed `fork` reports the error and changes nothing. */
  lemma ForkFailureChangesNothing(t: Table, args: seq<string>, background: bool, w: World)
    requires Dispatch(args).External? && w.forkPid.None?
    ensures CommandEffect(t, args, background, w) == Effect(ForkError, t)
  {
  }

  /**
   * A background launch stores `{pid, args[0], running}` under the current
   * counter, which is a fresh id larger than every id in use, and leaves
   * every earlier job alone; the whole command line is not stored.
   */
  lemma BackgroundLaunchRegisters(t: Table, args: seq<string>, w: World, pid: int)
    requires Valid(t) && Dispatch(args).External? && w.forkPid == Some(pid)
    ensures var e := CommandEffect(t, args, true, w);
      && e.report == StartedInBackground(t.counter, pid)
      && t.counter !in t.jobs
      && e.table.jobs.Keys == t.jobs.Keys + {t.counter}
      && e.table.jobs[t.counter] == Job(pid, args[0], true)
      && (forall id :: id in t.jobs ==> e.table.jobs[id] == t.jobs[id])
      && e.table.counter == t.counter + 1
      && Valid(e.table)
  {
    LaunchedUsesFreshId(t, pid, args[0]);
  }

  /**
   * A foreground external command is reported as completed exactly when
   * its redirections applied, its program could be started and exited with
   * a code that is 0 modulo 256; the job table is untouched.
   */
  lemma ForegroundReport(t: Table, args: seq<string>, w: World, pid: int)
    requires Dispatch(args).External? && w.forkPid == Some(pid) && WellFormed(w.program)
    ensures var e := CommandEffect(t, args, false, w);
      && e.table == t
      && e.report.ForegroundFinished?
      && (e.report.success <==>
           && Resolve(args, w.fs, Inherit).status.Applied?
           && var argv := Resolve(args, w.fs, Inherit).kept;
              |argv| > 0 && argv[0] in w.executables && w.program.Exited? && w.program.code % 256 == 0)
  {
    ForegroundSuccessIff(args, w.fs, w.executables, w.program);
  }

  /** Every command keeps the job table valid and every job running. */
  lemma CommandKeepsTableValid(t: Table, args: seq<string>, background: bool, w: World)
    requires Valid(t) && AllRunning(t)
    ensures Valid(CommandEffect(t, args, background, w).table)
    ensures AllRunning(CommandEffect(t, args, background, w).table)
  {
    match Dispatch(args)
    case Fg => ForegroundedRemovesOnly(t, w.jobId);
    case Bg => BackgroundedKeepsJobs(t, w.jobId, w.continued);
    case External =>
      if w.forkPid.Some? && background {
        LaunchedUsesFreshId(t, w.forkPid.value, args[0]);
      }
    case _ =>
  }

  /**
   * `!!` repeats `lastCommand`, which `executeCommand` has just set to the
   * join of its own arguments: for a token vector from `parseInput` the
   * repeated command is that same vector, `!!` again, so it re-dispatches
   * itself and never reaches an earlier command.
   */
  lemma RepeatRedispatchesItself(t: Table, args: seq<string>, background: bool, w: World)
    requires AllWords(args) && Dispatch(args).Repeat?
    ensures CommandEffect(t, args, background, w).report == Repeating(Join(args), args)
    ensures Dispatch(CommandEffect(t, args, background, w).report.args).Repeat?
  {
    var line := Join(args);
    assert CommandEffect(t, args, background, w) == Effect(Repeating(line, Tokenize(line)), t);
    TokenizeJoin(args);
  }

  /** The joined line starts with the first token, so it is never empty when that token is not. */
  lemma {:induction false} JoinStartsWithFirst(ts: seq<string>)
    requires |ts| > 0
    ensures |Join(ts)| >= |ts[0]| && Join(ts)[..|ts[0]|] == ts[0]
  {
    if |ts| > 1 {
      assert Join(ts) == ts[0] + (" " + Join(ts[1..]));
    }
  }

  /** What one turn of the read loop did with the line it read. */
  datatype StepOutcome =
    | Skipped
    | NoSegments
    | PipelineRan(result: PipelineResult)
    | CommandRan(report: Report)

  /** The shell's global state: the history list, `lastCommand` and the job table. */
  class Session {
    var history: seq<string>
    var lastCommand: string
    const table: JobTable

    ghost predicate Valid()
      reads this, table
    {
      table.Invariant()
    }

    constructor ()
      ensures history == [] && lastCommand == ""
      ensures fresh(table) && table.State() == Initial
      ensures Valid()
    {
      history := [];
      lastCommand := "";
      table := new JobTable();
    }

    /**
     * `executeCommand`: a non-empty vector is joined into a line that is
     * appended to the history and becomes `lastCommand`; then the builtin
     * chain runs, and otherwise the external program is forked.
     */
    method ExecuteCommand(args: seq<string>, background: bool, w: World) returns (report: Report)
      requires Valid()
      modifies this, table
      ensures Valid()
      ensures report == CommandEffect(old(table.State()), args, background, w).report
      ensures table.State() == CommandEffect(old(table.State()), args, background, w).table
      ensures |args| == 0 ==> history == old(history) && lastCommand == old(lastCommand)
      ensures |args| > 0 ==> history == old(history) + [Join(args)] && lastCommand == Join(args)
    {
      if |args| == 0 {
        return Ignored;
      }
      var cmdLine := Join(args);
      history := history + [cmdLine];
      lastCommand := cmdLine;
      report := RunCommand(args, background, w);
    }

    /** The builtin chain and the external branch of `executeCommand`, once the line is recorded. */
    method RunCommand(args: seq<string>, background: bool, w: World) returns (report: Report)
      requires Valid() && |args| > 0 && lastCommand == Join(args)
      modifies table
      ensures Valid()
      ensures report == CommandEffect(old(table.State()), args, background, w).report
      ensures table.State() == CommandEffect(old(table.State()), args, background, w).table
    {
      match Dispatch(args) {
        case ChangeDir => report := NotModelled(args[0]);
        case Help => report := NotModelled(args[0]);
        case ShowHistory => report := NotModelled(args[0]);
        case WhoAmI => report := NotModelled(args[0]);
        case SetEnv => report := NotModelled(args[0]);
        case PrintEnv => report := NotModelled(args[0]);
        case Exit => report := Exiting;
        case Repeat =>
          // `lastCommand` was just set to this line, which starts with `!!`,
          // so the "No previous command" branch cannot be taken.
          JoinStartsWithFirst(args);
          assert |lastCommand| > 0;
          report := Repeating(lastCommand, Tokenize(lastCommand));
        case ListJobs =>
          var entries := table.List();
          report := JobList(entries);
        case FgUsage => report := Usage("fg");
        case Fg =>
          var waited, signalFailed := table.BringToForeground(w.jobId, w.continued);
          report := ForegroundWaited(waited, signalFailed);
        case BgUsage => report := Usage("bg");
        case Bg =>
          var r := table.SendToBackground(w.jobId, w.continued);
          report := BackgroundSignal(r);
        case External =>
          match w.forkPid {
            case None =>
              report := ForkError;
            case Some(pid) =>
              if background {
                var id := table.AddBackground(pid, args[0]);
                report := StartedInBackground(id, pid);
              } else {
                report := ForegroundFinished(ForegroundSucceeds(args, w));
              }
          }
      }
    }

    /**
     * One turn of `main`'s loop on the line `raw`: a blank line is skipped;
     * otherwise the trimmed line is recorded, and either its segments run
     * as a pipeline (when there is any) or its tokens run as one command,
     * a trailing `&` making it a background job.
     */
    method Step(raw: string, w: World) returns (outcome: StepOutcome)
      requires Valid()
      modifies this, table
      ensures Valid()
      ensures ClassifyLine(raw).Blank? ==>
        && outcome == Skipped
        && history == old(history) && lastCommand == old(lastCommand) && table.State() == old(table.State())
      ensures ClassifyLine(raw).RunPipeline? ==>
        && var commands := ClassifyLine(raw).commands;
        && history == old(history) + [Trim(raw).value] && lastCommand == Trim(raw).value
        && table.State() == old(table.State())
        && (commands == [] ==> outcome == NoSegments)
        && (commands != [] ==> outcome.PipelineRan? && Executed(commands, w.fs, w.pipes, w.forkSucceeds, outcome.result))
      ensures ClassifyLine(raw).RunCommand? ==>
        && var args := ClassifyLine(raw).args;
        && var e := CommandEffect(old(table.State()), args, ClassifyLine(raw).background, w);
        && outcome == CommandRan(e.report)
        && table.State() == e.table
        && history == old(history) + [Trim(raw).value] + (if |args| > 0 then [Join(args)] else [])
        && lastCommand == (if |args| > 0 then Join(args) else Trim(raw).value)
    {
      var trimmed := Trim(raw);
      if trimmed.None? {
        return Skipped;
      }
      var line := trimmed.value;
      history := history + [line];
      lastCommand := line;
      var action := ClassifyLine(raw);
      match action {
        case Blank =>
          assert false;
        case RunPipeline(commands) =>
          if commands == [] {
            return NoSegments;
          }
          var r := ExecutePipeline(commands, w.fs, w.pipes, w.forkSucceeds);
          return PipelineRan(r);
        case RunCommand(args, background) =>
          var report := ExecuteCommand(args, background, w);
          return CommandRan(report);
      }
    }
  }
}
