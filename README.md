# MyShell decision layer, in Dafny

MyShell (`custom_shell.cpp`) is a small interactive Unix shell. Each turn, it
reads a line, trims it and records it in its history. If the line holds a `|`,
it runs the line as a pipeline. Otherwise it tokenises the line, takes a
trailing `&` as the background flag, and hands the tokens to
`executeCommand`. That function matches builtins on the first token, or
forks the external program. A foreground program is waited for and reported
as completed or failed. A background program is entered into a job table
that `jobs`, `fg` and `bg` work on.

This project models that decision layer and proves properties of it. Every
answer the operating system gives becomes a parameter:

- whether `open`, `pipe` and `fork` succeed;
- the pid `fork` returns;
- whether `kill(pid, SIGCONT)` succeeds;
- which names `execvp` can start, and how a started program ends.

Modules, one per part of the program:

- `Tokens`: `parseInput` (whitespace tokenisation) and the single-space join
  that `executeCommand` builds for the history.
- `Line`: trimming of space, tab and newline; the `getline(…, '|')` split
  into trimmed non-blank segments; and the choice between skipping the line,
  running a pipeline and running one command.
- `Redirection`: `handleRedirection`. It is given as a specification function
  `Resolve`, and as an imperative method `HandleRedirection` that erases from
  its copy of the token vector and steps the index back. The method is proved
  equal to `Resolve`.
- `ExitStatus`: the wait-status word, with `WIFEXITED` and `WEXITSTATUS` on
  the Linux layout, the success test, and the exec-failure exit codes.
- `Launch`: what a forked child does before `execvp`. It applies its
  redirections over the streams it was given, then either starts its
  program or exits.
- `Pipeline`: `executePipeline` over the `fds` array, in three parts:
  - the `pipe` loop;
  - the `fork` loop, where each child's descriptors follow from the slot
    arithmetic;
  - closing every slot and reaping.
- `Jobs`: the `jobs`/`jobCounter` globals. `Table` is their value, and the
  functions `Launched`, `Foregrounded` and `Backgrounded` give each update.
  The class `JobTable` holds the same state as mutable fields; its methods
  are proved to perform exactly those updates. `printJobs` walks the map in
  ascending id order.
- `Shell`: `executeCommand` (the builtin chain and the external branch) and
  one turn of `main`'s loop. They are given as the class `Session` over the
  history, `lastCommand` and the job table, and are proved against the
  specification function `CommandEffect`.

In one place the code and its design disagree: what happens after a
redirection error. The design says a failed redirection aborts the
command. The code prints the error and then still runs `execvp` on the
tokens left in the vector, operators included. The model keeps both. The
evidently intended behaviour, where the child exits with status 1 instead
of starting its program, is the one the rest of the model uses (see
Findings).

## Model

| member | source | states |
|---|---|---|
| Tokens.Tokenize | custom_shell.cpp:96-102 | every token `parseInput` returns is non-empty and free of whitespace |
| Tokens.TokenizeAllSpace | custom_shell.cpp:96-102 | a line of whitespace only has no tokens |
| Tokens.TokenizeWord | custom_shell.cpp:96-102 | a single whitespace-free word is read as exactly that one token |
| Tokens.TokenizeSplitAtSpace | custom_shell.cpp:96-102 | a whitespace character always ends a token: the tokens of `x` followed by a whitespace-led `z` are those of `x` then those of `z` |
| Tokens.TokenizeSeparated | custom_shell.cpp:96-102 | any non-empty run of whitespace, of any kind and length, separates tokens: `x`, whitespace, `y` has the tokens of `x` then those of `y`; with `Tokens.TokenizeAllSpace` and `Tokens.TokenizeWord` this fixes the tokens of every line as its maximal non-whitespace runs, in order |
| Tokens.TokenizeIgnoresPadding | custom_shell.cpp:96-102 | whitespace before and after a line does not change its tokens |
| Tokens.Join | custom_shell.cpp:210-213 | definition: the tokens separated by single spaces, the line `executeCommand` records; `Tokens.TokenizeJoin` is its round trip |
| Tokens.TokenizeJoin | custom_shell.cpp:210-213 | re-tokenising the single-space join of whitespace-free, non-empty tokens gives back the same tokens |
| Line.Trim | custom_shell.cpp:352-357 | the trimmed line is absent exactly when the line is only space, tab and newline; otherwise it is non-empty and starts and ends with another character |
| Line.TrimDecompose | custom_shell.cpp:352-357 | the line is the trimmed line with only space, tab and newline before and after it |
| Line.TrimKeepsTokens | custom_shell.cpp:352-381 | trimming does not change the tokens of the line |
| Line.TrimKeepsBars | custom_shell.cpp:352-364 | the trimmed line holds a `|` exactly when the raw line does |
| Line.Pieces | custom_shell.cpp:367-368 | the pieces `getline` yields contain no `|`, and there are at most one more than the number of bars |
| Line.PiecesRejoin | custom_shell.cpp:367-368 | joining the pieces with `|` gives back the line, apart from a trailing bar |
| Line.Segments | custom_shell.cpp:369-373 | every segment is already trimmed, and there are no more segments than pieces |
| Line.SegmentsTokens | custom_shell.cpp:369-374 | the segments drop exactly the blank pieces, and each has the same tokens as its untrimmed piece |
| Line.PipelineCommands | custom_shell.cpp:364-375 | a pipeline line gives at most one command more than it has bars |
| Line.ClassifyLine | custom_shell.cpp:352-385 | definition: one line of the read loop is skipped when blank after trimming, run as a pipeline when it holds `|`, and otherwise tokenised with a trailing `&` popped as the background flag |
| Line.ClassifyBlank | custom_shell.cpp:352-357 | a line is skipped exactly when it is only space, tab and newline |
| Line.ClassifyPipeline | custom_shell.cpp:364-376 | the pipeline path is taken exactly when a non-blank line contains `|`, with at most bars + 1 commands |
| Line.ClassifyCommand | custom_shell.cpp:380-385 | on the command path the line has no `|`; the background flag holds exactly when the last token is `&`, and the arguments are the tokens without that `&` |
| Redirection.CanOpen | custom_shell.cpp:109-117 | definition: `>` opens for writing, `<` for reading, answered by the given file system |
| Redirection.Bind | custom_shell.cpp:111-119 | definition: the `dup2` of an opened file onto stdout for `>` or stdin for `<`, replacing the earlier binding of that stream |
| Redirection.Resolve | custom_shell.cpp:105-125 | definition: the left-to-right scan, erasing each opened operator and its filename and rebinding its stream, stopping with the rest untouched at a missing filename or a failed `open` |
| Redirection.ResolveKeeps | custom_shell.cpp:105-125 | the kept tokens contain no `<` or `>`, and are the input tokens in their original order (a subsequence) |
| Redirection.ResolveShape | custom_shell.cpp:105-125 | kept tokens, two tokens per applied redirection, and the unscanned tail account for the whole input; the tail is a suffix, empty exactly on success |
| Redirection.ResolveRemovesPairs | custom_shell.cpp:105-125 | the input up to the stop splits into single non-operator words and operator-filename pairs whose file opened; the words in order are the kept tokens, and the pairs in order are the applied redirections, each with the token right after its operator as its path |
| Redirection.ResolveAppliedRemovesPairs | custom_shell.cpp:105-125 | on success that split covers the whole input: the vector left is the input with every `<`/`>` and the token after it removed |
| Redirection.ResolveStops | custom_shell.cpp:108-118 | on an error the scan stops at an operator; it is a missing filename exactly when that operator is the last token, otherwise the named file cannot be opened, and the operator and all later tokens stay |
| Redirection.ResolveStopsAfterPrefix | custom_shell.cpp:108-123 | on an error, the redirections applied are exactly those of the tokens before the failing operator |
| Redirection.ResolveAppend | custom_shell.cpp:105-125 | scanning two pieces in a row continues from the bindings the first piece left |
| Redirection.LastRedirectionWins | custom_shell.cpp:111-119 | each of stdin and stdout ends bound to the last redirection of it that was opened, or keeps its initial binding |
| Redirection.HandleRedirection | custom_shell.cpp:105-125 | the in-place erase loop with its index step-back leaves exactly the tokens, bindings, redirections and status of `Resolve` |
| ExitStatus.StatusWord | custom_shell.cpp:307-311 | definition: the Linux status word `waitpid` fills in: the low 8 bits of the exit code in bits 8..15, or the signal number and core flag in the low byte |
| ExitStatus.IfExited | custom_shell.cpp:311 | definition: `WIFEXITED`, the low 7 bits of the status are zero |
| ExitStatus.ExitStatusOf | custom_shell.cpp:311 | definition: `WEXITSTATUS`, bits 8..15 of the status |
| ExitStatus.Succeeded | custom_shell.cpp:311 | definition: the shell's success test `WIFEXITED(status) && WEXITSTATUS(status) == 0` |
| ExitStatus.SucceededIff | custom_shell.cpp:311 | `WIFEXITED && WEXITSTATUS == 0` holds exactly for a normal exit whose code is 0 modulo 256; a signalled child always fails |
| ExitStatus.ExitCodeRoundTrip | custom_shell.cpp:311 | `WEXITSTATUS` of an exit status gives back the code modulo 256 |
| ExitStatus.ExecFailureCode | custom_shell.cpp:160-298 | a child whose `execvp` fails exits with a code in 1..255: 1 in a pipeline (line 160), 127 on its own (line 298) |
| ExitStatus.ExecFailureIsFailure | custom_shell.cpp:298-311 | a child whose program could not be started is reported as a failure |
| Launch.PrepareChildAsWritten | custom_shell.cpp:289-295 | as written: the child applies its redirections and then `execvp`s whatever tokens are left, the failing operator and what follows included (also line 151-157 in a pipeline) |
| Launch.AsWrittenExecsPastRedirectionError | custom_shell.cpp:289-295 | as written, `cat < missing` with no readable file still runs `execvp` on `cat < missing` |
| Launch.AsWrittenPassesOperator | custom_shell.cpp:151-157 | as written, whenever a redirection fails, the program is started with an operator among its arguments |
| Launch.PrepareChild | custom_shell.cpp:289-298 | corrected: the program is started exactly when every redirection applied, on exactly the kept tokens of `Resolve` (no operator among them), with stdin and stdout the file of the last `<` and `>` or else the stream it was given; otherwise the child exits with 1 |
| Launch.LastBinding | custom_shell.cpp:111-119 | definition: a stream ends at the file of its last redirection, or at the stream the child was given |
| Launch.Outcome | custom_shell.cpp:295-298 | definition: a started program ends as the program does; when `execvp` cannot start it the child exits 127 on its own, 1 in a pipeline (line 160); a child whose redirection failed exits with its own code |
| Launch.ForegroundSuccessIff | custom_shell.cpp:285-312 | corrected: a foreground command is reported as completed exactly when its redirections applied, its program could be started, and it exited with 0 modulo 256 |
| Pipeline.SlotsInBounds | custom_shell.cpp:139-146 | every slot a child reads or writes lies in `[0, 2(n-1))` |
| Pipeline.NeighboursShareAPipe | custom_shell.cpp:140-146 | the write slot of child `i` and the read slot of child `i+1` are the two ends of pipe `i` |
| Pipeline.EachSlotHasOneUser | custom_shell.cpp:139-146 | an even slot is read only by the next child and an odd slot is written only by the previous one |
| Pipeline.Ends | custom_shell.cpp:132-134 | after `m` successful `pipe` calls, slots `2j` and `2j+1` hold the read and write ends of pipe `j` |
| Pipeline.ExpectedChild | custom_shell.cpp:139-157 | definition, corrected: child `i` `dup2`s the read end of pipe `i-1` unless it is first and the write end of pipe `i` unless it is last, closes every pipe end, and then prepares its own segment |
| Pipeline.ConsecutiveChildrenShareAPipe | custom_shell.cpp:139-146 | child `i` writes to the write end and child `i+1` reads from the read end of the same pipe; only the first inherits stdin and only the last inherits stdout |
| Pipeline.CreatePipes | custom_shell.cpp:132-134 | the `pipe` loop fills the array with every pipe's ends, or stops at the first failing `pipe` with the earlier pipes' ends in place |
| Pipeline.RedirectionsOverridePipes | custom_shell.cpp:139-154 | corrected: a segment's redirections are applied after its pipe wiring and win over it; a started child runs its kept tokens, reads the file of its last `<` or else the previous pipe's read end (stdin for the first), and writes the file of its last `>` or else its pipe's write end (stdout for the last) |
| Pipeline.ForkChildren | custom_shell.cpp:136-167 | corrected: the `fork` loop starts the expected child for each segment and stops at the first failing `fork` |
| Pipeline.CloseAll | custom_shell.cpp:161-170 | the parent closes every slot of the array, in order |
| Pipeline.ExecutePipeline | custom_shell.cpp:128-172 | corrected: no segments do nothing; a `pipe` failure starts no child; a `fork` failure closes every slot without waiting; otherwise every child is wired as planned, every slot is closed and `n` children are reaped |
| Jobs.Launched | custom_shell.cpp:300-304 | definition: a background launch stores `{pid, args[0], running}` under the counter, then increments it |
| Jobs.Foregrounded | custom_shell.cpp:184-193 | definition: `fg` erases a known job whatever `kill` returned, and leaves an unknown id alone |
| Jobs.Backgrounded | custom_shell.cpp:195-202 | definition: `bg` marks a known job running when `kill(SIGCONT)` succeeds, and otherwise changes nothing |
| Jobs.Listing | custom_shell.cpp:175-182 | definition: what `printJobs` walks, every entry of the map by ascending id |
| Jobs.InitialIsValid | custom_shell.cpp:36-37 | the table starts empty with the counter at 1 |
| Jobs.LaunchedUsesFreshId | custom_shell.cpp:300-304 | a background launch stores `{pid, args[0], running}` under the counter, an id free and larger than every id in use, then increments it; earlier entries are unchanged |
| Jobs.ForegroundedRemovesOnly | custom_shell.cpp:184-193 | `fg` on a known id removes exactly that entry, whether or not `SIGCONT` succeeded; an unknown id changes nothing |
| Jobs.BackgroundedKeepsJobs | custom_shell.cpp:195-202 | `bg` keeps the set of jobs and changes nothing on an unknown id or a failed `kill`; on success it only sets that entry's running flag |
| Jobs.BackgroundedIsNoOp | custom_shell.cpp:195-202 | since every stored job is running, `bg` never changes the table |
| Jobs.IdsNeverReused | custom_shell.cpp:184-304 | along any run of launches, `fg` and `bg`, the ids issued strictly increase and never clash with an id already in use; the table stays valid and all-running |
| Jobs.JobTable.AddBackground | custom_shell.cpp:300-304 | the method stores the job under the old counter, an id not in use and above every used one, and performs exactly `Launched` |
| Jobs.JobTable.BringToForeground | custom_shell.cpp:184-193 | the method waits on the job's pid exactly when the id is known, reports a failed `kill(SIGCONT)` exactly for a known job whose signal failed, and performs exactly `Foregrounded` |
| Jobs.JobTable.SendToBackground | custom_shell.cpp:195-202 | the method reports not found, a failed signal or a resumed pid, and performs exactly `Backgrounded` |
| Jobs.JobTable.List | custom_shell.cpp:175-182 | the walk over the map yields exactly `Listing` of the table |
| Jobs.SortedIdsSorted | custom_shell.cpp:177 | the ids come out once each, in strictly ascending order |
| Jobs.ListingIsSortedTable | custom_shell.cpp:175-182 | `jobs` lists every entry of the table exactly once, with its own job, by strictly ascending id |
| Jobs.ListingEmptyIff | custom_shell.cpp:176 | the listing is empty exactly when the table is, which is the "No background jobs." case |
| Shell.Dispatch | custom_shell.cpp:218-280 | definition: the builtin chain on the first token, in its order, with `fg`/`bg` given usage without an argument, and every other name external |
| Shell.CommandEffect | custom_shell.cpp:205-317 | definition, corrected: the report and job table `executeCommand` leaves for each branch of `Dispatch`, including the `fork` failure, the background registration and the foreground success test |
| Shell.DispatchMatchesBuiltinNames | custom_shell.cpp:218-280 | the builtin chain treats exactly the eleven names `help` lists; any other first token goes to the external path, and `fg`/`bg` with no argument only print their usage |
| Shell.OnlyJobCommandsChangeTable | custom_shell.cpp:218-316 | only a successful background fork, `fg`, and a `bg` whose signal succeeded can change the job table |
| Shell.BuiltinsIgnoreBackground | custom_shell.cpp:218-300 | the `&` flag does not affect any builtin |
| Shell.ForkFailureChangesNothing | custom_shell.cpp:314-316 | a failed `fork` reports the error and leaves the job table unchanged |
| Shell.BackgroundLaunchRegisters | custom_shell.cpp:300-304 | a background command is registered under a fresh id with its first token only, and the earlier jobs are unchanged |
| Shell.ForegroundReport | custom_shell.cpp:305-313 | corrected: a foreground command leaves the table unchanged, and is reported as completed exactly when its redirections applied, its program could be started, and it exited with 0 modulo 256 |
| Shell.CommandKeepsTableValid | custom_shell.cpp:205-317 | every command keeps the job ids below the counter and every job running |
| Shell.RepeatRedispatchesItself | custom_shell.cpp:215-246 | `!!` re-dispatches the tokens of `lastCommand`, which is its own joined line, so the command it repeats is again `!!` with the same arguments |
| Shell.Session.ExecuteCommand | custom_shell.cpp:205-317 | corrected: an empty vector does nothing; otherwise the joined line is appended to the history and becomes `lastCommand`, and the report and the new job table are those of `CommandEffect` |
| Shell.Session.RunCommand | custom_shell.cpp:218-316 | the builtin chain and the external branch give the report and the job table of `CommandEffect` |
| Shell.Session.Step | custom_shell.cpp:349-386 | a blank line changes nothing; otherwise the trimmed line is recorded, and then either a pipeline runs with the job table untouched, or one command runs as `executeCommand` |

## Left out

- The system calls `fork`, `execvp`, `pipe`, `dup2`, `open`, `close`, `kill` and `waitpid` are not run. Their outcomes are the parameters `FileSystem`, `World.pipes`, `World.forkSucceeds`, `World.forkPid`, `World.continued`, `World.executables` and `World.program`. Process concurrency is not modelled.
- Authentication, the prompt, coloured output, `whoami`'s `getpwuid`, readline and its completion are terminal I/O or foreign calls. They are not part of this model.
- The `cd`, `help`, `history`, `whoami`, `setenv` and `printenv` builtins wrap the environment and the filesystem. Only their place in the builtin chain is modelled, reported as `NotModelled`. `exit` is reported as `Exiting`.
- The execution-time measurement is wall-clock floating-point time, and is left out.
- The SIGINT handler and the child's signal disposition are asynchronous signal behaviour, and are left out.
- `stoi` on the argument of `fg` and `bg` is not modelled: `World.jobId` is the already-parsed value. The exception it can throw is not modelled.
- The recursive `executeCommand` call that `!!` makes is not carried out. `Repeating` reports the line and tokens it would re-dispatch; the lemma shows these are `!!` itself, so that path never ends.
- The `size_t` wrap of `--i` at position 0 in `handleRedirection` is modelled with an `int` index. The effect is the same: the position is examined again after an erase.
- After a `pipe` failure in a pipeline, the pipes already made stay open, and after a `fork` failure the children already started are not reaped. The result reports both; the model does not follow those processes further.
- The pipeline reaps with `wait(NULL)`, which may reap any child, including a background job. The model only counts the `n` calls.
- Three cases end in `execvp` with a null program name: a pipeline segment holding only vertical tab, form feed or carriage return, which survives trimming but has no tokens; a command made only of redirections, such as `> out` (line 289); and a pipeline segment such as `< in` (line 151). The model gives the child an empty argument vector, `Exec([])`, and treats it as a program that cannot be started (exit 127 on its own, 1 in a pipeline). What `execvp` really does with a null name is not modelled.
- Redirection.Resolve: the file system is fixed for the whole scan. A `>` opens with `O_CREAT|O_TRUNC` (line 109) and creates its file, so a later `<` on the same path in the same command succeeds in the source. In the model that `<` succeeds only when the path was already in `readable`. For example, `> f < f` with `f` writable but not yet readable fails there with `OpenFailed`.
- Jobs.Launched: `jobCounter` is a C++ `int` (line 37), and its increment on line 304 has undefined behaviour on overflow. `Table.counter` is an unbounded integer, so the model assumes fewer than 2^31 - 1 background launches.
- The history list is modelled only as the sequence of recorded lines: `add_history`, and the printing done by `history`, are left out.

## Findings

| source | as written | input that shows it | evidently intended | confidence | as-written member | corrected member |
|---|---|---|---|---|---|---|
| custom_shell.cpp:289-295 | `handleRedirection` reports a missing filename or an `open` failure only by printing and returning; the child then calls `execvp` on the tokens left in the vector, operator and filename included | `cat < missing` where `missing` cannot be opened: `cat` runs with the arguments `<` and `missing` | a failed redirection aborts the command, and the child exits with status 1 without starting its program | not executed | Launch.PrepareChildAsWritten, Launch.AsWrittenExecsPastRedirectionError | Launch.PrepareChild |
