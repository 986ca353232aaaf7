/**
 * `executePipeline`: for `n` segments, create `n - 1` pipes into the array
 * `fds` of size `2(n - 1)` (pipe `j` fills slots `2j`, its read end, and
 * `2j + 1`, its write end), fork one child per segment wired to its
 * neighbours, then close every slot in the parent and wait `n` times.
 * The results of `pipe` and `fork` are given, per call, as oracles.
 */
module Pipeline {
  import opened Wrappers
  import opened Redirection
  import opened Launch

  /** The two descriptors a successful `pipe` call returns. */
  datatype PipeEnds = PipeEnds(read: int, write: int)

  /**
   * One forked child: the descriptors `dup2`ed onto its standard input and
   * output, the descriptors it closes before redirecting, and what it then does.
   */
  datatype Child = Child(stdin: Option<int>, stdout: Option<int>, closes: seq<int>, run: ChildRun)

  datatype PipelineResult =
    | NoCommands
    | PipeFailed(at: nat, leftOpen: seq<int>)
    | ForkFailed(at: nat, children: seq<Child>, closed: seq<int>)
    | Finished(children: seq<Child>, closed: seq<int>, reaped: nat)

  /** The slot child `i` reads from, when `i != 0`. */
  function ReadSlot(i: int): int { (i - 1) * 2 }

  /** The slot child `i` writes to, when `i != n - 1`. */
  function WriteSlot(i: int): int { i * 2 + 1 }

  /** Every slot a child uses lies inside the array. */
  lemma SlotsInBounds(n: int, i: int)
    requires 0 <= i < n
    ensures i != 0 ==> 0 <= ReadSlot(i) < 2 * (n - 1)
    ensures i != n - 1 ==> 0 <= WriteSlot(i) < 2 * (n - 1)
  {
  }

  /** Neighbouring children meet at one pipe: the write end of pipe `i` and its read end. */
  lemma NeighboursShareAPipe(n: int, i: int)
    requires 0 <= i && i + 1 < n
    ensures WriteSlot(i) / 2 == i && WriteSlot(i) % 2 == 1
    ensures ReadSlot(i + 1) / 2 == i && ReadSlot(i + 1) % 2 == 0
  {
  }

  /** Each slot is used by exactly one child: an even slot as the next child's input, an odd one as the previous child's output. */
  lemma EachSlotHasOneUser(n: int, k: int, i: int)
    requires 0 <= k < 2 * (n - 1) && 0 <= i < n
    ensures (i != 0 && ReadSlot(i) == k) <==> (k % 2 == 0 && i == k / 2 + 1)
    ensures (i != n - 1 && WriteSlot(i) == k) <==> (k % 2 == 1 && i == k / 2)
  {
  }

  predicate PipesCreated(pipes: nat -> Option<PipeEnds>, m: int)
  {
    forall j :: 0 <= j < m ==> pipes(j).Some?
  }

  /** The contents of the first `2m` slots once pipes `0 .. m - 1` are created. */
  function Ends(pipes: nat -> Option<PipeEnds>, m: nat): (s: seq<int>)
    requires PipesCreated(pipes, m)
    ensures |s| == 2 * m
    ensures forall j :: 0 <= j < m ==> s[2 * j] == pipes(j).value.read && s[2 * j + 1] == pipes(j).value.write
  {
    if m == 0 then [] else Ends(pipes, m - 1) + [pipes(m - 1).value.read, pipes(m - 1).value.write]
  }

  function StreamOf(fd: Option<int>): Stream {
    if fd.Some? then Descriptor(fd.value) else Inherited
  }

  /**
   * Child `i` of `n`: it reads the read end of pipe `i - 1` unless it is the
   * first, writes the write end of pipe `i` unless it is the last, closes
   * every pipe descriptor, and then applies its own redirections.
   */
  function ExpectedChild(commands: seq<seq<string>>, i: nat, fs: FileSystem, pipes: nat -> Option<PipeEnds>): Child
    requires i < |commands| && PipesCreated(pipes, |commands| - 1)
  {
    var n := |commands|;
    var stdin := if i > 0 then Some(pipes(i - 1).value.read) else None;
    var stdout := if i < n - 1 then Some(pipes(i).value.write) else None;
    Child(stdin, stdout, Ends(pipes, n - 1), PrepareChild(commands[i], fs, StreamOf(stdin), StreamOf(stdout)))
  }

  /** Consecutive children share one pipe: what one writes to is the other end of what the next reads. */
  lemma ConsecutiveChildrenShareAPipe(commands: seq<seq<string>>, i: nat, fs: FileSystem, pipes: nat -> Option<PipeEnds>)
    requires i + 1 < |commands| && PipesCreated(pipes, |commands| - 1)
    ensures ExpectedChild(commands, i, fs, pipes).stdout == Some(pipes(i).value.write)
    ensures ExpectedChild(commands, i + 1, fs, pipes).stdin == Some(pipes(i).value.read)
    ensures i == 0 <==> ExpectedChild(commands, i, fs, pipes).stdin.None?
    ensures i + 2 == |commands| <==> ExpectedChild(commands, i + 1, fs, pipes).stdout.None?
  {
  }

  /**
   * A child's own redirections are applied after its pipe wiring, so they
   * win: a started child reads the file of its last `<` and writes the file
   * of its last `>`, and otherwise the pipe ends it was wired to.
   */
  lemma RedirectionsOverridePipes(commands: seq<seq<string>>, i: nat, fs: FileSystem, pipes: nat -> Option<PipeEnds>)
    requires i < |commands| && PipesCreated(pipes, |commands| - 1)
    ensures var c := ExpectedChild(commands, i, fs, pipes);
      var r := Resolve(commands[i], fs, Inherit);
      c.run.Exec? ==>
        && c.run.argv == r.kept
        && (LastPath(r.redirects, "<").Some? ==> c.run.stdin == FileStream(LastPath(r.redirects, "<").value))
        && (LastPath(r.redirects, ">").Some? ==> c.run.stdout == FileStream(LastPath(r.redirects, ">").value))
        && (LastPath(r.redirects, "<").None? && i > 0 ==> c.run.stdin == Descriptor(pipes(i - 1).value.read))
        && (LastPath(r.redirects, ">").None? && i < |commands| - 1 ==> c.run.stdout == Descriptor(pipes(i).value.write))
        && (LastPath(r.redirects, "<").None? && i == 0 ==> c.run.stdin == Inherited)
        && (LastPath(r.redirects, ">").None? && i == |commands| - 1 ==> c.run.stdout == Inherited)
  {
  }

  /** The slots child `i` uses hold the ends of the pipes it is wired to. */
  lemma SlotContents(pipes: nat -> Option<PipeEnds>, n: int, i: int, fds: seq<int>)
    requires 0 <= i < n && PipesCreated(pipes, n - 1) && fds == Ends(pipes, n - 1)
    ensures i != 0 ==> 0 <= ReadSlot(i) < |fds| && fds[ReadSlot(i)] == pipes(i - 1).value.read
    ensures i != n - 1 ==> 0 <= WriteSlot(i) < |fds| && fds[WriteSlot(i)] == pipes(i).value.write
  {
    if i != 0 {
      assert ReadSlot(i) == 2 * (i - 1);
    }
  }

  /** The input slot of child `i` holds what the expected child reads. */
  lemma InputSlot(commands: seq<seq<string>>, i: nat, fs: FileSystem, pipes: nat -> Option<PipeEnds>, slots: seq<int>)
    requires i < |commands| && PipesCreated(pipes, |commands| - 1) && slots == Ends(pipes, |commands| - 1)
    ensures i != 0 ==> 0 <= ReadSlot(i) < |slots|
    ensures (if i != 0 then Some(slots[ReadSlot(i)]) else None) == ExpectedChild(commands, i, fs, pipes).stdin
  {
    SlotContents(pipes, |commands|, i, slots);
  }

  /** The output slot of child `i` holds what the expected child writes. */
  lemma OutputSlot(commands: seq<seq<string>>, i: nat, fs: FileSystem, pipes: nat -> Option<PipeEnds>, slots: seq<int>)
    requires i < |commands| && PipesCreated(pipes, |commands| - 1) && slots == Ends(pipes, |commands| - 1)
    ensures i != |commands| - 1 ==> 0 <= WriteSlot(i) < |slots|
    ensures (if i != |commands| - 1 then Some(slots[WriteSlot(i)]) else None) == ExpectedChild(commands, i, fs, pipes).stdout
  {
    SlotContents(pipes, |commands|, i, slots);
  }

  /** A child wired from the slots of a filled array is the expected child. */
  lemma BuiltChildIsExpected(commands: seq<seq<string>>, i: nat, fs: FileSystem, pipes: nat -> Option<PipeEnds>, slots: seq<int>)
    requires i < |commands| && PipesCreated(pipes, |commands| - 1) && slots == Ends(pipes, |commands| - 1)
    ensures i != 0 ==> 0 <= ReadSlot(i) < |slots|
    ensures i != |commands| - 1 ==> 0 <= WriteSlot(i) < |slots|
    ensures var stdin := if i != 0 then Some(slots[ReadSlot(i)]) else None;
      var stdout := if i != |commands| - 1 then Some(slots[WriteSlot(i)]) else None;
      Child(stdin, stdout, slots, PrepareChild(commands[i], fs, StreamOf(stdin), StreamOf(stdout)))
        == ExpectedChild(commands, i, fs, pipes)
  {
    InputSlot(commands, i, fs, pipes, slots);
    OutputSlot(commands, i, fs, pipes, slots);
    var e := ExpectedChild(commands, i, fs, pipes);
    assert e == Child(e.stdin, e.stdout, slots, PrepareChild(commands[i], fs, StreamOf(e.stdin), StreamOf(e.stdout)));
  }

  /** The parent's `close` loop over every slot. */
  method CloseAll(fds: array<int>) returns (closed: seq<int>)
    ensures closed == fds[..]
  {
    closed := [];
    for j := 0 to fds.Length
      invariant closed == fds[..j]
    {
      closed := closed + [fds[j]];
    }
  }

  /** The `pipe` loop: stops at the first failing call, leaving the earlier pipes open. */
  method CreatePipes(fds: array<int>, n: int, pipes: nat -> Option<PipeEnds>) returns (failed: Option<nat>)
    requires n >= 1 && fds.Length == 2 * (n - 1)
    modifies fds
    ensures failed.None? ==> PipesCreated(pipes, n - 1) && fds[..] == Ends(pipes, n - 1)
    ensures failed.Some? ==>
      && failed.value < n - 1 && PipesCreated(pipes, failed.value) && pipes(failed.value).None?
      && fds[..2 * failed.value] == Ends(pipes, failed.value)
  {
    for i := 0 to n - 1
      invariant PipesCreated(pipes, i)
      invariant fds[..2 * i] == Ends(pipes, i)
    {
      match pipes(i)
      case None =>
        return Some(i);
      case Some(ends) =>
        fds[i * 2], fds[i * 2 + 1] := ends.read, ends.write;
        assert fds[..2 * (i + 1)] == fds[..2 * i] + [ends.read, ends.write];
    }
    assert fds[..] == fds[..2 * (n - 1)];
    return None;
  }

  /**
   * The `fork` loop: each child `dup2`s the slots of its neighbours' pipes,
   * closes every slot and prepares its own segment; the loop stops at the
   * first failing `fork`, leaving the children already started running.
   */
  method ForkChildren(commands: seq<seq<string>>, fs: FileSystem, pipes: nat -> Option<PipeEnds>,
                      forkSucceeds: nat -> bool, fds: array<int>)
    returns (children: seq<Child>, failed: Option<nat>)
    requires |commands| >= 1 && PipesCreated(pipes, |commands| - 1) && fds[..] == Ends(pipes, |commands| - 1)
    ensures failed.Some? ==> failed.value < |commands| && !forkSucceeds(failed.value)
    ensures var started := if failed.Some? then failed.value else |commands|;
      && (forall i :: 0 <= i < started ==> forkSucceeds(i))
      && |children| == started
      && (forall i :: 0 <= i < started ==> children[i] == ExpectedChild(commands, i, fs, pipes))
  {
    var n := |commands|;
    var slots := fds[..];
    children := [];
    for i := 0 to n
      invariant forall k :: 0 <= k < i ==> forkSucceeds(k)
      invariant |children| == i
      invariant forall k :: 0 <= k < i ==> children[k] == ExpectedChild(commands, k, fs, pipes)
    {
      if !forkSucceeds(i) {
        return children, Some(i);
      }
      var stdin: Option<int> := None;
      if i != 0 {
        stdin := Some(fds[ReadSlot(i)]);
      }
      var stdout: Option<int> := None;
      if i != n - 1 {
        stdout := Some(fds[WriteSlot(i)]);
      }
      var run := PrepareChild(commands[i], fs, StreamOf(stdin), StreamOf(stdout));
      BuiltChildIsExpected(commands, i, fs, pipes, slots);
      children := children + [Child(stdin, stdout, slots, run)];
    }
    return children, None;
  }

  /**
   * What running a pipeline of `commands` amounts to: nothing for no
   * segments; on a `pipe` failure no child is started and the pipes made
   * so far stay open; on a `fork` failure the children started so far are
   * the expected ones and the parent closes every slot without waiting;
   * otherwise every child is the expected one, the parent closes every
   * slot and reaps `n` children.
   */
  ghost predicate Executed(commands: seq<seq<string>>, fs: FileSystem, pipes: nat -> Option<PipeEnds>,
                           forkSucceeds: nat -> bool, r: PipelineResult)
  {
    && (r.NoCommands? <==> |commands| == 0)
    && (r.PipeFailed? ==>
      && r.at < |commands| - 1 && PipesCreated(pipes, r.at) && pipes(r.at).None?
      && r.leftOpen == Ends(pipes, r.at))
    && ((r.ForkFailed? || r.Finished?) ==> PipesCreated(pipes, |commands| - 1))
    && (r.ForkFailed? ==>
      && r.at < |commands| && !forkSucceeds(r.at) && (forall i :: 0 <= i < r.at ==> forkSucceeds(i))
      && |r.children| == r.at
      && (forall i :: 0 <= i < r.at ==> r.children[i] == ExpectedChild(commands, i, fs, pipes))
      && r.closed == Ends(pipes, |commands| - 1))
    && (r.Finished? ==>
      && (forall i :: 0 <= i < |commands| ==> forkSucceeds(i))
      && |r.children| == |commands|
      && (forall i :: 0 <= i < |commands| ==> r.children[i] == ExpectedChild(commands, i, fs, pipes))
      && r.closed == Ends(pipes, |commands| - 1)
      && r.reaped == |commands|)
  }

  /** `executePipeline`, step by step over the `fds` array. */
  method ExecutePipeline(commands: seq<seq<string>>, fs: FileSystem,
                         pipes: nat -> Option<PipeEnds>, forkSucceeds: nat -> bool)
    returns (r: PipelineResult)
    ensures Executed(commands, fs, pipes, forkSucceeds, r)
  {
    var n := |commands|;
    if n == 0 {
      return NoCommands;
    }
    var fds := new int[2 * (n - 1)](_ => 0);
    var pipeFailed := CreatePipes(fds, n, pipes);
    if pipeFailed.Some? {
      return PipeFailed(pipeFailed.value, fds[..2 * pipeFailed.value]);
    }
    var children, forkFailed := ForkChildren(commands, fs, pipes, forkSucceeds, fds);
    var closed := CloseAll(fds);
    if forkFailed.Some? {
      return ForkFailed(forkFailed.value, children, closed);
    }
    // The `wait(NULL)` loop: which child each call reaps is not modelled, only that there are `n` calls.
    var reaped := 0;
    for i := 0 to n
      invariant reaped == i
    {
      reaped := reaped + 1;
    }
    return Finished(children, closed, reaped);
  }
}
