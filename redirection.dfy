/**
 * `handleRedirection`: scans a command's tokens left to right, erasing each
 * `<` or `>` together with the filename after it and rebinding standard
 * input or output to that file; it stops at the first operator with no
 * filename or whose file cannot be opened.
 */
module Redirection {
  import opened Wrappers

  predicate IsOperator(t: string) {
    t == "<" || t == ">"
  }

  /** What `open` would do: `O_RDONLY` succeeds on `readable`, `O_WRONLY|O_CREAT|O_TRUNC` on `writable`. */
  datatype FileSystem = FileSystem(readable: set<string>, writable: set<string>)

  predicate CanOpen(fs: FileSystem, op: string, path: string) {
    if op == ">" then path in fs.writable else path in fs.readable
  }

  /** The files standard input and output are bound to; `None` means inherited. */
  datatype Bindings = Bindings(stdin: Option<string>, stdout: Option<string>)

  const Inherit := Bindings(None, None)

  /** The `dup2` onto standard input (`<`) or standard output (`>`): it replaces any earlier binding. */
  function Bind(b: Bindings, op: string, path: string): Bindings {
    if op == ">" then b.(stdout := Some(path)) else b.(stdin := Some(path))
  }

  datatype Redirect = Redirect(op: string, path: string)

  datatype Status =
    | Applied
    | MissingFilename(op: string)
    | OpenFailed(op: string, path: string)

  /**
   * The outcome of the scan: the tokens kept before the stop, the tokens left
   * untouched from the stop on (empty when every token was scanned), the
   * bindings in force, and the redirections opened, in order.
   */
  datatype Resolution = Resolution(kept: seq<string>, pending: seq<string>, bindings: Bindings,
                                   redirects: seq<Redirect>, status: Status)
  {
    function Tokens(): seq<string> { kept + pending }
  }

  /** The scan from bindings `b`, one token at a time. */
  function Resolve(args: seq<string>, fs: FileSystem, b: Bindings): Resolution
    decreases |args|
  {
    if args == [] then Resolution([], [], b, [], Applied)
    else if !IsOperator(args[0]) then
      var r := Resolve(args[1..], fs, b);
      r.(kept := [args[0]] + r.kept)
    else if |args| < 2 then Resolution([], args, b, [], MissingFilename(args[0]))
    else if !CanOpen(fs, args[0], args[1]) then Resolution([], args, b, [], OpenFailed(args[0], args[1]))
    else
      var r := Resolve(args[2..], fs, Bind(b, args[0], args[1]));
      r.(redirects := [Redirect(args[0], args[1])] + r.redirects)
  }

  /** `t` is `s` with some elements left out, the rest in their order. */
  predicate IsSubsequence(t: seq<string>, s: seq<string>)
    decreases |s|
  {
    if s == [] then t == []
    else (t != [] && t[0] == s[0] && IsSubsequence(t[1..], s[1..])) || IsSubsequence(t, s[1..])
  }

  lemma {:induction false} EmptySubsequence(s: seq<string>)
    ensures IsSubsequence([], s)
    decreases |s|
  {
    if s != [] {
      EmptySubsequence(s[1..]);
    }
  }

  /**
   * Whatever the outcome, no operator is kept before the stop and the kept
   * tokens keep their relative order.
   */
  lemma {:induction false} ResolveKeeps(args: seq<string>, fs: FileSystem, b: Bindings)
    ensures forall i :: 0 <= i < |Resolve(args, fs, b).kept| ==> !IsOperator(Resolve(args, fs, b).kept[i])
    ensures IsSubsequence(Resolve(args, fs, b).kept, args)
    decreases |args|
  {
    if args == [] {
    } else if !IsOperator(args[0]) {
      ResolveKeeps(args[1..], fs, b);
      var r := Resolve(args[1..], fs, b);
      assert ([args[0]] + r.kept)[1..] == r.kept;
    } else if |args| < 2 || !CanOpen(fs, args[0], args[1]) {
      EmptySubsequence(args);
    } else {
      ResolveKeeps(args[2..], fs, Bind(b, args[0], args[1]));
      assert args[2..] == args[1..][1..];
    }
  }

  /**
   * Every input token is accounted for (kept, one of an opened operator and
   * filename pair, or pending), the untouched tail is a suffix of the input,
   * and it is empty exactly when the scan applied.
   */
  lemma {:induction false} ResolveShape(args: seq<string>, fs: FileSystem, b: Bindings)
    ensures var r := Resolve(args, fs, b);
      && |r.kept| + 2 * |r.redirects| + |r.pending| == |args|
      && r.pending == args[|args| - |r.pending|..]
      && (r.status.Applied? <==> r.pending == [])
    decreases |args|
  {
    if args == [] {
    } else if !IsOperator(args[0]) {
      ResolveShape(args[1..], fs, b);
      var r := Resolve(args[1..], fs, b);
      assert args[1..][|args[1..]| - |r.pending|..] == args[|args| - |r.pending|..];
    } else if |args| < 2 || !CanOpen(fs, args[0], args[1]) {
    } else {
      ResolveShape(args[2..], fs, Bind(b, args[0], args[1]));
      var r := Resolve(args[2..], fs, Bind(b, args[0], args[1]));
      assert args[2..][|args[2..]| - |r.pending|..] == args[|args| - |r.pending|..];
    }
  }

  /**
   * On an error the scan stops at an operator that is the last token or whose
   * file cannot be opened; that operator and everything after it stay.
   */
  lemma {:induction false} ResolveStops(args: seq<string>, fs: FileSystem, b: Bindings)
    requires !Resolve(args, fs, b).status.Applied?
    ensures var r := Resolve(args, fs, b);
      var k := |args| - |r.pending|;
      && 0 <= k < |args| && args[k..] == r.pending
      && IsOperator(args[k])
      && (r.status.MissingFilename? <==> k == |args| - 1)
      && (r.status.MissingFilename? ==> r.status.op == args[k])
      && (r.status.OpenFailed? ==> r.status == OpenFailed(args[k], args[k + 1]) && !CanOpen(fs, args[k], args[k + 1]))
    decreases |args|
  {
    ResolveShape(args, fs, b);
    if !IsOperator(args[0]) {
      ResolveStops(args[1..], fs, b);
    } else if |args| < 2 || !CanOpen(fs, args[0], args[1]) {
    } else {
      ResolveStops(args[2..], fs, Bind(b, args[0], args[1]));
    }
  }

  /**
   * On an error, what was applied is exactly the scan of the tokens before
   * the failing operator: the redirections processed before it stay in force.
   */
  lemma {:induction false} ResolveStopsAfterPrefix(args: seq<string>, fs: FileSystem, b: Bindings)
    requires !Resolve(args, fs, b).status.Applied?
    ensures var r := Resolve(args, fs, b);
      var k := |args| - |r.pending|;
      0 <= k <= |args| && Resolve(args[..k], fs, b) == r.(pending := [], status := Applied)
    decreases |args|
  {
    ResolveShape(args, fs, b);
    var r := Resolve(args, fs, b);
    var k := |args| - |r.pending|;
    if !IsOperator(args[0]) {
      var r' := Resolve(args[1..], fs, b);
      ResolveStopsAfterPrefix(args[1..], fs, b);
      assert r == r'.(kept := [args[0]] + r'.kept);
      assert args[..k][1..] == args[1..][..k - 1];
    } else if |args| < 2 || !CanOpen(fs, args[0], args[1]) {
      assert k == 0;
    } else {
      var b' := Bind(b, args[0], args[1]);
      var r' := Resolve(args[2..], fs, b');
      ResolveStopsAfterPrefix(args[2..], fs, b');
      assert r == r'.(redirects := [Redirect(args[0], args[1])] + r'.redirects);
      ResolveShape(args[2..], fs, b');
      assert k >= 2;
      assert args[..k][2..] == args[2..][..k - 2];
      assert args[..k][0] == args[0] && args[..k][1] == args[1];
    }
  }

  /**
   * Scanning two pieces one after the other: when the first applies
   * completely, the second continues from its bindings, so a later
   * redirection of the same stream overrides an earlier one.
   */
  lemma {:induction false} ResolveAppend(xs: seq<string>, ys: seq<string>, fs: FileSystem, b: Bindings)
    requires Resolve(xs, fs, b).status.Applied?
    ensures AppendsTo(xs, ys, fs, b)
    decreases |xs|
  {
    var zs := xs + ys;
    if xs == [] {
      assert zs == ys;
    } else if !IsOperator(xs[0]) {
      ResolveAppend(xs[1..], ys, fs, b);
      AppendKeep(xs, ys, fs, b);
    } else {
      ResolveAppend(xs[2..], ys, fs, Bind(b, xs[0], xs[1]));
      AppendRedirect(xs, ys, fs, b);
    }
  }

  ghost predicate AppendsTo(xs: seq<string>, ys: seq<string>, fs: FileSystem, b: Bindings)
  {
    var r1 := Resolve(xs, fs, b);
    var r2 := Resolve(ys, fs, r1.bindings);
    var r := Resolve(xs + ys, fs, b);
    && r.kept == r1.kept + r2.kept && r.redirects == r1.redirects + r2.redirects
    && r.pending == r2.pending && r.bindings == r2.bindings && r.status == r2.status
  }

  lemma AppendKeep(xs: seq<string>, ys: seq<string>, fs: FileSystem, b: Bindings)
    requires xs != [] && !IsOperator(xs[0])
    requires AppendsTo(xs[1..], ys, fs, b)
    ensures AppendsTo(xs, ys, fs, b)
  {
    var zs := xs + ys;
    assert zs[0] == xs[0] && zs[1..] == xs[1..] + ys;
    var r1 := Resolve(xs[1..], fs, b);
    var r2 := Resolve(ys, fs, r1.bindings);
    assert [xs[0]] + (r1.kept + r2.kept) == ([xs[0]] + r1.kept) + r2.kept;
  }

  lemma AppendRedirect(xs: seq<string>, ys: seq<string>, fs: FileSystem, b: Bindings)
    requires |xs| >= 2 && IsOperator(xs[0]) && CanOpen(fs, xs[0], xs[1])
    requires AppendsTo(xs[2..], ys, fs, Bind(b, xs[0], xs[1]))
    ensures AppendsTo(xs, ys, fs, b)
  {
    var zs := xs + ys;
    assert zs[0] == xs[0] && zs[1] == xs[1] && zs[2..] == xs[2..] + ys;
    var r1 := Resolve(xs[2..], fs, Bind(b, xs[0], xs[1]));
    var r2 := Resolve(ys, fs, r1.bindings);
    var x := Redirect(xs[0], xs[1]);
    assert [x] + (r1.redirects + r2.redirects) == ([x] + r1.redirects) + r2.redirects;
  }

  /** A piece of the input as the scan reads it: a kept word, or an opened operator with its filename. */
  datatype Chunk = Word(token: string) | Opened(op: string, path: string)

  predicate ChunkOk(fs: FileSystem, c: Chunk) {
    match c
    case Word(t) => !IsOperator(t)
    case Opened(op, path) => IsOperator(op) && CanOpen(fs, op, path)
  }

  /** The tokens the chunks were read from, in order. */
  function Flatten(cs: seq<Chunk>): seq<string>
    decreases |cs|
  {
    if cs == [] then []
    else (match cs[0] case Word(t) => [t] case Opened(op, path) => [op, path]) + Flatten(cs[1..])
  }

  /** The words among the chunks, in order. */
  function Words(cs: seq<Chunk>): seq<string>
    decreases |cs|
  {
    if cs == [] then [] else (if cs[0].Word? then [cs[0].token] else []) + Words(cs[1..])
  }

  /** The redirections among the chunks, in order. */
  function Opens(cs: seq<Chunk>): seq<Redirect>
    decreases |cs|
  {
    if cs == [] then [] else (if cs[0].Opened? then [Redirect(cs[0].op, cs[0].path)] else []) + Opens(cs[1..])
  }

  /** The chunks of one scan are well formed and read exactly the tokens they cover. */
  ghost predicate ReadAs(args: seq<string>, fs: FileSystem, r: Resolution, cs: seq<Chunk>) {
    && (forall i :: 0 <= i < |cs| ==> ChunkOk(fs, cs[i]))
    && Flatten(cs) + r.pending == args
    && Words(cs) == r.kept
    && Opens(cs) == r.redirects
  }

  lemma ReadAsWord(args: seq<string>, fs: FileSystem, b: Bindings, cs: seq<Chunk>)
    requires args != [] && !IsOperator(args[0])
    requires ReadAs(args[1..], fs, Resolve(args[1..], fs, b), cs)
    ensures ReadAs(args, fs, Resolve(args, fs, b), [Word(args[0])] + cs)
  {
    var cs' := [Word(args[0])] + cs;
    assert cs'[1..] == cs && cs'[0] == Word(args[0]);
    assert args == [args[0]] + args[1..];
  }

  lemma ReadAsOpened(args: seq<string>, fs: FileSystem, b: Bindings, cs: seq<Chunk>)
    requires |args| >= 2 && IsOperator(args[0]) && CanOpen(fs, args[0], args[1])
    requires ReadAs(args[2..], fs, Resolve(args[2..], fs, Bind(b, args[0], args[1])), cs)
    ensures ReadAs(args, fs, Resolve(args, fs, b), [Opened(args[0], args[1])] + cs)
  {
    var cs' := [Opened(args[0], args[1])] + cs;
    assert cs'[1..] == cs && cs'[0] == Opened(args[0], args[1]);
    assert args == [args[0], args[1]] + args[2..];
  }

  /** The scan stopping at once reads no chunk. */
  lemma ReadAsStop(args: seq<string>, fs: FileSystem, b: Bindings)
    requires args == [] || (IsOperator(args[0]) && (|args| < 2 || !CanOpen(fs, args[0], args[1])))
    ensures ReadAs(args, fs, Resolve(args, fs, b), [])
  {
    assert Flatten([]) + args == args;
  }

  /** The chunks the scan of `args` reads, built alongside it. */
  lemma {:induction false} ScanChunks(args: seq<string>, fs: FileSystem, b: Bindings) returns (cs: seq<Chunk>)
    ensures ReadAs(args, fs, Resolve(args, fs, b), cs)
    decreases |args|
  {
    if args == [] || (IsOperator(args[0]) && (|args| < 2 || !CanOpen(fs, args[0], args[1]))) {
      ReadAsStop(args, fs, b);
      cs := [];
    } else if !IsOperator(args[0]) {
      var rest := ScanChunks(args[1..], fs, b);
      ReadAsWord(args, fs, b, rest);
      cs := [Word(args[0])] + rest;
    } else {
      var rest := ScanChunks(args[2..], fs, Bind(b, args[0], args[1]));
      ReadAsOpened(args, fs, b, rest);
      cs := [Opened(args[0], args[1])] + rest;
    }
  }

  /**
   * What the scan removes: the input up to the stop is a sequence of single
   * non-operator words and of operator-filename pairs whose file opened.
   * The words, in order, are the kept tokens; the pairs, in order, are the
   * redirections applied, each with the token right after its operator as
   * its path.
   */
  lemma ResolveRemovesPairs(args: seq<string>, fs: FileSystem, b: Bindings)
    ensures exists cs :: ReadAs(args, fs, Resolve(args, fs, b), cs)
  {
    var cs := ScanChunks(args, fs, b);
  }

  /**
   * On success the whole input is read that way: the vector left is exactly
   * the input with every operator, and the filename after it, removed.
   */
  lemma ResolveAppliedRemovesPairs(args: seq<string>, fs: FileSystem, b: Bindings)
    requires Resolve(args, fs, b).status.Applied?
    ensures exists cs :: ReadAs(args, fs, Resolve(args, fs, b), cs) && Flatten(cs) == args
  {
    var cs := ScanChunks(args, fs, b);
    ResolveShape(args, fs, b);
    assert Flatten(cs) + [] == Flatten(cs);
  }

  /** The path of the last opened redirection of `op`, if any. */
  function LastPath(redirects: seq<Redirect>, op: string): Option<string>
  {
    if redirects == [] then None
    else if redirects[|redirects| - 1].op == op then Some(redirects[|redirects| - 1].path)
    else LastPath(redirects[..|redirects| - 1], op)
  }

  lemma {:induction false} LastPathCons(x: Redirect, rest: seq<Redirect>, op: string)
    ensures LastPath([x] + rest, op) == if LastPath(rest, op).Some? then LastPath(rest, op)
                                        else if x.op == op then Some(x.path) else None
    decreases |rest|
  {
    var s := [x] + rest;
    if rest != [] {
      assert s[..|s| - 1] == [x] + rest[..|rest| - 1];
      assert s[|s| - 1] == rest[|rest| - 1];
      LastPathCons(x, rest[..|rest| - 1], op);
    } else {
      assert s[..|s| - 1] == [];
    }
  }

  /** Each stream ends up bound to the last redirection of it that was opened, or stays as it was. */
  lemma {:induction false} LastRedirectionWins(args: seq<string>, fs: FileSystem, b: Bindings)
    ensures var r := Resolve(args, fs, b);
      && r.bindings.stdout == (if LastPath(r.redirects, ">").Some? then LastPath(r.redirects, ">") else b.stdout)
      && r.bindings.stdin == (if LastPath(r.redirects, "<").Some? then LastPath(r.redirects, "<") else b.stdin)
      && (forall i :: 0 <= i < |r.redirects| ==> IsOperator(r.redirects[i].op))
    decreases |args|
  {
    if args == [] {
    } else if !IsOperator(args[0]) {
      LastRedirectionWins(args[1..], fs, b);
    } else if |args| < 2 || !CanOpen(fs, args[0], args[1]) {
    } else {
      var b' := Bind(b, args[0], args[1]);
      LastRedirectionWins(args[2..], fs, b');
      var r := Resolve(args[2..], fs, b');
      LastPathCons(Redirect(args[0], args[1]), r.redirects, ">");
      LastPathCons(Redirect(args[0], args[1]), r.redirects, "<");
    }
  }

  /**
   * The loop invariant of `HandleRedirection`: the scan of the input is the
   * scan of what is left of the vector from position `i`, preceded by the
   * tokens kept so far and the redirections already applied.
   */
  ghost predicate ScanState(args: seq<string>, fs: FileSystem, a: seq<string>, i: nat,
                            b: Bindings, redirects: seq<Redirect>)
  {
    && i <= |a|
    && var r := Resolve(a[i..], fs, b);
       Resolve(args, fs, Inherit) == r.(kept := a[..i] + r.kept, redirects := redirects + r.redirects)
  }

  lemma KeepStep(args: seq<string>, fs: FileSystem, a: seq<string>, i: nat, b: Bindings, redirects: seq<Redirect>)
    requires ScanState(args, fs, a, i, b, redirects)
    requires i < |a| && !IsOperator(a[i])
    ensures ScanState(args, fs, a, i + 1, b, redirects)
  {
    assert a[i..][1..] == a[i + 1..];
    assert a[..i + 1] == a[..i] + [a[i]];
    var r := Resolve(a[i + 1..], fs, b);
    assert a[..i] + ([a[i]] + r.kept) == a[..i + 1] + r.kept;
  }

  lemma EraseStep(args: seq<string>, fs: FileSystem, a: seq<string>, i: nat, b: Bindings, redirects: seq<Redirect>)
    requires ScanState(args, fs, a, i, b, redirects)
    requires i + 1 < |a| && IsOperator(a[i]) && CanOpen(fs, a[i], a[i + 1])
    ensures ScanState(args, fs, a[..i] + a[i + 2..], i, Bind(b, a[i], a[i + 1]), redirects + [Redirect(a[i], a[i + 1])])
  {
    var a' := a[..i] + a[i + 2..];
    assert a[i..][2..] == a[i + 2..] == a'[i..];
    assert a'[..i] == a[..i];
    var x := Redirect(a[i], a[i + 1]);
    var r := Resolve(a[i + 2..], fs, Bind(b, a[i], a[i + 1]));
    assert redirects + ([x] + r.redirects) == (redirects + [x]) + r.redirects;
  }

  lemma StopStep(args: seq<string>, fs: FileSystem, a: seq<string>, i: nat, b: Bindings, redirects: seq<Redirect>)
    requires ScanState(args, fs, a, i, b, redirects)
    requires i < |a| && IsOperator(a[i]) && (i + 1 >= |a| || !CanOpen(fs, a[i], a[i + 1]))
    ensures var r := Resolve(args, fs, Inherit);
      && a == r.Tokens() && b == r.bindings && redirects == r.redirects
      && r.status == if i + 1 >= |a| then MissingFilename(a[i]) else OpenFailed(a[i], a[i + 1])
  {
    assert a[i..][0] == a[i];
    if i + 1 < |a| {
      assert a[i..][1] == a[i + 1];
    }
    assert a[..i] + a[i..] == a;
    var r := Resolve(args, fs, Inherit);
    assert r.kept == a[..i] && r.pending == a[i..];
  }

  /**
   * `handleRedirection` as the source writes it: erase in place from the token
   * vector and step the index back, so the same position is examined again.
   * The returned tokens are those left in the vector.
   */
  method HandleRedirection(args: seq<string>, fs: FileSystem)
    returns (tokens: seq<string>, bindings: Bindings, redirects: seq<Redirect>, status: Status)
    ensures var r := Resolve(args, fs, Inherit);
      tokens == r.Tokens() && bindings == r.bindings && redirects == r.redirects && status == r.status
  {
    var a := args;
    bindings, redirects := Inherit, [];
    var i: int := 0;
    assert a[i..] == args;
    while i < |a|
      invariant 0 <= i <= |a|
      invariant ScanState(args, fs, a, i, bindings, redirects)
      decreases |a| - i
    {
      if a[i] == ">" || a[i] == "<" {
        var op := a[i];
        if i + 1 >= |a| {
          StopStep(args, fs, a, i, bindings, redirects);
          return a, bindings, redirects, MissingFilename(op);
        }
        if !CanOpen(fs, op, a[i + 1]) {
          StopStep(args, fs, a, i, bindings, redirects);
          return a, bindings, redirects, OpenFailed(op, a[i + 1]);
        }
        EraseStep(args, fs, a, i, bindings, redirects);
        bindings, redirects := Bind(bindings, op, a[i + 1]), redirects + [Redirect(op, a[i + 1])];
        a := a[..i] + a[i + 2..];
        i := i - 1;
      } else {
        KeepStep(args, fs, a, i, bindings, redirects);
      }
      i := i + 1;
    }
    tokens, status := a, Applied;
    assert a[..i] == a;
  }
}
