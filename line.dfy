/**
 * What the read loop of `main` does with one input line: trim space, tab and
 * newline; skip a blank line; split on `|` into trimmed, non-blank segments;
 * otherwise tokenise and consume a trailing `&` token as the background flag.
 */
module Line {
  import opened Wrappers
  import opened Tokens

  /** The characters `find_first_not_of(" \t\n")` and `find_last_not_of` skip. */
  predicate IsTrimChar(c: char) {
    c == ' ' || c == '\t' || c == '\n'
  }

  predicate AllTrim(s: string) {
    forall i :: 0 <= i < |s| ==> IsTrimChar(s[i])
  }

  /** `find_first_not_of(" \t\n")`, with `None` for `npos`. */
  function FirstNotTrim(s: string): (r: Option<nat>)
    ensures r.None? <==> AllTrim(s)
    ensures r.Some? ==> r.value < |s| && !IsTrimChar(s[r.value]) && AllTrim(s[..r.value])
  {
    if s == [] then None
    else if !IsTrimChar(s[0]) then Some(0)
    else match FirstNotTrim(s[1..])
      case None => None
      case Some(k) => assert s[..k + 1] == [s[0]] + s[1..][..k]; Some(k + 1)
  }

  /** `find_last_not_of(" \t\n")`, with `None` for `npos`. */
  function LastNotTrim(s: string): (r: Option<nat>)
    ensures r.None? <==> AllTrim(s)
    ensures r.Some? ==> r.value < |s| && !IsTrimChar(s[r.value]) && AllTrim(s[r.value + 1..])
  {
    if s == [] then None
    else if !IsTrimChar(s[|s| - 1]) then Some(|s| - 1)
    else match LastNotTrim(s[..|s| - 1])
      case None => None
      case Some(k) => assert s[k + 1..] == s[..|s| - 1][k + 1..] + [s[|s| - 1]]; Some(k)
  }

  /** The trimmed line, or `None` when the line is blank and the loop continues. */
  function Trim(s: string): (r: Option<string>)
    ensures r.None? <==> AllTrim(s)
    ensures r.Some? ==> |r.value| > 0 && !IsTrimChar(r.value[0]) && !IsTrimChar(r.value[|r.value| - 1])
  {
    match FirstNotTrim(s)
    case None => None
    case Some(first) =>
      var last := LastNotTrim(s).value;
      Some(s[first..last + 1])
  }

  /** The trimmed line is the line with trim characters, and only those, cut from both ends. */
  lemma TrimDecompose(s: string) returns (p: string, q: string)
    requires Trim(s).Some?
    ensures s == p + Trim(s).value + q
    ensures AllTrim(p) && AllTrim(q)
  {
    var first := FirstNotTrim(s).value;
    var last := LastNotTrim(s).value;
    p, q := s[..first], s[last + 1..];
    assert s == s[..first] + s[first..last + 1] + s[last + 1..];
  }

  /** Trimming never changes the tokens of a line. */
  lemma TrimKeepsTokens(s: string)
    requires Trim(s).Some?
    ensures Tokenize(Trim(s).value) == Tokenize(s)
  {
    var p, q := TrimDecompose(s);
    TokenizeIgnoresPadding(p, Trim(s).value, q);
  }

  /** Trimming never removes a `|`. */
  lemma TrimKeepsBars(s: string)
    requires Trim(s).Some?
    ensures ('|' in Trim(s).value) <==> ('|' in s)
  {
    var p, q := TrimDecompose(s);
    assert '|' !in p && '|' !in q;
  }

  function Count(s: string, c: char): nat
  {
    if s == [] then 0 else (if s[0] == c then 1 else 0) + Count(s[1..], c)
  }

  lemma {:induction false} CountConcat(x: string, y: string, c: char)
    ensures Count(x + y, c) == Count(x, c) + Count(y, c)
  {
    if x == [] {
      assert x + y == y;
    } else {
      assert (x + y)[1..] == x[1..] + y;
      CountConcat(x[1..], y, c);
    }
  }

  lemma {:induction false} CountAbsent(s: string, c: char)
    requires c !in s
    ensures Count(s, c) == 0
  {
    if s != [] {
      CountAbsent(s[1..], c);
    }
  }

  function IndexOf(s: string, c: char): (r: Option<nat>)
    ensures r.None? <==> c !in s
    ensures r.Some? ==> r.value < |s| && s[r.value] == c && c !in s[..r.value]
  {
    if s == [] then None
    else if s[0] == c then Some(0)
    else match IndexOf(s[1..], c)
      case None => None
      case Some(k) => assert s[..k + 1] == [s[0]] + s[1..][..k]; Some(k + 1)
  }

  /**
   * The pieces `while (getline(ss, segment, '|'))` yields: the text between
   * bars, except that a final empty piece (after a trailing bar, or of an
   * empty line) is never produced.
   */
  function Pieces(s: string): (r: seq<string>)
    ensures forall i :: 0 <= i < |r| ==> '|' !in r[i]
    ensures |r| <= Count(s, '|') + 1
    decreases |s|
  {
    if s == [] then []
    else match IndexOf(s, '|')
      case None => CountAbsent(s, '|'); [s]
      case Some(k) =>
        assert s == s[..k] + ([s[k]] + s[k + 1..]);
        CountConcat(s[..k], [s[k]] + s[k + 1..], '|');
        CountAbsent(s[..k], '|');
        [s[..k]] + Pieces(s[k + 1..])
  }

  function JoinBars(ps: seq<string>): string
  {
    if ps == [] then "" else if |ps| == 1 then ps[0] else ps[0] + "|" + JoinBars(ps[1..])
  }

  lemma JoinBarsCons(x: string, ps: seq<string>)
    requires ps != []
    ensures JoinBars([x] + ps) == x + "|" + JoinBars(ps)
  {
    assert ([x] + ps)[1..] == ps;
  }

  lemma SplitAtBar(s: string, k: nat)
    requires k < |s| && s[k] == '|'
    ensures s == s[..k] + "|" + s[k + 1..]
    ensures s[k + 1..] != [] ==> s[|s| - 1] == s[k + 1..][|s[k + 1..]| - 1]
  {
  }

  lemma RejoinStep(s: string, a: string, j: string, x: string, t: string)
    requires s == a + "|" + t && j + x == t
    ensures a + "|" + j + x == s
  {
  }

  /** Rejoining the pieces with `|` gives back the line, less a trailing bar. */
  lemma {:induction false} PiecesRejoin(s: string)
    ensures JoinBars(Pieces(s)) + (if s != [] && s[|s| - 1] == '|' then "|" else "") == s
    decreases |s|
  {
    if s == [] {
    } else if IndexOf(s, '|').None? {
      assert Pieces(s) == [s];
      assert s[|s| - 1] in s;
    } else {
      var k := IndexOf(s, '|').value;
      var t := s[k + 1..];
      var ps := Pieces(t);
      assert Pieces(s) == [s[..k]] + ps;
      SplitAtBar(s, k);
      PiecesRejoin(t);
      if t == [] {
        assert ps == [];
        assert JoinBars(Pieces(s)) == s[..k];
      } else {
        assert ps != [];
        JoinBarsCons(s[..k], ps);
        RejoinStep(s, s[..k], JoinBars(ps), if t[|t| - 1] == '|' then "|" else "", t);
      }
    }
  }

  /** The trimmed, non-blank pieces: blank ones are skipped by the `continue`. */
  function Segments(ps: seq<string>): (r: seq<string>)
    ensures |r| <= |ps|
    ensures forall i :: 0 <= i < |r| ==> Trim(r[i]) == Some(r[i])
  {
    if ps == [] then []
    else match Trim(ps[0])
      case None => Segments(ps[1..])
      case Some(seg) =>
        TrimFixed(seg);
        [seg] + Segments(ps[1..])
  }

  lemma TrimFixed(t: string)
    requires |t| > 0 && !IsTrimChar(t[0]) && !IsTrimChar(t[|t| - 1])
    ensures Trim(t) == Some(t)
  {
    assert t[0..|t| - 1 + 1] == t;
  }

  /** The segments of a pipeline line, each tokenised as `parseInput(seg)` does. */
  function PipelineCommands(line: string): (r: seq<seq<string>>)
    ensures |r| <= Count(line, '|') + 1
  {
    var segs := Segments(Pieces(line));
    seq(|segs|, i requires 0 <= i < |segs| => Tokenize(segs[i]))
  }

  /** What `main` does with one line it has read. */
  datatype LineAction =
    | Blank
    | RunPipeline(commands: seq<seq<string>>)
    | RunCommand(args: seq<string>, background: bool)

  function ClassifyLine(raw: string): LineAction
  {
    match Trim(raw)
    case None => Blank
    case Some(line) =>
      if '|' in line then RunPipeline(PipelineCommands(line))
      else
        var args := Tokenize(line);
        if |args| > 0 && args[|args| - 1] == "&" then RunCommand(args[..|args| - 1], true)
        else RunCommand(args, false)
  }

  /** Trimming keeps every `|` of the line. */
  lemma TrimKeepsCount(raw: string)
    requires Trim(raw).Some?
    ensures Count(Trim(raw).value, '|') == Count(raw, '|')
  {
    var line := Trim(raw).value;
    var p, q := TrimDecompose(raw);
    CountConcat(p + line, q, '|');
    CountConcat(p, line, '|');
    assert '|' !in p && '|' !in q;
    CountAbsent(p, '|');
    CountAbsent(q, '|');
  }

  /** A line is skipped exactly when it holds nothing but space, tab and newline. */
  lemma ClassifyBlank(raw: string)
    ensures ClassifyLine(raw).Blank? <==> AllTrim(raw)
  {
  }

  /** Any `|` in a non-blank line selects the pipeline path, with at most one segment more than bars. */
  lemma ClassifyPipeline(raw: string)
    ensures ClassifyLine(raw).RunPipeline? <==> !AllTrim(raw) && '|' in raw
    ensures ClassifyLine(raw).RunPipeline? ==> |ClassifyLine(raw).commands| <= Count(raw, '|') + 1
  {
    if Trim(raw).Some? {
      TrimKeepsBars(raw);
      TrimKeepsCount(raw);
    }
  }

  lemma SplitLast(ts: seq<string>)
    requires |ts| > 0
    ensures ts == ts[..|ts| - 1] + [ts[|ts| - 1]]
  {
  }

  /** Otherwise the line's tokens are run, a trailing `&` token becoming the background flag. */
  lemma ClassifyCommand(raw: string)
    requires ClassifyLine(raw).RunCommand?
    ensures '|' !in raw
    ensures ClassifyLine(raw).background <==> |Tokenize(raw)| > 0 && Tokenize(raw)[|Tokenize(raw)| - 1] == "&"
    ensures Tokenize(raw) == ClassifyLine(raw).args + (if ClassifyLine(raw).background then ["&"] else [])
  {
    TrimKeepsBars(raw);
    TrimKeepsTokens(raw);
    var ts := Tokenize(Trim(raw).value);
    if |ts| > 0 {
      SplitLast(ts);
    }
  }

  /** The pieces that are not blank, untrimmed. */
  function NonBlank(ps: seq<string>): (r: seq<string>)
    ensures forall i :: 0 <= i < |r| ==> !AllTrim(r[i])
  {
    if ps == [] then []
    else if AllTrim(ps[0]) then NonBlank(ps[1..])
    else [ps[0]] + NonBlank(ps[1..])
  }

  /**
   * Trimming a segment is invisible in its tokens: the pipeline's commands
   * are exactly the tokens of the non-blank pieces, in order.
   */
  lemma {:induction false} SegmentsTokens(ps: seq<string>)
    ensures |Segments(ps)| == |NonBlank(ps)|
    ensures forall i :: 0 <= i < |Segments(ps)| ==> Tokenize(Segments(ps)[i]) == Tokenize(NonBlank(ps)[i])
  {
    if ps != [] {
      SegmentsTokens(ps[1..]);
      if Trim(ps[0]).Some? {
        TrimKeepsTokens(ps[0]);
      }
    }
  }
}
