/**
 * Whitespace tokenisation of a command line (`parseInput`) and the re-joining
 * of tokens into a command line with single spaces (`executeCommand`).
 */
module Tokens {

  /** The characters `operator>>` on a string stream skips: `isspace` in the "C" locale. */
  predicate IsSpace(c: char) {
    c == ' ' || c == '\t' || c == '\n' || c == '\U{B}' || c == '\U{C}' || c == '\r'
  }

  predicate AllSpace(s: string) {
    forall i :: 0 <= i < |s| ==> IsSpace(s[i])
  }

  /** A token as `operator>>` produces it: non-empty and free of whitespace. */
  predicate IsWord(t: string) {
    |t| > 0 && forall i :: 0 <= i < |t| ==> !IsSpace(t[i])
  }

  predicate AllWords(ts: seq<string>) {
    forall i :: 0 <= i < |ts| ==> IsWord(ts[i])
  }

  /** Length of the longest prefix of `s` whose characters are whitespace exactly when `space` holds. */
  function Run(s: string, space: bool): (k: nat)
    ensures k <= |s|
    ensures forall i :: 0 <= i < k ==> IsSpace(s[i]) == space
    ensures k < |s| ==> IsSpace(s[k]) != space
  {
    if s == [] || IsSpace(s[0]) != space then 0 else 1 + Run(s[1..], space)
  }

  lemma {:induction false} RunConcat(x: string, y: string, space: bool)
    ensures Run(x + y, space) == if Run(x, space) < |x| then Run(x, space) else |x| + Run(y, space)
    decreases |x|
  {
    if x == [] {
      assert x + y == y;
    } else if IsSpace(x[0]) != space {
    } else {
      assert (x + y)[1..] == x[1..] + y;
      RunConcat(x[1..], y, space);
    }
  }

  /** The tokens `while (iss >> tok)` reads from `s`: maximal runs of non-whitespace, in order. */
  function Tokenize(s: string): (r: seq<string>)
    ensures AllWords(r)
    decreases |s|
  {
    var a := Run(s, true);
    if a == |s| then []
    else
      var rest := s[a..];
      var w := Run(rest, false);
      [rest[..w]] + Tokenize(rest[w..])
  }

  /** The command line `executeCommand` builds: the tokens separated by single spaces. */
  function Join(ts: seq<string>): string
  {
    if ts == [] then "" else if |ts| == 1 then ts[0] else ts[0] + " " + Join(ts[1..])
  }

  /** The tokens of a line are those of what follows its `k` leading whitespace characters. */
  lemma TokenizeAfterSpaces(u: string, k: nat)
    requires k == Run(u, true)
    ensures k < |u| ==> Tokenize(u) == Tokenize(u[k..])
    ensures k == |u| ==> Tokenize(u) == []
  {
    if k < |u| {
      var v := u[k..];
      assert Run(v, true) == 0;
      assert v[0..] == v;
    }
  }

  /** Leading whitespace does not change the tokens. */
  lemma TokenizeSpacePrefix(p: string, s: string)
    requires AllSpace(p)
    ensures Tokenize(p + s) == Tokenize(s)
  {
    assert Run(p, true) == |p|;
    RunConcat(p, s, true);
    var ps := p + s;
    var a := Run(s, true);
    var k := |p| + a;
    TokenizeAfterSpaces(ps, k);
    TokenizeAfterSpaces(s, a);
    if a < |s| {
      assert ps[k..] == s[a..];
      calc {
        Tokenize(ps);
        Tokenize(ps[k..]);
        Tokenize(s[a..]);
        Tokenize(s);
      }
    }
  }

  /** Whitespace on both ends does not change the tokens. */
  lemma TokenizeIgnoresPadding(p: string, s: string, q: string)
    requires AllSpace(p) && AllSpace(q)
    ensures Tokenize(p + s + q) == Tokenize(s)
  {
    TokenizeSpacePrefix(p, s + q);
    assert p + s + q == p + (s + q);
    TokenizeSpaceSuffix(s, q);
  }

  /** A word followed by whitespace (or by nothing) is read as one token. */
  lemma WordThenRest(t: string, tail: string)
    requires IsWord(t)
    requires tail == [] || IsSpace(tail[0])
    ensures Tokenize(t + tail) == [t] + Tokenize(tail)
  {
    var s := t + tail;
    assert Run(t, false) == |t|;
    RunConcat(t, tail, true);
    assert Run(s, true) == 0;
    RunConcat(t, tail, false);
    assert Run(s, false) == |t|;
    assert s[0..] == s;
    assert s[..|t|] == t;
    assert s[|t|..] == tail;
  }

  /** A line holding nothing but whitespace has no tokens. */
  lemma TokenizeAllSpace(s: string)
    requires AllSpace(s)
    ensures Tokenize(s) == []
  {
    TokenizeSpacePrefix(s, "");
    assert s + "" == s;
  }

  /** A single word is read as that one token. */
  lemma TokenizeWord(t: string)
    requires IsWord(t)
    ensures Tokenize(t) == [t]
  {
    WordThenRest(t, "");
    assert t + "" == t;
  }

  /** A line that is not all whitespace is leading whitespace, its first word, then the rest. */
  lemma FirstWord(x: string) returns (p: string, t: string, rest: string)
    requires Run(x, true) < |x|
    ensures x == p + (t + rest) && AllSpace(p) && IsWord(t) && (rest == [] || IsSpace(rest[0]))
    ensures |rest| < |x|
  {
    var a := Run(x, true);
    var n := Run(x[a..], false);
    p, t, rest := x[..a], x[a..][..n], x[a..][n..];
    assert x == p + (t + rest);
  }

  /** Leading whitespace and a first word: the word is the first token, the rest follows. */
  lemma AfterFirstWord(s: string, p: string, t: string, rest: string)
    requires s == p + (t + rest)
    requires AllSpace(p) && IsWord(t) && (rest == [] || IsSpace(rest[0]))
    ensures Tokenize(s) == [t] + Tokenize(rest)
  {
    TokenizeSpacePrefix(p, t + rest);
    WordThenRest(t, rest);
  }

  /** The first word of `x` stays the first token when whitespace-led `z` is appended. */
  lemma AfterFirstWordAppended(x: string, z: string, p: string, t: string, rest: string)
    requires x == p + (t + rest)
    requires AllSpace(p) && IsWord(t) && (rest == [] || IsSpace(rest[0])) && z != [] && IsSpace(z[0])
    ensures Tokenize(x + z) == [t] + Tokenize(rest + z)
  {
    var v := rest + z;
    assert v[0] == if rest == [] then z[0] else rest[0];
    assert x + z == p + (t + v);
    AfterFirstWord(x + z, p, t, v);
  }

  /** The step of `TokenizeSplitAtSpace` past leading whitespace and a first word. */
  lemma SplitAfterWord(x: string, z: string, p: string, t: string, rest: string)
    requires x == p + (t + rest)
    requires AllSpace(p) && IsWord(t) && (rest == [] || IsSpace(rest[0])) && z != [] && IsSpace(z[0])
    requires Tokenize(rest + z) == Tokenize(rest) + Tokenize(z)
    ensures Tokenize(x + z) == Tokenize(x) + Tokenize(z)
  {
    AfterFirstWordAppended(x, z, p, t, rest);
    AfterFirstWord(x, p, t, rest);
    ConsAssociates(Tokenize(x + z), Tokenize(x), t, Tokenize(rest), Tokenize(z));
  }

  lemma ConsAssociates(all: seq<string>, front: seq<string>, t: string, mid: seq<string>, back: seq<string>)
    requires all == [t] + (mid + back) && front == [t] + mid
    ensures all == front + back
  {
    assert [t] + (mid + back) == ([t] + mid) + back;
  }

  /**
   * A whitespace character always ends a token: if `z` starts with one,
   * the tokens of `x + z` are those of `x` followed by those of `z`.
   */
  lemma {:induction false} TokenizeSplitAtSpace(x: string, z: string)
    requires z != [] && IsSpace(z[0])
    ensures Tokenize(x + z) == Tokenize(x) + Tokenize(z)
    decreases |x|
  {
    if Run(x, true) == |x| {
      TokenizeSpacePrefix(x, z);
      TokenizeAllSpace(x);
    } else {
      var p, t, rest := FirstWord(x);
      TokenizeSplitAtSpace(rest, z);
      SplitAfterWord(x, z, p, t, rest);
    }
  }

  /** Trailing whitespace does not change the tokens. */
  lemma TokenizeSpaceSuffix(s: string, q: string)
    requires AllSpace(q)
    ensures Tokenize(s + q) == Tokenize(s)
  {
    if q == [] {
      assert s + q == s;
    } else {
      TokenizeSplitAtSpace(s, q);
      TokenizeAllSpace(q);
      assert Tokenize(s) + [] == Tokenize(s);
    }
  }

  /**
   * Any non-empty run of whitespace, of any kind and length, separates:
   * the tokens of `x`, whitespace, `y` are those of `x` followed by those of
   * `y`. With `TokenizeAllSpace` and `TokenizeWord` this fixes the tokens of
   * every line: its maximal non-whitespace runs, in order.
   */
  lemma TokenizeSeparated(x: string, w: string, y: string)
    requires |w| > 0 && AllSpace(w)
    ensures Tokenize(x + w + y) == Tokenize(x) + Tokenize(y)
  {
    assert x + w + y == x + (w + y);
    assert (w + y)[0] == w[0];
    TokenizeSplitAtSpace(x, w + y);
    TokenizeSpacePrefix(w, y);
  }

  /** A word, a space, then a line `j` with tokens `rest`: the word comes first. */
  lemma JoinStep(t: string, rest: seq<string>, j: string)
    requires IsWord(t) && Tokenize(j) == rest
    ensures Tokenize(t + " " + j) == [t] + rest
  {
    var sj := " " + j;
    assert t + " " + j == t + sj;
    WordThenRest(t, sj);
    TokenizeSpacePrefix(" ", j);
  }

  /**
   * Re-tokenising a joined command line gives back the tokens, provided each
   * is a word (which every token `Tokenize` produces is). `!!` relies on this.
   */
  lemma {:induction false} TokenizeJoin(ts: seq<string>)
    requires AllWords(ts)
    ensures Tokenize(Join(ts)) == ts
  {
    if ts == [] {
    } else if |ts| == 1 {
      TokenizeWord(ts[0]);
    } else {
      TokenizeJoin(ts[1..]);
      JoinStep(ts[0], ts[1..], Join(ts[1..]));
      assert ts == [ts[0]] + ts[1..];
    }
  }
}
