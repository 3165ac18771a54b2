/** Python's built-in `str` operations that the visualizer relies on, over `seq<char>`:
    `str.isspace` for one character, `str.strip()`, `str.split()` with no separator
    and `str.splitlines()`. */
module PyText {

  /** The characters Python's `str.isspace()` accepts; `strip()` and `split()` remove exactly these. */
  const SpaceChars: seq<char> := [
    ' ', '\t', '\n', '\U{B}', '\U{C}', '\r', '\U{1C}', '\U{1D}', '\U{1E}', '\U{1F}',
    '\U{85}', '\U{A0}', '\U{1680}', '\U{2000}', '\U{2001}', '\U{2002}', '\U{2003}', '\U{2004}',
    '\U{2005}', '\U{2006}', '\U{2007}', '\U{2008}', '\U{2009}', '\U{200A}', '\U{2028}', '\U{2029}',
    '\U{202F}', '\U{205F}', '\U{3000}']

  /** The characters at which `str.splitlines()` ends a line (`\r\n` counts as one boundary). */
  const LineBreakChars: seq<char> := [
    '\n', '\U{B}', '\U{C}', '\r', '\U{1C}', '\U{1D}', '\U{1E}', '\U{85}', '\U{2028}', '\U{2029}']

  predicate IsSpace(c: char) {
    OneOf(c, SpaceChars)
  }

  predicate IsLineBreak(c: char) {
    OneOf(c, LineBreakChars)
  }

  /** `c` occurs in `cs`, written as a recursion so that the solver unfolds it only on demand. */
  predicate OneOf(c: char, cs: seq<char>) {
    cs != [] && (cs[0] == c || OneOf(c, cs[1..]))
  }

  predicate AllSpace(s: string) {
    forall k :: 0 <= k < |s| ==> IsSpace(s[k])
  }

  predicate NoSpace(s: string) {
    forall k :: 0 <= k < |s| ==> !IsSpace(s[k])
  }

  predicate NoLineBreak(s: string) {
    forall k :: 0 <= k < |s| ==> !IsLineBreak(s[k])
  }

  predicate NoLeadingSpace(s: string) {
    s == [] || !IsSpace(s[0])
  }

  predicate NoTrailingSpace(s: string) {
    s == [] || !IsSpace(s[|s| - 1])
  }

  /** `s` neither starts nor ends with whitespace. */
  predicate Trimmed(s: string) {
    NoLeadingSpace(s) && NoTrailingSpace(s)
  }

  /** `s.lstrip()`: the suffix of `s` left once its leading whitespace is gone. */
  function TrimStart(s: string): (r: string)
    ensures |r| <= |s| && r == s[|s| - |r|..]
    ensures AllSpace(s[..|s| - |r|])
    ensures NoLeadingSpace(r)
    decreases |s|
  {
    if s != [] && IsSpace(s[0]) then
      var r := TrimStart(s[1..]);
      TrimStartStep(s, r);
      r
    else
      assert s[|s| - |s|..] == s;
      s
  }

  lemma TrimStartStep(s: string, r: string)
    requires s != [] && IsSpace(s[0])
    requires |r| <= |s| - 1 && r == s[1..][|s| - 1 - |r|..] && AllSpace(s[1..][..|s| - 1 - |r|])
    ensures r == s[|s| - |r|..] && AllSpace(s[..|s| - |r|])
  {
    assert s[1..][|s| - 1 - |r|..] == s[|s| - |r|..];
    assert s[..|s| - |r|] == [s[0]] + s[1..][..|s| - 1 - |r|];
    AllSpaceAppend([s[0]], s[1..][..|s| - 1 - |r|]);
  }

  /** `s.rstrip()`: the prefix of `s` left once its trailing whitespace is gone. */
  function TrimEnd(s: string): (r: string)
    ensures |r| <= |s| && r == s[..|r|]
    ensures AllSpace(s[|r|..])
    ensures NoTrailingSpace(r)
    decreases |s|
  {
    if s != [] && IsSpace(s[|s| - 1]) then
      var r := TrimEnd(s[..|s| - 1]);
      TrimEndStep(s, r);
      r
    else
      assert s[..|s|] == s;
      s
  }

  lemma TrimEndStep(s: string, r: string)
    requires s != [] && IsSpace(s[|s| - 1])
    requires |r| <= |s| - 1 && r == s[..|s| - 1][..|r|] && AllSpace(s[..|s| - 1][|r|..])
    ensures r == s[..|r|] && AllSpace(s[|r|..])
  {
    assert s[..|s| - 1][..|r|] == s[..|r|];
    assert s[|r|..] == s[..|s| - 1][|r|..] + [s[|s| - 1]];
    AllSpaceAppend(s[..|s| - 1][|r|..], [s[|s| - 1]]);
  }

  /** `r` is `s` with its leading and trailing whitespace removed and nothing else. */
  ghost predicate StrippedOf(s: string, r: string) {
    && Trimmed(r)
    && exists i :: 0 <= i <= |s| - |r| && r == s[i..i + |r|] && AllSpace(s[..i]) && AllSpace(s[i + |r|..])
  }

  /** `s.strip()`. */
  function Strip(s: string): (r: string)
    ensures |r| <= |s|
    ensures Trimmed(r)
    ensures r == [] <==> AllSpace(s)
  {
    var t := TrimStart(s);
    var r := TrimEnd(t);
    StripWitness(s, t, r);
    StripEmpty(s, t, r);
    r
  }

  /** `strip()` removes the leading and trailing whitespace and nothing else. */
  lemma StripRemovesOnlySpace(s: string)
    ensures StrippedOf(s, Strip(s))
  {
    StripWitness(s, TrimStart(s), TrimEnd(TrimStart(s)));
  }

  lemma StripWitness(s: string, t: string, r: string)
    requires t == TrimStart(s) && r == TrimEnd(t)
    ensures StrippedOf(s, r)
  {
    var i := |s| - |t|;
    MiddleSlice(s, t, r, i);
    PrefixNoLeadingSpace(t, r);
    StrippedAt(s, r, i);
  }

  /** A non-empty prefix starts where the whole string starts. */
  lemma PrefixNoLeadingSpace(t: string, r: string)
    requires NoLeadingSpace(t) && |r| <= |t| && r == t[..|r|]
    ensures NoLeadingSpace(r)
  {
    if r != [] {
      assert r[0] == t[0];
    }
  }

  /** `i` witnesses that `r` is `s` with only white space cut from both ends. */
  lemma StrippedAt(s: string, r: string, i: int)
    requires Trimmed(r) && 0 <= i <= |s| - |r| && r == s[i..i + |r|]
    requires AllSpace(s[..i]) && AllSpace(s[i + |r|..])
    ensures StrippedOf(s, r)
  {
  }

  lemma StripEmpty(s: string, t: string, r: string)
    requires t == TrimStart(s) && r == TrimEnd(t)
    ensures r == [] <==> AllSpace(s)
  {
    var i := |s| - |t|;
    MiddleSlice(s, t, r, i);
    if r == [] {
      AllSpaceAppend(s[..i], s[i + |r|..]);
    } else {
      assert s[i] == r[0];
    }
  }

  /** Where a suffix's prefix sits in the whole sequence. */
  lemma MiddleSlice<T>(s: seq<T>, t: seq<T>, r: seq<T>, i: int)
    requires |t| <= |s| && i == |s| - |t| && t == s[i..]
    requires |r| <= |t| && r == t[..|r|]
    ensures 0 <= i <= |s| - |r| && s[i..i + |r|] == r
    ensures s[i + |r|..] == t[|r|..]
    ensures r == [] ==> s == s[..i] + s[i + |r|..]
  {
  }

  lemma AllSpaceAppend(a: string, b: string)
    ensures AllSpace(a + b) <==> AllSpace(a) && AllSpace(b)
  {
    if AllSpace(a) && AllSpace(b) {
      forall k | 0 <= k < |a + b| ensures IsSpace((a + b)[k]) {
        if k >= |a| { assert (a + b)[k] == b[k - |a|]; }
      }
    }
    if AllSpace(a + b) {
      forall k | 0 <= k < |b| ensures IsSpace(b[k]) {
        assert (a + b)[|a| + k] == b[k];
      }
      forall k | 0 <= k < |a| ensures IsSpace(a[k]) {
        assert (a + b)[k] == a[k];
      }
    }
  }

  /** The leading run of non-whitespace characters of `s`. */
  function Word(s: string): (r: string)
    ensures r <= s && NoSpace(r)
    ensures |r| == |s| || IsSpace(s[|r|])
  {
    if s == [] || IsSpace(s[0]) then [] else [s[0]] + Word(s[1..])
  }

  /** `s.split()` with no separator: the maximal runs of non-whitespace characters, in order. */
  function Split(s: string): (r: seq<string>)
    ensures forall k :: 0 <= k < |r| ==> r[k] != [] && NoSpace(r[k])
    ensures r == [] <==> AllSpace(s)
    decreases |s|
  {
    var t := TrimStart(s);
    if t == [] then
      assert s == s[..|s|];
      []
    else
      var w := Word(t);
      assert s[|s| - |t|] == t[0];
      var rest := Split(t[|w|..]);
      var r := [w] + rest;
      assert forall k :: 0 <= k < |r| ==> r[k] != [] && NoSpace(r[k]) by {
        forall k | 0 <= k < |r| ensures r[k] != [] && NoSpace(r[k]) {
          if k > 0 { assert r[k] == rest[k - 1]; }
        }
      }
      r
  }

  /** `sep.join(ws)` for a one-character separator. */
  function Join(ws: seq<string>, sep: char): string {
    if ws == [] then []
    else if |ws| == 1 then ws[0]
    else ws[0] + ([sep] + Join(ws[1..], sep))
  }

  /** The length of the first line of `s`: the index of its first line boundary, or `|s|`. */
  function LineLength(s: string): (n: nat)
    ensures n <= |s| && NoLineBreak(s[..n])
    ensures n == |s| || IsLineBreak(s[n])
  {
    if s == [] || IsLineBreak(s[0]) then 0
    else
      var n := 1 + LineLength(s[1..]);
      assert s[..n] == [s[0]] + s[1..][..n - 1];
      n
  }

  /** `s.splitlines()`: the lines of `s` without their boundaries; a final boundary does
      not start an empty line, and `\r\n` is one boundary. */
  function SplitLines(s: string): (r: seq<string>)
    ensures forall k :: 0 <= k < |r| ==> NoLineBreak(r[k])
    ensures r == [] <==> s == []
    decreases |s|
  {
    if s == [] then []
    else
      var n := LineLength(s);
      if n == |s| then
        assert s == s[..n];
        [s]
      else
        var width := if s[n] == '\r' && n + 1 < |s| && s[n + 1] == '\n' then 2 else 1;
        var rest := SplitLines(s[n + width..]);
        var r := [s[..n]] + rest;
        assert forall k :: 0 <= k < |r| ==> NoLineBreak(r[k]) by {
          forall k | 0 <= k < |r| ensures NoLineBreak(r[k]) {
            if k > 0 { assert r[k] == rest[k - 1]; }
          }
        }
        r
  }

  // Sequence identities, proved apart so that the proofs below stay small.

  lemma DropAppend<T>(a: seq<T>, b: seq<T>, n: nat)
    requires n <= |a|
    ensures (a + b)[n..] == a[n..] + b
  {
  }

  lemma DropPastPrefix<T>(a: seq<T>, b: seq<T>, n: nat)
    requires |a| <= n <= |a| + |b|
    ensures (a + b)[n..] == b[n - |a|..]
  {
  }

  lemma SplitAt<T>(a: seq<T>, b: seq<T>)
    ensures (a + b)[..|a|] == a && (a + b)[|a|..] == b
  {
  }

  lemma TakeAll<T>(a: seq<T>)
    ensures a[..|a|] == a
  {
  }

  lemma ConsTail<T>(x: T, a: seq<T>)
    ensures ([x] + a)[1..] == a && ([x] + a)[0] == x
  {
  }

  lemma HeadTail<T>(a: seq<T>)
    requires a != []
    ensures a == [a[0]] + a[1..] && a == a[..|a| - 1] + [a[|a| - 1]]
  {
  }

  // Properties of the operations above.

  lemma BlankIsSpace()
    ensures IsSpace(' ')
  {
    assert SpaceChars[0] == ' ';
  }

  lemma NewlineIsLineBreak()
    ensures IsLineBreak('\n')
  {
    assert LineBreakChars[0] == '\n';
  }

  /** Stripping leading whitespace twice removes nothing more. */
  lemma TrimStartIdempotent(s: string)
    ensures TrimStart(TrimStart(s)) == TrimStart(s)
  {
  }

  lemma TrimStartAppend(u: string, v: string)
    ensures TrimStart(u + v) == if TrimStart(u) == [] then TrimStart(v) else TrimStart(u) + v
    decreases |u|
  {
    if u != [] && IsSpace(u[0]) {
      assert (u + v)[1..] == u[1..] + v;
      TrimStartAppend(u[1..], v);
    } else if u == [] {
      assert u + v == v;
    }
  }

  /** Leading whitespace before a string that starts with a non-space is all `lstrip()` removes. */
  lemma {:induction false} TrimStartPadding(pre: string, v: string)
    requires AllSpace(pre) && (v == [] || !IsSpace(v[0]))
    ensures TrimStart(pre + v) == v
    decreases |pre|
  {
    if pre == [] {
      assert pre + v == v;
    } else {
      assert (pre + v)[0] == pre[0];
      assert (pre + v)[1..] == pre[1..] + v;
      TrimStartPadding(pre[1..], v);
    }
  }

  /** Trailing whitespace after a string that ends in a non-space is all `rstrip()` removes. */
  lemma {:induction false} TrimEndPadding(v: string, post: string)
    requires AllSpace(post) && (v == [] || !IsSpace(v[|v| - 1]))
    ensures TrimEnd(v + post) == v
    decreases |post|
  {
    if post == [] {
      assert v + post == v;
    } else {
      var p := post[..|post| - 1];
      assert (v + post)[|v + post| - 1] == post[|post| - 1];
      assert (v + post)[..|v + post| - 1] == v + p;
      TrimEndPadding(v, p);
    }
  }

  /** `strip()` undoes padding: surrounded by whitespace, a string with non-space ends comes back. */
  lemma StripPadding(pre: string, s: string, post: string)
    requires AllSpace(pre) && AllSpace(post)
    requires Trimmed(s)
    ensures Strip(pre + s + post) == s
  {
    if s == [] {
      assert pre + s + post == pre + post;
      AllSpaceAppend(pre, post);
    } else {
      assert pre + s + post == pre + (s + post);
      assert (s + post)[0] == s[0];
      TrimStartPadding(pre, s + post);
      TrimEndPadding(s, post);
    }
  }

  /** A trailing whitespace character does not end the last word early. */
  lemma {:induction false} WordAppendSpace(t: string, c: char)
    requires IsSpace(c)
    ensures Word(t + [c]) == Word(t)
  {
    if t != [] && !IsSpace(t[0]) {
      assert (t + [c])[1..] == t[1..] + [c];
      WordAppendSpace(t[1..], c);
    }
  }

  /** `w` is the first word of `w + v` when `w` holds no whitespace and `v` starts with whitespace or is empty. */
  lemma {:induction false} WordOfPrefix(w: string, v: string)
    requires NoSpace(w) && (v == [] || IsSpace(v[0]))
    ensures Word(w + v) == w
  {
    if w == [] {
      assert w + v == v;
    } else {
      assert (w + v)[1..] == w[1..] + v;
      WordOfPrefix(w[1..], v);
    }
  }

  /** A trailing whitespace character does not change `split()`. */
  lemma {:induction false} SplitAppendSpace(u: string, c: char)
    requires IsSpace(c)
    ensures Split(u + [c]) == Split(u)
    decreases |u|
  {
    var t := TrimStart(u);
    TrimStartAppend(u, [c]);
    if t == [] {
      assert [c][1..] == [];
      assert TrimStart(u + [c]) == [];
    } else {
      var w := Word(t);
      WordAppendSpace(t, c);
      assert TrimStart(u + [c]) == t + [c];
      DropAppend(t, [c], |w|);
      assert Split(u + [c]) == [w] + Split(t[|w|..] + [c]);
      SplitAppendSpace(t[|w|..], c);
    }
  }

  /** Trailing whitespace does not change `split()`. */
  lemma {:induction false} SplitTrimEnd(s: string)
    ensures Split(TrimEnd(s)) == Split(s)
    decreases |s|
  {
    if s != [] && IsSpace(s[|s| - 1]) {
      var u := s[..|s| - 1];
      SplitTrimEnd(u);
      HeadTail(s);
      SplitAppendSpace(u, s[|s| - 1]);
    }
  }

  /** `s.strip().split() == s.split()`. */
  lemma SplitStrip(s: string)
    ensures Split(Strip(s)) == Split(s)
  {
    var t := TrimStart(s);
    TrimStartIdempotent(s);
    assert Split(t) == Split(s);
    SplitTrimEnd(t);
  }

  /** A word followed by whitespace (or by nothing) is the first token `split()` finds. */
  lemma SplitWordFirst(w: string, v: string)
    requires w != [] && NoSpace(w) && (v == [] || IsSpace(v[0]))
    ensures Split(w + v) == [w] + Split(v)
  {
    assert (w + v)[0] == w[0];
    assert TrimStart(w + v) == w + v;
    WordOfPrefix(w, v);
    SplitAt(w, v);
  }

  /** Leading whitespace is skipped by `split()`. */
  lemma SplitSkipSpace(c: char, v: string)
    requires IsSpace(c)
    ensures Split([c] + v) == Split(v)
  {
    ConsTail(c, v);
    assert TrimStart([c] + v) == TrimStart(v);
  }

  /** `" ".join(ws).split() == ws` for words that are non-empty and hold no whitespace. */
  lemma {:induction false} SplitJoin(ws: seq<string>)
    requires forall k :: 0 <= k < |ws| ==> ws[k] != [] && NoSpace(ws[k])
    ensures Split(Join(ws, ' ')) == ws
  {
    if |ws| == 1 {
      SplitWordFirst(ws[0], []);
      assert ws[0] + [] == ws[0];
      assert Split(Join(ws, ' ')) == ws;
    } else if |ws| > 1 {
      var tail := ws[1..];
      assert Join(ws, ' ') == ws[0] + ([' '] + Join(tail, ' '));
      SplitWordThenBlank(ws[0], Join(tail, ' '));
      TailWords(ws);
      SplitJoin(tail);
      HeadTail(ws);
      assert Split(Join(ws, ' ')) == ws;
    }
  }

  /** A word, a blank, then the rest: the word is the first token and the blank is skipped. */
  lemma SplitWordThenBlank(w: string, rest: string)
    requires w != [] && NoSpace(w)
    ensures Split(w + ([' '] + rest)) == [w] + Split(rest)
  {
    BlankIsSpace();
    SplitWordFirst(w, [' '] + rest);
    SplitSkipSpace(' ', rest);
  }

  lemma TailWords(ws: seq<string>)
    requires ws != [] && forall k :: 0 <= k < |ws| ==> ws[k] != [] && NoSpace(ws[k])
    ensures forall k :: 0 <= k < |ws| - 1 ==> ws[1..][k] != [] && NoSpace(ws[1..][k])
  {
    forall k | 0 <= k < |ws| - 1 ensures ws[1..][k] != [] && NoSpace(ws[1..][k]) {
      assert ws[1..][k] == ws[k + 1];
    }
  }

  lemma TailLines(ls: seq<string>)
    requires ls != [] && forall k :: 0 <= k < |ls| ==> NoLineBreak(ls[k])
    ensures forall k :: 0 <= k < |ls| - 1 ==> NoLineBreak(ls[1..][k])
  {
    forall k | 0 <= k < |ls| - 1 ensures NoLineBreak(ls[1..][k]) {
      assert ls[1..][k] == ls[k + 1];
    }
  }

  lemma {:induction false} LineLengthOfPrefix(l: string, v: string)
    requires NoLineBreak(l) && (v == [] || IsLineBreak(v[0]))
    ensures LineLength(l + v) == |l|
  {
    if l == [] {
      assert l + v == v;
    } else {
      assert (l + v)[1..] == l[1..] + v;
      LineLengthOfPrefix(l[1..], v);
    }
  }

  /** A line without boundaries, on its own, is the one line `splitlines()` finds. */
  lemma SplitLinesSingle(l: string)
    requires l != [] && NoLineBreak(l)
    ensures SplitLines(l) == [l]
  {
    LineLengthOfPrefix(l, []);
    assert l + [] == l;
  }

  /** A line followed by `\n` is the first line `splitlines()` finds, and the rest is split on its own. */
  lemma SplitLinesFirst(l: string, rest: string)
    requires NoLineBreak(l)
    ensures SplitLines(l + (['\n'] + rest)) == [l] + SplitLines(rest)
  {
    var v := ['\n'] + rest;
    NewlineIsLineBreak();
    LineLengthOfPrefix(l, v);
    SplitAt(l, v);
    assert (l + v)[|l|] == '\n';
    DropPastPrefix(l, v, |l| + 1);
    ConsTail('\n', rest);
  }

  /** `"\n".join(ls).splitlines() == ls` for lines without boundaries whose last one is not
      empty: the shape of `git log` output, one line per commit, no final newline. */
  lemma {:induction false} SplitLinesJoin(ls: seq<string>)
    requires ls != [] && ls[|ls| - 1] != []
    requires forall k :: 0 <= k < |ls| ==> NoLineBreak(ls[k])
    ensures SplitLines(Join(ls, '\n')) == ls
  {
    if |ls| == 1 {
      SplitLinesSingle(ls[0]);
    } else {
      var tail := ls[1..];
      SplitLinesFirst(ls[0], Join(tail, '\n'));
      TailLines(ls);
      SplitLinesJoin(tail);
      HeadTail(ls);
    }
  }
}
