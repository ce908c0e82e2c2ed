/**
 * Character classes and the string operations shared by the browser's sentence splitter,
 * the REST sentence splitter and the REST plain-text cleanup.
 *
 * Every operation is parameterised by the character class it works with, because the
 * three places use three different notions of white space: ECMAScript's `\s` (which is also
 * what `String.prototype.trim` removes), PCRE's `\s` without the `u` modifier, and the
 * fixed character list of PHP's `trim`.
 *
 * The functions carry only the small facts their callers need at every use; the facts
 * that hold over whole strings are lemmas, called where they are wanted.
 */
module Text {

  /** Sentence-ending punctuation, the class `[.!?]` of both splitters. */
  predicate IsPunct(c: char) {
    c == '.' || c == '!' || c == '?'
  }

  predicate IsDot(c: char) {
    c == '.'
  }

  /** ECMAScript `\s`: WhiteSpace and LineTerminator code points. */
  predicate JsSpace(c: char) {
    var n := c as int;
    (9 <= n <= 13) || n == 0x20 || n == 0xA0 || n == 0x1680 || (0x2000 <= n <= 0x200A)
    || n == 0x2028 || n == 0x2029 || n == 0x202F || n == 0x205F || n == 0x3000 || n == 0xFEFF
  }

  /** PCRE `\s` without the `u` modifier: space, tab, line feed, vertical tab, form feed, carriage return. */
  predicate PcreSpace(c: char) {
    var n := c as int;
    n == 0x20 || (9 <= n <= 13)
  }

  /** The characters PHP's `trim` removes by default: space, tab, line feed, carriage return, NUL, vertical tab. */
  predicate PhpTrimmable(c: char) {
    var n := c as int;
    n == 0x20 || n == 9 || n == 10 || n == 13 || n == 0 || n == 11
  }

  /** Any character but NUL. */
  predicate NotNul(c: char) {
    c as int != 0
  }

  /** Every character of `s` is in class `p`. */
  ghost predicate All(s: string, p: char -> bool) {
    forall i :: 0 <= i < |s| ==> p(s[i])
  }

  /** Every character of `s` that is in class `p` is also in class `q`. */
  ghost predicate Within(s: string, p: char -> bool, q: char -> bool) {
    forall i :: 0 <= i < |s| && p(s[i]) ==> q(s[i])
  }

  /** No two neighbouring characters of `t` are both in class `p`. */
  ghost predicate NoAdjacent(t: string, p: char -> bool) {
    forall i :: 0 <= i < |t| - 1 ==> !(p(t[i]) && p(t[i + 1]))
  }

  /** The shape of a collapsed string: every `p`-character is `rep`, and no two are adjacent. */
  ghost predicate Collapsed(t: string, p: char -> bool, rep: char) {
    && (forall i :: 0 <= i < |t| && p(t[i]) ==> t[i] == rep)
    && NoAdjacent(t, p)
  }

  /** No position of `t` is a split point of `/(?<=[.!?])\s+/`. */
  ghost predicate NoBoundary(t: string, ws: char -> bool) {
    forall i :: 0 <= i < |t| - 1 ==> !(IsPunct(t[i]) && ws(t[i + 1]))
  }

  /** `x` is non-empty and ends with sentence punctuation. */
  predicate EndsSentence(x: string) {
    x != [] && IsPunct(x[|x| - 1])
  }

  /** Every element of `xs` except the last ends a sentence. */
  ghost predicate AllButLastEnd(xs: seq<string>) {
    forall k :: 0 <= k < |xs| - 1 ==> EndsSentence(xs[k])
  }

  /** `x` is non-empty and neither begins nor ends with a `strip`-character. */
  predicate Trimmed(x: string, strip: char -> bool) {
    x != [] && !strip(x[0]) && !strip(x[|x| - 1])
  }

  // ---------------------------------------------------------------------------
  // Small facts about sequences, kept out of the larger proofs
  // ---------------------------------------------------------------------------

  lemma SplitAt(s: string, k: nat)
    requires k <= |s|
    ensures s == s[..k] + s[k..]
  {
  }

  lemma SliceOfSlice(s: string, i: nat, k: nat)
    requires i + k <= |s|
    ensures s[i..][..k] == s[i..i + k]
    ensures s[i..][k..] == s[i + k..]
  {
  }

  lemma AppendEmpty(a: string, b: string)
    requires b == []
    ensures a + b == a
  {
  }

  lemma ShiftFirst(cur: string, s: string)
    requires s != []
    ensures (cur + [s[0]]) + s[1..] == cur + s
    ensures cur + [s[0]] + s[1..] == cur + s
  {
  }

  lemma {:induction false} AllAppend(a: string, b: string, p: char -> bool)
    ensures All(a + b, p) <==> All(a, p) && All(b, p)
  {
    var u := a + b;
    if All(a, p) && All(b, p) {
      forall i | 0 <= i < |u|
        ensures p(u[i])
      {
        if i < |a| {
          assert u[i] == a[i];
        } else {
          assert u[i] == b[i - |a|];
        }
      }
    }
    if All(u, p) {
      forall i | 0 <= i < |a|
        ensures p(a[i])
      {
        assert u[i] == a[i];
      }
      forall i | 0 <= i < |b|
        ensures p(b[i])
      {
        assert u[|a| + i] == b[i];
      }
    }
  }

  lemma {:induction false} AllSlice(s: string, i: nat, j: nat, p: char -> bool)
    requires i <= j <= |s| && All(s, p)
    ensures All(s[i..j], p)
  {
    assert forall k :: 0 <= k < j - i ==> s[i..j][k] == s[i + k];
  }

  // ---------------------------------------------------------------------------
  // Runs of a character class
  // ---------------------------------------------------------------------------

  /** `s` without its leading run of `p`-characters. */
  function DropRun(s: string, p: char -> bool): (r: string)
    ensures |r| <= |s| && r == s[|s| - |r|..]
    ensures r == [] || !p(r[0])
    ensures s != [] && p(s[0]) ==> |r| < |s|
    decreases |s|
  {
    if s != [] && p(s[0]) then DropRun(s[1..], p) else s
  }

  /** What `DropRun` removes is all of class `p`. */
  lemma {:induction false} DropRunRemoves(s: string, p: char -> bool)
    ensures All(s[..|s| - |DropRun(s, p)|], p)
    decreases |s|
  {
    if s != [] && p(s[0]) {
      DropRunRemoves(s[1..], p);
      var k := |s| - |DropRun(s, p)|;
      assert s[..k] == [s[0]] + s[1..][..k - 1];
      AllAppend([s[0]], s[1..][..k - 1], p);
    }
  }

  /**
   * Replaces every maximal run of `p`-characters by the one character `rep`. With `\s` and
   * a space this is `replace(/\s+/g, ' ')` and `preg_replace('/\s+/', ' ', ...)`; with the dot
   * it is `preg_replace('/\.{2,}/', '.', ...)`, since a run of one dot is replaced by itself.
   */
  function CollapseRuns(s: string, p: char -> bool, rep: char): string
    decreases |s|
  {
    if s == [] then []
    else if p(s[0]) then [rep] + CollapseRuns(DropRun(s, p), p, rep)
    else [s[0]] + CollapseRuns(s[1..], p, rep)
  }

  lemma CollapseRunsHead(s: string, p: char -> bool, rep: char)
    requires s != []
    ensures CollapseRuns(s, p, rep) != []
    ensures CollapseRuns(s, p, rep)[0] == if p(s[0]) then rep else s[0]
  {
  }

  lemma {:induction false} ConsCollapsed(x: char, t: string, p: char -> bool, rep: char)
    requires Collapsed(t, p, rep)
    requires p(x) ==> x == rep
    requires p(x) && t != [] ==> !p(t[0])
    ensures Collapsed([x] + t, p, rep)
  {
    var u := [x] + t;
    forall i | 0 <= i < |u| - 1
      ensures !(p(u[i]) && p(u[i + 1]))
    {
      if i > 0 {
        assert u[i] == t[i - 1] && u[i + 1] == t[i];
      }
    }
  }

  lemma {:induction false} CollapsedSuffix(s: string, m: nat, p: char -> bool, rep: char)
    requires m <= |s| && Collapsed(s, p, rep)
    ensures Collapsed(s[m..], p, rep)
  {
    var t := s[m..];
    forall i | 0 <= i < |t| - 1
      ensures !(p(t[i]) && p(t[i + 1]))
    {
      assert t[i] == s[m + i] && t[i + 1] == s[m + i + 1];
    }
  }

  /** Collapsing leaves one `rep` per run and nothing else of the class. */
  lemma {:induction false} CollapseRunsCollapsed(s: string, p: char -> bool, rep: char)
    requires p(rep)
    ensures Collapsed(CollapseRuns(s, p, rep), p, rep)
    decreases |s|
  {
    if s == [] {
    } else if p(s[0]) {
      var t := DropRun(s, p);
      CollapseRunsCollapsed(t, p, rep);
      if t != [] {
        CollapseRunsHead(t, p, rep);
      }
      ConsCollapsed(rep, CollapseRuns(t, p, rep), p, rep);
    } else {
      CollapseRunsCollapsed(s[1..], p, rep);
      ConsCollapsed(s[0], CollapseRuns(s[1..], p, rep), p, rep);
    }
  }

  /** A string that is already collapsed is left unchanged. */
  lemma {:induction false} CollapseRunsFixpoint(s: string, p: char -> bool, rep: char)
    requires Collapsed(s, p, rep)
    ensures CollapseRuns(s, p, rep) == s
    decreases |s|
  {
    if s != [] {
      var c := CollapseRuns(s[1..], p, rep);
      assert c == s[1..] by {
        CollapsedSuffix(s, 1, p, rep);
        CollapseRunsFixpoint(s[1..], p, rep);
      }
      if p(s[0]) {
        assert DropRun(s, p) == s[1..] by {
          assert |s| > 1 ==> !p(s[1]);
          assert DropRun(s, p) == DropRun(s[1..], p);
        }
        assert CollapseRuns(s, p, rep) == [s[0]] + c;
      } else {
        assert CollapseRuns(s, p, rep) == [s[0]] + c;
      }
      ShiftFirst([], s);
    }
  }

  /** No character of `s` is in both class `q` and class `p`. */
  ghost predicate Disjoint(s: string, q: char -> bool, p: char -> bool) {
    forall i :: 0 <= i < |s| && q(s[i]) ==> !p(s[i])
  }

  lemma {:induction false} NoAdjacentSuffix(s: string, m: nat, p: char -> bool, q: char -> bool)
    requires m <= |s| && NoAdjacent(s, q) && Disjoint(s, q, p)
    ensures NoAdjacent(s[m..], q) && Disjoint(s[m..], q, p)
  {
    var t := s[m..];
    forall i | 0 <= i < |t| - 1
      ensures !(q(t[i]) && q(t[i + 1]))
    {
      assert t[i] == s[m + i] && t[i + 1] == s[m + i + 1];
    }
    assert forall i :: 0 <= i < |t| ==> t[i] == s[m + i];
  }

  lemma {:induction false} ConsNoAdjacent(x: char, c: string, q: char -> bool)
    requires NoAdjacent(c, q)
    requires q(x) && c != [] ==> !q(c[0])
    ensures NoAdjacent([x] + c, q)
  {
    var u := [x] + c;
    forall i | 0 <= i < |u| - 1
      ensures !(q(u[i]) && q(u[i + 1]))
    {
      if i > 0 {
        assert u[i] == c[i - 1] && u[i + 1] == c[i];
      }
    }
  }

  /** Collapsing one class keeps a second, disjoint class free of neighbours. */
  lemma {:induction false} CollapseRunsKeepsNoAdjacent(s: string, p: char -> bool, rep: char, q: char -> bool)
    requires !q(rep)
    requires Disjoint(s, q, p)
    requires NoAdjacent(s, q)
    ensures NoAdjacent(CollapseRuns(s, p, rep), q)
    decreases |s|
  {
    if s == [] {
    } else if p(s[0]) {
      var t := DropRun(s, p);
      NoAdjacentSuffix(s, |s| - |t|, p, q);
      CollapseRunsKeepsNoAdjacent(t, p, rep, q);
      ConsNoAdjacent(rep, CollapseRuns(t, p, rep), q);
    } else {
      NoAdjacentSuffix(s, 1, p, q);
      CollapseRunsKeepsNoAdjacent(s[1..], p, rep, q);
      var c := CollapseRuns(s[1..], p, rep);
      if c != [] && q(s[0]) {
        CollapseRunsHead(s[1..], p, rep);
        assert !q(s[1]);
      }
      ConsNoAdjacent(s[0], c, q);
    }
  }

  /** A collapsed string is all of one class exactly when the original was. */
  lemma {:induction false} CollapseRunsAll(s: string, p: char -> bool, rep: char)
    requires p(rep)
    ensures All(CollapseRuns(s, p, rep), p) <==> All(s, p)
    decreases |s|
  {
    if s == [] {
    } else if p(s[0]) {
      var t := DropRun(s, p);
      CollapseRunsAll(t, p, rep);
      AllAppend([rep], CollapseRuns(t, p, rep), p);
      DropRunRemoves(s, p);
      SplitAt(s, |s| - |t|);
      AllAppend(s[..|s| - |t|], t, p);
    } else {
      CollapseRunsHead(s, p, rep);
    }
  }

  /** Collapsing introduces no character but `rep`: a class holding `rep` and all of `s` holds the result. */
  lemma {:induction false} CollapseRunsKeepsAll(s: string, p: char -> bool, rep: char, q: char -> bool)
    requires q(rep) && All(s, q)
    ensures All(CollapseRuns(s, p, rep), q)
    decreases |s|
  {
    if s == [] {
    } else if p(s[0]) {
      var t := DropRun(s, p);
      var c := CollapseRuns(t, p, rep);
      assert All(c, q) by {
        AllSlice(s, |s| - |t|, |s|, q);
        CollapseRunsKeepsAll(t, p, rep, q);
      }
      assert CollapseRuns(s, p, rep) == [rep] + c;
      AllAppend([rep], c, q);
    } else {
      var c := CollapseRuns(s[1..], p, rep);
      assert All(c, q) by {
        AllSlice(s, 1, |s|, q);
        CollapseRunsKeepsAll(s[1..], p, rep, q);
      }
      assert CollapseRuns(s, p, rep) == [s[0]] + c;
      AllAppend([s[0]], c, q);
    }
  }

  lemma {:induction false} CollapsedSlice(s: string, i: nat, j: nat, p: char -> bool, rep: char)
    requires i <= j <= |s| && Collapsed(s, p, rep)
    ensures Collapsed(s[i..j], p, rep)
  {
    var t := s[i..j];
    assert forall k :: 0 <= k < |t| ==> t[k] == s[i + k];
    forall k | 0 <= k < |t| - 1
      ensures !(p(t[k]) && p(t[k + 1]))
    {
      assert t[k] == s[i + k] && t[k + 1] == s[i + k + 1];
    }
  }

  lemma {:induction false} NoAdjacentSlice(s: string, i: nat, j: nat, q: char -> bool)
    requires i <= j <= |s| && NoAdjacent(s, q)
    ensures NoAdjacent(s[i..j], q)
  {
    var t := s[i..j];
    forall k | 0 <= k < |t| - 1
      ensures !(q(t[k]) && q(t[k + 1]))
    {
      assert t[k] == s[i + k] && t[k + 1] == s[i + k + 1];
    }
  }

  lemma {:induction false} NoBoundarySuffix(s: string, m: nat, ws: char -> bool)
    requires m <= |s| && NoBoundary(s, ws)
    ensures NoBoundary(s[m..], ws)
  {
    var t := s[m..];
    forall i | 0 <= i < |t| - 1
      ensures !(IsPunct(t[i]) && ws(t[i + 1]))
    {
      assert t[i] == s[m + i] && t[i + 1] == s[m + i + 1];
    }
  }

  lemma {:induction false} ConsNoBoundary(x: char, c: string, ws: char -> bool)
    requires NoBoundary(c, ws)
    requires IsPunct(x) && c != [] ==> !ws(c[0])
    ensures NoBoundary([x] + c, ws)
  {
    var u := [x] + c;
    forall i | 0 <= i < |u| - 1
      ensures !(IsPunct(u[i]) && ws(u[i + 1]))
    {
      if i > 0 {
        assert u[i] == c[i - 1] && u[i + 1] == c[i];
      }
    }
  }

  /** Collapsing white space into a non-punctuation space creates no split point. */
  lemma {:induction false} CollapseKeepsNoBoundary(s: string, ws: char -> bool, rep: char)
    requires ws(rep) && !IsPunct(rep)
    requires NoBoundary(s, ws)
    ensures NoBoundary(CollapseRuns(s, ws, rep), ws)
    decreases |s|
  {
    if s == [] {
    } else if ws(s[0]) {
      var t := DropRun(s, ws);
      NoBoundarySuffix(s, |s| - |t|, ws);
      CollapseKeepsNoBoundary(t, ws, rep);
      ConsNoBoundary(rep, CollapseRuns(t, ws, rep), ws);
    } else {
      NoBoundarySuffix(s, 1, ws);
      CollapseKeepsNoBoundary(s[1..], ws, rep);
      var c := CollapseRuns(s[1..], ws, rep);
      if c != [] && IsPunct(s[0]) {
        CollapseRunsHead(s[1..], ws, rep);
        assert !ws(s[1]);
      }
      ConsNoBoundary(s[0], c, ws);
    }
  }

  // ---------------------------------------------------------------------------
  // Trimming
  // ---------------------------------------------------------------------------

  /** `s` without its trailing run of `strip`-characters. */
  function TrimEnd(s: string, strip: char -> bool): (r: string)
    ensures |r| <= |s| && r == s[..|r|]
    ensures r == [] || !strip(r[|r| - 1])
    decreases |s|
  {
    if s != [] && strip(s[|s| - 1]) then TrimEnd(s[..|s| - 1], strip) else s
  }

  /** What `TrimEnd` removes is all of class `strip`. */
  lemma {:induction false} TrimEndRemoves(s: string, strip: char -> bool)
    ensures All(s[|TrimEnd(s, strip)|..], strip)
    decreases |s|
  {
    if s != [] && strip(s[|s| - 1]) {
      var s' := s[..|s| - 1];
      TrimEndRemoves(s', strip);
      var k := |TrimEnd(s, strip)|;
      assert s[k..] == s'[k..] + [s[|s| - 1]];
      AllAppend(s'[k..], [s[|s| - 1]], strip);
    }
  }

  /** `trim`: `s` without its leading and its trailing run of `strip`-characters. */
  function Trim(s: string, strip: char -> bool): (r: string)
    ensures r != [] ==> !strip(r[0]) && !strip(r[|r| - 1])
  {
    TrimEnd(DropRun(s, strip), strip)
  }

  /** The trimmed string is a slice of the original, with only `strip`-characters around it. */
  lemma {:induction false} TrimSlice(s: string, strip: char -> bool) returns (i: nat, j: nat)
    ensures i <= j <= |s| && Trim(s, strip) == s[i..j]
    ensures All(s[..i], strip) && All(s[j..], strip)
  {
    var d := DropRun(s, strip);
    var r := TrimEnd(d, strip);
    i := |s| - |d|;
    j := i + |r|;
    SliceOfSlice(s, i, |r|);
    assert All(s[..i], strip) by {
      DropRunRemoves(s, strip);
    }
    assert All(s[j..], strip) by {
      TrimEndRemoves(d, strip);
    }
  }

  /** `trim` returns the empty string exactly when every character is stripped. */
  lemma {:induction false} TrimEmpty(s: string, strip: char -> bool)
    ensures Trim(s, strip) == [] <==> All(s, strip)
  {
    var i, j := TrimSlice(s, strip);
    var r := Trim(s, strip);
    if r == [] {
      SplitAt(s, i);
      assert s[i..] == s[j..];
      AllAppend(s[..i], s[i..], strip);
    } else {
      assert r[0] == s[i] && !strip(s[i]);
    }
  }

  /** A string that begins and ends with a kept character is its own trim. */
  lemma TrimFixpoint(s: string, strip: char -> bool)
    requires s == [] || (!strip(s[0]) && !strip(s[|s| - 1]))
    ensures Trim(s, strip) == s
  {
  }

  /** Trimming a string that ends with a kept character keeps that last character. */
  lemma {:induction false} TrimKeepsLast(s: string, strip: char -> bool)
    requires s != [] && !strip(s[|s| - 1])
    ensures Trim(s, strip) != [] && Trim(s, strip)[|Trim(s, strip)| - 1] == s[|s| - 1]
  {
    var i, j := TrimSlice(s, strip);
  }

  lemma {:induction false} DropRunAppend(a: string, b: string, p: char -> bool)
    requires a != [] && !p(a[|a| - 1])
    ensures DropRun(a + b, p) == DropRun(a, p) + b
    decreases |a|
  {
    if p(a[0]) {
      assert (a + b)[1..] == a[1..] + b;
      DropRunAppend(a[1..], b, p);
    }
  }

  lemma {:induction false} TrimEndAppend(a: string, b: string, strip: char -> bool)
    requires b != [] && !strip(b[0])
    ensures TrimEnd(a + b, strip) == a + TrimEnd(b, strip)
    decreases |b|
  {
    if strip(b[|b| - 1]) {
      assert (a + b)[..|a + b| - 1] == a + b[..|b| - 1];
      TrimEndAppend(a, b[..|b| - 1], strip);
    }
  }

  /** A string whose last character is kept trims to itself without its leading run. */
  lemma {:induction false} TrimKeptEnd(a: string, strip: char -> bool)
    requires a != [] && !strip(a[|a| - 1])
    ensures DropRun(a, strip) != [] && DropRun(a, strip)[|DropRun(a, strip)| - 1] == a[|a| - 1]
    ensures Trim(a, strip) == DropRun(a, strip)
  {
    TrimKeepsLast(a, strip);
    var d := DropRun(a, strip);
    assert d == a[|a| - |d|..];
  }

  /** A trailing space after a kept character is trimmed away. */
  lemma {:induction false} TrimSpaceEnd(a: string, strip: char -> bool)
    requires strip(' ')
    requires a != [] && !strip(a[|a| - 1])
    ensures Trim(a + [' '], strip) == Trim(a, strip)
  {
    TrimKeptEnd(a, strip);
    var d := DropRun(a, strip);
    DropRunAppend(a, [' '], strip);
    assert (d + [' '])[..|d + [' ']| - 1] == d;
  }

  /** Trimming a sentence, one space and more text trims each side and keeps the space between. */
  lemma {:induction false} TrimAroundSpace(a: string, b: string, strip: char -> bool)
    requires strip(' ')
    requires a != [] && !strip(a[|a| - 1])
    requires b != [] && !strip(b[0])
    ensures Trim(a + [' '] + b, strip) == Trim(a, strip) + " " + Trim(b, strip)
  {
    TrimKeptEnd(a, strip);
    var d := DropRun(a, strip);
    assert a + [' '] + b == a + ([' '] + b);
    DropRunAppend(a, [' '] + b, strip);
    assert d + ([' '] + b) == (d + [' ']) + b;
    TrimEndAppend(d + [' '], b, strip);
    assert DropRun(b, strip) == b;
  }

  // ---------------------------------------------------------------------------
  // Splitting at `(?<=[.!?])\s+`
  // ---------------------------------------------------------------------------

  /**
   * The pieces that splitting `cur + s` at the pattern `/(?<=[.!?])\s+/` yields, when the
   * scan has reached the end of `cur` (the piece being built) and no split point lies in it.
   * A split point needs the character before it to be punctuation; at the start of a
   * piece that character is white space or absent, so only a non-empty `cur` can end in
   * one. The greedy `\s+` consumes the whole run, which belongs to neither piece. As in
   * both languages' split, pieces are not filtered: the last one may be empty.
   */
  function Pieces(cur: string, s: string, ws: char -> bool): (r: seq<string>)
    ensures |r| >= 1
    decreases |s|
  {
    if s == [] then [cur]
    else if EndsSentence(cur) && ws(s[0]) then [cur] + Pieces([], DropRun(s, ws), ws)
    else Pieces(cur + [s[0]], s[1..], ws)
  }

  /** Every piece but the last ends with the punctuation of its split point. */
  lemma {:induction false} PiecesEndings(cur: string, s: string, ws: char -> bool)
    ensures AllButLastEnd(Pieces(cur, s, ws))
    decreases |s|
  {
    if s == [] {
    } else if EndsSentence(cur) && ws(s[0]) {
      var rest := Pieces([], DropRun(s, ws), ws);
      PiecesEndings([], DropRun(s, ws), ws);
      var r := [cur] + rest;
      forall k | 0 <= k < |r| - 1
        ensures EndsSentence(r[k])
      {
        if k > 0 {
          assert r[k] == rest[k - 1];
        }
      }
    } else {
      PiecesEndings(cur + [s[0]], s[1..], ws);
    }
  }

  /** Trims every piece and keeps the non-empty ones, in order (`map(trim)` then `filter`). */
  function Tidy(pieces: seq<string>, strip: char -> bool): (r: seq<string>)
    ensures |r| <= |pieces|
  {
    if pieces == [] then []
    else
      var t := Trim(pieces[0], strip);
      (if t == [] then [] else [t]) + Tidy(pieces[1..], strip)
  }

  lemma {:induction false} TidyCons(x: string, xs: seq<string>, strip: char -> bool)
    ensures Tidy([x] + xs, strip) == (if Trim(x, strip) == [] then [] else [Trim(x, strip)]) + Tidy(xs, strip)
  {
    assert ([x] + xs)[0] == x && ([x] + xs)[1..] == xs;
  }

  /** Every element `Tidy` keeps is non-empty and trimmed at both ends. */
  lemma {:induction false} TidyTrimmed(pieces: seq<string>, strip: char -> bool)
    ensures forall k :: 0 <= k < |Tidy(pieces, strip)| ==> Trimmed(Tidy(pieces, strip)[k], strip)
  {
    if pieces != [] {
      var t := Trim(pieces[0], strip);
      var rest := Tidy(pieces[1..], strip);
      TidyTrimmed(pieces[1..], strip);
      var r := (if t == [] then [] else [t]) + rest;
      assert Tidy(pieces, strip) == r;
      forall k | 0 <= k < |r|
        ensures Trimmed(r[k], strip)
      {
        if t != [] && k > 0 {
          assert r[k] == rest[k - 1];
        }
      }
    }
  }

  lemma {:induction false} TidyHeadNonEmpty(pieces: seq<string>, strip: char -> bool)
    ensures Tidy(pieces, strip) == [] || Tidy(pieces, strip)[0] != []
  {
    if pieces != [] && Trim(pieces[0], strip) == [] {
      TidyHeadNonEmpty(pieces[1..], strip);
      assert Tidy(pieces, strip) == Tidy(pieces[1..], strip);
    }
  }

  /** `xs.join(sep)` / `implode(sep, xs)`. */
  function Join(xs: seq<string>, sep: string): string
  {
    if xs == [] then []
    else if |xs| == 1 then xs[0]
    else xs[0] + sep + Join(xs[1..], sep)
  }

  lemma {:induction false} JoinCons(x: string, xs: seq<string>, sep: string)
    requires xs != []
    ensures Join([x] + xs, sep) == x + sep + Join(xs, sep)
  {
    assert ([x] + xs)[1..] == xs;
  }

  lemma {:induction false} JoinEmpty(xs: seq<string>, sep: string)
    requires xs != [] ==> xs[0] != []
    ensures Join(xs, sep) == [] <==> xs == []
  {
    if xs != [] {
      assert |Join(xs, sep)| >= |xs[0]|;
    }
  }

  lemma {:induction false} AllButLastEndTail(xs: seq<string>)
    requires xs != [] && AllButLastEnd(xs)
    ensures AllButLastEnd(xs[1..])
  {
    forall k | 0 <= k < |xs[1..]| - 1
      ensures EndsSentence(xs[1..][k])
    {
      assert xs[1..][k] == xs[k + 1];
    }
  }

  lemma {:induction false} AllButLastEndCons(x: string, xs: seq<string>)
    requires EndsSentence(x) && AllButLastEnd(xs)
    ensures AllButLastEnd([x] + xs)
  {
    var r := [x] + xs;
    forall k | 0 <= k < |r| - 1
      ensures EndsSentence(r[k])
    {
      if k > 0 {
        assert r[k] == xs[k - 1];
      }
    }
  }

  /** Trimming and filtering keeps the punctuation at the end of every piece but the last. */
  lemma {:induction false} TidyKeepsEndings(pieces: seq<string>, strip: char -> bool)
    requires !strip('.') && !strip('!') && !strip('?')
    requires AllButLastEnd(pieces)
    ensures AllButLastEnd(Tidy(pieces, strip))
  {
    if |pieces| > 1 {
      var p0 := pieces[0];
      assert EndsSentence(p0);
      var t := Trim(p0, strip);
      assert t != [] && EndsSentence(t) by {
        TrimKeepsLast(p0, strip);
      }
      AllButLastEndTail(pieces);
      TidyKeepsEndings(pieces[1..], strip);
      assert Tidy(pieces, strip) == [t] + Tidy(pieces[1..], strip);
      AllButLastEndCons(t, Tidy(pieces[1..], strip));
    }
  }

  /** With no split point anywhere, the whole text is one piece. */
  lemma {:induction false} PiecesWhole(cur: string, s: string, ws: char -> bool)
    requires NoBoundary(cur + s, ws)
    ensures Pieces(cur, s, ws) == [cur + s]
    decreases |s|
  {
    if s != [] {
      if cur != [] {
        assert (cur + s)[|cur| - 1] == cur[|cur| - 1] && (cur + s)[|cur|] == s[0];
      }
      assert !(EndsSentence(cur) && ws(s[0]));
      ShiftFirst(cur, s);
      PiecesWhole(cur + [s[0]], s[1..], ws);
    } else {
      assert cur + s == cur;
    }
  }

  // ---------------------------------------------------------------------------
  // Round trip of the splitter
  // ---------------------------------------------------------------------------

  /** The round trip at a split point followed by nothing but the dropped space. */
  lemma {:induction false} JoinTidyAtLastBoundary(cur: string, rest: seq<string>, strip: char -> bool)
    requires strip(' ') && !strip('.') && !strip('!') && !strip('?')
    requires EndsSentence(cur)
    requires Join(Tidy(rest, strip), " ") == []
    ensures Join(Tidy([cur] + rest, strip), " ") == Trim(cur + [' '], strip)
  {
    var t := Trim(cur, strip);
    assert Tidy(rest, strip) == [] by {
      TidyHeadNonEmpty(rest, strip);
      JoinEmpty(Tidy(rest, strip), " ");
    }
    assert Tidy([cur] + rest, strip) == [t] by {
      TidyCons(cur, rest, strip);
      TrimKeepsLast(cur, strip);
    }
    assert Join([t], " ") == t;
    assert Trim(cur + [' '], strip) == t by {
      TrimSpaceEnd(cur, strip);
    }
  }

  /** The round trip at a split point: the piece `cur`, the dropped space, then the rest. */
  lemma {:induction false} JoinTidyAtBoundary(cur: string, rest: seq<string>, s': string, strip: char -> bool)
    requires strip(' ') && !strip('.') && !strip('!') && !strip('?')
    requires EndsSentence(cur)
    requires s' != [] && !strip(s'[0])
    requires Join(Tidy(rest, strip), " ") == Trim(s', strip)
    ensures Join(Tidy([cur] + rest, strip), " ") == Trim(cur + [' '] + s', strip)
  {
    var t := Trim(cur, strip);
    var tail := Tidy(rest, strip);
    assert Tidy([cur] + rest, strip) == [t] + tail by {
      TidyCons(cur, rest, strip);
      TrimKeepsLast(cur, strip);
    }
    assert tail != [] by {
      TrimEmpty(s', strip);
    }
    assert Join([t] + tail, " ") == t + " " + Trim(s', strip) by {
      JoinCons(t, tail, " ");
    }
    assert Trim(cur + [' '] + s', strip) == t + " " + Trim(s', strip) by {
      TrimAroundSpace(cur, s', strip);
    }
  }

  /** The round trip after a split point, whether or not text follows the dropped space. */
  lemma {:induction false} JoinTidyAfterSplit(cur: string, rest: seq<string>, s': string, strip: char -> bool)
    requires strip(' ') && !strip('.') && !strip('!') && !strip('?')
    requires EndsSentence(cur)
    requires s' == [] || !strip(s'[0])
    requires Join(Tidy(rest, strip), " ") == Trim(s', strip)
    ensures Join(Tidy([cur] + rest, strip), " ") == Trim(cur + [' '] + s', strip)
  {
    if s' == [] {
      assert Join(Tidy(rest, strip), " ") == [] by {
        TrimFixpoint(s', strip);
      }
      JoinTidyAtLastBoundary(cur, rest, strip);
      AppendEmpty(cur + [' '], s');
    } else {
      JoinTidyAtBoundary(cur, rest, s', strip);
    }
  }

  /** At a split point the current piece is complete and the collapsed run of white space is dropped. */
  lemma {:induction false} PiecesAtSplit(cur: string, s: string, ws: char -> bool)
    requires s != [] && EndsSentence(cur) && ws(s[0])
    requires Collapsed(s, ws, ' ')
    ensures s[0] == ' ' && (|s| > 1 ==> !ws(s[1]))
    ensures Pieces(cur, s, ws) == [cur] + Pieces([], s[1..], ws)
  {
    assert |s| > 1 ==> !ws(s[1]);
    assert DropRun(s, ws) == s[1..];
  }

  lemma {:induction false} CollapsedTail(s: string, ws: char -> bool, strip: char -> bool)
    requires s != [] && Collapsed(s, ws, ' ') && Within(s, strip, ws)
    ensures Collapsed(s[1..], ws, ' ') && Within(s[1..], strip, ws)
  {
    CollapsedSuffix(s, 1, ws, ' ');
    assert forall i :: 0 <= i < |s[1..]| ==> s[1..][i] == s[i + 1];
  }

  /** The round trip where the scan of `cur + s` stands at a split point. */
  lemma {:induction false} JoinTidyAtSplit(cur: string, s: string, ws: char -> bool, strip: char -> bool)
    requires ws(' ') && strip(' ')
    requires !strip('.') && !strip('!') && !strip('?')
    requires Collapsed(s, ws, ' ') && Within(s, strip, ws)
    requires s != [] && EndsSentence(cur) && ws(s[0])
    ensures Join(Tidy(Pieces(cur, s, ws), strip), " ") == Trim(cur + s, strip)
    decreases |s|, 0
  {
    var s' := s[1..];
    CollapsedTail(s, ws, strip);
    PiecesAtSplit(cur, s, ws);
    JoinTidyPieces([], s', ws, strip);
    assert [] + s' == s';
    JoinTidyAfterSplit(cur, Pieces([], s', ws), s', strip);
    ShiftFirst(cur, s);
    assert [s[0]] == [' '];
  }

  /**
   * Round trip: on collapsed text, joining the trimmed non-empty pieces with single spaces
   * gives back the trimmed text. `strip` may differ from `ws` (PHP's `trim` list is not
   * PCRE's `\s`), as long as every strippable character of the text is white space.
   */
  lemma {:induction false} JoinTidyPieces(cur: string, s: string, ws: char -> bool, strip: char -> bool)
    requires ws(' ') && strip(' ')
    requires !strip('.') && !strip('!') && !strip('?')
    requires Collapsed(s, ws, ' ') && Within(s, strip, ws)
    ensures Join(Tidy(Pieces(cur, s, ws), strip), " ") == Trim(cur + s, strip)
    decreases |s|, 1
  {
    if s == [] {
      assert cur + s == cur;
      TidyCons(cur, [], strip);
      assert [cur] + [] == [cur];
    } else if EndsSentence(cur) && ws(s[0]) {
      JoinTidyAtSplit(cur, s, ws, strip);
    } else {
      CollapsedTail(s, ws, strip);
      assert Pieces(cur, s, ws) == Pieces(cur + [s[0]], s[1..], ws);
      JoinTidyPieces(cur + [s[0]], s[1..], ws, strip);
      ShiftFirst(cur, s);
    }
  }
}
