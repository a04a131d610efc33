/** LoadMultiLineText on the loader's own buffer: newlines of either convention are compacted to single
    '\n' characters where they stand, and the text is ended by a NUL in place. */
module IniBlocks {
  import opened IniText

  /** The text that a C string at place p of the buffer holds. */
  predicate TextAt(a: array<char>, p: nat, t: string)
    reads a
  {
    p + |t| < a.Length && a[p..p + |t|] == t && a[p + |t|] == '\0'
  }

  /** From p on, the buffer's text ends at the NUL at e. */
  predicate EndsAt(buffer: seq<char>, p: nat, e: nat) {
    p <= e < |buffer| && buffer[e] == '\0' && '\0' !in buffer[p..e]
  }

  lemma EndedInside(x: seq<char>, p: nat, e: nat)
    requires EndsAt(x, p, e)
    ensures p <= e < |x| && x[e] == '\0'
  {
  }

  lemma EndedFurtherOn(x: seq<char>, y: seq<char>, start: nat, p: nat, e: nat)
    requires |x| == |y| && EndsAt(y, start, e) && start <= p <= e && x[p..] == y[p..]
    ensures EndsAt(x, p, e) && x[p..e] == y[p..e]
  {
    assert x[p..e] == x[p..][..e - p] == y[p..][..e - p] == y[p..e];
    assert forall c | c in y[p..e] :: c in y[start..e];
    assert x[e] == x[p..][e - p];
  }

  function Prepend(lines: seq<string>, b: Block): Block {
    b.(lines := lines + b.lines)
  }

  lemma {:induction false} OutputSnoc(lines: seq<string>, x: string)
    ensures OutputLines(lines + [x], "\n") == OutputLines(lines, "\n") + x + "\n"
  {
    if lines == [] {
      assert lines + [x] == [x];
    } else {
      OutputSnoc(lines[1..], x);
      assert (lines + [x])[1..] == lines[1..] + [x];
    }
  }

  /** Lines written one after another and the joined lines differ in the last newline only. */
  lemma {:induction false} OutputIsJoin(lines: seq<string>)
    requires lines != []
    ensures OutputLines(lines, "\n") == Join(lines) + "\n"
  {
    if |lines| > 1 {
      OutputIsJoin(lines[1..]);
      assert lines == [lines[0]] + lines[1..];
      JoinCons(lines[0], lines[1..]);
    } else {
      assert OutputLines(lines[1..], "\n") == "";
    }
  }

  lemma JoinSnoc(lines: seq<string>, x: string)
    ensures Join(lines + [x]) == OutputLines(lines, "\n") + x
  {
    if lines == [] {
      assert lines + [x] == [x];
    } else {
      OutputIsJoin(lines);
      assert (lines + [x])[..|lines|] == lines;
    }
  }

  method FindLineEnd(a: array<char>, p: nat, ghost e: nat) returns (q: nat)
    requires EndsAt(a[..], p, e)
    ensures q == p + LineEnd(a[p..e])
  {
    q := p;
    while a[q] != '\0' && !IsNewLine(a[q])
      invariant p <= q <= e
      invariant forall i | 0 <= i < q - p :: !IsNewLine(a[p..e][i])
      decreases e - q
    {
      assert a[p..e][q - p] == a[q];
      q := q + 1;
    }
    assert q == e || a[p..e][q - p] == a[q];
  }

  /** memmove to a lower place, and the NUL behind. */
  method MoveDown(a: array<char>, to: nat, from: nat, n: nat)
    requires to < from <= from + n < a.Length
    modifies a
    ensures a[to..to + n] == old(a[from..from + n]) && a[to + n] == '\0'
    ensures a[..to] == old(a[..to]) && a[to + n + 1..] == old(a[to + n + 1..])
  {
    ghost var was := a[..];
    var i := 0;
    while i < n
      invariant i <= n
      invariant forall j | 0 <= j < a.Length :: a[j] == was[if to <= j < to + i then j + from - to else j]
    {
      a[to + i] := a[from + i];
      i := i + 1;
    }
    a[to + n] := '\0';
    Moved(a[..], was, to, from, n);
  }

  lemma Moved(x: seq<char>, y: seq<char>, to: nat, from: nat, n: nat)
    requires |x| == |y| && to < from <= from + n < |x|
    requires forall j | 0 <= j < |x| && j != to + n :: x[j] == y[if to <= j < to + n then j + from - to else j]
    ensures x[to..to + n] == y[from..from + n]
    ensures x[..to] == y[..to] && x[to + n + 1..] == y[to + n + 1..]
  {
    var a, b := x[to..to + n], y[from..from + n];
    assert forall k | 0 <= k < n :: a[k] == b[k];
  }

  /** The next line is moved down to d and ended, for the comparison with the tag. */
  method TakeLine(a: array<char>, d: nat, p: nat, ghost e: nat) returns (q: nat, endOfLine: char)
    requires d <= p && EndsAt(a[..], p, e)
    modifies a
    ensures var t := old(a[p..e]);
      && q == p + LineEnd(t)
      && endOfLine == old(a[q])
      && (endOfLine == '\0' <==> q == e)
      && TextAt(a, d, t[..LineEnd(t)])
    ensures a[q] == '\0' && a[q + 1..] == old(a[q + 1..]) && a[..d] == old(a[..d])
  {
    hide LineEnd;
    ghost var t := a[p..e];
    q := FindLineEnd(a, p, e);
    assert q < e ==> t[q - p] == a[q] && a[q] in t;
    var n := q - p;
    assert a[p..q] == t[..n];
    endOfLine := a[q];
    if d < p {
      MoveDown(a, d, p, n);
      assert a[q + 1..] == old(a[q + 1..]);
    }
    a[q] := '\0';
    assert a[d..d + n] == t[..n];
  }

  /** The newline at p is put back and skipped, and one '\n' is put at d. */
  method TakeNewLine(a: array<char>, d: nat, p: nat, endOfLine: char, ghost e: nat) returns (q: nat)
    requires d <= p < e < a.Length && a[e] == '\0' && IsNewLine(endOfLine)
    modifies a
    ensures p < q <= e && a[q..e] == SkipNewLine([endOfLine] + old(a[p + 1..e]))
    ensures a[q..] == old(a[q..]) && a[..d] == old(a[..d]) && a[d] == '\n'
  {
    a[p] := endOfLine;
    q := if a[p] == '\r' && a[p + 1] == '\n' then p + 2 else p + 1;
    a[d] := '\n';
  }

  lemma LineAndRest(t: string, n: nat)
    requires n < |t|
    ensures t[n..] == [t[n]] + t[n + 1..]
  {
  }

  lemma BlockGoesOn(nocase: bool, t: string, tag: string)
    requires !Same(nocase, t[..LineEnd(t)], tag) && LineEnd(t) < |t|
    ensures LoadBlock(nocase, t, tag)
         == Prepend([t[..LineEnd(t)]], LoadBlock(nocase, SkipNewLine(t[LineEnd(t)..]), tag))
  {
    hide Same, LineEnd, SkipNewLine;
  }

  lemma BlockEnds(nocase: bool, t: string, tag: string)
    requires Same(nocase, t[..LineEnd(t)], tag) || LineEnd(t) == |t|
    ensures LoadBlock(nocase, t, tag)
         == if Same(nocase, t[..LineEnd(t)], tag)
            then Block([], if LineEnd(t) == |t| then [] else SkipNewLine(t[LineEnd(t)..]), true)
            else Block([t[..LineEnd(t)]], [], false)
  {
    hide Same, SkipNewLine;
    assert LineEnd(t) == |t| ==> t[..LineEnd(t)] == t;
  }

  lemma PrependTwice(done: seq<string>, line: string, b: Block)
    ensures Prepend(done, Prepend([line], b)) == Prepend(done + [line], b)
  {
    assert done + ([line] + b.lines) == (done + [line]) + b.lines;
  }

  lemma SameTail(x: seq<char>, y: seq<char>, m: nat, n: nat)
    requires |x| == |y| && m <= n <= |x| && x[m..] == y[m..]
    ensures x[n..] == y[n..]
  {
    assert x[n..] == x[m..][n - m..];
    assert y[n..] == y[m..][n - m..];
  }

  lemma SamePart(x: seq<char>, y: seq<char>, m: nat, n: nat)
    requires |x| == |y| && m <= n <= |x| && x[m..] == y[m..]
    ensures x[m..n] == y[m..n]
  {
    assert x[m..n] == x[m..][..n - m];
    assert y[m..n] == y[m..][..n - m];
  }

  lemma Grown(x: seq<char>, y: seq<char>, m: nat, n: nat, r: nat)
    requires |x| == |y| && m <= n <= r <= |x| && x[..n] == y[..n]
    ensures x[m..r] == y[m..n] + x[n..r] && x[m..n] == y[m..n]
  {
    assert x[m..n] == x[..n][m..];
    assert y[m..n] == y[..n][m..];
    assert x[m..r] == x[m..n] + x[n..r];
  }

  lemma SameHead(x: seq<char>, y: seq<char>, m: nat, n: nat)
    requires |x| == |y| && m <= n <= |x| && x[..n] == y[..n]
    ensures x[..m] == y[..m]
  {
    assert x[..m] == x[..n][..m];
    assert y[..m] == y[..n][..m];
  }

  /** One line and its newline are moved down. */
  method CompactLine(nocase: bool, a: array<char>, d: nat, p: nat, tag: string, ghost e: nat)
      returns (tagged: bool, endOfLine: char, q: nat, r: nat)
    requires d <= p && EndsAt(a[..], p, e)
    modifies a
    ensures a[..d] == old(a[..d])
    ensures var t := old(a[p..e]); var n := LineEnd(t);
      && tagged == Same(nocase, t[..n], tag)
      && endOfLine == old(a[p + n])
      && (endOfLine == '\0' <==> n == |t|)
      && (if tagged || endOfLine == '\0' then
            q == p + n && r == d + n && TextAt(a, d, t[..n]) && a[q] == '\0' && a[q + 1..] == old(a[q + 1..])
          else
            && p + n < q <= e && r == d + n + 1 <= q && a[d..r] == t[..n] + "\n"
            && a[q..] == old(a[q..]) && a[q..e] == SkipNewLine(t[n..]))
  {
    hide Same, LineEnd, SkipNewLine;
    ghost var was := a[..];
    ghost var t := a[p..e];
    q, endOfLine := TakeLine(a, d, p, e);
    var n := q - p;
    r := d + n;
    tagged := Same(nocase, a[d..r], tag);
    if !tagged && endOfLine != '\0' {
      ghost var mid := a[..];
      ghost var i := q;
      LineAndRest(t, n);
      assert mid[q + 1..e] == t[n + 1..] by { assert mid[q + 1..] == was[q + 1..]; }
      q := TakeNewLine(a, r, q, endOfLine, e);
      r := r + 1;
      SameTail(mid, was, i + 1, q);
      SameHead(a[..], mid, d, r - 1);
    }
  }

  /** What the buffer holds when the lines before the tag, or before the end, are compacted. */
  ghost predicate Compacted(nocase: bool, a: array<char>, was: seq<char>, start: nat, tag: string, e: nat,
                            tagged: bool, endOfLine: char, p: nat, d: nat, done: seq<string>, from: nat)
    reads a
  {
    && start <= d <= from <= p <= e < a.Length == |was| && (done == [] <==> from == start)
    && a[..start] == was[..start] && a[start..d] == OutputLines(done, "\n")
    && (var t := was[from..e]; var n := LineEnd(t);
        && LoadBlock(nocase, was[start..e], tag) == Prepend(done, LoadBlock(nocase, t, tag))
        && p == from + n && TextAt(a, d, t[..n]) && tagged == Same(nocase, t[..n], tag))
    && endOfLine == was[p] && (endOfLine == '\0' <==> p == e) && (tagged || p == e)
    && a[p] == '\0' && a[p + 1..] == was[p + 1..]
  }

  /** The lines up to the tag's line or to the last one, which is moved down and ended too. `done` are the
      lines before it, and it stood at `from`. */
  method CompactLines(nocase: bool, a: array<char>, start: nat, tag: string, ghost e: nat)
      returns (tagged: bool, endOfLine: char, p: nat, d: nat, ghost done: seq<string>, ghost from: nat)
    requires EndsAt(a[..], start, e)
    modifies a
    ensures Compacted(nocase, a, old(a[..]), start, tag, e, tagged, endOfLine, p, d, done, from)
  {
    hide LoadBlock, Same, LineEnd, SkipNewLine, OutputLines, Join, TextAt, EndsAt;
    EndedInside(a[..], start, e);
    p, d, done, from := start, start, [], start;
    ghost var was := a[..];
    ghost var s := was[start..e];
    EmptyOutput();
    PrependNone(LoadBlock(nocase, s, tag));
    while true
      invariant start <= d <= p <= e && (done == [] <==> p == start)
      invariant a[p..] == was[p..] && a[..start] == was[..start]
      invariant a[start..d] == OutputLines(done, "\n")
      invariant LoadBlock(nocase, s, tag) == Prepend(done, LoadBlock(nocase, was[p..e], tag))
      decreases e - p
    {
      ghost var t := was[p..e];
      ghost var mid := a[..];
      from := p;
      EndedFurtherOn(mid, was, start, p, e);
      var r;
      tagged, endOfLine, p, r := CompactLine(nocase, a, d, p, tag, e);
      SameHead(a[..], mid, start, d);
      if tagged || endOfLine == '\0' {
        SameTail(mid, was, from, p + 1);
        Grown(a[..], mid, start, d, d);
        break;
      }
      OneMoreLine(nocase, a[..], mid, was, start, d, r, from, p, e, done, tag);
      done := done + [t[..LineEnd(t)]];
      d := r;
    }
  }

  /** The loop's invariant on the buffer's values after one more line. */
  lemma OneMoreLine(nocase: bool, x: seq<char>, mid: seq<char>, was: seq<char>, start: nat, d: nat, r: nat,
                    from: nat, p: nat, e: nat, done: seq<string>, tag: string)
    requires |x| == |mid| == |was| && start <= d <= from <= p <= e < |x| && d <= r <= p
    requires x[..d] == mid[..d] && x[p..] == mid[p..] && mid[from..] == was[from..]
    requires mid[start..d] == OutputLines(done, "\n")
    requires var t := was[from..e]; var n := LineEnd(t);
      && LoadBlock(nocase, was[start..e], tag) == Prepend(done, LoadBlock(nocase, t, tag))
      && n < |t| && !Same(nocase, t[..n], tag)
      && x[d..r] == t[..n] + "\n" && x[p..e] == SkipNewLine(t[n..])
    ensures x[p..] == was[p..]
    ensures var done' := done + [was[from..e][..LineEnd(was[from..e])]];
      && x[start..r] == OutputLines(done', "\n")
      && LoadBlock(nocase, was[start..e], tag) == Prepend(done', LoadBlock(nocase, was[p..e], tag))
  {
    hide LoadBlock, Same, LineEnd, SkipNewLine, OutputLines;
    var t := was[from..e];
    SameTail(mid, was, from, p);
    SamePart(x, was, p, e);
    BlockGoesOn(nocase, t, tag);
    OutputSnoc(done, t[..LineEnd(t)]);
    PrependTwice(done, t[..LineEnd(t)], LoadBlock(nocase, was[p..e], tag));
    Grown(x, mid, start, d, r);
  }

  // ---------------------------------------------------------------- the end of a block

  /** The block ended without the tag: its text is that of the lines before and of the last line. */
  lemma LastLine(nocase: bool, s: string, t: string, tag: string, done: seq<string>)
    requires LoadBlock(nocase, s, tag) == Prepend(done, LoadBlock(nocase, t, tag))
    requires !Same(nocase, t[..LineEnd(t)], tag) && LineEnd(t) == |t|
    ensures var b := LoadBlock(nocase, s, tag);
      b.lines != [] && b.rest == [] && BlockValue(s, b) == OutputLines(done, "\n") + t[..LineEnd(t)]
  {
    hide LoadBlock, Same, LineEnd, SkipNewLine, OutputLines, Join, Prepend, BlockValue;
    BlockEnds(nocase, t, tag);
    LastLineJoins(s, done, t[..LineEnd(t)]);
  }

  lemma LastLineJoins(s: string, done: seq<string>, line: string)
    ensures var b := Prepend(done, Block([line], [], false));
      b.lines != [] && b.rest == [] && BlockValue(s, b) == OutputLines(done, "\n") + line
  {
    hide Join, OutputLines;
    JoinSnoc(done, line);
  }

  lemma TagLine(nocase: bool, s: string, t: string, tag: string, done: seq<string>)
    requires LoadBlock(nocase, s, tag) == Prepend(done, LoadBlock(nocase, t, tag))
    requires Same(nocase, t[..LineEnd(t)], tag)
    ensures LoadBlock(nocase, s, tag).lines == done && LineEnd(t) == |tag|
    ensures LoadBlock(nocase, s, tag).rest == if LineEnd(t) == |t| then [] else SkipNewLine(t[LineEnd(t)..])
    ensures done != [] ==> OutputLines(done, "\n") == Join(done) + "\n"
    ensures BlockValue(s, LoadBlock(nocase, s, tag)) == if done == [] then s else Join(done)
  {
    hide LoadBlock, Same, LineEnd, SkipNewLine, OutputLines, Join;
    BlockEnds(nocase, t, tag);
    SameLength(nocase, t[..LineEnd(t)], tag);
    assert done + [] == done;
    if done != [] {
      OutputIsJoin(done);
    }
  }

  lemma SameLength(nocase: bool, x: string, y: string)
    requires Same(nocase, x, y)
    ensures |x| == |y|
  {
  }

  lemma Glue(a: array<char>, p: nat, d: nat, x: string, y: string)
    requires p <= d <= a.Length && a[p..d] == x && TextAt(a, d, y)
    ensures TextAt(a, p, x + y)
  {
    assert a[p..d + |y|] == a[p..d] + a[d..d + |y|];
  }

  lemma TextIs(a: array<char>, p: nat, t: string)
    requires TextAt(a, p, t)
    ensures p + |t| < a.Length && a[p..p + |t|] == t
  {
  }

  lemma WholeTail(x: seq<char>, y: seq<char>, p: nat)
    requires |x| == |y| && p < |x| && x[p] == y[p] && x[p + 1..] == y[p + 1..]
    ensures x[p..] == y[p..]
  {
    assert x[p..] == [x[p]] + x[p + 1..] && y[p..] == [y[p]] + y[p + 1..];
  }

  lemma Shorter(a: array<char>, y: seq<char>, m: nat, n: nat, v: string)
    requires a.Length == |y| && m < n <= |y| && a[..n - 1] == y[..n - 1] && y[m..n] == v + "\n" && a[n - 1] == '\0'
    ensures TextAt(a, m, v)
  {
    assert a[m..n - 1] == a[..n - 1][m..] == y[..n - 1][m..] == y[m..n][..|v|];
  }

  lemma WholeText(a: array<char>, y: seq<char>, m: nat, n: nat, e: nat)
    requires a.Length == |y| && m <= n <= e < |y| && a[m..n] == y[m..n] && a[n..] == y[n..] && y[e] == '\0'
    ensures TextAt(a, m, y[m..e])
  {
    assert a[m..e] == a[m..n] + a[n..e];
    assert y[m..e] == y[m..n] + y[n..e];
    SamePart(a[..], y, n, e);
    assert a[e] == a[n..][e - n];
  }

  /** The value is ended before its last newline, and the newline of the tag's line is put back. */
  method EndValue(a: array<char>, d: nat, p: nat, endOfLine: char, ghost was: seq<char>, ghost e: nat)
      returns (q: nat)
    requires 0 < d <= p <= e < a.Length == |was| && was[e] == '\0'
    requires endOfLine == was[p] && (endOfLine == '\0' <==> p == e) && (p < e ==> IsNewLine(endOfLine))
    requires a[p] == '\0' && a[p + 1..] == was[p + 1..]
    modifies a
    ensures a[..d - 1] == old(a[..d - 1]) && a[d - 1] == '\0' && a[d..p] == old(a[d..p])
    ensures p <= q <= e && a[p..] == was[p..] && a[q..] == was[q..]
    ensures a[q..e] == if p == e then [] else SkipNewLine(was[p..e])
  {
    hide SkipNewLine;
    a[d - 1] := '\0';
    q := p;
    if endOfLine != '\0' {
      a[p] := endOfLine;
      NewLineEnds(was, p, e);
      q := if a[p] == '\r' && a[p + 1] == '\n' then p + 2 else p + 1;
    }
    WholeTail(a[..], was, p);
    SameTail(a[..], was, p, q);
    SamePart(a[..], was, q, e);
  }

  /** Where the text goes on behind the newline at p. */
  lemma NewLineEnds(was: seq<char>, p: nat, e: nat)
    requires p < e < |was| && was[e] == '\0'
    ensures var q := if was[p] == '\r' && was[p + 1] == '\n' then p + 2 else p + 1;
      q <= e && was[q..e] == SkipNewLine(was[p..e])
  {
  }

  /** What follows the tag's line: the value is ended, unless there was no line before the tag. */
  method EndBlock(a: array<char>, start: nat, d: nat, p: nat, endOfLine: char, ghost done: seq<string>,
                  ghost was: seq<char>, ghost e: nat)
      returns (q: nat)
    requires 0 < start <= d <= p <= e < a.Length == |was| && was[e] == '\0'
    requires endOfLine == was[p] && (endOfLine == '\0' <==> p == e) && (p < e ==> IsNewLine(endOfLine))
    requires a[p] == '\0' && a[p + 1..] == was[p + 1..]
    requires done == [] ==> d == start && a[start..p] == was[start..p]
    requires done != [] ==> a[start..d] == Join(done) + "\n"
    modifies a
    ensures a[..start - 1] == old(a[..start - 1])
    ensures p <= q <= e && a[q..] == was[q..]
    ensures a[q..e] == if p == e then [] else SkipNewLine(was[p..e])
    ensures TextAt(a, start, if done == [] then was[start..e] else Join(done))
  {
    hide SkipNewLine, Join, TextAt;
    ghost var mid := a[..];
    q := EndValue(a, d, p, endOfLine, was, e);
    SameHead(a[..], mid, start - 1, d - 1);
    if done == [] {
      WholeText(a, was, start, p, e);
    } else {
      Shorter(a, mid, start, d, Join(done));
    }
  }

  lemma HeadStays(nocase: bool, a: array<char>, was: seq<char>, start: nat, tag: string, e: nat,
                  tagged: bool, endOfLine: char, p: nat, d: nat, done: seq<string>, from: nat)
    requires 0 < start && Compacted(nocase, a, was, start, tag, e, tagged, endOfLine, p, d, done, from)
    ensures start < a.Length && a[..start - 1] == was[..start - 1]
  {
    hide LoadBlock, Same, LineEnd, OutputLines, TextAt, Prepend;
    SameHead(a[..], was, start - 1, start);
  }

  /** Without a tag the last line is in place. */
  lemma NoTag(nocase: bool, a: array<char>, was: seq<char>, start: nat, tag: string, e: nat,
              endOfLine: char, p: nat, d: nat, done: seq<string>, from: nat)
    requires Compacted(nocase, a, was, start, tag, e, false, endOfLine, p, d, done, from)
    ensures var b := LoadBlock(nocase, was[start..e], tag);
      && b.lines != [] && p == e && a[p..] == was[p..] && a[p..e] == b.rest
      && TextAt(a, start, BlockValue(was[start..e], b))
    ensures start <= p
  {
    hide LoadBlock, Same, LineEnd, OutputLines, TextAt, Prepend, BlockValue;
    var t := was[from..e];
    LastLine(nocase, was[start..e], t, tag, done);
    Glue(a, start, d, OutputLines(done, "\n"), t[..LineEnd(t)]);
    WholeTail(a[..], was, p);
  }

  /** What the lines before the tag left, as the end of the value needs it. */
  lemma BeforeTag(nocase: bool, a: array<char>, was: seq<char>, start: nat, tag: string, e: nat,
                  endOfLine: char, p: nat, d: nat, done: seq<string>, from: nat)
    requires Compacted(nocase, a, was, start, tag, e, true, endOfLine, p, d, done, from)
    ensures var s := was[start..e]; var b := LoadBlock(nocase, s, tag);
      && b.lines == done && (p == start <==> done == [] && tag == "")
      && b.rest == (if p == e then [] else SkipNewLine(was[p..e]))
      && BlockValue(s, b) == (if done == [] then s else Join(done))
    ensures done == [] ==> d == start && a[start..p] == was[start..p]
    ensures done != [] ==> a[start..d] == Join(done) + "\n"
    ensures start <= d <= p <= e < a.Length == |was| && a[p] == '\0' && a[p + 1..] == was[p + 1..]
    ensures endOfLine == was[p] && (endOfLine == '\0' <==> p == e) && (p < e ==> IsNewLine(endOfLine))
  {
    hide LoadBlock, Same, SkipNewLine, OutputLines, Join, TextAt, Prepend, BlockValue;
    var t := was[from..e];
    var n := LineEnd(t);
    TagLine(nocase, was[start..e], t, tag, done);
    NothingMoved(a, was, start, d, done, from, n, e);
    assert t[n..] == was[p..e];
  }

  /** Loading in place does what LoadBlock says: the value's text stands at its first line's place, and what
      follows the block is as before. It fails only on an empty block with an empty tag. */
  method LoadMultiLineText(nocase: bool, a: array<char>, start: nat, tag: string, ghost e: nat)
      returns (ok: bool, p: nat)
    requires 0 < start && EndsAt(a[..], start, e)
    modifies a
    ensures var s := old(a[start..e]); var b := LoadBlock(nocase, s, tag);
      && ok == (b.lines != [] || tag != "")
      && (ok ==> start <= p <= e && a[p..] == old(a[p..]) && a[p..e] == b.rest
                 && TextAt(a, start, BlockValue(s, b)))
    ensures a[..start - 1] == old(a[..start - 1])
  {
    hide LoadBlock, Same, SkipNewLine, OutputLines, Join, EndsAt, TextAt, Prepend, BlockValue, Compacted, LineEnd;
    EndedInside(a[..], start, e);
    ghost var was := a[..];
    var tagged, endOfLine, d;
    ghost var done, from;
    tagged, endOfLine, p, d, done, from := CompactLines(nocase, a, start, tag, e);
    HeadStays(nocase, a, was, start, tag, e, tagged, endOfLine, p, d, done, from);
    if !tagged {
      NoTag(nocase, a, was, start, tag, e, endOfLine, p, d, done, from);
      return true, p;
    }
    BeforeTag(nocase, a, was, start, tag, e, endOfLine, p, d, done, from);
    if p == start {
      return false, p;
    }
    ok := true;
    p := EndBlock(a, start, d, p, endOfLine, done, was, e);
  }

  lemma PrependNone(b: Block)
    ensures Prepend([], b) == b
  {
    assert [] + b.lines == b.lines;
  }

  lemma EmptyOutput()
    ensures OutputLines([], "\n") == ""
  {
  }

  /** If the tag is on the first line, the text stands where it stood. */
  lemma NothingMoved(a: array<char>, was: seq<char>, start: nat, d: nat, done: seq<string>, from: nat, n: nat, e: nat)
    requires start <= d <= from && from + n <= e < |was| && (done == [] <==> from == start)
    requires d <= a.Length && a[start..d] == OutputLines(done, "\n") && TextAt(a, d, was[from..e][..n])
    ensures from + n < a.Length || done != []
    ensures done == [] ==> d == start && a[start..from + n] == was[start..from + n]
  {
    hide OutputLines;
    EmptyOutput();
    TextIs(a, d, was[from..e][..n]);
    assert was[from..e][..n] == was[from..from + n];
  }
}
