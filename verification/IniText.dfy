/** The text level of an INI file: lines in either newline convention, multi-line values behind an end
    tag, and how they are written. */
module IniText {

  predicate IsSpace(c: char) {
    c == ' ' || c == '\t' || c == '\r' || c == '\n'
  }

  predicate IsNewLine(c: char) {
    c == '\n' || c == '\r'
  }

  predicate IsComment(c: char) {
    c == ';' || c == '#'
  }

  /** How names and tags compare: with ASCII case folded, or exactly. */
  function FoldChar(nocase: bool, c: char): char {
    if nocase && 'A' <= c <= 'Z' then (c as int - 'A' as int + 'a' as int) as char else c
  }

  function Fold(nocase: bool, s: string): (r: string)
    ensures |r| == |s| && forall i | 0 <= i < |s| :: r[i] == FoldChar(nocase, s[i])
  {
    seq(|s|, i requires 0 <= i < |s| => FoldChar(nocase, s[i]))
  }

  predicate Same(nocase: bool, a: string, b: string) {
    Fold(nocase, a) == Fold(nocase, b)
  }

  predicate OneLine(s: string) {
    forall i | 0 <= i < |s| :: !IsNewLine(s[i])
  }

  // ---------------------------------------------------------------- scanning

  /** The length of the longest prefix without a character that stops the scan. */
  function Span(s: string, stop: char -> bool): (n: nat)
    ensures n <= |s| && (n < |s| ==> stop(s[n])) && forall i | 0 <= i < n :: !stop(s[i])
  {
    if s == [] || stop(s[0]) then 0 else 1 + Span(s[1..], stop)
  }

  lemma SpanIs(a: string, b: string, stop: char -> bool)
    requires (forall c | c in a :: !stop(c)) && (b != [] ==> stop(b[0]))
    ensures Span(a + b, stop) == |a|
  {
    var s := a + b;
    assert forall i | 0 <= i < |a| :: s[i] in a;
    assert b != [] ==> s[|a|] == b[0];
  }

  /** Where the first line of s ends: at its newline, or at the end. */
  function LineEnd(s: string): (n: nat)
    ensures n <= |s| && (n < |s| ==> IsNewLine(s[n])) && forall i | 0 <= i < n :: !IsNewLine(s[i])
  {
    Span(s, IsNewLine)
  }

  /** SkipNewLine: one newline, which may be of two characters. */
  function SkipNewLine(s: string): (r: string)
    requires s != []
    ensures |r| < |s|
  {
    if s[0] == '\r' && |s| > 1 && s[1] == '\n' then s[2..] else s[1..]
  }

  function TrimRight(s: string): (r: string)
    ensures r <= s
  {
    if s != [] && IsSpace(s[|s| - 1]) then TrimRight(s[..|s| - 1]) else s
  }

  // ---------------------------------------------------------------- multi-line values

  /** Lines joined by single newlines. */
  function Join(lines: seq<string>): string {
    if lines == [] then ""
    else if |lines| == 1 then lines[0]
    else Join(lines[..|lines| - 1]) + "\n" + lines[|lines| - 1]
  }

  /** What loading a block gives: its lines, what follows it, and whether the end tag was there. */
  datatype Block = Block(lines: seq<string>, rest: string, tagged: bool)

  /** LoadMultiLineText with a tag: the lines up to one that equals the tag, or to the end of the data. */
  function LoadBlock(nocase: bool, s: string, tag: string): (b: Block)
    ensures |b.rest| <= |s|
    decreases |s|
  {
    var n := LineEnd(s);
    if Same(nocase, s[..n], tag) then Block([], if n == |s| then [] else SkipNewLine(s[n..]), true)
    else if n == |s| then Block([s], [], false)
    else
      var b := LoadBlock(nocase, SkipNewLine(s[n..]), tag);
      Block([s[..n]] + b.lines, b.rest, b.tagged)
  }

  /** The text at the value's place when loading is over. A block without lines is not handled by the
      source: nothing ends the value there, which is then all the text from the tag on. */
  function BlockValue(s: string, b: Block): string {
    if b.lines == [] then s else Join(b.lines)
  }

  // ---------------------------------------------------------------- writing

  /** The lines of a text, split at each newline character '\n'. */
  function Split(s: string): (r: seq<string>)
    ensures r != []
  {
    var n := Span(s, c => c == '\n');
    if n == |s| then [s] else [s[..n]] + Split(s[n + 1..])
  }

  /** OutputMultiLineText: every line with the newline of the system. Nothing for the empty text. */
  function OutputLines(lines: seq<string>, nl: string): string {
    if lines == [] then "" else lines[0] + nl + OutputLines(lines[1..], nl)
  }

  function OutputMultiLine(s: string, nl: string): string {
    if s == "" then "" else OutputLines(Split(s), nl)
  }

  /** IsMultiLineData: a space at either end, or a newline anywhere. */
  predicate IsMultiLineData(s: string) {
    s != "" && (IsSpace(s[0]) || IsSpace(s[|s| - 1]) || exists i :: 0 <= i < |s| && IsNewLine(s[i]))
  }

  predicate IsSystemNewLine(nl: string) {
    nl == "\n" || nl == "\r\n"
  }

  // ---------------------------------------------------------------- writing and reading back

  lemma {:induction false} JoinCons(x: string, lines: seq<string>)
    requires lines != []
    ensures Join([x] + lines) == x + "\n" + Join(lines)
  {
    var all := [x] + lines;
    if |lines| == 1 {
      assert all[..1] == [x];
    } else {
      JoinCons(x, lines[..|lines| - 1]);
      assert all[..|all| - 1] == [x] + lines[..|lines| - 1];
    }
  }

  lemma JoinOne(s: string)
    ensures Join([s]) == s
  {
  }

  /** Splitting and joining are inverse. */
  lemma {:induction false} SplitJoins(s: string)
    ensures Join(Split(s)) == s
    ensures forall l | l in Split(s) :: '\n' !in l
  {
    hide Span, Join;
    var n := Span(s, c => c == '\n');
    if n == |s| {
      JoinOne(s);
    } else {
      SplitJoins(s[n + 1..]);
      JoinCons(s[..n], Split(s[n + 1..]));
      assert s == s[..n] + "\n" + s[n + 1..];
    }
  }

  /** A newline of the system ends a line without newline characters, and is skipped whole. */
  lemma LineWithNewLine(line: string, nl: string, rest: string)
    requires IsSystemNewLine(nl) && OneLine(line)
    ensures var s := line + nl + rest;
      LineEnd(s) == |line| < |s| && s[..|line|] == line && SkipNewLine(s[|line|..]) == rest
  {
    SpanIs(line, nl + rest, IsNewLine);
    assert line + nl + rest == line + (nl + rest);
    assert (line + nl + rest)[|line|..] == nl + rest;
  }

  ghost predicate Untagged(nocase: bool, lines: seq<string>, tag: string) {
    forall l | l in lines :: OneLine(l) && !Same(nocase, l, tag)
  }

  lemma FirstUntagged(nocase: bool, lines: seq<string>, tag: string)
    requires Untagged(nocase, lines, tag) && lines != []
    ensures OneLine(lines[0]) && !Same(nocase, lines[0], tag) && Untagged(nocase, lines[1..], tag)
  {
    hide Same, OneLine;
    assert lines[0] in lines;
  }

  /** Loading what was written gives the lines back: the block ends at the tag's line. */
  lemma {:induction false} LinesReadBack(nocase: bool, lines: seq<string>, tag: string, nl: string, rest: string)
    requires IsSystemNewLine(nl) && OneLine(tag) && Untagged(nocase, lines, tag)
    ensures LoadBlock(nocase, OutputLines(lines, nl) + (tag + nl + rest), tag) == Block(lines, rest, true)
  {
    hide Same, OneLine, IsSystemNewLine, LineEnd, SkipNewLine, Untagged;
    var s := OutputLines(lines, nl) + (tag + nl + rest);
    if lines == [] {
      assert s == tag + nl + rest;
      LineWithNewLine(tag, nl, rest);
      SameItself(nocase, tag);
    } else {
      var more := OutputLines(lines[1..], nl) + (tag + nl + rest);
      assert s == lines[0] + nl + more;
      FirstUntagged(nocase, lines, tag);
      LineWithNewLine(lines[0], nl, more);
      LinesReadBack(nocase, lines[1..], tag, nl, rest);
      assert lines == [lines[0]] + lines[1..];
    }
  }

  lemma SameItself(nocase: bool, s: string)
    ensures Same(nocase, s, s)
  {
  }

  /** LoadMultiLineText undoes OutputMultiLineText, for every text without carriage returns none of whose
      lines is the tag. */
  lemma MultiLineRoundTrip(nocase: bool, text: string, tag: string, nl: string, rest: string)
    requires IsSystemNewLine(nl) && OneLine(tag) && text != "" && '\r' !in text
    requires forall l | l in Split(text) :: !Same(nocase, l, tag)
    ensures var b := LoadBlock(nocase, OutputMultiLine(text, nl) + (tag + nl + rest), tag);
      b.tagged && b.rest == rest && b.lines != [] && Join(b.lines) == text
  {
    hide LoadBlock, Same;
    SplitJoins(text);
    LinesAreLines(text);
    LinesReadBack(nocase, Split(text), tag, nl, rest);
  }

  lemma {:induction false} LinesAreLines(s: string)
    requires '\r' !in s
    ensures forall l | l in Split(s) :: OneLine(l)
  {
    var n := Span(s, c => c == '\n');
    forall i | 0 <= i < n ensures !IsNewLine(s[i]) {
      assert s[i] in s;
    }
    if n < |s| {
      assert '\r' !in s[n + 1..];
      LinesAreLines(s[n + 1..]);
    }
  }

  lemma {:induction false} LoadedLines(nocase: bool, s: string, tag: string)
    ensures Untagged(nocase, LoadBlock(nocase, s, tag).lines, tag)
    decreases |s|
  {
    hide Same, SkipNewLine, Untagged, LineEnd;
    var n := LineEnd(s);
    LineEndsInside(s);
    NoneTagged(nocase, tag);
    if Same(nocase, s[..n], tag) {
    } else if n == |s| {
      assert s[..n] == s && [s] + [] == [s];
      MoreUntagged(nocase, s, [], tag);
    } else {
      var rest := LoadBlock(nocase, SkipNewLine(s[n..]), tag).lines;
      LoadedLines(nocase, SkipNewLine(s[n..]), tag);
      MoreUntagged(nocase, s[..n], rest, tag);
    }
  }

  lemma NoneTagged(nocase: bool, tag: string)
    ensures Untagged(nocase, [], tag)
  {
  }

  lemma MoreUntagged(nocase: bool, line: string, lines: seq<string>, tag: string)
    requires OneLine(line) && !Same(nocase, line, tag) && Untagged(nocase, lines, tag)
    ensures Untagged(nocase, [line] + lines, tag)
  {
    hide Same;
  }

  lemma LineEndsInside(s: string)
    ensures var n := LineEnd(s);
      && n <= |s| && OneLine(s[..n]) && (n < |s| ==> |SkipNewLine(s[n..])| < |s|)
  {
  }

  lemma SplitLine(line: string, more: string)
    requires OneLine(line)
    ensures Split(line + "\n" + more) == [line] + Split(more) && Split(line) == [line]
  {
    var s := line + "\n" + more;
    SpanIs(line, "\n" + more, c => c == '\n');
    SpanIs(line, "", c => c == '\n');
    assert line + "" == line && line + ("\n" + more) == s;
    assert s[|line| + 1..] == more;
  }

  /** Joining lines and splitting them again is the identity. */
  lemma {:induction false} JoinSplits(lines: seq<string>)
    requires lines != [] && forall l | l in lines :: OneLine(l)
    ensures Split(Join(lines)) == lines && '\r' !in Join(lines)
  {
    hide Split, Join;
    assert OneLine(lines[0]);
    JoinOne(lines[0]);
    SplitLine(lines[0], Join(lines[1..]));
    if |lines| == 1 {
      assert lines == [lines[0]];
    } else {
      JoinSplits(lines[1..]);
      assert lines == [lines[0]] + lines[1..];
      JoinCons(lines[0], lines[1..]);
    }
  }

  lemma {:induction false} WrittenIsLonger(text: string, nl: string)
    requires IsSystemNewLine(nl)
    ensures |OutputLines(Split(text), nl)| > |text|
  {
    var n := Span(text, c => c == '\n');
    if n < |text| {
      WrittenIsLonger(text[n + 1..], nl);
    }
  }

  /** A multi-line value is read back if and only if it holds no carriage return and no line of it is the
      tag. */
  lemma MultiLineSurvivesIff(nocase: bool, text: string, tag: string, nl: string, rest: string)
    requires IsSystemNewLine(nl) && OneLine(tag) && text != ""
    ensures var s := OutputMultiLine(text, nl) + (tag + nl + rest);
      BlockValue(s, LoadBlock(nocase, s, tag)) == text
      <==> '\r' !in text && forall l | l in Split(text) :: !Same(nocase, l, tag)
  {
    hide LoadBlock, Same, Split, OutputLines, Join, IsSystemNewLine;
    var s := OutputMultiLine(text, nl) + (tag + nl + rest);
    var b := LoadBlock(nocase, s, tag);
    if '\r' !in text && forall l | l in Split(text) :: !Same(nocase, l, tag) {
      MultiLineRoundTrip(nocase, text, tag, nl, rest);
    }
    if BlockValue(s, b) == text {
      WrittenIsLonger(text, nl);
      LoadedLines(nocase, s, tag);
      JoinSplits(b.lines);
    }
  }
}
