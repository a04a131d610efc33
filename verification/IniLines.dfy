/** What the INI reader finds in each kind of line, by the characters that the line is made of: blank lines, comments,
    section headers, keys with their values, and lines that are none of these. */
module IniLines {
  import opened Wrappers
  import opened IniText
  import opened IniParse

  predicate White(s: string) {
    forall i | 0 <= i < |s| :: s[i] == ' ' || s[i] == '\t' || s[i] == '\r' || s[i] == '\n'
  }

  predicate Blank(s: string) {
    forall i | 0 <= i < |s| :: s[i] == ' ' || s[i] == '\t'
  }

  /** No newline, and none of the characters in `without`. */
  predicate Plain(s: string, without: string) {
    forall i | 0 <= i < |s| :: s[i] != '\r' && s[i] != '\n' && s[i] !in without
  }

  /** No white space at either end. */
  predicate Bare(s: string) {
    s != "" ==> !White([s[0]]) && !White([s[|s| - 1]])
  }

  /** The line is over. */
  predicate Over(rest: string) {
    rest == "" || rest[0] == '\r' || rest[0] == '\n'
  }

  /** nl is the whole newline in front of rest, or there is no more text. */
  predicate NewLine(nl: string, rest: string) {
    || nl == "\n" || nl == "\r\n"
    || (nl == "\r" && (rest == "" || rest[0] != '\n'))
    || (nl == "" && rest == "")
  }

  // ---------------------------------------------------------------- scanning

  lemma SpanAppend(a: string, b: string, stop: char -> bool)
    requires forall i | 0 <= i < |a| :: !stop(a[i])
    ensures Span(a + b, stop) == |a| + Span(b, stop)
  {
    hide Span;
    var n := Span(b, stop);
    assert n < |b| ==> (a + b)[|a| + n] == b[n];
    assert forall i | |a| <= i < |a| + n :: (a + b)[i] == b[i - |a|];
  }

  lemma WhiteSkipped(w: string, s: string)
    requires White(w)
    ensures SkipSpaces(w + s) == SkipSpaces(s)
  {
    SpanAppend(w, s, c => !IsSpace(c));
  }

  lemma NotSkipped(s: string)
    requires s != "" && !White([s[0]])
    ensures SkipSpaces(s) == s
  {
    assert [s[0]][0] == s[0];
  }

  lemma LineIs(line: string, rest: string)
    requires Plain(line, "") && Over(rest)
    ensures LineEnd(line + rest) == |line|
  {
    SpanIs(line, rest, IsNewLine);
  }

  lemma {:induction false} Trimmed(s: string, w: string)
    requires Bare(s) && White(w)
    ensures TrimRight(s + w) == s
    decreases |w|
  {
    if w == "" {
      assert s + w == s;
      if s != "" {
        assert [s[|s| - 1]][0] == s[|s| - 1];
      }
    } else {
      assert (s + w)[..|s + w| - 1] == s + w[..|w| - 1];
      Trimmed(s, w[..|w| - 1]);
    }
  }

  // ---------------------------------------------------------------- lines that hold no entry

  lemma EntryIs(cfg: Config, h: Heading, s: string)
    ensures var t := SkipSpaces(s);
      FindEntry(cfg, h, s) ==
      if t == "" then Found.Ended
      else if StartsComment(t) then
        var after := t[LineEnd(t)..];
        FindEntry(cfg, if StartsComment(SkipSpaces(after)) then h else EndAt(h, after), after)
      else if t[0] == '[' then FindSection(cfg, SkipSpaces(t[1..]))
      else FindKey(cfg, h, t)
  {
    hide SkipSpaces, LineEnd, FindSection, FindKey, EndAt;
  }

  /** White space, also over several lines, is passed over; nothing else means the end. */
  lemma WhiteLaw(cfg: Config, h: Heading, w: string, s: string)
    requires White(w)
    ensures FindEntry(cfg, h, w + s) == FindEntry(cfg, h, s) && FindEntry(cfg, h, w) == Found.Ended
  {
    hide FindEntry, FindKey, FindSection, SkipSpaces, LineEnd, EndAt;
    WhiteSkipped(w, s);
    WhiteSkipped(w, "");
    assert w + "" == w;
    EntryIs(cfg, h, w + s);
    EntryIs(cfg, h, s);
    EntryIs(cfg, h, w);
    NothingLeft();
  }

  lemma NothingLeft()
    ensures SkipSpaces("") == ""
  {
  }

  /** A line that starts with ';' or '#' is passed over. */
  lemma CommentLaw(cfg: Config, section: string, line: string, rest: string)
    requires line != "" && (line[0] == ';' || line[0] == '#') && Plain(line, "") && Over(rest)
    ensures FindEntry(cfg, Named(section), line + rest) == FindEntry(cfg, Named(section), rest)
  {
    hide FindKey, FindSection, LineEnd, SkipSpaces;
    var s := line + rest;
    assert [s[0]][0] == line[0];
    NotSkipped(s);
    LineIs(line, rest);
    assert s[|line|..] == rest;
  }

  /** So is a line without '='; a line that starts with '=' is too, whatever follows. */
  lemma InvalidLaw(cfg: Config, h: Heading, line: string, rest: string)
    requires line != "" && !White([line[0]]) && line[0] !in ";#[" && Plain(line, "") && Over(rest)
    requires '=' !in line || line[0] == '='
    ensures FindEntry(cfg, h, line + rest) == FindEntry(cfg, h, rest)
  {
    hide FindSection, LineEnd, SkipSpaces, TakeValue, TrimRight, Span;
    var s := line + rest;
    var stop := c => c == '=' || IsNewLine(c);
    assert s[0] == line[0];
    NotSkipped(s);
    if line[0] == '=' {
      SpanIs("", s, stop);
      assert "" + s == s;
      LineIs(line, rest);
    } else {
      assert forall c | c in line :: !stop(c);
      SpanIs(line, rest, stop);
    }
    assert s[|line|..] == rest;
    FindKeyIs(cfg, h, s);
  }

  lemma FindKeyIs(cfg: Config, h: Heading, s: string)
    requires s != "" && !White([s[0]])
    ensures !IsSpace(s[0])
    ensures s[0] !in ";#[" ==> SkipSpaces(s) == s && FindEntry(cfg, h, s) == FindKey(cfg, h, s)
  {
    assert [s[0]][0] == s[0];
    NotSkipped(s);
  }

  // ---------------------------------------------------------------- headers and keys

  /** What stands between '[' and ']', and what the line holds behind them. */
  lemma HeaderEnds(name: string, inside: string, w: string, more: string, rest: string)
    requires Bare(name) && Plain(name, "]") && Blank(w) && inside == name + w
    ensures var t := inside + ("]" + more + rest);
      var n := Span(t, c => c == ']' || IsNewLine(c));
      && n < |t| && t[n] == ']' && TrimRight(t[..n]) == name && t[n + 1..] == more + rest
  {
    hide TrimRight, Span;
    var t := inside + ("]" + more + rest);
    var stop := c => c == ']' || IsNewLine(c);
    forall c | c in inside ensures !stop(c) {
      if c in name {
        var i :| 0 <= i < |name| && name[i] == c;
      }
    }
    SpanIs(inside, "]" + more + rest, stop);
    assert t[..|inside|] == inside && t[|inside| + 1..] == more + rest;
    Trimmed(name, w);
  }

  /** A header names the section between '[' and ']', without the white space at the name's ends; what follows it on its
      line is passed over. */
  lemma HeaderLaw(cfg: Config, h: Heading, before: string, name: string, behind: string, more: string, rest: string)
    requires White(before) && Bare(name) && Plain(name, "]") && Blank(behind) && Plain(more, "") && Over(rest)
    ensures FindEntry(cfg, h, "[" + before + name + behind + "]" + more + rest)
         == Found(Entry(name, None, ""), Named(name), rest)
  {
    hide LineEnd, SkipSpaces, TrimRight, Span, FindKey, FindSection, FindEntry, Bare, Plain, Over, EndAt, White;
    var s := "[" + before + name + behind + "]" + more + rest;
    var w := if name == "" then "" else behind;
    HeaderStarts(before, name, behind, more, rest);
    HeaderEnds(name, name + w, w, more, rest);
    assert name + w == if name == "" then "" else name + behind;
    LineIs(more, rest);
    assert (more + rest)[|more|..] == rest;
    EntryIs(cfg, h, s);
    SectionIs(cfg, name + w + ("]" + more + rest));
  }

  lemma SectionIs(cfg: Config, s: string)
    ensures var n := Span(s, c => c == ']' || IsNewLine(c));
      n < |s| && s[n] == ']' ==>
        var after := s[n + 1..];
        var name := TrimRight(s[..n]);
        FindSection(cfg, s) == Found(Entry(name, None, ""), Named(name), after[LineEnd(after)..])
  {
    hide FindEntry, Span, TrimRight, LineEnd;
  }

  lemma KeyIs(cfg: Config, section: string, s: string)
    requires s != "" && !IsSpace(s[0])
    ensures var n := Span(s, c => c == '=' || IsNewLine(c));
      0 < n < |s| && s[n] == '=' ==>
        FindKey(cfg, Named(section), s) ==
        match TakeValue(cfg, s[n + 1..])
        case None => Found.Ended
        case Some(taken) => Found(Entry(section, Some(TrimRight(s[..n])), taken.0), Named(section), taken.1)
  {
    hide FindEntry, Span, TrimRight, TakeValue;
  }

  lemma HeaderStarts(before: string, name: string, behind: string, more: string, rest: string)
    requires White(before) && Bare(name) && Blank(behind)
    ensures var s := "[" + before + name + behind + "]" + more + rest;
      && SkipSpaces(s) == s
      && SkipSpaces(s[1..]) == (if name == "" then "" else name + behind) + ("]" + more + rest)
  {
    hide SkipSpaces;
    var s := "[" + before + name + behind + "]" + more + rest;
    NotSkipped(s);
    var close := "]" + more + rest;
    var t := name + behind + close;
    assert s[1..] == before + t;
    WhiteSkipped(before, t);
    if name == "" {
      assert t == behind + close;
      WhiteSkipped(behind, close);
      NotSkipped(close);
    } else {
      assert t[0] == name[0];
      NotSkipped(t);
      assert t == name + behind + close;
    }
  }

  /** The value behind '=', without the blanks at its ends. */
  lemma ValueLaw(cfg: Config, before: string, value: string, behind: string, nl: string, rest: string)
    requires Blank(before) && Bare(value) && Plain(value, "") && Blank(behind) && NewLine(nl, rest)
    ensures PlainValue(before + value + behind + nl + rest) == (value, rest)
  {
    hide LineEnd, TrimRight, Span;
    var tail := nl + rest;
    var line := if value == "" then "" else value + behind;
    BlanksSkipped(before, value, behind, nl, rest);
    LineIs(line, tail);
    assert (line + tail)[..|line|] == line && (line + tail)[|line|..] == tail;
    Trimmed(value, if value == "" then "" else behind);
    assert value + (if value == "" then "" else behind) == line;
    if tail != "" {
      NewLineSkipped(nl, rest);
    }
  }

  lemma NewLineSkipped(nl: string, rest: string)
    requires NewLine(nl, rest) && nl != ""
    ensures SkipNewLine(nl + rest) == rest
  {
  }

  lemma BlanksSkipped(before: string, value: string, behind: string, nl: string, rest: string)
    requires Blank(before) && Bare(value) && Plain(value, "") && Blank(behind) && NewLine(nl, rest)
    ensures SkipBlanks(before + value + behind + nl + rest)
         == (if value == "" then "" else value + behind) + (nl + rest)
  {
    hide SkipBlanks;
    var t := value + behind + (nl + rest);
    assert before + value + behind + nl + rest == before + t;
    BlankSkipped(before, t);
    if value == "" {
      assert t == behind + (nl + rest);
      BlankSkipped(behind, nl + rest);
      BlankStops(nl + rest);
      assert "" + (nl + rest) == nl + rest;
    } else {
      assert t[0] == value[0] && [value[0]][0] == value[0];
      BlankStops(t);
    }
  }

  lemma BlankSkipped(w: string, s: string)
    requires Blank(w)
    ensures SkipBlanks(w + s) == SkipBlanks(s)
  {
    SpanAppend(w, s, c => !IsSpace(c) || IsNewLine(c));
  }

  lemma BlankStops(s: string)
    requires s != "" ==> !IsSpace(s[0]) || IsNewLine(s[0])
    ensures SkipBlanks(s) == s
  {
  }

  /** The name of a key's line ends before the first '='. */
  lemma NameEnds(key: string, b1: string, right: string)
    requires key != "" && Bare(key) && Plain(key, "=") && Blank(b1)
    ensures var s := key + b1 + "=" + right;
      var n := Span(s, c => c == '=' || IsNewLine(c));
      && 0 < n < |s| && s[n] == '=' && s[n + 1..] == right && TrimRight(s[..n]) == key && s[0] == key[0]
  {
    hide Span, TrimRight;
    var s := key + b1 + "=" + right;
    var stop := c => c == '=' || IsNewLine(c);
    forall c | c in key + b1 ensures !stop(c) {
      if c in key {
        var i :| 0 <= i < |key| && key[i] == c;
      }
    }
    assert s == (key + b1) + ("=" + right);
    SpanIs(key + b1, "=" + right, stop);
    assert s[..|key + b1|] == key + b1 && s[|key + b1| + 1..] == right;
    Trimmed(key, b1);
  }

  lemma KeyStarts(cfg: Config, section: string, key: string, b1: string, right: string)
    requires key != "" && Bare(key) && Plain(key, "=") && key[0] !in ";#[" && Blank(b1)
    ensures FindEntry(cfg, Named(section), key + b1 + "=" + right) ==
      match TakeValue(cfg, right)
      case None => Found.Ended
      case Some(taken) => Found(Entry(section, Some(key), taken.0), Named(section), taken.1)
  {
    hide TrimRight, Span, FindEntry, FindKey, Plain, TakeValue, Blank, SkipSpaces;
    var s := key + b1 + "=" + right;
    NameEnds(key, b1, right);
    FindKeyIs(cfg, Named(section), s);
    KeyIs(cfg, section, s);
  }

  /** A key is what stands in front of the first '=', its value what stands behind, up to the end of the line; blanks
      around both are no part of them. It belongs to the section in hand; the next entry is looked for behind the
      line. */
  lemma KeyLaw(cfg: Config, section: string, key: string, b1: string, b2: string, value: string, b3: string, nl: string,
               rest: string)
    requires key != "" && Bare(key) && Plain(key, "=") && key[0] !in ";#[" && Blank(b1)
    requires Blank(b2) && Bare(value) && Plain(value, "") && Blank(b3) && NewLine(nl, rest)
    requires !(cfg.multiLine && "<<<" <= value)
    ensures FindEntry(cfg, Named(section), key + b1 + "=" + (b2 + value + b3 + nl + rest))
         == Found(Entry(section, Some(key), value), Named(section), rest)
  {
    hide PlainValue, FindEntry, Bare, Plain, Blank, NewLine;
    KeyStarts(cfg, section, key, b1, b2 + value + b3 + nl + rest);
    ValueLaw(cfg, b2, value, b3, nl, rest);
  }

  /** A value that is "<<<" and a tag announces the block up to the line that is the tag. */
  lemma BlockLaw(cfg: Config, section: string, key: string, b1: string, b2: string, tag: string, b3: string, nl: string,
                 block: string)
    requires key != "" && Bare(key) && Plain(key, "=") && key[0] !in ";#[" && Blank(b1)
    requires Blank(b2) && tag != "" && Bare("<<<" + tag) && Plain(tag, "") && Blank(b3) && NewLine(nl, block)
    requires cfg.multiLine
    ensures var b := LoadBlock(cfg.nocase, block, tag);
      FindEntry(cfg, Named(section), key + b1 + "=" + (b2 + ("<<<" + tag) + b3 + nl + block))
      == Found(Entry(section, Some(key), BlockValue(block, b)), Named(section), b.rest)
  {
    hide PlainValue, FindEntry, Bare, Blank, NewLine, LoadBlock, BlockValue;
    KeyStarts(cfg, section, key, b1, b2 + ("<<<" + tag) + b3 + nl + block);
    ValueLaw(cfg, b2, "<<<" + tag, b3, nl, block);
    assert ("<<<" + tag)[3..] == tag;
  }
}
