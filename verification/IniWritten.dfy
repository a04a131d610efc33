/** What Save writes, line by line: every line ends with the system's newline, and two empty lines stand between
    sections. */
module IniWritten {
  import opened IniText
  import opened IniParse
  import opened IniView
  import opened IniRoundTrip

  /** The lines one after another, each with a newline behind it. */
  function Ended(lines: seq<string>, nl: string): string {
    if lines == [] then "" else lines[0] + nl + Ended(lines[1..], nl)
  }

  /** A value takes one line; or, where it may, a line that announces a block, its own lines, and the tag. */
  function ValueLines(cfg: Config, name: string, value: string): seq<string> {
    var start := name + if cfg.spaces then " = " else "=";
    if cfg.multiLine && IsMultiLineData(value)
    then [start + "<<<END_OF_TEXT"] + Split(value) + ["END_OF_TEXT"]
    else [start + value]
  }

  function KeyLines(cfg: Config, name: string, values: seq<string>): seq<string> {
    if values == [] then [] else ValueLines(cfg, name, values[0]) + KeyLines(cfg, name, values[1..])
  }

  function KeysLines(cfg: Config, keys: seq<KeyView>): seq<string> {
    if keys == [] then [] else KeyLines(cfg, keys[0].name, keys[0].values) + KeysLines(cfg, keys[1..])
  }

  function SectionLines(cfg: Config, s: SectionView): seq<string> {
    (if s.name == "" then [] else ["[" + s.name + "]"]) + KeysLines(cfg, s.keys)
  }

  function MoreLines(cfg: Config, v: View): seq<string> {
    if v == [] then [] else ["", ""] + SectionLines(cfg, v[0]) + MoreLines(cfg, v[1..])
  }

  /** The lines of the whole file. */
  function FileLines(cfg: Config, v: View): seq<string> {
    if v == [] then [] else SectionLines(cfg, v[0]) + MoreLines(cfg, v[1..])
  }

  // ---------------------------------------------------------------- the text is its lines

  lemma {:induction false} EndedConcat(a: seq<string>, b: seq<string>, nl: string)
    ensures Ended(a + b, nl) == Ended(a, nl) + Ended(b, nl)
  {
    if a == [] {
      assert a + b == b;
    } else {
      assert (a + b)[1..] == a[1..] + b;
      EndedConcat(a[1..], b, nl);
    }
  }

  lemma EndedOne(line: string, nl: string)
    ensures Ended([line], nl) == line + nl
  {
    assert [line][1..] == [];
  }

  lemma {:induction false} OutputIsEnded(lines: seq<string>, nl: string)
    ensures OutputLines(lines, nl) == Ended(lines, nl)
  {
    if lines != [] {
      OutputIsEnded(lines[1..], nl);
    }
  }

  lemma ValueIsLines(cfg: Config, name: string, value: string)
    ensures name + Equals(cfg) + ValueText(cfg, value) + cfg.nl == Ended(ValueLines(cfg, name, value), cfg.nl)
  {
    hide Split, OutputLines, Ended, IsMultiLineData;
    var start := name + Equals(cfg);
    if cfg.multiLine && IsMultiLineData(value) {
      var lines := Split(value);
      NotEmpty(value);
      OutputIsEnded(lines, cfg.nl);
      EndedOne(start + "<<<END_OF_TEXT", cfg.nl);
      EndedOne("END_OF_TEXT", cfg.nl);
      EndedConcat([start + "<<<END_OF_TEXT"] + lines, ["END_OF_TEXT"], cfg.nl);
      EndedConcat([start + "<<<END_OF_TEXT"], lines, cfg.nl);
      assert start + ("<<<" + END_OF_TEXT) == start + "<<<END_OF_TEXT";
    } else {
      EndedOne(start + value, cfg.nl);
    }
  }

  lemma NotEmpty(value: string)
    requires IsMultiLineData(value)
    ensures value != ""
  {
  }

  lemma {:induction false} KeyIsLines(cfg: Config, name: string, values: seq<string>)
    ensures ValuesText(cfg, name, values) == Ended(KeyLines(cfg, name, values), cfg.nl)
  {
    hide ValueLines, ValueText, Equals, Ended;
    if values == [] {
      NoLines(cfg.nl);
    } else {
      KeyIsLines(cfg, name, values[1..]);
      ValueIsLines(cfg, name, values[0]);
      EndedConcat(ValueLines(cfg, name, values[0]), KeyLines(cfg, name, values[1..]), cfg.nl);
    }
  }

  lemma NoLines(nl: string)
    ensures Ended([], nl) == ""
  {
  }

  lemma {:induction false} KeysAreLines(cfg: Config, keys: seq<KeyView>)
    ensures KeysText(cfg, keys) == Ended(KeysLines(cfg, keys), cfg.nl)
  {
    hide KeyLines, ValuesText, Ended;
    if keys == [] {
      NoLines(cfg.nl);
    } else {
      KeysAreLines(cfg, keys[1..]);
      KeyIsLines(cfg, keys[0].name, keys[0].values);
      EndedConcat(KeyLines(cfg, keys[0].name, keys[0].values), KeysLines(cfg, keys[1..]), cfg.nl);
    }
  }

  lemma SectionIsLines(cfg: Config, s: SectionView)
    ensures SectionText(cfg, s) == Ended(SectionLines(cfg, s), cfg.nl)
  {
    hide KeysLines, KeysText, Ended;
    KeysAreLines(cfg, s.keys);
    if s.name == "" {
      assert [] + KeysLines(cfg, s.keys) == KeysLines(cfg, s.keys);
    } else {
      EndedOne("[" + s.name + "]", cfg.nl);
      EndedConcat(["[" + s.name + "]"], KeysLines(cfg, s.keys), cfg.nl);
    }
  }

  lemma {:induction false} MoreIsLines(cfg: Config, v: View)
    ensures SavedMore(cfg, v) == Ended(MoreLines(cfg, v), cfg.nl)
  {
    hide SectionText, SectionLines, Ended;
    if v == [] {
      NoLines(cfg.nl);
    } else {
      MoreIsLines(cfg, v[1..]);
      SectionIsLines(cfg, v[0]);
      EmptyLines(cfg.nl);
      EndedConcat(["", ""] + SectionLines(cfg, v[0]), MoreLines(cfg, v[1..]), cfg.nl);
      EndedConcat(["", ""], SectionLines(cfg, v[0]), cfg.nl);
    }
  }

  lemma EmptyLines(nl: string)
    ensures Ended(["", ""], nl) == nl + nl
  {
    EndedOne("", nl);
    EndedConcat([""], [""], nl);
    assert [""] + [""] == ["", ""];
  }

  /** The text that Save writes is the lines of the file, every one with the system's newline behind it. */
  lemma SavedIsLines(cfg: Config, v: View)
    ensures Saved(cfg, v) == Ended(FileLines(cfg, v), cfg.nl)
  {
    hide SectionText, SectionLines, Ended, MoreLines, SavedMore;
    if v == [] {
      NoLines(cfg.nl);
    } else {
      SectionIsLines(cfg, v[0]);
      MoreIsLines(cfg, v[1..]);
      EndedConcat(SectionLines(cfg, v[0]), MoreLines(cfg, v[1..]), cfg.nl);
    }
  }

  // ---------------------------------------------------------------- no other newline

  ghost predicate AllOneLine(lines: seq<string>) {
    forall l | l in lines :: OneLine(l)
  }

  lemma {:induction false} SplitPlain(s: string)
    requires '\r' !in s
    ensures AllOneLine(Split(s))
  {
    var n := Span(s, c => c == '\n');
    assert OneLine(s[..n]);
    if n < |s| {
      SplitPlain(s[n + 1..]);
    }
  }

  lemma ValuePlain(cfg: Config, name: string, value: string)
    requires OneLine(name) && GoodValue(cfg, value)
    ensures AllOneLine(ValueLines(cfg, name, value))
  {
    hide Split;
    if cfg.multiLine && IsMultiLineData(value) {
      SplitPlain(value);
    }
  }

  lemma {:induction false} KeyPlain(cfg: Config, name: string, values: seq<string>)
    requires OneLine(name) && forall x | x in values :: GoodValue(cfg, x)
    ensures AllOneLine(KeyLines(cfg, name, values))
  {
    hide OneLine, GoodValue, ValueLines;
    if values != [] {
      ValuePlain(cfg, name, values[0]);
      KeyPlain(cfg, name, values[1..]);
    }
  }

  lemma {:induction false} KeysPlain(cfg: Config, keys: seq<KeyView>)
    requires forall k | k in keys :: GoodKeyView(cfg, k)
    ensures AllOneLine(KeysLines(cfg, keys))
  {
    hide OneLine, GoodValue, KeyLines;
    if keys != [] {
      assert GoodKeyView(cfg, keys[0]);
      KeyPlain(cfg, keys[0].name, keys[0].values);
      KeysPlain(cfg, keys[1..]);
    }
  }

  lemma SectionPlain(cfg: Config, s: SectionView)
    requires GoodSectionView(cfg, s)
    ensures AllOneLine(SectionLines(cfg, s))
  {
    hide KeysLines, Differ, GoodKeyView;
    KeysPlain(cfg, s.keys);
    var header := "[" + s.name + "]";
    assert OneLine(header);
  }

  lemma {:induction false} MorePlain(cfg: Config, v: View)
    requires forall s | s in v :: GoodSectionView(cfg, s)
    ensures AllOneLine(MoreLines(cfg, v))
  {
    hide GoodSectionView, SectionLines;
    if v != [] {
      SectionPlain(cfg, v[0]);
      MorePlain(cfg, v[1..]);
    }
  }

  /** Of well-formed contents no line holds a newline of its own: the text has the system's and no other. */
  lemma SavedLinesArePlain(cfg: Config, v: View)
    requires WellFormed(cfg, v)
    ensures AllOneLine(FileLines(cfg, v))
  {
    hide GoodSectionView, SectionLines, Differ, MoreLines, OneLine;
    if v != [] {
      SectionPlain(cfg, v[0]);
      MorePlain(cfg, v[1..]);
    }
  }
}
