/** Saving and loading are inverse on the contents that INI text can express. */
module IniRoundTrip {
  import opened Wrappers
  import opened IniText
  import opened IniParse
  import opened IniView

  // ---------------------------------------------------------------- what INI text can express

  predicate Trimmed(s: string) {
    s != "" ==> !IsSpace(s[0]) && !IsSpace(s[|s| - 1])
  }

  predicate GoodKey(name: string) {
    name != "" && Trimmed(name) && OneLine(name) && '=' !in name && name[0] != '[' && !IsComment(name[0])
  }

  predicate GoodSection(name: string) {
    Trimmed(name) && OneLine(name) && ']' !in name
  }

  /** On one line a value has no space at its ends, no newline, and not the sign of a block; in a block, no
      carriage return and no line that is the tag. */
  predicate GoodValue(cfg: Config, value: string) {
    if cfg.multiLine && IsMultiLineData(value)
    then '\r' !in value && forall l | l in Split(value) :: !Same(cfg.nocase, l, END_OF_TEXT)
    else !IsMultiLineData(value) && !(cfg.multiLine && "<<<" <= value)
  }

  // ---------------------------------------------------------------- values

  lemma NotMultiLine(s: string)
    ensures !IsMultiLineData(s) <==> Trimmed(s) && OneLine(s)
  {
  }

  lemma TrimTrimmed(s: string)
    requires s == "" || !IsSpace(s[|s| - 1])
    ensures TrimRight(s) == s && TrimRight(s + " ") == s
  {
    assert (s + " ")[..|s|] == s;
  }

  lemma {:induction false} TrimRightEnds(s: string)
    ensures TrimRight(s) != "" ==> !IsSpace(TrimRight(s)[|TrimRight(s)| - 1])
  {
    if s != "" && IsSpace(s[|s| - 1]) {
      TrimRightEnds(s[..|s| - 1]);
    }
  }

  /** What the parser finds on one line never needs a block. */
  lemma PlainIsPlain(s: string)
    ensures !IsMultiLineData(PlainValue(s).0)
  {
    hide SkipNewLine, TrimRight;
    var v := SkipBlanks(s);
    TrimRightEnds(v[..LineEnd(v)]);
  }

  /** A line written with its newline is found again. */
  lemma PlainLine(cfg: Config, line: string, rest: string)
    requires IsSystemNewLine(cfg.nl) && Trimmed(line) && OneLine(line)
    ensures PlainValue(line + cfg.nl + rest) == PlainValue(" " + line + cfg.nl + rest) == (line, rest)
  {
    var stop := c => !IsSpace(c) || IsNewLine(c);
    var s := line + cfg.nl + rest;
    assert " " + line + cfg.nl + rest == " " + s;
    SpanIs("", s, stop);
    SpanIs(" ", s, stop);
    assert "" + s == s && s[0..] == s && (" " + s)[1..] == s;
    LineWithNewLine(line, cfg.nl, rest);
    TrimTrimmed(line);
  }

  lemma PlainTaken(cfg: Config, pre: string, line: string, rest: string)
    requires IsSystemNewLine(cfg.nl) && Trimmed(line) && OneLine(line) && (pre == "" || pre == " ")
    ensures PlainValue(pre + line + cfg.nl + rest) == (line, rest)
  {
    hide PlainValue, Trimmed, OneLine;
    PlainLine(cfg, line, rest);
    assert "" + line + cfg.nl + rest == line + cfg.nl + rest;
  }

  lemma BlockTaken(cfg: Config, pre: string, value: string, rest: string)
    requires IsSystemNewLine(cfg.nl) && (pre == "" || pre == " ") && cfg.multiLine && IsMultiLineData(value)
    ensures var s := OutputMultiLine(value, cfg.nl) + (END_OF_TEXT + cfg.nl + rest);
      var b := LoadBlock(cfg.nocase, s, END_OF_TEXT);
      TakeValue(cfg, pre + ValueText(cfg, value) + cfg.nl + rest) == Some((BlockValue(s, b), b.rest))
  {
    hide PlainValue, OutputMultiLine, LoadBlock, BlockValue, Trimmed, OneLine, IsMultiLineData, IsSystemNewLine;
    var s := OutputMultiLine(value, cfg.nl) + (END_OF_TEXT + cfg.nl + rest);
    TagIsGood();
    PlainTaken(cfg, pre, "<<<" + END_OF_TEXT, s);
    assert pre + ValueText(cfg, value) + cfg.nl + rest == pre + ("<<<" + END_OF_TEXT) + cfg.nl + s;
    assert ("<<<" + END_OF_TEXT)[3..] == END_OF_TEXT;
  }

  lemma TagIsGood()
    ensures Trimmed("<<<" + END_OF_TEXT) && OneLine("<<<" + END_OF_TEXT) && OneLine(END_OF_TEXT)
  {
  }

  lemma BlockShortens(nocase: bool, s: string, tag: string)
    ensures s != "" ==> |LoadBlock(nocase, s, tag).rest| < |s|
    ensures s == "" ==> LoadBlock(nocase, s, tag).lines == if Same(nocase, "", tag) then [] else [""]
  {
    hide Same;
  }

  /** A value that is written is found again, with all that follows it, if and only if it is good. */
  lemma ValueSurvivesIff(cfg: Config, pre: string, value: string, rest: string)
    requires IsSystemNewLine(cfg.nl) && (pre == "" || pre == " ")
    ensures TakeValue(cfg, pre + ValueText(cfg, value) + cfg.nl + rest) == Some((value, rest))
        <==> GoodValue(cfg, value)
  {
    hide PlainValue, LoadBlock, Split, Same, Trimmed, OneLine, IsSystemNewLine, OutputMultiLine, IsMultiLineData;
    var text := pre + ValueText(cfg, value) + cfg.nl + rest;
    NotMultiLine(value);
    if cfg.multiLine && IsMultiLineData(value) {
      EmptyIsPlain();
      TagIsGood();
      BlockTaken(cfg, pre, value, rest);
      MultiLineSurvivesIff(cfg.nocase, value, END_OF_TEXT, cfg.nl, rest);
      if GoodValue(cfg, value) {
        MultiLineRoundTrip(cfg.nocase, value, END_OF_TEXT, cfg.nl, rest);
      }
    } else if IsMultiLineData(value) {
      PlainIsPlain(text);
    } else {
      PlainTaken(cfg, pre, value, rest);
      if cfg.multiLine && "<<<" <= value {
        BlockShortens(cfg.nocase, rest, value[3..]);
        OnlyEmptyIsEmpty(cfg.nocase, value[3..]);
      }
    }
  }

  lemma EmptyIsPlain()
    ensures !IsMultiLineData("")
  {
  }

  lemma OnlyEmptyIsEmpty(nocase: bool, tag: string)
    ensures Same(nocase, "", tag) <==> tag == ""
  {
    assert Same(nocase, "", tag) ==> |Fold(nocase, tag)| == 0;
  }

  // ---------------------------------------------------------------- keys

  function Pad(cfg: Config): (r: string)
    ensures r == "" || r == " "
  {
    if cfg.spaces then " " else ""
  }

  lemma NothingSkipped(s: string)
    requires s != "" && !IsSpace(s[0])
    ensures SkipSpaces(s) == s
  {
  }

  /** Where the name ends on a key's line, and that it is found without the space behind it. */
  lemma NameOnLine(cfg: Config, key: string, rest: string)
    requires GoodKey(key)
    ensures var s := key + Equals(cfg) + rest; var n := |key + Pad(cfg)|;
      && Span(s, c => c == '=' || IsNewLine(c)) == n < |s| && s[n] == '=' && s[n + 1..] == Pad(cfg) + rest
      && TrimRight(s[..n]) == key
  {
    hide Span, TrimRight;
    var stop := c => c == '=' || IsNewLine(c);
    var name := key + Pad(cfg);
    var s := key + Equals(cfg) + rest;
    forall c | c in name ensures !stop(c) {
      if c in key {
        var i :| 0 <= i < |key| && key[i] == c;
      }
    }
    assert s == name + ("=" + Pad(cfg) + rest);
    SpanIs(name, "=" + Pad(cfg) + rest, stop);
    TrimTrimmed(key);
    assert s[..|name|] == name && key + "" == key;
    assert s[|name| + 1..] == Pad(cfg) + rest;
  }

  lemma FirstIsNoSpace(key: string)
    requires GoodKey(key)
    ensures key != "" && !IsSpace(key[0])
  {
  }

  lemma KeyLine(cfg: Config, section: string, key: string, rest: string)
    requires GoodKey(key)
    ensures FindEntry(cfg, Named(section), key + Equals(cfg) + rest)
         == match TakeValue(cfg, Pad(cfg) + rest)
            case None => Found.Ended
            case Some(taken) => Found(Entry(section, Some(key), taken.0), Named(section), taken.1)
  {
    hide TakeValue, TrimRight, Trimmed, OneLine, SkipSpaces, FindSection;
    var s := key + Equals(cfg) + rest;
    FirstIsNoSpace(key);
    assert s[0] == key[0];
    NothingSkipped(s);
    NameOnLine(cfg, key, rest);
  }

  /** A key's line is read back if and only if its value is good, and the reader is then behind the line. */
  lemma KeySurvivesIff(cfg: Config, section: string, key: string, value: string, rest: string)
    requires IsSystemNewLine(cfg.nl) && GoodKey(key)
    ensures FindEntry(cfg, Named(section), key + Equals(cfg) + ValueText(cfg, value) + cfg.nl + rest)
         == Found(Entry(section, Some(key), value), Named(section), rest)
        <==> GoodValue(cfg, value)
  {
    hide TakeValue, FindEntry, GoodValue, GoodKey, ValueText, IsSystemNewLine;
    var line := ValueText(cfg, value) + cfg.nl + rest;
    assert key + Equals(cfg) + ValueText(cfg, value) + cfg.nl + rest == key + Equals(cfg) + line;
    assert Pad(cfg) + line == Pad(cfg) + ValueText(cfg, value) + cfg.nl + rest;
    KeyLine(cfg, section, key, line);
    ValueSurvivesIff(cfg, Pad(cfg), value, rest);
  }

  lemma TrimRightKeeps(s: string)
    requires s != "" && !IsSpace(s[0])
    ensures TrimRight(s) != "" && TrimRight(s)[0] == s[0] && TrimRight(s) <= s
  {
    assert s[..1] == [s[0]];
  }

  /** Whatever the text, the keys found in it are good ones. */
  lemma {:induction false} FoundKeysAreGood(cfg: Config, h: Heading, s: string)
    ensures var f := FindEntry(cfg, h, s); f.Found? && f.entry.key.Some? ==> GoodKey(f.entry.key.value)
    decreases |s|, 1
  {
    hide TakeValue, GoodKey;
    var t := SkipSpaces(s);
    if t != "" {
      if StartsComment(t) {
        var after := t[LineEnd(t)..];
        FoundKeysAreGood(cfg, if StartsComment(SkipSpaces(after)) then h else EndAt(h, after), after);
      } else if t[0] == '[' {
        FoundInSection(cfg, SkipSpaces(t[1..]));
      } else {
        FoundKeyIsGood(cfg, h, t);
      }
    }
  }

  lemma {:induction false} FoundInSection(cfg: Config, s: string)
    ensures var f := FindSection(cfg, s); f.Found? && f.entry.key.Some? ==> GoodKey(f.entry.key.value)
    decreases |s|, 2
  {
    hide GoodKey, FindEntry;
    var n := Span(s, c => c == ']' || IsNewLine(c));
    FoundKeysAreGood(cfg, Unended(s), s[n..]);
  }

  lemma {:induction false} FoundKeyIsGood(cfg: Config, h: Heading, s: string)
    requires s != "" && !IsSpace(s[0]) && !IsComment(s[0]) && s[0] != '['
    ensures var f := FindKey(cfg, h, s); f.Found? && f.entry.key.Some? ==> GoodKey(f.entry.key.value)
    decreases |s|, 0
  {
    hide TakeValue, FindEntry, TrimRight;
    var n := Span(s, c => c == '=' || IsNewLine(c));
    if n == |s| || s[n] != '=' {
      FoundKeysAreGood(cfg, h, s[n..]);
    } else if n == 0 {
      FoundKeysAreGood(cfg, h, s[LineEnd(s)..]);
    } else {
      TrimRightKeeps(s[..n]);
      TrimRightEnds(s[..n]);
    }
  }

  // ---------------------------------------------------------------- sections

  predicate GoodKeyView(cfg: Config, k: KeyView) {
    && GoodKey(k.name)
    && k.values != []
    && (!cfg.multiKey ==> |k.values| == 1)
    && forall x | x in k.values :: GoodValue(cfg, x)
  }

  ghost predicate Differ(nocase: bool, names: seq<string>) {
    forall i, j | 0 <= i < j < |names| :: !Same(nocase, names[i], names[j])
  }

  ghost predicate GoodSectionView(cfg: Config, s: SectionView) {
    && GoodSection(s.name)
    && (s.name == "" ==> s.keys != [])
    && Differ(cfg.nocase, KeyNames(s.keys))
    && forall k | k in s.keys :: GoodKeyView(cfg, k)
  }

  /** What Save writes so that loading gives it back: the keys without a section come first, and are not
      none; names differ and hold no character that ends them; values are good. */
  ghost predicate WellFormed(cfg: Config, v: View) {
    && Differ(cfg.nocase, SectionNames(v))
    && (forall i | 0 < i < |v| :: v[i].name != "")
    && forall s | s in v :: GoodSectionView(cfg, s)
  }

  function ValueEntries(section: string, name: string, values: seq<string>): seq<Entry> {
    if values == [] then [] else [Entry(section, Some(name), values[0])] + ValueEntries(section, name, values[1..])
  }

  function KeyEntries(section: string, keys: seq<KeyView>): seq<Entry> {
    if keys == [] then []
    else ValueEntries(section, keys[0].name, keys[0].values) + KeyEntries(section, keys[1..])
  }

  function SectionEntries(s: SectionView): seq<Entry> {
    (if s.name == "" then [] else [Entry(s.name, None, "")]) + KeyEntries(s.name, s.keys)
  }

  function ViewEntries(v: View): seq<Entry> {
    if v == [] then [] else SectionEntries(v[0]) + ViewEntries(v[1..])
  }

  lemma {:induction false} ValuesReadBack(cfg: Config, section: string, name: string, values: seq<string>,
                                          rest: string)
    requires IsSystemNewLine(cfg.nl) && GoodKey(name) && forall x | x in values :: GoodValue(cfg, x)
    ensures Entries(cfg, Named(section), ValuesText(cfg, name, values) + rest)
         == ValueEntries(section, name, values) + Entries(cfg, Named(section), rest)
  {
    hide GoodValue, GoodKey, FindEntry, ValueText, IsSystemNewLine, Equals;
    if values == [] {
      assert ValuesText(cfg, name, values) + rest == rest;
    } else {
      var more := ValuesText(cfg, name, values[1..]) + rest;
      assert ValuesText(cfg, name, values) + rest
          == name + Equals(cfg) + ValueText(cfg, values[0]) + cfg.nl + more;
      assert values[0] in values;
      KeySurvivesIff(cfg, section, name, values[0], more);
      ValuesReadBack(cfg, section, name, values[1..], rest);
    }
  }

  lemma {:induction false} KeysReadBack(cfg: Config, section: string, keys: seq<KeyView>, rest: string)
    requires IsSystemNewLine(cfg.nl) && forall k | k in keys :: GoodKeyView(cfg, k)
    ensures Entries(cfg, Named(section), KeysText(cfg, keys) + rest)
         == KeyEntries(section, keys) + Entries(cfg, Named(section), rest)
  {
    hide GoodValue, GoodKey, Entries, ValuesText, IsSystemNewLine;
    if keys == [] {
      assert KeysText(cfg, keys) + rest == rest;
    } else {
      var more := KeysText(cfg, keys[1..]) + rest;
      assert KeysText(cfg, keys) + rest == ValuesText(cfg, keys[0].name, keys[0].values) + more;
      assert keys[0] in keys;
      ValuesReadBack(cfg, section, keys[0].name, keys[0].values, more);
      KeysReadBack(cfg, section, keys[1..], rest);
    }
  }

  lemma SpaceSkipped(cfg: Config, h: Heading, c: char, rest: string)
    requires IsSpace(c)
    ensures Entries(cfg, h, [c] + rest) == Entries(cfg, h, rest)
  {
    hide FindKey, FindSection, LineEnd, EndAt;
    assert SkipSpaces([c] + rest) == SkipSpaces(rest) by {
      var s := [c] + rest;
      var stop := (x: char) => !IsSpace(x);
      assert s[1..] == rest;
      assert s[Span(s, stop)..] == rest[Span(rest, stop)..];
    }
    assert FindEntry(cfg, h, [c] + rest) == FindEntry(cfg, h, rest);
  }

  lemma NewLineSkipped(cfg: Config, h: Heading, rest: string)
    requires IsSystemNewLine(cfg.nl)
    ensures Entries(cfg, h, cfg.nl + rest) == Entries(cfg, h, rest)
  {
    hide Entries;
    if cfg.nl == "\r\n" {
      assert cfg.nl + rest == "\r" + ("\n" + rest);
      SpaceSkipped(cfg, h, '\r', "\n" + rest);
    }
    SpaceSkipped(cfg, h, '\n', rest);
  }

  lemma SectionName(cfg: Config, name: string, after: string)
    requires GoodSection(name) && (after != "" ==> IsNewLine(after[0]))
    ensures var t := name + "]" + after; var n := |name|;
      && Span(t, c => c == ']' || IsNewLine(c)) == n < |t| && t[n] == ']' && t[..n] == name && t[n + 1..] == after
      && TrimRight(name) == name && after[LineEnd(after)..] == after
  {
    var stop := c => c == ']' || IsNewLine(c);
    forall c | c in name ensures !stop(c) {
      var i :| 0 <= i < |name| && name[i] == c;
    }
    assert name + "]" + after == name + ("]" + after);
    SpanIs(name, "]" + after, stop);
    TrimTrimmed(name);
    assert "" + after == after;
    SpanIs("", after, IsNewLine);
  }

  lemma SectionFoundAgain(cfg: Config, name: string, after: string)
    requires GoodSection(name) && (after != "" ==> IsNewLine(after[0]))
    ensures FindSection(cfg, name + "]" + after) == Found(Entry(name, None, ""), Named(name), after)
  {
    hide GoodSection, FindEntry, TrimRight, LineEnd;
    SectionName(cfg, name, after);
  }

  /** A section's header is read back, and the reader is then at its line's end. */
  lemma HeaderFound(cfg: Config, h: Heading, name: string, rest: string)
    requires IsSystemNewLine(cfg.nl) && GoodSection(name) && name != ""
    ensures FindEntry(cfg, h, "[" + name + "]" + cfg.nl + rest)
         == Found(Entry(name, None, ""), Named(name), cfg.nl + rest)
  {
    hide FindKey, FindSection, FindEntry, SkipSpaces;
    var after := cfg.nl + rest;
    var s := "[" + name + "]" + cfg.nl + rest;
    assert s == "[" + (name + "]" + after);
    NothingSkipped(s);
    NothingSkipped(name + "]" + after);
    HeaderStep(cfg, h, s);
    SectionFoundAgain(cfg, name, after);
  }

  lemma HeaderStep(cfg: Config, h: Heading, s: string)
    requires SkipSpaces(s) == s && s != "" && s[0] == '['
    ensures FindEntry(cfg, h, s) == FindSection(cfg, SkipSpaces(s[1..]))
  {
    hide FindKey, FindSection;
  }

  lemma SectionReadBack(cfg: Config, h: Heading, s: SectionView, rest: string)
    requires IsSystemNewLine(cfg.nl) && GoodSectionView(cfg, s) && (s.name == "" ==> h == Named(""))
    ensures Entries(cfg, h, SectionText(cfg, s) + rest)
         == SectionEntries(s) + Entries(cfg, Named(s.name), rest)
  {
    hide GoodSection, GoodKeyView, FindEntry, KeysText, IsSystemNewLine, KeyEntries;
    var body := KeysText(cfg, s.keys) + rest;
    KeysReadBack(cfg, s.name, s.keys, rest);
    if s.name == "" {
      assert SectionText(cfg, s) + rest == body;
    } else {
      assert SectionText(cfg, s) + rest == "[" + s.name + "]" + cfg.nl + body;
      HeaderFound(cfg, h, s.name, body);
      NewLineSkipped(cfg, Named(s.name), body);
    }
  }

  lemma NoEntries(cfg: Config, h: Heading)
    ensures Entries(cfg, h, "") == []
  {
  }

  lemma {:induction false} SavedMoreReadBack(cfg: Config, h: Heading, v: View)
    requires IsSystemNewLine(cfg.nl) && forall s | s in v :: GoodSectionView(cfg, s) && s.name != ""
    ensures Entries(cfg, h, SavedMore(cfg, v)) == ViewEntries(v)
    decreases |v|
  {
    hide GoodSectionView, Entries, SectionText, IsSystemNewLine, SectionEntries;
    if v == [] {
      NoEntries(cfg, h);
    } else {
      var more := SavedMore(cfg, v[1..]);
      var section := SectionText(cfg, v[0]) + more;
      assert v[0] in v;
      assert SavedMore(cfg, v) == cfg.nl + (cfg.nl + section);
      NewLineSkipped(cfg, h, cfg.nl + section);
      NewLineSkipped(cfg, h, section);
      SectionReadBack(cfg, h, v[0], more);
      SavedMoreReadBack(cfg, Named(v[0].name), v[1..]);
    }
  }

  /** The entries of a saved text are those of what was saved, in order. */
  lemma SavedReadsBack(cfg: Config, v: View)
    requires IsSystemNewLine(cfg.nl) && WellFormed(cfg, v)
    ensures Entries(cfg, Named(""), Saved(cfg, v)) == ViewEntries(v)
  {
    hide GoodSectionView, Entries, SectionText, IsSystemNewLine, SectionEntries, Differ, SavedMore;
    if v == [] {
      NoEntries(cfg, Named(""));
    } else {
      assert v[0] in v;
      forall s | s in v[1..] ensures GoodSectionView(cfg, s) && s.name != "" {
        var i :| 0 <= i < |v[1..]| && v[1..][i] == s;
        assert v[i + 1] == s;
      }
      SectionReadBack(cfg, Named(""), v[0], SavedMore(cfg, v[1..]));
      SavedMoreReadBack(cfg, Named(v[0].name), v[1..]);
    }
  }

  // ---------------------------------------------------------------- adding the entries again

  lemma {:induction false} AddAllTwice(cfg: Config, v: View, a: seq<Entry>, b: seq<Entry>)
    ensures AddAll(cfg, v, a + b) == AddAll(cfg, AddAll(cfg, v, a), b)
    decreases |a|
  {
    hide AddEntry;
    if a == [] {
      assert a + b == b;
    } else {
      assert (a + b)[0] == a[0] && (a + b)[1..] == a[1..] + b;
      AddAllTwice(cfg, AddEntry(cfg, v, a[0], false), a[1..], b);
    }
  }

  lemma {:induction false} PlaceOfNew(nocase: bool, names: seq<string>, name: string)
    requires forall i | 0 <= i < |names| :: !Same(nocase, names[i], name)
    ensures Place(nocase, names, name) == |names|
  {
  }

  lemma {:induction false} PlaceOfLast(nocase: bool, names: seq<string>, name: string)
    requires forall i | 0 <= i < |names| :: !Same(nocase, names[i], name)
    ensures Place(nocase, names + [name], name) == |names|
  {
    var all := names + [name];
    var i := Place(nocase, all, name);
    assert forall j | 0 <= j < |names| :: all[j] == names[j];
    SameItself(nocase, name);
    assert all[|names|] == name;
  }

  /** No section of v has this name. */
  ghost predicate NewSection(nocase: bool, v: View, name: string) {
    forall i | 0 <= i < |v| :: !Same(nocase, v[i].name, name)
  }

  ghost predicate NewKey(nocase: bool, keys: seq<KeyView>, name: string) {
    forall i | 0 <= i < |keys| :: !Same(nocase, keys[i].name, name)
  }

  lemma LastSection(cfg: Config, v: View, name: string, keys: seq<KeyView>)
    requires NewSection(cfg.nocase, v, name)
    ensures Place(cfg.nocase, SectionNames(v), name) == |v|
    ensures Place(cfg.nocase, SectionNames(v + [Section(name, keys)]), name) == |v|
  {
    hide Same, Place;
    PlaceOfNew(cfg.nocase, SectionNames(v), name);
    assert SectionNames(v + [Section(name, keys)]) == SectionNames(v) + [name];
    PlaceOfLast(cfg.nocase, SectionNames(v), name);
  }

  lemma LastKey(cfg: Config, keys: seq<KeyView>, name: string, values: seq<string>)
    requires NewKey(cfg.nocase, keys, name)
    ensures Place(cfg.nocase, KeyNames(keys), name) == |keys|
    ensures Place(cfg.nocase, KeyNames(keys + [Key(name, values)]), name) == |keys|
  {
    hide Same, Place;
    PlaceOfNew(cfg.nocase, KeyNames(keys), name);
    assert KeyNames(keys + [Key(name, values)]) == KeyNames(keys) + [name];
    PlaceOfLast(cfg.nocase, KeyNames(keys), name);
  }

  /** A value added to the last section, for a new key or for the last one. */
  lemma ValueAdded(cfg: Config, v: View, name: string, keys: seq<KeyView>, k: string, done: seq<string>, x: string)
    requires NewSection(cfg.nocase, v, name) && NewKey(cfg.nocase, keys, k) && (done != [] ==> cfg.multiKey)
    ensures var before := if done == [] then keys else keys + [Key(k, done)];
      AddEntry(cfg, v + [Section(name, before)], Entry(name, Some(k), x), false)
      == v + [Section(name, keys + [Key(k, done + [x])])]
  {
    hide Place, Same;
    var before := if done == [] then keys else keys + [Key(k, done)];
    LastSection(cfg, v, name, before);
    LastKey(cfg, keys, k, done);
    assert [] + [x] == [x];
    var w := v + [Section(name, before)];
    assert w[|v|] == Section(name, before);
    assert AddValue(cfg, before, k, x, false) == keys + [Key(k, done + [x])];
    assert w[|v| := Section(name, keys + [Key(k, done + [x])])] == v + [Section(name, keys + [Key(k, done + [x])])];
  }

  lemma {:induction false} ValuesAdded(cfg: Config, v: View, name: string, keys: seq<KeyView>, k: string,
                                       done: seq<string>, values: seq<string>)
    requires NewSection(cfg.nocase, v, name) && NewKey(cfg.nocase, keys, k)
    requires cfg.multiKey || (done == [] && |values| == 1) || (|done| == 1 && values == [])
    ensures var before := if done == [] then keys else keys + [Key(k, done)];
      done + values != [] ==>
        AddAll(cfg, v + [Section(name, before)], ValueEntries(name, k, values))
        == v + [Section(name, keys + [Key(k, done + values)])]
    decreases |values|
  {
    hide AddEntry, NewSection, NewKey;
    if values == [] {
      assert done + [] == done;
    } else {
      ValueAdded(cfg, v, name, keys, k, done, values[0]);
      ValuesAdded(cfg, v, name, keys, k, done + [values[0]], values[1..]);
      assert done + values == (done + [values[0]]) + values[1..];
    }
  }

  lemma {:induction false} KeysAdded(cfg: Config, v: View, name: string, keys: seq<KeyView>, more: seq<KeyView>)
    requires NewSection(cfg.nocase, v, name) && Differ(cfg.nocase, KeyNames(keys + more))
    requires forall k | k in more :: GoodKeyView(cfg, k)
    ensures AddAll(cfg, v + [Section(name, keys)], KeyEntries(name, more)) == v + [Section(name, keys + more)]
    decreases |more|
  {
    hide AddEntry, NewSection, Same, GoodKey, GoodValue, AddAll, ValueEntries;
    if more == [] {
      NothingAdded(cfg, v + [Section(name, keys)]);
      assert keys + more == keys;
    } else {
      var k := more[0];
      assert k in more;
      NextKeyIsNew(cfg, keys, more);
      ValuesAdded(cfg, v, name, keys, k.name, [], k.values);
      assert [] + k.values == k.values && Key(k.name, k.values) == k;
      assert (keys + [k]) + more[1..] == keys + more;
      KeysAdded(cfg, v, name, keys + [k], more[1..]);
      AddAllTwice(cfg, v + [Section(name, keys)], ValueEntries(name, k.name, k.values), KeyEntries(name, more[1..]));
    }
  }

  lemma NothingAdded(cfg: Config, v: View)
    ensures AddAll(cfg, v, []) == v
  {
  }

  lemma NextKeyIsNew(cfg: Config, keys: seq<KeyView>, more: seq<KeyView>)
    requires more != [] && Differ(cfg.nocase, KeyNames(keys + more))
    ensures NewKey(cfg.nocase, keys, more[0].name)
  {
    hide Same;
    var names := KeyNames(keys + more);
    assert names[|keys|] == more[0].name;
    assert forall i | 0 <= i < |keys| :: names[i] == keys[i].name;
  }

  lemma NextSectionIsNew(cfg: Config, v: View, more: View)
    requires more != [] && Differ(cfg.nocase, SectionNames(v + more))
    ensures NewSection(cfg.nocase, v, more[0].name)
  {
    hide Same;
    var names := SectionNames(v + more);
    assert names[|v|] == more[0].name;
    assert forall i | 0 <= i < |v| :: names[i] == v[i].name;
  }

  /** The first entry of a section makes the section, whether it is its header or a key. */
  lemma SectionStarts(cfg: Config, v: View, e: Entry, force: bool)
    requires NewSection(cfg.nocase, v, e.section)
    ensures AddEntry(cfg, v, e, force) == AddEntry(cfg, v + [Section(e.section, [])], e, force)
    ensures e.key.None? ==> AddEntry(cfg, v, e, force) == v + [Section(e.section, [])]
  {
    hide Place, Same;
    LastSection(cfg, v, e.section, []);
  }

  lemma FirstKeyEntry(name: string, keys: seq<KeyView>)
    requires keys != [] && keys[0].values != []
    ensures KeyEntries(name, keys) != [] && KeyEntries(name, keys)[0].section == name
  {
  }

  lemma FirstAdded(cfg: Config, v: View, entries: seq<Entry>)
    requires entries != []
    ensures AddAll(cfg, v, entries) == AddAll(cfg, AddEntry(cfg, v, entries[0], false), entries[1..])
  {
    hide AddEntry;
  }

  lemma GoodSectionParts(cfg: Config, s: SectionView)
    requires GoodSectionView(cfg, s)
    ensures s.name == "" ==> s.keys != [] && s.keys[0].values != []
    ensures Differ(cfg.nocase, KeyNames(s.keys)) && forall k | k in s.keys :: GoodKeyView(cfg, k)
  {
    hide GoodKey, GoodValue, Same, GoodSection;
    assert s.keys != [] ==> s.keys[0] in s.keys;
  }

  lemma SectionAdded(cfg: Config, v: View, s: SectionView)
    requires NewSection(cfg.nocase, v, s.name) && GoodSectionView(cfg, s)
    ensures AddAll(cfg, v, SectionEntries(s)) == v + [s]
  {
    hide AddEntry, AddAll, NewSection, GoodSectionView, GoodKeyView, KeyEntries, Differ, KeyNames;
    GoodSectionParts(cfg, s);
    var start := v + [Section(s.name, [])];
    var entries, keys := SectionEntries(s), KeyEntries(s.name, s.keys);
    assert [] + s.keys == s.keys;
    KeysAdded(cfg, v, s.name, [], s.keys);
    if s.name == "" {
      FirstKeyEntry(s.name, s.keys);
      assert entries == keys;
      FirstAdded(cfg, v, keys);
      FirstAdded(cfg, start, keys);
      SectionStarts(cfg, v, keys[0], false);
    } else {
      assert entries[1..] == keys;
      FirstAdded(cfg, v, entries);
      SectionStarts(cfg, v, entries[0], false);
    }
  }

  lemma {:induction false} ViewAdded(cfg: Config, v: View, more: View)
    requires Differ(cfg.nocase, SectionNames(v + more)) && forall s | s in more :: GoodSectionView(cfg, s)
    ensures AddAll(cfg, v, ViewEntries(more)) == v + more
    decreases |more|
  {
    hide AddAll, GoodSectionView, SectionEntries, Differ;
    if more == [] {
      NothingAdded(cfg, v);
      assert v + more == v;
    } else {
      assert more[0] in more;
      NextSectionIsNew(cfg, v, more);
      SectionAdded(cfg, v, more[0]);
      assert (v + [more[0]]) + more[1..] == v + more;
      ViewAdded(cfg, v + [more[0]], more[1..]);
      AddAllTwice(cfg, v, SectionEntries(more[0]), ViewEntries(more[1..]));
    }
  }

  // ---------------------------------------------------------------- no NUL

  /** C strings. */
  predicate Clean(s: string) {
    '\0' !in s
  }

  ghost predicate CleanView(v: View) {
    forall s | s in v :: Clean(s.name) && forall k | k in s.keys :: Clean(k.name) && forall x | x in k.values ::
        Clean(x)
  }

  lemma {:induction false} CleanOutput(text: string, nl: string)
    requires Clean(text) && IsSystemNewLine(nl)
    ensures Clean(OutputLines(Split(text), nl))
  {
    var n := Span(text, c => c == '\n');
    if n < |text| {
      CleanOutput(text[n + 1..], nl);
    }
  }

  lemma CleanValueText(cfg: Config, value: string)
    requires Clean(value) && IsSystemNewLine(cfg.nl)
    ensures Clean(ValueText(cfg, value))
  {
    hide OutputLines, Split, IsMultiLineData;
    CleanOutput(value, cfg.nl);
  }

  lemma {:induction false} CleanValues(cfg: Config, name: string, values: seq<string>)
    requires Clean(name) && IsSystemNewLine(cfg.nl) && forall x | x in values :: Clean(x)
    ensures Clean(ValuesText(cfg, name, values))
  {
    hide ValueText;
    if values != [] {
      assert values[0] in values;
      CleanValueText(cfg, values[0]);
      CleanValues(cfg, name, values[1..]);
    }
  }

  lemma {:induction false} CleanKeys(cfg: Config, keys: seq<KeyView>)
    requires IsSystemNewLine(cfg.nl)
    requires forall k | k in keys :: Clean(k.name) && forall x | x in k.values :: Clean(x)
    ensures Clean(KeysText(cfg, keys))
  {
    hide ValuesText;
    if keys != [] {
      assert keys[0] in keys;
      CleanValues(cfg, keys[0].name, keys[0].values);
      CleanKeys(cfg, keys[1..]);
    }
  }

  lemma CleanSection(cfg: Config, s: SectionView)
    requires CleanView([s]) && IsSystemNewLine(cfg.nl)
    ensures Clean(SectionText(cfg, s))
  {
    hide KeysText;
    assert s in [s];
    CleanKeys(cfg, s.keys);
  }

  lemma {:induction false} CleanMore(cfg: Config, v: View)
    requires CleanView(v) && IsSystemNewLine(cfg.nl)
    ensures Clean(SavedMore(cfg, v))
  {
    hide SectionText;
    if v != [] {
      assert v[0] in v;
      CleanSection(cfg, v[0]);
      CleanMore(cfg, v[1..]);
    }
  }

  lemma CleanSaved(cfg: Config, v: View)
    requires CleanView(v) && IsSystemNewLine(cfg.nl)
    ensures Clean(Saved(cfg, v)) && UpToNul(Saved(cfg, v)) == Saved(cfg, v)
  {
    hide SectionText, SavedMore;
    if v != [] {
      assert v[0] in v;
      CleanSection(cfg, v[0]);
      CleanMore(cfg, v[1..]);
    }
    var s := Saved(cfg, v);
    var n := Span(s, c => c == '\0');
    assert forall i | 0 <= i < |s| :: s[i] in s;
  }

  /** Loading what was saved gives it back: the same sections, keys and values, in the same order. */
  lemma SaveThenLoad(cfg: Config, v: View)
    requires IsSystemNewLine(cfg.nl) && WellFormed(cfg, v) && CleanView(v)
    ensures Loaded(cfg, [], Saved(cfg, v)) == v
  {
    hide AddAll, Entries, Saved, ViewEntries;
    CleanSaved(cfg, v);
    SavedReadsBack(cfg, v);
    assert [] + v == v;
    ViewAdded(cfg, [], v);
  }
}
