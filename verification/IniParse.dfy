/** FindEntry: the next section header or key of the text. Positions in the text are the suffixes that start
    there. */
module IniParse {
  import opened Wrappers
  import opened IniText

  /** The settings of the parser and the printer. `nl` is the newline of the system. */
  datatype Config = Config(nocase: bool, multiKey: bool, multiLine: bool, spaces: bool, nl: string)

  /** An entry to add: a section header has no key. */
  datatype Entry = Entry(section: string, key: Option<string>, value: string)

  /** The section name kept between entries. That of a header without ']' is not ended yet: it is the text
      from there to wherever the parser ends a string next. */
  datatype Heading = Named(name: string) | Unended(text: string)

  datatype Found = Found(entry: Entry, heading: Heading, rest: string) | Ended

  /** A string was ended at the start of s. */
  function EndAt(h: Heading, s: string): Heading {
    if h.Unended? && |s| <= |h.text| then Named(h.text[..|h.text| - |s|]) else h
  }

  function NameOf(h: Heading): string {
    if h.Named? then h.name else h.text
  }

  function SkipSpaces(s: string): (r: string)
    ensures |r| <= |s| && (r != "" ==> !IsSpace(r[0]))
  {
    s[Span(s, c => !IsSpace(c))..]
  }

  function SkipBlanks(s: string): (r: string)
    ensures |r| <= |s|
  {
    s[Span(s, c => !IsSpace(c) || IsNewLine(c))..]
  }

  /** The value on the line behind '=', without the spaces at its ends, and what follows the line. */
  function PlainValue(s: string): (r: (string, string))
    ensures |r.1| <= |s|
  {
    var v := SkipBlanks(s);
    var m := LineEnd(v);
    (TrimRight(v[..m]), if m < |v| then SkipNewLine(v[m..]) else "")
  }

  /** The value behind '=' and what follows it. An empty block with an empty tag stops the parser. */
  function TakeValue(cfg: Config, s: string): (r: Option<(string, string)>)
    ensures r.Some? ==> |r.value.1| <= |s|
  {
    var line := PlainValue(s);
    if cfg.multiLine && "<<<" <= line.0 then
      var tag := line.0[3..];
      var b := LoadBlock(cfg.nocase, line.1, tag);
      if b.lines == [] && tag == "" then None else Some((BlockValue(line.1, b), b.rest))
    else
      Some(line)
  }

  predicate StartsComment(s: string) {
    s != "" && IsComment(s[0])
  }

  /** Comment lines are passed over; the last line of a comment ends a string. */
  function FindEntry(cfg: Config, h: Heading, s: string): (f: Found)
    ensures f.Found? ==> |f.rest| < |s|
    decreases |s|, 1
  {
    var t := SkipSpaces(s);
    if t == "" then Ended
    else if StartsComment(t) then
      var after := t[LineEnd(t)..];
      FindEntry(cfg, if StartsComment(SkipSpaces(after)) then h else EndAt(h, after), after)
    else if t[0] == '[' then
      FindSection(cfg, SkipSpaces(t[1..]))
    else
      FindKey(cfg, h, t)
  }

  /** s follows '[' and spaces. */
  function FindSection(cfg: Config, s: string): (f: Found)
    ensures f.Found? ==> |f.rest| <= |s|
    decreases |s|, 2
  {
    var n := Span(s, c => c == ']' || IsNewLine(c));
    if n < |s| && s[n] == ']' then
      var name := TrimRight(s[..n]);
      var after := s[n + 1..];
      Found(Entry(name, None, ""), Named(name), after[LineEnd(after)..])
    else
      FindEntry(cfg, Unended(s), s[n..])
  }

  /** s starts with the first character of a key or of an invalid line. */
  function FindKey(cfg: Config, h: Heading, s: string): (f: Found)
    requires s != "" && !IsSpace(s[0])
    ensures f.Found? ==> |f.rest| < |s|
    decreases |s|, 0
  {
    var n := Span(s, c => c == '=' || IsNewLine(c));
    if n == |s| || s[n] != '=' then FindEntry(cfg, h, s[n..])
    else if n == 0 then FindEntry(cfg, h, s[LineEnd(s)..])
    else
      var key := TrimRight(s[..n]);
      var heading := EndAt(h, s[|key|..]);
      var taken := TakeValue(cfg, s[n + 1..]);
      if taken.None? then Ended
      else Found(Entry(NameOf(heading), Some(key), taken.value.0), heading, taken.value.1)
  }
}
