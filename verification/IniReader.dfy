/** FindEntry as the loader runs it: a position that advances through the loader's buffer, in which every
    string found is ended by a NUL. */
module IniReader {
  import opened Wrappers
  import opened IniText
  import opened IniBlocks
  import opened IniParse

  /** One scanning loop: to the next character that stops it, or to the NUL. */
  method Scan(a: array<char>, p: nat, stop: char -> bool, ghost e: nat) returns (q: nat)
    requires EndsAt(a[..], p, e)
    ensures q == p + Span(a[p..e], stop) && p <= q <= e && a[p..q] == a[p..e][..q - p] && a[q..e] == a[p..e][q - p..]
    ensures EndsAt(a[..], q, e)
  {
    q := p;
    while a[q] != '\0' && !stop(a[q])
      invariant p <= q <= e
      invariant forall i | 0 <= i < q - p :: !stop(a[p..e][i])
      decreases e - q
    {
      assert a[p..e][q - p] == a[q];
      q := q + 1;
    }
    assert q < e ==> a[p..e][q - p] == a[q];
    assert a[p..q] == a[p..e][..q - p] && a[q..e] == a[p..e][q - p..];
    SpanEnds(a[p..e], q - p, stop);
    EndedFurtherOn(a[..], a[..], p, q, e);
  }

  lemma {:induction false} SpanEnds(s: string, n: nat, stop: char -> bool)
    requires n <= |s| && (n < |s| ==> stop(s[n])) && forall i | 0 <= i < n :: !stop(s[i])
    ensures Span(s, stop) == n
  {
    if n > 0 {
      SpanEnds(s[1..], n - 1, stop);
    }
  }

  /** Trailing spaces are passed over backwards from the end of the string. */
  method TrailingSpaces(a: array<char>, p: nat, q: nat) returns (t: nat)
    requires p <= q <= a.Length
    ensures p <= t <= q && a[p..t] == TrimRight(a[p..q])
  {
    t := q;
    while t > p && IsSpace(a[t - 1])
      invariant p <= t <= q && TrimRight(a[p..t]) == TrimRight(a[p..q])
    {
      assert a[p..t][..t - p - 1] == a[p..t - 1];
      t := t - 1;
    }
  }

  lemma EndedChar(x: seq<char>, p: nat, e: nat)
    requires EndsAt(x, p, e)
    ensures p <= e < |x| && (x[p] == '\0' <==> p == e)
    ensures p < e ==> x[p..e] != "" && x[p..e][0] == x[p] && x[p..e][1..] == x[p + 1..e] && EndsAt(x, p + 1, e)
  {
    if p < e {
      assert x[p..e][0] == x[p];
      EndedFurtherOn(x, x, p, p + 1, e);
    }
  }

  method SkipNewLineAt(a: array<char>, p: nat, ghost e: nat) returns (q: nat)
    requires EndsAt(a[..], p, e) && p < e
    ensures p < q <= e && q <= p + 2 && a[q..e] == SkipNewLine(a[p..e]) && EndsAt(a[..], q, e)
    ensures q == p + 2 <==> a[p] == '\r' && a[p + 1] == '\n'
  {
    q := if a[p] == '\r' && a[p + 1] == '\n' then p + 2 else p + 1;
    EndedFurtherOn(a[..], a[..], p, q, e);
  }

  // ---------------------------------------------------------------- values

  lemma {:induction false} JoinHasNoNul(lines: seq<string>)
    requires forall l | l in lines :: '\0' !in l
    ensures '\0' !in Join(lines)
  {
    if |lines| > 1 {
      JoinHasNoNul(lines[..|lines| - 1]);
      assert lines[|lines| - 1] in lines;
    } else if |lines| == 1 {
      assert lines[0] in lines;
    }
  }

  lemma {:induction false} BlockHasNoNul(nocase: bool, s: string, tag: string)
    requires '\0' !in s
    ensures forall l | l in LoadBlock(nocase, s, tag).lines :: '\0' !in l
    ensures '\0' !in BlockValue(s, LoadBlock(nocase, s, tag))
    decreases |s|
  {
    hide Join, Same;
    var n := LineEnd(s);
    if !Same(nocase, s[..n], tag) && n < |s| {
      BlockHasNoNul(nocase, SkipNewLine(s[n..]), tag);
    }
    JoinHasNoNul(LoadBlock(nocase, s, tag).lines);
  }

  /** The C string at p. */
  method StringAt(a: array<char>, p: nat, ghost t: string) returns (r: string)
    requires TextAt(a, p, t) && '\0' !in t
    ensures r == t
  {
    forall i | p <= i < p + |t| ensures a[i] != '\0' {
      assert a[i] == a[p..p + |t|][i - p] && t[i - p] in t;
    }
    var q := p;
    while a[q] != '\0'
      invariant p <= q <= p + |t|
      decreases p + |t| - q
    {
      q := q + 1;
    }
    return a[p..q];
  }

  /** A NUL before q, or at the end, does not touch the text from q on. */
  method EndString(a: array<char>, t: nat, q: nat, ghost e: nat)
    requires EndsAt(a[..], q, e) && (t < q || t == e)
    modifies a
    ensures a[q..] == old(a[q..]) && EndsAt(a[..], q, e) && a[q..e] == old(a[q..e])
  {
    ghost var was := a[..];
    a[t] := '\0';
    EndedFurtherOn(a[..], was, q, q, e);
  }

  /** The value's line: where its text ends, and where the next line starts. */
  method ValueLine(a: array<char>, p: nat, ghost e: nat) returns (value: string, t: nat, q: nat)
    requires EndsAt(a[..], p, e)
    ensures p <= q <= e && (value, a[q..e]) == PlainValue(a[p..e]) && EndsAt(a[..], q, e)
    ensures t < q || t == e
    ensures q == p ==> q == e
  {
    hide EndsAt, TrimRight, SkipNewLine;
    var v := Scan(a, p, c => !IsSpace(c) || IsNewLine(c), e);
    ghost var s := a[v..e];
    var m := Scan(a, v, IsNewLine, e);
    t := TrailingSpaces(a, v, m);
    value := a[v..t];
    q := m;
    EndedChar(a[..], m, e);
    if a[q] != '\0' {
      q := SkipNewLineAt(a, q, e);
      assert s[m - v..] == a[m..e];
    }
  }

  method PlainValueAt(a: array<char>, p: nat, ghost e: nat) returns (value: string, q: nat)
    requires EndsAt(a[..], p, e)
    modifies a
    ensures p <= q <= e && (value, old(a[q..e])) == PlainValue(old(a[p..e]))
    ensures a[q..] == old(a[q..]) && a[q..e] == old(a[q..e]) && EndsAt(a[..], q, e)
    ensures q == p ==> q == e
  {
    hide EndsAt, PlainValue;
    var t;
    value, t, q := ValueLine(a, p, e);
    EndString(a, t, q, e);
  }

  /** The value behind '=', which may be a block: loaded in place. */
  method TakeValueAt(cfg: Config, a: array<char>, p: nat, ghost e: nat) returns (ok: bool, value: string, q: nat)
    requires EndsAt(a[..], p, e) && 0 < p
    modifies a
    ensures ok == TakeValue(cfg, old(a[p..e])).Some?
    ensures ok ==> p <= q <= e && a[q..] == old(a[q..]) && EndsAt(a[..], q, e)
    ensures ok ==> Some((value, a[q..e])) == TakeValue(cfg, old(a[p..e]))
  {
    hide EndsAt, PlainValue, LoadBlock, BlockValue, TextAt;
    ghost var was := a[..];
    ok := true;
    value, q := PlainValueAt(a, p, e);
    if cfg.multiLine && "<<<" <= value {
      var tag, from := value[3..], q;
      ghost var mid := a[..];
      EndedInside(mid, from, e);
      NoNulInside(mid, from, e);
      ghost var s := a[from..e];
      ok, q := LoadMultiLineText(cfg.nocase, a, from, tag, e);
      if ok {
        BlockHasNoNul(cfg.nocase, s, tag);
        value := StringAt(a, from, BlockValue(s, LoadBlock(cfg.nocase, s, tag)));
        SameTail(mid, was, from, q);
        EndedFurtherOn(a[..], mid, from, q, e);
      }
    }
  }

  lemma NoNulInside(x: seq<char>, p: nat, e: nat)
    requires EndsAt(x, p, e)
    ensures p <= e < |x| && '\0' !in x[p..e]
  {
  }

  // ---------------------------------------------------------------- entries

  datatype Read = Skipped(heading: Heading) | Stopped | Read(entry: Entry, heading: Heading)

  /** What reading at p told about FindEntry there: an entry, the end, or that it goes on further behind. */
  ghost predicate Tells(cfg: Config, r: Read, f: Found, rest: string) {
    match r
    case Skipped(heading) => f == FindEntry(cfg, heading, rest)
    case Stopped => f == Found.Ended
    case Read(entry, heading) => f == Found(entry, heading, rest)
  }

  method SkipSpacesAt(a: array<char>, p: nat, ghost e: nat) returns (q: nat)
    requires EndsAt(a[..], p, e)
    ensures p <= q <= e && EndsAt(a[..], q, e) && a[q..e] == SkipSpaces(a[p..e])
  {
    q := Scan(a, p, c => !IsSpace(c), e);
  }

  method SkipLine(a: array<char>, p: nat, ghost e: nat) returns (q: nat)
    requires EndsAt(a[..], p, e)
    ensures p <= q <= e && EndsAt(a[..], q, e) && a[q..e] == a[p..e][LineEnd(a[p..e])..]
  {
    q := Scan(a, p, IsNewLine, e);
  }

  lemma KeySkipped(cfg: Config, h: Heading, s: string, n: nat)
    requires s != "" && !IsSpace(s[0]) && n == Span(s, c => c == '=' || IsNewLine(c))
    ensures n == |s| || s[n] != '=' ==> FindKey(cfg, h, s) == FindEntry(cfg, h, s[n..])
    ensures n == 0 && s[0] == '=' ==> FindKey(cfg, h, s) == FindEntry(cfg, h, s[LineEnd(s)..])
    ensures n == 0 ==> s[0] == '='
  {
    hide TakeValue, FindEntry, TrimRight, LineEnd, EndAt;
  }

  /** The line up to '=', if there is one behind a name; otherwise the line is invalid and passed over. */
  method ReadName(cfg: Config, h: Heading, a: array<char>, p: nat, ghost e: nat) returns (valid: bool, q: nat)
    requires EndsAt(a[..], p, e) && p < e && !IsSpace(a[p])
    ensures p < q <= e && EndsAt(a[..], q, e)
    ensures valid ==> a[q] == '=' && q < e && q - p == Span(a[p..e], c => c == '=' || IsNewLine(c))
    ensures !valid ==> FindKey(cfg, h, a[p..e]) == FindEntry(cfg, h, a[q..e])
  {
    hide EndsAt, FindEntry, FindKey, LineEnd;
    EndedInside(a[..], p, e);
    EndedChar(a[..], p, e);
    ghost var s := a[p..e];
    q := Scan(a, p, c => c == '=' || IsNewLine(c), e);
    KeySkipped(cfg, h, s, q - p);
    EndedChar(a[..], q, e);
    assert q < e ==> s[q - p] == a[q];
    valid := a[q] == '=' && q != p;
    if a[q] == '=' && q == p {
      q := SkipLine(a, q, e);
      LineOfEquals(s);
    }
  }

  lemma LineOfEquals(s: string)
    requires s != "" && !IsSpace(s[0])
    ensures LineEnd(s) > 0
  {
  }

  lemma KeyFound(cfg: Config, h: Heading, s: string, n: nat, key: string)
    requires n < |s| && n == Span(s, c => c == '=' || IsNewLine(c)) && s[n] == '=' && 0 < n && !IsSpace(s[0])
    requires key == TrimRight(s[..n])
    ensures var heading := EndAt(h, s[|key|..]);
      FindKey(cfg, h, s) == match TakeValue(cfg, s[n + 1..])
        case None => Found.Ended
        case Some(taken) => Found(Entry(NameOf(heading), Some(key), taken.0), heading, taken.1)
  {
    hide TakeValue, FindEntry, TrimRight;
  }

  /** The name before '=': where it ends, and the heading that its NUL ends. */
  method TakeName(h: Heading, a: array<char>, p: nat, q: nat, e: nat)
      returns (key: string, heading: Heading)
    requires EndsAt(a[..], p, e) && EndsAt(a[..], q, e) && p <= q < e && a[q] == '='
    modifies a
    ensures var s := old(a[p..e]);
      key == TrimRight(s[..q - p]) && heading == EndAt(h, s[|key|..]) && s[q - p + 1..] == old(a[q + 1..e])
    ensures EndsAt(a[..], q + 1, e) && a[q + 1..] == old(a[q + 1..]) && a[q + 1..e] == old(a[q + 1..e])
  {
    hide EndsAt, TrimRight, EndAt;
    EndedInside(a[..], p, e);
    ghost var s := a[p..e];
    var t := TrailingSpaces(a, p, q);
    key := a[p..t];
    assert a[p..q] == s[..q - p] && a[t..e] == s[|key|..] && a[q + 1..e] == s[q - p + 1..];
    heading := EndAt(h, a[t..e]);
    EndedChar(a[..], q, e);
    EndString(a, t, q + 1, e);
  }

  /** A key and its value, or an invalid line. */
  method ReadKey(cfg: Config, h: Heading, a: array<char>, p: nat, e: nat) returns (r: Read, q: nat)
    requires EndsAt(a[..], p, e) && p < e && !IsSpace(a[p])
    modifies a
    ensures !r.Stopped? ==> p < q <= e && a[q..] == old(a[q..]) && EndsAt(a[..], q, e)
    ensures r.Stopped? ==> FindKey(cfg, h, old(a[p..e])) == Found.Ended
    ensures !r.Stopped? ==> Tells(cfg, r, FindKey(cfg, h, old(a[p..e])), a[q..e])
  {
    hide EndsAt, TakeValue, FindEntry, FindKey, TrimRight, EndAt;
    EndedInside(a[..], p, e);
    ghost var was, s := a[..], a[p..e];
    var valid;
    valid, q := ReadName(cfg, h, a, p, e);
    if !valid {
      return Skipped(h), q;
    }
    EndedChar(a[..], p, e);
    EndedInside(a[..], q, e);
    var key, heading := TakeName(h, a, p, q, e);
    KeyFound(cfg, h, s, q - p, key);
    var at, ok, value := q + 1, false, "";
    ghost var mid := a[..];
    ok, value, q := TakeValueAt(cfg, a, at, e);
    r := Stopped;
    if ok {
      SameTail(mid, was, at, q);
      r := Read(Entry(NameOf(heading), Some(key), value), heading);
    }
  }

  lemma SectionFound(cfg: Config, s: string, n: nat)
    requires n == Span(s, c => c == ']' || IsNewLine(c))
    ensures if n < |s| && s[n] == ']' then
        var name := TrimRight(s[..n]); var after := s[n + 1..];
        FindSection(cfg, s) == Found(Entry(name, None, ""), Named(name), after[LineEnd(after)..])
      else
        FindSection(cfg, s) == FindEntry(cfg, Unended(s), s[n..])
  {
    hide FindEntry, TrimRight, LineEnd;
  }

  /** The name in a header: up to its ']', without the spaces before that. */
  method HeaderName(a: array<char>, p: nat, e: nat) returns (closed: bool, name: string, t: nat, q: nat)
    requires EndsAt(a[..], p, e)
    ensures p <= q <= e && EndsAt(a[..], q, e)
    ensures var s := a[p..e]; var n := Span(s, c => c == ']' || IsNewLine(c));
      && q == p + n && closed == (n < |s| && s[n] == ']') && a[q..e] == s[n..]
      && (closed ==> t <= q < e && name == TrimRight(s[..n]) && EndsAt(a[..], q + 1, e) && a[q + 1..e] == s[n + 1..])
  {
    hide EndsAt, TrimRight;
    EndedInside(a[..], p, e);
    q := Scan(a, p, c => c == ']' || IsNewLine(c), e);
    EndedChar(a[..], q, e);
    closed, name, t := a[q] == ']', "", q;
    if closed {
      t := TrailingSpaces(a, p, q);
      name := a[p..t];
    }
  }

  /** The header's line, from behind its '['. Its name ends at t; the text of a header without ']' does not
      end. */
  method HeaderLine(cfg: Config, a: array<char>, p: nat, e: nat) returns (r: Read, t: nat, q: nat)
    requires EndsAt(a[..], p, e)
    ensures p <= q <= e && EndsAt(a[..], q, e) && !r.Stopped?
    ensures r.Read? ==> t < q
    ensures Tells(cfg, r, FindSection(cfg, SkipSpaces(a[p..e])), a[q..e])
  {
    hide EndsAt, FindEntry, FindSection, TrimRight, SkipSpaces, LineEnd, Tells, Span, IsNewLine;
    EndedInside(a[..], p, e);
    var from := SkipSpacesAt(a, p, e);
    EndedInside(a[..], from, e);
    var closed, name;
    closed, name, t, q := HeaderName(a, from, e);
    ghost var s := a[from..e];
    SectionFound(cfg, s, q - from);
    if closed {
      q := SkipLine(a, q + 1, e);
      r := Read(Entry(name, None, ""), Named(name));
      ReadIs(cfg, r, a[q..e]);
    } else {
      r := Skipped(Unended(a[from..e]));
      GoesOn(cfg, r.heading, a[q..e]);
    }
  }

  lemma ReadIs(cfg: Config, r: Read, rest: string)
    requires r.Read?
    ensures Tells(cfg, r, Found(r.entry, r.heading, rest), rest)
  {
  }

  /** A section header, or the text of one without its bracket. */
  method ReadSection(cfg: Config, a: array<char>, p: nat, e: nat) returns (r: Read, q: nat)
    requires EndsAt(a[..], p, e)
    modifies a
    ensures p <= q <= e && a[q..] == old(a[q..]) && EndsAt(a[..], q, e) && !r.Stopped?
    ensures Tells(cfg, r, FindSection(cfg, SkipSpaces(old(a[p..e]))), a[q..e])
  {
    hide EndsAt, FindSection, Tells, SkipSpaces;
    var t;
    r, t, q := HeaderLine(cfg, a, p, e);
    if r.Read? {
      EndString(a, t, q, e);
    }
  }

  lemma EntryFound(cfg: Config, h: Heading, s: string)
    ensures var t := SkipSpaces(s);
      FindEntry(cfg, h, s) ==
        if t == "" then Found.Ended
        else if StartsComment(t) then
          var after := t[LineEnd(t)..];
          FindEntry(cfg, if StartsComment(SkipSpaces(after)) then h else EndAt(h, after), after)
        else if t[0] == '[' then FindSection(cfg, SkipSpaces(t[1..]))
        else FindKey(cfg, h, t)
  {
    hide FindSection, FindKey, SkipSpaces, LineEnd;
  }

  method ReadComment(cfg: Config, h: Heading, a: array<char>, p: nat, e: nat) returns (heading: Heading, q: nat)
    requires EndsAt(a[..], p, e) && p < e && IsComment(a[p])
    ensures p < q <= e && EndsAt(a[..], q, e)
    ensures var t := a[p..e]; var after := t[LineEnd(t)..];
      a[q..e] == after && heading == if StartsComment(SkipSpaces(after)) then h else EndAt(h, after)
  {
    hide EndsAt;
    EndedInside(a[..], p, e);
    EndedChar(a[..], p, e);
    q := Scan(a, p, IsNewLine, e);
    var next := Scan(a, q, c => !IsSpace(c), e);
    EndedChar(a[..], next, e);
    heading := if IsComment(a[next]) then h else EndAt(h, a[q..e]);
  }

  lemma GoesOn(cfg: Config, heading: Heading, rest: string)
    ensures Tells(cfg, Skipped(heading), FindEntry(cfg, heading, rest), rest)
  {
  }

  /** What reading from p on in `was` left: where it is now, and what it told about `found`. */
  ghost predicate Reads(cfg: Config, r: Read, found: Found, was: seq<char>, p: nat, now: seq<char>, q: nat, e: nat) {
    if r.Stopped? then found == Found.Ended
    else p < q <= e < |now| == |was| && now[q..] == was[q..] && EndsAt(now, q, e) && Tells(cfg, r, found, now[q..e])
  }

  lemma ReadsFrom(cfg: Config, r: Read, found: Found, was: seq<char>, p: nat, now: seq<char>, q: nat, e: nat)
    requires r.Stopped? ==> found == Found.Ended
    requires !r.Stopped? ==>
      p < q <= e < |now| == |was| && now[q..] == was[q..] && EndsAt(now, q, e) && Tells(cfg, r, found, now[q..e])
    ensures Reads(cfg, r, found, was, p, now, q, e)
  {
  }

  /** What stands at q, at the first character that is no space. */
  method ReadThere(cfg: Config, h: Heading, a: array<char>, q: nat, e: nat, ghost found: Found)
      returns (r: Read, n: nat)
    requires EndsAt(a[..], q, e) && q < e && !IsSpace(a[q]) && q < a.Length
    requires found == (
      var t := a[q..e];
      if StartsComment(t) then
        var after := t[LineEnd(t)..];
        FindEntry(cfg, if StartsComment(SkipSpaces(after)) then h else EndAt(h, after), after)
      else if t[0] == '[' then FindSection(cfg, SkipSpaces(t[1..]))
      else FindKey(cfg, h, t))
    modifies a
    ensures Reads(cfg, r, found, old(a[..]), q, a[..], n, e)
  {
    hide EndsAt, FindEntry, FindSection, FindKey, LineEnd, SkipSpaces, Tells, Reads;
    ghost var was := a[..];
    EndedChar(a[..], q, e);
    if IsComment(a[q]) {
      var heading;
      heading, n := ReadComment(cfg, h, a, q, e);
      GoesOn(cfg, heading, a[n..e]);
      r := Skipped(heading);
      EndedInside(a[..], n, e);
    } else if a[q] == '[' {
      r, n := ReadSection(cfg, a, q + 1, e);
      EndedInside(a[..], n, e);
    } else {
      r, n := ReadKey(cfg, h, a, q, e);
      if !r.Stopped? {
        EndedInside(a[..], n, e);
      }
    }
    ReadsFrom(cfg, r, found, was, q, a[..], n, e);
  }

  /** One round of the loop: what stands at p. */
  method ReadOne(cfg: Config, h: Heading, a: array<char>, p: nat, e: nat) returns (r: Read, q: nat)
    requires EndsAt(a[..], p, e)
    modifies a
    ensures Reads(cfg, r, FindEntry(cfg, h, old(a[..])[p..e]), old(a[..]), p, a[..], q, e)
  {
    hide EndsAt, FindEntry, FindSection, FindKey, LineEnd, SkipSpaces, Reads;
    EndedInside(a[..], p, e);
    ghost var was, found := a[..], FindEntry(cfg, h, a[p..e]);
    EntryFound(cfg, h, a[p..e]);
    var n := SkipSpacesAt(a, p, e);
    EndedChar(a[..], n, e);
    if a[n] == '\0' {
      ReadsFrom(cfg, Stopped, found, was, p, a[..], n, e);
      return Stopped, n;
    }
    FirstIsThere(a[p..e]);
    r, q := ReadThere(cfg, h, a, n, e, found);
    ReadsEarlier(cfg, r, found, was, p, n, a[..], q, e);
  }

  lemma FirstIsThere(s: string)
    ensures SkipSpaces(s) != "" ==> !IsSpace(SkipSpaces(s)[0])
  {
  }

  lemma ReadsEarlier(cfg: Config, r: Read, found: Found, was: seq<char>, p: nat, n: nat, now: seq<char>, q: nat, e: nat)
    requires Reads(cfg, r, found, was, n, now, q, e) && p <= n
    ensures Reads(cfg, r, found, was, p, now, q, e)
  {
  }

  /** The next entry from p on, with the section it is in. */
  method NextEntry(cfg: Config, h: Heading, a: array<char>, p: nat, e: nat) returns (r: Read, q: nat)
    requires EndsAt(a[..], p, e)
    modifies a
    ensures !r.Skipped?
    ensures r.Read? ==> p < q <= e && EndsAt(a[..], q, e)
    ensures FindEntry(cfg, h, old(a[p..e]))
         == if r.Read? then Found(r.entry, r.heading, a[q..e]) else Found.Ended
  {
    hide EndsAt, FindEntry;
    EndedInside(a[..], p, e);
    ghost var found := FindEntry(cfg, h, a[p..e]);
    r, q := ReadOne(cfg, h, a, p, e);
    while r.Skipped?
      invariant !r.Stopped? ==> p < q <= e < a.Length && EndsAt(a[..], q, e) && Tells(cfg, r, found, a[q..e])
      invariant r.Stopped? ==> found == Found.Ended
      decreases if r.Skipped? then 1 + e - q else 0
    {
      r, q := ReadOne(cfg, r.heading, a, q, e);
    }
  }
}
