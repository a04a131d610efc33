/** The INI store: its maps are updated in place, text is loaded through a buffer of its own, and it is
    written in load order. */
module IniStore {
  import opened Wrappers
  import opened IniText
  import opened IniBlocks
  import opened IniParse
  import opened IniReader
  import opened IniView
  import opened IniLookup
  import opened IniRoundTrip
  import O = IniOrder

  /** The loop that looks for a newline and for spaces at the ends. */
  method NeedsBlock(s: string) returns (r: bool)
    ensures r == IsMultiLineData(s)
  {
    if s == "" {
      return false;
    }
    if IsSpace(s[0]) {
      return true;
    }
    var i := 0;
    while i < |s|
      invariant i <= |s| && forall j | 0 <= j < i :: !IsNewLine(s[j])
    {
      if IsNewLine(s[i]) {
        return true;
      }
      i := i + 1;
    }
    return IsSpace(s[i - 1]);
  }

  /** One line more is written. */
  lemma LineOut(out: string, s: string, n: nat, nl: string)
    requires n == Span(s, c => c == '\n')
    ensures out + OutputLines(Split(s), nl)
         == (out + s[..n] + nl) + if n == |s| then "" else OutputLines(Split(s[n + 1..]), nl)
  {
    hide Span;
    if n == |s| {
      assert s[..n] == s && Split(s) == [s];
      assert Split(s)[1..] == [];
    } else {
      assert Split(s) == [s[..n]] + Split(s[n + 1..]);
      assert Split(s)[1..] == Split(s[n + 1..]);
    }
  }

  method FindLine(s: string) returns (n: nat)
    ensures n == Span(s, c => c == '\n')
  {
    n := 0;
    while n < |s| && s[n] != '\n'
      invariant n <= |s| && forall i | 0 <= i < n :: s[i] != '\n'
    {
      n := n + 1;
    }
    SpanEnds(s, n, c => c == '\n');
  }

  /** Every line of a text, also the empty one behind a last newline, is written with the system's newline. */
  method OutputMultiLineText(text: string, nl: string) returns (out: string)
    ensures out == OutputMultiLine(text, nl)
  {
    hide OutputLines, Split, Span;
    out := "";
    var left := text;
    var more := text != "";
    while more
      invariant out + (if more then OutputLines(Split(left), nl) else "") == OutputMultiLine(text, nl)
      decreases more, |left|
    {
      var n := FindLine(left);
      LineOut(out, left, n, nl);
      out := out + left[..n] + nl;
      if n == |left| {
        more := false;
      } else {
        left := left[n + 1..];
      }
    }
  }

  /** The least load order of a key's items. */
  method LeastOrder(items: seq<O.Item>, from: nat) returns (order: nat)
    requires items != [] && items[0].order < from
    requires forall i | 0 < i < |items| :: items[0].order < items[i].order
    ensures order == items[0].order
  {
    order := from;
    var i := 0;
    while i < |items|
      invariant i <= |items| && order == if i == 0 then from else items[0].order
    {
      if items[i].order < order {
        order := items[i].order;
      }
      i := i + 1;
    }
  }

  /** A key's value: of the items that are there, the first order is kept if they are all replaced. */
  method StoreKey(cfg: Config, keys: O.Keys, key: string, value: string, force: bool, order: nat, ghost last: nat)
      returns (after: O.Keys, inserted: bool)
    requires O.KeysValid(cfg, keys, last) && last < order && O.NoneEmpty(keys)
    ensures after == O.StoreValue(cfg, keys, key, value, force, order)
    ensures inserted == (Fold(cfg.nocase, key) !in keys || cfg.multiKey)
  {
    hide Fold, O.Injective;
    var k := Fold(cfg.nocase, key);
    var loadOrder := order;
    after, inserted := keys, false;
    if k in keys && cfg.multiKey && force {
      assert O.ItemsValid(cfg, k, keys[k], last);
      loadOrder := LeastOrder(keys[k], loadOrder);
      after := after - {k};
    }
    if k !in after || (cfg.multiKey && !force) {
      var item := O.Item(key, loadOrder, value);
      assert [] + [item] == [item];
      assert (keys - {k})[k := [item]] == keys[k := [item]];
      after := after[k := (if k in after then after[k] else []) + [item]];
      inserted := true;
    } else {
      after := after[k := after[k][0 := after[k][0].(value := value)]];
    }
  }

  /** A key with each of its values, in the order in which they were added. */
  method WriteValues(cfg: Config, name: string, items: seq<O.Item>) returns (text: string)
    ensures text == ValuesText(cfg, name, O.ValuesOf(items))
  {
    hide ValuesText, OutputMultiLine, IsMultiLineData;
    text := "";
    ghost var values := O.ValuesOf(items);
    assert values[0..] == values;
    var i := 0;
    while i < |items|
      invariant i <= |items| && text + ValuesText(cfg, name, values[i..]) == ValuesText(cfg, name, values)
    {
      ghost var was := text;
      text := text + name + (if cfg.spaces then " = " else "=");
      var value := items[i].value;
      var block := NeedsBlock(value);
      if cfg.multiLine && block {
        var lines := OutputMultiLineText(value, cfg.nl);
        text := text + ("<<<" + END_OF_TEXT + cfg.nl + lines + END_OF_TEXT);
      } else {
        text := text + value;
      }
      text := text + cfg.nl;
      assert text == was + name + Equals(cfg) + ValueText(cfg, value) + cfg.nl;
      ValueWritten(cfg, name, values, i, was);
      i := i + 1;
    }
    assert values[i..] == [];
    NothingWritten(cfg, name);
  }

  lemma ValueWritten(cfg: Config, name: string, values: seq<string>, i: nat, was: string)
    requires i < |values|
    ensures was + ValuesText(cfg, name, values[i..])
         == (was + name + Equals(cfg) + ValueText(cfg, values[i]) + cfg.nl) + ValuesText(cfg, name, values[i + 1..])
  {
    hide ValueText, Equals;
    assert values[i..][1..] == values[i + 1..];
  }

  lemma NothingWritten(cfg: Config, name: string)
    ensures ValuesText(cfg, name, []) == "" && KeysText(cfg, []) == "" && SavedMore(cfg, []) == ""
    ensures Saved(cfg, []) == ""
  {
  }

  lemma KeyWritten(cfg: Config, keys: seq<KeyView>, i: nat, was: string)
    requires i < |keys|
    ensures was + KeysText(cfg, keys[i..])
         == (was + ValuesText(cfg, keys[i].name, keys[i].values)) + KeysText(cfg, keys[i + 1..])
  {
    hide ValuesText;
    assert keys[i..][1..] == keys[i + 1..];
  }

  /** The keys of a section by load order. */
  method WriteKeys(cfg: Config, keys: O.Keys) returns (text: string)
    requires O.NoneEmpty(keys) && O.Injective(O.KeyRanks(keys))
    ensures text == KeysText(cfg, O.KeysView(keys))
  {
    hide KeysText, ValuesText, O.Ranked, O.Injective;
    var names := O.SortByOrder(O.KeyRanks(keys));
    ghost var view := O.KeysView(keys);
    text := "";
    assert view[0..] == view;
    var i := 0;
    while i < |names|
      invariant i <= |names| && text + KeysText(cfg, view[i..]) == KeysText(cfg, view)
    {
      assert names[i] in names;
      KeyWritten(cfg, view, i, text);
      var items := keys[names[i]];
      var values := WriteValues(cfg, items[0].name, items);
      text := text + values;
      i := i + 1;
    }
    assert view[i..] == [];
    NothingWritten(cfg, "");
  }

  lemma SectionWritten(cfg: Config, v: View, i: nat, was: string)
    requires i < |v|
    ensures var sep := if i == 0 then "" else cfg.nl + cfg.nl;
      was + (if i == 0 then Saved(cfg, v) else SavedMore(cfg, v[i..]))
      == (was + sep + SectionText(cfg, v[i])) + SavedMore(cfg, v[i + 1..])
  {
    hide SectionText;
    assert v[i..][1..] == v[i + 1..];
  }

  lemma EntriesFrom(cfg: Config, h: Heading, s: string)
    ensures Entries(cfg, h, s) == match FindEntry(cfg, h, s)
      case Ended => []
      case Found(entry, heading, rest) => [entry] + Entries(cfg, heading, rest)
  {
  }

  /** The loader's copy of the text, with a NUL behind it. */
  method Buffer(text: string) returns (a: array<char>, e: nat)
    ensures fresh(a) && EndsAt(a[..], 0, e) && e < a.Length && a[0..e] == UpToNul(text)
  {
    a := new char[|text| + 1](i => '\0');
    var i := 0;
    while i < |text|
      invariant i <= |text| < a.Length && a[..i] == text[..i] && a[|text|] == '\0'
    {
      a[i] := text[i];
      i := i + 1;
    }
    e := 0;
    while a[e] != '\0'
      invariant e <= |text| && forall j | 0 <= j < e :: text[j] != '\0'
      decreases |text| - e
    {
      assert a[..i][e] == text[..i][e];
      e := e + 1;
    }
    assert e < |text| ==> a[..i][e] == text[..i][e];
    SpanEnds(text, e, c => c == '\0');
    assert a[0..e] == a[..i][..e] == text[..e];
  }

  class IniFile {
    const cfg: Config
    var data: O.Data
    var order: nat

    ghost predicate Valid()
      reads this
    {
      IsSystemNewLine(cfg.nl) && O.DataValid(cfg, data, order) && O.Listable(data)
    }

    ghost function Contents(): View
      requires Valid()
      reads this
    {
      O.Contents(data)
    }

    constructor (cfg: Config)
      requires IsSystemNewLine(cfg.nl)
      ensures Valid() && this.cfg == cfg && Contents() == []
    {
      this.cfg, data, order := cfg, map[], 0;
      new;
      O.RankedNone();
      assert O.SectionRanks(data) == map[];
    }

    /** A section found or made, then a key's value stored in it. */
    method AddEntry(section: string, key: Option<string>, value: string, force: bool) returns (inserted: bool)
      requires Valid()
      modifies this
      ensures Valid()
      ensures Contents() == IniView.AddEntry(cfg, old(Contents()), Entry(section, key, value), force)
      ensures var s := Fold(cfg.nocase, section);
        inserted == (s !in old(data) || (key.Some? && (cfg.multiKey
                                                       || Fold(cfg.nocase, key.value) !in old(data)[s].keys)))
      ensures Adds(cfg, old(Contents()), Contents(), Entry(section, key, value), force)
      ensures inserted <==> Inserts(cfg, old(Contents()), Entry(section, key, value))
    {
      hide O.DataValid, O.Contents, Fold, IniView.AddEntry, O.Listable, Adds, Inserts;
      inserted := false;
      ghost var e := Entry(section, key, value);
      AddEntryLaw(cfg, O.Contents(data), e, force);
      InsertsIff(cfg, data, order, e);
      var s := Fold(cfg.nocase, section);
      O.StoreSectionShows(cfg, data, order, section);
      SectionFirst(cfg, O.Contents(data), e, force);
      if s !in data {
        order := order + 1;
        data := data[s := O.Stored(section, order, map[])];
        inserted := true;
      }
      if key.Some? {
        O.ValidParts(cfg, data, order);
        assert O.SectionValid(cfg, s, data[s], order);
        O.StoreInSection(cfg, data, order, e, force);
        order := order + 1;
        var keys, made := StoreKey(cfg, data[s].keys, key.value, value, force, order, order - 1);
        data := data[s := data[s].(keys := keys)];
        inserted := inserted || made;
      }
    }

    /** Every entry of the text is added, found one after another in a buffer that ends with a NUL. */
    method LoadData(text: string)
      requires Valid()
      modifies this
      ensures Valid()
      ensures Contents() == Loaded(cfg, old(Contents()), text)
    {
      hide IniView.AddEntry, FindEntry, EndsAt, Span, O.DataValid, O.Contents, O.Listable, Contents;
      var a, e := Buffer(text);
      ghost var was := Contents();
      var r, p := NextEntry(cfg, Named(""), a, 0, e);
      EntriesFrom(cfg, Named(""), UpToNul(text));
      while r.Read?
        invariant Valid() && fresh(a)
        invariant r.Read? ==> p <= e < a.Length && EndsAt(a[..], p, e)
        invariant !r.Skipped?
        invariant AddAll(cfg, Contents(), if r.Read? then [r.entry] + Entries(cfg, r.heading, a[p..e]) else [])
               == Loaded(cfg, was, text)
        decreases if r.Read? then 1 + e - p else 0
      {
        ghost var rest := a[p..e];
        ghost var v, found := Contents(), r;
        var _ := AddEntry(r.entry.section, r.entry.key, r.entry.value, false);
        r, p := NextEntry(cfg, r.heading, a, p, e);
        EntriesFrom(cfg, found.heading, rest);
        FirstAdded(cfg, v, [found.entry] + Entries(cfg, found.heading, rest));
      }
      NothingAdded(cfg, Contents());
    }

    /** The sections by load order, with two newlines between them. */
    method Save() returns (text: string)
      requires Valid()
      ensures text == Saved(cfg, Contents())
    {
      hide Saved, SavedMore, KeysText, O.Ranked, O.Injective, Fold, O.ItemsValid;
      O.ValidParts(cfg, data, order);
      var names := O.SortByOrder(O.SectionRanks(data));
      ghost var view := O.Contents(data);
      text := "";
      NothingWritten(cfg, "");
      var needNewLine := false;
      var i := 0;
      while i < |names|
        invariant i <= |names| && needNewLine == (i > 0)
        invariant text + (if i == 0 then Saved(cfg, view) else SavedMore(cfg, view[i..])) == Saved(cfg, view)
      {
        assert names[i] in names;
        SectionWritten(cfg, view, i, text);
        ghost var was := text;
        if needNewLine {
          text := text + (cfg.nl + cfg.nl);
        }
        var section := data[names[i]];
        var header := if section.name == "" then "" else "[" + section.name + "]" + cfg.nl;
        assert O.SectionValid(cfg, names[i], section, order);
        var keys := WriteKeys(cfg, section.keys);
        text := text + (header + keys);
        assert view[i] == O.SectionOf(section);
        needNewLine := true;
        i := i + 1;
      }
      assert view[i..] == [];
    }
  }

  lemma InsertsIff(cfg: Config, data: O.Data, last: nat, e: Entry)
    requires O.DataValid(cfg, data, last) && O.Listable(data)
    ensures var s := Fold(cfg.nocase, e.section);
      Inserts(cfg, O.Contents(data), e)
      <==> s !in data || (e.key.Some? && (cfg.multiKey || Fold(cfg.nocase, e.key.value) !in data[s].keys))
  {
    hide Fold, Place, O.DataValid, O.Ranked, SectionFor, KeyFor, O.Contents, O.KeysView, O.KeysValid, O.KeyRanks,
      O.SectionRanks;
    var s := Fold(cfg.nocase, e.section);
    O.SectionPlace(cfg, data, last, e.section);
    SectionAt(cfg.nocase, O.Contents(data), e.section);
    O.ValidParts(cfg, data, last);
    if s in data && e.key.Some? {
      assert O.SectionValid(cfg, s, data[s], last);
      O.KeyPlace(cfg, data[s].keys, last, e.key.value);
      KeyAt(cfg.nocase, O.KeysView(data[s].keys), e.key.value);
      KeysListed(data[s]);
    }
    ContentsSize(data);
  }

  lemma KeysListed(s: O.Stored)
    requires O.NoneEmpty(s.keys)
    ensures O.SectionOf(s).keys == O.KeysView(s.keys) && |O.KeysView(s.keys)| == |O.Ranked(O.KeyRanks(s.keys))|
  {
  }

  lemma ContentsSize(data: O.Data)
    requires O.Listable(data)
    ensures |O.Contents(data)| == |O.Ranked(O.SectionRanks(data))|
  {
  }

  /** Adding an entry to a section that its header made is adding the entry. */
  lemma SectionFirst(cfg: Config, v: View, e: Entry, force: bool)
    ensures var w := IniView.AddEntry(cfg, v, Entry(e.section, None, ""), false);
      if e.key.None? then IniView.AddEntry(cfg, v, e, force) == w
      else IniView.AddEntry(cfg, w, e, force) == IniView.AddEntry(cfg, v, e, force)
  {
    hide Place, Same, IniView.AddValue;
    var i := Place(cfg.nocase, SectionNames(v), e.section);
    if i == |v| {
      LastSection(cfg, v, e.section, []);
    }
  }
}
