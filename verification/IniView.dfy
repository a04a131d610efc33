/** The contents of an INI store as its reader sees them: sections, keys and values in load order. What
    AddEntry does to them, and what Save writes of them. */
module IniView {
  import opened Wrappers
  import opened IniText
  import opened IniParse

  datatype KeyView = Key(name: string, values: seq<string>)
  datatype SectionView = Section(name: string, keys: seq<KeyView>)
  type View = seq<SectionView>

  /** The place of a name in a list of names, or the list's length. */
  function Place(nocase: bool, names: seq<string>, name: string): (i: nat)
    ensures i <= |names| && (i < |names| ==> Same(nocase, names[i], name))
    ensures forall j | 0 <= j < i :: !Same(nocase, names[j], name)
  {
    if names == [] || Same(nocase, names[0], name) then 0 else 1 + Place(nocase, names[1..], name)
  }

  function KeyNames(keys: seq<KeyView>): (r: seq<string>)
    ensures |r| == |keys| && forall i | 0 <= i < |r| :: r[i] == keys[i].name
  {
    seq(|keys|, i requires 0 <= i < |keys| => keys[i].name)
  }

  function SectionNames(v: View): (r: seq<string>)
    ensures |r| == |v| && forall i | 0 <= i < |r| :: r[i] == v[i].name
  {
    seq(|v|, i requires 0 <= i < |v| => v[i].name)
  }

  /** A value for a key: of a key that is there, it replaces the value; or, where a key may have several
      values, it is added, unless it is forced to replace them all. */
  function AddValue(cfg: Config, keys: seq<KeyView>, name: string, value: string, force: bool): seq<KeyView> {
    var i := Place(cfg.nocase, KeyNames(keys), name);
    if i == |keys| then keys + [Key(name, [value])]
    else if !cfg.multiKey then keys[i := Key(keys[i].name, [value])]
    else if force then keys[i := Key(name, [value])]
    else keys[i := Key(keys[i].name, keys[i].values + [value])]
  }

  function AddEntry(cfg: Config, v: View, e: Entry, force: bool): View {
    var i := Place(cfg.nocase, SectionNames(v), e.section);
    var w := if i == |v| then v + [Section(e.section, [])] else v;
    if e.key.None? then w
    else w[i := Section(w[i].name, AddValue(cfg, w[i].keys, e.key.value, e.value, force))]
  }

  // ---------------------------------------------------------------- loading

  function Entries(cfg: Config, h: Heading, s: string): seq<Entry>
    decreases |s|
  {
    match FindEntry(cfg, h, s)
    case Ended => []
    case Found(entry, heading, rest) => [entry] + Entries(cfg, heading, rest)
  }

  function AddAll(cfg: Config, v: View, entries: seq<Entry>): View
    decreases |entries|
  {
    if entries == [] then v else AddAll(cfg, AddEntry(cfg, v, entries[0], false), entries[1..])
  }

  /** The text of a C string. */
  function UpToNul(s: string): string {
    s[..Span(s, c => c == '\0')]
  }

  /** LoadData: every entry of the text is added. */
  function Loaded(cfg: Config, v: View, text: string): View {
    AddAll(cfg, v, Entries(cfg, Named(""), UpToNul(text)))
  }

  // ---------------------------------------------------------------- saving

  const END_OF_TEXT := "END_OF_TEXT"

  /** A value as it is written: in a block if the parser would not find it on one line. */
  function ValueText(cfg: Config, value: string): string {
    if cfg.multiLine && IsMultiLineData(value)
    then "<<<" + END_OF_TEXT + cfg.nl + OutputMultiLine(value, cfg.nl) + END_OF_TEXT
    else value
  }

  function Equals(cfg: Config): string {
    if cfg.spaces then " = " else "="
  }

  function ValuesText(cfg: Config, name: string, values: seq<string>): string {
    if values == [] then ""
    else name + Equals(cfg) + ValueText(cfg, values[0]) + cfg.nl + ValuesText(cfg, name, values[1..])
  }

  function KeysText(cfg: Config, keys: seq<KeyView>): string {
    if keys == [] then "" else ValuesText(cfg, keys[0].name, keys[0].values) + KeysText(cfg, keys[1..])
  }

  function SectionText(cfg: Config, s: SectionView): string {
    (if s.name == "" then "" else "[" + s.name + "]" + cfg.nl) + KeysText(cfg, s.keys)
  }

  /** Save: the sections with two newlines between them. */
  function Saved(cfg: Config, v: View): string {
    if v == [] then "" else SectionText(cfg, v[0]) + SavedMore(cfg, v[1..])
  }

  function SavedMore(cfg: Config, v: View): string {
    if v == [] then "" else cfg.nl + cfg.nl + SectionText(cfg, v[0]) + SavedMore(cfg, v[1..])
  }
}
