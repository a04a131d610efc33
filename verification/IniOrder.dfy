/** The maps of the INI store, keyed by folded name, whose entries carry the order in which they were
    loaded; and the contents in load order. */
module IniOrder {
  import opened Wrappers
  import opened IniText
  import opened IniParse
  import opened IniView

  /** One key and value. Items with the same key stand in the order in which they were added. */
  datatype Item = Item(name: string, order: nat, value: string)
  type Keys = map<string, seq<Item>>
  datatype Stored = Stored(name: string, order: nat, keys: Keys)
  type Data = map<string, Stored>

  // ---------------------------------------------------------------- sorting by load order

  ghost predicate Injective(ranks: map<string, nat>) {
    forall j, k | j in ranks && k in ranks && ranks[j] == ranks[k] :: j == k
  }

  ghost predicate IsLeast(ranks: map<string, nat>, k: string) {
    k in ranks && forall j | j in ranks :: ranks[k] <= ranks[j]
  }

  lemma {:induction false} LeastExists(ranks: map<string, nat>) returns (k: string)
    requires ranks != map[]
    ensures IsLeast(ranks, k)
    decreases |ranks|
  {
    assert ranks.Keys != {};
    var j :| j in ranks;
    var rest := ranks - {j};
    if rest == map[] {
      assert ranks.Keys == {j} by {
        assert forall i | i in ranks && i != j :: i in rest;
      }
      k := j;
    } else {
      var i := LeastExists(rest);
      k := if ranks[i] <= ranks[j] then i else j;
      forall x | x in ranks ensures ranks[k] <= ranks[x] {
        assert x == j || x in rest;
      }
    }
  }

  ghost function Chosen(ranks: map<string, nat>): (k: string)
    requires ranks != map[]
    ensures IsLeast(ranks, k)
  {
    assert exists k :: IsLeast(ranks, k) by {
      var k := LeastExists(ranks);
    }
    var k :| IsLeast(ranks, k);
    k
  }

  /** The names by increasing order. */
  ghost function Ranked(ranks: map<string, nat>): (r: seq<string>)
    ensures forall k :: k in r <==> k in ranks
    decreases |ranks|
  {
    if ranks == map[] then []
    else
      var k := Chosen(ranks);
      [k] + Ranked(ranks - {k})
  }

  lemma {:induction false} RankedDistinct(ranks: map<string, nat>, i: nat, j: nat)
    requires i < j < |Ranked(ranks)|
    ensures Ranked(ranks)[i] != Ranked(ranks)[j]
    decreases |ranks|
  {
    hide Ranked;
    RankedNone();
    assert ranks != map[];
    var k := Chosen(ranks);
    RankedStep(ranks);
    var rest := Ranked(ranks - {k});
    if i > 0 {
      LeastIsThere(ranks, k);
      RankedDistinct(ranks - {k}, i - 1, j - 1);
    } else {
      assert rest[j - 1] in rest;
    }
  }

  lemma OnlyLeast(ranks: map<string, nat>, k: string)
    requires Injective(ranks) && IsLeast(ranks, k)
    ensures Ranked(ranks) == [k] + Ranked(ranks - {k})
  {
    hide Ranked;
    OneLeast(ranks, k, Chosen(ranks));
    RankedStep(ranks);
  }

  lemma OneLeast(ranks: map<string, nat>, k: string, l: string)
    requires Injective(ranks) && IsLeast(ranks, k) && IsLeast(ranks, l)
    ensures k == l
  {
    assert ranks[k] == ranks[l];
  }

  lemma RankedStep(ranks: map<string, nat>)
    requires ranks != map[]
    ensures Ranked(ranks) == [Chosen(ranks)] + Ranked(ranks - {Chosen(ranks)})
  {
  }

  lemma RankedNone()
    ensures Ranked(map[]) == []
  {
  }

  lemma LeastStays(ranks: map<string, nat>, l: string, k: string, order: nat)
    requires IsLeast(ranks, l) && Injective(ranks) && k !in ranks && forall j | j in ranks :: ranks[j] < order
    ensures IsLeast(ranks[k := order], l) && ranks[k := order] - {l} == (ranks - {l})[k := order]
    ensures Injective(ranks - {l}) && Injective(ranks[k := order])
  {
  }

  /** What is loaded last is listed last. */
  lemma {:induction false} RankedLast(ranks: map<string, nat>, k: string, order: nat)
    requires Injective(ranks) && k !in ranks && forall j | j in ranks :: ranks[j] < order
    ensures Injective(ranks[k := order]) && Ranked(ranks[k := order]) == Ranked(ranks) + [k]
    decreases |ranks|
  {
    hide Ranked, Injective, IsLeast;
    RankedNone();
    if ranks == map[] {
      OneRank(k, order);
    } else {
      var l := LeastExists(ranks);
      LeastStays(ranks, l, k, order);
      OnlyLeast(ranks, l);
      OnlyLeast(ranks[k := order], l);
      LeastIsThere(ranks, l);
      RankedLast(ranks - {l}, k, order);
    }
  }

  lemma LeastIsThere(ranks: map<string, nat>, l: string)
    requires IsLeast(ranks, l)
    ensures l in ranks && |ranks - {l}| < |ranks|
  {
    assert (ranks - {l}).Keys == ranks.Keys - {l};
    assert |ranks.Keys| == |ranks| && |(ranks - {l}).Keys| == |ranks - {l}|;
  }

  lemma OneRank(k: string, order: nat)
    ensures Injective(map[k := order]) && Ranked(map[k := order]) == [k]
  {
    assert IsLeast(map[k := order], k);
    OnlyLeast(map[k := order], k);
    assert map[k := order] - {k} == map[];
    RankedNone();
  }

  lemma StillInjective(ranks: map<string, nat>, k: string)
    requires Injective(ranks)
    ensures Injective(ranks - {k})
  {
  }

  /** std::list::sort by load order: the names are taken by increasing order. */
  method SortByOrder(ranks: map<string, nat>) returns (r: seq<string>)
    requires Injective(ranks)
    ensures r == Ranked(ranks)
  {
    hide Ranked, Injective, IsLeast;
    r := [];
    var left := ranks;
    RankedNone();
    while left != map[]
      invariant Injective(left) && Ranked(ranks) == r + Ranked(left)
      decreases |left|
    {
      var k := Least(left);
      OnlyLeast(left, k);
      LeastIsThere(left, k);
      StillInjective(left, k);
      r := r + [k];
      left := left - {k};
    }
  }

  method Least(ranks: map<string, nat>) returns (k: string)
    requires ranks != map[]
    ensures IsLeast(ranks, k)
  {
    assert ranks.Keys != {};
    k :| k in ranks;
    var left := ranks.Keys - {k};
    while left != {}
      invariant k in ranks && left <= ranks.Keys
      invariant forall j | j in ranks && j !in left :: ranks[k] <= ranks[j]
      decreases |left|
    {
      var j :| j in left;
      if ranks[j] < ranks[k] {
        k := j;
      }
      left := left - {j};
    }
  }

  // ---------------------------------------------------------------- the contents in load order

  /** std::multimap keeps no key without an item. */
  predicate NoneEmpty(keys: Keys) {
    forall k | k in keys :: keys[k] != []
  }

  predicate Listable(data: Data) {
    forall k | k in data :: NoneEmpty(data[k].keys)
  }

  function KeyRanks(keys: Keys): map<string, nat>
    requires NoneEmpty(keys)
  {
    map k | k in keys :: keys[k][0].order
  }

  function SectionRanks(data: Data): map<string, nat> {
    map k | k in data :: data[k].order
  }

  function ValuesOf(items: seq<Item>): (r: seq<string>)
    ensures |r| == |items| && forall i | 0 <= i < |r| :: r[i] == items[i].value
  {
    seq(|items|, i requires 0 <= i < |items| => items[i].value)
  }

  function KeyOf(items: seq<Item>): KeyView
    requires items != []
  {
    Key(items[0].name, ValuesOf(items))
  }

  function ListKeys(keys: Keys, order: seq<string>): (r: seq<KeyView>)
    requires NoneEmpty(keys) && forall k | k in order :: k in keys
    ensures |r| == |order| && forall i | 0 <= i < |r| :: r[i] == KeyOf(keys[order[i]])
  {
    seq(|order|, i requires 0 <= i < |order| => KeyOf(keys[order[i]]))
  }

  /** The keys of a section, by the load order of their first items. */
  ghost function KeysView(keys: Keys): seq<KeyView>
    requires NoneEmpty(keys)
  {
    ListKeys(keys, Ranked(KeyRanks(keys)))
  }

  ghost function SectionOf(s: Stored): SectionView
    requires NoneEmpty(s.keys)
  {
    Section(s.name, KeysView(s.keys))
  }

  ghost function ListSections(data: Data, order: seq<string>): (r: View)
    requires Listable(data) && forall k | k in order :: k in data
    ensures |r| == |order| && forall i | 0 <= i < |r| :: r[i] == SectionOf(data[order[i]])
  {
    seq(|order|, i requires 0 <= i < |order| => SectionOf(data[order[i]]))
  }

  /** The sections by their load order. */
  ghost function Contents(data: Data): View
    requires Listable(data)
  {
    ListSections(data, Ranked(SectionRanks(data)))
  }

  // ---------------------------------------------------------------- what the store keeps

  ghost predicate ItemsValid(cfg: Config, k: string, items: seq<Item>, last: nat) {
    && items != []
    && (!cfg.multiKey ==> |items| == 1)
    && (forall i | 0 <= i < |items| :: Fold(cfg.nocase, items[i].name) == k && items[i].order <= last)
    && (forall i | 0 < i < |items| :: items[0].order < items[i].order)
  }

  ghost predicate KeysValid(cfg: Config, keys: Keys, last: nat) {
    && NoneEmpty(keys)
    && (forall k | k in keys :: ItemsValid(cfg, k, keys[k], last))
    && Injective(KeyRanks(keys))
  }

  /** Every entry is under its folded name, and no two sections, nor two keys of a section, share a load
      order. */
  ghost predicate DataValid(cfg: Config, data: Data, last: nat) {
    && (forall k | k in data ::
          && Fold(cfg.nocase, data[k].name) == k
          && data[k].order <= last
          && KeysValid(cfg, data[k].keys, last))
    && Injective(SectionRanks(data))
  }

  // ---------------------------------------------------------------- adding an entry

  function StoreValue(cfg: Config, keys: Keys, name: string, value: string, force: bool, order: nat): Keys
    requires NoneEmpty(keys)
  {
    var k := Fold(cfg.nocase, name);
    if k !in keys then keys[k := [Item(name, order, value)]]
    else if !cfg.multiKey then keys[k := keys[k][0 := keys[k][0].(value := value)]]
    else if force then keys[k := [Item(name, keys[k][0].order, value)]]
    else keys[k := keys[k] + [Item(name, order, value)]]
  }

  lemma {:induction false} PlaceIs(nocase: bool, names: seq<string>, folded: seq<string>, name: string)
    requires |names| == |folded| && forall i | 0 <= i < |names| :: Fold(nocase, names[i]) == folded[i]
    requires forall i, j | 0 <= i < j < |folded| :: folded[i] != folded[j]
    ensures var i := Place(nocase, names, name); var k := Fold(nocase, name);
      if k in folded then i < |names| && folded[i] == k else i == |names|
  {
    hide Fold;
    var i, k := Place(nocase, names, name), Fold(nocase, name);
    if k in folded {
      var j :| 0 <= j < |folded| && folded[j] == k;
      assert Same(nocase, names[j], name);
    }
  }

  /** Where a key is found: at the place of its folded name in load order. */
  lemma KeyPlace(cfg: Config, keys: Keys, last: nat, name: string)
    requires KeysValid(cfg, keys, last)
    ensures var r := Ranked(KeyRanks(keys)); var k := Fold(cfg.nocase, name);
      var i := Place(cfg.nocase, KeyNames(KeysView(keys)), name);
      if k in keys then i < |r| && r[i] == k else i == |r|
  {
    hide Fold, Place, Same, Ranked, ItemsValid;
    var r := Ranked(KeyRanks(keys));
    var view := KeysView(keys);
    forall i | 0 <= i < |r| ensures Fold(cfg.nocase, view[i].name) == r[i] {
      assert r[i] in r;
      FirstFolds(cfg, r[i], keys[r[i]], last);
    }
    forall i, j | 0 <= i < j < |r| ensures r[i] != r[j] {
      RankedDistinct(KeyRanks(keys), i, j);
    }
    PlaceIs(cfg.nocase, KeyNames(view), r, name);
  }

  lemma FirstFolds(cfg: Config, k: string, items: seq<Item>, last: nat)
    requires ItemsValid(cfg, k, items, last)
    ensures items != [] && Fold(cfg.nocase, items[0].name) == k
  {
  }

  // ---------------------------------------------------------------- a value is stored

  lemma NewKeyListed(keys: Keys, k: string, item: Item)
    requires NoneEmpty(keys) && Injective(KeyRanks(keys)) && k !in keys
    requires forall j | j in keys :: keys[j][0].order < item.order
    ensures var after := keys[k := [item]];
      && NoneEmpty(after) && Injective(KeyRanks(after))
      && KeysView(after) == KeysView(keys) + [Key(item.name, [item.value])]
  {
    hide Ranked, Injective;
    var after := keys[k := [item]];
    var ranks, r := KeyRanks(keys), Ranked(KeyRanks(keys));
    RankedLast(ranks, k, item.order);
    assert KeyRanks(after) == ranks[k := item.order];
    forall i | 0 <= i < |r| ensures KeysView(after)[i] == KeysView(keys)[i] {
      assert r[i] in r;
    }
    assert ValuesOf([item]) == [item.value];
  }

  lemma OldKeyListed(keys: Keys, k: string, items: seq<Item>, i: nat)
    requires NoneEmpty(keys) && k in keys && items != [] && items[0].order == keys[k][0].order
    requires i < |Ranked(KeyRanks(keys))| && Ranked(KeyRanks(keys))[i] == k
    ensures var after := keys[k := items];
      NoneEmpty(after) && KeyRanks(after) == KeyRanks(keys) && KeysView(after) == KeysView(keys)[i := KeyOf(items)]
  {
    hide Ranked;
    var after := keys[k := items];
    var r := Ranked(KeyRanks(keys));
    assert KeyRanks(after) == KeyRanks(keys);
    forall j | 0 <= j < |r| ensures KeysView(after)[j] == KeysView(keys)[i := KeyOf(items)][j] {
      assert r[j] in r;
      if j != i {
        KeysDiffer(keys, i, j);
      }
    }
  }

  lemma KeysDiffer(keys: Keys, i: nat, j: nat)
    requires NoneEmpty(keys)
    requires var r := Ranked(KeyRanks(keys)); i < |r| && j < |r| && i != j
    ensures Ranked(KeyRanks(keys))[i] != Ranked(KeyRanks(keys))[j]
  {
    RankedDistinct(KeyRanks(keys), if i < j then i else j, if i < j then j else i);
  }

  lemma StillValid(cfg: Config, keys: Keys, k: string, items: seq<Item>, last: nat, order: nat)
    requires KeysValid(cfg, keys, last) && last < order && ItemsValid(cfg, k, items, order)
    requires Injective(KeyRanks(keys[k := items]))
    ensures KeysValid(cfg, keys[k := items], order)
  {
    var after := keys[k := items];
    forall j | j in after ensures ItemsValid(cfg, j, after[j], order) {
      if j != k {
        assert ItemsValid(cfg, j, keys[j], last);
      }
    }
  }

  lemma OrdersBelow(cfg: Config, keys: Keys, last: nat, order: nat)
    requires KeysValid(cfg, keys, last) && last < order
    ensures forall j | j in keys :: keys[j][0].order < order
  {
    forall j | j in keys ensures keys[j][0].order < order {
      assert ItemsValid(cfg, j, keys[j], last);
    }
  }

  /** The items of a key that is there, after a value was stored for it. */
  lemma ItemsStored(cfg: Config, k: string, items: seq<Item>, last: nat, name: string, value: string, force: bool,
                    order: nat)
    requires ItemsValid(cfg, k, items, last) && last < order && Fold(cfg.nocase, name) == k
    ensures var after :=
        if !cfg.multiKey then items[0 := items[0].(value := value)]
        else if force then [Item(name, items[0].order, value)] else items + [Item(name, order, value)];
      && ItemsValid(cfg, k, after, order) && after[0].order == items[0].order
      && KeyOf(after) == if !cfg.multiKey then Key(KeyOf(items).name, [value])
                         else if force then Key(name, [value])
                         else Key(KeyOf(items).name, KeyOf(items).values + [value])
  {
    hide Fold;
  }

  /** Storing a value is AddValue on the keys in load order. */
  lemma StoreValueShows(cfg: Config, keys: Keys, name: string, value: string, force: bool, last: nat, order: nat)
    requires KeysValid(cfg, keys, last) && last < order
    ensures var after := StoreValue(cfg, keys, name, value, force, order);
      KeysValid(cfg, after, order) && KeysView(after) == AddValue(cfg, KeysView(keys), name, value, force)
  {
    hide Fold, Place, Ranked, Injective, ItemsValid, KeyOf;
    var k := Fold(cfg.nocase, name);
    var after := StoreValue(cfg, keys, name, value, force, order);
    KeyPlace(cfg, keys, last, name);
    if k !in keys {
      OrdersBelow(cfg, keys, last, order);
      NewKeyListed(keys, k, Item(name, order, value));
      OneItem(cfg, name, value, order);
    } else {
      ItemsStored(cfg, k, keys[k], last, name, value, force, order);
      OldKeyListed(keys, k, after[k], Place(cfg.nocase, KeyNames(KeysView(keys)), name));
    }
    StillValid(cfg, keys, k, after[k], last, order);
  }

  lemma OneItem(cfg: Config, name: string, value: string, order: nat)
    ensures ItemsValid(cfg, Fold(cfg.nocase, name), [Item(name, order, value)], order)
  {
  }

  // ---------------------------------------------------------------- an entry is stored

  lemma NewSectionListed(data: Data, k: string, s: Stored)
    requires Listable(data) && Injective(SectionRanks(data)) && k !in data && NoneEmpty(s.keys)
    requires forall j | j in data :: data[j].order < s.order
    ensures var after := data[k := s];
      Listable(after) && Injective(SectionRanks(after)) && Contents(after) == Contents(data) + [SectionOf(s)]
  {
    hide Ranked, Injective, SectionOf, NoneEmpty;
    var after := data[k := s];
    var ranks, r := SectionRanks(data), Ranked(SectionRanks(data));
    RankedLast(ranks, k, s.order);
    assert SectionRanks(after) == ranks[k := s.order];
    forall i | 0 <= i < |r| ensures Contents(after)[i] == Contents(data)[i] {
      assert r[i] in r;
    }
  }

  lemma OldSectionListed(data: Data, k: string, s: Stored, i: nat)
    requires Listable(data) && k in data && NoneEmpty(s.keys) && s.order == data[k].order
    requires i < |Ranked(SectionRanks(data))| && Ranked(SectionRanks(data))[i] == k
    ensures var after := data[k := s];
      && Listable(after) && SectionRanks(after) == SectionRanks(data)
      && Contents(after) == Contents(data)[i := SectionOf(s)]
  {
    hide Ranked, SectionOf, NoneEmpty;
    var after := data[k := s];
    var r := Ranked(SectionRanks(data));
    assert SectionRanks(after) == SectionRanks(data);
    forall j | 0 <= j < |r| ensures Contents(after)[j] == Contents(data)[i := SectionOf(s)][j] {
      assert r[j] in r;
      if j != i {
        RankedDistinct(SectionRanks(data), if i < j then i else j, if i < j then j else i);
      }
    }
  }

  ghost predicate SectionValid(cfg: Config, k: string, s: Stored, last: nat) {
    Fold(cfg.nocase, s.name) == k && s.order <= last && KeysValid(cfg, s.keys, last)
  }

  lemma ValidParts(cfg: Config, data: Data, last: nat)
    requires DataValid(cfg, data, last)
    ensures Listable(data) && Injective(SectionRanks(data))
    ensures forall k | k in data :: SectionValid(cfg, k, data[k], last)
  {
    hide Fold, ItemsValid, Injective;
  }

  lemma FromParts(cfg: Config, data: Data, last: nat)
    requires Injective(SectionRanks(data)) && forall k | k in data :: SectionValid(cfg, k, data[k], last)
    ensures DataValid(cfg, data, last)
  {
    hide KeysValid, Injective, Fold;
    forall k | k in data
      ensures Fold(cfg.nocase, data[k].name) == k && data[k].order <= last && KeysValid(cfg, data[k].keys, last)
    {
      assert SectionValid(cfg, k, data[k], last);
    }
  }

  lemma SectionPlace(cfg: Config, data: Data, last: nat, name: string)
    requires DataValid(cfg, data, last)
    ensures Listable(data)
    ensures var r := Ranked(SectionRanks(data)); var k := Fold(cfg.nocase, name);
      var i := Place(cfg.nocase, SectionNames(Contents(data)), name);
      if k in data then i < |r| && r[i] == k && Contents(data)[i] == SectionOf(data[k]) else i == |r|
  {
    hide Fold, Place, Same, Ranked, KeysValid, NoneEmpty, DataValid, Injective;
    ValidParts(cfg, data, last);
    var r := Ranked(SectionRanks(data));
    var view := Contents(data);
    forall i | 0 <= i < |r| ensures Fold(cfg.nocase, view[i].name) == r[i] {
      assert r[i] in r;
      assert SectionValid(cfg, r[i], data[r[i]], last);
    }
    forall i, j | 0 <= i < j < |r| ensures r[i] != r[j] {
      RankedDistinct(SectionRanks(data), i, j);
    }
    PlaceIs(cfg.nocase, SectionNames(view), r, name);
  }

  lemma Later(cfg: Config, k: string, s: Stored, last: nat, order: nat)
    requires SectionValid(cfg, k, s, last) && last <= order
    ensures SectionValid(cfg, k, s, order)
  {
    hide Fold, Injective;
    forall j | j in s.keys ensures ItemsValid(cfg, j, s.keys[j], order) {
      assert ItemsValid(cfg, j, s.keys[j], last);
    }
  }

  function StoreSection(cfg: Config, data: Data, last: nat, section: string): (Data, nat) {
    var k := Fold(cfg.nocase, section);
    if k in data then (data, last) else (data[k := Stored(section, last + 1, map[])], last + 1)
  }

  lemma StoreSectionShows(cfg: Config, data: Data, last: nat, section: string)
    requires DataValid(cfg, data, last)
    ensures Listable(data)
    ensures var (after, order) := StoreSection(cfg, data, last, section);
      && DataValid(cfg, after, order) && Listable(after)
      && Contents(after) == AddEntry(cfg, Contents(data), Entry(section, None, ""), false)
  {
    hide Fold, Place, Ranked, Injective, KeysValid, DataValid, SectionOf;
    var k := Fold(cfg.nocase, section);
    var (after, order) := StoreSection(cfg, data, last, section);
    ValidParts(cfg, data, last);
    SectionPlace(cfg, data, last, section);
    if k !in data {
      var s := Stored(section, last + 1, map[]);
      forall j | j in data ensures data[j].order < s.order && SectionValid(cfg, j, data[j], order) {
        assert SectionValid(cfg, j, data[j], last);
        Later(cfg, j, data[j], last, order);
      }
      NewSectionListed(data, k, s);
      NoKeys(cfg, s, order);
      FromParts(cfg, after, order);
    }
  }

  lemma NoKeys(cfg: Config, s: Stored, last: nat)
    requires s.keys == map[] && s.order <= last
    ensures SectionValid(cfg, Fold(cfg.nocase, s.name), s, last) && SectionOf(s) == Section(s.name, [])
  {
    hide Fold;
    assert KeyRanks(s.keys) == map[];
    RankedNone();
  }

  /** The section has been found or made, and the key's value is stored in it. */
  lemma StoreInSection(cfg: Config, data: Data, last: nat, e: Entry, force: bool)
    requires DataValid(cfg, data, last) && e.key.Some? && Fold(cfg.nocase, e.section) in data
    requires Listable(data)
    ensures var k := Fold(cfg.nocase, e.section);
      var after := data[k := data[k].(keys :=
        StoreValue(cfg, data[k].keys, e.key.value, e.value, force, last + 1))];
      && DataValid(cfg, after, last + 1) && Listable(after)
      && Contents(after) == AddEntry(cfg, Contents(data), e, force)
  {
    hide Fold, Place, Ranked, Injective, KeysValid, DataValid, AddValue, StoreValue, ItemsValid;
    var k := Fold(cfg.nocase, e.section);
    ValidParts(cfg, data, last);
    SectionPlace(cfg, data, last, e.section);
    assert SectionValid(cfg, k, data[k], last);
    StoreValueShows(cfg, data[k].keys, e.key.value, e.value, force, last, last + 1);
    ValidKeysListable(cfg, StoreValue(cfg, data[k].keys, e.key.value, e.value, force, last + 1), last + 1);
    var s := data[k].(keys := StoreValue(cfg, data[k].keys, e.key.value, e.value, force, last + 1));
    var after := data[k := s];
    OldSectionListed(data, k, s, Place(cfg.nocase, SectionNames(Contents(data)), e.section));
    forall j | j in after ensures SectionValid(cfg, j, after[j], last + 1) {
      if j != k {
        Later(cfg, j, data[j], last, last + 1);
      }
    }
    FromParts(cfg, after, last + 1);
  }

  lemma ValidKeysListable(cfg: Config, keys: Keys, last: nat)
    requires KeysValid(cfg, keys, last)
    ensures NoneEmpty(keys)
  {
  }
}
