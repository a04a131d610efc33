/** Finding names and values in the contents of an INI store, by any spelling that counts as the same, and what an added
    entry changes of what is found. */
module IniLookup {
  import opened Wrappers
  import opened IniText
  import opened IniParse
  import opened IniView

  /** One character, or one ASCII letter in its two cases. */
  predicate Alike(a: char, b: char) {
    || a == b
    || ('A' <= a <= 'Z' && 'a' <= b <= 'z' && b as int - 'a' as int == a as int - 'A' as int)
    || ('a' <= a <= 'z' && 'A' <= b <= 'Z' && a as int - 'a' as int == b as int - 'A' as int)
  }

  /** Two spellings of one name: where case is ignored, they may differ in the case of ASCII letters only. */
  predicate Spells(nocase: bool, a: string, b: string) {
    if nocase then |a| == |b| && forall i | 0 <= i < |a| :: Alike(a[i], b[i]) else a == b
  }

  /** The comparison by folded characters is that of spellings. */
  lemma SameIff(nocase: bool, a: string, b: string)
    ensures Same(nocase, a, b) <==> Spells(nocase, a, b)
  {
    if Same(nocase, a, b) {
      forall i | 0 <= i < |a| ensures Alike(a[i], b[i]) && (!nocase ==> a[i] == b[i]) {
        assert Fold(nocase, a)[i] == Fold(nocase, b)[i];
      }
    }
    if Spells(nocase, a, b) {
      assert Fold(nocase, a) == Fold(nocase, b);
    }
  }

  // ---------------------------------------------------------------- looking up

  /** The first section with the name. */
  function SectionFor(nocase: bool, v: View, name: string): Option<SectionView> {
    if v == [] then None
    else if Spells(nocase, v[0].name, name) then Some(v[0])
    else SectionFor(nocase, v[1..], name)
  }

  function KeyFor(nocase: bool, keys: seq<KeyView>, name: string): Option<KeyView> {
    if keys == [] then None
    else if Spells(nocase, keys[0].name, name) then Some(keys[0])
    else KeyFor(nocase, keys[1..], name)
  }

  /** A section's key, with its values, as it is spelled in the store. */
  function Lookup(nocase: bool, v: View, section: string, key: string): Option<KeyView> {
    match SectionFor(nocase, v, section)
    case None => None
    case Some(s) => KeyFor(nocase, s.keys, key)
  }

  // ---------------------------------------------------------------- what AddEntry changes

  /** The key after a value was added for it. */
  function KeyAfter(cfg: Config, was: Option<KeyView>, name: string, value: string, force: bool): KeyView {
    match was
    case None => Key(name, [value])
    case Some(k) =>
      if cfg.multiKey && force then Key(name, [value])
      else Key(k.name, (if cfg.multiKey then k.values else []) + [value])
  }

  /** From v to w, what is found under the entry's names is what the entry says; all else is found as before, and no
      name has lost its place. */
  ghost predicate Adds(cfg: Config, v: View, w: View, e: Entry, force: bool) {
    && (forall s, k | !(Spells(cfg.nocase, e.section, s) && e.key.Some? && Spells(cfg.nocase, e.key.value, k)) ::
          Lookup(cfg.nocase, w, s, k) == Lookup(cfg.nocase, v, s, k))
    && (forall s, k | Spells(cfg.nocase, e.section, s) && e.key.Some? && Spells(cfg.nocase, e.key.value, k) ::
          Lookup(cfg.nocase, w, s, k)
          == Some(KeyAfter(cfg, Lookup(cfg.nocase, v, s, k), e.key.value, e.value, force)))
    && (forall s :: SectionFor(cfg.nocase, w, s).Some?
                    <==> SectionFor(cfg.nocase, v, s).Some? || Spells(cfg.nocase, e.section, s))
    && SectionNames(w)
       == SectionNames(v) + (if SectionFor(cfg.nocase, v, e.section).Some? then [] else [e.section])
    && (forall i | 0 <= i < |v| :: KeysStay(cfg, v[i], w[i], e.key))
  }

  /** The keys of t are those of s at their places, and a new one behind them; none but the entry's has changed. */
  ghost predicate KeysStay(cfg: Config, s: SectionView, t: SectionView, key: Option<string>) {
    && |s.keys| <= |t.keys| <= |s.keys| + 1
    && (forall i | 0 <= i < |s.keys| && t.keys[i] != s.keys[i] ::
          && key.Some? && Spells(cfg.nocase, s.keys[i].name, key.value)
          && Spells(cfg.nocase, t.keys[i].name, key.value))
    && (|t.keys| > |s.keys| ==> key.Some? && KeyFor(cfg.nocase, s.keys, key.value).None?)
  }

  // ---------------------------------------------------------------- places and lookups

  lemma SpellsLike(nocase: bool, a: string, b: string, c: string)
    ensures Spells(nocase, a, b) <==> Spells(nocase, b, a)
    ensures Spells(nocase, a, b) && Spells(nocase, b, c) ==> Spells(nocase, a, c)
    ensures Spells(nocase, a, a)
  {
    hide Spells, Fold;
    SameIff(nocase, a, b);
    SameIff(nocase, b, a);
    SameIff(nocase, b, c);
    SameIff(nocase, a, c);
    SameIff(nocase, a, a);
  }

  lemma {:induction false} SectionAt(nocase: bool, v: View, name: string)
    ensures var i := Place(nocase, SectionNames(v), name);
      SectionFor(nocase, v, name) == if i < |v| then Some(v[i]) else None
  {
    hide Same, Spells;
    if v != [] {
      SameIff(nocase, v[0].name, name);
      SectionAt(nocase, v[1..], name);
      assert SectionNames(v)[1..] == SectionNames(v[1..]);
    }
  }

  lemma {:induction false} KeyAt(nocase: bool, keys: seq<KeyView>, name: string)
    ensures var i := Place(nocase, KeyNames(keys), name);
      KeyFor(nocase, keys, name) == if i < |keys| then Some(keys[i]) else None
  {
    hide Same, Spells;
    if keys != [] {
      SameIff(nocase, keys[0].name, name);
      KeyAt(nocase, keys[1..], name);
      assert KeyNames(keys)[1..] == KeyNames(keys[1..]);
    }
  }

  /** If a and b are spellings of one name, they are spellings of the same names. */
  lemma SpellsAlike(nocase: bool, a: string, b: string, c: string)
    ensures Spells(nocase, a, b) ==> (Spells(nocase, a, c) <==> Spells(nocase, b, c))
    ensures Spells(nocase, a, c) && Spells(nocase, b, c) ==> Spells(nocase, a, b)
  {
    hide Spells;
    SpellsLike(nocase, a, b, c);
    SpellsLike(nocase, b, a, c);
    SpellsLike(nocase, a, c, b);
    SpellsLike(nocase, b, c, a);
  }

  /** Changing the first key with a name, or putting a new key last, changes what is found under that name only. */
  lemma {:induction false} KeyPutAt(nocase: bool, keys: seq<KeyView>, key: KeyView, name: string, i: nat, n: string)
    requires i == Place(nocase, KeyNames(keys), name) && Spells(nocase, key.name, name)
    ensures var after := if i < |keys| then keys[i := key] else keys + [key];
      KeyFor(nocase, after, n) == if Spells(nocase, name, n) then Some(key) else KeyFor(nocase, keys, n)
  {
    hide Same, Spells;
    var after := if i < |keys| then keys[i := key] else keys + [key];
    SpellsAlike(nocase, key.name, name, n);
    if keys == [] {
      assert after == [key];
    } else {
      SameIff(nocase, keys[0].name, name);
      SpellsAlike(nocase, keys[0].name, name, n);
      assert KeyNames(keys)[1..] == KeyNames(keys[1..]);
      if i == 0 {
        assert after == [key] + keys[1..];
      } else {
        var rest := if i < |keys| then keys[1..][i - 1 := key] else keys[1..] + [key];
        assert after == [keys[0]] + rest;
        KeyPutAt(nocase, keys[1..], key, name, i - 1, n);
      }
    }
  }

  lemma KeyPut(nocase: bool, keys: seq<KeyView>, key: KeyView, name: string, i: nat)
    requires i == Place(nocase, KeyNames(keys), name) && Spells(nocase, key.name, name)
    ensures var after := if i < |keys| then keys[i := key] else keys + [key];
      forall n :: KeyFor(nocase, after, n) == if Spells(nocase, name, n) then Some(key) else KeyFor(nocase, keys, n)
  {
    hide Spells, Place, KeyFor;
    forall n {
      KeyPutAt(nocase, keys, key, name, i, n);
    }
  }

  lemma {:induction false} SectionPutAt(nocase: bool, v: View, s: SectionView, name: string, i: nat, n: string)
    requires i == Place(nocase, SectionNames(v), name) && Spells(nocase, s.name, name)
    ensures var after := if i < |v| then v[i := s] else v + [s];
      SectionFor(nocase, after, n) == if Spells(nocase, name, n) then Some(s) else SectionFor(nocase, v, n)
  {
    hide Same, Spells;
    var after := if i < |v| then v[i := s] else v + [s];
    SpellsAlike(nocase, s.name, name, n);
    if v == [] {
      assert after == [s];
    } else {
      SameIff(nocase, v[0].name, name);
      SpellsAlike(nocase, v[0].name, name, n);
      assert SectionNames(v)[1..] == SectionNames(v[1..]);
      if i == 0 {
        assert after == [s] + v[1..];
      } else {
        var rest := if i < |v| then v[1..][i - 1 := s] else v[1..] + [s];
        assert after == [v[0]] + rest;
        SectionPutAt(nocase, v[1..], s, name, i - 1, n);
      }
    }
  }

  lemma SectionPut(nocase: bool, v: View, s: SectionView, name: string, i: nat)
    requires i == Place(nocase, SectionNames(v), name) && Spells(nocase, s.name, name)
    ensures var after := if i < |v| then v[i := s] else v + [s];
      forall n :: SectionFor(nocase, after, n) == if Spells(nocase, name, n) then Some(s) else SectionFor(nocase, v, n)
  {
    hide Spells, Place, SectionFor;
    forall n {
      SectionPutAt(nocase, v, s, name, i, n);
    }
  }

  // ---------------------------------------------------------------- the law

  lemma {:induction false} SameFound(nocase: bool, v: View, a: string, b: string)
    requires Spells(nocase, a, b)
    ensures SectionFor(nocase, v, a) == SectionFor(nocase, v, b)
  {
    hide Spells;
    if v != [] {
      SpellsLike(nocase, v[0].name, a, b);
      SpellsLike(nocase, v[0].name, b, a);
      SpellsLike(nocase, b, a, a);
      SameFound(nocase, v[1..], a, b);
    }
  }

  lemma {:induction false} SameKeyFound(nocase: bool, keys: seq<KeyView>, a: string, b: string)
    requires Spells(nocase, a, b)
    ensures KeyFor(nocase, keys, a) == KeyFor(nocase, keys, b)
  {
    hide Spells;
    if keys != [] {
      SpellsLike(nocase, keys[0].name, a, b);
      SpellsLike(nocase, keys[0].name, b, a);
      SpellsLike(nocase, b, a, a);
      SameKeyFound(nocase, keys[1..], a, b);
    }
  }

  lemma AddValueLaw(cfg: Config, keys: seq<KeyView>, name: string, value: string, force: bool)
    ensures var after := AddValue(cfg, keys, name, value, force);
      && (forall k :: KeyFor(cfg.nocase, after, k)
            == if Spells(cfg.nocase, name, k)
               then Some(KeyAfter(cfg, KeyFor(cfg.nocase, keys, k), name, value, force))
               else KeyFor(cfg.nocase, keys, k))
      && KeysStay(cfg, Section("", keys), Section("", after), Some(name))
  {
    hide Spells, KeyFor, Place, Same;
    var i := Place(cfg.nocase, KeyNames(keys), name);
    var was := KeyFor(cfg.nocase, keys, name);
    var key := KeyAfter(cfg, was, name, value, force);
    KeyAt(cfg.nocase, keys, name);
    SpellsLike(cfg.nocase, name, name, name);
    if i < |keys| {
      SameIff(cfg.nocase, keys[i].name, name);
      assert [] + [value] == [value];
    }
    assert AddValue(cfg, keys, name, value, force) == if i < |keys| then keys[i := key] else keys + [key];
    KeyPut(cfg.nocase, keys, key, name, i);
    forall k | Spells(cfg.nocase, name, k) ensures KeyFor(cfg.nocase, keys, k) == was {
      SameKeyFound(cfg.nocase, keys, name, k);
    }
  }

  /** What AddEntry does, by looking up. */
  lemma AddEntryLaw(cfg: Config, v: View, e: Entry, force: bool)
    ensures Adds(cfg, v, AddEntry(cfg, v, e, force), e, force)
  {
    hide Spells, KeyFor, SectionFor, Place, Same, AddValue, KeyAfter, KeysStay;
    var i := Place(cfg.nocase, SectionNames(v), e.section);
    var was := if i < |v| then v[i] else Section(e.section, []);
    var now := if e.key.None? then was
               else Section(was.name, AddValue(cfg, was.keys, e.key.value, e.value, force));
    var w := AddEntry(cfg, v, e, force);
    Shape(cfg, v, e, force, i, was, now);
    SectionPut(cfg.nocase, v, now, e.section, i);
    SectionAt(cfg.nocase, v, e.section);
    if e.key.Some? {
      AddValueLaw(cfg, was.keys, e.key.value, e.value, force);
    }
    forall s | Spells(cfg.nocase, e.section, s)
      ensures SectionFor(cfg.nocase, v, s) == if i < |v| then Some(was) else None
    {
      SameFound(cfg.nocase, v, e.section, s);
    }
    NoKeyFor(cfg.nocase);
    KeysStaying(cfg, v, w, e, i, was, now);
  }

  lemma NoKeyFor(nocase: bool)
    ensures forall k :: KeyFor(nocase, [], k) == None
  {
  }

  lemma Shape(cfg: Config, v: View, e: Entry, force: bool, i: nat, was: SectionView, now: SectionView)
    requires i == Place(cfg.nocase, SectionNames(v), e.section)
    requires was == if i < |v| then v[i] else Section(e.section, [])
    requires now == if e.key.None? then was
                    else Section(was.name, AddValue(cfg, was.keys, e.key.value, e.value, force))
    ensures AddEntry(cfg, v, e, force) == if i < |v| then v[i := now] else v + [now]
    ensures Spells(cfg.nocase, now.name, e.section)
  {
    hide Spells, Place, Same, AddValue;
    SpellsLike(cfg.nocase, e.section, e.section, e.section);
    if i < |v| {
      SameIff(cfg.nocase, v[i].name, e.section);
      assert v[i := v[i]] == v;
    } else {
      assert (v + [was])[i := now] == v + [now];
    }
  }

  lemma KeysStaying(cfg: Config, v: View, w: View, e: Entry, i: nat, was: SectionView, now: SectionView)
    requires i <= |v| && was == (if i < |v| then v[i] else Section(e.section, []))
    requires w == if i < |v| then v[i := now] else v + [now]
    requires now.name == was.name && (e.key.None? ==> now == was)
    requires e.key.Some? ==> KeysStay(cfg, Section("", was.keys), Section("", now.keys), e.key)
    ensures SectionNames(w) == SectionNames(v) + (if i < |v| then [] else [e.section])
    ensures forall j | 0 <= j < |v| :: KeysStay(cfg, v[j], w[j], e.key)
  {
    hide Spells, KeyFor;
  }

  /** AddEntry reports an insertion if and only if it made a section, or was given a key that it made or that takes
      several values. */
  predicate Inserts(cfg: Config, v: View, e: Entry) {
    || SectionFor(cfg.nocase, v, e.section).None?
    || (e.key.Some? && (cfg.multiKey || Lookup(cfg.nocase, v, e.section, e.key.value).None?))
  }
}
