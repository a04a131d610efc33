/** Inserting the groups of received messages into a table (G_mess_to_groups), and what a sequence of
    insertions adds up to for each group. */
module GroupsMerge {
  import opened Wire
  import opened GroupTable
  import opened GroupsCodec

  function NamesOf(ns: seq<Name>): set<Name> {
    set n | n in ns
  }

  function MergeDaemon(g: Group, d: DaemonRec): Group {
    g.(daemons := g.daemons[d.proc := Daemon(d.memb, NamesOf(d.members))],
       changed := g.changed || d.memb != g.id.memb,
       num := g.num + |d.members|)
  }

  function MergeDaemons(g: Group, ds: seq<DaemonRec>): Group
    decreases |ds|
  {
    if ds == [] then g else MergeDaemons(MergeDaemon(g, ds[0]), ds[1..])
  }

  function Blank(id: GroupId): Group {
    Group(id, false, 0, map[], [])
  }

  /** The group a chunk is inserted into: a new one takes the sender's id. */
  function Target(t: Table, c: Chunk): Group {
    var g := if c.name in t then t[c.name] else Blank(c.id);
    g.(changed := g.changed || c.changed)
  }

  function MergeChunk(t: Table, c: Chunk): Table {
    t[c.name := MergeDaemons(Target(t, c), c.daemons)]
  }

  function MergeChunks(t: Table, cs: seq<Chunk>): Table
    decreases |cs|
  {
    if cs == [] then t else MergeChunks(MergeChunk(t, cs[0]), cs[1..])
  }

  lemma {:induction false} MergeChunksAppend(t: Table, a: seq<Chunk>, b: seq<Chunk>)
    ensures MergeChunks(t, a + b) == MergeChunks(MergeChunks(t, a), b)
    decreases |a|
  {
    if a == [] {
      assert a + b == b;
    } else {
      assert (a + b)[1..] == a[1..] + b;
      MergeChunksAppend(MergeChunk(t, a[0]), a[1..], b);
    }
  }

  // ---------------------------------------------------------------- what daemon entries amount to

  ghost function RecRows(ds: seq<DaemonRec>): map<ProcId, Daemon> {
    if ds == [] then map[]
    else map[ds[0].proc := Daemon(ds[0].memb, NamesOf(ds[0].members))] + RecRows(ds[1..])
  }

  ghost function RecMembs(ds: seq<DaemonRec>): set<MembId> {
    set d | d in ds :: d.memb
  }

  ghost function RecHeads(ds: seq<DaemonRec>): nat {
    if ds == [] then 0 else |ds[0].members| + RecHeads(ds[1..])
  }

  /** g after entries with these rows, ids and number of members were added to it. */
  ghost function Plus(g: Group, rows: map<ProcId, Daemon>, membs: set<MembId>, heads: nat): Group {
    g.(daemons := g.daemons + rows,
       changed := g.changed || exists m :: m in membs && m != g.id.memb,
       num := g.num + heads)
  }

  lemma OneRecMore(g: Group, ds: seq<DaemonRec>)
    requires ds != []
    ensures Plus(MergeDaemon(g, ds[0]), RecRows(ds[1..]), RecMembs(ds[1..]), RecHeads(ds[1..]))
         == Plus(g, RecRows(ds), RecMembs(ds), RecHeads(ds))
  {
    var d, rest := ds[0], ds[1..];
    assert ds == [d] + rest;
    assert RecMembs(ds) == {d.memb} + RecMembs(rest);
    OneRec(g, d);
    hide MergeDaemon, Plus, RecMembs;
    PlusTwice(g, map[d.proc := Daemon(d.memb, NamesOf(d.members))], {d.memb}, |d.members|, false,
              RecRows(rest), RecMembs(rest), RecHeads(rest));
  }

  lemma OneRec(g: Group, d: DaemonRec)
    ensures MergeDaemon(g, d) == Plus(g, map[d.proc := Daemon(d.memb, NamesOf(d.members))], {d.memb}, |d.members|)
  {
  }

  lemma {:induction false} MergeDaemonsAddsUp(g: Group, ds: seq<DaemonRec>)
    ensures MergeDaemons(g, ds) == Plus(g, RecRows(ds), RecMembs(ds), RecHeads(ds))
    decreases |ds|
  {
    hide MergeDaemon;
    if ds == [] {
      assert g.daemons + RecRows(ds) == g.daemons;
    } else {
      hide Plus, RecRows, RecMembs, RecHeads;
      MergeDaemonsAddsUp(MergeDaemon(g, ds[0]), ds[1..]);
      OneRecMore(g, ds);
    }
  }

  // ---------------------------------------------------------------- what chunks say about a group

  ghost predicate Named(cs: seq<Chunk>, n: Name) {
    exists c :: c in cs && c.name == n
  }

  /** The id a new group n gets: that of the first chunk about it. */
  ghost function FirstId(cs: seq<Chunk>, n: Name): (id: GroupId)
    requires Named(cs, n)
    ensures exists c :: c in cs && c.name == n && c.id == id
  {
    if cs[0].name == n then cs[0].id else FirstId(cs[1..], n)
  }

  ghost predicate Flagged(cs: seq<Chunk>, n: Name) {
    exists c :: c in cs && c.name == n && c.changed
  }

  ghost function Rows(cs: seq<Chunk>, n: Name): map<ProcId, Daemon> {
    if cs == [] then map[]
    else (if cs[0].name == n then RecRows(cs[0].daemons) else map[]) + Rows(cs[1..], n)
  }

  ghost function Membs(cs: seq<Chunk>, n: Name): set<MembId> {
    set c, d | c in cs && c.name == n && d in c.daemons :: d.memb
  }

  ghost function Heads(cs: seq<Chunk>, n: Name): nat {
    if cs == [] then 0 else (if cs[0].name == n then RecHeads(cs[0].daemons) else 0) + Heads(cs[1..], n)
  }

  ghost function MergedGroup(t: Table, cs: seq<Chunk>, n: Name): Group
    requires n in t || Named(cs, n)
  {
    var g := if n in t then t[n] else Blank(FirstId(cs, n));
    Plus(g.(changed := g.changed || Flagged(cs, n)), Rows(cs, n), Membs(cs, n), Heads(cs, n))
  }

  /** Every group ends as the table had it, plus all that the chunks say about it. */
  lemma {:induction false} MergeChunksAddsUp(t: Table, cs: seq<Chunk>, n: Name)
    ensures n in MergeChunks(t, cs) <==> n in t || Named(cs, n)
    ensures n in MergeChunks(t, cs) ==> MergeChunks(t, cs)[n] == MergedGroup(t, cs, n)
    decreases |cs|
  {
    if cs == [] {
      if n in t {
        assert t[n].daemons + Rows(cs, n) == t[n].daemons;
      }
    } else {
      MergeChunksAddsUp(MergeChunk(t, cs[0]), cs[1..], n);
      OneChunkMore(t, cs, n);
    }
  }

  lemma FirstOrLater(cs: seq<Chunk>, n: Name)
    requires cs != []
    ensures Named(cs, n) <==> cs[0].name == n || Named(cs[1..], n)
    ensures Flagged(cs, n) <==> (cs[0].name == n && cs[0].changed) || Flagged(cs[1..], n)
    ensures Membs(cs, n) == (if cs[0].name == n then RecMembs(cs[0].daemons) else {}) + Membs(cs[1..], n)
  {
    assert cs == [cs[0]] + cs[1..];
  }

  lemma OneChunkMore(t: Table, cs: seq<Chunk>, n: Name)
    requires cs != []
    ensures n in MergeChunk(t, cs[0]) || Named(cs[1..], n) <==> n in t || Named(cs, n)
    ensures n in t || Named(cs, n) ==> MergedGroup(MergeChunk(t, cs[0]), cs[1..], n) == MergedGroup(t, cs, n)
  {
    hide MergedGroup, MergeDaemons, Target, Flagged, Membs;
    FirstOrLater(cs, n);
    assert cs == [cs[0]] + cs[1..];
    if n == cs[0].name {
      ChunkAboutGroup(t, cs[0], cs[1..]);
    } else if n in t || Named(cs, n) {
      ChunkAboutOther(t, cs[0], cs[1..], n);
    }
  }

  lemma ChunkAboutOther(t: Table, c: Chunk, rest: seq<Chunk>, n: Name)
    requires n != c.name && (n in t || Named([c] + rest, n))
    ensures n in MergeChunk(t, c) || Named(rest, n)
    ensures MergedGroup(MergeChunk(t, c), rest, n) == MergedGroup(t, [c] + rest, n)
  {
    hide MergeDaemons, Target, Named, Flagged, Membs, Plus, RecRows, RecHeads;
    var cs := [c] + rest;
    assert cs[0] == c && cs[1..] == rest;
    FirstOrLater(cs, n);
    assert {} + Membs(rest, n) == Membs(rest, n);
    assert map[] + Rows(rest, n) == Rows(rest, n);
  }

  lemma ChunkAboutGroup(t: Table, c: Chunk, rest: seq<Chunk>)
    ensures Named([c] + rest, c.name)
    ensures MergedGroup(MergeChunk(t, c), rest, c.name) == MergedGroup(t, [c] + rest, c.name)
  {
    hide MergeDaemons, RecRows, RecMembs, RecHeads, Named, Flagged, Membs;
    var cs, n := [c] + rest, c.name;
    assert cs[0] == c && cs[1..] == rest;
    FirstOrLater(cs, n);
    MergeDaemonsAddsUp(Target(t, c), c.daemons);
    PlusTwice(Target(t, c), RecRows(c.daemons), RecMembs(c.daemons), RecHeads(c.daemons),
              Flagged(rest, n), Rows(rest, n), Membs(rest, n), Heads(rest, n));
  }

  lemma PlusTwice(g: Group, r1: map<ProcId, Daemon>, m1: set<MembId>, h1: nat, flag: bool,
                  r2: map<ProcId, Daemon>, m2: set<MembId>, h2: nat)
    ensures var h := Plus(g, r1, m1, h1);
      Plus(h.(changed := h.changed || flag), r2, m2, h2)
      == Plus(g.(changed := g.changed || flag), r1 + r2, m1 + m2, h1 + h2)
  {
    assert (g.daemons + r1) + r2 == g.daemons + (r1 + r2);
  }
}
