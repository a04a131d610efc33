/** From a table to the messages that state it and back: whatever order the messages of one build are
    inserted in, they add exactly the table they were built from. */
module GroupsWalk {
  import opened Wire
  import opened Ordering
  import opened GroupTable
  import opened GroupsCodec
  import opened GroupsMerge

  // ---------------------------------------------------------------- the walk over a table

  /** The entry written for daemon p of g: its own membership id is replaced by the group's. */
  ghost function RecOf(g: Group, p: ProcId): DaemonRec
    requires p in g.daemons
  {
    DaemonRec(p, g.id.memb, InOrder(g.daemons[p].members))
  }

  ghost function RecsOf(g: Group, ps: seq<ProcId>): (r: seq<DaemonRec>)
    requires forall p | p in ps :: p in g.daemons
    ensures |r| == |ps|
  {
    if ps == [] then [] else [RecOf(g, ps[0])] + RecsOf(g, ps[1..])
  }

  /** One group as written: its daemons in configuration order, their members by name. */
  ghost function ChunkOf(n: Name, g: Group, conf: seq<ProcId>): Chunk {
    Chunk(n, g.id, g.changed, RecsOf(g, Select(conf, g.daemons.Keys)))
  }

  ghost function WalkNames(t: Table, ns: seq<Name>, conf: seq<ProcId>): (r: seq<Chunk>)
    requires forall n | n in ns :: n in t
    ensures |r| == |ns|
  {
    if ns == [] then [] else [ChunkOf(ns[0], t[ns[0]], conf)] + WalkNames(t, ns[1..], conf)
  }

  /** The skip-list walk over the whole table. */
  ghost function Walk(t: Table, conf: seq<ProcId>): seq<Chunk> {
    WalkNames(t, InOrder(t.Keys), conf)
  }

  /** The table's daemons are configured, and no group or daemon entry is empty. */
  ghost predicate Solid(t: Table, conf: seq<ProcId>) {
    && Distinct(conf)
    && forall n | n in t ::
         && t[n].daemons != map[]
         && (forall p | p in t[n].daemons :: p in conf && t[n].daemons[p].members != {})
  }

  /** The rows another daemon gets from this group's entries. */
  ghost function RowsAs(g: Group): map<ProcId, Daemon> {
    map p | p in g.daemons :: Daemon(g.id.memb, g.daemons[p].members)
  }

  lemma {:induction false} RecsAddRows(g: Group, ps: seq<ProcId>)
    requires Distinct(ps) && forall p | p in ps :: p in g.daemons
    ensures RecRows(RecsOf(g, ps)) == map p | p in ps :: Daemon(g.id.memb, g.daemons[p].members)
  {
    if ps != [] {
      RecsAddRows(g, ps[1..]);
      assert NamesOf(InOrder(g.daemons[ps[0]].members)) == g.daemons[ps[0]].members;
    }
  }

  lemma {:induction false} RecsAddMembs(g: Group, ps: seq<ProcId>)
    requires forall p | p in ps :: p in g.daemons
    ensures forall d | d in RecsOf(g, ps) :: d.memb == g.id.memb
  {
    if ps != [] {
      RecsAddMembs(g, ps[1..]);
    }
  }

  lemma {:induction false} RecsAddHeads(g: Group, ps: seq<ProcId>)
    requires Distinct(ps) && forall p | p in ps :: p in g.daemons
    ensures RecHeads(RecsOf(g, ps)) == HeadCount(Only(g.daemons, Among(ps)))
  {
    var all := Only(g.daemons, Among(ps));
    if ps == [] {
      assert Seats(all) == {};
    } else {
      RecsAddHeads(g, ps[1..]);
      assert ps[0] !in ps[1..];
      HeadCountSplit(all, ps[0]);
      assert all - {ps[0]} == Only(g.daemons, Among(ps[1..]));
    }
  }

  lemma ChunkAdds(n: Name, g: Group, conf: seq<ProcId>)
    requires Distinct(conf) && (forall p | p in g.daemons :: p in conf) && g.daemons != map[]
    ensures RecRows(ChunkOf(n, g, conf).daemons) == RowsAs(g)
    ensures RecMembs(ChunkOf(n, g, conf).daemons) == {g.id.memb}
    ensures RecHeads(ChunkOf(n, g, conf).daemons) == HeadCount(g.daemons)
    ensures ChunkOf(n, g, conf).daemons != []
  {
    hide Select, RecsOf, RecRows, RecHeads, Distinct, HeadCount;
    var ps := Select(conf, g.daemons.Keys);
    SelectDistinct(conf, g.daemons.Keys);
    assert forall p :: p in ps <==> p in g.daemons;
    RecsAddRows(g, ps);
    RecsAddMembs(g, ps);
    RecsAddHeads(g, ps);
    var ds := RecsOf(g, ps);
    assert Only(g.daemons, Among(ps)) == g.daemons;
    assert ds != [] by {
      var p :| p in g.daemons;
      assert p in ps;
    }
    assert ds[0] in ds;
  }

  // ---------------------------------------------------------------- chunks that state a table

  /** The chunks say about group n exactly what g holds. */
  ghost predicate Says(cs: seq<Chunk>, n: Name, g: Group) {
    && Named(cs, n) && FirstId(cs, n) == g.id && (Flagged(cs, n) <==> g.changed)
    && Rows(cs, n) == RowsAs(g) && Membs(cs, n) == {g.id.memb} && Heads(cs, n) == HeadCount(g.daemons)
  }

  /** The chunks say about every group what table t says, and say it of no other group. */
  ghost predicate States(cs: seq<Chunk>, t: Table) {
    forall n :: if n in t then Says(cs, n, t[n]) else !Named(cs, n)
  }

  lemma {:induction false} UnmentionedSayNothing(cs: seq<Chunk>, n: Name)
    requires !Named(cs, n)
    ensures Rows(cs, n) == map[] && Membs(cs, n) == {} && Heads(cs, n) == 0 && !Flagged(cs, n)
  {
    if cs != [] {
      FirstOrLater(cs, n);
      UnmentionedSayNothing(cs[1..], n);
    }
  }

  lemma {:induction false} WalkNames_Named(t: Table, ns: seq<Name>, conf: seq<ProcId>, n: Name)
    requires forall m | m in ns :: m in t
    ensures Named(WalkNames(t, ns, conf), n) <==> n in ns
  {
    if ns != [] {
      WalkNames_Named(t, ns[1..], conf, n);
      FirstOrLater(WalkNames(t, ns, conf), n);
    }
  }

  lemma {:induction false} WalkSays(t: Table, ns: seq<Name>, conf: seq<ProcId>, n: Name)
    requires Solid(t, conf) && Distinct(ns) && n in ns && forall m | m in ns :: m in t
    ensures Says(WalkNames(t, ns, conf), n, t[n])
  {
    hide Says, RecRows, RecMembs, RecHeads, HeadCount, RowsAs, RecsOf;
    var cs, rest := WalkNames(t, ns, conf), WalkNames(t, ns[1..], conf);
    if ns[0] == n {
      ChunkAdds(n, t[n], conf);
      WalkNames_Named(t, ns[1..], conf, n);
      SaysFirst(ChunkOf(n, t[n], conf), rest, n, t[n]);
    } else {
      WalkSays(t, ns[1..], conf, n);
      SaysLater(ChunkOf(ns[0], t[ns[0]], conf), rest, n, t[n]);
    }
  }

  lemma SaysFirst(c: Chunk, rest: seq<Chunk>, n: Name, g: Group)
    requires c.name == n && c.id == g.id && c.changed == g.changed && !Named(rest, n)
    requires RecRows(c.daemons) == RowsAs(g) && RecMembs(c.daemons) == {g.id.memb}
    requires RecHeads(c.daemons) == HeadCount(g.daemons)
    ensures Says([c] + rest, n, g)
  {
    var cs := [c] + rest;
    assert cs[0] == c && cs[1..] == rest;
    FirstOrLater(cs, n);
    UnmentionedSayNothing(rest, n);
    assert RowsAs(g) + map[] == RowsAs(g);
  }

  lemma SaysLater(c: Chunk, rest: seq<Chunk>, n: Name, g: Group)
    requires c.name != n && Says(rest, n, g)
    ensures Says([c] + rest, n, g)
  {
    hide Named, Flagged, Membs, RecRows, RecHeads, HeadCount, RowsAs;
    var cs := [c] + rest;
    assert cs[0] == c && cs[1..] == rest;
    FirstOrLater(cs, n);
    assert map[] + Rows(rest, n) == Rows(rest, n);
  }

  lemma WalkStatesTable(t: Table, conf: seq<ProcId>)
    requires Solid(t, conf)
    ensures States(Walk(t, conf), t)
  {
    var ns := InOrder(t.Keys);
    assert Distinct(ns) by {
      forall i, j | 0 <= i < j < |ns| ensures ns[i] != ns[j] { InOrderDistinct(t.Keys, i, j); }
    }
    forall n ensures if n in t then Says(Walk(t, conf), n, t[n]) else !Named(Walk(t, conf), n) {
      WalkNames_Named(t, ns, conf, n);
      if n in t {
        WalkSays(t, ns, conf, n);
      }
    }
  }

  /** A table after it took in everything table u states. */
  ghost function Absorb(t: Table, u: Table): Table {
    map n | n in t.Keys + u.Keys ::
      if n !in u then t[n]
      else
        var g := if n in t then t[n] else Blank(u[n].id);
        Plus(g.(changed := g.changed || u[n].changed), RowsAs(u[n]), {u[n].id.memb}, HeadCount(u[n].daemons))
  }

  lemma MergingOneGroup(t: Table, cs: seq<Chunk>, u: Table, n: Name)
    requires States(cs, u)
    ensures n in MergeChunks(t, cs) <==> n in t || n in u
    ensures n in t || n in u ==> MergeChunks(t, cs)[n] == Absorb(t, u)[n]
  {
    MergeChunksAddsUp(t, cs, n);
    assert if n in u then Says(cs, n, u[n]) else !Named(cs, n);
    if n !in u && n in t {
      UnmentionedSayNothing(cs, n);
      assert t[n].daemons + map[] == t[n].daemons;
    }
  }

  lemma MergingIsAbsorbing(t: Table, cs: seq<Chunk>, u: Table)
    requires States(cs, u)
    ensures MergeChunks(t, cs) == Absorb(t, u)
  {
    forall n
      ensures n in MergeChunks(t, cs) <==> n in t || n in u
      ensures n in t || n in u ==> MergeChunks(t, cs)[n] == Absorb(t, u)[n]
    {
      MergingOneGroup(t, cs, u, n);
    }
  }
}
