/** The splitting codec: the messages of one build, decoded and inserted in any order, state exactly
    the table they were built from. */
module GroupsRoundTrip {
  import opened Sequences
  import opened Wire
  import opened Wrappers
  import opened Ordering
  import opened GroupTable
  import opened GroupsCodec
  import opened GroupsBuffers
  import opened GroupsMerge
  import opened GroupsWalk

  // ---------------------------------------------------------------- chunks seen as single entries

  ghost function ItemRow(it: Item, n: Name): map<ProcId, Daemon> {
    if it.name == n then map[it.rec.proc := Daemon(it.rec.memb, NamesOf(it.rec.members))] else map[]
  }

  ghost function ItemRows(items: seq<Item>, n: Name): map<ProcId, Daemon> {
    if items == [] then map[] else ItemRow(items[0], n) + ItemRows(items[1..], n)
  }

  ghost function ItemHeads(items: seq<Item>, n: Name): nat {
    if items == [] then 0
    else (if items[0].name == n then |items[0].rec.members| else 0) + ItemHeads(items[1..], n)
  }

  lemma {:induction false} ItemsConcat(a: seq<Item>, b: seq<Item>, n: Name)
    ensures ItemRows(a + b, n) == ItemRows(a, n) + ItemRows(b, n)
    ensures ItemHeads(a + b, n) == ItemHeads(a, n) + ItemHeads(b, n)
  {
    if a == [] {
      assert a + b == b;
    } else {
      assert (a + b)[0] == a[0] && (a + b)[1..] == a[1..] + b;
      ItemsConcat(a[1..], b, n);
      MapsRegroup(ItemRow(a[0], n), ItemRows(a[1..], n), ItemRows(b, n));
    }
  }

  lemma MapsRegroup<K, V>(a: map<K, V>, b: map<K, V>, c: map<K, V>)
    ensures (a + b) + c == a + (b + c)
  {
  }

  lemma {:induction false} ChunkItems(c: Chunk, ds: seq<DaemonRec>, n: Name)
    ensures ItemRows(Items(c, ds), n) == if c.name == n then RecRows(ds) else map[]
    ensures ItemHeads(Items(c, ds), n) == if c.name == n then RecHeads(ds) else 0
  {
    if ds != [] {
      ChunkItems(c, ds[1..], n);
      assert Items(c, ds)[1..] == Items(c, ds[1..]);
    }
  }

  lemma {:induction false} FlatSays(cs: seq<Chunk>, n: Name)
    ensures Rows(cs, n) == ItemRows(Flat(cs), n)
    ensures Heads(cs, n) == ItemHeads(Flat(cs), n)
  {
    if cs != [] {
      FlatSays(cs[1..], n);
      ChunkItems(cs[0], cs[0].daemons, n);
      ItemsConcat(Items(cs[0], cs[0].daemons), Flat(cs[1..]), n);
    }
  }

  lemma {:induction false} FlatMembership(cs: seq<Chunk>, it: Item)
    ensures it in Flat(cs) <==>
      exists c :: c in cs && it.rec in c.daemons && it == Item(c.name, c.id, c.changed, it.rec)
  {
    if cs != [] {
      FlatMembership(cs[1..], it);
      ItemsAre(cs[0], cs[0].daemons);
      assert cs == [cs[0]] + cs[1..];
    }
  }

  /** Which rows a list of entries has depends on the set of its entries only. */
  lemma {:induction false} ItemRowsAre(items: seq<Item>, n: Name, p: ProcId)
    ensures p in ItemRows(items, n) <==> exists it :: it in items && it.name == n && it.rec.proc == p
    ensures p in ItemRows(items, n) ==>
      exists it :: it in items && it.name == n && it.rec.proc == p
                && ItemRows(items, n)[p] == Daemon(it.rec.memb, NamesOf(it.rec.members))
  {
    if items != [] {
      ItemRowsAre(items[1..], n, p);
      assert items == [items[0]] + items[1..];
    }
  }

  ghost predicate Functional(items: seq<Item>) {
    forall x, y | x in items && y in items && x.name == y.name && x.rec.proc == y.rec.proc :: x == y
  }

  lemma SameEntriesSameRows(a: seq<Item>, b: seq<Item>, n: Name)
    requires Functional(a) && forall it :: it in a <==> it in b
    ensures ItemRows(a, n) == ItemRows(b, n)
  {
    forall p
      ensures p in ItemRows(a, n) <==> p in ItemRows(b, n)
      ensures p in ItemRows(a, n) && p in ItemRows(b, n) ==> ItemRows(a, n)[p] == ItemRows(b, n)[p]
    {
      ItemRowsAre(a, n, p);
      ItemRowsAre(b, n, p);
    }
  }

  // ---------------------------------------------------------------- any order of the messages

  lemma {:induction false} ConcatAppend(a: seq<seq<Chunk>>, b: seq<seq<Chunk>>)
    ensures Concat(a + b) == Concat(a) + Concat(b)
  {
    if a == [] {
      assert a + b == b;
    } else {
      assert (a + b)[1..] == a[1..] + b;
      ConcatAppend(a[1..], b);
    }
  }

  lemma {:induction false} ConcatMembership(bs: seq<seq<Chunk>>, c: Chunk)
    ensures c in Concat(bs) <==> exists b :: b in bs && c in b
  {
    if bs != [] {
      ConcatMembership(bs[1..], c);
      assert bs == [bs[0]] + bs[1..];
    }
  }

  lemma {:induction false} HeadsAppend(a: seq<Chunk>, b: seq<Chunk>, n: Name)
    ensures Heads(a + b, n) == Heads(a, n) + Heads(b, n)
  {
    if a == [] {
      assert a + b == b;
    } else {
      assert (a + b)[1..] == a[1..] + b;
      HeadsAppend(a[1..], b, n);
    }
  }

  lemma {:induction false} HeadsPermute(a: seq<seq<Chunk>>, b: seq<seq<Chunk>>, n: Name)
    requires multiset(a) == multiset(b)
    ensures Heads(Concat(a), n) == Heads(Concat(b), n)
  {
    if a == [] {
      assert |multiset(b)| == 0;
    } else {
      assert a[0] in multiset(b);
      var i :| 0 <= i < |b| && b[i] == a[0];
      DropSame(a, b, i);
      HeadsPermute(a[1..], b[..i] + b[i + 1..], n);
      HeadsAppend(a[0], Concat(a[1..]), n);
      HeadsPickedOut(b, i, n);
    }
  }

  lemma HeadsPickedOut(b: seq<seq<Chunk>>, i: nat, n: Name)
    requires i < |b|
    ensures Heads(Concat(b), n) == Heads(b[i], n) + Heads(Concat(b[..i] + b[i + 1..]), n)
  {
    assert b == b[..i] + b[i..] && b[i..][0] == b[i] && b[i..][1..] == b[i + 1..];
    ConcatAppend(b[..i], b[i..]);
    ConcatAppend(b[..i], b[i + 1..]);
    HeadsAppend(Concat(b[..i]), Concat(b[i..]), n);
    HeadsAppend(Concat(b[..i]), Concat(b[i + 1..]), n);
    HeadsAppend(b[i], Concat(b[i + 1..]), n);
  }

  // ---------------------------------------------------------------- the buffers of one build

  /** What a chunk says besides its daemons. */
  datatype Header = Header(name: Name, id: GroupId, changed: bool)

  ghost function Headers(cs: seq<Chunk>): set<Header> {
    set c | c in cs :: Header(c.name, c.id, c.changed)
  }

  lemma HeadersAppend(a: seq<Chunk>, b: seq<Chunk>)
    ensures Headers(a + b) == Headers(a) + Headers(b)
  {
  }

  lemma {:induction false} FillHeaders(pending: seq<Chunk>, used: nat)
    ensures Headers(Fill(pending, used).chunks) <= Headers(pending)
    ensures Headers(Fill(pending, used).left) <= Headers(pending)
    decreases |pending|
  {
    if pending != [] && used + GROUP_INFO_SIZE + HEADER_SIZE <= GROUPS_BUF_SIZE {
      var g, rest := pending[0], pending[1..];
      assert pending == [g] + rest;
      HeadersAppend([g], rest);
      var n := FitCount(g.daemons, used + GROUP_INFO_SIZE);
      var chunk := g.(daemons := g.daemons[..n]);
      if n == |g.daemons| {
        FillHeaders(rest, used + ChunkSize(chunk));
        HeadersAppend([chunk], Fill(rest, used + ChunkSize(chunk)).chunks);
      } else {
        HeadersAppend([g.(daemons := g.daemons[n..])], rest);
      }
    }
  }

  lemma {:induction false} LaterHeaders(pending: seq<Chunk>)
    requires NonEmpty(pending) && AllFit(pending)
    ensures Headers(Concat(LaterBatches(pending))) <= Headers(pending)
    decreases |Flat(pending)|
  {
    if pending != [] {
      LaterBufferProgresses(pending);
      FillKeeps(pending, PREAMBLE_SIZE);
      FillHeaders(pending, PREAMBLE_SIZE);
      var f := Fill(pending, PREAMBLE_SIZE);
      LaterHeaders(f.left);
      HeadersAppend(f.chunks, Concat(LaterBatches(f.left)));
    }
  }

  lemma BatchHeaders(table: seq<Chunk>, synced: seq<ProcId>)
    requires NonEmpty(table) && AllFit(table) && SyncedFits(synced)
    ensures Headers(Concat(Batches(table, synced))) <= Headers(table)
  {
    var used := PreambleSize(Some(synced));
    FillHeaders(table, used);
    FillKeeps(table, used);
    var f := Fill(table, used);
    LaterHeaders(f.left);
    HeadersAppend(f.chunks, Concat(LaterBatches(f.left)));
  }

  lemma {:induction false} WalkMembership(t: Table, ns: seq<Name>, conf: seq<ProcId>, c: Chunk)
    requires forall m | m in ns :: m in t
    ensures c in WalkNames(t, ns, conf) <==> c.name in ns && c == ChunkOf(c.name, t[c.name], conf)
  {
    if ns != [] {
      WalkMembership(t, ns[1..], conf, c);
    }
  }

  lemma WalkChunks(t: Table, conf: seq<ProcId>)
    ensures forall c :: c in Walk(t, conf) <==> c.name in t && c == ChunkOf(c.name, t[c.name], conf)
  {
    forall c {
      WalkMembership(t, InOrder(t.Keys), conf, c);
    }
  }

  lemma {:induction false} RecsMembership(g: Group, ps: seq<ProcId>, d: DaemonRec)
    requires forall p | p in ps :: p in g.daemons
    ensures d in RecsOf(g, ps) <==> d.proc in ps && d == RecOf(g, d.proc)
  {
    if ps != [] {
      RecsMembership(g, ps[1..], d);
    }
  }

  lemma WalkFunctional(t: Table, conf: seq<ProcId>)
    ensures Functional(Flat(Walk(t, conf)))
  {
    WalkChunks(t, conf);
    var items := Flat(Walk(t, conf));
    forall x, y | x in items && y in items && x.name == y.name && x.rec.proc == y.rec.proc ensures x == y {
      FlatMembership(Walk(t, conf), x);
      FlatMembership(Walk(t, conf), y);
      var g := t[x.name];
      RecsMembership(g, Select(conf, g.daemons.Keys), x.rec);
      RecsMembership(g, Select(conf, g.daemons.Keys), y.rec);
    }
  }

  lemma WalkNonEmpty(t: Table, conf: seq<ProcId>)
    requires Solid(t, conf)
    ensures NonEmpty(Walk(t, conf))
  {
    WalkChunks(t, conf);
    forall c | c in Walk(t, conf) ensures c.daemons != [] {
      ChunkAdds(c.name, t[c.name], conf);
    }
  }

  /** Reordering the batches of a build changes none of what they say together. */
  lemma OrderIsImmaterial(table: seq<Chunk>, synced: seq<ProcId>, order: seq<seq<Chunk>>)
    requires NonEmpty(table) && AllFit(table) && SyncedFits(synced)
    requires multiset(order) == multiset(Batches(table, synced))
    ensures Headers(Concat(order)) <= Headers(table)
    ensures forall it :: it in Flat(Concat(order)) <==> it in Flat(table)
    ensures forall n :: Heads(Concat(order), n) == Heads(table, n)
  {
    var bs := Batches(table, synced);
    BatchHeaders(table, synced);
    BuffersCoverTable(table, synced);
    SameContent(order, bs, table);
  }

  lemma SameContent(order: seq<seq<Chunk>>, bs: seq<seq<Chunk>>, table: seq<Chunk>)
    requires multiset(order) == multiset(bs) && Flat(Concat(bs)) == Flat(table) && Headers(Concat(bs)) <= Headers(table)
    ensures Headers(Concat(order)) <= Headers(table)
    ensures forall it :: it in Flat(Concat(order)) <==> it in Flat(table)
    ensures forall n :: Heads(Concat(order), n) == Heads(table, n)
  {
    SameChunks(order, bs);
    forall it ensures it in Flat(Concat(order)) <==> it in Flat(table) {
      FlatMembership(Concat(order), it);
      FlatMembership(Concat(bs), it);
    }
    forall n ensures Heads(Concat(order), n) == Heads(table, n) {
      HeadsPermute(order, bs, n);
      FlatSays(Concat(bs), n);
      FlatSays(table, n);
    }
  }

  /** The batches of one build state the table, in whatever order they are taken. */
  lemma AnyOrderStatesTable(t: Table, conf: seq<ProcId>, synced: seq<ProcId>, order: seq<seq<Chunk>>)
    requires Solid(t, conf) && NonEmpty(Walk(t, conf)) && AllFit(Walk(t, conf)) && SyncedFits(synced)
    requires multiset(order) == multiset(Batches(Walk(t, conf), synced))
    ensures States(Concat(order), t)
  {
    hide Batches, Walk, Says, Named, AllFit, NonEmpty, Solid, Heads, Headers;
    OrderIsImmaterial(Walk(t, conf), synced, order);
    forall n ensures if n in t then Says(Concat(order), n, t[n]) else !Named(Concat(order), n) {
      SaysTheSame(t, conf, Concat(order), n);
    }
  }

  lemma SaysTheSame(t: Table, conf: seq<ProcId>, cs: seq<Chunk>, n: Name)
    requires Solid(t, conf) && Headers(cs) <= Headers(Walk(t, conf))
    requires forall it :: it in Flat(cs) <==> it in Flat(Walk(t, conf))
    requires Heads(cs, n) == Heads(Walk(t, conf), n)
    ensures if n in t then Says(cs, n, t[n]) else !Named(cs, n)
  {
    var walk := Walk(t, conf);
    if n in t {
      WalkStatesTable(t, conf);
      assert Says(walk, n, t[n]);
      FlatSays(cs, n);
      FlatSays(walk, n);
      WalkFunctional(t, conf);
      SameEntriesSameRows(Flat(walk), Flat(cs), n);
      HeadersSay(t, conf, cs, n);
      IdsSay(t, conf, cs, n);
    } else {
      WalkChunks(t, conf);
      forall c | c in cs ensures c.name != n {
        assert Header(c.name, c.id, c.changed) in Headers(walk);
      }
    }
  }

  lemma SameChunks(a: seq<seq<Chunk>>, b: seq<seq<Chunk>>)
    requires multiset(a) == multiset(b)
    ensures forall c :: c in Concat(a) <==> c in Concat(b)
  {
    forall x ensures x in a <==> x in b {
      assert x in a <==> x in multiset(a);
      assert x in b <==> x in multiset(b);
    }
    forall c ensures c in Concat(a) <==> c in Concat(b) {
      ConcatMembership(a, c);
      ConcatMembership(b, c);
    }
  }

  /** Chunks with the table's headers and entries agree with it on id and flag, and name every group. */
  lemma HeadersSay(t: Table, conf: seq<ProcId>, cs: seq<Chunk>, n: Name)
    requires n in t && Solid(t, conf) && Headers(cs) <= Headers(Walk(t, conf))
    requires forall it :: it in Flat(cs) <==> it in Flat(Walk(t, conf))
    ensures Named(cs, n) && FirstId(cs, n) == t[n].id && (Flagged(cs, n) <==> t[n].changed)
  {
    var walk, g := Walk(t, conf), t[n];
    var whole := ChunkOf(n, g, conf);
    WalkChunks(t, conf);
    ChunkAdds(n, g, conf);
    forall c | c in cs && c.name == n ensures c.id == g.id && c.changed == g.changed {
      assert Header(c.name, c.id, c.changed) in Headers(walk);
    }
    var it := Item(n, g.id, g.changed, whole.daemons[0]);
    FlatMembership(walk, it);
    assert whole in walk && it in Flat(cs);
    FlatMembership(cs, it);
  }

  /** Who is named n in a list with the walk's entries has the group's id. */
  lemma OnlyItsId(t: Table, conf: seq<ProcId>, cs: seq<Chunk>, n: Name, c: Chunk, d: DaemonRec)
    requires n in t && Solid(t, conf) && c in cs && c.name == n && d in c.daemons
    requires forall it :: it in Flat(cs) <==> it in Flat(Walk(t, conf))
    ensures d.memb == t[n].id.memb
  {
    hide Walk, Flat, ChunkOf, Solid;
    var walk := Walk(t, conf);
    WalkChunks(t, conf);
    var x := Item(n, c.id, c.changed, d);
    FlatMembership(cs, x);
    FlatMembership(walk, x);
    SolidAt(t, conf, n);
    ChunkAdds(n, t[n], conf);
    assert d.memb in RecMembs(ChunkOf(n, t[n], conf).daemons);
  }

  lemma SolidAt(t: Table, conf: seq<ProcId>, n: Name)
    requires Solid(t, conf) && n in t
    ensures Distinct(conf) && (forall p | p in t[n].daemons :: p in conf) && t[n].daemons != map[]
  {
  }

  lemma IdsSay(t: Table, conf: seq<ProcId>, cs: seq<Chunk>, n: Name)
    requires n in t && Solid(t, conf)
    requires forall it :: it in Flat(cs) <==> it in Flat(Walk(t, conf))
    ensures Membs(cs, n) == {t[n].id.memb}
  {
    hide Walk, Flat, ChunkOf, Solid, RecRows, RecHeads, RowsAs, HeadCount;
    var walk, g := Walk(t, conf), t[n];
    var whole := ChunkOf(n, g, conf);
    forall c, d | c in cs && c.name == n && d in c.daemons ensures d.memb == g.id.memb {
      OnlyItsId(t, conf, cs, n, c, d);
    }
    WalkChunks(t, conf);
    SolidAt(t, conf, n);
    ChunkAdds(n, g, conf);
    ChunkIs(n, g, conf);
    var it := Item(n, g.id, g.changed, whole.daemons[0]);
    assert whole.daemons[0].memb in RecMembs(whole.daemons);
    FlatMembership(walk, it);
    assert whole in walk && it in Flat(cs);
    FlatMembership(cs, it);
  }

  lemma ChunkIs(n: Name, g: Group, conf: seq<ProcId>)
    ensures var c := ChunkOf(n, g, conf); c.name == n && c.id == g.id && c.changed == g.changed
  {
  }

  // ---------------------------------------------------------------- end to end, over bytes

  /** G_mess_to_groups on the body of one message. */
  function MergeBody(t: Table, body: seq<byte>): Table {
    match GetMsg(body)
    case None => t
    case Some(m) => MergeChunks(t, m.chunks)
  }

  function MergeBodies(t: Table, bodies: seq<seq<byte>>): Table
    decreases |bodies|
  {
    if bodies == [] then t else MergeBodies(MergeBody(t, bodies[0]), bodies[1..])
  }

  function ChunksIn(body: seq<byte>): seq<Chunk> {
    match GetMsg(body)
    case None => []
    case Some(m) => m.chunks
  }

  function EachChunks(bodies: seq<seq<byte>>): (r: seq<seq<Chunk>>) {
    Mapped(b => ChunksIn(b), bodies)
  }

  lemma {:induction false} MergeBodiesIsMergeChunks(t: Table, bodies: seq<seq<byte>>)
    ensures MergeBodies(t, bodies) == MergeChunks(t, Concat(EachChunks(bodies)))
    decreases |bodies|
  {
    if bodies != [] {
      hide GetMsg;
      MergeBodiesIsMergeChunks(MergeBody(t, bodies[0]), bodies[1..]);
      MergeChunksAppend(t, ChunksIn(bodies[0]), Concat(EachChunks(bodies[1..])));
      assert EachChunks(bodies)[1..] == EachChunks(bodies[1..]);
    }
  }

  /** The bodies of one build's messages, in the order they are built. */
  function Bodies(table: seq<Chunk>, synced: seq<ProcId>, memb: MembId): (r: seq<seq<byte>>)
    requires NonEmpty(table) && AllFit(table) && SyncedFits(synced)
    ensures |r| == |Batches(table, synced)|
    ensures forall i | 0 <= i < |r| :: r[i] == PutMsg(Messages(table, synced, memb)[i])
  {
    var ms := Messages(table, synced, memb);
    seq(|ms|, i requires 0 <= i < |ms| => PutMsg(ms[i]))
  }

  lemma {:induction false} SmallDaemons(ds: seq<DaemonRec>)
    requires DaemonsSize(ds) <= GROUPS_BUF_SIZE
    ensures |ds| <= DaemonsSize(ds) && forall d | d in ds :: DaemonFits(d)
  {
    if ds != [] {
      SmallDaemons(ds[1..]);
    }
  }

  lemma {:induction false} SmallChunks(cs: seq<Chunk>)
    requires ChunksSize(cs) <= GROUPS_BUF_SIZE
    ensures forall c | c in cs :: ChunkFits(c)
  {
    if cs != [] {
      SmallChunks(cs[1..]);
      SmallDaemons(cs[0].daemons);
      assert |cs[0].daemons| * 14 <= DaemonsSize(cs[0].daemons) by { FourteenEach(cs[0].daemons); }
    }
  }

  lemma {:induction false} FourteenEach(ds: seq<DaemonRec>)
    ensures |ds| * 14 <= DaemonsSize(ds)
  {
    if ds != [] {
      FourteenEach(ds[1..]);
    }
  }

  /** Every message of a build is read back as it was meant. */
  lemma BodyReadsBack(table: seq<Chunk>, synced: seq<ProcId>, memb: MembId, i: nat)
    requires NonEmpty(table) && AllFit(table) && SyncedFits(synced) && i < |Bodies(table, synced, memb)|
    ensures GetMsg(Bodies(table, synced, memb)[i]) == Some(Messages(table, synced, memb)[i])
  {
    var m := Messages(table, synced, memb)[i];
    MessagesStayInBounds(table, synced, memb, i);
    MsgSize(m);
    SmallChunks(m.chunks);
    MessageRoundTrip(m);
  }

  lemma EachChunksOfBuild(table: seq<Chunk>, synced: seq<ProcId>, memb: MembId)
    requires NonEmpty(table) && AllFit(table) && SyncedFits(synced)
    ensures EachChunks(Bodies(table, synced, memb)) == Batches(table, synced)
  {
    var bodies := Bodies(table, synced, memb);
    forall i | 0 <= i < |bodies| ensures EachChunks(bodies)[i] == Batches(table, synced)[i] {
      BodyReadsBack(table, synced, memb, i);
    }
  }

  /** Conditions under which a table can be sent at all. */
  ghost predicate Sendable(t: Table, conf: seq<ProcId>, synced: seq<ProcId>) {
    Solid(t, conf) && NonEmpty(Walk(t, conf)) && AllFit(Walk(t, conf)) && SyncedFits(synced)
  }

  /** Receiving all messages of a build, in any order, adds exactly the table it was built from. */
  lemma ReceivingIsAbsorbing(t: Table, u: Table, conf: seq<ProcId>, synced: seq<ProcId>, memb: MembId,
                             received: seq<seq<byte>>)
    requires Sendable(u, conf, synced)
    requires multiset(received) == multiset(Bodies(Walk(u, conf), synced, memb))
    ensures MergeBodies(t, received) == Absorb(t, u)
  {
    var sent := Bodies(Walk(u, conf), synced, memb);
    MappedPermutes(b => ChunksIn(b), received, sent);
    EachChunksOfBuild(Walk(u, conf), synced, memb);
    AnyOrderStatesTable(u, conf, synced, EachChunks(received));
    MergingIsAbsorbing(t, Concat(EachChunks(received)), u);
    MergeBodiesIsMergeChunks(t, received);
  }

  /** A table as a daemon that knew nothing reads it. */
  ghost function AsRead(u: Table): Table {
    map n | n in u :: Group(u[n].id, u[n].changed, HeadCount(u[n].daemons), RowsAs(u[n]), [])
  }

  lemma AbsorbedByNothing(u: Table)
    ensures Absorb(map[], u) == AsRead(u)
  {
    hide HeadCount, RowsAs;
    assert Absorb(map[], u).Keys == AsRead(u).Keys;
    forall n | n in u ensures Absorb(map[], u)[n] == AsRead(u)[n] {
      assert map[] + RowsAs(u[n]) == RowsAs(u[n]);
    }
  }

  /** Round trip: every group, daemon and member list comes back once, every daemon under its
      group's membership id, every changed flag as it was. */
  lemma BuildRoundTrip(u: Table, conf: seq<ProcId>, synced: seq<ProcId>, memb: MembId, received: seq<seq<byte>>)
    requires Sendable(u, conf, synced)
    requires multiset(received) == multiset(Bodies(Walk(u, conf), synced, memb))
    ensures MergeBodies(map[], received) == AsRead(u)
  {
    ReceivingIsAbsorbing(map[], u, conf, synced, memb, received);
    AbsorbedByNothing(u);
  }
}
