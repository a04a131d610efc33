/** The loops that write the group table into byte buffers, with the counts patched in behind. */
module GroupsTransfer {
  import opened Sequences
  import opened Wire
  import opened Wrappers
  import opened Ordering
  import opened GroupTable
  import opened GroupsCodec
  import opened GroupsBuffers
  import opened GroupsWalk
  import opened GroupsRoundTrip
  import opened GroupsState

  lemma {:induction false} PutNamesSnoc(ns: seq<Name>, n: Name)
    ensures PutNames(ns + [n]) == PutNames(ns) + n
  {
    if ns != [] {
      assert (ns + [n])[1..] == ns[1..] + [n];
      PutNamesSnoc(ns[1..], n);
    }
  }

  lemma {:induction false} PutDaemonsSnoc(ds: seq<DaemonRec>, d: DaemonRec)
    ensures PutDaemons(ds + [d]) == PutDaemons(ds) + PutDaemon(d)
  {
    hide PutDaemon;
    if ds != [] {
      assert (ds + [d])[1..] == ds[1..] + [d];
      PutDaemonsSnoc(ds[1..], d);
    }
  }

  lemma {:induction false} PutChunksSnoc(cs: seq<Chunk>, c: Chunk)
    ensures PutChunks(cs + [c]) == PutChunks(cs) + PutChunk(c)
  {
    hide PutChunk;
    if cs != [] {
      assert (cs + [c])[1..] == cs[1..] + [c];
      PutChunksSnoc(cs[1..], c);
    }
  }

  method WriteNames(buf: array<byte>, n: nat, ns: seq<Name>) returns (end: nat)
    requires n + 32 * |ns| <= buf.Length
    modifies buf
    ensures end == n + 32 * |ns| && buf[..end] == old(buf[..n]) + PutNames(ns)
  {
    end := n;
    for i := 0 to |ns|
      invariant end == n + 32 * i && buf[..end] == old(buf[..n]) + PutNames(ns[..i])
    {
      end := Append(buf, end, ns[i]);
      PutNamesSnoc(ns[..i], ns[i]);
      assert ns[..i + 1] == ns[..i] + [ns[i]];
    }
    assert ns[..|ns|] == ns;
  }

  /** One daemon's entry: the number of members is filled in once they are written. */
  method WriteDaemon(buf: array<byte>, n: nat, d: DaemonRec) returns (end: nat)
    requires n + DaemonSize(d) <= buf.Length
    modifies buf
    ensures end == n + DaemonSize(d) && buf[..end] == old(buf[..n]) + PutDaemon(d)
  {
    hide Put32, PutMembId, PutNames, Put16;
    end := Append(buf, n, Put32(d.proc));
    end := Append(buf, end, PutMembId(d.memb));
    var numMembPtr := end;
    ghost var head := buf[..numMembPtr];
    end := Append(buf, end, [0, 0]);
    end := WriteNames(buf, end, d.members);
    Regroup(head, [0, 0], PutNames(d.members));
    Behind(buf, end, head + [0, 0], PutNames(d.members));
    Behind(buf, end, head, [0, 0] + PutNames(d.members));
    Patch(buf, numMembPtr, Put16(|d.members|), PutNames(d.members));
    assert head == old(buf[..n]) + (Put32(d.proc) + PutMembId(d.memb));
    DaemonBytes(old(buf[..n]), d);
  }

  lemma DaemonBytes(before: seq<byte>, d: DaemonRec)
    ensures before + PutDaemon(d)
         == before + (Put32(d.proc) + PutMembId(d.memb)) + Put16(|d.members|) + PutNames(d.members)
  {
    hide Put32, PutMembId, PutNames, Put16;
  }

  lemma {:induction false} FitStep(ds: seq<DaemonRec>, k: nat, n: nat)
    requires k < |ds|
    ensures FitCount(ds[k..], n) ==
      if n + DaemonSize(ds[k]) + HEADER_SIZE > GROUPS_BUF_SIZE then 0
      else 1 + FitCount(ds[k + 1..], n + DaemonSize(ds[k]))
  {
    assert ds[k..][1..] == ds[k + 1..];
  }

  lemma DaemonsSizeSnoc(ds: seq<DaemonRec>, d: DaemonRec)
    ensures DaemonsSize(ds + [d]) == DaemonsSize(ds) + DaemonSize(d)
  {
    PutDaemonsSnoc(ds, d);
    assert |PutDaemons(ds + [d])| == |PutDaemons(ds)| + |PutDaemon(d)|;
  }

  /** As many of the daemons as fit behind the n bytes written. */
  method WriteDaemons(buf: array<byte>, n: nat, ds: seq<DaemonRec>) returns (end: nat, numDmns: nat)
    requires buf.Length == GROUPS_BUF_SIZE && n + HEADER_SIZE <= GROUPS_BUF_SIZE
    modifies buf
    ensures numDmns == FitCount(ds, n) && end == n + DaemonsSize(ds[..numDmns])
    ensures end + HEADER_SIZE <= GROUPS_BUF_SIZE && buf[..end] == old(buf[..n]) + PutDaemons(ds[..numDmns])
  {
    hide PutDaemon, PutDaemons, FitCount, DaemonSize, DaemonsSize;
    NoDaemons(ds);
    end, numDmns := n, 0;
    while numDmns < |ds| &&
        DAEMON_INFO_SIZE + |ds[numDmns].members| * MAX_GROUP_NAME + HEADER_SIZE <= GROUPS_BUF_SIZE - end
      invariant numDmns <= |ds| && end == n + DaemonsSize(ds[..numDmns]) && end + HEADER_SIZE <= GROUPS_BUF_SIZE
      invariant FitCount(ds, n) == numDmns + FitCount(ds[numDmns..], end)
      invariant buf[..end] == old(buf[..n]) + PutDaemons(ds[..numDmns])
    {
      var d := ds[numDmns];
      SizeOf(d);
      FitStep(ds, numDmns, end);
      end := WriteDaemon(buf, end, d);
      PutDaemonsSnoc(ds[..numDmns], d);
      DaemonsSizeSnoc(ds[..numDmns], d);
      assert ds[..numDmns + 1] == ds[..numDmns] + [d];
      numDmns := numDmns + 1;
    }
    if numDmns < |ds| {
      SizeOf(ds[numDmns]);
    }
    NoneFit(ds, numDmns, end);
  }

  /** A group's header up to the number of its daemons. */
  method WriteHeader(buf: array<byte>, n: nat, g: Chunk) returns (end: nat)
    requires n + GROUP_INFO_SIZE <= buf.Length
    modifies buf
    ensures end == n + GROUP_INFO_SIZE - 2
    ensures buf[..end] == old(buf[..n]) + (g.name + PutGroupId(g.id) + Put16(if g.changed then 1 else 0))
  {
    hide Put16, PutGroupId;
    end := Append(buf, n, g.name);
    end := Append(buf, end, PutGroupId(g.id));
    end := Append(buf, end, Put16(if g.changed then 1 else 0));
  }

  /** One group's header and as many of its daemons as fit; the number of daemons is filled in last. */
  method WriteGroup(buf: array<byte>, n: nat, g: Chunk) returns (end: nat, k: nat)
    requires buf.Length == GROUPS_BUF_SIZE && n + GROUP_INFO_SIZE + HEADER_SIZE <= GROUPS_BUF_SIZE
    modifies buf
    ensures k == FitCount(g.daemons, n + GROUP_INFO_SIZE) && end == n + ChunkSize(g.(daemons := g.daemons[..k]))
    ensures end + HEADER_SIZE <= GROUPS_BUF_SIZE
    ensures buf[..end] == old(buf[..n]) + PutChunk(g.(daemons := g.daemons[..k]))
  {
    hide PutDaemons, FitCount, Put16, PutGroupId, DaemonsSize;
    var numDmnsPtr := WriteHeader(buf, n, g);
    ghost var head := buf[..numDmnsPtr];
    end := Append(buf, numDmnsPtr, [0, 0]);
    end, k := WriteDaemons(buf, end, g.daemons);
    Regroup(head, [0, 0], PutDaemons(g.daemons[..k]));
    Behind(buf, end, head + [0, 0], PutDaemons(g.daemons[..k]));
    Behind(buf, end, head, [0, 0] + PutDaemons(g.daemons[..k]));
    Patch(buf, numDmnsPtr, Put16(k), PutDaemons(g.daemons[..k]));
    ChunkBytes(old(buf[..n]), g.(daemons := g.daemons[..k]));
  }

  lemma ChunkBytes(before: seq<byte>, c: Chunk)
    ensures before + PutChunk(c)
         == before + (c.name + PutGroupId(c.id) + Put16(if c.changed then 1 else 0)) + Put16(|c.daemons|)
             + PutDaemons(c.daemons)
  {
    hide PutGroupId, Put16, PutDaemons;
  }

  lemma SizeOf(d: DaemonRec)
    ensures DaemonSize(d) == DAEMON_INFO_SIZE + |d.members| * MAX_GROUP_NAME
  {
  }

  lemma NoDaemons(ds: seq<DaemonRec>)
    ensures ds[..0] == [] && ds[0..] == ds && DaemonsSize([]) == 0 && PutDaemons([]) == []
  {
  }

  lemma NoneFit(ds: seq<DaemonRec>, k: nat, n: nat)
    requires k <= |ds| && (k < |ds| ==> DaemonSize(ds[k]) + HEADER_SIZE > GROUPS_BUF_SIZE - n)
    ensures FitCount(ds[k..], n) == 0
  {
  }

  /** The membership id, the first-message flag and, in the first message, the synced set. */
  method WritePreamble(buf: array<byte>, memb: MembId, synced: Option<seq<ProcId>>) returns (n: nat)
    requires PreambleSize(synced) <= buf.Length
    modifies buf
    ensures n == PreambleSize(synced) && buf[..n] == PutMembId(memb) + PutSynced(synced)
  {
    hide Put32, PutMembId, PutProcs;
    n := Append(buf, 0, PutMembId(memb));
    match synced {
      case None =>
        n := Append(buf, n, [LATER_MESSAGE]);
      case Some(ps) =>
        n := Append(buf, n, [FIRST_MESSAGE]);
        n := Append(buf, n, Put32(|ps|));
        n := Append(buf, n, PutProcs(ps));
        Regroup(PutMembId(memb), [FIRST_MESSAGE], Put32(|ps|));
        Regroup(PutMembId(memb), [FIRST_MESSAGE] + Put32(|ps|), PutProcs(ps));
    }
  }

  /** The loop over the groups: it ends with the groups, or when a header or a daemon does not fit. */
  method WriteGroups(buf: array<byte>, n: nat, from: seq<Chunk>) returns (numBytes: nat, left: seq<Chunk>)
    requires buf.Length == GROUPS_BUF_SIZE && n + HEADER_SIZE <= GROUPS_BUF_SIZE
    modifies buf
    ensures numBytes + HEADER_SIZE <= GROUPS_BUF_SIZE && left == Fill(from, n).left
    ensures buf[..numBytes] == old(buf[..n]) + PutChunks(Fill(from, n).chunks)
  {
    hide PutChunk, PutChunks, Fill, ChunkSize, FitCount;
    NoChunks();
    ghost var cs, cut: bool := [], false;
    numBytes, left := n, from;
    while left != [] && GROUP_INFO_SIZE + HEADER_SIZE <= GROUPS_BUF_SIZE - numBytes
      invariant numBytes + HEADER_SIZE <= GROUPS_BUF_SIZE && !cut
      invariant buf[..numBytes] == old(buf[..n]) + PutChunks(cs)
      invariant Fill(from, n) == Filled(cs + Fill(left, numBytes).chunks, Fill(left, numBytes).left)
      decreases |left|
    {
      var g := left[0];
      FillStep(left, numBytes);
      var end, k := WriteGroup(buf, numBytes, g);
      ghost var chunk := g.(daemons := g.daemons[..k]);
      PutChunksSnoc(cs, chunk);
      Regroup(old(buf[..n]), PutChunks(cs), PutChunk(chunk));
      numBytes := end;
      if k < |g.daemons| {
        left := [g.(daemons := g.daemons[k..])] + left[1..];
        cs := cs + [chunk];
        cut := true;
        break;
      }
      left := left[1..];
      Regroup(cs, [chunk], Fill(left, numBytes).chunks);
      cs := cs + [chunk];
    }
    if !cut {
      FillNothing(left, numBytes);
      assert cs + [] == cs;
    }
  }

  /** G_build_groups_buf. The iterators are given by what they still have to visit. */
  method BuildGroupsBuf(buf: array<byte>, memb: MembId, synced: Option<seq<ProcId>>, from: seq<Chunk>)
      returns (numBytes: nat, left: seq<Chunk>)
    requires buf.Length == GROUPS_BUF_SIZE && PreambleSize(synced) + HEADER_SIZE <= GROUPS_BUF_SIZE
    modifies buf
    ensures numBytes + HEADER_SIZE <= GROUPS_BUF_SIZE
    ensures var f := Fill(from, PreambleSize(synced));
      left == f.left && buf[..numBytes] == PutMsg(Msg(memb, synced, f.chunks))
  {
    hide PutMembId, PutSynced, PutChunks, Fill, PreambleSize;
    numBytes := WritePreamble(buf, memb, synced);
    numBytes, left := WriteGroups(buf, numBytes, from);
  }

  lemma NoChunks()
    ensures PutChunks([]) == []
  {
  }

  lemma FillNothing(left: seq<Chunk>, n: nat)
    requires left == [] || GROUP_INFO_SIZE + HEADER_SIZE > GROUPS_BUF_SIZE - n
    ensures Fill(left, n) == Filled([], left)
  {
  }

  // ---------------------------------------------------------------- all buffers of a build

  /** The bodies of messages that carry these chunks, the first one naming the synced set. */
  ghost function BodiesOf(bs: seq<seq<Chunk>>, synced: seq<ProcId>, memb: MembId): (r: seq<seq<byte>>)
    ensures |r| == |bs|
    ensures forall i | 0 <= i < |r| :: r[i] == PutMsg(Msg(memb, if i == 0 then Some(synced) else None, bs[i]))
  {
    seq(|bs|, i requires 0 <= i < |bs| => PutMsg(Msg(memb, if i == 0 then Some(synced) else None, bs[i])))
  }

  lemma BodiesAre(table: seq<Chunk>, synced: seq<ProcId>, memb: MembId)
    requires NonEmpty(table) && AllFit(table) && SyncedFits(synced)
    ensures Bodies(table, synced, memb) == BodiesOf(Batches(table, synced), synced, memb)
  {
    hide Batches, PutMsg;
  }

  lemma BodiesSnoc(bs: seq<seq<Chunk>>, synced: seq<ProcId>, memb: MembId, b: seq<Chunk>)
    ensures BodiesOf(bs + [b], synced, memb)
         == BodiesOf(bs, synced, memb) + [PutMsg(Msg(memb, if bs == [] then Some(synced) else None, b))]
  {
    hide PutMsg;
  }

  lemma {:induction false} BackwardsSnoc<T>(a: seq<T>, x: T)
    ensures Backwards(a + [x]) == [x] + Backwards(a)
  {
  }

  lemma LaterStep(pending: seq<Chunk>)
    requires NonEmpty(pending) && AllFit(pending) && pending != []
    ensures var f := Fill(pending, PREAMBLE_SIZE);
      && NonEmpty(f.left) && AllFit(f.left) && |Flat(f.left)| < |Flat(pending)|
      && LaterBatches(pending) == [f.chunks] + LaterBatches(f.left)
  {
    LaterBufferProgresses(pending);
    FillKeeps(pending, PREAMBLE_SIZE);
  }

  lemma FirstStep(table: seq<Chunk>, synced: seq<ProcId>)
    requires NonEmpty(table) && AllFit(table) && SyncedFits(synced)
    ensures var f := Fill(table, PreambleSize(Some(synced)));
      && NonEmpty(f.left) && AllFit(f.left) && Batches(table, synced) == [f.chunks] + LaterBatches(f.left)
  {
    FillKeeps(table, PreambleSize(Some(synced)));
  }

  /** One round of the do-while loop: a new buffer in front of the list. */
  method BuildOne(bufs: seq<seq<byte>>, memb: MembId, synced: seq<ProcId>, from: seq<Chunk>, ghost bs: seq<seq<Chunk>>)
      returns (r: seq<seq<byte>>, left: seq<Chunk>)
    requires SyncedFits(synced) && bufs == Backwards(BodiesOf(bs, synced, memb))
    ensures var f := Fill(from, PreambleSize(if bs == [] then Some(synced) else None));
      left == f.left && r == Backwards(BodiesOf(bs + [f.chunks], synced, memb))
  {
    hide PutMsg, Fill, BodiesOf, Backwards;
    NoBodies(bufs, bs, synced, memb);
    var buf := new byte[GROUPS_BUF_SIZE];
    var n: nat;
    n, left := BuildGroupsBuf(buf, memb, if bufs == [] then Some(synced) else None, from);
    r := [buf[..n]] + bufs;
    ghost var f := Fill(from, PreambleSize(if bs == [] then Some(synced) else None));
    BodiesSnoc(bs, synced, memb, f.chunks);
    BackwardsSnoc(BodiesOf(bs, synced, memb), buf[..n]);
  }

  lemma NoBodies(bufs: seq<seq<byte>>, bs: seq<seq<Chunk>>, synced: seq<ProcId>, memb: MembId)
    requires bufs == Backwards(BodiesOf(bs, synced, memb))
    ensures bufs == [] <==> bs == []
  {
    hide PutMsg;
  }

  /** G_build_new_groups_bufs into an empty list. It ends because every entry fits a later buffer. */
  method BuildNewGroupsBufs(table: seq<Chunk>, synced: seq<ProcId>, memb: MembId) returns (bufs: seq<seq<byte>>)
    requires NonEmpty(table) && AllFit(table) && SyncedFits(synced)
    ensures bufs == Backwards(Bodies(table, synced, memb))
  {
    hide NonEmpty, AllFit, PutMsg, Fill, BodiesOf, Backwards, Batches, LaterBatches, Bodies, Flat, PreambleSize;
    BodiesAre(table, synced, memb);
    FirstStep(table, synced);
    ghost var bs: seq<seq<Chunk>> := [];
    assert [] == Backwards(BodiesOf([], synced, memb)) by { NothingBuilt(synced, memb); }
    var left: seq<Chunk>;
    bufs, left := BuildOne([], memb, synced, table, bs);
    bs := [Fill(table, PreambleSize(Some(synced))).chunks];
    assert [] + bs == bs;
    while left != []
      invariant NonEmpty(left) && AllFit(left) && bs != []
      invariant bufs == Backwards(BodiesOf(bs, synced, memb))
      invariant Batches(table, synced) == bs + LaterBatches(left)
      decreases |Flat(left)|
    {
      LaterStep(left);
      ghost var f := Fill(left, PREAMBLE_SIZE);
      LaterPreamble();
      bufs, left := BuildOne(bufs, memb, synced, left, bs);
      Regroup(bs, [f.chunks], LaterBatches(left));
      bs := bs + [f.chunks];
    }
    NoMoreBatches(left);
    assert bs + [] == bs;
  }

  lemma NothingBuilt(synced: seq<ProcId>, memb: MembId)
    ensures Backwards(BodiesOf([], synced, memb)) == []
  {
  }

  lemma LaterPreamble()
    ensures PreambleSize(None) == PREAMBLE_SIZE
  {
  }

  lemma NoMoreBatches(left: seq<Chunk>)
    requires NonEmpty(left) && AllFit(left) && left == []
    ensures LaterBatches(left) == []
  {
  }

  // ---------------------------------------------------------------- walking the skip lists

  /** The elements of s in the order a skip list keeps them. */
  method Sorted(s: set<Name>) returns (r: seq<Name>)
    ensures r == InOrder(s)
  {
    hide InOrder, NameBefore;
    NoneInOrder();
    r := [];
    var todo := s;
    assert [] + InOrder(s) == InOrder(s);
    while todo != {}
      invariant r + InOrder(todo) == InOrder(s)
      decreases todo
    {
      var m := Least(todo);
      InOrderStep(todo, m);
      Regroup(r, [m], InOrder(todo - {m}));
      r := r + [m];
      todo := todo - {m};
    }
    assert r + [] == r;
  }

  lemma NoneInOrder()
    ensures InOrder({}) == []
  {
  }

  lemma InOrderStep(s: set<Name>, m: Name)
    requires IsFirst(m, s)
    ensures InOrder(s) == [m] + InOrder(s - {m})
  {
    var f := First(s);
    BeforeIsTotal(m, f);
  }

  method Least(s: set<Name>) returns (m: Name)
    requires s != {}
    ensures IsFirst(m, s)
  {
    m :| m in s;
    var todo := s - {m};
    while todo != {}
      invariant todo <= s && m in s - todo
      invariant forall x | x in s - todo && x != m :: NameBefore(m, x)
      decreases todo
    {
      hide Before;
      var y :| y in todo;
      BeforeIsTotal(m, y);
      if NameBefore(y, m) {
        forall x | x in s - todo && x != m ensures NameBefore(y, x) {
          BeforeIsTransitive(y, m, x);
        }
        m := y;
      }
      todo := todo - {y};
    }
  }

  /** The walk over the table that G_build_groups_buf makes with its two iterators. */
  method WalkTable(t: Table, conf: seq<ProcId>) returns (r: seq<Chunk>)
    ensures r == Walk(t, conf)
  {
    var ns := Sorted(t.Keys);
    r := [];
    for i := |ns| downto 0
      invariant r == WalkNames(t, ns[i..], conf)
    {
      var c := WalkGroup(ns[i], t[ns[i]], conf);
      assert ns[i..][1..] == ns[i + 1..];
      r := [c] + r;
    }
    assert ns[0..] == ns;
  }

  method WalkGroup(n: Name, g: Group, conf: seq<ProcId>) returns (c: Chunk)
    ensures c == ChunkOf(n, g, conf)
  {
    var recs: seq<DaemonRec> := [];
    var ps := Select(conf, g.daemons.Keys);
    for i := |ps| downto 0
      invariant recs == RecsOf(g, ps[i..])
    {
      var members := Sorted(g.daemons[ps[i]].members);
      assert ps[i..][1..] == ps[i + 1..];
      recs := [DaemonRec(ps[i], g.id.memb, members)] + recs;
    }
    assert ps[0..] == ps;
    c := Chunk(n, g.id, g.changed, recs);
  }
}
