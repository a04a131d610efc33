/** Packing the whole group table into bounded GROUPS buffers: no daemon's entry is split, a group
    may be. The table is given as its skip-list walk, one chunk per group with all its daemons. */
module GroupsBuffers {
  import opened Sequences
  import opened Wire
  import opened Wrappers
  import opened GroupTable
  import opened GroupsCodec

  const GROUPS_BUF_SIZE := 100000
  const HEADER_SIZE := 48

  /** How many daemons, from the front of ds, go into a buffer holding `used` bytes. */
  function FitCount(ds: seq<DaemonRec>, used: nat): (n: nat)
    ensures n <= |ds|
  {
    if ds == [] || used + DaemonSize(ds[0]) + HEADER_SIZE > GROUPS_BUF_SIZE then 0
    else 1 + FitCount(ds[1..], used + DaemonSize(ds[0]))
  }

  /** As many daemons are taken as fit: these do, and one more would not. */
  lemma {:induction false} FitCountIsGreatest(ds: seq<DaemonRec>, used: nat)
    requires used + HEADER_SIZE <= GROUPS_BUF_SIZE
    ensures var n := FitCount(ds, used);
      && used + DaemonsSize(ds[..n]) + HEADER_SIZE <= GROUPS_BUF_SIZE
      && (n < |ds| ==> used + DaemonsSize(ds[..n]) + DaemonSize(ds[n]) + HEADER_SIZE > GROUPS_BUF_SIZE)
  {
    var n := FitCount(ds, used);
    if n > 0 {
      FitCountIsGreatest(ds[1..], used + DaemonSize(ds[0]));
      assert ds[..n][1..] == ds[1..][..n - 1];
    }
  }

  /** What one buffer takes of the groups the iterators git and dit still have to visit, and what
      they have to visit then. The first pending group may have lost its front daemons already. */
  datatype Filled = Filled(chunks: seq<Chunk>, left: seq<Chunk>)

  function Fill(pending: seq<Chunk>, used: nat): Filled
    decreases |pending|
  {
    if pending == [] || used + GROUP_INFO_SIZE + HEADER_SIZE > GROUPS_BUF_SIZE then Filled([], pending)
    else
      var g := pending[0];
      var n := FitCount(g.daemons, used + GROUP_INFO_SIZE);
      var chunk := g.(daemons := g.daemons[..n]);
      if n < |g.daemons| then Filled([chunk], [g.(daemons := g.daemons[n..])] + pending[1..])
      else
        var more := Fill(pending[1..], used + ChunkSize(chunk));
        Filled([chunk] + more.chunks, more.left)
  }

  lemma {:induction false} FillStaysInBounds(pending: seq<Chunk>, used: nat)
    requires used + HEADER_SIZE <= GROUPS_BUF_SIZE
    ensures used + ChunksSize(Fill(pending, used).chunks) + HEADER_SIZE <= GROUPS_BUF_SIZE
    decreases |pending|
  {
    hide FitCount, DaemonsSize;
    if pending != [] && used + GROUP_INFO_SIZE + HEADER_SIZE <= GROUPS_BUF_SIZE {
      var g := pending[0];
      var n := FitCount(g.daemons, used + GROUP_INFO_SIZE);
      var chunk := g.(daemons := g.daemons[..n]);
      FitCountIsGreatest(g.daemons, used + GROUP_INFO_SIZE);
      if n == |g.daemons| {
        FillStaysInBounds(pending[1..], used + ChunkSize(chunk));
      } else {
        assert ChunksSize([chunk]) == ChunkSize(chunk);
      }
    }
  }

  /** A buffer that leaves something has no room for what comes next: the header of the next group or, in a group that
      it has cut, the next daemon. */
  lemma {:induction false} FillIsGreatest(pending: seq<Chunk>, used: nat)
    requires used + HEADER_SIZE <= GROUPS_BUF_SIZE && Fill(pending, used).left != []
    ensures var f := Fill(pending, used);
      var full, next := used + ChunksSize(f.chunks), f.left[0];
      || (full + GROUP_INFO_SIZE + HEADER_SIZE > GROUPS_BUF_SIZE && next in pending)
      || (f.chunks != [] && f.chunks[|f.chunks| - 1].name == next.name && next.daemons != []
          && full + DaemonSize(next.daemons[0]) + HEADER_SIZE > GROUPS_BUF_SIZE)
    decreases |pending|
  {
    hide FitCount, DaemonsSize, DaemonSize;
    if pending != [] && used + GROUP_INFO_SIZE + HEADER_SIZE <= GROUPS_BUF_SIZE {
      var g := pending[0];
      var n := FitCount(g.daemons, used + GROUP_INFO_SIZE);
      var chunk := g.(daemons := g.daemons[..n]);
      FitCountIsGreatest(g.daemons, used + GROUP_INFO_SIZE);
      if n == |g.daemons| {
        FillIsGreatest(pending[1..], used + ChunkSize(chunk));
        var more := Fill(pending[1..], used + ChunkSize(chunk));
        assert ([chunk] + more.chunks)[1..] == more.chunks;
      } else {
        assert ChunksSize([chunk]) == ChunkSize(chunk);
      }
    }
  }

  // ---------------------------------------------------------------- nothing lost, nothing twice

  /** One daemon's entry for one group, as a buffer states it. */
  datatype Item = Item(name: Name, id: GroupId, changed: bool, rec: DaemonRec)

  function Items(c: Chunk, ds: seq<DaemonRec>): (r: seq<Item>)
    ensures |r| == |ds|
  {
    if ds == [] then [] else [Item(c.name, c.id, c.changed, ds[0])] + Items(c, ds[1..])
  }

  lemma {:induction false} ItemsAre(c: Chunk, ds: seq<DaemonRec>)
    ensures forall d | d in ds :: Item(c.name, c.id, c.changed, d) in Items(c, ds)
    ensures forall it | it in Items(c, ds) :: it == Item(c.name, c.id, c.changed, it.rec) && it.rec in ds
  {
    if ds != [] {
      ItemsAre(c, ds[1..]);
    }
  }

  function Flat(cs: seq<Chunk>): seq<Item> {
    if cs == [] then [] else Items(cs[0], cs[0].daemons) + Flat(cs[1..])
  }

  lemma {:induction false} ItemsSplit(c: Chunk, ds: seq<DaemonRec>, n: nat)
    requires n <= |ds|
    ensures Items(c, ds) == Items(c, ds[..n]) + Items(c, ds[n..])
  {
    if n > 0 {
      ItemsSplit(c, ds[1..], n - 1);
      assert ds[..n][1..] == ds[1..][..n - 1] && ds[1..][n - 1..] == ds[n..];
    } else {
      assert ds[n..] == ds;
    }
  }

  lemma {:induction false} ItemsOfPart(c: Chunk, part: seq<DaemonRec>, ds: seq<DaemonRec>)
    ensures Items(c.(daemons := part), ds) == Items(c, ds)
  {
    if ds != [] {
      ItemsOfPart(c, part, ds[1..]);
    }
  }

  lemma FlatCons(c: Chunk, cs: seq<Chunk>)
    ensures Flat([c] + cs) == Items(c, c.daemons) + Flat(cs)
  {
    assert ([c] + cs)[1..] == cs;
  }

  /** A group cut in two states the same entries. */
  lemma CutGroup(g: Chunk, n: nat, rest: seq<Chunk>)
    requires n <= |g.daemons|
    ensures Flat([g] + rest)
         == Flat([g.(daemons := g.daemons[..n])]) + Flat([g.(daemons := g.daemons[n..])] + rest)
  {
    var a, b := g.(daemons := g.daemons[..n]), g.(daemons := g.daemons[n..]);
    FlatCons(g, rest);
    FlatCons(a, []);
    FlatCons(b, rest);
    ItemsSplit(g, g.daemons, n);
    ItemsOfPart(g, a.daemons, a.daemons);
    ItemsOfPart(g, b.daemons, b.daemons);
    assert [a] + [] == [a];
    Regroup(Items(a, a.daemons), Items(b, b.daemons), Flat(rest));
  }

  /** How a buffer deals with the first pending group. */
  lemma FillStep(pending: seq<Chunk>, used: nat)
    requires pending != [] && used + GROUP_INFO_SIZE + HEADER_SIZE <= GROUPS_BUF_SIZE
    ensures var g, rest := pending[0], pending[1..];
      var n := FitCount(g.daemons, used + GROUP_INFO_SIZE);
      if n < |g.daemons| then
        Fill(pending, used) == Filled([g.(daemons := g.daemons[..n])], [g.(daemons := g.daemons[n..])] + rest)
      else
        var more := Fill(rest, used + ChunkSize(g));
        g.daemons[..n] == g.daemons && Fill(pending, used) == Filled([g] + more.chunks, more.left)
  {
    hide FitCount, ChunkSize;
    var g := pending[0];
    var n := FitCount(g.daemons, used + GROUP_INFO_SIZE);
    if n == |g.daemons| {
      assert g.daemons[..n] == g.daemons;
    }
  }

  lemma NothingFits(pending: seq<Chunk>, used: nat)
    requires pending == [] || used + GROUP_INFO_SIZE + HEADER_SIZE > GROUPS_BUF_SIZE
    ensures Fill(pending, used) == Filled([], pending) && Flat([]) + Flat(pending) == Flat(pending)
  {
    assert [] + Flat(pending) == Flat(pending);
  }

  /** A buffer takes the next entries in order and leaves exactly the others. */
  lemma {:induction false} FillTakesPrefix(pending: seq<Chunk>, used: nat)
    ensures Flat(pending) == Flat(Fill(pending, used).chunks) + Flat(Fill(pending, used).left)
    decreases |pending|
  {
    hide FitCount, Fill, Flat, Items, ChunkSize;
    if pending == [] || used + GROUP_INFO_SIZE + HEADER_SIZE > GROUPS_BUF_SIZE {
      NothingFits(pending, used);
    } else {
      var g, rest := pending[0], pending[1..];
      assert pending == [g] + rest;
      FillStep(pending, used);
      var n := FitCount(g.daemons, used + GROUP_INFO_SIZE);
      if n < |g.daemons| {
        CutGroup(g, n, rest);
      } else {
        var more := Fill(rest, used + ChunkSize(g));
        FillTakesPrefix(rest, used + ChunkSize(g));
        FlatCons(g, rest);
        FlatCons(g, more.chunks);
        Regroup(Items(g, g.daemons), Flat(more.chunks), Flat(more.left));
      }
    }
  }

  // ---------------------------------------------------------------- termination

  ghost predicate NonEmpty(pending: seq<Chunk>) {
    forall c | c in pending :: c.daemons != []
  }

  predicate FitsLaterBuffer(d: DaemonRec) {
    PREAMBLE_SIZE + GROUP_INFO_SIZE + DaemonSize(d) + HEADER_SIZE <= GROUPS_BUF_SIZE
  }

  ghost predicate AllFit(pending: seq<Chunk>) {
    forall c, d | c in pending && d in c.daemons :: FitsLaterBuffer(d)
  }

  ghost predicate DaemonsFit(ds: seq<DaemonRec>) {
    forall d | d in ds :: FitsLaterBuffer(d)
  }

  lemma AllFitCons(g: Chunk, rest: seq<Chunk>)
    ensures AllFit([g] + rest) <==> DaemonsFit(g.daemons) && AllFit(rest)
    ensures NonEmpty([g] + rest) <==> g.daemons != [] && NonEmpty(rest)
  {
    hide FitsLaterBuffer;
    var all := [g] + rest;
    assert g in all && forall c | c in rest :: c in all;
  }

  /** What a buffer took of a group fits a later buffer too, and so says nothing of the rest. */
  lemma TakenFits(ds: seq<DaemonRec>, used: nat)
    requires used >= PREAMBLE_SIZE + GROUP_INFO_SIZE && used + HEADER_SIZE <= GROUPS_BUF_SIZE
    ensures DaemonsFit(ds) <==> DaemonsFit(ds[FitCount(ds, used)..])
  {
    hide FitCount;
    var n := FitCount(ds, used);
    FitCountIsGreatest(ds, used);
    assert ds == ds[..n] + ds[n..];
    forall d | d in ds[..n] ensures FitsLaterBuffer(d) {
      PartFits(ds[..n], d);
    }
  }

  /** Entries too big for a later buffer stay pending; the others do not make it worse. */
  lemma {:induction false} FillKeeps(pending: seq<Chunk>, used: nat)
    requires used >= PREAMBLE_SIZE && used + HEADER_SIZE <= GROUPS_BUF_SIZE && NonEmpty(pending)
    ensures NonEmpty(Fill(pending, used).left)
    ensures AllFit(Fill(pending, used).left) <==> AllFit(pending)
    decreases |pending|
  {
    hide FitCount, NonEmpty, AllFit, DaemonsFit, FitsLaterBuffer;
    if pending != [] && used + GROUP_INFO_SIZE + HEADER_SIZE <= GROUPS_BUF_SIZE {
      var g, rest := pending[0], pending[1..];
      assert pending == [g] + rest;
      var n := FitCount(g.daemons, used + GROUP_INFO_SIZE);
      FitCountIsGreatest(g.daemons, used + GROUP_INFO_SIZE);
      AllFitCons(g, rest);
      TakenFits(g.daemons, used + GROUP_INFO_SIZE);
      if n == |g.daemons| {
        NoneLeft(g.daemons);
        FillKeeps(rest, used + ChunkSize(g.(daemons := g.daemons[..n])));
      } else {
        AllFitCons(g.(daemons := g.daemons[n..]), rest);
      }
    }
  }

  lemma NoneLeft(ds: seq<DaemonRec>)
    ensures DaemonsFit(ds[|ds|..])
  {
  }

  lemma {:induction false} PartFits(ds: seq<DaemonRec>, d: DaemonRec)
    requires d in ds
    ensures DaemonSize(d) <= DaemonsSize(ds)
  {
    if d != ds[0] {
      PartFits(ds[1..], d);
    }
  }

  /** A buffer other than the first takes at least one entry. */
  lemma LaterBufferProgresses(pending: seq<Chunk>)
    requires NonEmpty(pending) && AllFit(pending) && pending != []
    ensures |Flat(Fill(pending, PREAMBLE_SIZE).left)| < |Flat(pending)|
  {
    var g := pending[0];
    assert FitsLaterBuffer(g.daemons[0]);
    assert FitCount(g.daemons, PREAMBLE_SIZE + GROUP_INFO_SIZE) > 0;
    var f := Fill(pending, PREAMBLE_SIZE);
    FillTakesPrefix(pending, PREAMBLE_SIZE);
    FlatCons(f.chunks[0], f.chunks[1..]);
    assert f.chunks == [f.chunks[0]] + f.chunks[1..];
  }

  /** The buffers built after the first one. */
  function LaterBatches(pending: seq<Chunk>): (r: seq<seq<Chunk>>)
    requires NonEmpty(pending) && AllFit(pending)
    ensures |r| <= |Flat(pending)|
    decreases |Flat(pending)|
  {
    if pending == [] then []
    else
      LaterBufferProgresses(pending);
      FillKeeps(pending, PREAMBLE_SIZE);
      var f := Fill(pending, PREAMBLE_SIZE);
      [f.chunks] + LaterBatches(f.left)
  }

  predicate SyncedFits(synced: seq<ProcId>) {
    PreambleSize(Some(synced)) + HEADER_SIZE <= GROUPS_BUF_SIZE
  }

  /** All buffers of one build, in the order they are built. */
  function Batches(table: seq<Chunk>, synced: seq<ProcId>): (r: seq<seq<Chunk>>)
    requires NonEmpty(table) && AllFit(table) && SyncedFits(synced)
    ensures 1 <= |r| <= 1 + |Flat(table)|
  {
    var used := PreambleSize(Some(synced));
    FillKeeps(table, used);
    FillTakesPrefix(table, used);
    var f := Fill(table, used);
    [f.chunks] + LaterBatches(f.left)
  }

  /** What is still pending after the loop body of G_build_new_groups_bufs ran k times. */
  ghost function LeftAfter(table: seq<Chunk>, synced: seq<ProcId>, k: nat): seq<Chunk> {
    if k == 0 then table
    else Fill(LeftAfter(table, synced, k - 1), if k == 1 then PreambleSize(Some(synced)) else PREAMBLE_SIZE).left
  }

  ghost predicate Terminates(table: seq<Chunk>, synced: seq<ProcId>) {
    exists k: nat :: k > 0 && LeftAfter(table, synced, k) == []
  }

  lemma {:induction false} LeftAfterKeeps(table: seq<Chunk>, synced: seq<ProcId>, k: nat)
    requires NonEmpty(table) && SyncedFits(synced)
    ensures NonEmpty(LeftAfter(table, synced, k))
    ensures AllFit(LeftAfter(table, synced, k)) <==> AllFit(table)
  {
    hide NonEmpty, AllFit, Fill, FitsLaterBuffer;
    if k > 0 {
      LeftAfterKeeps(table, synced, k - 1);
      FillKeeps(LeftAfter(table, synced, k - 1), if k == 1 then PreambleSize(Some(synced)) else PREAMBLE_SIZE);
    }
  }

  lemma {:induction false} Arrives(table: seq<Chunk>, synced: seq<ProcId>, k: nat) returns (n: nat)
    requires NonEmpty(table) && SyncedFits(synced) && AllFit(table) && k > 0
    ensures n >= k && LeftAfter(table, synced, n) == []
    decreases |Flat(LeftAfter(table, synced, k))|
  {
    var left := LeftAfter(table, synced, k);
    if left == [] {
      n := k;
    } else {
      LeftAfterKeeps(table, synced, k);
      LaterBufferProgresses(left);
      n := Arrives(table, synced, k + 1);
    }
  }

  /** The build loop ends exactly when every entry fits a later buffer that holds nothing else;
      the message header is part of what must fit. */
  lemma BuildTerminates(table: seq<Chunk>, synced: seq<ProcId>)
    requires NonEmpty(table) && SyncedFits(synced)
    ensures Terminates(table, synced) <==> AllFit(table)
  {
    if AllFit(table) {
      var k := Arrives(table, synced, 1);
    } else {
      forall k: nat ensures LeftAfter(table, synced, k) != [] {
        LeftAfterKeeps(table, synced, k);
      }
    }
  }

  /** The session layer's limit on the local members of a group. */
  const MAX_LOCAL_GROUP_MEMBERS :=
    (GROUPS_BUF_SIZE - PREAMBLE_SIZE - GROUP_INFO_SIZE - DAEMON_INFO_SIZE) / MAX_GROUP_NAME

  /** The limit leaves no room for the message header: at the limit itself an entry fits no buffer, and
      below it every entry does. */
  lemma LimitMissesHeader(d: DaemonRec)
    ensures FitsLaterBuffer(d) <==> |d.members| < MAX_LOCAL_GROUP_MEMBERS
  {
    assert MAX_LOCAL_GROUP_MEMBERS == 3122;
  }

  // ---------------------------------------------------------------- the messages of one build

  /** The messages in the order they are built; the first carries the synced set. */
  function Messages(table: seq<Chunk>, synced: seq<ProcId>, memb: MembId): (r: seq<Msg>)
    requires NonEmpty(table) && AllFit(table) && SyncedFits(synced)
    ensures |r| == |Batches(table, synced)|
    ensures forall i | 0 <= i < |r| ::
      r[i] == Msg(memb, if i == 0 then Some(synced) else None, Batches(table, synced)[i])
  {
    var bs := Batches(table, synced);
    seq(|bs|, i requires 0 <= i < |bs| => Msg(memb, if i == 0 then Some(synced) else None, bs[i]))
  }

  lemma {:induction false} LaterBatchesAreFills(pending: seq<Chunk>, i: nat)
    requires NonEmpty(pending) && AllFit(pending) && i < |LaterBatches(pending)|
    ensures PREAMBLE_SIZE + ChunksSize(LaterBatches(pending)[i]) + HEADER_SIZE <= GROUPS_BUF_SIZE
    decreases i
  {
    FillStaysInBounds(pending, PREAMBLE_SIZE);
    if i > 0 {
      FillKeeps(pending, PREAMBLE_SIZE);
      LaterBatchesAreFills(Fill(pending, PREAMBLE_SIZE).left, i - 1);
    }
  }

  /** Every message of a build fits its buffer together with the message header. */
  lemma MessagesStayInBounds(table: seq<Chunk>, synced: seq<ProcId>, memb: MembId, i: nat)
    requires NonEmpty(table) && AllFit(table) && SyncedFits(synced) && i < |Messages(table, synced, memb)|
    ensures |PutMsg(Messages(table, synced, memb)[i])| + HEADER_SIZE <= GROUPS_BUF_SIZE
  {
    var used := PreambleSize(Some(synced));
    MsgSize(Messages(table, synced, memb)[i]);
    FillStaysInBounds(table, used);
    if i > 0 {
      FillKeeps(table, used);
      LaterBatchesAreFills(Fill(table, used).left, i - 1);
    }
  }

  function Concat(bs: seq<seq<Chunk>>): seq<Chunk> {
    if bs == [] then [] else bs[0] + Concat(bs[1..])
  }

  lemma {:induction false} FlatAppend(a: seq<Chunk>, b: seq<Chunk>)
    ensures Flat(a + b) == Flat(a) + Flat(b)
  {
    if a == [] {
      assert a + b == b;
    } else {
      FlatAppend(a[1..], b);
      assert (a + b)[1..] == a[1..] + b;
      Regroup(Items(a[0], a[0].daemons), Flat(a[1..]), Flat(b));
    }
  }

  lemma {:induction false} LaterBatchesCover(pending: seq<Chunk>)
    requires NonEmpty(pending) && AllFit(pending)
    ensures Flat(Concat(LaterBatches(pending))) == Flat(pending)
    decreases |Flat(pending)|
  {
    if pending != [] {
      LaterBufferProgresses(pending);
      FillKeeps(pending, PREAMBLE_SIZE);
      var f := Fill(pending, PREAMBLE_SIZE);
      FillTakesPrefix(pending, PREAMBLE_SIZE);
      LaterBatchesCover(f.left);
      FlatAppend(f.chunks, Concat(LaterBatches(f.left)));
      assert LaterBatches(pending)[1..] == LaterBatches(f.left);
    }
  }

  /** Over all buffers of a build, every entry of the table is stated once, in table order. */
  lemma BuffersCoverTable(table: seq<Chunk>, synced: seq<ProcId>)
    requires NonEmpty(table) && AllFit(table) && SyncedFits(synced)
    ensures Flat(Concat(Batches(table, synced))) == Flat(table)
  {
    var used := PreambleSize(Some(synced));
    var f := Fill(table, used);
    FillKeeps(table, used);
    FillTakesPrefix(table, used);
    LaterBatchesCover(f.left);
    FlatAppend(f.chunks, Concat(LaterBatches(f.left)));
    assert Batches(table, synced)[1..] == LaterBatches(f.left);
  }
}
