/** Where each field of a message lies and how its bytes are ordered: lowest byte first, as on the daemon's own machine.
    Stated by bytes and offsets, without the functions that write and read. */
module WireLayout {
  import opened Wire
  import opened Wrappers
  import opened GroupTable
  import opened GroupsCodec
  import opened VsSets
  import opened VsMessage

  /** A 16-bit field at `at` holds x. */
  predicate Field16(b: seq<byte>, at: nat, x: nat) {
    at + 2 <= |b| && x == b[at] as int + 0x100 * b[at + 1] as int
  }

  /** A 32-bit field holds x, in two's complement if it is negative. */
  predicate Field32(b: seq<byte>, at: nat, x: int) {
    && at + 4 <= |b|
    && (if x < 0 then x + 0x1_0000_0000 else x)
       == b[at] as int + 0x100 * b[at + 1] as int + 0x1_0000 * b[at + 2] as int + 0x100_0000 * b[at + 3] as int
  }

  ghost predicate MembAt(b: seq<byte>, at: nat, m: MembId) {
    Field32(b, at, m.proc) && Field32(b, at + 4, m.time)
  }

  ghost predicate GroupIdAt(b: seq<byte>, at: nat, g: GroupId) {
    MembAt(b, at, g.memb) && Field32(b, at + 8, g.index)
  }

  /** Names one after another, 32 bytes each. */
  ghost predicate NamesAt(b: seq<byte>, at: nat, names: seq<Name>) {
    at + 32 * |names| <= |b| && forall i | 0 <= i < |names| :: b[at + 32 * i..at + 32 * i + 32] == names[i]
  }

  /** A daemon's entry: process, membership id, number of members, members. */
  ghost predicate DaemonAt(b: seq<byte>, at: nat, d: DaemonRec) {
    && Field32(b, at, d.proc) && MembAt(b, at + 4, d.memb)
    && Field16(b, at + 12, |d.members|) && NamesAt(b, at + 14, d.members)
  }

  /** A group's entry: name, id, changed flag, number of daemons, daemons. */
  ghost predicate ChunkAt(b: seq<byte>, at: nat, c: Chunk) {
    && NamesAt(b, at, [c.name]) && GroupIdAt(b, at + 32, c.id)
    && Field16(b, at + 44, if c.changed then 1 else 0) && Field16(b, at + 46, |c.daemons|)
    && forall k | 0 <= k < |c.daemons| :: DaemonAt(b, at + 48 + DaemonsSize(c.daemons[..k]), c.daemons[k])
  }

  /** A GROUPS message: membership id, flag, in a first message the synced set with its size, then the groups. */
  ghost predicate MsgAt(b: seq<byte>, m: Msg) {
    && MembAt(b, 0, m.memb) && 9 <= |b| && b[8] == (if m.synced.Some? then 1 else 0)
    && (m.synced.Some? ==>
          && Field32(b, 9, |m.synced.value|)
          && forall i | 0 <= i < |m.synced.value| :: Field32(b, 13 + 4 * i, m.synced.value[i]))
    && (var start := if m.synced.Some? then 13 + 4 * |m.synced.value| else 9;
        forall k | 0 <= k < |m.chunks| :: ChunkAt(b, start + ChunksSize(m.chunks[..k]), m.chunks[k]))
  }

  // ---------------------------------------------------------------- fields

  lemma Put16Bytes(x: nat)
    requires x < 0x1_0000
    ensures Field16(Put16(x), 0, x)
  {
    assert Put16(x) == [x % 256] + Little(x / 256, 1);
    assert Little(x / 256, 1) == [x / 256 % 256] + Little(x / 256 / 256, 0);
  }

  lemma Put32Bytes(x: int)
    requires -0x8000_0000 <= x < 0x1_0000_0000
    ensures Field32(Put32(x), 0, x)
  {
    var u := if x < 0 then x + 0x1_0000_0000 else x;
    var u1, u2, u3 := u / 256, u / 256 / 256, u / 256 / 256 / 256;
    assert Little(u, 4) == [u % 256] + Little(u1, 3);
    assert Little(u1, 3) == [u1 % 256] + Little(u2, 2);
    assert Little(u2, 2) == [u2 % 256] + Little(u3, 1);
    assert Little(u3, 1) == [u3 % 256] + Little(u3 / 256, 0);
    assert u == u % 256 + 256 * (u1 % 256 + 256 * (u2 % 256 + 256 * u3));
  }

  lemma ByteIn(b: seq<byte>, at: nat, e: seq<byte>, i: nat)
    requires Has(b, at, e) && i < |e|
    ensures b[at + i] == e[i]
  {
    assert b[at..at + |e|][i] == e[i];
  }

  /** What lies in e lies in b where e does. */
  lemma Field32In(b: seq<byte>, at: nat, e: seq<byte>, k: nat, x: int)
    requires Has(b, at, e) && Field32(e, k, x)
    ensures Field32(b, at + k, x)
  {
    ByteIn(b, at, e, k);
    ByteIn(b, at, e, k + 1);
    ByteIn(b, at, e, k + 2);
    ByteIn(b, at, e, k + 3);
  }

  lemma Has32(b: seq<byte>, at: nat, x: int)
    requires -0x8000_0000 <= x < 0x1_0000_0000 && Has(b, at, Put32(x))
    ensures Field32(b, at, x)
  {
    hide Field32;
    Put32Bytes(x);
    Field32In(b, at, Put32(x), 0, x);
  }

  lemma Has16(b: seq<byte>, at: nat, x: nat)
    requires x < 0x1_0000 && Has(b, at, Put16(x))
    ensures Field16(b, at, x)
  {
    Put16Bytes(x);
    ByteIn(b, at, Put16(x), 0);
    ByteIn(b, at, Put16(x), 1);
  }

  lemma HasMemb(b: seq<byte>, at: nat, m: MembId)
    requires Has(b, at, PutMembId(m))
    ensures MembAt(b, at, m)
  {
    hide Field32, Put32;
    HasParts(b, at, Put32(m.proc), Put32(m.time));
    Has32(b, at, m.proc);
    Has32(b, at + 4, m.time);
  }

  lemma HasGroupId(b: seq<byte>, at: nat, g: GroupId)
    requires Has(b, at, PutGroupId(g))
    ensures GroupIdAt(b, at, g)
  {
    hide Field32, Put32, PutMembId, MembAt;
    HasParts(b, at, PutMembId(g.memb), Put32(g.index));
    HasMemb(b, at, g.memb);
    Has32(b, at + 8, g.index);
  }

  lemma {:induction false} HasNames(b: seq<byte>, at: nat, names: seq<Name>)
    requires Has(b, at, PutNames(names))
    ensures NamesAt(b, at, names)
    decreases |names|
  {
    if names != [] {
      HasParts(b, at, names[0], PutNames(names[1..]));
      HasNames(b, at + 32, names[1..]);
      forall i | 0 <= i < |names| ensures b[at + 32 * i..at + 32 * i + 32] == names[i] {
        if i > 0 {
          assert b[at + 32 + 32 * (i - 1)..at + 32 + 32 * (i - 1) + 32] == names[1..][i - 1];
        }
      }
    }
  }

  // ---------------------------------------------------------------- GROUPS messages

  lemma DaemonLayout(b: seq<byte>, at: nat, d: DaemonRec)
    requires DaemonFits(d) && Has(b, at, PutDaemon(d))
    ensures DaemonAt(b, at, d)
  {
    hide Field32, Field16, Put32, Put16, PutMembId, PutNames, MembAt, NamesAt, Has;
    var e := Put32(d.proc) + PutMembId(d.memb);
    HasParts(b, at, e + Put16(|d.members|), PutNames(d.members));
    HasParts(b, at, e, Put16(|d.members|));
    HasParts(b, at, Put32(d.proc), PutMembId(d.memb));
    Has32(b, at, d.proc);
    HasMemb(b, at + 4, d.memb);
    Has16(b, at + 12, |d.members|);
    HasNames(b, at + 14, d.members);
  }

  lemma DaemonsSizeStep(ds: seq<DaemonRec>, k: nat)
    requires 0 < k <= |ds|
    ensures DaemonsSize(ds[..k]) == DaemonSize(ds[0]) + DaemonsSize(ds[1..][..k - 1])
  {
    assert ds[..k][1..] == ds[1..][..k - 1];
  }

  lemma DaemonsNone(ds: seq<DaemonRec>)
    ensures DaemonsSize(ds[..0]) == 0
  {
  }

  lemma {:induction false} DaemonsLayout(b: seq<byte>, at: nat, ds: seq<DaemonRec>)
    requires (forall d | d in ds :: DaemonFits(d)) && Has(b, at, PutDaemons(ds))
    ensures forall k | 0 <= k < |ds| :: DaemonAt(b, at + DaemonsSize(ds[..k]), ds[k])
    decreases |ds|
  {
    hide DaemonAt, PutDaemon, Has, DaemonFits, DaemonsSize, DaemonSize;
    if ds != [] {
      DaemonsNone(ds);
      HasParts(b, at, PutDaemon(ds[0]), PutDaemons(ds[1..]));
      DaemonLayout(b, at, ds[0]);
      DaemonsLayout(b, at + DaemonSize(ds[0]), ds[1..]);
      forall k | 0 <= k < |ds| ensures DaemonAt(b, at + DaemonsSize(ds[..k]), ds[k]) {
        if k > 0 {
          DaemonsSizeStep(ds, k);
          assert DaemonAt(b, at + DaemonSize(ds[0]) + DaemonsSize(ds[1..][..k - 1]), ds[1..][k - 1]);
        }
      }
    }
  }

  lemma ChunkLayout(b: seq<byte>, at: nat, c: Chunk)
    requires ChunkFits(c) && Has(b, at, PutChunk(c))
    ensures ChunkAt(b, at, c)
  {
    hide Field16, Put16, PutGroupId, PutDaemons, GroupIdAt, NamesAt, Has, DaemonAt, DaemonFits, DaemonsSize;
    var e1 := c.name + PutGroupId(c.id);
    var e2 := e1 + Put16(if c.changed then 1 else 0);
    HasParts(b, at, e2 + Put16(|c.daemons|), PutDaemons(c.daemons));
    HasParts(b, at, e2, Put16(|c.daemons|));
    HasParts(b, at, e1, Put16(if c.changed then 1 else 0));
    HasParts(b, at, c.name, PutGroupId(c.id));
    OneName(c.name);
    HasNames(b, at, [c.name]);
    HasGroupId(b, at + 32, c.id);
    Has16(b, at + 44, if c.changed then 1 else 0);
    Has16(b, at + 46, |c.daemons|);
    DaemonsLayout(b, at + 48, c.daemons);
  }

  lemma OneName(n: Name)
    ensures PutNames([n]) == n
  {
  }

  lemma ChunksSizeStep(cs: seq<Chunk>, k: nat)
    requires 0 < k <= |cs|
    ensures ChunksSize(cs[..k]) == ChunkSize(cs[0]) + ChunksSize(cs[1..][..k - 1])
  {
    assert cs[..k][1..] == cs[1..][..k - 1];
  }

  lemma ChunksNone(cs: seq<Chunk>)
    ensures ChunksSize(cs[..0]) == 0
  {
  }

  lemma {:induction false} ChunksLayout(b: seq<byte>, at: nat, cs: seq<Chunk>)
    requires (forall c | c in cs :: ChunkFits(c)) && Has(b, at, PutChunks(cs))
    ensures forall k | 0 <= k < |cs| :: ChunkAt(b, at + ChunksSize(cs[..k]), cs[k])
    decreases |cs|
  {
    hide ChunkAt, PutChunk, Has, ChunkFits, ChunkSize, ChunksSize;
    if cs != [] {
      ChunksNone(cs);
      HasParts(b, at, PutChunk(cs[0]), PutChunks(cs[1..]));
      ChunkLayout(b, at, cs[0]);
      ChunksLayout(b, at + ChunkSize(cs[0]), cs[1..]);
      forall k | 0 <= k < |cs| ensures ChunkAt(b, at + ChunksSize(cs[..k]), cs[k]) {
        if k > 0 {
          ChunksSizeStep(cs, k);
          assert ChunkAt(b, at + ChunkSize(cs[0]) + ChunksSize(cs[1..][..k - 1]), cs[1..][k - 1]);
        }
      }
    }
  }

  lemma {:induction false} HasProcs(b: seq<byte>, at: nat, ps: seq<ProcId>)
    requires Has(b, at, PutProcs(ps))
    ensures forall i | 0 <= i < |ps| :: Field32(b, at + 4 * i, ps[i])
    decreases |ps|
  {
    hide Field32, Put32;
    if ps != [] {
      HasParts(b, at, Put32(ps[0]), PutProcs(ps[1..]));
      Has32(b, at, ps[0]);
      HasProcs(b, at + 4, ps[1..]);
      forall i | 0 <= i < |ps| ensures Field32(b, at + 4 * i, ps[i]) {
        if i > 0 {
          assert Field32(b, at + 4 + 4 * (i - 1), ps[1..][i - 1]);
        }
      }
    }
  }

  lemma SyncedLayout(b: seq<byte>, at: nat, s: Option<seq<ProcId>>)
    requires Has(b, at, PutSynced(s)) && (s.Some? ==> |s.value| < 0x1_0000_0000)
    ensures at < |b| && b[at] == (if s.Some? then 1 else 0)
    ensures s.Some? ==>
      Field32(b, at + 1, |s.value|) && forall i | 0 <= i < |s.value| :: Field32(b, at + 5 + 4 * i, s.value[i])
  {
    hide Field32, Put32, PutProcs;
    match s
    case None =>
      assert b[at..at + 1][0] == b[at];
    case Some(ps) =>
      HasParts(b, at, [FIRST_MESSAGE] + Put32(|ps|), PutProcs(ps));
      HasParts(b, at, [FIRST_MESSAGE], Put32(|ps|));
      assert b[at..at + 1][0] == b[at];
      Has32(b, at + 1, |ps|);
      HasProcs(b, at + 5, ps);
  }

  /** Every field of a GROUPS message lies where the format says. */
  lemma MessageLayout(m: Msg)
    requires MsgFits(m)
    ensures MsgAt(PutMsg(m), m)
  {
    hide Field32, PutMembId, PutSynced, PutChunks, MembAt, ChunkAt, ChunkFits, ChunksSize;
    var b := PutMsg(m);
    assert Has(b, 0, PutMembId(m.memb) + PutSynced(m.synced) + PutChunks(m.chunks));
    HasParts(b, 0, PutMembId(m.memb) + PutSynced(m.synced), PutChunks(m.chunks));
    HasParts(b, 0, PutMembId(m.memb), PutSynced(m.synced));
    HasMemb(b, 0, m.memb);
    SyncedLayout(b, 8, m.synced);
    SyncedSize(m.synced);
    ChunksLayout(b, 8 + |PutSynced(m.synced)|, m.chunks);
  }

  lemma SyncedSize(s: Option<seq<ProcId>>)
    ensures |PutSynced(s)| == if s.Some? then 5 + 4 * |s.value| else 1
  {
  }

  // ---------------------------------------------------------------- membership messages

  /** The data of a membership message: group id, number of sets, offset of the own set,
      and each set's size and names. */
  lemma MembershipLayout(id: GroupId, sets: seq<VsSet>, offset: nat)
    requires |PutSets(sets)| < 0x1_0000_0000 && offset < 0x1_0000_0000 && SetsFit(sets) && |sets| < 0x1_0000_0000
    ensures var d := PutData(id, sets, offset);
      && GroupIdAt(d, 0, id) && Field32(d, 12, |sets|) && Field32(d, 16, offset)
      && forall k | 0 <= k < |sets| ::
           && Field32(d, 20 + Offset(sets, k), |sets[k].members|)
           && NamesAt(d, 24 + Offset(sets, k), sets[k].members)
  {
    hide Field32, Put32, PutGroupId, PutSets, Offset, GroupIdAt, NamesAt, PutNames;
    var d := PutData(id, sets, offset);
    assert Has(d, 0, PutGroupId(id) + Put32(|sets|) + Put32(offset) + PutSets(sets));
    HasParts(d, 0, PutGroupId(id) + Put32(|sets|) + Put32(offset), PutSets(sets));
    HasParts(d, 0, PutGroupId(id) + Put32(|sets|), Put32(offset));
    HasParts(d, 0, PutGroupId(id), Put32(|sets|));
    HasGroupId(d, 0, id);
    Has32(d, 12, |sets|);
    Has32(d, 16, offset);
    forall k | 0 <= k < |sets|
      ensures Field32(d, 20 + Offset(sets, k), |sets[k].members|)
      ensures NamesAt(d, 24 + Offset(sets, k), sets[k].members)
    {
      SetsHave(sets, k);
      HasWithin(d, 20, PutSets(sets), Offset(sets, k), PutSet(sets[k]));
      HasParts(d, 20 + Offset(sets, k), Put32(|sets[k].members|), PutNames(sets[k].members));
      assert sets[k] in sets;
      Has32(d, 20 + Offset(sets, k), |sets[k].members|);
      HasNames(d, 24 + Offset(sets, k), sets[k].members);
    }
  }

  lemma HasWithin(b: seq<byte>, at: nat, e: seq<byte>, k: nat, f: seq<byte>)
    requires Has(b, at, e) && Has(e, k, f)
    ensures Has(b, at + k, f)
  {
    forall i | 0 <= i < |f| ensures b[at + k..at + k + |f|][i] == f[i] {
      ByteIn(b, at, e, k + i);
      ByteIn(e, k, f, i);
    }
  }
}
