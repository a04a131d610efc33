/** The byte layout of a GROUPS message body, and the parser that G_mess_to_groups runs over it. */
module GroupsCodec {
  import opened Wire
  import opened Wrappers
  import opened GroupTable

  datatype DaemonRec = DaemonRec(proc: ProcId, memb: MembId, members: seq<Name>)

  /** What one message says about one group: some, possibly none, of its daemons. */
  datatype Chunk = Chunk(name: Name, id: GroupId, changed: bool, daemons: seq<DaemonRec>)

  /** `synced` is present in the message that carries the first-message flag. */
  datatype Msg = Msg(memb: MembId, synced: Option<seq<ProcId>>, chunks: seq<Chunk>)

  const PREAMBLE_SIZE := 9
  const GROUP_INFO_SIZE := 48
  const DAEMON_INFO_SIZE := 14
  const FIRST_MESSAGE: byte := 1
  const LATER_MESSAGE: byte := 0

  // ---------------------------------------------------------------- writing

  function PutMembId(m: MembId): (b: seq<byte>)
    ensures |b| == 8
  {
    Put32(m.proc) + Put32(m.time)
  }

  function PutGroupId(g: GroupId): (b: seq<byte>)
    ensures |b| == 12
  {
    PutMembId(g.memb) + Put32(g.index)
  }

  function PutNames(ns: seq<Name>): (b: seq<byte>)
    ensures |b| == 32 * |ns|
  {
    if ns == [] then [] else ns[0] + PutNames(ns[1..])
  }

  function PutProcs(ps: seq<ProcId>): (b: seq<byte>)
    ensures |b| == 4 * |ps|
  {
    if ps == [] then [] else Put32(ps[0]) + PutProcs(ps[1..])
  }

  function DaemonSize(d: DaemonRec): nat {
    14 + 32 * |d.members|
  }

  function PutDaemon(d: DaemonRec): (b: seq<byte>)
    ensures |b| == DaemonSize(d)
  {
    Put32(d.proc) + PutMembId(d.memb) + Put16(|d.members|) + PutNames(d.members)
  }

  function DaemonsSize(ds: seq<DaemonRec>): nat {
    if ds == [] then 0 else DaemonSize(ds[0]) + DaemonsSize(ds[1..])
  }

  function PutDaemons(ds: seq<DaemonRec>): (b: seq<byte>)
    ensures |b| == DaemonsSize(ds)
  {
    if ds == [] then [] else PutDaemon(ds[0]) + PutDaemons(ds[1..])
  }

  function ChunkSize(c: Chunk): nat {
    GROUP_INFO_SIZE + DaemonsSize(c.daemons)
  }

  function PutChunk(c: Chunk): (b: seq<byte>)
    ensures |b| == ChunkSize(c)
  {
    c.name + PutGroupId(c.id) + Put16(if c.changed then 1 else 0) + Put16(|c.daemons|) + PutDaemons(c.daemons)
  }

  function ChunksSize(cs: seq<Chunk>): nat {
    if cs == [] then 0 else ChunkSize(cs[0]) + ChunksSize(cs[1..])
  }

  function PutChunks(cs: seq<Chunk>): (b: seq<byte>)
    ensures |b| == ChunksSize(cs)
  {
    if cs == [] then [] else PutChunk(cs[0]) + PutChunks(cs[1..])
  }

  function PutSynced(s: Option<seq<ProcId>>): (b: seq<byte>) {
    match s
    case None => [LATER_MESSAGE]
    case Some(ps) => [FIRST_MESSAGE] + Put32(|ps|) + PutProcs(ps)
  }

  function PutMsg(m: Msg): (b: seq<byte>) {
    PutMembId(m.memb) + PutSynced(m.synced) + PutChunks(m.chunks)
  }

  function PreambleSize(synced: Option<seq<ProcId>>): nat {
    PREAMBLE_SIZE + (if synced.Some? then 4 + 4 * |synced.value| else 0)
  }

  lemma MsgSize(m: Msg)
    ensures |PutMsg(m)| == PreambleSize(m.synced) + ChunksSize(m.chunks)
  {
  }

  // ---------------------------------------------------------------- reading

  function GetMembId(b: seq<byte>): MembId
    requires |b| == 8
  {
    MembId(Get32(b[..4]), Get32(b[4..]))
  }

  function GetGroupId(b: seq<byte>): GroupId
    requires |b| == 12
  {
    GroupId(GetMembId(b[..8]), Get32(b[8..]))
  }

  function GetNames(b: seq<byte>, at: nat, n: nat): (r: seq<Name>)
    requires at + 32 * n <= |b|
    ensures |r| == n
    decreases n
  {
    if n == 0 then [] else [b[at..at + MAX_GROUP_NAME]] + GetNames(b, at + MAX_GROUP_NAME, n - 1)
  }

  function GetProcs(b: seq<byte>, at: nat, n: nat): (r: seq<ProcId>)
    requires at + 4 * n <= |b|
    ensures |r| == n
    decreases n
  {
    if n == 0 then [] else [Get32(b[at..at + 4])] + GetProcs(b, at + 4, n - 1)
  }

  /** A field parsed at some offset, and the offset behind it; or a field that does not lie in the
      message. */
  datatype Parsed<+T> = Beyond | Parsed(value: T, end: nat)

  function GetDaemon(b: seq<byte>, at: nat): (r: Parsed<DaemonRec>)
    ensures r.Parsed? ==> at < r.end <= |b|
  {
    if at + DAEMON_INFO_SIZE > |b| then Beyond
    else
      var n := Get16(b[at + 12..at + 14]);
      var end := at + 14 + 32 * n;
      if end > |b| then Beyond
      else
        Parsed(DaemonRec(Get32(b[at..at + 4]), GetMembId(b[at + 4..at + 12]), GetNames(b, at + 14, n)), end)
  }

  function GetDaemons(b: seq<byte>, at: nat, n: nat): (r: Parsed<seq<DaemonRec>>)
    requires at <= |b|
    ensures r.Parsed? ==> at <= r.end <= |b| && |r.value| == n
    decreases n
  {
    if n == 0 then Parsed([], at)
    else
      match GetDaemon(b, at)
      case Beyond => Beyond
      case Parsed(d, next) =>
        match GetDaemons(b, next, n - 1)
        case Beyond => Beyond
        case Parsed(ds, end) => Parsed([d] + ds, end)
  }

  function GetChunk(b: seq<byte>, at: nat): (r: Parsed<Chunk>)
    ensures r.Parsed? ==> at < r.end <= |b|
  {
    if at + GROUP_INFO_SIZE > |b| then Beyond
    else
      match GetDaemons(b, at + GROUP_INFO_SIZE, Get16(b[at + 46..at + 48]))
      case Beyond => Beyond
      case Parsed(ds, end) =>
        Parsed(Chunk(b[at..at + 32], GetGroupId(b[at + 32..at + 44]), Get16(b[at + 44..at + 46]) != 0, ds), end)
  }

  /** Every group up to the end of the message. */
  function GetChunks(b: seq<byte>, at: nat): (r: Option<seq<Chunk>>)
    decreases |b| - at
  {
    if at >= |b| then Some([])
    else
      match GetChunk(b, at)
      case Beyond => None
      case Parsed(c, next) =>
        match GetChunks(b, next)
        case None => None
        case Some(cs) => Some([c] + cs)
  }

  function GetSynced(b: seq<byte>, at: nat): (r: Parsed<Option<seq<ProcId>>>)
    ensures r.Parsed? ==> at < r.end <= |b|
  {
    if at >= |b| then Beyond
    else if b[at] != FIRST_MESSAGE then Parsed(None, at + 1)
    else if at + 5 > |b| then Beyond
    else
      var n := Get32u(b[at + 1..at + 5]);
      if at + 5 + 4 * n > |b| then Beyond else Parsed(Some(GetProcs(b, at + 5, n)), at + 5 + 4 * n)
  }

  function GetMsg(b: seq<byte>): (r: Option<Msg>) {
    if |b| < 8 then None
    else
      match GetSynced(b, 8)
      case Beyond => None
      case Parsed(synced, next) =>
        match GetChunks(b, next)
        case None => None
        case Some(cs) => Some(Msg(GetMembId(b[..8]), synced, cs))
  }

  // ---------------------------------------------------------------- reading back what was written

  /** e lies in b at offset `at`. */
  predicate Has(b: seq<byte>, at: nat, e: seq<byte>) {
    at + |e| <= |b| && b[at..at + |e|] == e
  }

  lemma HasParts(b: seq<byte>, at: nat, e: seq<byte>, f: seq<byte>)
    requires Has(b, at, e + f)
    ensures Has(b, at, e) && Has(b, at + |e|, f)
  {
    assert b[at..at + |e|] == b[at..at + |e + f|][..|e|];
    assert b[at + |e|..at + |e| + |f|] == b[at..at + |e + f|][|e|..];
  }

  lemma {:induction false} ReadNames(b: seq<byte>, at: nat, ns: seq<Name>)
    requires Has(b, at, PutNames(ns))
    ensures GetNames(b, at, |ns|) == ns
    decreases |ns|
  {
    if ns != [] {
      HasParts(b, at, ns[0], PutNames(ns[1..]));
      ReadNames(b, at + MAX_GROUP_NAME, ns[1..]);
    }
  }

  lemma {:induction false} ReadProcs(b: seq<byte>, at: nat, ps: seq<ProcId>)
    requires Has(b, at, PutProcs(ps))
    ensures GetProcs(b, at, |ps|) == ps
    decreases |ps|
  {
    if ps != [] {
      HasParts(b, at, Put32(ps[0]), PutProcs(ps[1..]));
      RoundTrip32(ps[0]);
      ReadProcs(b, at + 4, ps[1..]);
    }
  }

  lemma ReadMembId(m: MembId)
    ensures GetMembId(PutMembId(m)) == m
  {
    RoundTrip32(m.proc);
    RoundTrip32(m.time);
  }

  lemma ReadGroupId(g: GroupId)
    ensures GetGroupId(PutGroupId(g)) == g
  {
    ReadMembId(g.memb);
    RoundTrip32(g.index);
    assert PutGroupId(g)[..8] == PutMembId(g.memb);
  }

  predicate DaemonFits(d: DaemonRec) {
    |d.members| < 0x1_0000
  }

  predicate ChunkFits(c: Chunk) {
    |c.daemons| < 0x1_0000 && forall d | d in c.daemons :: DaemonFits(d)
  }

  predicate MsgFits(m: Msg) {
    (m.synced.Some? ==> |m.synced.value| < 0x1_0000_0000) && forall c | c in m.chunks :: ChunkFits(c)
  }

  lemma ReadDaemon(b: seq<byte>, at: nat, d: DaemonRec)
    requires DaemonFits(d) && Has(b, at, PutDaemon(d))
    ensures GetDaemon(b, at) == Parsed(d, at + DaemonSize(d))
  {
    var e := Put32(d.proc) + PutMembId(d.memb);
    HasParts(b, at, e + Put16(|d.members|), PutNames(d.members));
    HasParts(b, at, e, Put16(|d.members|));
    HasParts(b, at, Put32(d.proc), PutMembId(d.memb));
    RoundTrip32(d.proc);
    ReadMembId(d.memb);
    RoundTrip16(|d.members|);
    ReadNames(b, at + 14, d.members);
  }

  lemma {:induction false} ReadDaemons(b: seq<byte>, at: nat, ds: seq<DaemonRec>)
    requires at <= |b| && (forall d | d in ds :: DaemonFits(d)) && Has(b, at, PutDaemons(ds))
    ensures GetDaemons(b, at, |ds|) == Parsed(ds, at + DaemonsSize(ds))
    decreases |ds|
  {
    hide PutDaemon, GetDaemon;
    if ds != [] {
      HasParts(b, at, PutDaemon(ds[0]), PutDaemons(ds[1..]));
      ReadDaemon(b, at, ds[0]);
      ReadDaemons(b, at + DaemonSize(ds[0]), ds[1..]);
      assert [ds[0]] + ds[1..] == ds;
    }
  }

  lemma ChunkFields(b: seq<byte>, at: nat, c: Chunk)
    requires Has(b, at, PutChunk(c))
    ensures Has(b, at, c.name) && Has(b, at + 32, PutGroupId(c.id))
    ensures Has(b, at + 44, Put16(if c.changed then 1 else 0)) && Has(b, at + 46, Put16(|c.daemons|))
    ensures Has(b, at + 48, PutDaemons(c.daemons))
  {
    var e1 := c.name + PutGroupId(c.id);
    var e2 := e1 + Put16(if c.changed then 1 else 0);
    HasParts(b, at, e2 + Put16(|c.daemons|), PutDaemons(c.daemons));
    HasParts(b, at, e2, Put16(|c.daemons|));
    HasParts(b, at, e1, Put16(if c.changed then 1 else 0));
    HasParts(b, at, c.name, PutGroupId(c.id));
  }

  lemma ReadChunk(b: seq<byte>, at: nat, c: Chunk)
    requires ChunkFits(c) && Has(b, at, PutChunk(c))
    ensures GetChunk(b, at) == Parsed(c, at + ChunkSize(c))
  {
    hide Put16, Get16, PutGroupId, GetGroupId, PutDaemons, PutChunk;
    ChunkFields(b, at, c);
    ReadGroupId(c.id);
    RoundTrip16(if c.changed then 1 else 0);
    RoundTrip16(|c.daemons|);
    ReadDaemons(b, at + GROUP_INFO_SIZE, c.daemons);
  }

  lemma {:induction false} ReadChunks(b: seq<byte>, at: nat, cs: seq<Chunk>)
    requires (forall c | c in cs :: ChunkFits(c)) && Has(b, at, PutChunks(cs)) && at + ChunksSize(cs) == |b|
    ensures GetChunks(b, at) == Some(cs)
    decreases |cs|
  {
    hide PutChunk, GetChunk;
    if cs != [] {
      HasParts(b, at, PutChunk(cs[0]), PutChunks(cs[1..]));
      ReadChunk(b, at, cs[0]);
      ReadChunks(b, at + ChunkSize(cs[0]), cs[1..]);
      assert cs == [cs[0]] + cs[1..];
    }
  }

  lemma ReadSynced(b: seq<byte>, at: nat, s: Option<seq<ProcId>>)
    requires Has(b, at, PutSynced(s)) && (s.Some? ==> |s.value| < 0x1_0000_0000)
    ensures GetSynced(b, at) == Parsed(s, at + |PutSynced(s)|)
  {
    match s
    case None =>
    case Some(ps) =>
      HasParts(b, at, [FIRST_MESSAGE] + Put32(|ps|), PutProcs(ps));
      HasParts(b, at, [FIRST_MESSAGE], Put32(|ps|));
      RoundTrip32u(|ps|);
      ReadProcs(b, at + 5, ps);
  }

  /** The parser undoes the writer. */
  lemma MessageRoundTrip(m: Msg)
    requires MsgFits(m)
    ensures GetMsg(PutMsg(m)) == Some(m)
  {
    hide PutMembId, GetMembId, PutSynced, PutChunks, GetSynced, GetChunks;
    var b := PutMsg(m);
    assert Has(b, 0, b);
    HasParts(b, 0, PutMembId(m.memb) + PutSynced(m.synced), PutChunks(m.chunks));
    HasParts(b, 0, PutMembId(m.memb), PutSynced(m.synced));
    ReadMembId(m.memb);
    ReadSynced(b, 8, m.synced);
    ReadChunks(b, 8 + |PutSynced(m.synced)|, m.chunks);
  }

  /** G_stamp_groups_bufs on one buffer: the first eight bytes are overwritten. */
  function Stamp(b: seq<byte>, memb: MembId): (r: seq<byte>)
    requires |b| >= 8
  {
    PutMembId(memb) + b[8..]
  }

  lemma StampReplacesId(m: Msg, memb: MembId)
    ensures Stamp(PutMsg(m), memb) == PutMsg(m.(memb := memb))
  {
    assert PutMsg(m)[8..] == PutSynced(m.synced) + PutChunks(m.chunks);
  }
}
