/** A membership message built from a group: its daemons are walked in configuration order for the names, sorted by
    membership id for the sets, and written into the buffer. */
module VsTell {
  import opened Wire
  import opened Wrappers
  import opened Ordering
  import opened GroupTable
  import opened GroupsCodec
  import opened GroupsTransfer
  import opened VsSets
  import opened VsMessage
  import opened MembInfo
  import opened VsTold

  /** The members in the order of G_build_memb_buf: daemons by place in the configuration, names within each. */
  ghost function NamesInOrder(g: Group, conf: seq<ProcId>): seq<Name> {
    AllNames(VsRecs(g, Select(conf, g.daemons.Keys)))
  }

  /** The whole message to the local members of a group. */
  ghost function Message(g: Group, conf: seq<ProcId>, joiner: Option<Name>, mine: nat): seq<byte>
    requires mine < |VsWalk(g, conf)|
  {
    var walk := VsWalk(g, conf);
    PutNames(NamesInOrder(g, conf)) + PutData(g.id, AllSets(walk, joiner), LocalOffset(walk, joiner, mine))
  }

  // ---------------------------------------------------------------- the walks

  /** The group's daemons by the skip list's iterators. */
  method Daemons(g: Group, conf: seq<ProcId>) returns (recs: seq<DaemonRec>)
    ensures recs == VsRecs(g, Select(conf, g.daemons.Keys))
  {
    recs := [];
    var ps := Select(conf, g.daemons.Keys);
    for i := 0 to |ps|
      invariant recs == VsRecs(g, ps[..i])
    {
      var members := Sorted(g.daemons[ps[i]].members);
      recs := recs + [DaemonRec(ps[i], g.daemons[ps[i]].memb, members)];
      assert ps[..i + 1] == ps[..i] + [ps[i]];
    }
    assert ps[..|ps|] == ps;
  }

  method Names(recs: seq<DaemonRec>) returns (names: seq<Name>)
    ensures names == AllNames(recs)
  {
    names := [];
    for i := 0 to |recs|
      invariant names == AllNames(recs[..i])
    {
      AllNamesConcat(recs[..i], [recs[i]]);
      assert recs[..i + 1] == recs[..i] + [recs[i]];
      names := names + recs[i].members;
      assert AllNames([recs[i]]) == recs[i].members;
    }
    assert recs[..|recs|] == recs;
  }

  /** The second skip list, filled in the order of the first. */
  method SortByMemb(recs: seq<DaemonRec>) returns (ds: seq<DaemonRec>)
    ensures ds == ByMemb(recs)
  {
    ds := [];
    for i := 0 to |recs|
      invariant ds == ByMemb(recs[..i])
    {
      assert recs[..i + 1][..i] == recs[..i];
      ds := Insert(recs[i], ds);
    }
    assert recs[..|recs|] == recs;
  }

  // ---------------------------------------------------------------- room

  lemma {:induction false} RoomIs(ds: seq<DaemonRec>, i: nat)
    requires i <= |ds|
    ensures Room(ds, i) == 4 * (|ds| - i) + 32 * |AllNames(ds[i..])|
    decreases |ds| - i
  {
    if i < |ds| {
      assert ds[i..][1..] == ds[i + 1..];
      RoomIs(ds, i + 1);
    }
  }

  /** What the message of a group needs at most: every name twice, a size for every daemon and the fixed fields. */
  lemma RoomOfGroup(g: Group, conf: seq<ProcId>)
    requires Configured(g, conf)
    ensures Room(VsWalk(g, conf), 0) == 4 * |g.daemons| + 32 * HeadCount(g.daemons)
    ensures |NamesInOrder(g, conf)| == HeadCount(g.daemons)
  {
    hide Select, VsRecs, HeadCount, OwnedOnce, ByMemb, AllNames;
    var ps, walk := Select(conf, g.daemons.Keys), VsWalk(g, conf);
    SelectDistinct(conf, g.daemons.Keys);
    assert forall p :: p in ps <==> p in g.daemons;
    RecNames(g, ps);
    OnlyAll(g, ps);
    NamesOfGroup(g, conf);
    assert walk[0..] == walk;
    RoomIs(walk, 0);
    DistinctSize(ps);
    assert Among(ps) == g.daemons.Keys;
  }

  // ---------------------------------------------------------------- the message

  /** G_build_memb_buf and G_build_memb_vs_buf. This daemon has members in the group; the message is that of the
      group, with the offset of this daemon's set. */
  method BuildFor(buf: array<byte>, g: Group, conf: seq<ProcId>, my: ProcId, joiner: Option<Name>)
      returns (n: nat, dataLen: nat, ghost mine: nat)
    requires Configured(g, conf) && my in g.daemons
    requires 64 * HeadCount(g.daemons) + 4 * |g.daemons| + 56 <= buf.Length
    modifies buf
    ensures mine < |VsWalk(g, conf)| && VsWalk(g, conf)[mine].proc == my
    ensures n <= buf.Length && dataLen == n - 32 * HeadCount(g.daemons)
    ensures buf[..n] == Message(g, conf, joiner, mine)
    ensures buf.Length < 0x1_0000_0000 ==> TellsDaemon(buf[..n], g, conf, joiner, my)
  {
    hide Configured, VsRecs, ByMemb, HeadCount, AllSets, LocalOffset, PutNames, PutData, AllNames, Room, Select;
    RoomOfGroup(g, conf);
    mine := PlaceInWalk(g, conf, my);
    var recs := Daemons(g, conf);
    var names := Names(recs);
    var ds := SortByMemb(recs);
    MineOnce(g, conf, mine);
    n, dataLen := BuildMembVsBuf(buf, names, g.id, ds, my, joiner, mine);
    if buf.Length < 0x1_0000_0000 {
      BuiltIsRead(buf[..n], g, conf, joiner, my, mine);
    }
  }

  /** The message tells of the group, and the set it points the receivers to is that of their daemon. */
  ghost predicate TellsDaemon(b: seq<byte>, g: Group, conf: seq<ProcId>, joiner: Option<Name>, my: ProcId)
    requires my in g.daemons
  {
    var count := HeadCount(g.daemons);
    && Tells(b, count, g, conf, joiner)
    && OwnSet(b, count).Some? && SetOfDaemonIs(OwnSet(b, count).value, g, joiner, my)
  }

  lemma BuiltIsRead(b: seq<byte>, g: Group, conf: seq<ProcId>, joiner: Option<Name>, my: ProcId, mine: nat)
    requires Configured(g, conf) && my in g.daemons && |b| < 0x1_0000_0000
    requires mine < |VsWalk(g, conf)| && VsWalk(g, conf)[mine].proc == my && b == Message(g, conf, joiner, mine)
    ensures TellsDaemon(b, g, conf, joiner, my)
  {
    hide Configured, VsWalk, AllSets, Offset, LocalOffset, PutNames, NamesInOrder, SetOf, PutSets, Tells, OwnSet,
      SetOfDaemonIs, HeadCount;
    var sets := AllSets(VsWalk(g, conf), joiner);
    RoomOfGroup(g, conf);
    OwnSetIs(g, conf, joiner, my, mine);
    DataSize(g.id, sets, LocalOffset(VsWalk(g, conf), joiner, mine));
    NamesAre(g, conf);
    MessageRead(g, conf, joiner, SetOf(VsWalk(g, conf), mine));
  }

  lemma NamesAre(g: Group, conf: seq<ProcId>)
    ensures NamesInOrder(g, conf) == AllNames(VsRecs(g, Select(conf, g.daemons.Keys)))
  {
  }

  lemma DataSize(id: GroupId, sets: seq<VsSet>, offset: nat)
    ensures |PutData(id, sets, offset)| == FIRST_SET_OFFSET + |PutSets(sets)|
  {
    hide PutSets, Put32, PutGroupId;
  }

  /** G_send_heavyweight_join for a new local member: the copy of the message that it gets points to its own set. */
  method PointToJoiner(buf: array<byte>, n: nat, numGroups: nat, dataLen: nat,
                       ghost g: Group, ghost conf: seq<ProcId>, ghost j: Name, ghost mine: nat)
    requires Configured(g, conf) && mine < |VsWalk(g, conf)| && n <= buf.Length
    requires numGroups == HeadCount(g.daemons) && dataLen == n - 32 * numGroups
    requires buf[..n] == Message(g, conf, Some(j), mine)
    modifies buf
    ensures buf.Length < 0x1_0000_0000 ==>
      Tells(buf[..n], numGroups, g, conf, Some(j)) && OwnSet(buf[..n], numGroups) == Some(VsSet([j]))
  {
    hide Configured, VsWalk, AllSets, Offset, LocalOffset, PutNames, NamesInOrder, PutSets, Tells, OwnSet, HeadCount,
      PutGroupId, Put32, PutData;
    ghost var sets, names := AllSets(VsWalk(g, conf), Some(j)), PutNames(NamesInOrder(g, conf));
    ghost var was := LocalOffset(VsWalk(g, conf), Some(j), mine);
    RoomOfGroup(g, conf);
    DataSize(g.id, sets, was);
    JoinerIsLast(VsWalk(g, conf), j);
    JoinerOffset(g.id, sets, was, j);
    DataParts(names, g.id, sets, was);
    ghost var pre := names + PutGroupId(g.id) + Put32(|sets|);
    Behind(buf, n, pre + Put32(was), PutSets(sets));
    Behind(buf, |pre| + 4, pre, Put32(was));
    Patch(buf, 32 * numGroups + 12 + 4, Put32(dataLen - (4 + MAX_GROUP_NAME) - (12 + 2 * 4)), PutSets(sets));
    if buf.Length < 0x1_0000_0000 {
      JoinerIsRead(buf[..n], g, conf, j);
    }
  }

  lemma JoinerIsRead(b: seq<byte>, g: Group, conf: seq<ProcId>, j: Name)
    requires Configured(g, conf) && |b| < 0x1_0000_0000
    requires var sets := AllSets(VsWalk(g, conf), Some(j));
      && sets != [] && sets[|sets| - 1] == VsSet([j])
      && b == PutNames(NamesInOrder(g, conf)) + PutGroupId(g.id) + Put32(|sets|) + Put32(Offset(sets, |sets| - 1))
              + PutSets(sets)
    ensures var count := HeadCount(g.daemons);
      Tells(b, count, g, conf, Some(j)) && OwnSet(b, count) == Some(VsSet([j]))
  {
    hide Configured, VsWalk, AllSets, Offset, PutNames, NamesInOrder, PutSets, Tells, OwnSet, HeadCount, PutGroupId,
      Put32, PutData;
    var sets := AllSets(VsWalk(g, conf), Some(j));
    RoomOfGroup(g, conf);
    NamesAre(g, conf);
    DataParts(PutNames(NamesInOrder(g, conf)), g.id, sets, Offset(sets, |sets| - 1));
    MessageRead(g, conf, Some(j), |sets| - 1);
  }

  lemma JoinerIsLast(ds: seq<DaemonRec>, j: Name)
    ensures AllSets(ds, Some(j)) != [] && AllSets(ds, Some(j))[|AllSets(ds, Some(j))| - 1] == VsSet([j])
  {
    hide WalkSets;
  }

  lemma DataParts(b: seq<byte>, id: GroupId, sets: seq<VsSet>, offset: nat)
    ensures b + PutData(id, sets, offset) == b + PutGroupId(id) + Put32(|sets|) + Put32(offset) + PutSets(sets)
  {
    hide PutSets, Put32, PutGroupId;
  }

  lemma MineOnce(g: Group, conf: seq<ProcId>, mine: nat)
    requires Configured(g, conf) && mine < |VsWalk(g, conf)|
    ensures forall i | 0 <= i < |VsWalk(g, conf)| && i != mine :: VsWalk(g, conf)[i].proc != VsWalk(g, conf)[mine].proc
  {
    hide Configured, VsWalk;
    forall i | 0 <= i < |VsWalk(g, conf)| && i != mine
      ensures VsWalk(g, conf)[i].proc != VsWalk(g, conf)[mine].proc
    {
      WalkVisitsOnce(g, conf, i, mine);
    }
  }
}
