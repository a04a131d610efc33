/** Daemons that stay together handle the same events: what keeps their tables the same between one state
    exchange and the next, and what a cascading membership leaves them with. */
module GroupsTwins {
  import opened Wire
  import opened Ordering
  import opened GroupTable
  import opened GroupsCodec
  import opened GroupsMerge
  import opened GroupsRoundTrip
  import opened GroupsAgreement
  import opened SyncedSets
  import opened GroupsState
  import opened GroupsInvariant
  import opened GroupsExchange
  import opened GroupsRun
  import opened GroupsCompletion
  import opened GroupsGather
  import opened GroupsCascade
  import opened GroupsReachable
  import opened GroupsReplicas

  // ---------------------------------------------------------------- between exchanges

  ghost predicate SameGroup(g: Group, h: Group) {
    g.(mboxes := []) == h.(mboxes := [])
  }

  ghost predicate Neighbours(e1: Site, e2: Site) {
    e1.conf == e2.conf && e1.owner == e2.owner
  }

  /** Two daemons' states that clients cannot tell apart: only mailboxes, sessions and the buffers that a
      leader keeps may differ, and in GOP and GGATHER the last transitional membership, which no longer
      counts. */
  ghost predicate Twins(s1: State, s2: State) {
    && s1.gstate == s2.gstate && s1.reg == s2.reg && s1.regId == s2.regId && s1.synced == s2.synced
    && (s1.gstate == GTRANS || s1.gstate == GGT ==> s1.trans == s2.trans && s1.transId == s2.transId)
    && s1.ownComplete == s2.ownComplete && s1.links == s2.links
    && s1.numMess == s2.numMess && s1.numDaemons == s2.numDaemons
    && SameView(s1.groups, s2.groups)
  }

  lemma SplitSame(g: Group, h: Group, trans: set<ProcId>, transId: MembId)
    requires SameGroup(g, h)
    ensures SameGroup(Split(g, trans, transId).g, Split(h, trans, transId).g)
  {
    assert g.daemons == h.(mboxes := []).daemons;
    assert Outside(g, trans) == Outside(h, trans);
  }

  lemma SweepSame(g: Group, h: Group)
    requires SameGroup(g, h)
    ensures SameGroup(Sweep(g), Sweep(h)) && Sweep(g).num == Sweep(h).num
  {
    assert g.daemons == h.(mboxes := []).daemons && g.num == h.(mboxes := []).num;
    assert Partitioned(g) == Partitioned(h);
  }

  lemma SettleSame(g: Group, h: Group, id: MembId)
    requires SameGroup(g, h)
    ensures SameGroup(Settle(g, id).g, Settle(h, id).g)
  {
    assert g.daemons == h.(mboxes := []).daemons;
  }

  lemma AdmitSame(g: Group, h: Group, memb: MembId, p: ProcId, m: Name, b: seq<Mailbox>, c: seq<Mailbox>)
    requires SameGroup(g, h)
    ensures SameGroup(Admit(g, memb, p, m, b).g, Admit(h, memb, p, m, c).g)
  {
    hide Increment;
    assert g.daemons == h.(mboxes := []).daemons && g.id == h.(mboxes := []).id;
  }

  lemma DismissSame(g: Group, h: Group, p: ProcId, m: Name, b: seq<Mailbox>, c: seq<Mailbox>, cause: Cause)
    requires SameGroup(g, h) && p in g.daemons && p in h.daemons
    ensures SameGroup(Dismiss(g, p, m, b, cause).g, Dismiss(h, p, m, c, cause).g)
  {
    hide Increment;
    assert g.daemons == h.(mboxes := []).daemons && g.id == h.(mboxes := []).id;
  }

  lemma SplitAllSame(t: Table, u: Table, trans: set<ProcId>, transId: MembId)
    requires SameView(t, u)
    ensures SameView(SplitAll(t, trans, transId), SplitAll(u, trans, transId))
  {
    hide Split;
    forall n | n in t ensures SameGroup(SplitAll(t, trans, transId)[n], SplitAll(u, trans, transId)[n]) {
      SplitSame(t[n], u[n], trans, transId);
    }
  }

  lemma SweptSame(t: Table, u: Table)
    requires SameView(t, u)
    ensures SameView(Swept(t), Swept(u))
  {
    hide Sweep;
    forall n | n in t ensures n in Swept(t) <==> n in Swept(u) {
      assert SameGroup(t[n], u[n]);
      SweepSame(t[n], u[n]);
    }
    forall n | n in Swept(t) ensures SameGroup(Swept(t)[n], Swept(u)[n]) {
      assert SameGroup(t[n], u[n]);
      SweepSame(t[n], u[n]);
    }
  }

  lemma SettleAllSame(t: Table, u: Table, id: MembId)
    requires SameView(t, u)
    ensures SameView(SettleAll(t, id), SettleAll(u, id))
  {
    hide Settle;
    forall n | n in t ensures SameGroup(SettleAll(t, id)[n], SettleAll(u, id)[n]) {
      assert SameGroup(t[n], u[n]);
      SettleSame(t[n], u[n], id);
    }
  }

  lemma PutSame(t: Table, u: Table, n: Name, g: Group, h: Group)
    requires SameView(t, u) && SameGroup(g, h)
    ensures SameView(t[n := g], u[n := h]) && SameView(t - {n}, u - {n})
  {
  }

  lemma TwinTables(s1: State, s2: State, t: Table, u: Table)
    requires Twins(s1, s2) && SameView(t, u)
    ensures Twins(s1.(groups := t), s2.(groups := u))
  {
    hide SameView;
  }

  lemma TwinGroups(s1: State, s2: State, n: Name)
    requires Twins(s1, s2)
    ensures s1.gstate == s2.gstate && s1.regId == s2.regId && SameView(s1.groups, s2.groups)
    ensures s1.gstate == GTRANS ==> s1.trans == s2.trans && s1.transId == s2.transId
    ensures n in s1.groups <==> n in s2.groups
    ensures n in s1.groups ==> SameGroup(s1.groups[n], s2.groups[n]) && s1.groups[n].daemons == s2.groups[n].daemons
                               && s1.groups[n].id == s2.groups[n].id
  {
    if n in s1.groups {
      var g, h := s1.groups[n], s2.groups[n];
      assert SameGroup(g, h);
      assert g.daemons == h.(mboxes := []).daemons && g.id == h.(mboxes := []).id;
    }
  }

  lemma JoinSame(e1: Site, s1: State, e2: Site, s2: State, m: Name, group: Name)
    requires Neighbours(e1, e2) && Twins(s1, s2) && (s1.gstate == GOP || s1.gstate == GTRANS)
    requires m in e1.owner && e1.owner[m] == e1.my ==> m in s1.sessions
    requires m in e2.owner && e2.owner[m] == e2.my ==> m in s2.sessions
    ensures Twins(HandleJoin(e1, s1, m, group).s, HandleJoin(e2, s2, m, group).s)
  {
    hide Admit, SameView, SameGroup, Twins;
    TwinGroups(s1, s2, group);
    if m in e1.owner {
      var p := e1.owner[m];
      var blank := Blank(GroupId(if s1.gstate == GOP then s1.regId else s1.transId, 0));
      BlankSame(blank);
      var g := if group in s1.groups then s1.groups[group] else blank;
      var h := if group in s2.groups then s2.groups[group] else blank;
      var mark := if Here(s1, p) then g.id.memb else UNKNOWN;
      var b := if p == e1.my && m in s1.sessions then [s1.sessions[m]] else [];
      var c := if p == e2.my && m in s2.sessions then [s2.sessions[m]] else [];
      AdmitSame(g, h, mark, p, m, b, c);
      PutSame(s1.groups, s2.groups, group, Admit(g, mark, p, m, b).g, Admit(h, mark, p, m, c).g);
      TwinTables(s1, s2, s1.groups[group := Admit(g, mark, p, m, b).g], s2.groups[group := Admit(h, mark, p, m, c).g]);
    }
  }

  lemma BlankSame(g: Group)
    ensures SameGroup(g, g)
  {
  }

  lemma DismissedSame(e1: Site, s1: State, e2: Site, s2: State, m: Name, n: Name, cause: Cause)
    requires Neighbours(e1, e2) && Twins(s1, s2)
    ensures IsMember(e1, s1.groups, m, n) <==> IsMember(e2, s2.groups, m, n)
    ensures IsMember(e1, s1.groups, m, n) ==>
      SameGroup(Dismissed(e1, s1, m, n, cause).g, Dismissed(e2, s2, m, n, cause).g)
  {
    hide Dismiss, Unpost;
    if n in s1.groups {
      var g, h := s1.groups[n], s2.groups[n];
      assert SameGroup(g, h);
      assert g.daemons == h.(mboxes := []).daemons;
      if IsMember(e1, s1.groups, m, n) {
        DismissSame(g, h, e1.owner[m], m, Mboxes(e1, s1, m, g), Mboxes(e2, s2, m, h), cause);
      }
    }
  }

  lemma LeaveSame(e1: Site, s1: State, e2: Site, s2: State, m: Name, group: Name)
    requires Neighbours(e1, e2) && Twins(s1, s2) && (s1.gstate == GOP || s1.gstate == GTRANS)
    ensures Twins(HandleLeave(e1, s1, m, group).s, HandleLeave(e2, s2, m, group).s)
  {
    hide Dismissed, IsMember, Twins, SameView, SameGroup;
    DismissedSame(e1, s1, e2, s2, m, group, ByLeave);
    SameNum(e1, s1, e2, s2, m, group, ByLeave);
    TwinGroups(s1, s2, group);
    if IsMember(e1, s1.groups, m, group) {
      var g, h := Dismissed(e1, s1, m, group, ByLeave).g, Dismissed(e2, s2, m, group, ByLeave).g;
      PutSame(s1.groups, s2.groups, group, g, h);
      TwinTables(s1, s2, s1.groups[group := g], s2.groups[group := h]);
      TwinTables(s1, s2, s1.groups - {group}, s2.groups - {group});
    }
  }

  lemma SameNum(e1: Site, s1: State, e2: Site, s2: State, m: Name, n: Name, cause: Cause)
    requires IsMember(e1, s1.groups, m, n) && IsMember(e2, s2.groups, m, n) ==>
      SameGroup(Dismissed(e1, s1, m, n, cause).g, Dismissed(e2, s2, m, n, cause).g)
    ensures IsMember(e1, s1.groups, m, n) && IsMember(e2, s2.groups, m, n) ==>
      Dismissed(e1, s1, m, n, cause).g.num == Dismissed(e2, s2, m, n, cause).g.num
  {
    hide Dismissed, IsMember;
    if IsMember(e1, s1.groups, m, n) && IsMember(e2, s2.groups, m, n) {
      var g, h := Dismissed(e1, s1, m, n, cause).g, Dismissed(e2, s2, m, n, cause).g;
      assert g.(mboxes := []).num == h.(mboxes := []).num;
    }
  }

  lemma KillSame(e1: Site, s1: State, e2: Site, s2: State, m: Name)
    requires Neighbours(e1, e2) && Twins(s1, s2) && (s1.gstate == GOP || s1.gstate == GTRANS)
    ensures Twins(HandleKill(e1, s1, m).s, HandleKill(e2, s2, m).s)
  {
    hide Dismissed, IsMember;
    var t, u := KilledTable(e1, s1, m), KilledTable(e2, s2, m);
    forall n
      ensures n in t <==> n in u
      ensures n in t ==> SameGroup(t[n], u[n])
    {
      DismissedSame(e1, s1, e2, s2, m, n, ByDisconnect);
      SameNum(e1, s1, e2, s2, m, n, ByDisconnect);
      assert n in s1.groups ==> SameGroup(s1.groups[n], s2.groups[n]);
    }
  }

  lemma RegSame(e1: Site, s1: State, e2: Site, s2: State, memb: set<ProcId>, id: MembId)
    requires Twins(s1, s2) && s1.gstate == GTRANS
    ensures Twins(RegInTrans(e1, s1, memb, id).s, RegInTrans(e2, s2, memb, id).s)
  {
    hide RegInTrans, Swept, SettleAll, SameView, Twins;
    RegView(s1, s2);
    RegParts(s1, s2);
    SweptSame(s1.groups, s2.groups);
    SettleAllSame(Swept(s1.groups), Swept(s2.groups), id);
    RegLeaves(e1, s1, memb, id);
    RegLeaves(e2, s2, memb, id);
    FromParts(RegInTrans(e1, s1, memb, id).s, RegInTrans(e2, s2, memb, id).s);
  }

  lemma RegLeaves(e: Site, s: State, memb: set<ProcId>, id: MembId)
    ensures var r := RegInTrans(e, s, memb, id).s;
      && r.gstate == (if |s.trans| == |memb| then GOP else GGATHER) && r.reg == memb && r.regId == id
      && r.synced == s.synced && r.trans == s.trans && r.transId == s.transId
      && r.ownComplete == s.ownComplete && r.links == s.links && r.numMess == s.numMess && r.numDaemons == s.numDaemons
      && r.groups == if |s.trans| == |memb| then SettleAll(Swept(s.groups), id) else Swept(s.groups)
  {
    hide Swept, SettleAll, Built, Frames;
  }

  lemma RegView(s1: State, s2: State)
    requires Twins(s1, s2)
    ensures SameView(s1.groups, s2.groups) && s1.gstate == s2.gstate
  {
  }

  lemma RegParts(s1: State, s2: State)
    requires Twins(s1, s2)
    ensures s1.synced == s2.synced && SameBook(s1, s2)
    ensures s1.gstate == GTRANS || s1.gstate == GGT ==> s1.trans == s2.trans && s1.transId == s2.transId
  {
  }

  predicate SameBook(s1: State, s2: State) {
    && s1.ownComplete == s2.ownComplete && s1.links == s2.links
    && s1.numMess == s2.numMess && s1.numDaemons == s2.numDaemons
  }

  lemma FromParts(s1: State, s2: State)
    requires s1.gstate == s2.gstate && s1.reg == s2.reg && s1.regId == s2.regId && s1.synced == s2.synced
    requires s1.gstate == GTRANS || s1.gstate == GGT ==> s1.trans == s2.trans && s1.transId == s2.transId
    requires SameBook(s1, s2) && SameView(s1.groups, s2.groups)
    ensures Twins(s1, s2)
  {
    hide SameView;
  }

  // ---------------------------------------------------------------- during an exchange

  lemma FlagAllSame(t: Table, u: Table, trans: set<ProcId>)
    requires SameView(t, u)
    ensures SameView(FlagAll(t, trans), FlagAll(u, trans))
  {
    forall n | n in t ensures SameGroup(FlagLosing(t[n], trans), FlagLosing(u[n], trans)) {
      assert SameGroup(t[n], u[n]);
      assert t[n].daemons == u[n].(mboxes := []).daemons;
      assert Outside(t[n], trans) == Outside(u[n], trans);
    }
  }

  lemma ShedSame(g: Group, h: Group, trans: set<ProcId>)
    requires SameGroup(g, h)
    ensures Outside(g, trans) == Outside(h, trans)
    ensures SameGroup(Shed(g, trans), Shed(h, trans)) && Shed(g, trans).num == Shed(h, trans).num
  {
    hide HeadCount;
    assert g.daemons == h.(mboxes := []).daemons && g.num == h.(mboxes := []).num;
    assert Outside(g, trans) == Outside(h, trans);
  }

  lemma ShedAllSame(t: Table, u: Table, trans: set<ProcId>)
    requires SameView(t, u)
    ensures SameView(ShedAll(t, trans), ShedAll(u, trans))
  {
    hide Shed, Outside;
    forall n | n in t
      ensures n in ShedAll(t, trans) <==> n in ShedAll(u, trans)
      ensures SameGroup(Shed(t[n], trans), Shed(u[n], trans))
    {
      assert SameGroup(t[n], u[n]);
      ShedSame(t[n], u[n], trans);
    }
  }

  lemma SettledSame(g: Group, h: Group, id: MembId)
    requires SameGroup(g, h)
    ensures SameGroup(Settled(g, id), Settled(h, id))
  {
    assert g.daemons == h.(mboxes := []).daemons && g.changed == h.(mboxes := []).changed;
  }

  lemma FinishSame(t: Table, u: Table, id: MembId)
    requires SameView(t, u)
    ensures SameView(Finish(t, id), Finish(u, id))
  {
    hide Settled;
    forall n | n in t ensures SameGroup(Finish(t, id)[n], Finish(u, id)[n]) {
      assert SameGroup(t[n], u[n]);
      SettledSame(t[n], u[n], id);
    }
  }

  lemma MergeDaemonSame(g: Group, h: Group, d: DaemonRec)
    requires SameGroup(g, h)
    ensures SameGroup(MergeDaemon(g, d), MergeDaemon(h, d))
  {
    var k := h.(mboxes := []);
    assert g.daemons == k.daemons && g.num == k.num && g.changed == k.changed && g.id == k.id;
  }

  lemma {:induction false} MergeDaemonsSame(g: Group, h: Group, ds: seq<DaemonRec>)
    requires SameGroup(g, h)
    ensures SameGroup(MergeDaemons(g, ds), MergeDaemons(h, ds))
    decreases |ds|
  {
    hide MergeDaemon, SameGroup;
    if ds != [] {
      MergeDaemonSame(g, h, ds[0]);
      MergeDaemonsSame(MergeDaemon(g, ds[0]), MergeDaemon(h, ds[0]), ds[1..]);
    }
  }

  lemma TargetSame(t: Table, u: Table, c: Chunk)
    requires SameView(t, u)
    ensures SameGroup(Target(t, c), Target(u, c))
  {
    if c.name in t {
      assert SameGroup(t[c.name], u[c.name]);
      assert t[c.name].changed == u[c.name].(mboxes := []).changed;
    }
  }

  lemma {:induction false} MergeChunksSame(t: Table, u: Table, cs: seq<Chunk>)
    requires SameView(t, u)
    ensures SameView(MergeChunks(t, cs), MergeChunks(u, cs))
    decreases |cs|
  {
    hide MergeDaemons, SameView, SameGroup, Target;
    if cs != [] {
      var c := cs[0];
      TargetSame(t, u, c);
      MergeDaemonsSame(Target(t, c), Target(u, c), c.daemons);
      PutSame(t, u, c.name, MergeDaemons(Target(t, c), c.daemons), MergeDaemons(Target(u, c), c.daemons));
      MergeChunksSame(MergeChunk(t, c), MergeChunk(u, c), cs[1..]);
    }
  }

  lemma {:induction false} MergeBodiesSame(t: Table, u: Table, bodies: seq<seq<byte>>)
    requires SameView(t, u)
    ensures SameView(MergeBodies(t, bodies), MergeBodies(u, bodies))
    decreases |bodies|
  {
    hide GetMsg, SameView, MergeChunks;
    if bodies != [] {
      MergeChunksSame(t, u, ChunksIn(bodies[0]));
      BodyIsChunks(t, bodies[0]);
      BodyIsChunks(u, bodies[0]);
      MergeBodiesSame(MergeBody(t, bodies[0]), MergeBody(u, bodies[0]), bodies[1..]);
    }
  }

  lemma BodyIsChunks(t: Table, body: seq<byte>)
    ensures MergeBody(t, body) == MergeChunks(t, ChunksIn(body))
  {
    hide GetMsg;
  }

  lemma {:induction false} TakeLinksSame(e1: Site, e2: Site, t: Taken, u: Taken, links: seq<Link>)
    requires e1.conf == e2.conf && SameView(t.groups, u.groups) && t.synced == u.synced && t.sset == u.sset
    ensures var a, b := TakeLinks(e1, t, links), TakeLinks(e2, u, links);
      SameView(a.groups, b.groups) && a.synced == b.synced
    decreases |links|
  {
    hide SameView, MergeBodies, LinkBodies, LinkSynced, Merge;
    if links != [] {
      MergeBodiesSame(t.groups, u.groups, LinkBodies(links[0].frames));
      TakeLinksSame(e1, e2, TakeLink(e1, t, links[0]), TakeLink(e2, u, links[0]), links[1..]);
    }
  }

  lemma CascadeSame(e1: Site, s1: State, e2: Site, s2: State, memb: set<ProcId>, id: MembId)
    requires Neighbours(e1, e2) && Twins(s1, s2) && s1.gstate == GGT
    ensures Twins(RegInGgt(e1, s1, memb, id).s, RegInGgt(e2, s2, memb, id).s)
  {
    hide RegInGgt, SameView, Twins, TakeLinks, Usable, ShedAll, Select;
    RegView(s1, s2);
    RegParts(s1, s2);
    SameUsable(s1, s2);
    var t1 := TakeLinks(e1, Taken(s1.groups, s1.synced, []), Usable(s1));
    var t2 := TakeLinks(e2, Taken(s2.groups, s2.synced, []), Usable(s2));
    TakeLinksSame(e1, e2, Taken(s1.groups, s1.synced, []), Taken(s2.groups, s2.synced, []), Usable(s1));
    ShedAllSame(t1.groups, t2.groups, s1.trans);
    CascadedFields(e1, s1, memb, id);
    CascadedFields(e2, s2, memb, id);
    FromParts(RegInGgt(e1, s1, memb, id).s, RegInGgt(e2, s2, memb, id).s);
  }

  lemma SameUsable(s1: State, s2: State)
    requires SameBook(s1, s2)
    ensures Usable(s1) == Usable(s2)
  {
    hide CompleteOnes;
  }

  lemma CascadedFields(e: Site, s: State, memb: set<ProcId>, id: MembId)
    ensures var t := TakeLinks(e, Taken(s.groups, s.synced, []), Usable(s)); var r := RegInGgt(e, s, memb, id).s;
      && r.gstate == GGATHER && r.reg == memb && r.regId == id && r.trans == s.trans && r.transId == s.transId
      && r.groups == ShedAll(t.groups, s.trans) && r.synced == Select(t.synced, s.trans)
      && !r.ownComplete && r.links == [] && r.numMess == 0 && r.numDaemons == 0
  {
    hide TakeLinks, Usable, ShedAll, Built, Stamped, StaysFresh, Frames, Select;
  }

  lemma MergedSame(e1: Site, s1: State, e2: Site, s2: State)
    requires Neighbours(e1, e2) && s1.reg == s2.reg && s1.regId == s2.regId && s1.synced == s2.synced
    requires SameBook(s1, s2) && SameView(s1.groups, s2.groups)
    ensures Twins(Merged(e1, s1), Merged(e2, s2))
  {
    hide SameView, Twins, TakeLinks, Finish, Merged;
    var t1 := TakeLinks(e1, Taken(s1.groups, s1.synced, []), s1.links);
    var t2 := TakeLinks(e2, Taken(s2.groups, s2.synced, []), s2.links);
    TakeLinksSame(e1, e2, Taken(s1.groups, s1.synced, []), Taken(s2.groups, s2.synced, []), s1.links);
    FinishSame(t1.groups, t2.groups, s1.regId);
    MergedIs(e1, s1);
    MergedIs(e2, s2);
    FromParts(Merged(e1, s1), Merged(e2, s2));
  }

  lemma SplitTwins(s1: State, s2: State, trans: set<ProcId>, transId: MembId)
    requires Twins(s1, s2)
    ensures Twins(TransInGop(s1, trans, transId).s, TransInGop(s2, trans, transId).s)
  {
    hide SameView, Twins, SplitAll, Select;
    RegView(s1, s2);
    RegParts(s1, s2);
    TwinMembs(s1, s2);
    SplitAllSame(s1.groups, s2.groups, trans, transId);
    FromParts(TransInGop(s1, trans, transId).s, TransInGop(s2, trans, transId).s);
  }

  lemma TwinMembs(s1: State, s2: State)
    requires Twins(s1, s2)
    ensures s1.reg == s2.reg && s1.regId == s2.regId
  {
  }

  lemma FlagTwins(s1: State, s2: State, trans: set<ProcId>, transId: MembId)
    requires Twins(s1, s2)
    ensures Twins(TransInGather(s1, trans, transId).s, TransInGather(s2, trans, transId).s)
  {
    hide SameView, Twins, FlagAll;
    RegView(s1, s2);
    RegParts(s1, s2);
    TwinMembs(s1, s2);
    FlagAllSame(s1.groups, s2.groups, trans);
    FromParts(TransInGather(s1, trans, transId).s, TransInGather(s2, trans, transId).s);
  }

  lemma RecordedTwins(s1: State, s2: State, f: Frame)
    requires Twins(s1, s2)
    ensures Twins(Recorded(s1, f), Recorded(s2, f))
  {
    hide SameView, Filed;
  }

  lemma GroupsSame(e1: Site, s1: State, e2: Site, s2: State, f: Frame)
    requires Neighbours(e1, e2) && Twins(s1, s2) && (s1.gstate == GGATHER || s1.gstate == GGT)
    requires s2.gstate == s1.gstate
    ensures Twins(HandleGroups(e1, s1, f).s, HandleGroups(e2, s2, f).s)
  {
    hide SameView, Twins, HandleGroups, Recorded, Merged, TransInGop, StampedWith;
    HandleGroupsIs(e1, s1, f);
    HandleGroupsIs(e2, s2, f);
    TwinMembs(s1, s2);
    RegParts(s1, s2);
    RecordedTwins(s1, s2, f);
    var r1, r2 := Recorded(s1, f), Recorded(s2, f);
    RegView(r1, r2);
    RegParts(r1, r2);
    TwinMembs(r1, r2);
    MergedSame(e1, r1, e2, r2);
    SplitTwins(Merged(e1, r1), Merged(e2, r2), s1.trans, s1.transId);
  }

  // ---------------------------------------------------------------- going together

  /** A step of two daemons that stay together: an event delivered to both, or one of a local session. */
  datatype Step = Both(ev: Event) | First(ev: Event) | Second(ev: Event)

  predicate Local(ev: Event) {
    ev.OpenSession? || ev.CloseSession?
  }

  ghost predicate MayStep(e1: Site, w1: World, e2: Site, w2: World, step: Step) {
    match step
    case Both(ev) => !Local(ev) && Enabled(e1, w1, ev) && Enabled(e2, w2, ev)
    case First(ev) => Local(ev) && Enabled(e1, w1, ev)
    case Second(ev) => Local(ev) && Enabled(e2, w2, ev)
  }

  ghost function FirstNext(e: Site, w: World, step: Step): World
    requires !step.Second? ==> Enabled(e, w, step.ev)
  {
    if step.Second? then w else Next(e, w, step.ev)
  }

  ghost function SecondNext(e: Site, w: World, step: Step): World
    requires !step.First? ==> Enabled(e, w, step.ev)
  {
    if step.First? then w else Next(e, w, step.ev)
  }

  lemma StepKeepsTwins(e1: Site, w1: World, e2: Site, w2: World, step: Step)
    requires Neighbours(e1, e2) && Twins(w1.s, w2.s) && MayStep(e1, w1, e2, w2, step)
    ensures Twins(FirstNext(e1, w1, step).s, SecondNext(e2, w2, step).s)
  {
    hide HandleTrans, HandleJoin, HandleLeave, HandleKill, HandleReg, HandleGroups, SameView, MemberSomewhere, Joins,
      Base, Twins, MayArrive;
    RegView(w1.s, w2.s);
    match step.ev
    case Trans(memb, id) => TransSame(w1.s, w2.s, memb, id);
    case Reg(memb, id, x) => RegEitherSame(e1, w1.s, e2, w2.s, memb, id);
    case Groups(f) => GroupsSame(e1, w1.s, e2, w2.s, f);
    case Join(m, group) => JoinSame(e1, w1.s, e2, w2.s, m, group);
    case Leave(m, group) => LeaveSame(e1, w1.s, e2, w2.s, m, group);
    case Kill(m) => KillSame(e1, w1.s, e2, w2.s, m);
    case OpenSession(m, mbox) => SessionsSame(w1.s, w2.s, w1.s.sessions[m := mbox], w2.s.sessions[m := mbox]);
    case CloseSession(m) => SessionsSame(w1.s, w2.s, w1.s.sessions - {m}, w2.s.sessions - {m});
  }

  lemma TransSame(s1: State, s2: State, memb: set<ProcId>, id: MembId)
    requires Twins(s1, s2) && (s1.gstate == GOP || s1.gstate == GGATHER) && s2.gstate == s1.gstate
    ensures Twins(HandleTrans(s1, memb, id).s, HandleTrans(s2, memb, id).s)
  {
    hide Twins, TransInGop, TransInGather;
    SplitTwins(s1, s2, memb, id);
    FlagTwins(s1, s2, memb, id);
  }

  lemma RegEitherSame(e1: Site, s1: State, e2: Site, s2: State, memb: set<ProcId>, id: MembId)
    requires Neighbours(e1, e2) && Twins(s1, s2) && (s1.gstate == GTRANS || s1.gstate == GGT) && s2.gstate == s1.gstate
    ensures Twins(HandleReg(e1, s1, memb, id).s, HandleReg(e2, s2, memb, id).s)
  {
    hide Twins, RegInTrans, RegInGgt;
    if s1.gstate == GTRANS {
      RegSame(e1, s1, e2, s2, memb, id);
    } else {
      CascadeSame(e1, s1, e2, s2, memb, id);
    }
  }

  lemma SessionsSame(s1: State, s2: State, a: map<Name, Mailbox>, b: map<Name, Mailbox>)
    requires Twins(s1, s2)
    ensures Twins(s1.(sessions := a), s2.(sessions := b)) && Twins(s1.(sessions := a), s2)
    ensures Twins(s1, s2.(sessions := b))
  {
    hide SameView;
  }

  /** Two daemons go together until `l1` and `l2`, through memberships, exchanges and cascades. */
  ghost predicate Together(e1: Site, w1: World, e2: Site, w2: World, steps: seq<Step>, l1: World, l2: World)
    decreases |steps|
  {
    if steps == [] then w1 == l1 && w2 == l2
    else
      && MayStep(e1, w1, e2, w2, steps[0])
      && Together(e1, FirstNext(e1, w1, steps[0]), e2, SecondNext(e2, w2, steps[0]), steps[1..], l1, l2)
  }

  lemma {:induction false} TogetherTwins(e1: Site, w1: World, e2: Site, w2: World, steps: seq<Step>, l1: World,
                                         l2: World)
    requires Neighbours(e1, e2) && Twins(w1.s, w2.s) && Together(e1, w1, e2, w2, steps, l1, l2)
    ensures Twins(l1.s, l2.s)
    decreases |steps|
  {
    hide Twins, Enabled, FirstNext, SecondNext, Neighbours;
    if steps != [] {
      StepKeepsTwins(e1, w1, e2, w2, steps[0]);
      TogetherTwins(e1, FirstNext(e1, w1, steps[0]), e2, SecondNext(e2, w2, steps[0]), steps[1..], l1, l2);
    }
  }

  lemma SameViewIsAlike(t: Table, u: Table)
    requires SameView(t, u)
    ensures Alike(t, u)
  {
    forall n | n in t ensures AlikeGroup(t[n], u[n]) {
      assert SameGroup(t[n], u[n]);
      var g, h := t[n].(mboxes := []), u[n].(mboxes := []);
      assert t[n].daemons == g.daemons && u[n].daemons == h.daemons;
      assert t[n].id == g.id && u[n].id == h.id && t[n].changed == g.changed && u[n].changed == h.changed;
    }
  }

  lemma SameMembership(e1: Site, w1: World, e2: Site, w2: World)
    requires WorldInv(e1, w1) && WorldInv(e2, w2) && w1.s.held && w2.s.held && w1.x == w2.x
    ensures w1.s.reg == w2.s.reg
  {
    hide Inv, GoodPeer, Bookkept, ReplicaInv, CacheInv;
    Spokes(e1, w1);
    Spokes(e2, w2);
  }

  lemma Spokes(e: Site, w: World)
    requires WorldInv(e, w) && w.s.held
    ensures forall p :: p in w.s.reg <==> exists r :: r in w.x && p in Among(w.x[r].synced)
  {
    hide Inv, Bookkept, ReplicaInv, CacheInv, Among;
    forall r | r in w.x ensures Among(w.x[r].synced) <= w.s.reg {
      assert GoodPeer(e, w.s.reg, w.s.regId, r, w.x[r]);
    }
  }

  lemma CompletedIs(e: Site, w: World, f: Frame)
    requires Completes(e, w, f) && w.s.gstate == GGATHER
    ensures var r := Completed(e, w.s, f);
      Inv(e, r) && r.gstate == GOP && r.reg == w.s.reg != {} && r.regId == w.s.regId
    ensures WorldInv(e, w) && w.s.held
  {
    hide WorldInv, MayArrive, Finish, TakeLinks, GroupsInv, Filed;
    CompletedKeeps(e, w, f);
    MergedIs(e, Recorded(w.s, f));
    HasItself(e, w);
  }

  lemma HasItself(e: Site, w: World)
    requires WorldInv(e, w) && (w.s.gstate == GGATHER || w.s.gstate == GGT)
    ensures e.my in w.s.reg && w.s.held
  {
    hide GroupsInv, ExchangeInv, ReplicaInv, CacheInv, InConfOrder, Distinct;
    assert e.my in Among(w.s.synced);
  }

  /** Two daemons that complete one exchange in GGATHER are twins from then on. */
  lemma CompletionMakesTwins(e1: Site, w1: World, f1: Frame, e2: Site, w2: World, f2: Frame)
    requires Completes(e1, w1, f1) && Completes(e2, w2, f2) && w1.s.gstate == w2.s.gstate == GGATHER
    requires Neighbours(e1, e2) && w1.x == w2.x && w1.s.regId == w2.s.regId
    ensures Twins(Completed(e1, w1.s, f1), Completed(e2, w2.s, f2))
  {
    hide Completes, Completed, WorldInv, SameView, Inv, PhaseInv;
    CompletedIs(e1, w1, f1);
    CompletedIs(e2, w2, f2);
    SameMembership(e1, w1, e2, w2);
    DaemonsAgree(e1, w1, f1, e2, w2, f2);
    DaemonsAgreeOnSet(e1, Completed(e1, w1.s, f1), e2, Completed(e2, w2.s, f2));
    NothingHeld(e1, Completed(e1, w1.s, f1));
    NothingHeld(e2, Completed(e2, w2.s, f2));
  }

  lemma NothingHeld(e: Site, s: State)
    requires Inv(e, s) && s.gstate == GOP
    ensures !s.ownComplete && s.links == [] && s.numMess == 0 && s.numDaemons == 0
  {
  }

  lemma MergedIsOver(e: Site, w: World, f: Frame)
    requires Completes(e, w, f)
    ensures var m := Merged(e, Recorded(w.s, f));
      Inv(e, m) && m.gstate == GOP && m.reg == w.s.reg != {} && m.regId == w.s.regId && w.s.held
  {
    hide WorldInv, GoodExchange, Bookkept, Filed, Receive, MayArrive, Inv, RepsOf, AbsorbAll, Finish, TakeLinks,
      Distinct, ReplicaInv, CacheInv;
    Exchanging(e, w);
    RecordedKeeps(e, w.s, w.x, w.arrived, f);
    RecordedSafe(e, w.s, f);
    MergedKeeps(e, Recorded(w.s, f), w.x, Receive(w.arrived, f));
    MergedIs(e, Recorded(w.s, f));
    HasItself(e, w);
  }

  /** Two daemons that complete one exchange are twins once the next transitional membership is delivered,
      even if it overtook the last message at one of them or at both. */
  lemma CascadeMakesTwins(e1: Site, w1: World, f1: Frame, e2: Site, w2: World, f2: Frame,
                          trans: set<ProcId>, transId: MembId)
    requires Completes(e1, w1, f1) && Completes(e2, w2, f2) && Neighbours(e1, e2) && w1.x == w2.x
    requires w1.s.regId == w2.s.regId
    requires w1.s.gstate == GGT ==> w1.s.trans == trans && w1.s.transId == transId
    requires w2.s.gstate == GGT ==> w2.s.trans == trans && w2.s.transId == transId
    ensures Twins(AfterTrans(e1, w1.s, f1, trans, transId), AfterTrans(e2, w2.s, f2, trans, transId))
  {
    hide WorldInv, MayArrive, Recorded, Merged, SameView, Inv, AfterTrans, SplitAll, Twins;
    var m1, m2 := Merged(e1, Recorded(w1.s, f1)), Merged(e2, Recorded(w2.s, f2));
    MergedIsOver(e1, w1, f1);
    MergedIsOver(e2, w2, f2);
    SameMembership(e1, w1, e2, w2);
    DaemonsAgreeOnSet(e1, m1, e2, m2);
    DaemonsAgreeThroughCascade(e1, w1, f1, e2, w2, f2, trans, transId);
    AfterTransIs(e1, w1.s, f1, trans, transId);
    AfterTransIs(e2, w2.s, f2, trans, transId);
    NothingHeld(e1, m1);
    NothingHeld(e2, m2);
    FromParts(TransInGop(m1, trans, transId).s, TransInGop(m2, trans, transId).s);
  }

  /** Agreement lasts: two daemons that completed one exchange and go together from there keep one view of
      every group, through any events, and enter every later exchange with one synced set and replicas of
      one table. */
  lemma AgreementLasts(e1: Site, w1: World, f1: Frame, e2: Site, w2: World, f2: Frame,
                       steps: seq<Step>, l1: World, l2: World)
    requires Completes(e1, w1, f1) && Completes(e2, w2, f2) && w1.s.gstate == w2.s.gstate == GGATHER
    requires Neighbours(e1, e2) && w1.x == w2.x && w1.s.regId == w2.s.regId
    requires Together(e1, World(Completed(e1, w1.s, f1), w1.x, Receive(w1.arrived, f1)),
                      e2, World(Completed(e2, w2.s, f2), w2.x, Receive(w2.arrived, f2)), steps, l1, l2)
    ensures SameView(l1.s.groups, l2.s.groups)
    ensures l1.s.synced == l2.s.synced && Alike(l1.s.groups, l2.s.groups)
  {
    hide Completes, Completed, Together, SameView, Alike, Receive;
    CompletionMakesTwins(e1, w1, f1, e2, w2, f2);
    TogetherTwins(e1, World(Completed(e1, w1.s, f1), w1.x, Receive(w1.arrived, f1)),
                  e2, World(Completed(e2, w2.s, f2), w2.x, Receive(w2.arrived, f2)), steps, l1, l2);
    SameViewIsAlike(l1.s.groups, l2.s.groups);
  }

  /** The same from the transitional membership on, wherever it came before the last message. */
  lemma AgreementLastsThroughCascade(e1: Site, w1: World, f1: Frame, e2: Site, w2: World, f2: Frame,
                                     trans: set<ProcId>, transId: MembId, steps: seq<Step>, l1: World, l2: World)
    requires Completes(e1, w1, f1) && Completes(e2, w2, f2) && Neighbours(e1, e2) && w1.x == w2.x
    requires w1.s.regId == w2.s.regId
    requires w1.s.gstate == GGT ==> w1.s.trans == trans && w1.s.transId == transId
    requires w2.s.gstate == GGT ==> w2.s.trans == trans && w2.s.transId == transId
    requires Together(e1, World(AfterTrans(e1, w1.s, f1, trans, transId), w1.x, Receive(w1.arrived, f1)),
                      e2, World(AfterTrans(e2, w2.s, f2, trans, transId), w2.x, Receive(w2.arrived, f2)), steps, l1, l2)
    ensures SameView(l1.s.groups, l2.s.groups)
    ensures l1.s.synced == l2.s.synced && Alike(l1.s.groups, l2.s.groups)
  {
    hide WorldInv, MayArrive, Recorded, AfterTrans, Together, SameView, Alike, Receive;
    CascadeMakesTwins(e1, w1, f1, e2, w2, f2, trans, transId);
    TogetherTwins(e1, World(AfterTrans(e1, w1.s, f1, trans, transId), w1.x, Receive(w1.arrived, f1)),
                  e2, World(AfterTrans(e2, w2.s, f2, trans, transId), w2.x, Receive(w2.arrived, f2)), steps, l1, l2);
    SameViewIsAlike(l1.s.groups, l2.s.groups);
  }

  // ---------------------------------------------------------------- through a cascade

  /** The representatives whose tables a daemon holds when a cascading membership comes: those that are
      done if its own set's is, otherwise its own. */
  ghost function Held(x: Exchange, arrived: Arrived, leader: ProcId): set<ProcId> {
    if Done(x, arrived, leader) then set r | r in x && Done(x, arrived, r) else {leader}
  }

  lemma CompleteLinksAreDone(x: Exchange, arrived: Arrived, leader: ProcId, s: State)
    requires Bookkept(x, arrived, leader, s) && leader in x
    ensures leader !in RepsOf(Usable(s)) && Among(RepsOf(Usable(s))) + {leader} == Held(x, arrived, leader)
  {
    hide Covered, FramesOf, Distinct;
    RepsAre(s.links);
    RepsAre(Usable(s));
    forall r | r in x && r != leader
      ensures r in RepsOf(Usable(s)) <==> s.ownComplete && Done(x, arrived, r)
    {
      if s.ownComplete && Done(x, arrived, r) {
        assert (r, |x[r].frames| - 1) in arrived;
        var l :| l in s.links && l.rep == r;
        assert l in Usable(s);
      }
    }
    forall r | r in RepsOf(Usable(s)) ensures r in x && r != leader {
      var l :| l in Usable(s) && l.rep == r;
      assert l in s.links;
    }
  }

  /** Two daemons hold the same tables, or have none in common. */
  lemma HeldSameOrApart(x: Exchange, arrived: Arrived, l: ProcId, m: ProcId)
    requires l in x && m in x
    ensures Held(x, arrived, l) == Held(x, arrived, m) || Held(x, arrived, l) !! Held(x, arrived, m)
  {
    hide Done;
  }

  /** How a daemon takes in some of the other tables. */
  ghost predicate Takes(fam: map<ProcId, Table>, a: ProcId, t: Table, u: Table, trans: set<ProcId>,
                        order: seq<ProcId>) {
    && a in fam && Alike(t, fam[a]) && Ready(t) && Ready(u) && Raised(u, t, trans)
    && Distinct(order) && a !in order && forall r | r in order :: r in fam
  }

  lemma TakesGathers(fam: map<ProcId, Table>, a: ProcId, t: Table, u: Table, trans: set<ProcId>, order: seq<ProcId>)
    requires Family(fam) && Takes(fam, a, t, u, trans, order)
    ensures Family(fam[a := u])
    ensures Gathers(AbsorbAll(u, fam, order), fam[a := u], Among(order) + {a})
  {
    hide Family, Raised, Gathers, Ready, AbsorbAll, Alike;
    var f: map<ProcId, Table> := fam[a := u];
    AlikeKeepsFamily(fam, a, t);
    RaisedKeepsFamily(fam[a := t], a, u, trans);
    assert fam[a := t][a := u] == f;
    OwnTableGathers(f, a);
    AbsorbAllGathers(u, f, {a}, order);
    OthersOnly(u, fam, a, u, order);
    assert {a} + Among(order) == Among(order) + {a};
  }

  lemma ChangedAlike(ga: Group, vs: map<ProcId, Group>, gb: Group, ws: map<ProcId, Group>)
    requires GatheredGroup(ga, vs) && GatheredGroup(gb, ws) && AlikeVotes(vs, ws) && SameIndex(vs) && SameIndex(ws)
    ensures ga.changed == gb.changed && (!ga.changed ==> ga.id == gb.id)
  {
    hide GatheredGroup, SameIndex, AlikeGroup;
    AlikeBack(vs, ws);
    if !ga.changed {
      UnchangedAlike(ga, vs, gb, ws);
    }
    if !gb.changed {
      UnchangedAlike(gb, ws, ga, vs);
    }
  }

  lemma AlikeBack(vs: map<ProcId, Group>, ws: map<ProcId, Group>)
    requires AlikeVotes(vs, ws)
    ensures AlikeVotes(ws, vs)
  {
  }

  lemma ShedInside(g: Group, trans: set<ProcId>)
    requires Inside(g, trans)
    ensures Outside(g, trans) == {} && Shed(g, trans) == g
  {
  }

  lemma ShedLoses(g: Group, h: Group, trans: set<ProcId>)
    requires SameMembers(g, h) && g.num == h.num && !Inside(g, trans)
    ensures Outside(g, trans) == Outside(h, trans) != {}
    ensures AlikeGroup(Shed(g, trans), Shed(h, trans)) && Shed(g, trans).num == Shed(h, trans).num
  {
    hide HeadCount;
    var p :| p in g.daemons && p !in trans;
    assert p in Outside(g, trans) && p in Outside(h, trans);
    assert Outside(g, trans) == Outside(h, trans);
    HeadCountSame(Only(g.daemons, Outside(g, trans)), Only(h.daemons, Outside(h, trans)));
  }

  /** A group at two daemons that gathered the same tables, after it lost the daemons outside. */
  lemma ShedAlike(ga: Group, vs: map<ProcId, Group>, gb: Group, ws: map<ProcId, Group>, base: map<ProcId, Group>,
                  trans: set<ProcId>)
    requires GatheredGroup(ga, vs) && GatheredGroup(gb, ws) && Loose(vs, base, trans) && Loose(ws, base, trans)
    requires SameIndex(vs) && SameIndex(ws)
    ensures AlikeGroup(Shed(ga, trans), Shed(gb, trans)) && Shed(ga, trans).num == Shed(gb, trans).num
    ensures Outside(ga, trans) == {} <==> Outside(gb, trans) == {}
  {
    hide Shed, SameIndex, EvenVotes, GatheredIds;
    EvenChain(vs, ws, base);
    MembersAlike(ga, vs, gb, ws);
    if Inside(ga, trans) {
      VotesInside(ga, vs, base, trans);
      VotesInside(gb, ws, base, trans);
      LooseKeys(vs, base, trans);
      LooseKeys(ws, base, trans);
      AlikeChain(vs, ws, base);
      ChangedAlike(ga, vs, gb, ws);
      ShedInside(ga, trans);
      ShedInside(gb, trans);
    } else {
      ShedLoses(ga, gb, trans);
    }
  }

  lemma GroupShedAlike(fam: map<ProcId, Table>, rs: set<ProcId>, a: ProcId, ta: Table, ua: Table, b: ProcId, tb: Table,
                       ub: Table, ga: Table, gb: Table, trans: set<ProcId>, n: Name)
    requires a in fam && Alike(ta, fam[a]) && Raised(ua, ta, trans) && Family(fam[a := ua])
    requires b in fam && Alike(tb, fam[b]) && Raised(ub, tb, trans) && Family(fam[b := ub])
    requires Gathers(ga, fam[a := ua], rs) && Gathers(gb, fam[b := ub], rs)
    ensures n in ga <==> n in gb
    ensures n in ga ==>
      && AlikeGroup(Shed(ga[n], trans), Shed(gb[n], trans)) && Shed(ga[n], trans).num == Shed(gb[n], trans).num
      && (Outside(ga[n], trans) == {} <==> Outside(gb[n], trans) == {})
  {
    hide Family, Raised, Alike, Votes, Shed, GatheredGroup, SameIndex, AlikeGroup, Outside, Loose;
    var fa: map<ProcId, Table>, fb: map<ProcId, Table> := fam[a := ua], fam[b := ub];
    var vs, ws, base := Votes(fa, rs, n), Votes(fb, rs, n), Votes(fam, rs, n);
    LooseVotes(fam, rs, a, ta, ua, trans, n);
    LooseVotes(fam, rs, b, tb, ub, trans, n);
    LooseKeys(vs, base, trans);
    LooseKeys(ws, base, trans);
    FamilySameIndex(fa, rs, n);
    FamilySameIndex(fb, rs, n);
    assert vs == map[] <==> ws == map[];
    if n in ga {
      ShedAlike(ga[n], vs, gb[n], ws, base, trans);
    }
  }

  /** Two tables gathered from the same representatives are replicas once the lost daemons are dropped. */
  lemma ShedTablesAlike(fam: map<ProcId, Table>, rs: set<ProcId>, a: ProcId, ta: Table, ua: Table, ordera: seq<ProcId>,
                        b: ProcId, tb: Table, ub: Table, orderb: seq<ProcId>, trans: set<ProcId>)
    requires Family(fam) && Takes(fam, a, ta, ua, trans, ordera) && Takes(fam, b, tb, ub, trans, orderb)
    requires Among(ordera) + {a} == rs == Among(orderb) + {b}
    ensures Alike(ShedAll(AbsorbAll(ua, fam, ordera), trans), ShedAll(AbsorbAll(ub, fam, orderb), trans))
  {
    hide Family, Raised, Gathers, AbsorbAll, Shed, AlikeGroup, Among, Ready, Outside, Distinct;
    TakesGathers(fam, a, ta, ua, trans, ordera);
    TakesGathers(fam, b, tb, ub, trans, orderb);
    var ga, gb := AbsorbAll(ua, fam, ordera), AbsorbAll(ub, fam, orderb);
    forall n
      ensures n in ga <==> n in gb
      ensures n in ga ==>
        && AlikeGroup(Shed(ga[n], trans), Shed(gb[n], trans)) && Shed(ga[n], trans).num == Shed(gb[n], trans).num
        && (Outside(ga[n], trans) == {} <==> Outside(gb[n], trans) == {})
    {
      GroupShedAlike(fam, rs, a, ta, ua, b, tb, ub, ga, gb, trans, n);
    }
  }

  ghost function Voices(x: Exchange, rs: set<ProcId>): set<ProcId> {
    set r, p | r in x && r in rs && p in Among(x[r].synced) :: p
  }

  lemma SpokenIs(x: Exchange, leader: ProcId, reps: seq<ProcId>)
    requires leader in x && forall r | r in reps :: r in x
    ensures Among(x[leader].synced) + Spoken(x, reps) == Voices(x, Among(reps) + {leader})
  {
    hide Among;
    MembersOfReps(reps);
    forall p ensures p in Among(x[leader].synced) + Spoken(x, reps) <==> p in Voices(x, Among(reps) + {leader}) {
      if p in Among(x[leader].synced) {
        assert leader in Among(reps) + {leader};
      }
    }
  }

  lemma MembersOfReps(reps: seq<ProcId>)
    ensures forall r :: r in Among(reps) <==> r in reps
  {
  }

  lemma VoicesApart(e: Site, reg: set<ProcId>, regId: MembId, x: Exchange, rs: set<ProcId>, qs: set<ProcId>)
    requires GoodExchange(e, reg, regId, x) && rs !! qs
    ensures Voices(x, rs) !! Voices(x, qs)
  {
    hide GoodExchange, Among;
    forall r, q | r in x && q in x && r in rs && q in qs ensures Among(x[r].synced) !! Among(x[q].synced) {
      PeersDisjoint(e, reg, regId, x, r, q);
    }
  }

  lemma SelectOrdered(conf: seq<ProcId>, s: seq<ProcId>, memb: set<ProcId>)
    requires InConfOrder(conf, s)
    ensures InConfOrder(conf, Select(s, memb)) && Among(Select(s, memb)) == Among(s) * memb
  {
    hide InConfOrder, Select;
    SelectKeepsOrder(conf, s, memb);
  }

  /** The table and synced set with which a daemon leaves an interrupted exchange. */
  lemma CascadeLeaves(e: Site, w: World, memb: set<ProcId>, id: MembId) returns (t: Table)
    requires WorldInv(e, w) && w.s.gstate == GGT
    ensures var s, fam, order := w.s, Tables(w.x), RepsOf(Usable(w.s)); var r := RegInGgt(e, s, memb, id).s;
      && s.synced != [] && s.synced[0] in w.x
      && Family(fam) && (forall q | q in order :: q in fam) && Takes(fam, s.synced[0], t, s.groups, s.trans, order)
      && Among(order) + {s.synced[0]} == Held(w.x, w.arrived, s.synced[0])
      && r.groups == ShedAll(AbsorbAll(s.groups, fam, order), s.trans)
      && InConfOrder(e.conf, r.synced)
      && Among(r.synced) == Voices(w.x, Held(w.x, w.arrived, s.synced[0])) * s.trans
  {
    hide GoodExchange, Bookkept, Inv, WorldInv, CacheInv, ReplicaInv, HasAll, Distinct, Usable, TakeLinks, Alike,
      Ready, Raised, Family, AbsorbAll, ShedAll, RegInGgt, Cascaded, Held, Voices, Spoken, TakenInv, Among, RepsOf,
      InConfOrder;
    var s := w.s;
    var order, own := RepsOf(Usable(s)), Taken(s.groups, s.synced, []);
    Exchanging(e, w);
    InTransit(e, w);
    t := ReplicaOf(e, w, s.trans);
    GoodExchangeIsFamily(e, s.reg, s.regId, w.x);
    UsableHaveAll(w.x, w.arrived, s.synced[0], s);
    CompleteLinksAreDone(w.x, w.arrived, s.synced[0], s);
    PeersApart(e, s.reg, s.regId, w.x, s.synced[0], s.synced, Usable(s));
    assert CanTake(w.x, own, Usable(s));
    RepsKnown(w.x, own, Usable(s));
    GatheringNow(e, s);
    TakeCompleteLinks(e, s.reg, s.regId, w.x, s.sessions, own, Usable(s));
    RegInGgtIs(e, s, memb, id);
    CascadedParts(e, s, TakeLinks(e, own, Usable(s)), memb, id, RegInGgt(e, s, memb, id).s);
    SpokenIs(w.x, s.synced[0], order);
    TakenOrdered(e, s.sessions, TakeLinks(e, own, Usable(s)));
    SelectOrdered(e.conf, TakeLinks(e, own, Usable(s)).synced, s.trans);
  }

  lemma InTransit(e: Site, w: World)
    requires ExchangeInv(e, w)
    ensures w.s.synced != [] && w.s.synced[0] in w.x && w.x[w.s.synced[0]].synced == w.s.synced
    ensures GoodExchange(e, w.s.reg, w.s.regId, w.x) && Bookkept(w.x, w.arrived, w.s.synced[0], w.s)
    ensures Tables(w.x).Keys == w.x.Keys
  {
    hide GoodExchange, Bookkept;
  }

  lemma TakenOrdered(e: Site, sessions: map<Name, Mailbox>, t: Taken)
    requires TakenInv(e, sessions, t)
    ensures InConfOrder(e.conf, t.synced)
  {
  }

  /** Two daemons that leave an interrupted exchange together, after the same messages, either have one
      synced set and replicas of one table, or sets without a common member: the synced sets of the next
      exchange are apart again, whichever of the links were complete. */
  lemma CascadeKeepsSets(e1: Site, w1: World, e2: Site, w2: World, memb: set<ProcId>, id: MembId)
    requires WorldInv(e1, w1) && WorldInv(e2, w2) && w1.s.gstate == w2.s.gstate == GGT && e1.conf == e2.conf
    requires w1.x == w2.x && w1.arrived == w2.arrived && w1.s.trans == w2.s.trans
    ensures var r1, r2 := RegInGgt(e1, w1.s, memb, id).s, RegInGgt(e2, w2.s, memb, id).s;
      || (r1.synced == r2.synced && Alike(r1.groups, r2.groups))
      || Among(r1.synced) !! Among(r2.synced)
  {
    hide WorldInv, RegInGgt, Takes, Family, AbsorbAll, ShedAll, Held, Voices, Among, Alike, InConfOrder, Usable,
      RepsOf;
    var t1 := CascadeLeaves(e1, w1, memb, id);
    var t2 := CascadeLeaves(e2, w2, memb, id);
    var l1, l2 := w1.s.synced[0], w2.s.synced[0];
    HeldSameOrApart(w1.x, w1.arrived, l1, l2);
    if Held(w1.x, w1.arrived, l1) == Held(w1.x, w1.arrived, l2) {
      OrderedIsUnique(e1.conf, RegInGgt(e1, w1.s, memb, id).s.synced, RegInGgt(e2, w2.s, memb, id).s.synced);
      ShedTablesAlike(Tables(w1.x), Held(w1.x, w1.arrived, l1), l1, t1, w1.s.groups, RepsOf(Usable(w1.s)),
                      l2, t2, w2.s.groups, RepsOf(Usable(w2.s)), w1.s.trans);
    } else {
      InExchange(e1, w1);
      VoicesApart(e1, w1.s.reg, w1.s.regId, w1.x, Held(w1.x, w1.arrived, l1), Held(w1.x, w1.arrived, l2));
    }
  }

  lemma InExchange(e: Site, w: World)
    requires WorldInv(e, w) && w.s.gstate == GGT
    ensures GoodExchange(e, w.s.reg, w.s.regId, w.x)
  {
    hide GoodExchange, Inv, CacheInv, ReplicaInv;
    Exchanging(e, w);
  }
}
