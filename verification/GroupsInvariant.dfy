/** What holds of every group, of the synced set and of the bookkeeping between two events, and that
    the effects on single groups keep it. */
module GroupsInvariant {
  import opened Wire
  import opened Ordering
  import opened GroupTable
  import opened GroupsMerge
  import opened GroupsWalk
  import opened GroupsAgreement
  import opened SyncedSets
  import opened GroupsState

  // ---------------------------------------------------------------- one group

  /** Counted, nothing empty, every member at the daemon its name belongs to, and an unchanged group's
      daemons under the group's own id. */
  ghost predicate Sound(e: Site, g: Group) {
    && g.num == HeadCount(g.daemons) && g.daemons != map[] && !Unknown(g.id.memb)
    && (forall p | p in g.daemons :: g.daemons[p].members != {})
    && (forall p, m | p in g.daemons && m in g.daemons[p].members :: m in e.owner && e.owner[m] == p)
    && (!g.changed ==> forall p | p in g.daemons :: g.daemons[p].memb == g.id.memb)
  }

  ghost function LocalMembers(e: Site, g: Group): set<Name> {
    if e.my in g.daemons then g.daemons[e.my].members else {}
  }

  /** The mailboxes are those of the local members' sessions, each once. */
  ghost predicate Posted(e: Site, sessions: map<Name, Mailbox>, g: Group) {
    && (forall m | m in LocalMembers(e, g) :: m in sessions)
    && multiset(g.mboxes) == multiset(Addresses(sessions, LocalMembers(e, g)))
  }

  ghost function Addresses(sessions: map<Name, Mailbox>, ms: set<Name>): set<Mailbox> {
    set m | m in ms && m in sessions :: sessions[m]
  }

  ghost predicate OneMailboxEach(sessions: map<Name, Mailbox>) {
    forall m, n | m in sessions && n in sessions && sessions[m] == sessions[n] :: m == n
  }

  ghost predicate AllKnown(g: Group) {
    forall p | p in g.daemons :: !Unknown(g.daemons[p].memb)
  }

  ghost predicate Inside(g: Group, ps: set<ProcId>) {
    g.daemons.Keys <= ps
  }

  /** In a transitional period exactly the daemons outside are partitioned, and only changed groups
      have any. */
  ghost predicate Marked(g: Group, trans: set<ProcId>) {
    && (forall p | p in g.daemons :: Unknown(g.daemons[p].memb) <==> p !in trans)
    && (!g.changed ==> Inside(g, trans))
  }

  ghost predicate GroupInv(e: Site, s: State, g: Group) {
    && Sound(e, g) && Posted(e, s.sessions, g)
    && match s.gstate
       case GOP => !g.changed && Inside(g, s.reg)
       case GTRANS => Marked(g, s.trans) && Inside(g, s.reg)
       case _ => AllKnown(g) && Inside(g, Among(s.synced))
  }

  ghost predicate GroupsInv(e: Site, s: State) {
    forall n | n in s.groups :: GroupInv(e, s, s.groups[n])
  }

  // ---------------------------------------------------------------- the rest of the state

  /** The membership transitional members come from: the installed one, or this daemon alone. */
  ghost function Base(e: Site, s: State): set<ProcId> {
    if s.reg == {} then {e.my} else s.reg
  }

  ghost predicate SyncedInv(e: Site, s: State) {
    && Distinct(e.conf) && e.my in e.conf && s.reg <= Among(e.conf)
    && InConfOrder(e.conf, s.synced) && e.my in s.synced
    && match s.gstate
       case GOP => Among(s.synced) == Base(e, s)
       case GTRANS => Among(s.synced) == s.trans && s.trans <= Base(e, s)
       case GGATHER => Among(s.synced) <= s.reg
       case GGT => Among(s.synced) <= s.reg && s.trans <= s.reg && e.my in s.trans
  }

  /** Outside an exchange nothing is gathered, cached or held back. */
  ghost predicate PhaseInv(s: State) {
    && (s.held <==> s.gstate == GGATHER || s.gstate == GGT)
    && (!s.held ==> s.links == [] && s.numMess == 0 && s.numDaemons == 0 && !s.ownComplete
                    && s.bufs == [] && !s.current)
    && !Unknown(s.regId) && !Unknown(s.transId)
    && OneMailboxEach(s.sessions)
  }

  ghost predicate Inv(e: Site, s: State) {
    GroupsInv(e, s) && SyncedInv(e, s) && PhaseInv(s)
  }

  // ---------------------------------------------------------------- effects on one group

  lemma SoundNonEmpty(e: Site, g: Group)
    requires Sound(e, g)
    ensures g.num > 0
  {
    NobodyMeansEmpty(g.daemons);
  }

  lemma SameMembersPosted(e: Site, sessions: map<Name, Mailbox>, g: Group, h: Group)
    requires Posted(e, sessions, g) && h.mboxes == g.mboxes && LocalMembers(e, h) == LocalMembers(e, g)
    ensures Posted(e, sessions, h)
  {
  }

  lemma SplitKeeps(e: Site, s: State, g: Group, trans: set<ProcId>, transId: MembId)
    requires GroupInv(e, s, g) && s.gstate == GOP && !Unknown(transId)
    ensures var h := Split(g, trans, transId).g;
      Sound(e, h) && Posted(e, s.sessions, h) && Marked(h, trans) && Inside(h, s.reg)
  {
    hide Sound, Posted, Split, Marked, Inside;
    var h := Split(g, trans, transId).g;
    SplitMarks(e, g, trans, transId, s.reg);
    SplitLocal(e, g, trans, transId);
    SameMembersPosted(e, s.sessions, g, h);
    SplitSound(e, g, trans, transId);
  }

  lemma SplitLocal(e: Site, g: Group, trans: set<ProcId>, transId: MembId)
    ensures var h := Split(g, trans, transId).g; h.mboxes == g.mboxes && LocalMembers(e, h) == LocalMembers(e, g)
  {
  }

  lemma SplitMarks(e: Site, g: Group, trans: set<ProcId>, transId: MembId, ps: set<ProcId>)
    requires AllKnown(g) || (Sound(e, g) && !g.changed)
    requires Inside(g, ps) && !Unknown(transId)
    ensures var h := Split(g, trans, transId).g; Marked(h, trans) && Inside(h, ps)
  {
    hide HeadCount;
    var h := Split(g, trans, transId).g;
    if Outside(g, trans) == {} {
      forall p | p in g.daemons ensures p in trans {
        assert p !in Outside(g, trans);
      }
    }
  }

  lemma SplitSound(e: Site, g: Group, trans: set<ProcId>, transId: MembId)
    requires Sound(e, g) && !Unknown(transId)
    ensures Sound(e, Split(g, trans, transId).g)
  {
    hide HeadCount;
    var h := Split(g, trans, transId).g;
    if Outside(g, trans) != {} {
      HeadCountSame(g.daemons, h.daemons);
      var p :| p in Outside(g, trans);
      assert p in h.daemons;
    }
  }

  lemma WithoutKeeps(e: Site, sessions: map<Name, Mailbox>, g: Group, gone: set<ProcId>)
    requires Sound(e, g) && Posted(e, sessions, g) && e.my !in gone
    ensures var h := Without(g, gone);
      && Posted(e, sessions, h) && h.num == HeadCount(h.daemons)
      && (h.num != 0 ==> Sound(e, h))
      && (h.num == 0 <==> h.daemons == map[])
      && h.daemons.Keys == g.daemons.Keys - gone
  {
    var h := Without(g, gone);
    HeadCountCut(g.daemons, gone);
    assert LocalMembers(e, h) == LocalMembers(e, g);
    NobodyMeansEmpty(h.daemons);
  }

  lemma SettleKeeps(e: Site, sessions: map<Name, Mailbox>, g: Group, regId: MembId)
    requires Sound(e, g) && Posted(e, sessions, g) && AllKnown(g) && !Unknown(regId)
    ensures var h := Settle(g, regId).g;
      Sound(e, h) && Posted(e, sessions, h) && !h.changed && h.daemons.Keys == g.daemons.Keys
    ensures Conclude(g, regId).g == Settle(g, regId).g
  {
    var h := Settle(g, regId).g;
    HeadCountSame(g.daemons, h.daemons);
    forall p | p in g.daemons ensures p in h.daemons && h.daemons[p].members == g.daemons[p].members {
    }
    var p :| p in g.daemons;
    assert p in h.daemons;
    assert LocalMembers(e, h) == LocalMembers(e, g);
  }

  lemma AddressesAdd(sessions: map<Name, Mailbox>, ms: set<Name>, m: Name)
    requires OneMailboxEach(sessions) && m in sessions && m !in ms
    ensures multiset(Addresses(sessions, ms + {m})) == multiset(Addresses(sessions, ms)) + multiset{sessions[m]}
  {
    var a := Addresses(sessions, ms);
    assert Addresses(sessions, ms + {m}) == a + {sessions[m]};
    assert sessions[m] !in a;
  }

  lemma AdmitCounts(g: Group, memb: MembId, p: ProcId, m: Name, mbox: seq<Mailbox>)
    requires g.num == HeadCount(g.daemons) && (p in g.daemons ==> m !in g.daemons[p].members)
    ensures Admit(g, memb, p, m, mbox).g.num == HeadCount(Admit(g, memb, p, m, mbox).g.daemons)
  {
    var h, d := Admit(g, memb, p, m, mbox).g, NewDaemon(g, memb, p);
    HeadCountPut(g.daemons, p, h.daemons[p]);
    if p in g.daemons {
      HeadCountSplit(g.daemons, p);
    } else {
      assert g.daemons - {p} == g.daemons;
    }
    assert |d.members + {m}| == |d.members| + 1;
  }

  lemma AdmitIs(g: Group, memb: MembId, p: ProcId, m: Name, mbox: seq<Mailbox>)
    ensures var h, d := Admit(g, memb, p, m, mbox).g, NewDaemon(g, memb, p);
      && h.daemons == g.daemons[p := Daemon(d.memb, d.members + {m})] && h.id.memb == g.id.memb
      && h.daemons.Keys == g.daemons.Keys + {p}
      && (h.changed <==> g.changed || Unknown(d.memb))
  {
  }

  lemma AdmitPosted(e: Site, sessions: map<Name, Mailbox>, g: Group, memb: MembId, p: ProcId, m: Name,
                    mbox: seq<Mailbox>)
    requires Posted(e, sessions, g) && OneMailboxEach(sessions)
    requires if p == e.my then m in sessions && mbox == [sessions[m]] && m !in LocalMembers(e, g) else mbox == []
    ensures Posted(e, sessions, Admit(g, memb, p, m, mbox).g)
  {
    var h := Admit(g, memb, p, m, mbox).g;
    if p == e.my {
      AddressesAdd(sessions, LocalMembers(e, g), m);
      assert LocalMembers(e, h) == LocalMembers(e, g) + {m};
    } else {
      assert LocalMembers(e, h) == LocalMembers(e, g);
      assert h.mboxes == g.mboxes;
    }
  }

  /** A group that can admit m at p: sound, or still to be created by this join. */
  ghost predicate Open(e: Site, g: Group, p: ProcId, m: Name) {
    && (if g.daemons == map[] then !g.changed && g.num == 0 && !Unknown(g.id.memb) else Sound(e, g))
    && m in e.owner && e.owner[m] == p && (p in g.daemons ==> m !in g.daemons[p].members)
  }

  lemma AdmitSound(e: Site, g: Group, memb: MembId, p: ProcId, m: Name, mbox: seq<Mailbox>)
    requires Open(e, g, p, m) && (memb == UNKNOWN || memb == g.id.memb)
    ensures Sound(e, Admit(g, memb, p, m, mbox).g)
  {
    hide HeadCount, Admit, NewDaemon;
    var h := Admit(g, memb, p, m, mbox).g;
    OpenCounts(e, g, p, m);
    AdmitCounts(g, memb, p, m, mbox);
    AdmitIs(g, memb, p, m, mbox);
    NewDaemonIs(g, memb, p);
    assert m in h.daemons[p].members;
  }

  lemma OpenCounts(e: Site, g: Group, p: ProcId, m: Name)
    requires Open(e, g, p, m)
    ensures g.num == HeadCount(g.daemons)
  {
    if g.daemons == map[] {
      NobodyMeansEmpty(g.daemons);
    }
  }

  lemma NewDaemonIs(g: Group, memb: MembId, p: ProcId)
    ensures NewDaemon(g, memb, p) == if p in g.daemons then g.daemons[p] else Daemon(memb, {})
  {
  }

  lemma RemovePosted(e: Site, sessions: map<Name, Mailbox>, g: Group, m: Name)
    requires Posted(e, sessions, g) && OneMailboxEach(sessions) && m in LocalMembers(e, g)
    ensures sessions[m] in g.mboxes
    ensures multiset(Unpost(g.mboxes, sessions[m])) == multiset(Addresses(sessions, LocalMembers(e, g) - {m}))
  {
    var rest := LocalMembers(e, g) - {m};
    AddressesAdd(sessions, rest, m);
    assert rest + {m} == LocalMembers(e, g);
    assert sessions[m] in multiset(g.mboxes);
    UnpostRemovesOne(g.mboxes, sessions[m]);
  }

  lemma RemoveCounts(g: Group, p: ProcId, m: Name, mboxes: seq<Mailbox>)
    requires g.num == HeadCount(g.daemons) && p in g.daemons && m in g.daemons[p].members
    ensures Remove(g, p, m, mboxes).num == HeadCount(Remove(g, p, m, mboxes).daemons)
  {
    HeadCountSplit(g.daemons, p);
    HeadCountPut(g.daemons, p, Daemon(g.daemons[p].memb, g.daemons[p].members - {m}));
  }

  lemma DismissKeeps(e: Site, s: State, m: Name, n: Name, cause: Cause)
    requires IsMember(e, s.groups, m, n) && Sound(e, s.groups[n]) && Posted(e, s.sessions, s.groups[n])
    requires OneMailboxEach(s.sessions)
    ensures var g, h := s.groups[n], Dismissed(e, s, m, n, cause).g;
      && Posted(e, s.sessions, h)
      && (h.num == 0 <==> h.daemons == map[])
      && (h.num != 0 ==> Sound(e, h))
      && h.changed == g.changed && h.daemons.Keys <= g.daemons.Keys
      && forall p | p in h.daemons :: h.daemons[p].memb == g.daemons[p].memb
  {
    hide HeadCount, Unpost, Increment;
    var g, p := s.groups[n], e.owner[m];
    var h := Dismissed(e, s, m, n, cause).g;
    RemoveCounts(g, p, m, Mboxes(e, s, m, g));
    NobodyMeansEmpty(h.daemons);
    if p == e.my {
      RemovePosted(e, s.sessions, g, m);
      assert LocalMembers(e, h) == LocalMembers(e, g) - {m};
    } else {
      assert LocalMembers(e, h) == LocalMembers(e, g);
    }
  }

  // ---------------------------------------------------------------- taking in another set's table

  /** What a table of another synced set brings: sound groups of daemons elsewhere. */
  ghost predicate Foreign(e: Site, u: Table, ps: set<ProcId>) {
    forall n | n in u :: Sound(e, u[n]) && Inside(u[n], ps)
  }

  /** Groups during an exchange, at daemons ps. */
  ghost predicate Gathering(e: Site, sessions: map<Name, Mailbox>, t: Table, ps: set<ProcId>) {
    forall n | n in t :: Sound(e, t[n]) && Posted(e, sessions, t[n]) && AllKnown(t[n]) && Inside(t[n], ps)
  }

  lemma OneMoreKeeps(e: Site, sessions: map<Name, Mailbox>, g: Group, u: Group)
    requires Sound(e, g) && Posted(e, sessions, g) && AllKnown(g) && Sound(e, u)
    requires g.daemons.Keys !! u.daemons.Keys && e.my !in u.daemons
    ensures var h := OneMore(g, u);
      Sound(e, h) && Posted(e, sessions, h) && AllKnown(h) && h.daemons.Keys == g.daemons.Keys + u.daemons.Keys
  {
    hide OneMore, HeadCount, Posted;
    var h := OneMore(g, u);
    OneMoreIs(g, u);
    HeadCountDisjoint(g.daemons, RowsAs(u));
    HeadCountSame(RowsAs(u), u.daemons);
    assert LocalMembers(e, h) == LocalMembers(e, g);
    SameMembersPosted(e, sessions, g, h);
    var p :| p in g.daemons;
    assert p in h.daemons;
  }

  lemma FirstKeeps(e: Site, sessions: map<Name, Mailbox>, u: Group)
    requires Sound(e, u) && e.my !in u.daemons
    ensures var h := OneMore(Blank(u.id), u);
      Sound(e, h) && Posted(e, sessions, h) && AllKnown(h) && h.daemons.Keys == u.daemons.Keys
  {
    hide OneMore, HeadCount;
    var h := OneMore(Blank(u.id), u);
    OneMoreIs(Blank(u.id), u);
    NobodyMeansEmpty(map[]);
    assert map[] + RowsAs(u) == RowsAs(u);
    HeadCountSame(RowsAs(u), u.daemons);
    assert Addresses(sessions, LocalMembers(e, h)) == {};
    var p :| p in u.daemons;
    assert p in h.daemons;
  }

  lemma AbsorbKeeps(e: Site, sessions: map<Name, Mailbox>, t: Table, u: Table, ps: set<ProcId>, qs: set<ProcId>)
    requires Gathering(e, sessions, t, ps) && Foreign(e, u, qs) && ps !! qs && e.my in ps
    ensures Gathering(e, sessions, Absorb(t, u), ps + qs)
  {
    forall n | n in Absorb(t, u)
      ensures var h := Absorb(t, u)[n];
        Sound(e, h) && Posted(e, sessions, h) && AllKnown(h) && Inside(h, ps + qs)
    {
      if n in t && n in u {
        OneMoreKeeps(e, sessions, t[n], u[n]);
      } else if n in u {
        FirstKeeps(e, sessions, u[n]);
      }
    }
  }
}
