/** Every event keeps the invariant of the groups layer, so it holds in every run. */
module GroupsSafety {
  import opened Wire
  import opened Ordering
  import opened GroupTable
  import opened GroupsMerge
  import opened SyncedSets
  import opened GroupsState
  import opened GroupsInvariant
  import opened GroupsRun

  lemma StartInv(e: Site)
    requires Distinct(e.conf) && e.my in e.conf
    ensures WorldInv(e, Start(e))
  {
  }

  // ---------------------------------------------------------------- transitional memberships

  lemma SyncedFiltered(e: Site, s: State, memb: set<ProcId>)
    requires SyncedInv(e, s) && e.my in memb
    ensures var r := Select(s.synced, memb);
      InConfOrder(e.conf, r) && Among(r) == Among(s.synced) * memb && e.my in r
  {
    SelectKeepsOrder(e.conf, s.synced, memb);
    assert e.my in Among(s.synced);
    assert e.my in Among(Select(s.synced, memb));
  }

  lemma TransInGopKeeps(e: Site, s: State, memb: set<ProcId>, id: MembId)
    requires Inv(e, s) && s.gstate == GOP && e.my in memb && memb <= Base(e, s) && !Unknown(id)
    ensures Inv(e, TransInGop(s, memb, id).s)
  {
    var r := TransInGop(s, memb, id).s;
    SyncedFiltered(e, s, memb);
    forall n | n in r.groups ensures GroupInv(e, r, r.groups[n]) {
      assert GroupInv(e, s, s.groups[n]);
      SplitKeeps(e, s, s.groups[n], memb, id);
    }
  }

  lemma FlagLosingKeeps(e: Site, s: State, g: Group, memb: set<ProcId>)
    requires GroupInv(e, s, g) && s.gstate == GGATHER
    ensures GroupInv(e, s.(gstate := GGT), FlagLosing(g, memb))
  {
    assert LocalMembers(e, FlagLosing(g, memb)) == LocalMembers(e, g);
  }

  lemma TransInGatherKeeps(e: Site, s: State, memb: set<ProcId>, id: MembId)
    requires Inv(e, s) && s.gstate == GGATHER && e.my in memb && memb <= s.reg && !Unknown(id)
    ensures Inv(e, TransInGather(s, memb, id).s)
  {
    var r := TransInGather(s, memb, id).s;
    forall n | n in r.groups ensures GroupInv(e, r, r.groups[n]) {
      assert GroupInv(e, s, s.groups[n]);
      FlagLosingKeeps(e, s, s.groups[n], memb);
    }
  }

  // ---------------------------------------------------------------- regular memberships

  lemma SweepKeeps(e: Site, s: State, g: Group)
    requires GroupInv(e, s, g) && s.gstate == GTRANS && e.my in s.trans
    ensures !(g.changed && Sweep(g).num == 0) ==>
      Sound(e, Sweep(g)) && Posted(e, s.sessions, Sweep(g)) && AllKnown(Sweep(g)) && Inside(Sweep(g), s.trans)
    ensures Sweep(g).changed == g.changed
  {
    if g.changed {
      WithoutKeeps(e, s.sessions, g, Partitioned(g));
      forall p | p in Sweep(g).daemons ensures !Unknown(Sweep(g).daemons[p].memb) && p in s.trans {
        assert p !in Partitioned(g);
      }
    } else {
      SoundNonEmpty(e, g);
    }
  }

  lemma RegInTransKeeps(e: Site, s: State, memb: set<ProcId>, id: MembId)
    requires Inv(e, s) && s.gstate == GTRANS && s.trans <= memb <= Among(e.conf) && !Unknown(id)
    ensures Inv(e, RegInTrans(e, s, memb, id).s)
  {
    hide GroupInv, SyncedInv, Sweep, Settle, Built, Frames;
    var r := RegInTrans(e, s, memb, id).s;
    RegInTransSet(e, s, memb, id);
    forall n | n in r.groups ensures GroupInv(e, r, r.groups[n]) {
      assert GroupInv(e, s, s.groups[n]);
      RegInTransGroup(e, s, s.groups[n], memb, id, r);
    }
  }

  lemma RegInTransSet(e: Site, s: State, memb: set<ProcId>, id: MembId)
    requires SyncedInv(e, s) && s.gstate == GTRANS && s.trans <= memb <= Among(e.conf)
    ensures SyncedInv(e, RegInTrans(e, s, memb, id).s) && e.my in s.trans && Among(s.synced) == s.trans
    ensures |s.trans| == |memb| ==> s.trans == memb
  {
    hide InConfOrder, Distinct, Swept, SettleAll, Built, Frames;
    assert e.my in Among(s.synced);
    if |s.trans| == |memb| {
      SubsetOfSameSize(s.trans, memb);
    }
  }

  lemma RegInTransGroup(e: Site, s: State, g: Group, memb: set<ProcId>, id: MembId, r: State)
    requires GroupInv(e, s, g) && s.gstate == GTRANS && e.my in s.trans && !Unknown(id)
    requires r.sessions == s.sessions && r.reg == memb && s.trans <= memb && !(g.changed && Sweep(g).num == 0)
    requires r.gstate == GOP || (r.gstate == GGATHER && Among(r.synced) == s.trans)
    ensures GroupInv(e, r, if r.gstate == GOP && Sweep(g).changed then Settle(Sweep(g), id).g else Sweep(g))
  {
    hide Sound, Posted, Sweep;
    SweepKeeps(e, s, g);
    if r.gstate == GOP && Sweep(g).changed {
      SettleKeeps(e, s.sessions, Sweep(g), id);
    }
  }

  // ---------------------------------------------------------------- members

  /** Where a group's daemons are and how they are marked, outside an exchange. */
  ghost predicate Placed(s: State, g: Group) {
    && Inside(g, s.reg)
    && (s.gstate == GOP ==> !g.changed && AllKnown(g))
    && (s.gstate == GTRANS ==> Marked(g, s.trans))
  }

  lemma OldGroupOpens(e: Site, s: State, g: Group, p: ProcId, m: Name)
    requires GroupInv(e, s, g) && (s.gstate == GOP || s.gstate == GTRANS)
    requires m in e.owner && e.owner[m] == p && (p in g.daemons ==> m !in g.daemons[p].members)
    ensures Open(e, g, p, m) && Posted(e, s.sessions, g) && Placed(s, g) && !Unknown(g.id.memb)
  {
    hide HeadCount, Posted;
  }

  lemma NewGroupOpens(e: Site, s: State, id: GroupId, p: ProcId, m: Name)
    requires !Unknown(id.memb) && m in e.owner && e.owner[m] == p
    ensures var g := Blank(id); Open(e, g, p, m) && Posted(e, s.sessions, g) && Placed(s, g)
  {
    assert Addresses(s.sessions, LocalMembers(e, Blank(id))) == {};
  }

  lemma PlacedIsInv(e: Site, s: State, g: Group)
    requires Sound(e, g) && Posted(e, s.sessions, g) && Placed(s, g) && (s.gstate == GOP || s.gstate == GTRANS)
    ensures GroupInv(e, s, g)
  {
    hide Sound, Posted;
  }

  lemma JoinKeeps(e: Site, s: State, m: Name, group: Name)
    requires Inv(e, s) && (s.gstate == GOP || s.gstate == GTRANS)
    requires m in e.owner ==> e.owner[m] in s.reg && (e.owner[m] == e.my ==> m in s.sessions)
    ensures Inv(e, HandleJoin(e, s, m, group).s)
  {
    hide Admit, GroupInv, SyncedInv;
    var r := HandleJoin(e, s, m, group).s;
    if r != s {
      var p := e.owner[m];
      var id := GroupId(if s.gstate == GOP then s.regId else s.transId, 0);
      var g := if group in s.groups then s.groups[group] else Blank(id);
      if group in s.groups {
        OldGroupOpens(e, s, g, p, m);
      } else {
        NewGroupOpens(e, s, id, p, m);
      }
      JoinedGroup(e, s, g, p, m);
      OtherStill(e, s, r.groups);
    }
  }

  /** What does not change in a state but for its table. */
  lemma OtherStill(e: Site, s: State, t: Table)
    requires Inv(e, s)
    ensures SyncedInv(e, s.(groups := t)) && PhaseInv(s.(groups := t))
    ensures forall g :: GroupInv(e, s, g) <==> GroupInv(e, s.(groups := t), g)
  {
    hide GroupsInv, Sound, Posted, InConfOrder, Distinct;
  }

  lemma JoinedGroup(e: Site, s: State, g: Group, p: ProcId, m: Name)
    requires (s.gstate == GOP || s.gstate == GTRANS) && OneMailboxEach(s.sessions)
    requires m in e.owner && e.owner[m] == p && p in s.reg && (p == e.my ==> m in s.sessions)
    requires Open(e, g, p, m) && Posted(e, s.sessions, g) && Placed(s, g) && !Unknown(g.id.memb)
    ensures var memb, mbox := if Here(s, p) then g.id.memb else UNKNOWN, if p == e.my then [s.sessions[m]] else [];
      GroupInv(e, s, Admit(g, memb, p, m, mbox).g)
  {
    hide Open, Posted, Placed, Sound, Admit, GroupInv;
    var memb, mbox := if Here(s, p) then g.id.memb else UNKNOWN, if p == e.my then [s.sessions[m]] else [];
    var h := Admit(g, memb, p, m, mbox).g;
    OpenIs(e, g, p, m);
    AdmitSound(e, g, memb, p, m, mbox);
    AdmitPosted(e, s.sessions, g, memb, p, m, mbox);
    AdmitIs(g, memb, p, m, mbox);
    JoinedPlace(s, g, p, memb, h);
    PlacedIsInv(e, s, h);
  }

  lemma OpenIs(e: Site, g: Group, p: ProcId, m: Name)
    requires Open(e, g, p, m)
    ensures p in g.daemons ==> m !in g.daemons[p].members
  {
    hide Sound;
  }

  /** A daemon entry made by a join is marked as its place in the membership says. */
  lemma JoinedPlace(s: State, g: Group, p: ProcId, memb: MembId, h: Group)
    requires (s.gstate == GOP || s.gstate == GTRANS) && p in s.reg && !Unknown(g.id.memb)
    requires memb == if Here(s, p) then g.id.memb else UNKNOWN
    requires h.daemons.Keys == g.daemons.Keys + {p} && (h.changed <==> g.changed || Unknown(NewDaemon(g, memb, p).memb))
    requires forall q | q in h.daemons ::
      h.daemons[q].memb == if q == p then NewDaemon(g, memb, p).memb else g.daemons[q].memb
    requires Placed(s, g)
    ensures Placed(s, h)
  {
  }

  lemma DismissedInv(e: Site, s: State, m: Name, n: Name, cause: Cause)
    requires IsMember(e, s.groups, m, n) && GroupInv(e, s, s.groups[n]) && OneMailboxEach(s.sessions)
    requires s.gstate == GOP || s.gstate == GTRANS
    ensures Dismissed(e, s, m, n, cause).g.num != 0 ==> GroupInv(e, s, Dismissed(e, s, m, n, cause).g)
  {
    hide Dismissed, Sound, Posted;
    DismissKeeps(e, s, m, n, cause);
  }

  lemma LeaveKeeps(e: Site, s: State, m: Name, group: Name)
    requires Inv(e, s) && (s.gstate == GOP || s.gstate == GTRANS)
    ensures Inv(e, HandleLeave(e, s, m, group).s)
  {
    hide Dismissed, Sound, Posted, InConfOrder, Distinct, Among, OneMailboxEach;
    var r := HandleLeave(e, s, m, group).s;
    forall n | n in r.groups ensures GroupInv(e, r, r.groups[n]) {
      assert GroupInv(e, s, s.groups[n]);
      if n == group && IsMember(e, s.groups, m, n) {
        DismissedInv(e, s, m, n, ByLeave);
      }
    }
  }

  lemma KillKeeps(e: Site, s: State, m: Name)
    requires Inv(e, s) && (s.gstate == GOP || s.gstate == GTRANS)
    ensures Inv(e, HandleKill(e, s, m).s)
  {
    hide Dismissed, Sound, Posted, InConfOrder, Distinct, Among;
    var r := HandleKill(e, s, m).s;
    forall n | n in r.groups ensures GroupInv(e, r, r.groups[n]) {
      assert GroupInv(e, s, s.groups[n]);
      if IsMember(e, s.groups, m, n) {
        DismissedInv(e, s, m, n, ByDisconnect);
      }
    }
  }

  // ---------------------------------------------------------------- sessions

  /** A group is posted as before when the sessions of its local members are as before. */
  lemma SessionsChange(e: Site, s: State, sessions: map<Name, Mailbox>, g: Group)
    requires GroupInv(e, s, g)
    requires forall m | m in LocalMembers(e, g) :: m in s.sessions ==> m in sessions && sessions[m] == s.sessions[m]
    ensures GroupInv(e, s.(sessions := sessions), g)
  {
    hide Sound, AllKnown, Marked, Inside;
    assert Addresses(sessions, LocalMembers(e, g)) == Addresses(s.sessions, LocalMembers(e, g));
  }

  lemma SetStays(e: Site, s: State, sessions: map<Name, Mailbox>)
    requires SyncedInv(e, s)
    ensures SyncedInv(e, s.(sessions := sessions))
  {
    hide InConfOrder, Distinct;
  }

  lemma OpenKeeps(e: Site, s: State, m: Name, mbox: Mailbox)
    requires Inv(e, s) && m !in s.sessions && mbox !in s.sessions.Values
    ensures Inv(e, s.(sessions := s.sessions[m := mbox]))
  {
    hide GroupInv, SyncedInv;
    var sessions := s.sessions[m := mbox];
    SetStays(e, s, sessions);
    forall n | n in s.groups ensures GroupInv(e, s.(sessions := sessions), s.groups[n]) {
      SessionsChange(e, s, sessions, s.groups[n]);
    }
  }

  lemma NotLocal(e: Site, s: State, m: Name, n: Name)
    requires !MemberSomewhere(s, m) && n in s.groups
    ensures m !in LocalMembers(e, s.groups[n])
  {
  }

  lemma CloseKeeps(e: Site, s: State, m: Name)
    requires Inv(e, s) && m in s.sessions && !MemberSomewhere(s, m)
    ensures Inv(e, s.(sessions := s.sessions - {m}))
  {
    hide GroupInv, SyncedInv, MemberSomewhere;
    var sessions := s.sessions - {m};
    SetStays(e, s, sessions);
    forall n | n in s.groups ensures GroupInv(e, s.(sessions := sessions), s.groups[n]) {
      NotLocal(e, s, m, n);
      SessionsChange(e, s, sessions, s.groups[n]);
    }
  }
}
