/** What clients see of joins, leaves, disconnects and memberships: who is in which group afterwards, under which
    id and marks, and what a group's local members are told. */
module GroupsEffects {
  import opened Wire
  import opened Ordering
  import opened GroupTable
  import opened GroupsMerge
  import opened GroupsState
  import opened GroupsInvariant

  ghost predicate Sits(g: Group, p: ProcId, m: Name) {
    p in g.daemons && m in g.daemons[p].members
  }

  /** Member m of group n is at daemon p. */
  ghost predicate Seated(t: Table, n: Name, p: ProcId, m: Name) {
    n in t && Sits(t[n], p, m)
  }

  /** What the local members of group n are told. */
  ghost function Told(f: Effect, n: Name): seq<Note> {
    if n in f.notes then f.notes[n] else []
  }

  /** One more, on an int32 counter. */
  predicate NextIndex(i: int32, j: int32) {
    j == if i < 0x7fff_ffff then i + 1 else -0x8000_0000
  }

  /** The same group one step later: its index counts the change, daemons that are still there keep their marks. */
  ghost predicate Moved(g: Group, h: Group) {
    && h.id.memb == g.id.memb && NextIndex(g.id.index, h.id.index)
    && forall q | q in h.daemons && q in g.daemons :: h.daemons[q].memb == g.daemons[q].memb
  }

  // ---------------------------------------------------------------- a member goes

  /** Group h is g without m, and its local members are told so: with sets while the group is changed. */
  ghost predicate WentFrom(g: Group, h: Group, notes: seq<Note>, m: Name, cause: Cause) {
    && Moved(g, h) && h.changed == g.changed && h.daemons.Keys <= g.daemons.Keys
    && notes == if h.mboxes == [] then []
                else if h.changed then [Heavyweight(h, {}), Transitional(h.id)]
                else [Lightweight(h, cause, m)]
  }

  lemma DismissedLaw(e: Site, s: State, m: Name, n: Name, cause: Cause)
    requires Inv(e, s) && IsMember(e, s.groups, m, n)
    ensures var g, o := s.groups[n], Dismissed(e, s, m, n, cause);
      && (forall q, x :: Sits(o.g, q, x) <==> Sits(g, q, x) && x != m)
      && WentFrom(g, o.g, o.notes, m, cause)
      && (o.g.num == 0 <==> forall q, x | Sits(g, q, x) :: x == m)
  {
    hide Posted, HeadCount, Mboxes, SyncedInv, Sits, Remove;
    var g, p := s.groups[n], e.owner[m];
    assert GroupInv(e, s, g);
    DismissKeeps(e, s, m, n, cause);
    var o := Dismissed(e, s, m, n, cause);
    RemoveSits(g, p, m, Mboxes(e, s, m, g));
    SameSits(Remove(g, p, m, Mboxes(e, s, m, g)), o.g);
    forall q, x ensures Sits(o.g, q, x) <==> Sits(g, q, x) && x != m {
      OnlyAtOwner(e, g, m, q);
    }
    if o.g.num == 0 {
      NobodySits(o.g);
      forall q, x | Sits(g, q, x) ensures x == m {
        assert !Sits(o.g, q, x);
      }
    } else {
      var q, x := SomeoneSits(e, o.g);
    }
  }

  lemma RemoveSits(g: Group, p: ProcId, m: Name, mboxes: seq<Mailbox>)
    requires p in g.daemons
    ensures Remove(g, p, m, mboxes).id == g.id
    ensures forall q, x :: Sits(Remove(g, p, m, mboxes), q, x) <==> Sits(g, q, x) && !(q == p && x == m)
  {
    var d := g.daemons[p].members - {m};
    forall q, x ensures Sits(Remove(g, p, m, mboxes), q, x) <==> Sits(g, q, x) && !(q == p && x == m) {
      if q == p && d == {} {
        assert x !in d;
      }
    }
  }

  lemma SameSits(g: Group, h: Group)
    requires h.daemons == g.daemons
    ensures forall q, x :: Sits(h, q, x) <==> Sits(g, q, x)
  {
  }

  lemma NobodySits(g: Group)
    requires g.daemons == map[]
    ensures forall q, x :: !Sits(g, q, x)
  {
  }

  lemma SomeoneSits(e: Site, g: Group) returns (p: ProcId, m: Name)
    requires Sound(e, g)
    ensures Sits(g, p, m)
  {
    hide HeadCount;
    p :| p in g.daemons;
    m :| m in g.daemons[p].members;
  }

  lemma OnlyAtOwner(e: Site, g: Group, m: Name, q: ProcId)
    requires Sound(e, g) && m in e.owner
    ensures Sits(g, q, m) ==> q == e.owner[m]
  {
    hide HeadCount;
  }

  lemma SeatedIsMember(e: Site, s: State, n: Name, p: ProcId, m: Name)
    requires Inv(e, s)
    ensures Seated(s.groups, n, p, m) ==> m in e.owner && e.owner[m] == p && IsMember(e, s.groups, m, n)
    ensures IsMember(e, s.groups, m, n) ==> Seated(s.groups, n, e.owner[m], m)
  {
    hide Posted, HeadCount, SyncedInv;
    if Seated(s.groups, n, p, m) {
      assert GroupInv(e, s, s.groups[n]);
    }
  }

  lemma MemberIff(e: Site, s: State, n: Name, m: Name)
    requires Inv(e, s)
    ensures IsMember(e, s.groups, m, n) <==> exists p :: Seated(s.groups, n, p, m)
  {
    hide Inv;
    if p :| Seated(s.groups, n, p, m) {
      SeatedIsMember(e, s, n, p, m);
    }
    if IsMember(e, s.groups, m, n) {
      assert Seated(s.groups, n, e.owner[m], m);
    }
  }

  /** A leave takes exactly that member out of exactly that group. The group is gone if nobody else is in it;
      otherwise its local members are told. A local leaver is sent a message of its own. */
  lemma LeaveRemoves(e: Site, s: State, m: Name, n: Name, p: ProcId)
    requires Inv(e, s) && (s.gstate == GOP || s.gstate == GTRANS) && Seated(s.groups, n, p, m)
    ensures var f := HandleLeave(e, s, m, n); var t := f.s.groups;
      && f.s == s.(groups := t) && f.sent == []
      && (forall k, q, x :: Seated(t, k, q, x) <==> Seated(s.groups, k, q, x) && !(k == n && x == m))
      && (n in t <==> exists q, x :: Seated(s.groups, n, q, x) && x != m)
      && (n in t ==> WentFrom(s.groups[n], t[n], Told(f, n), m, ByLeave))
      && (forall k | k != n || k !in t :: Told(f, k) == [])
      && (forall k | k != n :: (k in t <==> k in s.groups) && (k in t ==> t[k] == s.groups[k]))
      && f.selfLeft == if p == e.my then {(m, n)} else {}
  {
    hide Inv, Dismissed, WentFrom, IsMember, Sits;
    SeatedIsMember(e, s, n, p, m);
    DismissedLaw(e, s, m, n, ByLeave);
    var t, g := HandleLeave(e, s, m, n).s.groups, s.groups[n];
    if q, x :| Sits(g, q, x) && x != m {
      assert Seated(s.groups, n, q, x);
    }
  }

  lemma LeaveOfOther(e: Site, s: State, m: Name, n: Name)
    requires Inv(e, s) && (s.gstate == GOP || s.gstate == GTRANS) && forall p :: !Seated(s.groups, n, p, m)
    ensures HandleLeave(e, s, m, n) == Quiet(s)
  {
    hide Inv;
    MemberIff(e, s, n, m);
  }

  lemma IsThere(e: Site, t: Table, m: Name, n: Name)
    requires IsMember(e, t, m, n)
    ensures n in t
  {
  }

  /** A disconnect does that in every group at once. */
  lemma KillRemoves(e: Site, s: State, m: Name)
    requires Inv(e, s) && (s.gstate == GOP || s.gstate == GTRANS)
    ensures var f := HandleKill(e, s, m); var t := f.s.groups;
      && f.s == s.(groups := t) && f.sent == [] && f.selfLeft == {}
      && (forall n, q, x :: Seated(t, n, q, x) <==> Seated(s.groups, n, q, x) && x != m)
      && (forall n, p | Seated(s.groups, n, p, m) ::
            && (n in t <==> exists q, x :: Seated(s.groups, n, q, x) && x != m)
            && (n in t ==> WentFrom(s.groups[n], t[n], Told(f, n), m, ByDisconnect))
            && (n !in t ==> Told(f, n) == []))
      && (forall n | forall p :: !Seated(s.groups, n, p, m) ::
            (n in t <==> n in s.groups) && (n in t ==> t[n] == s.groups[n]) && Told(f, n) == [])
  {
    hide Inv, Dismissed, WentFrom, IsMember, Sits;
    var f := HandleKill(e, s, m);
    forall n
      ensures forall q, x :: Seated(f.s.groups, n, q, x) <==> Seated(s.groups, n, q, x) && x != m
      ensures (exists p :: Seated(s.groups, n, p, m)) ==>
        && (n in f.s.groups <==> exists q, x :: Seated(s.groups, n, q, x) && x != m)
        && (n in f.s.groups ==> WentFrom(s.groups[n], f.s.groups[n], Told(f, n), m, ByDisconnect))
        && (n !in f.s.groups ==> Told(f, n) == [])
      ensures (forall p :: !Seated(s.groups, n, p, m)) ==>
        && (n in f.s.groups <==> n in s.groups) && (n in f.s.groups ==> f.s.groups[n] == s.groups[n])
        && Told(f, n) == []
    {
      MemberIff(e, s, n, m);
      if IsMember(e, s.groups, m, n) {
        IsThere(e, s.groups, m, n);
        DismissedLaw(e, s, m, n, ByDisconnect);
        if q, x :| Sits(s.groups[n], q, x) && x != m {
          assert Seated(s.groups, n, q, x);
        }
      } else {
        forall q, x ensures Seated(f.s.groups, n, q, x) <==> Seated(s.groups, n, q, x) && x != m {
          assert !Seated(s.groups, n, q, m);
        }
      }
    }
  }

  // ---------------------------------------------------------------- a member comes

  /** The group that m joined at p, `g` before if there was one, and what its local members are told. */
  ghost predicate CameTo(e: Site, s: State, g: Group, h: Group, notes: seq<Note>, p: ProcId, m: Name) {
    && Moved(g, h) && p in h.daemons && h.daemons.Keys == g.daemons.Keys + {p}
    && (p !in g.daemons ==> if s.gstate == GOP || p in s.trans then h.daemons[p].memb == h.id.memb
                            else Unknown(h.daemons[p].memb))
    && (h.changed <==> g.changed || Unknown(h.daemons[p].memb))
    && h.mboxes == (if p == e.my && m in s.sessions then g.mboxes + [s.sessions[m]] else g.mboxes)
    && notes == if h.mboxes == [] then []
                else if h.changed then [Heavyweight(h, {m}), Transitional(h.id)]
                else [Lightweight(h, ByJoin, m)]
  }

  /** The group before its first member: without daemons, under the membership's id. */
  ghost predicate Fresh(s: State, g: Group) {
    && g.daemons == map[] && g.mboxes == [] && !g.changed
    && g.id == GroupId(if s.gstate == GOP then s.regId else s.transId, 0)
  }

  /** A join enters exactly that member into exactly that group, which is made if it is new. */
  lemma JoinSeats(e: Site, s: State, m: Name, n: Name, p: ProcId)
    requires Inv(e, s) && (s.gstate == GOP || s.gstate == GTRANS) && !Seated(s.groups, n, p, m)
    requires m in e.owner && e.owner[m] == p && (p == e.my ==> m in s.sessions)
    ensures var f := HandleJoin(e, s, m, n); var t := f.s.groups;
      && f.s == s.(groups := t) && f.sent == [] && f.selfLeft == {} && n in t
      && (forall k, q, x :: Seated(t, k, q, x) <==> Seated(s.groups, k, q, x) || (k == n && q == p && x == m))
      && (exists g :: (if n in s.groups then g == s.groups[n] else Fresh(s, g))
                      && CameTo(e, s, g, t[n], Told(f, n), p, m))
      && (forall k | k != n :: (k in t <==> k in s.groups) && (k in t ==> t[k] == s.groups[k]) && Told(f, k) == [])
  {
    hide Inv, Admit, CameTo, Sits, Moved, Fresh;
    var f := HandleJoin(e, s, m, n);
    AlreadyThere(s.groups, n, p, m);
    var g := JoinedLaw(e, s, m, n, p);
    if n !in s.groups {
      FreshIsEmpty(s, g);
    }
    SeatsPut(s.groups, n, g, f.s.groups[n], p, m);
  }

  lemma JoinedLaw(e: Site, s: State, m: Name, n: Name, p: ProcId) returns (g: Group)
    requires s.gstate == GOP || s.gstate == GTRANS
    requires !(n in s.groups && p in s.groups[n].daemons && m in s.groups[n].daemons[p].members)
    requires m in e.owner && e.owner[m] == p && (p == e.my ==> m in s.sessions)
    ensures if n in s.groups then g == s.groups[n] else Fresh(s, g)
    ensures var f := HandleJoin(e, s, m, n);
      && n in f.s.groups && f == Effect(s.(groups := s.groups[n := f.s.groups[n]]), map[n := Told(f, n)], [], {})
      && CameTo(e, s, g, f.s.groups[n], Told(f, n), p, m)
      && forall q, x :: Sits(f.s.groups[n], q, x) <==> Sits(g, q, x) || (q == p && x == m)
  {
    hide Admit, CameTo, Sits;
    g := if n in s.groups then s.groups[n] else Blank(GroupId(if s.gstate == GOP then s.regId else s.transId, 0));
    AdmitLaw(e, s, g, p, m);
    var o := Admit(g, if Here(s, p) then g.id.memb else UNKNOWN, p, m, if p == e.my then [s.sessions[m]] else []);
    var f := HandleJoin(e, s, m, n);
    assert f == Effect(s.(groups := s.groups[n := o.g]), map[n := o.notes], [], {});
    forall q, x ensures Sits(f.s.groups[n], q, x) <==> Sits(g, q, x) || (q == p && x == m) {
      assert Sits(o.g, q, x) <==> Sits(g, q, x) || (q == p && x == m);
    }
  }

  lemma FreshIsEmpty(s: State, g: Group)
    requires Fresh(s, g)
    ensures forall q, x :: !Sits(g, q, x)
  {
  }

  lemma SeatsPut(t: Table, n: Name, g: Group, h: Group, p: ProcId, m: Name)
    requires if n in t then g == t[n] else forall q, x :: !Sits(g, q, x)
    requires forall q, x :: Sits(h, q, x) <==> Sits(g, q, x) || (q == p && x == m)
    ensures forall k, q, x :: Seated(t[n := h], k, q, x) <==> Seated(t, k, q, x) || (k == n && q == p && x == m)
  {
    hide Sits;
    forall k, q, x
      ensures Seated(t[n := h], k, q, x) <==> Seated(t, k, q, x) || (k == n && q == p && x == m)
    {
      if k == n {
        assert Sits(h, q, x) <==> Sits(g, q, x) || (q == p && x == m);
      }
    }
  }

  lemma AlreadyThere(t: Table, n: Name, p: ProcId, m: Name)
    ensures Seated(t, n, p, m) <==> n in t && p in t[n].daemons && m in t[n].daemons[p].members
  {
  }

  lemma AdmitLaw(e: Site, s: State, g: Group, p: ProcId, m: Name)
    requires p == e.my ==> m in s.sessions
    ensures var memb, mbox := if Here(s, p) then g.id.memb else UNKNOWN, if p == e.my then [s.sessions[m]] else [];
      var o := Admit(g, memb, p, m, mbox);
      && CameTo(e, s, g, o.g, o.notes, p, m)
      && forall q, x :: Sits(o.g, q, x) <==> Sits(g, q, x) || (q == p && x == m)
  {
    var memb, mbox := if Here(s, p) then g.id.memb else UNKNOWN, if p == e.my then [s.sessions[m]] else [];
    var o := Admit(g, memb, p, m, mbox);
    AdmitIs(g, memb, p, m, mbox);
    NewDaemonIs(g, memb, p);
    assert g.mboxes + [] == g.mboxes;
    hide Admit, NewDaemon;
    AdmitTold(g, memb, p, m, mbox);
    forall q, x ensures Sits(o.g, q, x) <==> Sits(g, q, x) || (q == p && x == m) {
    }
  }

  lemma AdmitTold(g: Group, memb: MembId, p: ProcId, m: Name, mbox: seq<Mailbox>)
    ensures var o := Admit(g, memb, p, m, mbox);
      && NextIndex(g.id.index, o.g.id.index) && o.g.mboxes == g.mboxes + mbox
      && o.notes == if o.g.mboxes == [] then []
                    else if o.g.changed then [Heavyweight(o.g, {m}), Transitional(o.g.id)]
                    else [Lightweight(o.g, ByJoin, m)]
  {
  }

  /** Nobody enters twice, nor by an unknown name. */
  lemma JoinOfMember(e: Site, s: State, m: Name, n: Name, p: ProcId)
    requires Inv(e, s) && (s.gstate == GOP || s.gstate == GTRANS)
    requires m !in e.owner || Seated(s.groups, n, p, m)
    ensures HandleJoin(e, s, m, n) == Quiet(s)
  {
    hide Inv, Admit;
    SeatedIsMember(e, s, n, p, m);
  }

  // ---------------------------------------------------------------- memberships

  /** Nobody enters or leaves a group. */
  ghost predicate SameSeats(t: Table, u: Table) {
    forall n, p, m :: Seated(t, n, p, m) <==> Seated(u, n, p, m)
  }

  /** Group g when `trans` is delivered in operation: untouched if all its daemons are in; otherwise under a new id,
      daemons outside without a membership id and the others under the new one. */
  ghost predicate SplitBy(g: Group, h: Group, notes: seq<Note>, trans: set<ProcId>, transId: MembId) {
    if g.daemons.Keys <= trans then h == g && notes == []
    else
      && h.id == GroupId(transId, 1) && h.changed && h.daemons.Keys == g.daemons.Keys && h.mboxes == g.mboxes
      && (forall p | p in h.daemons ::
            if p in trans then h.daemons[p].memb == transId else Unknown(h.daemons[p].memb))
      && notes == if g.mboxes == [] then [] else [Transitional(g.id)]
  }

  /** A transitional membership in operation marks who was lost, takes nobody out, and tells a group that lost
      somebody so, under the id it had. */
  lemma TransSplits(e: Site, s: State, trans: set<ProcId>, transId: MembId)
    requires Inv(e, s) && s.gstate == GOP && !Unknown(transId)
    ensures var f := HandleTrans(s, trans, transId); var t := f.s.groups;
      && f.s == s.(gstate := GTRANS, trans := trans, transId := transId, groups := t, synced := f.s.synced)
      && Among(f.s.synced) == Among(s.synced) * trans && f.sent == [] && f.selfLeft == {}
      && t.Keys == s.groups.Keys && SameSeats(t, s.groups)
      && forall n | n in t :: SplitBy(s.groups[n], t[n], Told(f, n), trans, transId)
  {
    hide Inv, Split, SplitBy, SameSeats, Among, Select;
    var f := HandleTrans(s, trans, transId);
    forall n | n in s.groups
      ensures SplitBy(s.groups[n], f.s.groups[n], Told(f, n), trans, transId)
      ensures f.s.groups[n].daemons.Keys == s.groups[n].daemons.Keys
      ensures forall p | p in s.groups[n].daemons :: f.s.groups[n].daemons[p].members == s.groups[n].daemons[p].members
    {
      KnownInGop(e, s, n);
      SplitLaw(s.groups[n], trans, transId);
    }
    SameSeatsIf(f.s.groups, s.groups);
    SelectedSet(s.synced, trans);
  }

  lemma KnownInGop(e: Site, s: State, n: Name)
    requires Inv(e, s) && s.gstate == GOP && n in s.groups
    ensures forall p | p in s.groups[n].daemons :: !Unknown(s.groups[n].daemons[p].memb)
  {
    hide Posted, HeadCount, SyncedInv;
    assert GroupInv(e, s, s.groups[n]);
  }

  lemma SelectedSet(a: seq<ProcId>, b: set<ProcId>)
    ensures Among(Select(a, b)) == Among(a) * b
  {
  }

  lemma SameSeatsIf(t: Table, u: Table)
    requires t.Keys == u.Keys
    requires forall n | n in u :: t[n].daemons.Keys == u[n].daemons.Keys
    requires forall n, p | n in u && p in u[n].daemons :: t[n].daemons[p].members == u[n].daemons[p].members
    ensures SameSeats(t, u)
  {
  }

  lemma SplitLaw(g: Group, trans: set<ProcId>, transId: MembId)
    requires forall p | p in g.daemons :: !Unknown(g.daemons[p].memb)
    ensures var o := Split(g, trans, transId);
      && SplitBy(g, o.g, o.notes, trans, transId)
      && o.g.daemons.Keys == g.daemons.Keys && o.g.mboxes == g.mboxes
      && forall p | p in g.daemons :: o.g.daemons[p].members == g.daemons[p].members
  {
    if g.daemons.Keys <= trans {
      assert Outside(g, trans) == {};
    } else {
      var p :| p in g.daemons && p !in trans;
      assert p in Outside(g, trans);
    }
  }

  /** A transitional membership during an exchange only flags the groups that will lose daemons. */
  lemma TransFlags(e: Site, s: State, trans: set<ProcId>, transId: MembId)
    requires Inv(e, s) && s.gstate == GGATHER
    ensures var f := HandleTrans(s, trans, transId); var t := f.s.groups;
      && f.s == s.(gstate := GGT, trans := trans, transId := transId, groups := t)
      && f.notes == map[] && f.sent == [] && f.selfLeft == {} && t.Keys == s.groups.Keys
      && forall n | n in t ::
           var g := s.groups[n]; t[n] == g.(changed := g.changed || !(g.daemons.Keys <= trans))
  {
    hide Inv, FlagLosing;
    forall n | n in s.groups
      ensures var g := s.groups[n]; FlagLosing(g, trans) == g.(changed := g.changed || !(g.daemons.Keys <= trans))
    {
      FlagLaw(s.groups[n], trans);
    }
  }

  lemma FlagLaw(g: Group, trans: set<ProcId>)
    ensures FlagLosing(g, trans) == g.(changed := g.changed || !(g.daemons.Keys <= trans))
  {
    if p :| p in g.daemons && p !in trans {
      assert p in Outside(g, trans);
    } else {
      assert Outside(g, trans) == {};
    }
  }

  /** A group when a membership that only lost daemons is installed: a changed one settles under the new id, and its
      local members are told who is in it. */
  ghost predicate SettledBy(g: Group, h: Group, notes: seq<Note>, id: MembId) {
    if !g.changed then h == g && notes == []
    else
      && h.id == GroupId(id, 1) && !h.changed && h.mboxes == g.mboxes
      && (forall p | p in h.daemons :: h.daemons[p].memb == id)
      && notes == if h.mboxes == [] then [] else [Heavyweight(h, {})]
  }

  /** A group when an exchange begins: as it was, without the daemons that were lost. */
  ghost predicate SweptTo(g: Group, h: Group) {
    && h.id == g.id && h.changed == g.changed && h.mboxes == g.mboxes && h.daemons.Keys <= g.daemons.Keys
    && forall p | p in h.daemons :: h.daemons[p].memb == g.daemons[p].memb
  }

  /** A regular membership in GTRANS takes out exactly the members at daemons that were lost, and the groups that had
      no others. If nobody is new it settles the changed groups; otherwise an exchange begins and nobody is told. */
  lemma RegTakesOut(e: Site, s: State, memb: set<ProcId>, id: MembId)
    requires Inv(e, s) && s.gstate == GTRANS && s.trans <= memb && !Unknown(id)
    ensures var f := HandleReg(e, s, memb, id); var t := f.s.groups;
      && (forall n, p, m :: Seated(t, n, p, m) <==> Seated(s.groups, n, p, m) && p in s.trans)
      && (forall n :: n in t <==> exists p, m :: Seated(s.groups, n, p, m) && p in s.trans)
      && f.s.reg == memb && f.s.regId == id && f.s.synced == s.synced && f.selfLeft == {}
      && f.s.sessions == s.sessions
      && (if memb == s.trans then
            && f.s == s.(gstate := GOP, reg := memb, regId := id, groups := t) && f.sent == []
            && (forall n | n in t :: SettledBy(s.groups[n], t[n], Told(f, n), id))
            && (forall n | n !in t :: Told(f, n) == [])
          else
            && f.s.gstate == GGATHER && f.s.held && f.notes == map[]
            && forall n | n in t :: SweptTo(s.groups[n], t[n]))
  {
    hide Inv, Swept, SettleAll, SettleNotes, SettledBy, SweptTo, Seated, RegInTrans, AllKnown;
    var t := Swept(s.groups);
    SubsetOfSameSize(s.trans, memb);
    MyInTrans(e, s);
    SweepsAll(e, s);
    if memb == s.trans {
      SettlesAll(s.groups, t, id);
      SettleKeys(t, id);
      NobodyNew(e, s, memb, id);
    } else {
      SomebodyNew(e, s, memb, id);
    }
  }

  lemma NobodyNew(e: Site, s: State, memb: set<ProcId>, id: MembId)
    requires |s.trans| == |memb|
    ensures var t := Swept(s.groups);
      RegInTrans(e, s, memb, id)
      == Effect(s.(gstate := GOP, reg := memb, regId := id, groups := SettleAll(t, id)), SettleNotes(t, id), [], {})
  {
    hide Swept, SettleAll, SettleNotes, Built, Frames;
  }

  lemma SomebodyNew(e: Site, s: State, memb: set<ProcId>, id: MembId)
    requires |s.trans| != |memb|
    ensures var f := RegInTrans(e, s, memb, id);
      && f.s.groups == Swept(s.groups) && f.s.reg == memb && f.s.regId == id && f.s.synced == s.synced
      && f.s.sessions == s.sessions && f.s.gstate == GGATHER && f.s.held && f.notes == map[] && f.selfLeft == {}
  {
    hide Swept, SettleAll, SettleNotes, Built, Frames;
  }

  lemma SettleKeys(t: Table, id: MembId)
    ensures SettleAll(t, id).Keys == t.Keys && SettleNotes(t, id).Keys == t.Keys
  {
    hide Settle;
  }

  lemma SweepsAll(e: Site, s: State)
    requires Inv(e, s) && s.gstate == GTRANS && e.my in s.trans
    ensures var t := Swept(s.groups);
      && t.Keys <= s.groups.Keys
      && (forall n, p, m :: Seated(t, n, p, m) <==> Seated(s.groups, n, p, m) && p in s.trans)
      && (forall n :: n in t <==> exists p, m :: Seated(s.groups, n, p, m) && p in s.trans)
      && forall n | n in t ::
           SweptTo(s.groups[n], t[n]) && AllKnown(t[n]) && (!s.groups[n].changed ==> t[n] == s.groups[n])
  {
    hide Inv, Sits, SweptTo, AllKnown, Sweep;
    var t := Swept(s.groups);
    forall n
      ensures forall p, m :: Seated(t, n, p, m) <==> Seated(s.groups, n, p, m) && p in s.trans
      ensures n in t <==> exists p, m :: Seated(s.groups, n, p, m) && p in s.trans
      ensures n in t ==> SweptTo(s.groups[n], t[n]) && AllKnown(t[n]) && (!s.groups[n].changed ==> t[n] == s.groups[n])
    {
      if n in s.groups {
        SweepLaw(e, s, n);
        if p, m :| Sits(s.groups[n], p, m) && p in s.trans {
          assert Seated(s.groups, n, p, m);
        }
      }
    }
  }

  lemma SettlesAll(u: Table, t: Table, id: MembId)
    requires t.Keys <= u.Keys
    requires forall n | n in t :: SweptTo(u[n], t[n]) && AllKnown(t[n]) && (!u[n].changed ==> t[n] == u[n])
    ensures var r := SettleAll(t, id);
      && (forall n, p, m :: Seated(r, n, p, m) <==> Seated(t, n, p, m))
      && forall n | n in r :: SettledBy(u[n], r[n], SettleNotes(t, id)[n], id)
  {
    hide Settle, AllKnown, SettledBy;
    var r := SettleAll(t, id);
    forall n | n in t
      ensures forall p, m :: Sits(r[n], p, m) <==> Sits(t[n], p, m)
      ensures SettledBy(u[n], r[n], SettleNotes(t, id)[n], id)
    {
      if u[n].changed {
        SettleLaw(u[n], t[n], id);
      } else {
        Unsettled(u[n], id);
      }
    }
  }

  lemma Unsettled(g: Group, id: MembId)
    requires !g.changed
    ensures SettledBy(g, g, [], id)
  {
  }

  lemma MyInTrans(e: Site, s: State)
    requires Inv(e, s) && s.gstate == GTRANS
    ensures e.my in s.trans
  {
    hide GroupsInv, PhaseInv;
    assert e.my in Among(s.synced);
  }

  lemma SweepLaw(e: Site, s: State, n: Name)
    requires Inv(e, s) && s.gstate == GTRANS && n in s.groups && e.my in s.trans
    ensures var g := s.groups[n]; var h := Sweep(g);
      && (forall p, m :: Sits(h, p, m) <==> Sits(g, p, m) && p in s.trans)
      && (!(g.changed && h.num == 0) <==> exists p, m :: Sits(g, p, m) && p in s.trans)
      && SweptTo(g, h) && AllKnown(h) && (!g.changed ==> h == g)
  {
    hide HeadCount, SyncedInv, Posted;
    var g := s.groups[n];
    assert GroupInv(e, s, g);
    SweepParts(e, s, g);
    hide Sweep, SweptTo;
    if !(g.changed && Sweep(g).num == 0) {
      var p, m := SomeoneSits(e, Sweep(g));
    } else {
      NobodySits(Sweep(g));
    }
  }

  lemma SweepParts(e: Site, s: State, g: Group)
    requires GroupInv(e, s, g) && s.gstate == GTRANS && e.my in s.trans
    ensures var h := Sweep(g);
      && (forall p, m :: Sits(h, p, m) <==> Sits(g, p, m) && p in s.trans)
      && (h.num != 0 ==> Sound(e, h)) && (h.num == 0 <==> h.daemons == map[])
      && SweptTo(g, h) && AllKnown(h) && (!g.changed ==> h == g && h.num != 0)
  {
    hide HeadCount, Posted;
    SoundNonEmpty(e, g);
    MyKnown(e, s, g);
    WithoutKeeps(e, s.sessions, g, Partitioned(g));
    if g.changed {
      assert forall p :: p in Sweep(g).daemons <==> p in g.daemons && p in s.trans;
    }
  }

  lemma MyKnown(e: Site, s: State, g: Group)
    requires GroupInv(e, s, g) && s.gstate == GTRANS && e.my in s.trans
    ensures e.my !in Partitioned(g)
  {
    hide Sound, Posted;
  }

  lemma SettleLaw(u: Group, g: Group, id: MembId)
    requires AllKnown(g) && g.changed && SweptTo(u, g)
    ensures var o := Settle(g, id);
      && SettledBy(u, o.g, o.notes, id)
      && forall p, m :: Sits(o.g, p, m) <==> Sits(g, p, m)
  {
  }
}
