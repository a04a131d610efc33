/** What the end of an exchange, and an exchange that is interrupted, make of every group and tell its local
    members: the tables of all synced sets put together, and who came with whom. */
module GroupsTold {
  import opened Wire
  import opened Wrappers
  import opened Ordering
  import opened GroupTable
  import opened GroupsCodec
  import opened GroupsWalk
  import opened GroupsRoundTrip
  import opened GroupsAgreement
  import opened SyncedSets
  import opened GroupsState
  import opened GroupsInvariant
  import opened GroupsExchange
  import opened GroupsRun
  import opened GroupsCompletion
  import opened GroupsGather
  import opened GroupsCascade
  import opened GroupsReachable
  import opened GroupsReplicas
  import opened GroupsTwins
  import opened GroupsEffects
  import opened GroupsDuty
  import opened VsSets
  import opened VsMessage

  type Parts = map<ProcId, Table>

  /** The tables that this daemon merges: its own, for its own set, and those that the other sets' leaders sent. */
  ghost function PartsOf(w: World): Parts
    requires w.s.synced != []
  {
    Tables(w.x)[w.s.synced[0] := w.s.groups]
  }

  /** Some set of rs has a daemon p in group n, and p came with membership id `id`: in this daemon's own table p's
      own, and from another set that of the group. */
  ghost predicate Came(parts: Parts, own: ProcId, rs: set<ProcId>, n: Name, p: ProcId, id: MembId) {
    exists r :: r in parts && r in rs && Had(parts[r], n, p)
                && id == if r == own then parts[r][n].daemons[p].memb else parts[r][n].id.memb
  }

  /** Group n changed: it does somewhere, or two sets have it under different membership ids. */
  ghost predicate Disputed(parts: Parts, rs: set<ProcId>, n: Name) {
    exists r, q :: r in parts && r in rs && n in parts[r] && q in parts && q in rs && n in parts[q]
                   && (parts[r][n].changed || parts[r][n].id.memb != parts[q][n].id.memb)
  }

  /** Group g is what the tables of rs have under name n, taken together. */
  ghost predicate PutTogether(parts: Parts, own: ProcId, rs: set<ProcId>, n: Name, g: Group)
    requires own in parts
  {
    && (forall p, m :: Sits(g, p, m) <==> exists r :: r in parts && r in rs && Seated(parts[r], n, p, m))
    && (forall p | p in g.daemons :: Came(parts, own, rs, n, p, g.daemons[p].memb))
    && (g.changed <==> Disputed(parts, rs, n))
    && (!g.changed ==> forall r | r in parts && r in rs && n in parts[r] :: parts[r][n].id == g.id)
    && g.mboxes == if n in parts[own] then parts[own][n].mboxes else []
  }

  // ---------------------------------------------------------------- the merge

  /** Where a daemon's entry comes from. */
  lemma {:induction false} MarksCome(t: Table, fam: Parts, order: seq<ProcId>, n: Name, p: ProcId)
    requires forall r | r in order :: r in fam
    requires n in AbsorbAll(t, fam, order) && p in AbsorbAll(t, fam, order)[n].daemons
    ensures var id := AbsorbAll(t, fam, order)[n].daemons[p].memb;
      || (Had(t, n, p) && id == t[n].daemons[p].memb)
      || (exists r :: r in order && Had(fam[r], n, p) && id == fam[r][n].id.memb)
    decreases |order|
  {
    hide Absorb;
    if order != [] {
      var r := order[0];
      MarksCome(Absorb(t, fam[r]), fam, order[1..], n, p);
      MarkOfOne(t, fam[r], n, p);
      assert order == [r] + order[1..];
    }
  }

  lemma MarkOfOne(t: Table, u: Table, n: Name, p: ProcId)
    ensures Had(Absorb(t, u), n, p) ==>
      || (Had(t, n, p) && Absorb(t, u)[n].daemons[p].memb == t[n].daemons[p].memb)
      || (Had(u, n, p) && Absorb(t, u)[n].daemons[p].memb == u[n].id.memb)
  {
  }

  lemma {:induction false} MailboxesStay(t: Table, fam: Parts, order: seq<ProcId>, n: Name)
    requires (forall r | r in order :: r in fam) && n in AbsorbAll(t, fam, order)
    ensures AbsorbAll(t, fam, order)[n].mboxes == if n in t then t[n].mboxes else []
    decreases |order|
  {
    if order != [] {
      MailboxesStay(Absorb(t, fam[order[0]]), fam, order[1..], n);
    }
  }

  lemma DiffersIff(vs: map<ProcId, Group>, s: ProcId)
    requires s in vs
    ensures Differs(vs, vs[s].id.memb)
      <==> exists r, q :: r in vs && q in vs && (vs[r].changed || vs[r].id.memb != vs[q].id.memb)
  {
    if r :| r in vs && (vs[r].changed || vs[r].id.memb != vs[s].id.memb) {
      assert r in vs && s in vs;
    }
    if r, q :| r in vs && q in vs && (vs[r].changed || vs[r].id.memb != vs[q].id.memb) {
      assert vs[r].changed || vs[r].id.memb != vs[s].id.memb || vs[q].id.memb != vs[s].id.memb;
    }
  }

  lemma VotesDispute(parts: Parts, rs: set<ProcId>, n: Name)
    ensures var vs := Votes(parts, rs, n);
      Disputed(parts, rs, n)
      <==> exists r, q :: r in vs && q in vs && (vs[r].changed || vs[r].id.memb != vs[q].id.memb)
  {
    var vs := Votes(parts, rs, n);
    if r, q :| r in parts && r in rs && n in parts[r] && q in parts && q in rs && n in parts[q]
               && (parts[r][n].changed || parts[r][n].id.memb != parts[q][n].id.memb) {
      assert r in vs && q in vs;
    }
  }

  lemma DisputedIff(parts: Parts, rs: set<ProcId>, n: Name, g: Group)
    requires Family(parts) && GatheredIds(g, Votes(parts, rs, n))
    ensures g.changed <==> Disputed(parts, rs, n)
    ensures !g.changed ==> forall r | r in parts && r in rs && n in parts[r] :: parts[r][n].id == g.id
  {
    hide Family, Votes, Differs, Disputed;
    var vs := Votes(parts, rs, n);
    var s :| s in vs && g.id == vs[s].id;
    DiffersIff(vs, s);
    VotesDispute(parts, rs, n);
    FamilySameIndex(parts, rs, n);
    forall r | r in parts && r in rs && n in parts[r] && !g.changed ensures parts[r][n].id == g.id {
      IsVote(parts, rs, n, r);
      assert !vs[r].changed && !vs[s].changed && vs[r].id.memb == vs[s].id.memb;
    }
  }

  lemma IsVote(parts: Parts, rs: set<ProcId>, n: Name, r: ProcId)
    requires r in parts && r in rs && n in parts[r]
    ensures r in Votes(parts, rs, n) && Votes(parts, rs, n)[r] == parts[r][n]
  {
  }

  lemma SeatsGathered(parts: Parts, rs: set<ProcId>, n: Name, g: Group, p: ProcId, m: Name)
    requires GatheredMembers(g, Votes(parts, rs, n))
    ensures Sits(g, p, m) <==> exists r :: r in parts && r in rs && Seated(parts[r], n, p, m)
  {
    hide HeadCount;
    var vs := Votes(parts, rs, n);
    if Sits(g, p, m) {
      assert Holds(vs, p);
      var r :| r in vs && p in vs[r].daemons;
      assert Seated(parts[r], n, p, m);
    }
    if r :| r in parts && r in rs && Seated(parts[r], n, p, m) {
      assert r in vs && p in vs[r].daemons;
      assert Holds(vs, p);
    }
  }

  lemma GatheredTogether(fam: Parts, parts: Parts, own: ProcId, order: seq<ProcId>, rs: set<ProcId>, n: Name)
    requires own in parts && own !in order && rs == Among(order) + {own} && Family(parts)
    requires fam.Keys == parts.Keys && (forall r | r in order :: r in fam && fam[r] == parts[r])
    requires Gathers(AbsorbAll(parts[own], fam, order), parts, rs)
    ensures var t := AbsorbAll(parts[own], fam, order);
      && (n in t <==> exists r :: r in parts && r in rs && n in parts[r])
      && (n in t ==> PutTogether(parts, own, rs, n, t[n]))
  {
    hide Family, AbsorbAll, GatheredMembers, GatheredIds, Disputed, Sits, Seated, Votes, Came;
    var t := AbsorbAll(parts[own], fam, order);
    VotesIff(parts, rs, n);
    if n in t {
      forall p, m ensures Sits(t[n], p, m) <==> exists r :: r in parts && r in rs && Seated(parts[r], n, p, m) {
        SeatsGathered(parts, rs, n, t[n], p, m);
      }
      DisputedIff(parts, rs, n, t[n]);
      MailboxesStay(parts[own], fam, order, n);
      forall p | p in t[n].daemons ensures Came(parts, own, rs, n, p, t[n].daemons[p].memb) {
        MarkCame(fam, parts, own, order, rs, n, p);
      }
    }
  }

  lemma MarkCame(fam: Parts, parts: Parts, own: ProcId, order: seq<ProcId>, rs: set<ProcId>, n: Name, p: ProcId)
    requires own in parts && own !in order && rs == Among(order) + {own}
    requires fam.Keys == parts.Keys && (forall r | r in order :: r in fam && fam[r] == parts[r])
    requires n in AbsorbAll(parts[own], fam, order) && p in AbsorbAll(parts[own], fam, order)[n].daemons
    ensures Came(parts, own, rs, n, p, AbsorbAll(parts[own], fam, order)[n].daemons[p].memb)
  {
    hide AbsorbAll;
    MarksCome(parts[own], fam, order, n, p);
    assert own in rs && forall r | r in order :: r in rs && r != own;
  }

  lemma VotesIff(parts: Parts, rs: set<ProcId>, n: Name)
    ensures Votes(parts, rs, n) != map[] <==> exists r :: r in parts && r in rs && n in parts[r]
  {
    if r :| r in parts && r in rs && n in parts[r] {
      assert r in Votes(parts, rs, n);
    }
    if Votes(parts, rs, n) != map[] {
      var r :| r in Votes(parts, rs, n);
    }
  }

  /** A daemon's entry in a group is from one set only, so there is one id it came with. */
  lemma CameOnce(parts: Parts, own: ProcId, rs: set<ProcId>, n: Name, p: ProcId, id: MembId, jd: MembId)
    requires Family(parts) && Came(parts, own, rs, n, p, id) && Came(parts, own, rs, n, p, jd)
    ensures id == jd
  {
    hide Ready;
    var r :| r in parts && r in rs && Had(parts[r], n, p)
             && id == if r == own then parts[r][n].daemons[p].memb else parts[r][n].id.memb;
    var q :| q in parts && q in rs && Had(parts[q], n, p)
             && jd == if q == own then parts[q][n].daemons[p].memb else parts[q][n].id.memb;
    assert r == q;
  }

  // ---------------------------------------------------------------- the end of an exchange

  /** A group when the exchange is over. If it changed it settles under the new id; its local members are told of it
      as it was put together, with the membership ids its daemons came with. */
  ghost predicate ConcludedBy(g: Group, h: Group, notes: seq<Note>, regId: MembId) {
    if !g.changed then h == g && notes == []
    else
      && h.id == GroupId(regId, 1) && !h.changed && h.mboxes == g.mboxes && h.num == g.num
      && h.daemons.Keys == g.daemons.Keys
      && (forall p | p in h.daemons :: h.daemons[p].memb == regId && h.daemons[p].members == g.daemons[p].members)
      && notes == if g.mboxes == [] then [] else [Heavyweight(g.(id := GroupId(regId, 1), changed := false), {})]
  }

  lemma ConcludeLaw(g: Group, regId: MembId)
    requires AllKnown(g)
    ensures ConcludedBy(g, Settled(g, regId), if g.changed then Conclude(g, regId).notes else [], regId)
  {
  }

  lemma MergeOver(e: Site, w: World, f: Frame)
    requires Completes(e, w, f)
    ensures w.s.synced != [] && w.s.synced[0] in w.x
    ensures var parts, own, t := PartsOf(w), w.s.synced[0], MergedTable(e, w, f);
      && parts.Keys == w.x.Keys && Family(parts)
      && forall n ::
           && (n in t <==> exists r :: r in parts && n in parts[r])
           && (n in t ==> PutTogether(parts, own, w.x.Keys, n, t[n]) && AllKnown(t[n]))
  {
    hide Family, AbsorbAll, Enters, Recorded, RepsOf, WorldInv, MayArrive, PutTogether, Gathers, TakeLinks, AllKnown;
    var t := EntersMerge(e, w, f, w.s.trans);
    var fam, own, order := Tables(w.x), w.s.synced[0], RepsOf(Recorded(w.s, f).links);
    EntersHere(fam, own, t, w.s.groups, w.s.trans, order);
    RaisedCollects(fam, own, t, w.s.groups, w.s.trans, order);
    MergedTableIs(e, w, f);
    assert fam.Keys == w.x.Keys;
    forall n
      ensures n in MergedTable(e, w, f) <==> exists r :: r in PartsOf(w) && n in PartsOf(w)[r]
      ensures n in MergedTable(e, w, f) ==> PutTogether(PartsOf(w), own, w.x.Keys, n, MergedTable(e, w, f)[n])
      ensures n in MergedTable(e, w, f) ==> AllKnown(MergedTable(e, w, f)[n])
    {
      GatheredTogether(fam, PartsOf(w), own, order, w.x.Keys, n);
      if n in MergedTable(e, w, f) {
        KnownIfGathered(MergedTable(e, w, f), PartsOf(w), w.x.Keys, n);
      }
    }
  }

  lemma KnownIfGathered(t: Table, parts: Parts, rs: set<ProcId>, n: Name)
    requires Gathers(t, parts, rs) && n in t
    ensures AllKnown(t[n])
  {
    hide GatheredMembers, Differs;
    assert GatheredGroup(t[n], Votes(parts, rs, n));
  }

  lemma EntersHere(fam: Parts, a: ProcId, t: Table, u: Table, trans: set<ProcId>, order: seq<ProcId>)
    requires Enters(fam, a, t, u, trans, order)
    ensures a in fam && a !in order && Among(order) + {a} == fam.Keys && forall r | r in order :: r in fam && r != a
  {
    assert a !in Among(order);
  }

  ghost function MergedTable(e: Site, w: World, f: Frame): Table {
    TakeLinks(e, Taken(w.s.groups, w.s.synced, []), Recorded(w.s, f).links).groups
  }

  lemma MergedTableIs(e: Site, w: World, f: Frame)
    requires Completes(e, w, f)
    ensures var order := RepsOf(Recorded(w.s, f).links);
      (forall r | r in order :: r in w.x) && MergedTable(e, w, f) == AbsorbAll(w.s.groups, Tables(w.x), order)
  {
    hide WorldInv, Inv, Bookkept, GoodExchange, CacheInv, ReplicaInv, RepsOf, AbsorbAll, MayArrive, Receive, Filed,
      TakeLinks, TakenInv, Done, Distinct;
    var s := Recorded(w.s, f);
    Exchanging(e, w);
    RecordedKeeps(e, w.s, w.x, w.arrived, f);
    RecordedSafe(e, w.s, f);
    CompletionIsDetected(e, s, w.x, Receive(w.arrived, f));
    GatheringNow(e, s);
    FullMerge(e, s, w.x, Receive(w.arrived, f));
  }

  lemma CompletionIs(e: Site, w: World, f: Frame)
    requires Completes(e, w, f)
    ensures var c, t := Merged(e, Recorded(w.s, f)), MergedTable(e, w, f);
      && c.groups == Finish(t, w.s.regId) && c.gstate == GOP && c.regId == w.s.regId && c.reg == w.s.reg
      && c.sessions == w.s.sessions && !c.held
      && HandleGroups(e, w.s, f)
         == if w.s.gstate == GGATHER then Effect(c, ConcludeNotes(t, w.s.regId), [], {})
            else
              var r := TransInGop(c, w.s.trans, w.s.transId);
              Effect(r.s, GroupsState.Both(ConcludeNotes(t, w.s.regId), r.notes), [], {})
  {
    hide WorldInv, Filed, Finish, TakeLinks, TransInGop, ConcludeNotes, GroupsState.Both, MayArrive, StampedWith;
    FrameIsRelevant(e, w, f);
  }

  lemma FrameIsRelevant(e: Site, w: World, f: Frame)
    requires Completes(e, w, f)
    ensures Relevant(e, w.s, f)
  {
    hide Bookkept, GoodPeer, Inv, CacheInv, ReplicaInv, StampedWith, Recorded;
    Exchanging(e, w);
    assert GoodPeer(e, w.s.reg, w.s.regId, f.sender, w.x[f.sender]);
    FramesAreStamped(e, w.s.reg, w.s.regId, f.sender, w.x[f.sender], f, w.s.regId);
    SenderInConf(e, w, f);
  }

  lemma SenderInConf(e: Site, w: World, f: Frame)
    requires Inv(e, w.s) && GoodExchange(e, w.s.reg, w.s.regId, w.x) && f.sender in w.x
    ensures f.sender in e.conf
  {
    hide GroupsInv, PhaseInv, InConfOrder, Sendable, Ready, Foreign, Built, Frames, Distinct;
    PeerMembers(e, w.s.reg, w.s.regId, w.x, f.sender);
    assert f.sender in Among(e.conf);
  }

  /** The last message of an exchange: every group is what all synced sets have of it, taken together. A group that
      changed settles under the new id, and exactly then its local members are told, once, who came with whom. */
  lemma CompletionTells(e: Site, w: World, f: Frame)
    requires w.s.gstate == GGATHER && Completes(e, w, f)
    ensures w.s.synced != [] && w.s.synced[0] in w.x
    ensures var r, parts := HandleGroups(e, w.s, f), PartsOf(w);
      && r.s.gstate == GOP && r.s.reg == w.s.reg && r.s.regId == w.s.regId && r.s.sessions == w.s.sessions
      && !r.s.held && r.sent == [] && r.selfLeft == {}
      && (forall n :: n in r.s.groups <==> exists q :: q in parts && n in parts[q])
      && (forall n | n !in r.s.groups :: Told(r, n) == [])
      && forall n | n in r.s.groups ::
           exists g :: PutTogether(parts, w.s.synced[0], w.x.Keys, n, g)
                       && ConcludedBy(g, r.s.groups[n], Told(r, n), w.s.regId)
  {
    hide Completes, PutTogether, ConcludedBy, Merged, MergedTable, Settled, Conclude, PartsOf, AllKnown, Family;
    MergeOver(e, w, f);
    CompletionIs(e, w, f);
    var t := MergedTable(e, w, f);
    forall n | n in t ensures ConcludedBy(t[n], Finish(t, w.s.regId)[n], ConcludeNotes(t, w.s.regId)[n], w.s.regId) {
      ConcludeLaw(t[n], w.s.regId);
    }
  }

  /** Group g is concluded and then split. */
  ghost predicate ConcludedAndSplit(g: Group, h: Group, notes: seq<Note>, regId: MembId, trans: set<ProcId>,
                                    transId: MembId) {
    exists mid, first, second ::
      ConcludedBy(g, mid, first, regId) && SplitBy(mid, h, second, trans, transId) && notes == first + second
  }

  /** The same where a transitional membership overtook the last message: the group is concluded and then split. */
  lemma CompletionSplits(e: Site, w: World, f: Frame)
    requires w.s.gstate == GGT && Completes(e, w, f)
    ensures w.s.synced != [] && w.s.synced[0] in w.x
    ensures var r, parts := HandleGroups(e, w.s, f), PartsOf(w);
      && r.s.gstate == GTRANS && r.s.reg == w.s.reg && r.s.regId == w.s.regId && r.s.sessions == w.s.sessions
      && r.s.trans == w.s.trans && r.s.transId == w.s.transId && !r.s.held && r.sent == [] && r.selfLeft == {}
      && (forall n :: n in r.s.groups <==> exists q :: q in parts && n in parts[q])
      && (forall n | n !in r.s.groups :: Told(r, n) == [])
      && forall n | n in r.s.groups ::
           exists g :: PutTogether(parts, w.s.synced[0], w.x.Keys, n, g)
                       && ConcludedAndSplit(g, r.s.groups[n], Told(r, n), w.s.regId, w.s.trans, w.s.transId)
  {
    hide Completes, PutTogether, ConcludedAndSplit, Merged, MergedTable, Settled, Conclude, PartsOf, AllKnown, Family,
      Split;
    MergeOver(e, w, f);
    CompletionIs(e, w, f);
    RegIdKnown(e, w, f);
    var t, r := MergedTable(e, w, f), HandleGroups(e, w.s, f);
    forall n | n in t
      ensures ConcludedAndSplit(t[n], r.s.groups[n], Told(r, n), w.s.regId, w.s.trans, w.s.transId)
    {
      SplitAfter(t[n], w.s.regId, w.s.trans, w.s.transId);
    }
  }

  lemma SplitAfter(g: Group, regId: MembId, trans: set<ProcId>, transId: MembId)
    requires AllKnown(g) && !Unknown(regId)
    ensures var h, first := Settled(g, regId), if g.changed then Conclude(g, regId).notes else [];
      var o := Split(h, trans, transId);
      ConcludedAndSplit(g, o.g, first + o.notes, regId, trans, transId)
  {
    hide Settled, Conclude, Split, AllKnown, ConcludedBy, SplitBy;
    ConcludeLaw(g, regId);
    ConcludedKnown(g, regId);
    SplitLaw(Settled(g, regId), trans, transId);
  }

  lemma RegIdKnown(e: Site, w: World, f: Frame)
    requires Completes(e, w, f)
    ensures !Unknown(w.s.regId)
  {
    SettledExchange(e, w, f);
  }

  lemma ConcludedKnown(g: Group, regId: MembId)
    requires AllKnown(g) && !Unknown(regId)
    ensures forall p | p in Settled(g, regId).daemons :: !Unknown(Settled(g, regId).daemons[p].memb)
  {
  }

  /** A message of the exchange that is not the last changes no group and tells nobody. */
  lemma WaitingTellsNobody(e: Site, s: State, f: Frame)
    requires s.gstate == GGATHER || s.gstate == GGT
    requires Relevant(e, s, f) ==> Recorded(s, f).numDaemons != |s.reg|
    ensures var r := HandleGroups(e, s, f);
      && r.s.groups == s.groups && r.s.gstate == s.gstate && r.s.synced == s.synced
      && r.notes == map[] && r.sent == [] && r.selfLeft == {}
  {
    hide Filed, StampedWith;
  }

  /** A message stamped with another membership, or from outside the configuration, does nothing. */
  lemma StaleIsIgnored(e: Site, s: State, f: Frame)
    requires s.gstate == GGATHER || s.gstate == GGT
    requires |f.body| < 8 || GetMembId(f.body[..8]) != s.regId || f.sender !in e.conf
    ensures HandleGroups(e, s, f) == Quiet(s)
  {
  }

  // ---------------------------------------------------------------- who came with whom

  lemma ToldOnce(e: Site, w: World, f: Frame, n: Name) returns (g: Group)
    requires w.s.gstate == GGATHER && w.s.synced != [] && Completes(e, w, f)
    requires Disputed(PartsOf(w), w.x.Keys, n) && n in w.s.groups && w.s.groups[n].mboxes != []
    ensures var r := HandleGroups(e, w.s, f);
      && n in r.s.groups && Told(r, n) == [Heavyweight(g.(id := GroupId(w.s.regId, 1), changed := false), {})]
      && r.s.groups[n].daemons.Keys == g.daemons.Keys
      && forall p | p in g.daemons :: r.s.groups[n].daemons[p].members == g.daemons[p].members
    ensures w.s.synced[0] in w.x && PutTogether(PartsOf(w), w.s.synced[0], w.x.Keys, n, g)
  {
    hide Completes, Disputed;
    CompletionTells(e, w, f);
    var r, own := HandleGroups(e, w.s, f), w.s.synced[0];
    assert own in PartsOf(w) && n in PartsOf(w)[own];
    assert n in r.s.groups;
    g :| PutTogether(PartsOf(w), w.s.synced[0], w.x.Keys, n, g)
         && ConcludedBy(g, r.s.groups[n], Told(r, n), w.s.regId);
  }

  /** In the message that a changed group gets at the end of an exchange, two members are in one set if and only if
      they are at one daemon or their daemons came with one membership id. */
  lemma CameTogether(e: Site, w: World, f: Frame, n: Name, p: ProcId, m: Name, id: MembId, q: ProcId, k: Name,
                     jd: MembId)
    requires w.s.gstate == GGATHER && w.s.synced != [] && Completes(e, w, f)
    requires Disputed(PartsOf(w), w.x.Keys, n) && n in w.s.groups && w.s.groups[n].mboxes != []
    requires (exists r :: r in PartsOf(w) && Seated(PartsOf(w)[r], n, p, m))
          && (exists r :: r in PartsOf(w) && Seated(PartsOf(w)[r], n, q, k))
    requires Came(PartsOf(w), w.s.synced[0], w.x.Keys, n, p, id) && Came(PartsOf(w), w.s.synced[0], w.x.Keys, n, q, jd)
    ensures var notes := Told(HandleGroups(e, w.s, f), n);
      && |notes| == 1 && notes[0].Heavyweight?
      && ((exists v :: v in AllSets(VsWalk(notes[0].g, e.conf), None) && m in v.members && k in v.members)
          <==> p == q || id == jd)
  {
    hide Completes, Disputed, Came, Inv, VsWalk, AllSets, Configured, Seated, Family;
    var parts := PartsOf(w);
    var g := ToldOnce(e, w, f, n);
    var h := g.(id := GroupId(w.s.regId, 1), changed := false);
    MergeOver(e, w, f);
    CompletedCanBeTold(e, w, f, n);
    assert Sits(g, p, m) && Sits(g, q, k);
    CameOnce(parts, w.s.synced[0], w.x.Keys, n, p, id, g.daemons[p].memb);
    CameOnce(parts, w.s.synced[0], w.x.Keys, n, q, jd, g.daemons[q].memb);
    CameKnown(e, w, f, n, q, jd);
    SameConfigured(HandleGroups(e, w.s, f).s.groups[n], h, e.conf);
    ShareSetIff(h, e.conf, None, p, m, q, k);
  }

  lemma CompletedCanBeTold(e: Site, w: World, f: Frame, n: Name)
    requires w.s.gstate == GGATHER && Completes(e, w, f) && n in HandleGroups(e, w.s, f).s.groups
    ensures Configured(HandleGroups(e, w.s, f).s.groups[n], e.conf)
  {
    hide WorldInv, MayArrive, Recorded, Merged, Inv, Configured;
    CompletedKeeps(e, w, f);
    CompletionIs(e, w, f);
    GroupCanBeTold(e, HandleGroups(e, w.s, f).s, n);
  }

  lemma SameConfigured(g: Group, h: Group, conf: seq<ProcId>)
    requires Configured(g, conf) && h.daemons.Keys == g.daemons.Keys
    requires forall p | p in h.daemons :: h.daemons[p].members == g.daemons[p].members
    ensures Configured(h, conf)
  {
    hide Distinct;
  }

  lemma CameKnown(e: Site, w: World, f: Frame, n: Name, p: ProcId, id: MembId)
    requires w.s.synced != [] && w.s.synced[0] in w.x && Completes(e, w, f) && Family(PartsOf(w))
    requires Came(PartsOf(w), w.s.synced[0], w.x.Keys, n, p, id)
    ensures !Unknown(id)
  {
    hide Completes;
    var parts := PartsOf(w);
    var r :| r in parts && Had(parts[r], n, p)
             && id == if r == w.s.synced[0] then parts[r][n].daemons[p].memb else parts[r][n].id.memb;
    assert Ready(parts[r]);
  }

  // ---------------------------------------------------------------- an interrupted exchange

  /** A group without the daemons outside the transitional membership; if there were some, it changed. */
  ghost predicate ShedBy(g: Group, h: Group, trans: set<ProcId>) {
    && h.id == g.id && h.mboxes == g.mboxes && h.daemons.Keys == g.daemons.Keys * trans
    && (forall p | p in h.daemons :: h.daemons[p] == g.daemons[p])
    && (h.changed <==> g.changed || !(g.daemons.Keys <= trans))
  }

  lemma ShedLaw(e: Site, sessions: map<Name, Mailbox>, g: Group, trans: set<ProcId>)
    requires Sound(e, g) && Posted(e, sessions, g) && e.my in trans
    ensures ShedBy(g, Shed(g, trans), trans)
    ensures forall p, m :: Sits(Shed(g, trans), p, m) <==> Sits(g, p, m) && p in trans
    ensures !(Outside(g, trans) != {} && Shed(g, trans).num == 0) <==> exists p, m :: Sits(g, p, m) && p in trans
  {
    hide HeadCount;
    ShedParts(e, sessions, g, trans);
    var h := Shed(g, trans);
    if h.num == 0 {
      NobodySits(h);
    } else {
      var p, m := SomeoneSits(e, h.(changed := g.changed));
      assert Sits(h, p, m);
    }
  }

  lemma ShedParts(e: Site, sessions: map<Name, Mailbox>, g: Group, trans: set<ProcId>)
    requires Sound(e, g) && Posted(e, sessions, g) && e.my in trans
    ensures var h := Shed(g, trans);
      && ShedBy(g, h, trans) && (h.num == 0 <==> h.daemons == map[])
      && (h.num != 0 ==> Sound(e, h.(changed := g.changed)))
      && (Outside(g, trans) == {} ==> h.num != 0)
  {
    hide HeadCount, Posted;
    SoundNonEmpty(e, g);
    WithoutKeeps(e, sessions, g, Outside(g, trans));
    var h := Shed(g, trans);
    if Outside(g, trans) == {} {
      forall p | p in g.daemons ensures p in trans {
        assert p !in Outside(g, trans);
      }
      assert g.daemons.Keys * trans == g.daemons.Keys;
    } else {
      var p :| p in Outside(g, trans);
      assert !(g.daemons.Keys <= trans);
      assert h.(changed := g.changed) == Without(g, Outside(g, trans));
      assert h.daemons.Keys == g.daemons.Keys * trans;
    }
  }

  lemma CascadedTable(e: Site, w: World)
    requires w.s.gstate == GGT && WorldInv(e, w)
    ensures w.s.synced != [] && w.s.synced[0] in w.x
    ensures var s := w.s; var t := TakeLinks(e, Taken(s.groups, s.synced, []), Usable(s));
      && (forall r | r in RepsOf(Usable(s)) :: r in w.x)
      && t.groups == AbsorbAll(s.groups, Tables(w.x), RepsOf(Usable(s))) && TakenInv(e, s.sessions, t)
  {
    hide GoodExchange, Bookkept, Inv, WorldInv, CacheInv, ReplicaInv, HasAll, Distinct, Usable, TakeLinks, AbsorbAll,
      TakenInv, RepsOf, Spoken, Among;
    var s := w.s;
    var own := Taken(s.groups, s.synced, []);
    Exchanging(e, w);
    InTransit(e, w);
    UsableHaveAll(w.x, w.arrived, s.synced[0], s);
    PeersApart(e, s.reg, s.regId, w.x, s.synced[0], s.synced, Usable(s));
    assert CanTake(w.x, own, Usable(s));
    RepsKnown(w.x, own, Usable(s));
    GatheringNow(e, s);
    TakeCompleteLinks(e, s.reg, s.regId, w.x, s.sessions, own, Usable(s));
  }

  /** The table before the lost daemons are dropped. */
  ghost function HeldTable(e: Site, w: World): Table {
    TakeLinks(e, Taken(w.s.groups, w.s.synced, []), Usable(w.s)).groups
  }

  lemma HeldOver(e: Site, w: World, memb: set<ProcId>, id: MembId)
    requires w.s.gstate == GGT && WorldInv(e, w)
    ensures w.s.synced != [] && w.s.synced[0] in w.x
    ensures var parts, own, t := PartsOf(w), w.s.synced[0], HeldTable(e, w);
      var rs := Held(w.x, w.arrived, own);
      && own in parts && RegInGgt(e, w.s, memb, id).s.groups == ShedAll(t, w.s.trans)
      && forall n ::
           && (n in t <==> exists r :: r in parts && r in rs && n in parts[r])
           && (n in t ==> PutTogether(parts, own, rs, n, t[n])
                          && Sound(e, t[n]) && Posted(e, w.s.sessions, t[n]))
  {
    hide WorldInv, Family, Takes, AbsorbAll, TakenInv, Held, Voices, Among, InConfOrder, ShedAll, RegInGgt, RepsOf,
      Usable, PutTogether, Gathers, TakeLinks;
    var t := CascadeLeaves(e, w, memb, id);
    CascadedTable(e, w);
    var fam, own, order := Tables(w.x), w.s.synced[0], RepsOf(Usable(w.s));
    TakesHere(fam, own, t, w.s.groups, w.s.trans, order);
    TakesGathers(fam, own, t, w.s.groups, w.s.trans, order);
    forall n
      ensures n in HeldTable(e, w) <==>
        exists r :: r in PartsOf(w) && r in Held(w.x, w.arrived, own) && n in PartsOf(w)[r]
      ensures n in HeldTable(e, w) ==>
        PutTogether(PartsOf(w), own, Held(w.x, w.arrived, own), n, HeldTable(e, w)[n])
      ensures n in HeldTable(e, w) ==> Sound(e, HeldTable(e, w)[n]) && Posted(e, w.s.sessions, HeldTable(e, w)[n])
    {
      GatheredTogether(fam, PartsOf(w), own, order, Held(w.x, w.arrived, own), n);
      TakenGroup(e, w.s.sessions, TakeLinks(e, Taken(w.s.groups, w.s.synced, []), Usable(w.s)), n);
    }
  }

  lemma TakenGroup(e: Site, sessions: map<Name, Mailbox>, t: Taken, n: Name)
    requires TakenInv(e, sessions, t)
    ensures n in t.groups ==> Sound(e, t.groups[n]) && Posted(e, sessions, t.groups[n])
  {
    hide Sound, Posted;
  }

  lemma TakesHere(fam: Parts, a: ProcId, t: Table, u: Table, trans: set<ProcId>, order: seq<ProcId>)
    requires Takes(fam, a, t, u, trans, order)
    ensures a in fam && a !in order && forall r | r in order :: r in fam && r != a
  {
  }

  /** A regular membership that interrupts an exchange: every group is what the sets that are held have of it, taken
      together, without the members at daemons that were lost; a group without others is gone. Nobody is told. */
  lemma CascadeTakesOut(e: Site, w: World, memb: set<ProcId>, id: MembId)
    requires w.s.gstate == GGT && WorldInv(e, w)
    ensures w.s.synced != [] && w.s.synced[0] in w.x
    ensures var s, f, parts := w.s, HandleReg(e, w.s, memb, id), PartsOf(w);
      var t, rs := f.s.groups, Held(w.x, w.arrived, w.s.synced[0]);
      && f.s.gstate == GGATHER && f.s.reg == memb && f.s.regId == id && f.s.sessions == s.sessions && f.s.held
      && f.notes == map[] && f.selfLeft == {} && f.s.links == [] && f.s.numMess == 0 && f.s.numDaemons == 0
      && (forall n, p, m :: Seated(t, n, p, m)
           <==> p in s.trans && exists r :: r in parts && r in rs && Seated(parts[r], n, p, m))
      && (forall n :: n in t <==> exists p, m :: Seated(t, n, p, m))
      && forall n | n in t :: exists g :: PutTogether(parts, s.synced[0], rs, n, g) && ShedBy(g, t[n], s.trans)
  {
    hide WorldInv, Held, ShedBy, Sits, Sound, Posted, RegInGgt, HeldTable, PartsOf;
    var s, t := w.s, RegInGgt(e, w.s, memb, id).s.groups;
    HeldOver(e, w, memb, id);
    CascadeState(e, w, memb, id);
    var u := HeldTable(e, w);
    forall n
      ensures n in t ==> n in u && ShedBy(u[n], t[n], s.trans)
      ensures forall p, m :: Seated(t, n, p, m) <==> Seated(u, n, p, m) && p in s.trans
      ensures n in t ==> exists p, m :: Seated(t, n, p, m)
    {
      if n in u {
        ShedLaw(e, s.sessions, u[n], s.trans);
        if p, m :| Sits(u[n], p, m) && p in s.trans {
          assert n in t ==> Seated(t, n, p, m);
        }
      }
    }
    SeatsHeld(PartsOf(w), s.synced[0], Held(w.x, w.arrived, s.synced[0]), u);
  }

  lemma SeatsHeld(parts: Parts, own: ProcId, rs: set<ProcId>, u: Table)
    requires own in parts
    requires forall n ::
      && (n in u <==> exists r :: r in parts && r in rs && n in parts[r])
      && (n in u ==> PutTogether(parts, own, rs, n, u[n]))
    ensures forall n, p, m :: Seated(u, n, p, m) <==> exists r :: r in parts && r in rs && Seated(parts[r], n, p, m)
  {
    hide Came, Disputed, Sits;
    forall n, p, m
      ensures Seated(u, n, p, m) <==> exists r :: r in parts && r in rs && Seated(parts[r], n, p, m)
    {
      if n in u {
        assert PutTogether(parts, own, rs, n, u[n]);
      }
    }
  }

  lemma CascadeState(e: Site, w: World, memb: set<ProcId>, id: MembId)
    requires w.s.gstate == GGT && WorldInv(e, w)
    ensures var f := RegInGgt(e, w.s, memb, id);
      && f.s.gstate == GGATHER && f.s.reg == memb && f.s.regId == id && f.s.sessions == w.s.sessions && f.s.held
      && f.notes == map[] && f.selfLeft == {} && f.s.links == [] && f.s.numMess == 0 && f.s.numDaemons == 0
      && e.my in w.s.trans
  {
    hide GroupsInv, ExchangeInv, ReplicaInv, CacheInv, InConfOrder, Distinct, TakeLinks, Usable, ShedAll, StaysFresh,
      Built, Stamped, Frames, Leads;
  }
}
