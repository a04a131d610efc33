/** What two daemons that complete the same exchange have in common, whether or not the next
    transitional membership overtakes the last message at one of them. */
module GroupsReplicas {
  import opened Wire
  import opened Ordering
  import opened GroupTable
  import opened GroupsBuffers
  import opened GroupsWalk
  import opened GroupsRoundTrip
  import opened GroupsAgreement
  import opened SyncedSets
  import opened GroupsState
  import opened GroupsInvariant
  import opened GroupsExchange
  import opened GroupsRun
  import opened GroupsCompletion
  import opened GroupsGather
  import opened GroupsCascade
  import opened GroupsReachable

  // ---------------------------------------------------------------- flagging early

  /** A table with the groups that will lose daemons already flagged, or not yet. */
  ghost function Flag(early: bool, t: Table, trans: set<ProcId>): Table {
    if early then FlagAll(t, trans) else t
  }

  /** u is t with some flags raised. */
  ghost predicate Raised(u: Table, t: Table, trans: set<ProcId>) {
    && u.Keys == t.Keys
    && forall n | n in t ::
         && u[n].daemons == t[n].daemons && u[n].num == t[n].num && u[n].id == t[n].id
         && (!u[n].changed ==> !t[n].changed)
         && (Inside(t[n], trans) ==> u[n] == t[n])
  }

  lemma FlagRaises(early: bool, t: Table, trans: set<ProcId>)
    ensures Raised(Flag(early, t, trans), t, trans)
  {
  }

  lemma RaisedKeepsFamily(fam: map<ProcId, Table>, a: ProcId, u: Table, trans: set<ProcId>)
    requires Family(fam) && a in fam && Raised(u, fam[a], trans) && Ready(u)
    ensures Family(fam[a := u])
  {
    var f: map<ProcId, Table> := fam[a := u];
    hide ReadyGroup;
    forall r, n | r in f && n in f[r]
      ensures n in fam[r] && f[r][n].daemons == fam[r][n].daemons && f[r][n].id == fam[r][n].id
           && (!f[r][n].changed ==> !fam[r][n].changed)
    {
    }
    hide Raised, Ready;
    forall r, n, p | r in f ensures Had(f[r], n, p) ==> Had(fam[r], n, p) {
    }
  }

  // ---------------------------------------------------------------- one group at two daemons

  /** The votes of `base`, some groups flagged early. */
  ghost predicate Loose(vs: map<ProcId, Group>, base: map<ProcId, Group>, trans: set<ProcId>) {
    EvenVotes(vs, base) && forall r | r in vs && Inside(base[r], trans) :: AlikeGroup(vs[r], base[r])
  }

  lemma LooseVotes(fam: map<ProcId, Table>, rs: set<ProcId>, a: ProcId, t: Table, u: Table, trans: set<ProcId>, n: Name)
    requires a in fam && Alike(t, fam[a]) && Raised(u, t, trans)
    ensures Loose(Votes(fam[a := u], rs, n), Votes(fam, rs, n), trans)
  {
    hide AlikeGroup, SameMembers, Raised, Alike, Inside;
    var vs, base := Votes(fam[a := u], rs, n), Votes(fam, rs, n);
    RaisedVote(fam[a], t, u, trans, n);
    assert vs.Keys == base.Keys;
    forall r | r in base
      ensures SameMembers(vs[r], base[r]) && (Inside(base[r], trans) ==> AlikeGroup(vs[r], base[r]))
    {
      if r != a {
        AlikeItself(base[r]);
      }
    }
  }

  lemma RaisedVote(v: Table, t: Table, u: Table, trans: set<ProcId>, n: Name)
    requires Alike(t, v) && Raised(u, t, trans)
    ensures n in u <==> n in v
    ensures n in v ==> SameMembers(u[n], v[n]) && (Inside(v[n], trans) ==> AlikeGroup(u[n], v[n]))
  {
    if n in v {
      assert AlikeGroup(t[n], v[n]);
    }
  }

  lemma AlikeItself(g: Group)
    ensures AlikeGroup(g, g) && SameMembers(g, g)
  {
  }

  lemma SettledKeeps(g: Group, regId: MembId)
    requires forall p | p in g.daemons :: !Unknown(g.daemons[p].memb)
    requires !Unknown(regId)
    ensures var h := Settled(g, regId); SameMembers(h, g) && h.num == g.num && AllKnown(h)
  {
  }

  lemma SplitAlike(g: Group, h: Group, trans: set<ProcId>, transId: MembId)
    requires SameMembers(g, h) && g.num == h.num && AllKnown(g) && AllKnown(h) && !Inside(g, trans)
    ensures Split(g, trans, transId).g.(mboxes := []) == Split(h, trans, transId).g.(mboxes := [])
  {
    var p :| p in g.daemons && p !in trans;
    assert p in Outside(g, trans) && p in Outside(h, trans);
    assert Split(g, trans, transId).g.daemons == Split(h, trans, transId).g.daemons;
  }

  lemma SplitNobody(g: Group, trans: set<ProcId>, transId: MembId)
    requires Inside(g, trans)
    ensures Split(g, trans, transId).g == g
  {
  }

  lemma VotesInside(g: Group, vs: map<ProcId, Group>, base: map<ProcId, Group>, trans: set<ProcId>)
    requires GatheredMembers(g, vs) && Loose(vs, base, trans) && Inside(g, trans)
    ensures forall r | r in base :: Inside(base[r], trans) && AlikeGroup(vs[r], base[r])
  {
    forall r | r in base ensures Inside(base[r], trans) {
      assert SameMembers(vs[r], base[r]);
      forall p | p in base[r].daemons ensures p in trans {
        assert Holds(vs, p);
      }
    }
  }

  lemma EvenChain(vs: map<ProcId, Group>, ws: map<ProcId, Group>, base: map<ProcId, Group>)
    requires EvenVotes(vs, base) && EvenVotes(ws, base)
    ensures EvenVotes(vs, ws)
  {
    forall r | r in vs ensures SameMembers(vs[r], ws[r]) {
      assert SameMembers(vs[r], base[r]) && SameMembers(ws[r], base[r]);
    }
  }

  lemma AlikeChain(vs: map<ProcId, Group>, ws: map<ProcId, Group>, base: map<ProcId, Group>)
    requires vs.Keys == base.Keys == ws.Keys
    requires forall r | r in base :: AlikeGroup(vs[r], base[r]) && AlikeGroup(ws[r], base[r])
    ensures AlikeVotes(vs, ws)
  {
  }

  /** A gathered group after it settled: the same members, all daemons known. */
  lemma SettledOf(g: Group, vs: map<ProcId, Group>, regId: MembId)
    requires GatheredGroup(g, vs) && !Unknown(regId)
    ensures GatheredMembers(g, vs)
    ensures var h := Settled(g, regId); SameMembers(h, g) && h.num == g.num && AllKnown(h)
  {
    hide HeadCount, Holds, Settled, Differs;
    SettledKeeps(g, regId);
  }

  lemma SettledEven(ga: Group, gb: Group, sa: Group, sb: Group, trans: set<ProcId>)
    requires SameMembers(ga, gb) && SameMembers(sa, ga) && SameMembers(sb, gb)
    ensures SameMembers(sa, sb) && (Inside(sa, trans) <==> Inside(ga, trans))
    ensures Inside(sb, trans) <==> Inside(ga, trans)
  {
  }

  lemma LooseAgree(ga: Group, vs: map<ProcId, Group>, gb: Group, ws: map<ProcId, Group>, base: map<ProcId, Group>,
                   regId: MembId, trans: set<ProcId>, transId: MembId)
    requires GatheredGroup(ga, vs) && GatheredGroup(gb, ws) && Loose(vs, base, trans) && Loose(ws, base, trans)
    requires SameIndex(vs) && SameIndex(ws) && !Unknown(regId)
    ensures Split(Settled(ga, regId), trans, transId).g.(mboxes := [])
         == Split(Settled(gb, regId), trans, transId).g.(mboxes := [])
  {
    hide Split, Settled, SameIndex, EvenVotes, GatheredGroup, GatheredMembers, SameMembers, Inside, Loose, AlikeGroup,
      AlikeVotes, AllKnown;
    SettledOf(ga, vs, regId);
    SettledOf(gb, ws, regId);
    LooseKeys(vs, base, trans);
    LooseKeys(ws, base, trans);
    EvenChain(vs, ws, base);
    MembersAlike(ga, vs, gb, ws);
    SettledEven(ga, gb, Settled(ga, regId), Settled(gb, regId), trans);
    SettledEven(ga, gb, ga, gb, trans);
    if Inside(ga, trans) {
      VotesInside(ga, vs, base, trans);
      VotesInside(gb, ws, base, trans);
      AlikeChain(vs, ws, base);
      VotesGroupsAgree(ga, vs, gb, ws, regId);
      SplitNobody(Settled(ga, regId), trans, transId);
      SplitNobody(Settled(gb, regId), trans, transId);
    } else {
      SplitAlike(Settled(ga, regId), Settled(gb, regId), trans, transId);
    }
  }

  lemma LooseKeys(vs: map<ProcId, Group>, base: map<ProcId, Group>, trans: set<ProcId>)
    requires Loose(vs, base, trans)
    ensures vs.Keys == base.Keys && EvenVotes(vs, base)
  {
  }

  // ---------------------------------------------------------------- two tables compared

  /** What clients see of a group that settles and is then split. */
  ghost function Seen(g: Group, regId: MembId, trans: set<ProcId>, transId: MembId): Group {
    Split(Settled(g, regId), trans, transId).g.(mboxes := [])
  }

  /** How a daemon enters the merge: its replica t of the table its set's representative fam[a] sent,
      with some flags raised, and an order in which it takes in the other tables. */
  ghost predicate Enters(fam: map<ProcId, Table>, a: ProcId, t: Table, u: Table, trans: set<ProcId>,
                         order: seq<ProcId>) {
    && a in fam && Alike(t, fam[a]) && Ready(t) && Ready(u) && Raised(u, t, trans)
    && Distinct(order) && Among(order) == fam.Keys - {a} && forall r | r in order :: r in fam
  }

  lemma RaisedCollects(fam: map<ProcId, Table>, a: ProcId, t: Table, u: Table, trans: set<ProcId>, order: seq<ProcId>)
    requires Family(fam) && Enters(fam, a, t, u, trans, order)
    ensures Family(fam[a := u])
    ensures Gathers(AbsorbAll(u, fam, order), fam[a := u], fam.Keys)
  {
    hide Family, Raised, Gathers, Ready, AbsorbAll;
    var f: map<ProcId, Table> := fam[a := u];
    AlikeKeepsFamily(fam, a, t);
    RaisedKeepsFamily(fam[a := t], a, u, trans);
    assert fam[a := t][a := u] == f;
    AlikeSelf(u);
    assert f.Keys == fam.Keys;
    ExchangeCollects(f, a, u, order);
    assert f[a := u] == f;
    assert a !in Among(order);
    OthersOnly(u, fam, a, u, order);
  }

  lemma AlikeSelf(u: Table)
    ensures Alike(u, u)
  {
  }

  lemma GroupAgrees(fam: map<ProcId, Table>, a: ProcId, ta: Table, ua: Table, b: ProcId, tb: Table, ub: Table,
                    ga: Table, gb: Table, regId: MembId, trans: set<ProcId>, transId: MembId, n: Name)
    requires a in fam && Alike(ta, fam[a]) && Raised(ua, ta, trans) && Family(fam[a := ua])
    requires b in fam && Alike(tb, fam[b]) && Raised(ub, tb, trans) && Family(fam[b := ub])
    requires Gathers(ga, fam[a := ua], fam.Keys) && Gathers(gb, fam[b := ub], fam.Keys) && !Unknown(regId)
    ensures n in ga <==> n in gb
    ensures n in ga ==> Seen(ga[n], regId, trans, transId) == Seen(gb[n], regId, trans, transId)
  {
    hide Family, Raised, Alike, Votes, Settled, Split, GatheredGroup, SameIndex, Loose;
    var fa: map<ProcId, Table>, fb: map<ProcId, Table> := fam[a := ua], fam[b := ub];
    assert fa.Keys == fam.Keys && fb.Keys == fam.Keys;
    var vs, ws, base := Votes(fa, fam.Keys, n), Votes(fb, fam.Keys, n), Votes(fam, fam.Keys, n);
    LooseVotes(fam, fam.Keys, a, ta, ua, trans, n);
    LooseVotes(fam, fam.Keys, b, tb, ub, trans, n);
    LooseKeys(vs, base, trans);
    LooseKeys(ws, base, trans);
    FamilySameIndex(fa, fam.Keys, n);
    FamilySameIndex(fb, fam.Keys, n);
    assert vs == map[] <==> ws == map[];
    if n in ga {
      LooseAgree(ga[n], vs, gb[n], ws, base, regId, trans, transId);
    }
  }

  /** Agreement through a cascade: whether the transitional membership was delivered before or after the
      last message of the exchange, at one daemon or at the other, both end with the same groups, daemons,
      members, counts and ids once it is delivered. */
  lemma CascadeAgreement(fam: map<ProcId, Table>, regId: MembId, trans: set<ProcId>, transId: MembId,
                         a: ProcId, ta: Table, ua: Table, ordera: seq<ProcId>,
                         b: ProcId, tb: Table, ub: Table, orderb: seq<ProcId>)
    requires Family(fam) && Enters(fam, a, ta, ua, trans, ordera) && Enters(fam, b, tb, ub, trans, orderb)
    requires !Unknown(regId)
    ensures SameView(SplitAll(Finish(AbsorbAll(ua, fam, ordera), regId), trans, transId),
                     SplitAll(Finish(AbsorbAll(ub, fam, orderb), regId), trans, transId))
  {
    RaisedCollects(fam, a, ta, ua, trans, ordera);
    RaisedCollects(fam, b, tb, ub, trans, orderb);
    var ga, gb := AbsorbAll(ua, fam, ordera), AbsorbAll(ub, fam, orderb);
    hide Enters, Family, Raised, Alike, Gathers, Settled, Split, AbsorbAll, Seen, SplitAll, Finish, SameView;
    EntersParts(fam, a, ta, ua, trans, ordera);
    EntersParts(fam, b, tb, ub, trans, orderb);
    forall n
      ensures n in ga <==> n in gb
      ensures n in ga ==> Seen(ga[n], regId, trans, transId) == Seen(gb[n], regId, trans, transId)
    {
      GroupAgrees(fam, a, ta, ua, b, tb, ub, ga, gb, regId, trans, transId, n);
    }
    SeenAlike(ga, gb, regId, trans, transId);
  }

  lemma EntersParts(fam: map<ProcId, Table>, a: ProcId, t: Table, u: Table, trans: set<ProcId>, order: seq<ProcId>)
    requires Enters(fam, a, t, u, trans, order)
    ensures a in fam && Alike(t, fam[a]) && Raised(u, t, trans)
  {
  }

  lemma SeenAlike(ga: Table, gb: Table, regId: MembId, trans: set<ProcId>, transId: MembId)
    requires forall n :: n in ga <==> n in gb
    requires forall n | n in ga :: Seen(ga[n], regId, trans, transId) == Seen(gb[n], regId, trans, transId)
    ensures SameView(SplitAll(Finish(ga, regId), trans, transId), SplitAll(Finish(gb, regId), trans, transId))
  {
    hide Settled, Split;
  }

  // ---------------------------------------------------------------- two daemons in a run

  /** The message with which the exchange is over for this daemon. */
  ghost predicate Completes(e: Site, w: World, f: Frame) {
    && WorldInv(e, w) && (w.s.gstate == GGATHER || w.s.gstate == GGT)
    && MayArrive(w.x, w.arrived, f) && Recorded(w.s, f).numDaemons == |w.s.reg|
  }

  /** The state after the last message of an exchange and the transitional membership, in either order. */
  ghost function AfterTrans(e: Site, s: State, f: Frame, trans: set<ProcId>, transId: MembId): State {
    match s.gstate
    case GGATHER => TransInGop(Completed(e, s, f), trans, transId).s
    case GGT => Completed(e, s, f)
    case _ => s
  }

  lemma ReplicaOf(e: Site, w: World, trans: set<ProcId>) returns (t: Table)
    requires WorldInv(e, w) && (w.s.gstate == GGATHER || w.s.gstate == GGT)
    requires w.s.gstate == GGT ==> w.s.trans == trans
    ensures w.s.synced != [] && w.s.synced[0] in w.x && Alike(t, w.x[w.s.synced[0]].table)
    ensures Ready(t) && Ready(w.s.groups) && Raised(w.s.groups, t, trans)
    ensures w.s.gstate == GGATHER ==> t == w.s.groups
  {
    hide WorldInv, Inv, ExchangeInv, CacheInv, Alike, Ready, FlagAll;
    Exchanging(e, w);
    ReadyNow(e, w.s);
    t :| Alike(t, w.x[w.s.synced[0]].table) && Ready(t)
         && w.s.groups == (if w.s.gstate == GGATHER then t else FlagAll(t, w.s.trans));
    FlagRaises(w.s.gstate == GGT, t, trans);
  }

  lemma ReadyNow(e: Site, s: State)
    requires Inv(e, s) && (s.gstate == GGATHER || s.gstate == GGT)
    ensures Ready(s.groups)
  {
    GatheringReady(e, s);
  }

  /** A daemon about to complete an exchange enters the merge, and the merge is what it computes. */
  lemma EntersMerge(e: Site, w: World, f: Frame, trans: set<ProcId>) returns (t: Table)
    requires Completes(e, w, f) && (w.s.gstate == GGT ==> w.s.trans == trans)
    ensures var m, fam := Recorded(w.s, f), Tables(w.x);
      && w.s.synced != []
      && Enters(fam, w.s.synced[0], t, w.s.groups, trans, RepsOf(m.links))
      && Merged(e, m).groups == Finish(AbsorbAll(w.s.groups, fam, RepsOf(m.links)), w.s.regId)
      && Family(fam)
    ensures w.s.gstate == GGATHER ==> t == w.s.groups
  {
    hide WorldInv, Inv, Bookkept, GoodExchange, CacheInv, ReplicaInv, Alike, Ready, Raised, Distinct, RepsOf,
      AbsorbAll, Finish, Merged, MayArrive, Receive, Filed, Family;
    Exchanging(e, w);
    t := ReplicaOf(e, w, trans);
    RecordedKeeps(e, w.s, w.x, w.arrived, f);
    RecordedSafe(e, w.s, f);
    MergedKeeps(e, Recorded(w.s, f), w.x, Receive(w.arrived, f));
    GoodExchangeIsFamily(e, w.s.reg, w.s.regId, w.x);
    assert Tables(w.x).Keys == w.x.Keys;
  }

  lemma AfterTransIs(e: Site, s: State, f: Frame, trans: set<ProcId>, transId: MembId)
    requires s.gstate == GGATHER || (s.gstate == GGT && s.trans == trans && s.transId == transId)
    ensures AfterTrans(e, s, f, trans, transId) == TransInGop(Merged(e, Recorded(s, f)), trans, transId).s
    ensures AfterTrans(e, s, f, trans, transId).groups == SplitAll(Merged(e, Recorded(s, f)).groups, trans, transId)
  {
    hide Merged, Split;
  }

  lemma SettledExchange(e: Site, w: World, f: Frame)
    requires Completes(e, w, f)
    ensures !Unknown(w.s.regId)
  {
  }

  /** Two daemons that complete one exchange in GGATHER hold the same view of every group. */
  lemma DaemonsAgree(e1: Site, w1: World, f1: Frame, e2: Site, w2: World, f2: Frame)
    requires Completes(e1, w1, f1) && Completes(e2, w2, f2) && w1.s.gstate == w2.s.gstate == GGATHER
    requires w1.x == w2.x && w1.s.regId == w2.s.regId
    ensures SameView(Completed(e1, w1.s, f1).groups, Completed(e2, w2.s, f2).groups)
  {
    hide Completes, Merged, SameView, Finish, Family, AbsorbAll, Alike, Distinct, Recorded, RepsOf, Ready, Raised;
    var t1 := EntersMerge(e1, w1, f1, {});
    var t2 := EntersMerge(e2, w2, f2, {});
    var fam, m1, m2 := Tables(w1.x), Recorded(w1.s, f1), Recorded(w2.s, f2);
    Agreement(fam, w1.s.regId, w1.s.synced[0], w1.s.groups, RepsOf(m1.links), w2.s.synced[0], w2.s.groups,
              RepsOf(m2.links));
  }

  /** Two daemons that complete one exchange hold the same view of every group once the next
      transitional membership is delivered, even if one of them got it before its last message. */
  lemma DaemonsAgreeThroughCascade(e1: Site, w1: World, f1: Frame, e2: Site, w2: World, f2: Frame,
                                   trans: set<ProcId>, transId: MembId)
    requires Completes(e1, w1, f1) && Completes(e2, w2, f2) && w1.x == w2.x && w1.s.regId == w2.s.regId
    requires w1.s.gstate == GGT ==> w1.s.trans == trans && w1.s.transId == transId
    requires w2.s.gstate == GGT ==> w2.s.trans == trans && w2.s.transId == transId
    ensures SameView(AfterTrans(e1, w1.s, f1, trans, transId).groups, AfterTrans(e2, w2.s, f2, trans, transId).groups)
  {
    hide Merged, SameView, Finish, Family, AbsorbAll, Enters, Recorded, RepsOf, SplitAll, AfterTrans, TransInGop,
      WorldInv, MayArrive;
    var t1 := EntersMerge(e1, w1, f1, trans);
    var t2 := EntersMerge(e2, w2, f2, trans);
    SettledExchange(e1, w1, f1);
    AfterTransIs(e1, w1.s, f1, trans, transId);
    AfterTransIs(e2, w2.s, f2, trans, transId);
    var fam, m1, m2 := Tables(w1.x), Recorded(w1.s, f1), Recorded(w2.s, f2);
    CascadeAgreement(fam, w1.s.regId, trans, transId, w1.s.synced[0], t1, w1.s.groups, RepsOf(m1.links),
                     w2.s.synced[0], t2, w2.s.groups, RepsOf(m2.links));
  }

  /** Once a membership is installed and settled, its daemons have one synced set and one leader. */
  lemma DaemonsAgreeOnSet(e1: Site, s1: State, e2: Site, s2: State)
    requires Inv(e1, s1) && Inv(e2, s2) && s1.gstate == s2.gstate == GOP
    requires e1.conf == e2.conf && s1.reg == s2.reg != {}
    ensures s1.synced == s2.synced
  {
    hide GroupsInv, PhaseInv, InConfOrder, Distinct;
    OrderedIsUnique(e1.conf, s1.synced, s2.synced);
  }

  // ---------------------------------------------------------------- what a leader contributes

  lemma LeaderTable(e: Site, s: State)
    requires Inv(e, s) && s.gstate == GGATHER
    ensures Solid(s.groups, e.conf) && Foreign(e, s.groups, Among(s.synced)) && InConfOrder(e.conf, s.synced)
  {
    hide Posted, HeadCount;
    forall n | n in s.groups
      ensures var g := s.groups[n];
        && Sound(e, g) && Inside(g, Among(s.synced))
        && g.daemons != map[] && forall p | p in g.daemons :: p in e.conf && g.daemons[p].members != {}
    {
      assert GroupInv(e, s, s.groups[n]);
    }
  }

  /** What the leader of a set sends at the start of an exchange meets what the others rely on, provided
      every entry of its table fits a buffer. */
  lemma LeaderKeepsItsPart(e: Site, s: State, sent: seq<Frame>)
    requires Inv(e, s) && s.gstate == GGATHER && Leads(e, s)
    requires sent == Frames(e, s.synced, Built(e, s.groups, s.synced, s.regId))
    requires AllFit(Walk(s.groups, e.conf)) && SyncedFits(s.synced)
    ensures GoodPeer(e, s.reg, s.regId, e.my, Peer(s.synced, s.groups, sent))
  {
    hide GroupsInv, PhaseInv, InConfOrder, Ready, Foreign, Solid, Walk, AllFit, NonEmpty, Frames, Built;
    LeaderTable(e, s);
    ReadyNow(e, s);
    WalkNonEmpty(s.groups, e.conf);
    assert e.(my := e.my) == e;
  }

  lemma RegSends(e: Site, w: World, memb: set<ProcId>, id: MembId)
    requires WorldInv(e, w) && (w.s.gstate == GTRANS || w.s.gstate == GGT)
    ensures var f := HandleReg(e, w.s, memb, id);
      && (f.s.gstate == GGATHER && Leads(e, f.s) ==>
            f.sent == Frames(e, f.s.synced, f.s.bufs) && f.s.bufs == Built(e, f.s.groups, f.s.synced, id))
      && (f.s.gstate == GGATHER && !Leads(e, f.s) ==> f.sent == [])
  {
    hide Inv, Built, Stamped, StaysFresh, TakeLinks, Usable, ShedAll, Frames, Swept, Settle, ExchangeInv, ReplicaInv,
      CacheInv;
    if w.s.gstate == GGT {
      RegInGgtSent(e, w, memb, id);
    } else {
      NoBufs(e, w.s);
      var b := Built(e, Swept(w.s.groups), w.s.synced, id);
      assert b + [] == b;
    }
  }

  lemma NoBufs(e: Site, s: State)
    requires Inv(e, s) && s.gstate == GTRANS
    ensures s.bufs == []
  {
  }
}
