/** All daemons of a regular membership at once: what each of them brings makes up one well-formed exchange,
    which every one of them takes part in. */
module GroupsFleet {
  import opened Ordering
  import opened GroupTable
  import opened GroupsBuffers
  import opened GroupsWalk
  import opened GroupsRoundTrip
  import opened GroupsAgreement
  import opened SyncedSets
  import opened GroupsState
  import opened GroupsInvariant
  import opened GroupsExchange
  import opened GroupsRun
  import opened GroupsSafety
  import opened GroupsCascade
  import opened GroupsReplicas
  import opened GroupsTwins

  type Fleet = map<ProcId, World>

  /** The site of daemon p; configuration and private names are everyone's. */
  function At(e: Site, p: ProcId): Site {
    e.(my := p)
  }

  /** Two daemons before a regular membership, as extended virtual synchrony leaves them: they come from
      different transitional memberships, or from one with the same messages handled, and then they have one
      view or were interrupted in one exchange. */
  ghost predicate Paired(w1: World, w2: World) {
    || w1.s.trans !! w2.s.trans
    || (w1.s.gstate == w2.s.gstate == GTRANS && Twins(w1.s, w2.s))
    || (w1.s.gstate == w2.s.gstate == GGT && w1.x == w2.x && w1.arrived == w2.arrived && w1.s.trans == w2.s.trans)
  }

  ghost predicate Expecting(e: Site, fleet: Fleet, memb: set<ProcId>, id: MembId) {
    && fleet.Keys == memb && memb <= Among(e.conf) && !Unknown(id)
    && (forall p | p in fleet ::
          && WorldInv(At(e, p), fleet[p])
          && (fleet[p].s.gstate == GTRANS || fleet[p].s.gstate == GGT) && fleet[p].s.trans <= memb)
    && forall p, q | p in fleet && q in fleet :: Paired(fleet[p], fleet[q])
  }

  /** What daemon p does when the membership is delivered. */
  ghost function Turn(e: Site, fleet: Fleet, memb: set<ProcId>, id: MembId, p: ProcId): Effect
    requires p in fleet && (fleet[p].s.gstate == GTRANS || fleet[p].s.gstate == GGT)
  {
    HandleReg(At(e, p), fleet[p].s, memb, id)
  }

  /** Nobody goes back to operation at once, every leader's table can be sent, and unchanged groups under one
      membership id have one index. */
  ghost predicate AllGather(e: Site, fleet: Fleet, memb: set<ProcId>, id: MembId)
    requires Expecting(e, fleet, memb, id)
  {
    && (forall p | p in fleet ::
          var s := Turn(e, fleet, memb, id, p).s;
          s.gstate == GGATHER && (Leads(At(e, p), s) ==> AllFit(Walk(s.groups, e.conf)) && SyncedFits(s.synced)))
    && forall p, q, n | p in fleet && q in fleet ::
         var t, u := Turn(e, fleet, memb, id, p).s.groups, Turn(e, fleet, memb, id, q).s.groups;
         n in t && n in u && !t[n].changed && !u[n].changed && t[n].id.memb == u[n].id.memb ==> t[n].id == u[n].id
  }

  /** The tables and messages of the leaders. */
  ghost function Formed(e: Site, fleet: Fleet, memb: set<ProcId>, id: MembId): Exchange
    requires Expecting(e, fleet, memb, id)
  {
    map p | p in fleet && Leads(At(e, p), Turn(e, fleet, memb, id, p).s) ::
      var f := Turn(e, fleet, memb, id, p);
      Peer(f.s.synced, f.s.groups, f.sent)
  }

  // ---------------------------------------------------------------- one daemon

  /** What a daemon enters the exchange with. */
  ghost predicate Enters(e: Site, memb: set<ProcId>, id: MembId, f: Effect) {
    && Inv(e, f.s) && f.s.gstate == GGATHER && f.s.reg == memb && f.s.regId == id
    && e.my in f.s.synced && Among(f.s.synced) <= memb
    && (Leads(e, f.s) ==> f.sent == Frames(e, f.s.synced, Built(e, f.s.groups, f.s.synced, id)))
  }

  lemma EntersInv(e: Site, w: World, memb: set<ProcId>, id: MembId)
    requires WorldInv(e, w) && (w.s.gstate == GTRANS || w.s.gstate == GGT)
    requires w.s.trans <= memb <= Among(e.conf) && !Unknown(id)
    ensures Inv(e, HandleReg(e, w.s, memb, id).s)
  {
    hide WorldInv, RegInTrans, RegInGgt, Inv;
    InvOf(e, w);
    if w.s.gstate == GTRANS {
      RegInTransKeeps(e, w.s, memb, id);
    } else {
      RegInGgtKeeps(e, w, memb, id);
    }
  }

  lemma InvOf(e: Site, w: World)
    requires WorldInv(e, w)
    ensures Inv(e, w.s)
  {
    hide Inv;
  }

  lemma RegFields(e: Site, s: State, memb: set<ProcId>, id: MembId)
    requires s.gstate == GTRANS || s.gstate == GGT
    ensures HandleReg(e, s, memb, id).s.reg == memb && HandleReg(e, s, memb, id).s.regId == id
  {
    hide RegInTrans, RegInGgt;
    if s.gstate == GTRANS {
      RegLeaves(e, s, memb, id);
    } else {
      CascadedFields(e, s, memb, id);
    }
  }

  lemma GatheringSet(e: Site, s: State)
    requires Inv(e, s) && s.gstate == GGATHER
    ensures e.my in s.synced && Among(s.synced) <= s.reg
  {
    hide GroupsInv, PhaseInv, InConfOrder, Distinct;
  }

  lemma OneEnters(e: Site, w: World, memb: set<ProcId>, id: MembId)
    requires WorldInv(e, w) && (w.s.gstate == GTRANS || w.s.gstate == GGT)
    requires w.s.trans <= memb <= Among(e.conf) && !Unknown(id) && HandleReg(e, w.s, memb, id).s.gstate == GGATHER
    ensures Enters(e, memb, id, HandleReg(e, w.s, memb, id))
  {
    hide WorldInv, HandleReg, Inv, Frames, Built, Among;
    EntersInv(e, w, memb, id);
    RegFields(e, w.s, memb, id);
    RegSends(e, w, memb, id);
    GatheringSet(e, HandleReg(e, w.s, memb, id).s);
  }

  // ---------------------------------------------------------------- two daemons

  /** Two daemons' synced sets and tables as an exchange begins. */
  ghost predicate SameOrApart(s1: State, s2: State) {
    || (s1.synced == s2.synced && Alike(s1.groups, s2.groups))
    || Among(s1.synced) !! Among(s2.synced)
  }

  lemma WithinTrans(e: Site, w: World, memb: set<ProcId>, id: MembId)
    requires WorldInv(e, w) && (w.s.gstate == GTRANS || w.s.gstate == GGT)
    ensures Among(HandleReg(e, w.s, memb, id).s.synced) <= w.s.trans
  {
    hide WorldInv, RegInTrans, RegInGgt;
    InvOf(e, w);
    if w.s.gstate == GTRANS {
      RegLeaves(e, w.s, memb, id);
      TransSet(e, w.s);
    } else {
      CascadedFields(e, w.s, memb, id);
    }
  }

  lemma TransSet(e: Site, s: State)
    requires Inv(e, s) && s.gstate == GTRANS
    ensures Among(s.synced) == s.trans
  {
    hide GroupsInv, PhaseInv, InConfOrder, Distinct;
  }

  lemma PairEnters(e1: Site, w1: World, e2: Site, w2: World, memb: set<ProcId>, id: MembId)
    requires Neighbours(e1, e2) && WorldInv(e1, w1) && WorldInv(e2, w2) && Paired(w1, w2)
    requires w1.s.gstate == GTRANS || w1.s.gstate == GGT
    requires w2.s.gstate == GTRANS || w2.s.gstate == GGT
    ensures SameOrApart(HandleReg(e1, w1.s, memb, id).s, HandleReg(e2, w2.s, memb, id).s)
  {
    hide WorldInv, RegInTrans, RegInGgt, Twins, Alike, Among, SameView;
    if w1.s.trans !! w2.s.trans {
      WithinTrans(e1, w1, memb, id);
      WithinTrans(e2, w2, memb, id);
    } else if w1.s.gstate == GTRANS {
      var r1, r2 := RegInTrans(e1, w1.s, memb, id).s, RegInTrans(e2, w2.s, memb, id).s;
      RegSame(e1, w1.s, e2, w2.s, memb, id);
      RegView(r1, r2);
      RegParts(r1, r2);
      SameViewIsAlike(r1.groups, r2.groups);
    } else {
      CascadeKeepsSets(e1, w1, e2, w2, memb, id);
    }
  }

  // ---------------------------------------------------------------- all daemons

  lemma AllEnter(e: Site, fleet: Fleet, memb: set<ProcId>, id: MembId)
    requires Expecting(e, fleet, memb, id) && AllGather(e, fleet, memb, id)
    ensures forall p | p in fleet :: Enters(At(e, p), memb, id, Turn(e, fleet, memb, id, p))
    ensures forall p, q | p in fleet && q in fleet ::
      SameOrApart(Turn(e, fleet, memb, id, p).s, Turn(e, fleet, memb, id, q).s)
  {
    hide WorldInv, HandleReg, Enters, SameOrApart, Paired;
    forall p | p in fleet ensures Enters(At(e, p), memb, id, Turn(e, fleet, memb, id, p)) {
      OneEnters(At(e, p), fleet[p], memb, id);
    }
    forall p, q | p in fleet && q in fleet
      ensures SameOrApart(Turn(e, fleet, memb, id, p).s, Turn(e, fleet, memb, id, q).s)
    {
      PairEnters(At(e, p), fleet[p], At(e, q), fleet[q], memb, id);
    }
  }

  /** The effects of all daemons, seen together. */
  ghost predicate Assembled(e: Site, fs: map<ProcId, Effect>, memb: set<ProcId>, id: MembId) {
    && fs.Keys == memb
    && (forall p | p in fs :: Enters(At(e, p), memb, id, fs[p]))
    && (forall p, q | p in fs && q in fs :: SameOrApart(fs[p].s, fs[q].s))
    && (forall p | p in fs && Leads(At(e, p), fs[p].s) ::
          AllFit(Walk(fs[p].s.groups, e.conf)) && SyncedFits(fs[p].s.synced))
    && (forall p, q, n | p in fs && q in fs && n in fs[p].s.groups && n in fs[q].s.groups
                         && !fs[p].s.groups[n].changed && !fs[q].s.groups[n].changed
                         && fs[p].s.groups[n].id.memb == fs[q].s.groups[n].id.memb
          :: fs[p].s.groups[n].id == fs[q].s.groups[n].id)
  }

  ghost function Leaders(e: Site, fs: map<ProcId, Effect>): Exchange {
    map p | p in fs && Leads(At(e, p), fs[p].s) :: Peer(fs[p].s.synced, fs[p].s.groups, fs[p].sent)
  }

  /** A daemon's set has a leader among the daemons, with the same set and a replica of its table. */
  lemma HasLeader(e: Site, fs: map<ProcId, Effect>, memb: set<ProcId>, id: MembId, p: ProcId)
    requires Assembled(e, fs, memb, id) && p in fs
    ensures var s := fs[p].s;
      && s.synced != [] && s.synced[0] in fs && Leads(At(e, s.synced[0]), fs[s.synced[0]].s)
      && fs[s.synced[0]].s.synced == s.synced && Alike(s.groups, fs[s.synced[0]].s.groups)
  {
    hide Inv, Frames, Built, Alike, AllFit, Walk, SyncedFits;
    var s := fs[p].s;
    assert Enters(At(e, p), memb, id, fs[p]);
    var q := s.synced[0];
    assert q in Among(s.synced);
    assert Enters(At(e, q), memb, id, fs[q]);
    assert q in Among(fs[q].s.synced);
    assert SameOrApart(s, fs[q].s);
  }

  lemma LeaderIsGood(e: Site, f: Effect, memb: set<ProcId>, id: MembId)
    requires Enters(e, memb, id, f) && Leads(e, f.s) && AllFit(Walk(f.s.groups, e.conf)) && SyncedFits(f.s.synced)
    ensures GoodPeer(e, memb, id, e.my, Peer(f.s.synced, f.s.groups, f.sent))
  {
    hide Inv, AllFit, Walk, SyncedFits, Frames, Built, GoodPeer;
    LeaderKeepsItsPart(e, f.s, f.sent);
  }

  lemma BuildAnywhere(e: Site, q: ProcId, groups: Table, synced: seq<ProcId>, id: MembId)
    ensures Built(At(e, q), groups, synced, id) == Built(e, groups, synced, id)
  {
    hide Sendable, Walk, Bodies;
  }

  /** Whether a contribution is good is the same for every daemon. */
  lemma PeerElsewhere(e: Site, reg: set<ProcId>, regId: MembId, r: ProcId, p: Peer, q: ProcId)
    requires GoodPeer(e, reg, regId, r, p)
    ensures GoodPeer(At(e, q), reg, regId, r, p)
  {
    hide InConfOrder, Ready, Sendable, Frames, Built, HeadCount;
    assert At(e, q).(my := r) == e.(my := r);
    BuildAnywhere(e, q, p.table, p.synced, regId);
    forall n | n in p.table ensures Sound(At(e, q), p.table[n]) && Inside(p.table[n], Among(p.synced)) {
      assert Sound(e, p.table[n]);
    }
  }

  lemma EachIsGood(e: Site, fs: map<ProcId, Effect>, memb: set<ProcId>, id: MembId, r: ProcId)
    requires Assembled(e, fs, memb, id) && r in Leaders(e, fs)
    ensures GoodPeer(e, memb, id, r, Leaders(e, fs)[r])
  {
    hide Enters, GoodPeer, AllFit, Walk, SyncedFits, SameOrApart;
    LeaderIsGood(At(e, r), fs[r], memb, id);
    PeerElsewhere(At(e, r), memb, id, r, Leaders(e, fs)[r], e.my);
    assert At(At(e, r), e.my) == e;
  }

  lemma EachPairApart(e: Site, fs: map<ProcId, Effect>, memb: set<ProcId>, id: MembId, r: ProcId, q: ProcId)
    requires Assembled(e, fs, memb, id) && r in Leaders(e, fs) && q in Leaders(e, fs) && r != q
    ensures Among(Leaders(e, fs)[r].synced) !! Among(Leaders(e, fs)[q].synced)
  {
    hide Enters, AllFit, Walk, SyncedFits, SameOrApart, Among;
    LeadersApart(fs[r].s, fs[q].s);
  }

  lemma EachSpokenFor(e: Site, fs: map<ProcId, Effect>, memb: set<ProcId>, id: MembId, p: ProcId)
    requires Assembled(e, fs, memb, id) && p in memb
    ensures exists r :: r in Leaders(e, fs) && p in Among(Leaders(e, fs)[r].synced)
  {
    hide Enters, AllFit, Walk, SyncedFits, SameOrApart, Alike, Among;
    HasLeader(e, fs, memb, id, p);
    InOwnSet(At(e, p), memb, id, fs[p]);
    assert fs[p].s.synced[0] in Leaders(e, fs);
  }

  lemma OneIndex(e: Site, fs: map<ProcId, Effect>, memb: set<ProcId>, id: MembId)
    requires Assembled(e, fs, memb, id)
    ensures var x := Leaders(e, fs);
      forall r, q, n | r in x && q in x && n in x[r].table && n in x[q].table
                       && !x[r].table[n].changed && !x[q].table[n].changed
                       && x[r].table[n].id.memb == x[q].table[n].id.memb
        :: x[r].table[n].id == x[q].table[n].id
  {
    hide Enters, AllFit, Walk, SyncedFits, SameOrApart;
  }

  lemma LeadersAreGood(e: Site, fs: map<ProcId, Effect>, memb: set<ProcId>, id: MembId)
    requires Assembled(e, fs, memb, id)
    ensures GoodExchange(e, memb, id, Leaders(e, fs))
  {
    hide Assembled, Leaders, GoodPeer, Among;
    var x := Leaders(e, fs);
    OneIndex(e, fs, memb, id);
    forall r | r in x ensures GoodPeer(e, memb, id, r, x[r]) {
      EachIsGood(e, fs, memb, id, r);
    }
    forall r, q | r in x && q in x && r != q ensures Among(x[r].synced) !! Among(x[q].synced) {
      EachPairApart(e, fs, memb, id, r, q);
    }
    forall p | p in memb ensures exists r :: r in x && p in Among(x[r].synced) {
      EachSpokenFor(e, fs, memb, id, p);
    }
  }

  lemma LeadersApart(s1: State, s2: State)
    requires SameOrApart(s1, s2) && s1.synced != [] && s2.synced != [] && s1.synced[0] != s2.synced[0]
    ensures Among(s1.synced) !! Among(s2.synced)
  {
    hide Alike;
  }

  lemma InOwnSet(e: Site, memb: set<ProcId>, id: MembId, f: Effect)
    requires Enters(e, memb, id, f)
    ensures e.my in Among(f.s.synced)
  {
    hide Inv, Frames, Built;
  }

  lemma EveryoneJoins(e: Site, fs: map<ProcId, Effect>, memb: set<ProcId>, id: MembId, p: ProcId)
    requires Assembled(e, fs, memb, id) && p in fs
    ensures Joins(At(e, p), fs[p], Leaders(e, fs))
  {
    hide GoodExchange, Inv, AllFit, Walk, SyncedFits, Alike, Frames, Built, SameOrApart;
    LeadersAreGood(e, fs, memb, id);
    ExchangeAnywhere(e, memb, id, Leaders(e, fs), p);
    HasLeader(e, fs, memb, id, p);
    assert Enters(At(e, p), memb, id, fs[p]);
  }

  lemma ExchangeAnywhere(e: Site, reg: set<ProcId>, regId: MembId, x: Exchange, p: ProcId)
    requires GoodExchange(e, reg, regId, x)
    ensures GoodExchange(At(e, p), reg, regId, x)
  {
    hide GoodPeer;
    forall r | r in x ensures GoodPeer(At(e, p), reg, regId, r, x[r]) {
      assert GoodPeer(e, reg, regId, r, x[r]);
      PeerElsewhere(e, reg, regId, r, x[r], p);
    }
  }

  ghost function Turns(e: Site, fleet: Fleet, memb: set<ProcId>, id: MembId): map<ProcId, Effect>
    requires Expecting(e, fleet, memb, id)
  {
    map p | p in fleet :: Turn(e, fleet, memb, id, p)
  }

  lemma TurnsAssemble(e: Site, fleet: Fleet, memb: set<ProcId>, id: MembId)
    requires Expecting(e, fleet, memb, id) && AllGather(e, fleet, memb, id)
    ensures Assembled(e, Turns(e, fleet, memb, id), memb, id)
  {
    hide WorldInv, HandleReg, Enters, SameOrApart, Paired, AllFit, Walk, SyncedFits;
    AllEnter(e, fleet, memb, id);
  }

  lemma FormedIs(e: Site, fleet: Fleet, memb: set<ProcId>, id: MembId)
    requires Expecting(e, fleet, memb, id)
    ensures Formed(e, fleet, memb, id) == Leaders(e, Turns(e, fleet, memb, id))
  {
    hide WorldInv, HandleReg, Paired;
  }

  lemma MayBegin(e: Site, w: World, memb: set<ProcId>, id: MembId, x: Exchange)
    requires (w.s.gstate == GTRANS || w.s.gstate == GGT) && w.s.trans <= memb <= Among(e.conf) && !Unknown(id)
    requires Joins(e, HandleReg(e, w.s, memb, id), x)
    ensures Enabled(e, w, Reg(memb, id, x))
  {
    hide Joins, HandleReg;
  }

  /** When a regular membership is delivered to all its daemons, what their leaders send is a well-formed
      exchange, and every daemon takes the membership as the beginning of that one exchange: the assumptions
      about the environment hold of the daemons themselves. */
  lemma MembershipFormsExchange(e: Site, fleet: Fleet, memb: set<ProcId>, id: MembId)
    requires Expecting(e, fleet, memb, id) && AllGather(e, fleet, memb, id)
    ensures var x := Formed(e, fleet, memb, id);
      && GoodExchange(e, memb, id, x)
      && forall p | p in fleet :: Enabled(At(e, p), fleet[p], Reg(memb, id, x))
  {
    hide WorldInv, HandleReg, Assembled, Paired, GoodExchange, Joins, Enabled, AllGather, Formed, Leaders;
    var x := Formed(e, fleet, memb, id);
    TurnsAssemble(e, fleet, memb, id);
    FormedIs(e, fleet, memb, id);
    LeadersAreGood(e, Turns(e, fleet, memb, id), memb, id);
    forall p | p in fleet ensures Enabled(At(e, p), fleet[p], Reg(memb, id, x)) {
      EveryoneJoins(e, Turns(e, fleet, memb, id), memb, id, p);
      MayBegin(At(e, p), fleet[p], memb, id, x);
    }
  }
}
