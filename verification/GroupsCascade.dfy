/** A regular membership arriving while an exchange is still under way: the sets heard completely are
    taken in, daemons that left are dropped, and buffers still marked fresh are what a new build would
    give. */
module GroupsCascade {
  import opened Wire
  import opened Ordering
  import opened GroupTable
  import opened GroupsCodec
  import opened GroupsBuffers
  import opened GroupsWalk
  import opened GroupsRoundTrip
  import opened GroupsAgreement
  import opened SyncedSets
  import opened GroupsState
  import opened GroupsInvariant
  import opened GroupsExchange
  import opened GroupsRun
  import opened GroupsGather

  // ---------------------------------------------------------------- the links that can be used

  lemma {:induction false} CompleteReps(links: seq<Link>)
    ensures forall r | r in RepsOf(CompleteOnes(links)) :: r in RepsOf(links)
  {
    RepsAre(links);
    RepsAre(CompleteOnes(links));
  }

  lemma FrontDistinct(l: Link, rest: seq<Link>)
    requires Distinct(RepsOf(rest)) && l.rep !in RepsOf(rest)
    ensures Distinct(RepsOf([l] + rest))
  {
    assert RepsOf([l] + rest) == [l.rep] + RepsOf(rest);
  }

  lemma {:induction false} CompleteOnce(links: seq<Link>)
    requires Distinct(RepsOf(links))
    ensures Distinct(RepsOf(CompleteOnes(links)))
  {
    hide Distinct, RepsOf;
    if links == [] {
      NoReps();
    } else {
      RestDistinct(links);
      CompleteOnce(links[1..]);
      CompleteReps(links[1..]);
      if links[0].complete {
        FrontDistinct(links[0], CompleteOnes(links[1..]));
      }
    }
  }

  lemma UsableHaveAll(x: Exchange, arrived: Arrived, leader: ProcId, s: State)
    requires Bookkept(x, arrived, leader, s)
    ensures forall l | l in Usable(s) :: l.rep in x && l.rep != leader && l.frames != [] && HasAll(l, x[l.rep])
    ensures Distinct(RepsOf(Usable(s)))
  {
    hide Done, HasAll, Covered, RepsOf, Distinct, FramesOf;
    CompleteOnce(s.links);
    NoReps();
    forall l | l in Usable(s) ensures l.rep in x && HasAll(l, x[l.rep]) {
      LinkHasAll(x, arrived, l);
    }
  }

  lemma NoReps()
    ensures Distinct(RepsOf([]))
  {
  }

  lemma UsableMerge(e: Site, s: State, x: Exchange, arrived: Arrived)
    requires GoodExchange(e, s.reg, s.regId, x) && s.synced != [] && s.synced[0] in x
    requires x[s.synced[0]].synced == s.synced
    requires Bookkept(x, arrived, s.synced[0], s) && TakenInv(e, s.sessions, Taken(s.groups, s.synced, []))
    ensures TakenInv(e, s.sessions, TakeLinks(e, Taken(s.groups, s.synced, []), Usable(s)))
  {
    hide GoodExchange, Bookkept, TakenInv, HasAll, RepsOf, TakeLinks, Usable, Distinct, Spoken, AbsorbAll, Among;
    var t := Taken(s.groups, s.synced, []);
    UsableHaveAll(x, arrived, s.synced[0], s);
    PeersApart(e, s.reg, s.regId, x, s.synced[0], s.synced, Usable(s));
    assert CanTake(x, t, Usable(s));
    RepsKnown(x, t, Usable(s));
    TakeCompleteLinks(e, s.reg, s.regId, x, s.sessions, t, Usable(s));
  }

  // ---------------------------------------------------------------- the invariant

  lemma ShedKeeps(e: Site, sessions: map<Name, Mailbox>, g: Group, ps: set<ProcId>, memb: set<ProcId>)
    requires Sound(e, g) && Posted(e, sessions, g) && AllKnown(g) && Inside(g, ps) && e.my in memb
    ensures var h := Shed(g, memb);
      && !(Outside(g, memb) != {} && h.num == 0) ==>
           Sound(e, h) && Posted(e, sessions, h) && AllKnown(h) && Inside(h, ps * memb)
  {
    var h := Shed(g, memb);
    if Outside(g, memb) == {} {
      forall p | p in g.daemons ensures p in memb {
        assert p !in Outside(g, memb);
      }
    } else {
      WithoutKeeps(e, sessions, g, Outside(g, memb));
      var k := Without(g, Outside(g, memb));
      hide HeadCount;
      assert LocalMembers(e, h) == LocalMembers(e, k);
      forall p | p in h.daemons ensures p in memb {
        assert p !in Outside(g, memb);
      }
    }
  }

  lemma ShedAllKeeps(e: Site, sessions: map<Name, Mailbox>, t: Table, ps: set<ProcId>, memb: set<ProcId>)
    requires Gathering(e, sessions, t, ps) && e.my in memb
    ensures Gathering(e, sessions, ShedAll(t, memb), ps * memb)
  {
    hide Sound, Posted, AllKnown, Shed;
    forall n | n in ShedAll(t, memb)
      ensures var h := ShedAll(t, memb)[n];
        Sound(e, h) && Posted(e, sessions, h) && AllKnown(h) && Inside(h, ps * memb)
    {
      ShedKeeps(e, sessions, t[n], ps, memb);
    }
  }

  /** What the state is after a cascading regular membership, but for the buffers. */
  ghost predicate Cascaded(e: Site, s: State, t: Taken, memb: set<ProcId>, id: MembId, r: State) {
    && r.groups == ShedAll(t.groups, s.trans) && r.synced == Select(t.synced, s.trans)
    && r.gstate == GGATHER && r.reg == memb && r.regId == id && r.sessions == s.sessions
    && r.transId == s.transId && r.held == s.held
    && !r.ownComplete && r.links == [] && r.numMess == 0 && r.numDaemons == 0
  }

  lemma RegInGgtIs(e: Site, s: State, memb: set<ProcId>, id: MembId)
    ensures Cascaded(e, s, TakeLinks(e, Taken(s.groups, s.synced, []), Usable(s)), memb, id, RegInGgt(e, s, memb, id).s)
  {
    hide TakeLinks, Usable, ShedAll, Built, Stamped, StaysFresh, Frames;
  }

  lemma CascadedKeeps(e: Site, s: State, t: Taken, memb: set<ProcId>, id: MembId, r: State)
    requires Inv(e, s) && s.gstate == GGT && s.trans <= memb <= Among(e.conf) && !Unknown(id)
    requires TakenInv(e, s.sessions, t) && Cascaded(e, s, t, memb, id, r)
    ensures Inv(e, r)
  {
    hide Inv, GroupsInv, SyncedInv, PhaseInv, TakenInv, Gathering, Cascaded, InConfOrder, ShedAll, Select, Among,
      Distinct;
    InvParts(e, s);
    CascadedParts(e, s, t, memb, id, r);
    CascadedSet(e, s, t, memb, id, r);
    CascadedGroups(e, s, t, memb, id, r);
    CascadedPhase(e, s, t, memb, id, r);
    FromInvParts(e, r);
  }

  lemma InvParts(e: Site, s: State)
    requires Inv(e, s)
    ensures GroupsInv(e, s) && SyncedInv(e, s) && PhaseInv(s)
  {
  }

  lemma FromInvParts(e: Site, s: State)
    requires GroupsInv(e, s) && SyncedInv(e, s) && PhaseInv(s)
    ensures Inv(e, s)
  {
  }

  lemma CascadedSet(e: Site, s: State, t: Taken, memb: set<ProcId>, id: MembId, r: State)
    requires SyncedInv(e, s) && s.gstate == GGT && s.trans <= memb <= Among(e.conf)
    requires TakenInv(e, s.sessions, t) && Cascaded(e, s, t, memb, id, r)
    ensures SyncedInv(e, r) && Among(r.synced) == Among(t.synced) * s.trans
  {
    hide Gathering, ShedAll, Select, Distinct, InConfOrder;
    SelectKeepsOrder(e.conf, t.synced, s.trans);
    assert e.my in r.synced;
  }

  lemma CascadedGroups(e: Site, s: State, t: Taken, memb: set<ProcId>, id: MembId, r: State)
    requires Among(r.synced) == Among(t.synced) * s.trans && e.my in s.trans
    requires TakenInv(e, s.sessions, t) && Cascaded(e, s, t, memb, id, r)
    ensures GroupsInv(e, r)
  {
    hide Sound, Posted, AllKnown, InConfOrder, ShedAll, Select, Among;
    ShedAllKeeps(e, s.sessions, t.groups, Among(t.synced), s.trans);
    forall n | n in r.groups ensures GroupInv(e, r, r.groups[n]) {
    }
  }

  lemma CascadedPhase(e: Site, s: State, t: Taken, memb: set<ProcId>, id: MembId, r: State)
    requires PhaseInv(s) && s.gstate == GGT && !Unknown(id) && Cascaded(e, s, t, memb, id, r)
    ensures PhaseInv(r)
  {
    hide ShedAll, Select;
  }

  lemma RegInGgtKeeps(e: Site, w: World, memb: set<ProcId>, id: MembId)
    requires WorldInv(e, w) && w.s.gstate == GGT && w.s.trans <= memb <= Among(e.conf) && !Unknown(id)
    ensures Inv(e, RegInGgt(e, w.s, memb, id).s)
  {
    hide GoodExchange, Bookkept, TakenInv, GroupsInv, TakeLinks, Usable, ReplicaInv, CacheInv, SyncedInv, Cascaded,
      RegInGgt;
    var s := w.s;
    GatheringNow(e, s);
    UsableMerge(e, s, w.x, w.arrived);
    RegInGgtIs(e, s, memb, id);
    CascadedKeeps(e, s, TakeLinks(e, Taken(s.groups, s.synced, []), Usable(s)), memb, id, RegInGgt(e, s, memb, id).s);
  }

  // ---------------------------------------------------------------- the buffer cache

  lemma StampedBody(table: seq<Chunk>, synced: seq<ProcId>, before: MembId, id: MembId, i: nat)
    requires NonEmpty(table) && AllFit(table) && SyncedFits(synced) && i < |Batches(table, synced)|
    ensures |Bodies(table, synced, before)[i]| >= 8
    ensures Stamp(Bodies(table, synced, before)[i], id) == Bodies(table, synced, id)[i]
  {
    hide NonEmpty, AllFit, SyncedFits, Batches, PutMembId, PutSynced, PutChunks, Stamp;
    StampReplacesId(Messages(table, synced, before)[i], id);
    AtLeastAnId(Messages(table, synced, before)[i]);
  }

  lemma AtLeastAnId(m: Msg)
    ensures |PutMsg(m)| >= 8
  {
  }

  lemma StampedBackwards(a: seq<seq<byte>>, b: seq<seq<byte>>, id: MembId)
    requires |a| == |b| && forall i | 0 <= i < |a| :: |a[i]| >= 8 && Stamp(a[i], id) == b[i]
    ensures Stamped(Backwards(a), id) == Backwards(b)
  {
    hide Stamp;
    forall i | 0 <= i < |a| ensures Stamped(Backwards(a), id)[i] == Backwards(b)[i] {
      StampedAt(Backwards(a), id, i);
    }
  }

  /** Restamping the buffers of a build gives the buffers of a build under the new id. */
  lemma StampedBuild(e: Site, groups: Table, synced: seq<ProcId>, before: MembId, id: MembId)
    ensures Stamped(Built(e, groups, synced, before), id) == Built(e, groups, synced, id)
  {
    hide Sendable, NonEmpty, AllFit, SyncedFits, Walk, Batches, Bodies, Stamp, Stamped, Backwards;
    if Sendable(groups, e.conf, synced) {
      var table := Walk(groups, e.conf);
      SendableParts(groups, e.conf, synced);
      forall i | 0 <= i < |Batches(table, synced)|
        ensures |Bodies(table, synced, before)[i]| >= 8
        ensures Stamp(Bodies(table, synced, before)[i], id) == Bodies(table, synced, id)[i]
      {
        StampedBody(table, synced, before, id, i);
      }
      StampedBackwards(Bodies(table, synced, before), Bodies(table, synced, id), id);
    } else {
      NoneStamped(id);
    }
  }

  lemma NoneStamped(id: MembId)
    ensures Stamped([], id) == []
  {
  }

  lemma SendableParts(t: Table, conf: seq<ProcId>, synced: seq<ProcId>)
    requires Sendable(t, conf, synced)
    ensures NonEmpty(Walk(t, conf)) && AllFit(Walk(t, conf)) && SyncedFits(synced)
  {
  }

  lemma FlaggedNobody(t: Table, memb: set<ProcId>)
    requires NobodyOutside(FlagAll(t, memb), memb)
    ensures FlagAll(t, memb) == t
  {
    forall n | n in t ensures FlagLosing(t[n], memb) == t[n] {
      assert Outside(FlagAll(t, memb)[n], memb) == Outside(t[n], memb);
    }
  }

  lemma ShedNobody(t: Table, memb: set<ProcId>)
    requires NobodyOutside(t, memb)
    ensures ShedAll(t, memb) == t
  {
  }

  lemma {:induction false} SelectAll(s: seq<ProcId>, memb: set<ProcId>)
    requires Among(s) <= memb
    ensures Select(s, memb) == s
  {
    if s != [] {
      assert s[0] in Among(s) && Among(s[1..]) <= Among(s);
      SelectAll(s[1..], memb);
    }
  }

  lemma Exchanging(e: Site, w: World)
    requires WorldInv(e, w) && (w.s.gstate == GGATHER || w.s.gstate == GGT)
    ensures w.s.held && Inv(e, w.s) && ExchangeInv(e, w) && ReplicaInv(w) && CacheInv(e, w)
  {
  }

  lemma FirstIsIn(links: seq<Link>)
    ensures links != [] ==> links[0] in links
  {
  }

  /** A fresh cache means that no link was used. */
  lemma FreshUsesNoLink(x: Exchange, arrived: Arrived, leader: ProcId, s: State)
    requires Bookkept(x, arrived, leader, s) && !Consumes(Usable(s))
    ensures Usable(s) == []
  {
    hide HasAll;
    UsableHaveAll(x, arrived, leader, s);
    FirstIsIn(Usable(s));
  }

  /** Cache coherence: if the buffers are still marked fresh, nothing changed since they were built, not
      even a changed flag, and restamping them gives exactly what a new build would. */
  lemma FreshBuffersAreCurrent(e: Site, w: World, memb: set<ProcId>, id: MembId)
    requires WorldInv(e, w) && w.s.gstate == GGT && StaysFresh(e, w.s)
    ensures var r := RegInGgt(e, w.s, memb, id).s;
      && r.groups == w.x[e.my].table && r.synced == w.s.synced && Leads(e, r)
      && Stamped(w.s.bufs, id) == Built(e, r.groups, r.synced, id)
  {
    hide WorldInv, GoodExchange, Bookkept, Inv, ReplicaInv, Usable, Built, Stamped, ShedAll, FlagAll, Cascaded,
      RegInGgt, NobodyOutside;
    var s, r := w.s, RegInGgt(e, w.s, memb, id).s;
    Exchanging(e, w);
    FreshUsesNoLink(w.x, w.arrived, s.synced[0], s);
    RegInGgtIs(e, s, memb, id);
    FlaggedNobody(w.x[e.my].table, s.trans);
    ShedNobody(s.groups, s.trans);
    SelectAll(s.synced, s.trans);
    StampedBuild(e, r.groups, r.synced, s.regId, id);
    CascadedParts(e, s, Taken(s.groups, s.synced, []), memb, id, r);
  }

  lemma CascadedParts(e: Site, s: State, t: Taken, memb: set<ProcId>, id: MembId, r: State)
    requires Cascaded(e, s, t, memb, id, r)
    ensures r.groups == ShedAll(t.groups, s.trans) && r.synced == Select(t.synced, s.trans)
  {
    hide ShedAll, Select;
  }
}
