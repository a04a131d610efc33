/** What a GROUPS message does to a running exchange: it is recorded, and if it was the last one
    missing, the complete links give this daemon every other set's table. */
module GroupsGather {
  import opened Ordering
  import opened GroupTable
  import opened GroupsAgreement
  import opened SyncedSets
  import opened GroupsState
  import opened GroupsInvariant
  import opened GroupsExchange
  import opened GroupsRun
  import opened GroupsCompletion

  lemma RecordedKeeps(e: Site, s: State, x: Exchange, arrived: Arrived, f: Frame)
    requires GoodExchange(e, s.reg, s.regId, x) && MayArrive(x, arrived, f) && s.synced != []
    requires Bookkept(x, arrived, s.synced[0], s)
    ensures Bookkept(x, Receive(arrived, f), s.synced[0], Recorded(s, f))
  {
    hide GoodExchange, Placed, Covered, Filed, Done, MayArrive, Receive, ArrivedInv, LinksInv;
    GoodExchangeIsPlaced(e, s.reg, s.regId, x);
    CoveredGrows(e, s.reg, s.regId, x, arrived, f);
    FrameKnown(x, arrived, f);
    ArrivedGrows(x, arrived, f);
    DoneGrows(x, arrived, f, s.synced[0]);
    if f.sender == s.synced[0] {
      OwnFrameKeeps(x, arrived, s.synced[0], s.links, f);
    } else {
      FiledKeeps(x, arrived, s.synced[0], s.links, f);
    }
  }

  lemma FrameKnown(x: Exchange, arrived: Arrived, f: Frame)
    requires Placed(x) && MayArrive(x, arrived, f)
    ensures f.sender in x
  {
  }

  lemma LinkHasAll(x: Exchange, arrived: Arrived, l: Link)
    requires ArrivedInv(x, arrived) && LinkInv(x, arrived, l) && Done(x, arrived, l.rep)
    ensures HasAll(l, x[l.rep])
  {
    hide Distinct;
    forall f | f in x[l.rep].frames ensures f in l.frames {
      var i :| 0 <= i < |x[l.rep].frames| && x[l.rep].frames[i] == f;
      assert (l.rep, i) in arrived;
    }
  }

  /** When every representative is done, the links are complete and one for each other set. */
  lemma LinksAreComplete(x: Exchange, arrived: Arrived, leader: ProcId, links: seq<Link>)
    requires ArrivedInv(x, arrived) && LinksInv(x, arrived, leader, links) && forall r | r in x :: Done(x, arrived, r)
    ensures forall l | l in links :: l.rep in x && l.rep != leader && HasAll(l, x[l.rep])
    ensures Among(RepsOf(links)) == x.Keys - {leader}
  {
    RepsAre(links);
    forall l | l in links ensures l.rep in x && HasAll(l, x[l.rep]) {
      LinkHasAll(x, arrived, l);
    }
    hide HasAll, Distinct;
    forall r | r in x.Keys - {leader} ensures r in RepsOf(links) {
      assert Done(x, arrived, r);
    }
  }

  lemma PeersApart(e: Site, reg: set<ProcId>, regId: MembId, x: Exchange, leader: ProcId, synced: seq<ProcId>,
                   links: seq<Link>)
    requires GoodExchange(e, reg, regId, x) && leader in x && x[leader].synced == synced
    requires forall l | l in links :: l.rep in x && l.rep != leader
    ensures forall l | l in links :: Among(synced) !! Among(x[l.rep].synced)
  {
    forall l | l in links ensures Among(synced) !! Among(x[l.rep].synced) {
      PeersDisjoint(e, reg, regId, x, leader, l.rep);
    }
  }

  /** Completion: the daemons counted are all daemons exactly when every representative is done. */
  lemma CompletionIsDetected(e: Site, s: State, x: Exchange, arrived: Arrived)
    requires GoodExchange(e, s.reg, s.regId, x) && s.synced != [] && Bookkept(x, arrived, s.synced[0], s)
    ensures s.numDaemons == |s.reg| <==> forall r | r in x :: Done(x, arrived, r)
  {
    CoveredMeansAllDone(e, s.reg, s.regId, x, arrived);
  }

  lemma SpeakerOf(e: Site, reg: set<ProcId>, regId: MembId, x: Exchange, p: ProcId) returns (r: ProcId)
    requires GoodExchange(e, reg, regId, x) && p in reg
    ensures r in x && p in Among(x[r].synced)
  {
    r :| r in x && p in Among(x[r].synced);
  }

  lemma SpokenAll(e: Site, reg: set<ProcId>, regId: MembId, x: Exchange, leader: ProcId, reps: seq<ProcId>)
    requires GoodExchange(e, reg, regId, x) && leader in x && Among(reps) == x.Keys - {leader}
    ensures Among(x[leader].synced) + Spoken(x, reps) == reg
  {
    hide GoodExchange;
    forall r | r in x ensures Among(x[r].synced) <= reg {
      PeerMembers(e, reg, regId, x, r);
    }
    forall p | p in reg ensures p in Among(x[leader].synced) + Spoken(x, reps) {
      var r := SpeakerOf(e, reg, regId, x, p);
      assert r != leader ==> r in Among(reps);
    }
  }

  /** What the merge finds when the exchange is over: every other representative's table added to the
      own, and the whole membership synced. */
  lemma FullMerge(e: Site, s: State, x: Exchange, arrived: Arrived)
    requires GoodExchange(e, s.reg, s.regId, x) && s.synced != [] && s.synced[0] in x
    requires x[s.synced[0]].synced == s.synced
    requires Bookkept(x, arrived, s.synced[0], s) && forall r | r in x :: Done(x, arrived, r)
    requires TakenInv(e, s.sessions, Taken(s.groups, s.synced, []))
    ensures forall r | r in RepsOf(s.links) :: r in x
    ensures Among(RepsOf(s.links)) == x.Keys - {s.synced[0]} && Distinct(RepsOf(s.links))
    ensures var t := TakeLinks(e, Taken(s.groups, s.synced, []), s.links);
      && t.groups == AbsorbAll(s.groups, Tables(x), RepsOf(s.links))
      && TakenInv(e, s.sessions, t) && Among(t.synced) == s.reg
  {
    var t, leader := Taken(s.groups, s.synced, []), s.synced[0];
    LinksAreComplete(x, arrived, leader, s.links);
    PeersApart(e, s.reg, s.regId, x, leader, s.synced, s.links);
    hide Bookkept, Done, HasAll, GoodExchange, TakenInv, Spoken;
    assert CanTake(x, t, s.links) by {
      BookkeptReps(x, arrived, leader, s);
    }
    RepsKnown(x, t, s.links);
    TakeCompleteLinks(e, s.reg, s.regId, x, s.sessions, t, s.links);
    SpokenAll(e, s.reg, s.regId, x, leader, RepsOf(s.links));
  }

  lemma BookkeptReps(x: Exchange, arrived: Arrived, leader: ProcId, s: State)
    requires Bookkept(x, arrived, leader, s)
    ensures Distinct(RepsOf(s.links))
  {
  }

  // ---------------------------------------------------------------- the invariant

  lemma GatheringNow(e: Site, s: State)
    requires Inv(e, s) && s.held
    ensures TakenInv(e, s.sessions, Taken(s.groups, s.synced, []))
  {
    hide Sound, Posted, AllKnown;
    forall n | n in s.groups
      ensures var g := s.groups[n]; Sound(e, g) && Posted(e, s.sessions, g) && AllKnown(g) && Inside(g, Among(s.synced))
    {
      assert GroupInv(e, s, s.groups[n]);
    }
  }

  lemma FinishKeeps(e: Site, s: State, t: Table)
    requires Gathering(e, s.sessions, t, s.reg) && !Unknown(s.regId) && s.gstate == GOP
    ensures forall n | n in Finish(t, s.regId) :: GroupInv(e, s, Finish(t, s.regId)[n])
  {
    forall n | n in t ensures GroupInv(e, s, Settled(t[n], s.regId)) {
      SettleKeeps(e, s.sessions, t[n], s.regId);
    }
  }

  /** The state in which the table is merged and the changed groups settle. */
  ghost function Merged(e: Site, s: State): State {
    Compute(e, s.(held := false)).s.(gstate := GOP)
  }

  ghost function MergedTo(s: State, t: Taken): State {
    s.(gstate := GOP, groups := Finish(t.groups, s.regId), synced := t.synced, bufs := [], current := false,
       ownComplete := false, links := [], numMess := 0, numDaemons := 0, held := false)
  }

  lemma MergedIs(e: Site, s: State)
    ensures Merged(e, s) == MergedTo(s, TakeLinks(e, Taken(s.groups, s.synced, []), s.links))
  {
    hide Finish, TakeLinks, Conclude;
  }

  lemma MergedToKeeps(e: Site, s: State, t: Taken)
    requires Inv(e, s) && s.held && TakenInv(e, s.sessions, t) && Among(t.synced) == s.reg
    ensures Inv(e, MergedTo(s, t))
  {
    hide Finish, Gathering, GroupInv;
    FinishKeeps(e, MergedTo(s, t), t.groups);
  }

  lemma MergedKeeps(e: Site, s: State, x: Exchange, arrived: Arrived)
    requires Inv(e, s) && s.held
    requires GoodExchange(e, s.reg, s.regId, x) && s.synced != [] && s.synced[0] in x
    requires x[s.synced[0]].synced == s.synced
    requires Bookkept(x, arrived, s.synced[0], s) && s.numDaemons == |s.reg|
    ensures Inv(e, Merged(e, s))
    ensures (forall r | r in RepsOf(s.links) :: r in x)
         && Among(RepsOf(s.links)) == x.Keys - {s.synced[0]} && Distinct(RepsOf(s.links))
    ensures Merged(e, s).groups == Finish(AbsorbAll(s.groups, Tables(x), RepsOf(s.links)), s.regId)
  {
    hide GoodExchange, Bookkept, Done, Inv, TakeLinks, Finish, TakenInv, Distinct, RepsOf, Merged, AbsorbAll;
    CompletionIsDetected(e, s, x, arrived);
    GatheringNow(e, s);
    FullMerge(e, s, x, arrived);
    MergedIs(e, s);
    MergedToKeeps(e, s, TakeLinks(e, Taken(s.groups, s.synced, []), s.links));
  }

  lemma RecordedSafe(e: Site, s: State, f: Frame)
    requires Inv(e, s) && s.held
    ensures Inv(e, Recorded(s, f))
  {
    hide Sound, Posted, AllKnown, Filed, InConfOrder;
    var r := Recorded(s, f);
    forall n | n in r.groups ensures GroupInv(e, r, r.groups[n]) {
      assert GroupInv(e, s, s.groups[n]);
    }
  }
}
