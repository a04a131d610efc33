/** How a daemon knows that an exchange is over: it counts the daemons spoken for by AGREED messages,
    and the count is full exactly when every representative's last message is in. */
module GroupsCompletion {
  import opened Ordering
  import opened GroupTable
  import opened GroupsWalk
  import opened GroupsRoundTrip
  import opened GroupsAgreement
  import opened SyncedSets
  import opened GroupsState
  import opened GroupsInvariant
  import opened GroupsExchange
  import opened GroupsRun

  ghost function Receive(arrived: Arrived, f: Frame): Arrived {
    arrived + {(f.sender, f.place)}
  }

  /** Every message knows its sender, its place, and whether it is the last. */
  ghost predicate Placed(x: Exchange) {
    forall r | r in x :: InPlace(r, x[r])
  }

  ghost predicate InPlace(r: ProcId, p: Peer) {
    && p.frames != []
    && forall i | 0 <= i < |p.frames| ::
         && p.frames[i].sender == r && p.frames[i].place == i && p.frames[i].represents == |p.synced|
         && (p.frames[i].agreed <==> i == |p.frames| - 1)
  }

  lemma FrameInPlace(x: Exchange, f: Frame)
    requires Placed(x) && f.sender in x && f in x[f.sender].frames
    ensures var fs := x[f.sender].frames; f.place < |fs| && fs[f.place] == f
    ensures f.represents == |x[f.sender].synced| && (f.agreed <==> f.place == |x[f.sender].frames| - 1)
  {
    var p := x[f.sender];
    assert InPlace(f.sender, p);
    var i :| 0 <= i < |p.frames| && p.frames[i] == f;
  }

  lemma GoodPeerIsPlaced(e: Site, reg: set<ProcId>, regId: MembId, r: ProcId, p: Peer)
    requires GoodPeer(e, reg, regId, r, p)
    ensures InPlace(r, p)
  {
    hide GoodPeer, Bodies, Walk;
    PeerFrames(e, reg, regId, r, p);
  }

  lemma GoodExchangeIsPlaced(e: Site, reg: set<ProcId>, regId: MembId, x: Exchange)
    requires GoodExchange(e, reg, regId, x)
    ensures Placed(x)
  {
    forall r | r in x ensures InPlace(r, x[r]) {
      GoodPeerIsPlaced(e, reg, regId, r, x[r]);
    }
  }

  lemma DoneGrows(x: Exchange, arrived: Arrived, f: Frame, r: ProcId)
    requires Placed(x) && MayArrive(x, arrived, f)
    ensures Done(x, Receive(arrived, f), r) <==> Done(x, arrived, r) || (f.agreed && r == f.sender)
  {
    FrameInPlace(x, f);
  }

  // ---------------------------------------------------------------- the daemons spoken for

  lemma ConfOrderSize(conf: seq<ProcId>, s: seq<ProcId>)
    requires InConfOrder(conf, s)
    ensures |Among(s)| == |s|
  {
    assert Distinct(s);
    DistinctSize(s);
  }

  lemma PeerMembers(e: Site, reg: set<ProcId>, regId: MembId, x: Exchange, r: ProcId)
    requires GoodExchange(e, reg, regId, x) && r in x
    ensures r in Among(x[r].synced) && Among(x[r].synced) <= reg && |Among(x[r].synced)| == |x[r].synced|
  {
    assert GoodPeer(e, reg, regId, r, x[r]);
    hide GoodExchange, Sendable, Ready, Foreign, Built, Frames;
    ConfOrderSize(e.conf, x[r].synced);
  }

  lemma CoveredInside(e: Site, reg: set<ProcId>, regId: MembId, x: Exchange, arrived: Arrived)
    requires GoodExchange(e, reg, regId, x)
    ensures Covered(x, arrived) <= reg
  {
    forall r | r in x ensures Among(x[r].synced) <= reg {
      PeerMembers(e, reg, regId, x, r);
    }
  }

  lemma DoneAfter(x: Exchange, arrived: Arrived, f: Frame)
    requires Placed(x) && MayArrive(x, arrived, f)
    ensures forall r :: Done(x, Receive(arrived, f), r) <==> Done(x, arrived, r) || (f.agreed && r == f.sender)
    ensures f.agreed ==> !Done(x, arrived, f.sender)
    ensures f.represents == |x[f.sender].synced|
  {
    FrameInPlace(x, f);
    forall r ensures Done(x, Receive(arrived, f), r) <==> Done(x, arrived, r) || (f.agreed && r == f.sender) {
      DoneGrows(x, arrived, f, r);
    }
  }

  /** An AGREED message adds its sender's whole set, of which nothing was covered before. */
  lemma CoveredGrows(e: Site, reg: set<ProcId>, regId: MembId, x: Exchange, arrived: Arrived, f: Frame)
    requires GoodExchange(e, reg, regId, x) && MayArrive(x, arrived, f)
    ensures |Covered(x, Receive(arrived, f))| == |Covered(x, arrived)| + (if f.agreed then f.represents else 0)
  {
    hide Placed, GoodExchange, Receive, Done, Covered;
    GoodExchangeIsPlaced(e, reg, regId, x);
    DoneAfter(x, arrived, f);
    var c := Covered(x, arrived);
    var more := if f.agreed then Among(x[f.sender].synced) else {};
    CoveredIs(x, arrived, Receive(arrived, f), f, more);
    if f.agreed {
      PeerMembers(e, reg, regId, x, f.sender);
      NotYetCovered(e, reg, regId, x, arrived, f.sender);
    }
    assert |c + more| == |c| + |more|;
  }

  lemma CoveredIs(x: Exchange, arrived: Arrived, after: Arrived, f: Frame, more: set<ProcId>)
    requires f.sender in x && more == if f.agreed then Among(x[f.sender].synced) else {}
    requires forall r :: Done(x, after, r) <==> Done(x, arrived, r) || (f.agreed && r == f.sender)
    ensures Covered(x, after) == Covered(x, arrived) + more
  {
    hide Done;
  }

  lemma NotYetCovered(e: Site, reg: set<ProcId>, regId: MembId, x: Exchange, arrived: Arrived, r: ProcId)
    requires GoodExchange(e, reg, regId, x) && r in x && !Done(x, arrived, r)
    ensures Covered(x, arrived) !! Among(x[r].synced)
  {
    hide GoodExchange, Done;
    forall q | q in x && Done(x, arrived, q) ensures Among(x[q].synced) !! Among(x[r].synced) {
      PeersDisjoint(e, reg, regId, x, q, r);
    }
  }

  lemma FullMeansDone(e: Site, reg: set<ProcId>, regId: MembId, x: Exchange, arrived: Arrived, r: ProcId)
    requires GoodExchange(e, reg, regId, x) && Covered(x, arrived) == reg && r in x
    ensures Done(x, arrived, r)
  {
    PeerMembers(e, reg, regId, x, r);
    if !Done(x, arrived, r) {
      NotYetCovered(e, reg, regId, x, arrived, r);
    }
  }

  lemma DoneMeansFull(e: Site, reg: set<ProcId>, regId: MembId, x: Exchange, arrived: Arrived)
    requires GoodExchange(e, reg, regId, x) && forall r | r in x :: Done(x, arrived, r)
    ensures reg <= Covered(x, arrived)
  {
    hide Done, GoodPeer;
    forall p | p in reg ensures p in Covered(x, arrived) {
      var r :| r in x && p in Among(x[r].synced);
    }
  }

  /** Everybody is spoken for exactly when every representative is done. */
  lemma CoveredMeansAllDone(e: Site, reg: set<ProcId>, regId: MembId, x: Exchange, arrived: Arrived)
    requires GoodExchange(e, reg, regId, x)
    ensures |Covered(x, arrived)| == |reg| <==> forall r | r in x :: Done(x, arrived, r)
  {
    hide Done, GoodExchange, Covered;
    CoveredInside(e, reg, regId, x, arrived);
    SubsetOfSameSize(Covered(x, arrived), reg);
    if Covered(x, arrived) == reg {
      forall r | r in x ensures Done(x, arrived, r) {
        FullMeansDone(e, reg, regId, x, arrived, r);
      }
    }
    if forall r | r in x :: Done(x, arrived, r) {
      DoneMeansFull(e, reg, regId, x, arrived);
    }
  }

  // ---------------------------------------------------------------- the messages kept

  lemma ArrivedGrows(x: Exchange, arrived: Arrived, f: Frame)
    requires Placed(x) && ArrivedInv(x, arrived) && MayArrive(x, arrived, f)
    ensures ArrivedInv(x, Receive(arrived, f)) && |Receive(arrived, f)| == |arrived| + 1
  {
    FrameInPlace(x, f);
    forall r, i: nat | Done(x, Receive(arrived, f), r) && i < |x[r].frames| ensures (r, i) in Receive(arrived, f) {
      DoneGrows(x, arrived, f, r);
      if !Done(x, arrived, r) {
        assert InPlace(r, x[r]);
        assert x[r].frames[i] in x[r].frames;
      }
    }
  }

  lemma LinkStarts(x: Exchange, arrived: Arrived, f: Frame)
    requires Placed(x) && MayArrive(x, arrived, f) && forall a | a in arrived :: a.0 != f.sender
    ensures LinkInv(x, Receive(arrived, f), Link(f.sender, f.agreed, [f]))
  {
    FrameInPlace(x, f);
    DoneGrows(x, arrived, f, f.sender);
    assert InPlace(f.sender, x[f.sender]);
  }

  lemma LinkGrows(x: Exchange, arrived: Arrived, f: Frame, l: Link)
    requires Placed(x) && MayArrive(x, arrived, f) && LinkInv(x, arrived, l) && l.rep == f.sender
    ensures LinkInv(x, Receive(arrived, f), l.(complete := l.complete || f.agreed, frames := [f] + l.frames))
  {
    FrameInPlace(x, f);
    DoneGrows(x, arrived, f, f.sender);
    assert InPlace(f.sender, x[f.sender]);
    assert f !in l.frames;
  }

  lemma LinkWaits(x: Exchange, arrived: Arrived, f: Frame, l: Link)
    requires Placed(x) && MayArrive(x, arrived, f) && LinkInv(x, arrived, l) && l.rep != f.sender
    ensures LinkInv(x, Receive(arrived, f), l)
  {
    DoneGrows(x, arrived, f, l.rep);
  }

  lemma SameReps(links: seq<Link>, i: nat, l: Link)
    requires i < |links| && l.rep == links[i].rep
    ensures RepsOf(links[i := l]) == RepsOf(links)
  {
  }

  lemma FiledReps(links: seq<Link>, f: Frame)
    ensures RepsOf(Filed(links, f))
         == if LinkIndex(links, f.sender) == |links| then [f.sender] + RepsOf(links) else RepsOf(links)
    ensures f.sender in RepsOf(links) <==> LinkIndex(links, f.sender) < |links|
  {
    var i := LinkIndex(links, f.sender);
    RepsAre(links);
    if i < |links| {
      SameReps(links, i, Filed(links, f)[i]);
      assert links[i] in links;
    }
  }

  /** A message of another set goes to its sender's link. */
  lemma FiledKeeps(x: Exchange, arrived: Arrived, leader: ProcId, links: seq<Link>, f: Frame)
    requires Placed(x) && MayArrive(x, arrived, f) && LinksInv(x, arrived, leader, links) && f.sender != leader
    ensures LinksInv(x, Receive(arrived, f), leader, Filed(links, f))
  {
    hide Placed, MayArrive, LinkInv, Filed;
    var after := Filed(links, f);
    FiledReps(links, f);
    forall l | l in after ensures LinkInv(x, Receive(arrived, f), l) && l.rep != leader {
      FiledLink(x, arrived, leader, links, f, l);
    }
  }

  lemma FiledLink(x: Exchange, arrived: Arrived, leader: ProcId, links: seq<Link>, f: Frame, l: Link)
    requires Placed(x) && MayArrive(x, arrived, f) && LinksInv(x, arrived, leader, links) && f.sender != leader
    requires l in Filed(links, f)
    ensures LinkInv(x, Receive(arrived, f), l) && l.rep != leader
  {
    hide LinkInv, Placed, MayArrive;
    var i := LinkIndex(links, f.sender);
    FiledReps(links, f);
    if l in links && l.rep != f.sender {
      LinkWaits(x, arrived, f, l);
    } else if i < |links| {
      OnlyLink(links, i, Filed(links, f)[i], l);
      assert links[i] in links;
      LinkGrows(x, arrived, f, links[i]);
    } else {
      RepsAre(links);
      LinkStarts(x, arrived, f);
    }
  }

  lemma OnlyLink(links: seq<Link>, i: nat, grown: Link, l: Link)
    requires i < |links| && Distinct(RepsOf(links))
    requires l in links[i := grown] && (l in links ==> l.rep == links[i].rep)
    ensures l == grown
  {
    hide RepsOf;
    var j :| 0 <= j < |links| && links[i := grown][j] == l;
    assert l == links[i := grown][j];
  }

  /** A message of the own set is only counted. */
  lemma OwnFrameKeeps(x: Exchange, arrived: Arrived, leader: ProcId, links: seq<Link>, f: Frame)
    requires Placed(x) && MayArrive(x, arrived, f) && LinksInv(x, arrived, leader, links) && f.sender == leader
    ensures LinksInv(x, Receive(arrived, f), leader, links)
  {
    hide LinkInv, Placed, MayArrive;
    forall l | l in links ensures LinkInv(x, Receive(arrived, f), l) {
      LinkWaits(x, arrived, f, l);
    }
  }
}
