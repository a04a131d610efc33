/** The preconditions of the handlers hold in every reachable state: messages of an exchange can be read
    and their sets merged, so the daemon does not abort on them. */
module GroupsDuty {
  import opened Wire
  import opened Wrappers
  import opened Ordering
  import opened GroupTable
  import opened GroupsCodec
  import opened GroupsWalk
  import opened GroupsRoundTrip
  import opened GroupsAgreement
  import opened GroupsState
  import opened GroupsInvariant
  import opened GroupsExchange
  import opened GroupsRun
  import opened GroupsCompletion
  import opened GroupsGather
  import opened GroupsCascade
  import opened GroupsLayer
  import opened VsMessage

  lemma LinkReads(e: Site, reg: set<ProcId>, regId: MembId, p: Peer, l: Link)
    requires GoodPeer(e, reg, regId, l.rep, p) && HasAll(l, p)
    ensures Readable(l.frames)
  {
    hide GoodPeer, GetMsg, Distinct;
    forall f | f in l.frames ensures GetMsg(f.body).Some? {
      var i :| 0 <= i < |p.frames| && p.frames[i] == f;
      FrameNames(e, reg, regId, l.rep, p, i);
    }
  }

  lemma FirstLinkMerges(e: Site, reg: set<ProcId>, regId: MembId, x: Exchange, sessions: map<Name, Mailbox>, t: Taken,
                        links: seq<Link>)
    requires GoodExchange(e, reg, regId, x) && TakenInv(e, sessions, t) && CanTake(x, t, links) && links != []
    ensures var sset := LinkSynced(links[0].frames, t.sset);
      Readable(links[0].frames) && Among(t.synced) !! Among(sset) && forall p | p in t.synced || p in sset ::
        p in e.conf
  {
    var l := links[0];
    assert l in links;
    assert GoodPeer(e, reg, regId, l.rep, x[l.rep]);
    hide GoodExchange, HasAll, Gathering, LinkSynced, Readable, Sendable, Ready, Foreign, Built, Frames;
    CompleteLinkNamesSet(e, reg, regId, x[l.rep], l, t.sset);
    LinkReads(e, reg, regId, x[l.rep], l);
  }

  lemma {:induction false} CompleteLinksMerge(e: Site, reg: set<ProcId>, regId: MembId, x: Exchange,
                                              sessions: map<Name, Mailbox>, t: Taken, links: seq<Link>)
    requires GoodExchange(e, reg, regId, x) && TakenInv(e, sessions, t) && CanTake(x, t, links)
    ensures CanMerge(e, t, links)
    decreases |links|
  {
    hide GoodExchange, TakenInv, CanTake, Absorb, TakeLink, Readable, LinkSynced, Among;
    if links != [] {
      FirstLinkMerges(e, reg, regId, x, sessions, t, links);
      TakeFirstLink(e, reg, regId, x, sessions, t, links);
      CompleteLinksMerge(e, reg, regId, x, sessions, TakeLink(e, t, links[0]), links[1..]);
    }
  }

  /** A cascading regular membership never finds links it cannot merge. */
  lemma CascadeCanMerge(e: Site, w: World)
    requires WorldInv(e, w) && w.s.gstate == GGT
    ensures CanMerge(e, Taken(w.s.groups, w.s.synced, []), Usable(w.s))
  {
    hide GoodExchange, Bookkept, TakenInv, HasAll, RepsOf, Usable, Distinct, Among, WorldInv, Inv, ReplicaInv,
      CacheInv;
    var s, t := w.s, Taken(w.s.groups, w.s.synced, []);
    Exchanging(e, w);
    GatheringNow(e, s);
    UsableHaveAll(w.x, w.arrived, s.synced[0], s);
    PeersApart(e, s.reg, s.regId, w.x, s.synced[0], s.synced, Usable(s));
    CompleteLinksMerge(e, s.reg, s.regId, w.x, s.sessions, t, Usable(s));
  }

  /** Nor does the end of an exchange. */
  lemma CompletionCanMerge(e: Site, w: World, f: Frame)
    requires WorldInv(e, w) && (w.s.gstate == GGATHER || w.s.gstate == GGT) && MayArrive(w.x, w.arrived, f)
    requires Recorded(w.s, f).numDaemons == |w.s.reg|
    ensures CanMerge(e, Taken(w.s.groups, w.s.synced, []), Recorded(w.s, f).links)
  {
    hide GoodExchange, Bookkept, TakenInv, HasAll, RepsOf, Distinct, Among, WorldInv, Inv, ReplicaInv, CacheInv,
      Filed, MayArrive, Receive, Done;
    var s, t, links := w.s, Taken(w.s.groups, w.s.synced, []), Recorded(w.s, f).links;
    Exchanging(e, w);
    GatheringNow(e, s);
    RecordedKeeps(e, s, w.x, w.arrived, f);
    CompletionIsDetected(e, Recorded(s, f), w.x, Receive(w.arrived, f));
    BooksHaveLinks(w.x, Receive(w.arrived, f), s.synced[0], Recorded(s, f));
    LinksAreComplete(w.x, Receive(w.arrived, f), s.synced[0], links);
    PeersApart(e, s.reg, s.regId, w.x, s.synced[0], s.synced, links);
    CompleteLinksMerge(e, s.reg, s.regId, w.x, s.sessions, t, links);
  }

  lemma BooksHaveLinks(x: Exchange, arrived: Arrived, leader: ProcId, s: State)
    requires Bookkept(x, arrived, leader, s)
    ensures ArrivedInv(x, arrived) && LinksInv(x, arrived, leader, s.links) && Distinct(RepsOf(s.links))
  {
  }

  /** Mailboxes are those of local members: without daemons there are none. */
  lemma NobodyPosted(e: Site, sessions: map<Name, Mailbox>, g: Group)
    requires Posted(e, sessions, g)
    ensures e.my !in g.daemons ==> g.mboxes == []
  {
    if e.my !in g.daemons {
      assert LocalMembers(e, g) == {};
      assert Addresses(sessions, {}) == {};
      assert |multiset(g.mboxes)| == 0;
    }
  }

  /** A group that is discarded by a regular membership has neither daemons nor mailboxes left. */
  lemma DiscardedIsEmpty(e: Site, sessions: map<Name, Mailbox>, g: Group, gone: set<ProcId>)
    requires Sound(e, g) && Posted(e, sessions, g) && e.my !in gone && Without(g, gone).num == 0
    ensures Without(g, gone).daemons == map[] && Without(g, gone).mboxes == []
  {
    hide Sound, HeadCount;
    WithoutKeeps(e, sessions, g, gone);
    NobodyPosted(e, sessions, Without(g, gone));
  }

  /** Nor has one that is discarded by a leave or a disconnect. */
  lemma DismissedIsEmpty(e: Site, s: State, m: Name, n: Name, cause: Cause)
    requires Inv(e, s) && IsMember(e, s.groups, m, n) && Dismissed(e, s, m, n, cause).g.num == 0
    ensures Dismissed(e, s, m, n, cause).g.daemons == map[] && Dismissed(e, s, m, n, cause).g.mboxes == []
  {
    hide Sound, Posted, Dismiss, Mboxes, SyncedInv;
    assert GroupInv(e, s, s.groups[n]);
    DismissKeeps(e, s, m, n, cause);
    NobodyPosted(e, s.sessions, Dismissed(e, s, m, n, cause).g);
  }

  lemma SoundOwnsOnce(e: Site, g: Group)
    requires Sound(e, g)
    ensures OwnedOnce(g)
  {
    hide HeadCount;
    forall p, q, m | p in g.daemons && q in g.daemons && m in g.daemons[p].members && m in g.daemons[q].members
      ensures p == q
    {
      assert e.owner[m] == p && e.owner[m] == q;
    }
  }

  lemma GroupsAreConfigured(e: Site, s: State, g: Group)
    requires SyncedInv(e, s) && GroupInv(e, s, g)
    ensures Distinct(e.conf) && forall p | p in g.daemons :: p in e.conf
  {
    hide Sound, Posted, Distinct;
    forall p | p in g.daemons ensures p in e.conf {
      if s.gstate == GOP || s.gstate == GTRANS {
        assert p in s.reg && p in Among(e.conf);
      } else {
        assert p in Among(s.synced);
      }
    }
  }

  /** Every group of a reachable state meets what the membership message assumes of it: a message is only built
      for a group with mailboxes, and then this daemon is one of the group's. */
  lemma GroupCanBeTold(e: Site, s: State, n: Name)
    requires Inv(e, s) && n in s.groups
    ensures Configured(s.groups[n], e.conf) && s.groups[n].num == HeadCount(s.groups[n].daemons)
    ensures s.groups[n].mboxes != [] ==> e.my in s.groups[n].daemons
  {
    hide Posted, HeadCount, OwnedOnce, Distinct, SyncedInv;
    MailboxesMeanMine(e, s, n);
    var g := s.groups[n];
    assert GroupInv(e, s, g);
    GroupsAreConfigured(e, s, g);
    SoundOwnsOnce(e, g);
  }

  lemma MailboxesMeanMine(e: Site, s: State, n: Name)
    requires Inv(e, s) && n in s.groups
    ensures s.groups[n].mboxes != [] ==> e.my in s.groups[n].daemons
  {
    hide Posted, Sound, SyncedInv;
    assert GroupInv(e, s, s.groups[n]);
    NobodyPosted(e, s.sessions, s.groups[n]);
  }
}
