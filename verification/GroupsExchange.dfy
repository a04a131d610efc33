/** A state exchange as the network carries it: what each representative sends, which of it has
    arrived, and what the bookkeeping of G_handle_groups then amounts to. */
module GroupsExchange {
  import opened Sequences
  import opened Wire
  import opened Wrappers
  import opened Ordering
  import opened GroupTable
  import opened GroupsCodec
  import opened GroupsBuffers
  import opened GroupsWalk
  import opened GroupsRoundTrip
  import opened GroupsAgreement
  import opened SyncedSets
  import opened GroupsState
  import opened GroupsInvariant

  /** One representative: the set it speaks for, the table it sends, and its messages in the order
      they are sent, the last of them AGREED. */
  datatype Peer = Peer(synced: seq<ProcId>, table: Table, frames: seq<Frame>)

  type Exchange = map<ProcId, Peer>

  /** Which messages have been handled: sender, and place among the sender's messages. */
  type Arrived = set<(ProcId, nat)>

  ghost predicate GoodPeer(e: Site, reg: set<ProcId>, regId: MembId, r: ProcId, p: Peer) {
    && p.synced != [] && p.synced[0] == r && InConfOrder(e.conf, p.synced) && Among(p.synced) <= reg
    && Sendable(p.table, e.conf, p.synced) && Ready(p.table) && Foreign(e, p.table, Among(p.synced))
    && p.frames == Frames(e.(my := r), p.synced, Built(e, p.table, p.synced, regId))
  }

  /** The synced sets partition the membership, and unchanged groups under one id have one index. */
  ghost predicate GoodExchange(e: Site, reg: set<ProcId>, regId: MembId, x: Exchange) {
    && (forall r | r in x :: GoodPeer(e, reg, regId, r, x[r]))
    && (forall r, q | r in x && q in x && r != q :: Among(x[r].synced) !! Among(x[q].synced))
    && (forall p | p in reg :: exists r :: r in x && p in Among(x[r].synced))
    && (forall r, q, n | r in x && q in x && n in x[r].table && n in x[q].table
                         && !x[r].table[n].changed && !x[q].table[n].changed
                         && x[r].table[n].id.memb == x[q].table[n].id.memb
          :: x[r].table[n].id == x[q].table[n].id)
  }

  ghost function Tables(x: Exchange): map<ProcId, Table> {
    map r | r in x :: x[r].table
  }

  lemma GoodExchangeIsFamily(e: Site, reg: set<ProcId>, regId: MembId, x: Exchange)
    requires GoodExchange(e, reg, regId, x)
    ensures Family(Tables(x))
  {
    var fam := Tables(x);
    forall r, s, n, p | r in fam && s in fam && Had(fam[r], n, p) && Had(fam[s], n, p) ensures r == s {
      assert Inside(x[r].table[n], Among(x[r].synced)) && Inside(x[s].table[n], Among(x[s].synced));
    }
    forall r | r in fam ensures Ready(fam[r]) {
      assert GoodPeer(e, reg, regId, r, x[r]);
    }
  }

  // ---------------------------------------------------------------- one complete link

  lemma {:induction false} SameElements<T(!new)>(a: seq<T>, b: seq<T>)
    requires Distinct(a) && Distinct(b) && forall x :: x in a <==> x in b
    ensures multiset(a) == multiset(b)
  {
    forall x ensures multiset(a)[x] == multiset(b)[x] {
      CountOne(a, x);
      CountOne(b, x);
    }
  }

  lemma {:induction false} BackwardsPermutes<T>(a: seq<T>)
    ensures multiset(Backwards(a)) == multiset(a)
  {
    if a != [] {
      BackwardsPermutes(a[1..]);
      assert a == [a[0]] + a[1..];
    }
  }

  /** The frames of a link are frames of its representative, none twice. */
  ghost predicate FramesOf(l: Link, p: Peer) {
    && (forall f | f in l.frames :: f in p.frames)
    && Distinct(l.frames)
  }

  ghost predicate HasAll(l: Link, p: Peer) {
    FramesOf(l, p) && forall f | f in p.frames :: f in l.frames
  }

  lemma PeerFrames(e: Site, reg: set<ProcId>, regId: MembId, r: ProcId, p: Peer)
    requires GoodPeer(e, reg, regId, r, p)
    ensures var bodies := Bodies(Walk(p.table, e.conf), p.synced, regId);
      |p.frames| == |bodies| >= 1
      && forall i | 0 <= i < |p.frames| ::
           p.frames[i] == Frame(r, i, i == |bodies| - 1, |p.synced|, bodies[|bodies| - 1 - i])
  {
    hide Bodies, Walk, Ready, Foreign, InConfOrder;
    assert Built(e, p.table, p.synced, regId) == Backwards(Bodies(Walk(p.table, e.conf), p.synced, regId));
  }

  lemma PeerBodies(e: Site, reg: set<ProcId>, regId: MembId, r: ProcId, p: Peer)
    requires GoodPeer(e, reg, regId, r, p)
    ensures multiset(LinkBodies(p.frames)) == multiset(Bodies(Walk(p.table, e.conf), p.synced, regId))
    ensures Distinct(p.frames)
  {
    hide NonEmpty, AllFit, Solid, Walk, Bodies, Ready, Foreign, InConfOrder, Among, Built, LinkBodies, Distinct;
    PeerFrames(e, reg, regId, r, p);
    BuiltFrames(p.frames, Bodies(Walk(p.table, e.conf), p.synced, regId));
  }

  /** A message is stamped with the membership it was built for and no other, so messages of another
      exchange are never relevant. */
  lemma FramesAreStamped(e: Site, reg: set<ProcId>, regId: MembId, r: ProcId, p: Peer, f: Frame, m: MembId)
    requires GoodPeer(e, reg, regId, r, p) && f in p.frames
    ensures StampedWith(f, m) <==> m == regId
  {
    hide GoodPeer, NonEmpty, AllFit, SyncedFits, Walk, Batches, GetMembId, PutMsg;
    PeerSends(e, reg, regId, r, p);
    PeerFrames(e, reg, regId, r, p);
    var i :| 0 <= i < |p.frames| && p.frames[i] == f;
    StampOf(Messages(Walk(p.table, e.conf), p.synced, regId)[|p.frames| - 1 - i]);
  }

  lemma StampOf(m: Msg)
    ensures |PutMsg(m)| >= 8 && GetMembId(PutMsg(m)[..8]) == m.memb
  {
    ReadMembId(m.memb);
    assert PutMsg(m)[..8] == PutMembId(m.memb);
  }

  lemma BuiltFrames(frames: seq<Frame>, bodies: seq<seq<byte>>)
    requires |frames| == |bodies|
    requires forall i | 0 <= i < |frames| :: frames[i].place == i && frames[i].body == bodies[|bodies| - 1 - i]
    ensures multiset(LinkBodies(frames)) == multiset(bodies)
    ensures Distinct(frames)
  {
    hide Backwards, Mapped;
    BackwardsPermutes(bodies);
    assert LinkBodies(frames) == Backwards(bodies);
  }

  /** A complete link, in whatever order its messages came, adds its representative's table. */
  lemma CompleteLinkAbsorbs(e: Site, reg: set<ProcId>, regId: MembId, p: Peer, l: Link, t: Table)
    requires GoodPeer(e, reg, regId, l.rep, p) && HasAll(l, p)
    ensures MergeBodies(t, LinkBodies(l.frames)) == Absorb(t, p.table)
  {
    PeerBodies(e, reg, regId, l.rep, p);
    SameElements(l.frames, p.frames);
    MappedPermutes((f: Frame) => f.body, l.frames, p.frames);
    ReceivingIsAbsorbing(t, p.table, e.conf, p.synced, regId, LinkBodies(l.frames));
  }

  lemma {:induction false} OneSetNamed(frames: seq<Frame>, sset: seq<ProcId>, synced: seq<ProcId>)
    requires forall f | f in frames :: SetIn(f).None? || SetIn(f) == Some(synced)
    ensures LinkSynced(frames, sset) == if exists f :: f in frames && SetIn(f).Some? then synced else sset
    decreases |frames|
  {
    if frames != [] {
      hide SetIn;
      assert frames == [frames[0]] + frames[1..];
      OneSetNamed(frames[1..], if SetIn(frames[0]).Some? then synced else sset, synced);
    }
  }

  lemma BodyIs(table: seq<Chunk>, synced: seq<ProcId>, memb: MembId, i: nat)
    requires NonEmpty(table) && AllFit(table) && SyncedFits(synced) && i < |Bodies(table, synced, memb)|
    ensures var m := GetMsg(Bodies(table, synced, memb)[i]);
      m.Some? && m.value.synced == if i == 0 then Some(synced) else None
  {
    hide NonEmpty, AllFit, SyncedFits, Batches, Bodies, GetMsg;
    BodyReadsBack(table, synced, memb, i);
  }

  lemma PeerSends(e: Site, reg: set<ProcId>, regId: MembId, r: ProcId, p: Peer)
    requires GoodPeer(e, reg, regId, r, p)
    ensures var table := Walk(p.table, e.conf); NonEmpty(table) && AllFit(table) && SyncedFits(p.synced)
  {
  }

  /** A message can be read, and only the last one, which was built first, carries the synced set. */
  lemma FrameNames(e: Site, reg: set<ProcId>, regId: MembId, r: ProcId, p: Peer, i: nat)
    requires GoodPeer(e, reg, regId, r, p) && i < |p.frames|
    ensures GetMsg(p.frames[i].body).Some?
    ensures SetIn(p.frames[i]) == if i == |p.frames| - 1 then Some(p.synced) else None
  {
    hide GoodPeer, NonEmpty, AllFit, SyncedFits, Walk, Bodies, GetMsg;
    PeerSends(e, reg, regId, r, p);
    PeerFrames(e, reg, regId, r, p);
    BodyIs(Walk(p.table, e.conf), p.synced, regId, |p.frames| - 1 - i);
  }

  /** A complete link names its representative's synced set. */
  lemma CompleteLinkNamesSet(e: Site, reg: set<ProcId>, regId: MembId, p: Peer, l: Link, sset: seq<ProcId>)
    requires GoodPeer(e, reg, regId, l.rep, p) && HasAll(l, p)
    ensures LinkSynced(l.frames, sset) == p.synced
  {
    hide GoodPeer, SetIn, LinkSynced, Distinct;
    forall f | f in l.frames ensures SetIn(f).None? || SetIn(f) == Some(p.synced) {
      var i :| 0 <= i < |p.frames| && p.frames[i] == f;
      FrameNames(e, reg, regId, l.rep, p, i);
    }
    SomeFrame(e, reg, regId, l.rep, p);
    FrameNames(e, reg, regId, l.rep, p, |p.frames| - 1);
    assert p.frames[|p.frames| - 1] in p.frames;
    OneSetNamed(l.frames, sset, p.synced);
  }

  lemma SomeFrame(e: Site, reg: set<ProcId>, regId: MembId, r: ProcId, p: Peer)
    requires GoodPeer(e, reg, regId, r, p)
    ensures p.frames != []
  {
    PeerFrames(e, reg, regId, r, p);
  }

  // ---------------------------------------------------------------- several complete links

  function RepsOf(links: seq<Link>): (r: seq<ProcId>)
    ensures |r| == |links| && forall i | 0 <= i < |r| :: r[i] == links[i].rep
  {
    if links == [] then [] else [links[0].rep] + RepsOf(links[1..])
  }

  lemma RepsAre(links: seq<Link>)
    ensures forall r :: r in RepsOf(links) <==> exists l :: l in links && l.rep == r
  {
  }

  /** All members of the sets that the links speak for. */
  ghost function Spoken(x: Exchange, reps: seq<ProcId>): set<ProcId> {
    set r, p | r in reps && r in x && p in Among(x[r].synced) :: p
  }

  /** The state of the merge: groups at the members of the synced set, the set itself in order. */
  ghost predicate TakenInv(e: Site, sessions: map<Name, Mailbox>, t: Taken) {
    Gathering(e, sessions, t.groups, Among(t.synced)) && InConfOrder(e.conf, t.synced) && e.my in t.synced
  }

  lemma TakeOneLink(e: Site, reg: set<ProcId>, regId: MembId, x: Exchange, sessions: map<Name, Mailbox>, t: Taken,
                    l: Link)
    requires GoodExchange(e, reg, regId, x) && TakenInv(e, sessions, t)
    requires l.rep in x && HasAll(l, x[l.rep]) && Among(t.synced) !! Among(x[l.rep].synced)
    ensures var r := TakeLink(e, t, l);
      && r.groups == Absorb(t.groups, x[l.rep].table) && TakenInv(e, sessions, r)
      && Among(r.synced) == Among(t.synced) + Among(x[l.rep].synced)
  {
    hide MergeBodies, LinkSynced, LinkBodies, Merge, InConfOrder, HasAll;
    var p := x[l.rep];
    assert GoodPeer(e, reg, regId, l.rep, p);
    CompleteLinkAbsorbs(e, reg, regId, p, l, t.groups);
    CompleteLinkNamesSet(e, reg, regId, p, l, t.sset);
    MergeInOrder(e.conf, t.synced, p.synced);
    assert e.my in Among(t.synced);
    AbsorbKeeps(e, sessions, t.groups, p.table, Among(t.synced), Among(p.synced));
  }

  /** The links are complete, from different representatives, and speak for daemons not yet synced. */
  ghost predicate CanTake(x: Exchange, t: Taken, links: seq<Link>) {
    && (forall l | l in links :: l.rep in x && HasAll(l, x[l.rep]) && Among(t.synced) !! Among(x[l.rep].synced))
    && Distinct(RepsOf(links))
  }

  lemma RepsKnown(x: Exchange, t: Taken, links: seq<Link>)
    requires CanTake(x, t, links)
    ensures forall r | r in RepsOf(links) :: r in x
  {
    RepsAre(links);
  }

  lemma CanTakeRest(e: Site, reg: set<ProcId>, regId: MembId, x: Exchange, t: Taken, links: seq<Link>, t1: Taken)
    requires GoodExchange(e, reg, regId, x) && links != [] && CanTake(x, t, links)
    requires Among(t1.synced) == Among(t.synced) + Among(x[links[0].rep].synced)
    ensures CanTake(x, t1, links[1..])
  {
    var l, rest := links[0], links[1..];
    RestDistinct(links);
    RepsAre(rest);
    hide HasAll, Distinct;
    forall m | m in rest ensures m.rep in x && HasAll(m, x[m.rep]) && Among(t1.synced) !! Among(x[m.rep].synced) {
      assert m in links && m.rep in RepsOf(rest);
      PeersDisjoint(e, reg, regId, x, l.rep, m.rep);
    }
  }

  lemma TakeFirstLink(e: Site, reg: set<ProcId>, regId: MembId, x: Exchange, sessions: map<Name, Mailbox>, t: Taken,
                      links: seq<Link>)
    requires GoodExchange(e, reg, regId, x) && TakenInv(e, sessions, t) && CanTake(x, t, links) && links != []
    ensures var t1, r := TakeLink(e, t, links[0]), links[0].rep;
      && r in x && t1.groups == Absorb(t.groups, x[r].table) && TakenInv(e, sessions, t1) && CanTake(x, t1, links[1..])
      && Among(t1.synced) == Among(t.synced) + Among(x[r].synced)
  {
    hide HasAll, Absorb;
    assert links[0] in links;
    TakeOneLink(e, reg, regId, x, sessions, t, links[0]);
    CanTakeRest(e, reg, regId, x, t, links, TakeLink(e, t, links[0]));
  }

  /** Complete links, taken one after the other, add their representatives' tables and sets. */
  lemma {:induction false} TakeCompleteLinks(e: Site, reg: set<ProcId>, regId: MembId, x: Exchange,
                                             sessions: map<Name, Mailbox>, t: Taken, links: seq<Link>)
    requires GoodExchange(e, reg, regId, x) && TakenInv(e, sessions, t) && CanTake(x, t, links)
    requires forall r | r in RepsOf(links) :: r in x
    ensures TakeLinks(e, t, links).groups == AbsorbAll(t.groups, Tables(x), RepsOf(links))
    ensures TakenInv(e, sessions, TakeLinks(e, t, links))
    ensures Among(TakeLinks(e, t, links).synced) == Among(t.synced) + Spoken(x, RepsOf(links))
    decreases |links|
  {
    hide GoodExchange, TakenInv, CanTake, Absorb, Spoken, Among, TakeLink, AbsorbAll;
    if links == [] {
      NoneTaken(x, t);
    } else {
      var t1, r, rest := TakeLink(e, t, links[0]), links[0].rep, links[1..];
      TakeFirstLink(e, reg, regId, x, sessions, t, links);
      RepsKnown(x, t1, rest);
      TakeCompleteLinks(e, reg, regId, x, sessions, t1, rest);
      OneMoreTaken(x, t.groups, r, RepsOf(rest));
      assert RepsOf(links) == [r] + RepsOf(rest);
    }
  }

  lemma NoneTaken(x: Exchange, t: Taken)
    ensures Spoken(x, []) == {} && AbsorbAll(t.groups, Tables(x), []) == t.groups
  {
  }

  lemma OneMoreTaken(x: Exchange, t: Table, r: ProcId, rest: seq<ProcId>)
    requires r in x && forall q | q in rest :: q in x
    ensures AbsorbAll(t, Tables(x), [r] + rest) == AbsorbAll(Absorb(t, x[r].table), Tables(x), rest)
    ensures Spoken(x, [r] + rest) == Among(x[r].synced) + Spoken(x, rest)
  {
    hide Absorb;
    assert ([r] + rest)[1..] == rest;
  }

  lemma RestDistinct(links: seq<Link>)
    requires links != [] && Distinct(RepsOf(links))
    ensures Distinct(RepsOf(links[1..])) && links[0].rep !in RepsOf(links[1..])
  {
    assert RepsOf(links)[1..] == RepsOf(links[1..]);
  }

  lemma PeersDisjoint(e: Site, reg: set<ProcId>, regId: MembId, x: Exchange, r: ProcId, q: ProcId)
    requires GoodExchange(e, reg, regId, x) && r in x && q in x && r != q
    ensures Among(x[r].synced) !! Among(x[q].synced)
  {
  }
}
