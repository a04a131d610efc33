/** Runs of the groups layer: the events a daemon may be delivered, and the invariant that every run
    keeps. */
module GroupsRun {
  import opened Wire
  import opened Ordering
  import opened GroupTable
  import opened GroupsAgreement
  import opened GroupsState
  import opened GroupsInvariant
  import opened GroupsExchange

  /** A daemon's state, and of the network the exchange under way and what of it has arrived. */
  datatype World = World(s: State, x: Exchange, arrived: Arrived)

  datatype Event =
    | Trans(memb: set<ProcId>, id: MembId)
    | Reg(memb: set<ProcId>, id: MembId, x: Exchange)
    | Groups(f: Frame)
    | Join(m: Name, group: Name)
    | Leave(m: Name, group: Name)
    | Kill(m: Name)
    | OpenSession(m: Name, mbox: Mailbox)
    | CloseSession(m: Name)

  ghost function Start(e: Site): World {
    World(Init(e), map[], {})
  }

  ghost predicate MemberSomewhere(s: State, m: Name) {
    exists n, p :: n in s.groups && p in s.groups[n].daemons && m in s.groups[n].daemons[p].members
  }

  /** What is sent in an exchange that this state takes part in: its set's table is the one its leader
      sends, and what it leads itself is what it just sent. */
  ghost predicate Joins(e: Site, f: Effect, x: Exchange) {
    && GoodExchange(e, f.s.reg, f.s.regId, x) && f.s.synced != []
    && f.s.synced[0] in x && x[f.s.synced[0]].synced == f.s.synced
    && Alike(f.s.groups, x[f.s.synced[0]].table)
    && (Leads(e, f.s) ==> x[e.my].table == f.s.groups && x[e.my].frames == f.sent)
  }

  /** f is a message of the exchange not yet delivered; an AGREED one comes after its sender's others. */
  ghost predicate MayArrive(x: Exchange, arrived: Arrived, f: Frame) {
    && f.sender in x && f in x[f.sender].frames && (f.sender, f.place) !in arrived
    && (f.agreed ==> forall g | g in x[f.sender].frames && g != f :: (g.sender, g.place) in arrived)
  }

  /** The events the environment delivers: those the handlers accept in the current state, with
      memberships as extended virtual synchrony orders them. */
  ghost predicate Enabled(e: Site, w: World, ev: Event) {
    var s := w.s;
    match ev
    case Trans(memb, id) =>
      && (s.gstate == GOP || s.gstate == GGATHER) && e.my in memb && memb <= Base(e, s) && !Unknown(id)
    case Reg(memb, id, x) =>
      && (s.gstate == GTRANS || s.gstate == GGT) && s.trans <= memb <= Among(e.conf) && !Unknown(id)
      && (var f := HandleReg(e, s, memb, id); f.s.gstate == GGATHER ==> Joins(e, f, x))
    case Groups(f) =>
      && (s.gstate == GGATHER || s.gstate == GGT)
      && (Relevant(e, s, f) ==> MayArrive(w.x, w.arrived, f))
    case Join(m, group) =>
      && (s.gstate == GOP || s.gstate == GTRANS)
      && (m in e.owner ==> e.owner[m] in s.reg && (e.owner[m] == e.my ==> m in s.sessions))
    case Leave(m, group) => s.gstate == GOP || s.gstate == GTRANS
    case Kill(m) => s.gstate == GOP || s.gstate == GTRANS
    case OpenSession(m, mbox) => m !in s.sessions && mbox !in s.sessions.Values
    case CloseSession(m) => m in s.sessions && !MemberSomewhere(s, m)
  }

  ghost function Handle(e: Site, w: World, ev: Event): Effect
    requires Enabled(e, w, ev)
  {
    match ev
    case Trans(memb, id) => HandleTrans(w.s, memb, id)
    case Reg(memb, id, x) => HandleReg(e, w.s, memb, id)
    case Groups(f) => HandleGroups(e, w.s, f)
    case Join(m, group) => HandleJoin(e, w.s, m, group)
    case Leave(m, group) => HandleLeave(e, w.s, m, group)
    case Kill(m) => HandleKill(e, w.s, m)
    case OpenSession(m, mbox) => Quiet(w.s.(sessions := w.s.sessions[m := mbox]))
    case CloseSession(m) => Quiet(w.s.(sessions := w.s.sessions - {m}))
  }

  ghost function Next(e: Site, w: World, ev: Event): World
    requires Enabled(e, w, ev)
  {
    var s := Handle(e, w, ev).s;
    match ev
    case Reg(_, _, x) => World(s, x, {})
    case Groups(f) => World(s, w.x, if Relevant(e, w.s, f) then w.arrived + {(f.sender, f.place)} else w.arrived)
    case _ => World(s, w.x, w.arrived)
  }

  ghost predicate IsRun(e: Site, w: World, events: seq<Event>, last: World)
    decreases |events|
  {
    if events == [] then w == last
    else Enabled(e, w, events[0]) && IsRun(e, Next(e, w, events[0]), events[1..], last)
  }

  // ---------------------------------------------------------------- the bookkeeping invariant

  /** The representative's AGREED message has arrived. */
  ghost predicate Done(x: Exchange, arrived: Arrived, r: ProcId) {
    r in x && x[r].frames != [] && (r, |x[r].frames| - 1) in arrived
  }

  ghost predicate ArrivedInv(x: Exchange, arrived: Arrived) {
    && (forall a | a in arrived :: a.0 in x && a.1 < |x[a.0].frames|)
    && (forall r, i: nat | Done(x, arrived, r) && i < |x[r].frames| :: (r, i) in arrived)
  }

  ghost predicate LinkInv(x: Exchange, arrived: Arrived, l: Link) {
    && l.rep in x && l.frames != [] && FramesOf(l, x[l.rep])
    && (forall i: nat | i < |x[l.rep].frames| :: (l.rep, i) in arrived <==> x[l.rep].frames[i] in l.frames)
    && (l.complete <==> Done(x, arrived, l.rep))
  }

  ghost predicate LinksInv(x: Exchange, arrived: Arrived, leader: ProcId, links: seq<Link>) {
    && Distinct(RepsOf(links))
    && (forall l | l in links :: LinkInv(x, arrived, l) && l.rep != leader)
    && (forall a | a in arrived && a.0 != leader :: a.0 in RepsOf(links))
  }

  /** The daemons spoken for by AGREED messages that have arrived. */
  ghost function Covered(x: Exchange, arrived: Arrived): set<ProcId> {
    set r, p | r in x && Done(x, arrived, r) && p in Among(x[r].synced) :: p
  }

  /** The counters, flags and links say exactly what has arrived. */
  ghost predicate Bookkept(x: Exchange, arrived: Arrived, leader: ProcId, s: State) {
    && ArrivedInv(x, arrived)
    && LinksInv(x, arrived, leader, s.links)
    && (s.ownComplete <==> Done(x, arrived, leader))
    && s.numMess == |arrived| && s.numDaemons == |Covered(x, arrived)|
  }

  /** The exchange under way is one of the current membership, this daemon's set takes part in it, and
      it is not over. */
  ghost predicate ExchangeInv(e: Site, w: World) {
    var s := w.s;
    && GoodExchange(e, s.reg, s.regId, w.x) && s.synced != []
    && s.synced[0] in w.x && w.x[s.synced[0]].synced == s.synced
    && Bookkept(w.x, w.arrived, s.synced[0], s)
    && s.numDaemons != |s.reg|
  }

  /** This daemon's table is a replica of the one its leader sent, but for groups flagged since. */
  ghost predicate ReplicaInv(w: World) {
    var s := w.s;
    s.synced != [] && s.synced[0] in w.x &&
    exists t ::
      && Alike(t, w.x[s.synced[0]].table) && Ready(t)
      && s.groups == (if s.gstate == GGATHER then t else FlagAll(t, s.trans))
  }

  /** Buffers marked fresh are the build of what was sent last, and only flags changed since. */
  ghost predicate CacheInv(e: Site, w: World) {
    var s := w.s;
    s.current ==>
      && Leads(e, s) && e.my in w.x && w.x[e.my].synced == s.synced
      && s.bufs == Built(e, w.x[e.my].table, s.synced, s.regId)
      && s.groups == (if s.gstate == GGATHER then w.x[e.my].table else FlagAll(w.x[e.my].table, s.trans))
  }

  ghost predicate WorldInv(e: Site, w: World) {
    && Inv(e, w.s)
    && (w.s.held ==> ExchangeInv(e, w) && ReplicaInv(w) && CacheInv(e, w))
  }
}
