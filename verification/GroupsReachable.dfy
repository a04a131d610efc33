/** The main theorems about runs: the invariant holds in every reachable state. */
module GroupsReachable {
  import opened Wire
  import opened Ordering
  import opened GroupTable
  import opened GroupsAgreement
  import opened GroupsState
  import opened GroupsInvariant
  import opened GroupsExchange
  import opened GroupsRun
  import opened GroupsCompletion
  import opened GroupsGather
  import opened GroupsCascade
  import opened GroupsSafety

  // ---------------------------------------------------------------- an exchange begins

  lemma NothingArrived(x: Exchange, leader: ProcId, s: State)
    requires s.links == [] && s.numMess == 0 && s.numDaemons == 0 && !s.ownComplete
    ensures Bookkept(x, {}, leader, s)
  {
    NoReps();
    assert Covered(x, {}) == {};
  }

  lemma GatheringReady(e: Site, s: State)
    requires GroupsInv(e, s) && (s.gstate == GGATHER || s.gstate == GGT)
    ensures Ready(s.groups)
  {
    hide HeadCount, Posted;
    forall n | n in s.groups ensures ReadyGroup(s.groups[n]) {
      assert GroupInv(e, s, s.groups[n]);
    }
  }

  lemma ExchangeStarts(e: Site, f: Effect, x: Exchange)
    requires Joins(e, f, x) && GroupsInv(e, f.s) && f.s.reg != {} && f.s.gstate == GGATHER
    requires f.s.links == [] && f.s.numMess == 0 && f.s.numDaemons == 0 && !f.s.ownComplete
    ensures ExchangeInv(e, World(f.s, x, {})) && ReplicaInv(World(f.s, x, {}))
  {
    hide GoodExchange, Bookkept, Alike, Ready;
    GatheringReady(e, f.s);
    NothingArrived(x, f.s.synced[0], f.s);
  }

  /** The buffers in hand are the build of the table they were sent from. */
  lemma CacheStarts(e: Site, f: Effect, x: Exchange)
    requires Joins(e, f, x) && f.s.gstate == GGATHER
    requires f.s.current ==> Leads(e, f.s) && f.s.bufs == Built(e, f.s.groups, f.s.synced, f.s.regId)
    ensures CacheInv(e, World(f.s, x, {}))
  {
    hide GoodExchange, Built, Alike;
  }

  lemma RegInTransSent(e: Site, s: State, memb: set<ProcId>, id: MembId)
    requires PhaseInv(s) && s.gstate == GTRANS
    ensures var r := RegInTrans(e, s, memb, id).s;
      && (r.gstate != GGATHER ==> r.gstate == GOP && !r.held)
      && r.links == [] && r.numMess == 0 && r.numDaemons == 0 && !r.ownComplete
      && (r.current ==> Leads(e, r) && r.bufs == Built(e, r.groups, r.synced, r.regId))
  {
    hide Built, Swept, Settle, Frames;
    var t := Swept(s.groups);
    assert Built(e, t, s.synced, id) + [] == Built(e, t, s.synced, id);
  }

  lemma RegInTransStarts(e: Site, w: World, memb: set<ProcId>, id: MembId, x: Exchange)
    requires WorldInv(e, w) && w.s.gstate == GTRANS && w.s.trans <= memb <= Among(e.conf) && !Unknown(id)
    requires var f := RegInTrans(e, w.s, memb, id); f.s.gstate == GGATHER ==> Joins(e, f, x)
    ensures WorldInv(e, World(RegInTrans(e, w.s, memb, id).s, x, {}))
  {
    hide RegInTrans, GroupsInv, SyncedInv, PhaseInv, Joins, Built, ExchangeInv, ReplicaInv, CacheInv;
    var f := RegInTrans(e, w.s, memb, id);
    RegInTransKeeps(e, w.s, memb, id);
    RegInTransSent(e, w.s, memb, id);
    if f.s.gstate == GGATHER {
      MembHasSelf(e, f.s);
      ExchangeStarts(e, f, x);
      CacheStarts(e, f, x);
    }
  }

  lemma MembHasSelf(e: Site, s: State)
    requires SyncedInv(e, s) && s.gstate == GGATHER
    ensures s.reg != {}
  {
    assert e.my in Among(s.synced);
  }

  lemma RegInGgtSent(e: Site, w: World, memb: set<ProcId>, id: MembId)
    requires WorldInv(e, w) && w.s.gstate == GGT
    ensures var r := RegInGgt(e, w.s, memb, id).s;
      r.current ==> Leads(e, r) && r.bufs == Built(e, r.groups, r.synced, r.regId)
  {
    hide WorldInv, Built, Stamped, StaysFresh, TakeLinks, Usable, ShedAll, Frames;
    if StaysFresh(e, w.s) {
      FreshBuffersAreCurrent(e, w, memb, id);
    }
  }

  lemma RegInGgtStarts(e: Site, w: World, memb: set<ProcId>, id: MembId, x: Exchange)
    requires WorldInv(e, w) && w.s.gstate == GGT && w.s.trans <= memb <= Among(e.conf) && !Unknown(id)
    requires Joins(e, RegInGgt(e, w.s, memb, id), x)
    ensures WorldInv(e, World(RegInGgt(e, w.s, memb, id).s, x, {}))
  {
    hide GroupsInv, SyncedInv, Joins, Built, ExchangeInv, ReplicaInv, CacheInv, RegInGgt, TakeLinks, Usable, ShedAll;
    var f := RegInGgt(e, w.s, memb, id);
    RegInGgtKeeps(e, w, memb, id);
    RegInGgtSent(e, w, memb, id);
    RegInGgtIs(e, w.s, memb, id);
    MembHasSelf(e, f.s);
    ExchangeStarts(e, f, x);
    CacheStarts(e, f, x);
  }

  // ---------------------------------------------------------------- an exchange goes on

  lemma TransGoesOn(e: Site, w: World, memb: set<ProcId>, id: MembId)
    requires WorldInv(e, w) && w.s.gstate == GGATHER && e.my in memb && memb <= Base(e, w.s) && !Unknown(id)
    ensures WorldInv(e, World(TransInGather(w.s, memb, id).s, w.x, w.arrived))
  {
    hide GoodExchange, Bookkept, Alike, Ready, GroupsInv, FlagLosing, Built, SyncedInv;
    MembHasSelf(e, w.s);
    TransInGatherKeeps(e, w.s, memb, id);
    var r := World(TransInGather(w.s, memb, id).s, w.x, w.arrived);
    assert r.s.groups == FlagAll(w.s.groups, memb);
    SameBooks(w.x, w.arrived, w.s.synced[0], w.s, r.s);
  }

  lemma SameBooks(x: Exchange, arrived: Arrived, leader: ProcId, s: State, r: State)
    requires Bookkept(x, arrived, leader, s)
    requires r.links == s.links && r.ownComplete == s.ownComplete && r.numMess == s.numMess
    requires r.numDaemons == s.numDaemons
    ensures Bookkept(x, arrived, leader, r)
  {
  }

  lemma RecordedGoesOn(e: Site, w: World, f: Frame)
    requires WorldInv(e, w) && w.s.held && MayArrive(w.x, w.arrived, f)
    requires Recorded(w.s, f).numDaemons != |w.s.reg|
    ensures WorldInv(e, World(Recorded(w.s, f), w.x, Receive(w.arrived, f)))
  {
    hide GoodExchange, Bookkept, Alike, Ready, Filed, Built, Receive, MayArrive, FlagAll, Inv;
    RecordedKeeps(e, w.s, w.x, w.arrived, f);
    RecordedSafe(e, w.s, f);
  }

  /** The state in which the last message of an exchange leaves this daemon. */
  ghost function Completed(e: Site, s: State, f: Frame): State
    requires s.gstate == GGATHER || s.gstate == GGT
  {
    var c := Merged(e, Recorded(s, f));
    if s.gstate == GGATHER then c else TransInGop(c, s.trans, s.transId).s
  }

  lemma HandleGroupsIs(e: Site, s: State, f: Frame)
    requires s.gstate == GGATHER || s.gstate == GGT
    ensures HandleGroups(e, s, f).s ==
      if !Relevant(e, s, f) then s
      else if Recorded(s, f).numDaemons != |s.reg| then Recorded(s, f)
      else Completed(e, s, f)
  {
    hide TransInGop, TakeLinks, Finish, Filed, Conclude;
  }

  lemma CompletedKeeps(e: Site, w: World, f: Frame)
    requires WorldInv(e, w) && (w.s.gstate == GGATHER || w.s.gstate == GGT) && MayArrive(w.x, w.arrived, f)
    requires Recorded(w.s, f).numDaemons == |w.s.reg|
    ensures Inv(e, Completed(e, w.s, f)) && !Completed(e, w.s, f).held
  {
    hide WorldInv, GoodExchange, Bookkept, Filed, Built, Receive, MayArrive, FlagAll, GroupsInv, SyncedInv, RepsOf,
      AbsorbAll, Finish, TakeLinks, TransInGop, Distinct, ReplicaInv, CacheInv;
    Exchanging(e, w);
    RecordedKeeps(e, w.s, w.x, w.arrived, f);
    RecordedSafe(e, w.s, f);
    MergedKeeps(e, Recorded(w.s, f), w.x, Receive(w.arrived, f));
    MergedIs(e, Recorded(w.s, f));
    if w.s.gstate == GGT {
      TransBase(e, w.s);
      TransInGopKeeps(e, Merged(e, Recorded(w.s, f)), w.s.trans, w.s.transId);
      TransInGopHolds(Merged(e, Recorded(w.s, f)), w.s.trans, w.s.transId);
    }
  }

  lemma TransInGopHolds(s: State, trans: set<ProcId>, transId: MembId)
    ensures TransInGop(s, trans, transId).s.held == s.held
  {
  }

  lemma TransBase(e: Site, s: State)
    requires Inv(e, s) && s.gstate == GGT
    ensures e.my in s.trans && s.trans <= s.reg && s.reg != {} && !Unknown(s.transId)
  {
    assert e.my in Among(s.synced);
  }

  lemma GroupsGoOn(e: Site, w: World, f: Frame)
    requires WorldInv(e, w) && Enabled(e, w, Groups(f))
    ensures WorldInv(e, Next(e, w, Groups(f)))
  {
    hide WorldInv, HandleGroups, Relevant, MayArrive, Recorded, Completed, ExchangeInv, ReplicaInv, CacheInv, Inv;
    HandleGroupsIs(e, w.s, f);
    Exchanging(e, w);
    if Relevant(e, w.s, f) {
      if Recorded(w.s, f).numDaemons != |w.s.reg| {
        RecordedGoesOn(e, w, f);
      } else {
        CompletedKeeps(e, w, f);
        Resting(e, World(Completed(e, w.s, f), w.x, Receive(w.arrived, f)));
      }
    } else {
      assert Next(e, w, Groups(f)) == w;
    }
  }

  /** Completion detection: the exchange ends at this daemon exactly when, with this message, the last
      message of every representative has arrived. */
  lemma EndsWithLastMessage(e: Site, w: World, f: Frame)
    requires WorldInv(e, w) && Enabled(e, w, Groups(f)) && Relevant(e, w.s, f)
    ensures Next(e, w, Groups(f)).s.held <==> exists r :: r in w.x && !Done(w.x, Receive(w.arrived, f), r)
  {
    hide WorldInv, HandleGroups, Relevant, MayArrive, Completed, ExchangeInv, ReplicaInv, CacheInv, Inv, Done, Filed,
      Bookkept, GoodExchange, Receive;
    HandleGroupsIs(e, w.s, f);
    Exchanging(e, w);
    ExchangeParts(e, w);
    RecordedKeeps(e, w.s, w.x, w.arrived, f);
    CompletionIsDetected(e, Recorded(w.s, f), w.x, Receive(w.arrived, f));
    if Recorded(w.s, f).numDaemons == |w.s.reg| {
      CompletedKeeps(e, w, f);
    }
  }

  lemma ExchangeParts(e: Site, w: World)
    requires ExchangeInv(e, w)
    ensures GoodExchange(e, w.s.reg, w.s.regId, w.x) && w.s.synced != [] && Bookkept(w.x, w.arrived, w.s.synced[0], w.s)
  {
  }

  lemma Resting(e: Site, w: World)
    requires Inv(e, w.s) && !w.s.held
    ensures WorldInv(e, w)
  {
  }

  // ---------------------------------------------------------------- every event, every run

  lemma SessionsGoOn(e: Site, w: World, sessions: map<Name, Mailbox>)
    requires WorldInv(e, w) && Inv(e, w.s.(sessions := sessions))
    ensures WorldInv(e, w.(s := w.s.(sessions := sessions)))
  {
    hide Inv, GoodExchange, Bookkept, Alike, Built;
    if w.s.held {
      SameBooks(w.x, w.arrived, w.s.synced[0], w.s, w.s.(sessions := sessions));
    }
  }

  lemma MembersGoOn(e: Site, w: World, ev: Event)
    requires WorldInv(e, w) && Enabled(e, w, ev) && (ev.Join? || ev.Leave? || ev.Kill?)
    ensures WorldInv(e, Next(e, w, ev))
  {
    hide GroupsInv, SyncedInv, PhaseInv, ExchangeInv, ReplicaInv, CacheInv, HandleJoin, HandleLeave, HandleKill;
    match ev
    case Join(m, group) =>
      JoinKeeps(e, w.s, m, group);
      JoinHolds(e, w.s, m, group);
    case Leave(m, group) =>
      LeaveKeeps(e, w.s, m, group);
      LeaveHolds(e, w.s, m, group);
    case Kill(m) =>
      KillKeeps(e, w.s, m);
      KillHolds(e, w.s, m);
  }

  lemma JoinHolds(e: Site, s: State, m: Name, group: Name)
    requires (s.gstate == GOP || s.gstate == GTRANS) && PhaseInv(s)
    ensures !HandleJoin(e, s, m, group).s.held
  {
    hide Admit;
  }

  lemma LeaveHolds(e: Site, s: State, m: Name, group: Name)
    requires (s.gstate == GOP || s.gstate == GTRANS) && PhaseInv(s)
    ensures !HandleLeave(e, s, m, group).s.held
  {
    hide Dismissed;
  }

  lemma KillHolds(e: Site, s: State, m: Name)
    requires (s.gstate == GOP || s.gstate == GTRANS) && PhaseInv(s)
    ensures !HandleKill(e, s, m).s.held
  {
    hide Dismissed;
  }

  lemma EventKeeps(e: Site, w: World, ev: Event)
    requires WorldInv(e, w) && Enabled(e, w, ev)
    ensures WorldInv(e, Next(e, w, ev))
  {
    hide WorldInv, Inv, TransInGop, TransInGather, RegInTrans, RegInGgt, HandleJoin, HandleLeave, HandleKill,
      HandleGroups, Joins, MayArrive, Base, MemberSomewhere;
    match ev
    case Trans(memb, id) => TransKeeps(e, w, memb, id);
    case Reg(memb, id, x) => RegKeeps(e, w, memb, id, x);
    case Groups(f) => GroupsGoOn(e, w, f);
    case Join(m, group) => MembersGoOn(e, w, ev);
    case Leave(m, group) => MembersGoOn(e, w, ev);
    case Kill(m) => MembersGoOn(e, w, ev);
    case OpenSession(m, mbox) =>
      WorldInvParts(e, w);
      OpenKeeps(e, w.s, m, mbox);
      SessionsGoOn(e, w, w.s.sessions[m := mbox]);
    case CloseSession(m) =>
      WorldInvParts(e, w);
      CloseKeeps(e, w.s, m);
      SessionsGoOn(e, w, w.s.sessions - {m});
  }

  lemma WorldInvParts(e: Site, w: World)
    requires WorldInv(e, w)
    ensures Inv(e, w.s)
  {
  }

  lemma TransKeeps(e: Site, w: World, memb: set<ProcId>, id: MembId)
    requires WorldInv(e, w) && (w.s.gstate == GOP || w.s.gstate == GGATHER)
    requires e.my in memb && memb <= Base(e, w.s) && !Unknown(id)
    ensures WorldInv(e, World(HandleTrans(w.s, memb, id).s, w.x, w.arrived))
  {
    hide Inv, TransInGop, TransInGather, Base;
    if w.s.gstate == GGATHER {
      TransGoesOn(e, w, memb, id);
    } else {
      TransInGopKeeps(e, w.s, memb, id);
      TransInGopHolds(w.s, memb, id);
      GopRests(e, w.s);
      Resting(e, World(TransInGop(w.s, memb, id).s, w.x, w.arrived));
    }
  }

  lemma GopRests(e: Site, s: State)
    requires Inv(e, s) && s.gstate == GOP
    ensures !s.held
  {
  }

  lemma RegKeeps(e: Site, w: World, memb: set<ProcId>, id: MembId, x: Exchange)
    requires WorldInv(e, w) && (w.s.gstate == GTRANS || w.s.gstate == GGT)
    requires w.s.trans <= memb <= Among(e.conf) && !Unknown(id)
    requires var f := HandleReg(e, w.s, memb, id); f.s.gstate == GGATHER ==> Joins(e, f, x)
    ensures WorldInv(e, World(HandleReg(e, w.s, memb, id).s, x, {}))
  {
    hide WorldInv, RegInTrans, RegInGgt, Joins;
    if w.s.gstate == GTRANS {
      RegInTransStarts(e, w, memb, id, x);
    } else {
      GgtGathers(e, w.s, memb, id);
      RegInGgtStarts(e, w, memb, id, x);
    }
  }

  lemma GgtGathers(e: Site, s: State, memb: set<ProcId>, id: MembId)
    ensures RegInGgt(e, s, memb, id).s.gstate == GGATHER
  {
    hide Built, Stamped, StaysFresh, TakeLinks, Usable, ShedAll, Frames;
  }

  /** The invariant holds in every state that a run from a state with it reaches. */
  lemma {:induction false} RunsKeep(e: Site, w: World, events: seq<Event>, last: World)
    requires WorldInv(e, w) && IsRun(e, w, events, last)
    ensures WorldInv(e, last)
    decreases |events|
  {
    hide WorldInv, Enabled, Next;
    if events != [] {
      EventKeeps(e, w, events[0]);
      RunsKeep(e, Next(e, w, events[0]), events[1..], last);
    }
  }

  /** Every reachable state of a daemon satisfies the invariant. */
  lemma EveryRunIsSafe(e: Site, events: seq<Event>, last: World)
    requires Distinct(e.conf) && e.my in e.conf && IsRun(e, Start(e), events, last)
    ensures WorldInv(e, last)
  {
    StartInv(e);
    RunsKeep(e, Start(e), events, last);
  }
}
