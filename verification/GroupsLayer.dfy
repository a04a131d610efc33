/** The groups layer as the daemon runs it: its global variables as fields, and the handlers as methods
    that change them step by step, each proved to compute the function that specifies it. */
module GroupsLayer {
  import opened Wire
  import opened Wrappers
  import opened Ordering
  import opened GroupTable
  import opened GroupsCodec
  import opened GroupsBuffers
  import opened GroupsMerge
  import opened GroupsWalk
  import opened GroupsRoundTrip
  import opened GroupsAgreement
  import opened SyncedSets
  import opened GroupsState
  import opened GroupsTransfer
  import opened GroupsStore

  /** The messages of the links are well formed, and the sets they name are new to the synced set; the
      daemon aborts otherwise. */
  ghost predicate CanMerge(e: Site, t: Taken, links: seq<Link>)
    decreases |links|
  {
    links == [] ||
    (var sset := LinkSynced(links[0].frames, t.sset);
     && Readable(links[0].frames)
     && Among(t.synced) !! Among(sset) && (forall p | p in t.synced || p in sset :: p in e.conf)
     && CanMerge(e, TakeLink(e, t, links[0]), links[1..]))
  }

  ghost predicate Readable(frames: seq<Frame>) {
    forall f | f in frames :: GetMsg(f.body).Some?
  }

  /** The build loop would end for this leader. */
  ghost predicate CanBuild(e: Site, s: State) {
    Leads(e, s) ==> Sendable(s.groups, e.conf, s.synced)
  }

  class Layer {
    const e: Site
    const groupsList: GroupsList
    var gstate: GState
    var transMemb: set<ProcId>
    var transMembId: MembId
    var regMemb: set<ProcId>
    var regMembId: MembId
    var mySyncedSet: seq<ProcId>
    var groupsBufs: seq<seq<byte>>
    var groupsBufsFresh: bool
    var gatheredComplete: bool
    var gathered: seq<Link>
    var numMessGathered: nat
    var numDaemonsGathered: nat
    var held: bool
    var sessions: map<Name, Mailbox>

    ghost function Abs(): State
      reads this, groupsList
    {
      State(gstate, transMemb, transMembId, regMemb, regMembId, groupsList.table, mySyncedSet, groupsBufs,
            groupsBufsFresh,
            gatheredComplete, gathered, numMessGathered, numDaemonsGathered, held, sessions)
    }

    /** G_init. */
    constructor (e: Site)
      ensures this.e == e && fresh(groupsList) && Abs() == Init(e)
    {
      this.e := e;
      groupsList := new GroupsList();
      gstate := GOP;
      transMemb, transMembId, regMemb, regMembId := {}, NoMemb(), {}, NoMemb();
      mySyncedSet := [e.my];
      groupsBufs, groupsBufsFresh := [], false;
      gatheredComplete, gathered, numMessGathered, numDaemonsGathered := false, [], 0, 0;
      held, sessions := false, map[];
    }

    // -------------------------------------------------------------- G_handle_trans_memb

    method SplitGroups(trans: set<ProcId>, transId: MembId) returns (notes: map<Name, seq<Note>>)
      modifies groupsList
      ensures var t := old(groupsList.table);
        groupsList.table == SplitAll(t, trans, transId) && notes == SplitNotes(t, trans, transId)
    {
      hide Split;
      ghost var t := groupsList.table;
      var todo := groupsList.table.Keys;
      notes := map[];
      while todo != {}
        invariant todo <= t.Keys == groupsList.table.Keys && notes.Keys == t.Keys - todo
        invariant forall n | n in t ::
          groupsList.table[n] == if n in todo then t[n] else Split(t[n], trans, transId).g
        invariant forall n | n in notes :: notes[n] == Split(t[n], trans, transId).notes
        decreases todo
      {
        var n :| n in todo;
        var sent := groupsList.SplitGroup(n, trans, transId);
        notes := notes[n := sent];
        todo := todo - {n};
      }
    }

    method FlagGroups(trans: set<ProcId>)
      modifies groupsList
      ensures var t := old(groupsList.table); groupsList.table == FlagAll(t, trans)
    {
      hide FlagLosing;
      ghost var t := groupsList.table;
      var todo := groupsList.table.Keys;
      while todo != {}
        invariant todo <= t.Keys == groupsList.table.Keys
        invariant forall n | n in t :: groupsList.table[n] == if n in todo then t[n] else FlagLosing(t[n], trans)
        decreases todo
      {
        var n :| n in todo;
        groupsList.FlagGroup(n, trans);
        todo := todo - {n};
      }
    }

    method HandleTransMemb(memb: set<ProcId>, id: MembId) returns (notes: map<Name, seq<Note>>)
      requires gstate == GOP || gstate == GGATHER
      modifies this, groupsList
      ensures Effect(Abs(), notes, [], {}) == HandleTrans(old(Abs()), memb, id)
    {
      hide SplitAll, SplitNotes, FlagAll;
      transMemb := memb;
      transMembId := id;
      if gstate == GOP {
        notes := SplitGroups(memb, id);
        gstate := GTRANS;
        mySyncedSet := Select(mySyncedSet, memb);
      } else {
        notes := map[];
        FlagGroups(memb);
        gstate := GGT;
      }
    }

    // -------------------------------------------------------------- sending

    method SendGroupsMessages() returns (sent: seq<Frame>)
      ensures sent == Frames(e, mySyncedSet, groupsBufs)
    {
      sent := [];
      for i := 0 to |groupsBufs|
        invariant sent == Frames(e, mySyncedSet, groupsBufs)[..i]
      {
        sent := sent + [Frame(e.my, i, i == |groupsBufs| - 1, |mySyncedSet|, groupsBufs[i])];
      }
    }

    method StampGroupsBufs()
      modifies this`groupsBufs
      ensures groupsBufs == Stamped(old(groupsBufs), regMembId)
    {
      ghost var bufs := groupsBufs;
      for i := 0 to |groupsBufs|
        invariant |groupsBufs| == |bufs|
        invariant forall j | 0 <= j < i :: groupsBufs[j] == Stamped(bufs, regMembId)[j]
        invariant forall j | i <= j < |bufs| :: groupsBufs[j] == bufs[j]
      {
        hide Stamp, Stamped;
        StampedAt(bufs, regMembId, i);
        if |groupsBufs[i]| >= 8 {
          groupsBufs := groupsBufs[i := Stamp(groupsBufs[i], regMembId)];
        }
      }
    }

    /** New buffers go in front of what is in the list. */
    method BuildNewBufs()
      requires Sendable(groupsList.table, e.conf, mySyncedSet)
      modifies this`groupsBufs
      ensures groupsBufs == Built(e, groupsList.table, mySyncedSet, regMembId) + old(groupsBufs)
    {
      hide Bodies, NonEmpty, AllFit, Solid;
      var table := WalkTable(groupsList.table, e.conf);
      var bufs := BuildNewGroupsBufs(table, mySyncedSet, regMembId);
      groupsBufs := bufs + groupsBufs;
    }

    // -------------------------------------------------------------- G_handle_reg_memb in GTRANS

    method SweepAndSettle(n: Name, id: MembId) returns (kept: bool, sent: seq<Note>)
      requires n in groupsList.table
      modifies groupsList
      ensures var g := old(groupsList.table)[n];
        && (kept <==> !(g.changed && Sweep(g).num == 0))
        && (!kept ==> groupsList.table == old(groupsList.table) - {n})
        && (kept ==> n in groupsList.table && groupsList.table == old(groupsList.table)[n := groupsList.table[n]]
                     && SettledAs(Sweep(g), id, groupsList.table[n], sent))
    {
      hide Sweep, Settle;
      sent := [];
      groupsList.SweepGroup(n);
      kept := n in groupsList.table;
      if kept && groupsList.table[n].changed {
        sent := groupsList.SettleGroup(n, id);
      }
    }

    /** The purely subtractive case. */
    method SettleGroups(id: MembId) returns (notes: map<Name, seq<Note>>)
      modifies groupsList
      ensures var t := Swept(old(groupsList.table)); groupsList.table == SettleAll(t, id) && notes == SettleNotes(t, id)
    {
      hide Sweep, Settle, Swept, SettleAll, SettleNotes, Visiting;
      ghost var t, sw := groupsList.table, Swept(groupsList.table);
      ghost var kt, kn := SettleAll(sw, id), SettleNotes(sw, id);
      var todo := groupsList.table.Keys;
      notes := map[];
      SettlingBegins(t, id);
      while todo != {}
        invariant Visiting(t, kt, kn, todo, groupsList.table, notes)
        decreases todo
      {
        var n :| n in todo;
        NotVisited(t, kt, kn, todo, groupsList.table, notes, n);
        ghost var was, told := groupsList.table, notes;
        SettledAt(t, id, n);
        var kept, sent := SweepAndSettle(n, id);
        if kept {
          notes := notes[n := sent];
        }
        OneVisited(t, kt, kn, todo, was, told, n, groupsList.table, notes);
        todo := todo - {n};
      }
      AllVisited(t, kt, kn, groupsList.table, notes);
    }

    method SweepGroups()
      modifies groupsList
      ensures groupsList.table == Swept(old(groupsList.table))
    {
      hide Sweep, Swept, Visiting;
      ghost var t, sw := groupsList.table, Swept(groupsList.table);
      var todo := groupsList.table.Keys;
      SweepingBegins(t);
      while todo != {}
        invariant Visiting(t, sw, map[], todo, groupsList.table, map[])
        decreases todo
      {
        var n :| n in todo;
        NotVisited(t, sw, map[], todo, groupsList.table, map[], n);
        ghost var was := groupsList.table;
        SweptAt(t, n);
        groupsList.SweepGroup(n);
        OneVisited(t, sw, map[], todo, was, map[], n, groupsList.table, map[]);
        todo := todo - {n};
      }
      AllVisited(t, sw, map[], groupsList.table, map[]);
    }

    /** The groups are swept, and a leader sends them. */
    method StartExchange() returns (sent: seq<Frame>)
      requires Leads(e, Abs()) ==> Sendable(Swept(groupsList.table), e.conf, mySyncedSet)
      modifies this`gstate, this`held, this`groupsBufs, this`groupsBufsFresh, groupsList
      ensures gstate == GGATHER && held && groupsList.table == Swept(old(groupsList.table))
      ensures var s := old(Abs());
        if Leads(e, s) then
          && groupsBufs == Built(e, Swept(s.groups), s.synced, s.regId) + s.bufs
          && groupsBufsFresh && sent == Frames(e, s.synced, groupsBufs)
        else groupsBufs == s.bufs && groupsBufsFresh == s.current && sent == []
    {
      hide Swept, Built, Frames, Sendable;
      sent := [];
      SweepGroups();
      held := true;
      if mySyncedSet != [] && mySyncedSet[0] == e.my {
        BuildNewBufs();
        groupsBufsFresh := true;
        sent := SendGroupsMessages();
      }
      gstate := GGATHER;
    }

    method RegMembInTrans(memb: set<ProcId>, id: MembId) returns (notes: map<Name, seq<Note>>, sent: seq<Frame>)
      requires gstate == GTRANS && CanBuild(e, RegInTrans(e, Abs(), memb, id).s)
      modifies this, groupsList
      ensures Effect(Abs(), notes, sent, {}) == RegInTrans(e, old(Abs()), memb, id)
    {
      hide Swept, SettleAll, SettleNotes, Built, Frames, Sendable, Leads, RegInTrans, CanBuild;
      RegInTransIs(e, Abs(), memb, id);
      ghost var s := Abs();
      regMemb, regMembId := memb, id;
      SameLeader(e, s, Abs());
      notes, sent := map[], [];
      if |transMemb| == |regMemb| {
        notes := SettleGroups(id);
        gstate := GOP;
      } else {
        sent := StartExchange();
      }
    }

    // -------------------------------------------------------------- taking in links

    /** The messages of one link, latest first. */
    method ReadMessages(frames: seq<Frame>, before: seq<ProcId>) returns (sset: seq<ProcId>)
      requires Readable(frames)
      modifies groupsList
      ensures groupsList.table == MergeBodies(old(groupsList.table), LinkBodies(frames))
      ensures sset == LinkSynced(frames, before)
    {
      hide GetMsg, MergeBody, LinkBodies, LinkSynced, MergeBodies;
      sset := before;
      WholeLink(frames);
      for i := 0 to |frames|
        invariant MergeBodies(groupsList.table, LinkBodies(frames[i..]))
          == MergeBodies(old(groupsList.table), LinkBodies(frames))
        invariant LinkSynced(frames[i..], sset) == LinkSynced(frames, before)
      {
        NextFrame(groupsList.table, frames, i, sset);
        sset := groupsList.MessToGroups(frames[i].body, sset);
      }
      NoMoreFrames(groupsList.table, frames, sset);
    }

    method TakeIn(l: Link, before: seq<ProcId>) returns (sset: seq<ProcId>)
      requires var t := Taken(groupsList.table, mySyncedSet, before); exists rest :: CanMerge(e, t, [l] + rest)
      modifies this`mySyncedSet, groupsList
      ensures Taken(groupsList.table, mySyncedSet, sset)
        == TakeLink(e, Taken(old(groupsList.table), old(mySyncedSet), before), l)
    {
      hide LinkSynced, MergeBodies, Merge, Readable;
      sset := ReadMessages(l.frames, before);
      mySyncedSet := MergeLists(e.conf, mySyncedSet, sset);
    }

    /** The consuming loop of a cascading regular membership: only complete links are used, and only if
        the messages of the own set are complete too. */
    method UseLinks()
      requires CanMerge(e, Taken(groupsList.table, mySyncedSet, []), UsableOf(gatheredComplete, gathered))
      modifies this`mySyncedSet, this`gathered, this`groupsBufsFresh, groupsList
      ensures var t := TakeLinks(e, Taken(old(groupsList.table), old(mySyncedSet), []),
                                 UsableOf(old(gatheredComplete), old(gathered)));
        && groupsList.table == t.groups && mySyncedSet == t.synced
      ensures gathered == []
      ensures groupsBufsFresh <==> old(groupsBufsFresh) && !Consumes(UsableOf(old(gatheredComplete), old(gathered)))
    {
      hide TakeLink, CompleteOnes, Consumes;
      ghost var whole := if gatheredComplete then CompleteOnes(gathered) else [];
      ghost var rest, t := whole, TakeLinks(e, Taken(groupsList.table, mySyncedSet, []), whole);
      var sset := [];
      while gathered != []
        invariant rest == if gatheredComplete then CompleteOnes(gathered) else []
        invariant CanMerge(e, Taken(groupsList.table, mySyncedSet, sset), rest)
        invariant TakeLinks(e, Taken(groupsList.table, mySyncedSet, sset), rest) == t
        invariant groupsBufsFresh && !Consumes(rest) <==> old(groupsBufsFresh) && !Consumes(whole)
        decreases |gathered|
      {
        var l := gathered[0];
        FirstComplete(gathered);
        if gatheredComplete && l.complete {
          ConsumesFirst(rest);
          assert rest == [l] + rest[1..];
          sset := TakeIn(l, sset);
          if l.frames != [] {
            groupsBufsFresh := false;
          }
          rest := rest[1..];
        }
        gathered := gathered[1..];
      }
      NoLinks();
    }

    /** The consuming loop of G_compute_and_notify. */
    method UseAllLinks()
      requires CanMerge(e, Taken(groupsList.table, mySyncedSet, []), gathered)
      modifies this`mySyncedSet, this`gathered, groupsList
      ensures var t := TakeLinks(e, Taken(old(groupsList.table), old(mySyncedSet), []), old(gathered));
        && groupsList.table == t.groups && mySyncedSet == t.synced
      ensures gathered == []
    {
      hide TakeLink;
      ghost var t := TakeLinks(e, Taken(groupsList.table, mySyncedSet, []), gathered);
      var sset := [];
      while gathered != []
        invariant CanMerge(e, Taken(groupsList.table, mySyncedSet, sset), gathered)
        invariant TakeLinks(e, Taken(groupsList.table, mySyncedSet, sset), gathered) == t
        decreases |gathered|
      {
        assert gathered == [gathered[0]] + gathered[1..];
        sset := TakeIn(gathered[0], sset);
        gathered := gathered[1..];
      }
    }

    // -------------------------------------------------------------- G_handle_reg_memb in GGT

    method ShedGroups()
      modifies this`groupsBufsFresh, groupsList
      ensures groupsList.table == ShedAll(old(groupsList.table), transMemb)
      ensures groupsBufsFresh == (old(groupsBufsFresh) && NobodyOutside(old(groupsList.table), transMemb))
    {
      hide Shed, ShedAll, Outside, Visiting;
      ghost var t, sh := groupsList.table, ShedAll(groupsList.table, transMemb);
      var todo := groupsList.table.Keys;
      SheddingBegins(t, transMemb);
      while todo != {}
        invariant Visiting(t, sh, map[], todo, groupsList.table, map[]) && todo <= t.Keys
        invariant groupsBufsFresh <==> old(groupsBufsFresh) && forall n | n in t && n !in todo ::
          Outside(t[n], transMemb) == {}
        decreases todo
      {
        var n :| n in todo;
        NotVisited(t, sh, map[], todo, groupsList.table, map[], n);
        ghost var was := groupsList.table;
        ShedAt(t, transMemb, n);
        var changed := groupsList.ShedGroup(n, transMemb);
        if changed {
          groupsBufsFresh := false;
        }
        OneVisited(t, sh, map[], todo, was, map[], n, groupsList.table, map[]);
        todo := todo - {n};
      }
      AllVisited(t, sh, map[], groupsList.table, map[]);
    }

    /** G_update_synced_set_status on MySyncedSet. */
    method UpdateSyncedSetStatus() returns (changed: bool)
      modifies this`mySyncedSet
      ensures mySyncedSet == Select(old(mySyncedSet), transMemb)
      ensures changed <==> !(Among(old(mySyncedSet)) <= transMemb)
    {
      SelectLosesNone(mySyncedSet, transMemb);
      var r := Select(mySyncedSet, transMemb);
      changed := |r| != |mySyncedSet|;
      mySyncedSet := r;
    }

    /** The groups and the synced set after a cascading regular membership, and whether the buffers still
        state them. */
    method TrimGroups()
      requires CanMerge(e, Taken(groupsList.table, mySyncedSet, []), UsableOf(gatheredComplete, gathered))
      modifies this`mySyncedSet, this`gathered, this`groupsBufsFresh, groupsList
      ensures var s := old(Abs()); var links := UsableOf(s.ownComplete, s.links);
        var t := TakeLinks(e, Taken(s.groups, s.synced, []), links);
        Abs() == s.(groups := ShedAll(t.groups, s.trans), synced := Select(t.synced, s.trans), links := [],
                    current := s.current && !Consumes(links) && NobodyOutside(t.groups, s.trans)
                               && Among(t.synced) <= s.trans)
    {
      hide TakeLinks, UsableOf, Consumes, ShedAll, NobodyOutside, CanMerge, Among, Select;
      UseLinks();
      ShedGroups();
      var syncedSetChanged := UpdateSyncedSetStatus();
      if syncedSetChanged {
        groupsBufsFresh := false;
      }
    }

    method ClearCounters()
      modifies this`gatheredComplete, this`numMessGathered, this`numDaemonsGathered
      ensures Abs() == old(Abs()).(ownComplete := false, numMess := 0, numDaemons := 0)
    {
      gatheredComplete, numMessGathered, numDaemonsGathered := false, 0, 0;
    }

    method GatherAnew(memb: set<ProcId>, id: MembId)
      modifies this`gstate, this`regMemb, this`regMembId
      ensures Abs() == old(Abs()).(gstate := GGATHER, reg := memb, regId := id)
    {
      regMemb, regMembId := memb, id;
      gstate := GGATHER;
    }

    method Trim(memb: set<ProcId>, id: MembId)
      requires CanMerge(e, Taken(groupsList.table, mySyncedSet, []), UsableOf(gatheredComplete, gathered))
      modifies this, groupsList
      ensures Abs() == Trimmed(e, old(Abs()), memb, id)
    {
      hide Abs, TakeLinks, Usable, UsableOf, ShedAll, NobodyOutside, CanMerge, Among, Select, Trimmed;
      ghost var s := Abs();
      TrimGroups();
      ClearCounters();
      GatherAnew(memb, id);
      TrimmedIs(e, s, memb, id, TakeLinks(e, Taken(s.groups, s.synced, []), UsableOf(s.ownComplete, s.links)), Abs());
    }

    /** A leader sends its buffers, built anew unless they still state the table. */
    method SendOwnBufs() returns (sent: seq<Frame>)
      requires CanBuild(e, Abs())
      modifies this`groupsBufs, this`groupsBufsFresh
      ensures var s := old(Abs());
        if Leads(e, s) then
          && groupsBufs == (if s.current then Stamped(s.bufs, s.regId) else Built(e, s.groups, s.synced, s.regId))
          && groupsBufsFresh && sent == Frames(e, s.synced, groupsBufs)
        else groupsBufs == s.bufs && groupsBufsFresh == s.current && sent == []
    {
      hide Built, Stamped, Frames, Sendable;
      sent := [];
      if mySyncedSet != [] && mySyncedSet[0] == e.my {
        if groupsBufsFresh {
          StampGroupsBufs();
        } else {
          groupsBufs := [];
          BuildNewBufs();
          assert groupsBufs == Built(e, groupsList.table, mySyncedSet, regMembId);
          groupsBufsFresh := true;
        }
        sent := SendGroupsMessages();
      }
    }

    method RegMembInGgt(memb: set<ProcId>, id: MembId) returns (sent: seq<Frame>)
      requires gstate == GGT && CanMerge(e, Taken(groupsList.table, mySyncedSet, []),
                                         UsableOf(gatheredComplete, gathered))
      requires CanBuild(e, RegInGgt(e, Abs(), memb, id).s)
      modifies this, groupsList
      ensures Effect(Abs(), map[], sent, {}) == RegInGgt(e, old(Abs()), memb, id)
    {
      hide Trimmed, UsableOf, Built, Stamped, Frames, CanMerge, CanBuild;
      ghost var s := Abs();
      Trim(memb, id);
      GatherAgain(e, s, memb, id);
      sent := SendOwnBufs();
    }

    /** G_handle_reg_memb. */
    method HandleRegMemb(memb: set<ProcId>, id: MembId) returns (notes: map<Name, seq<Note>>, sent: seq<Frame>)
      requires gstate == GTRANS || gstate == GGT
      requires gstate == GGT ==> CanMerge(e, Taken(groupsList.table, mySyncedSet, []),
                                          UsableOf(gatheredComplete, gathered))
      requires CanBuild(e, HandleReg(e, Abs(), memb, id).s)
      modifies this, groupsList
      ensures Effect(Abs(), notes, sent, {}) == HandleReg(e, old(Abs()), memb, id)
    {
      hide RegInTrans, RegInGgt, CanMerge, CanBuild, Usable;
      notes := map[];
      if gstate == GTRANS {
        notes, sent := RegMembInTrans(memb, id);
      } else {
        sent := RegMembInGgt(memb, id);
        QuietRegInGgt(e, old(Abs()), memb, id);
      }
    }

    // -------------------------------------------------------------- G_handle_groups

    /** A message of another set is kept with its sender's others, in front. */
    method Keep(f: Frame)
      modifies this`gathered
      ensures gathered == Filed(old(gathered), f)
    {
      hide LinkIndex;
      var i := FindLink(f.sender);
      if i == |gathered| {
        gathered := [Link(f.sender, f.agreed, [f])] + gathered;
      } else {
        var l := gathered[i];
        gathered := gathered[i := l.(frames := [f] + l.frames, complete := l.complete || f.agreed)];
      }
    }

    /** The first part of G_handle_groups: the message is counted, and kept if it comes from another set. */
    method Record(f: Frame)
      modifies this`numMessGathered, this`numDaemonsGathered, this`gatheredComplete, this`gathered
      ensures Abs() == Recorded(old(Abs()), f)
    {
      hide Filed;
      if mySyncedSet != [] && mySyncedSet[0] == f.sender {
        gatheredComplete := gatheredComplete || f.agreed;
      } else {
        Keep(f);
      }
      numMessGathered := numMessGathered + 1;
      if f.agreed {
        numDaemonsGathered := numDaemonsGathered + f.represents;
      }
    }

    method FindLink(rep: ProcId) returns (i: nat)
      ensures i == LinkIndex(gathered, rep)
    {
      i := 0;
      assert gathered[0..] == gathered;
      while i < |gathered| && gathered[i].rep != rep
        invariant i <= |gathered| && LinkIndex(gathered, rep) == i + LinkIndex(gathered[i..], rep)
      {
        assert gathered[i..][1..] == gathered[i + 1..];
        i := i + 1;
      }
    }

    /** The changed groups settle under the new membership and are told who came with whom. */
    method ConcludeGroups() returns (notes: map<Name, seq<Note>>)
      modifies groupsList
      ensures var t := old(groupsList.table);
        groupsList.table == Finish(t, regMembId) && notes == ConcludeNotes(t, regMembId)
    {
      hide Conclude, Finish, ConcludeNotes, Settled, Visiting;
      ghost var t := groupsList.table;
      ghost var kt, kn := Finish(t, regMembId), ConcludeNotes(t, regMembId);
      var todo := groupsList.table.Keys;
      notes := map[];
      ConcludingBegins(t, regMembId);
      while todo != {}
        invariant Visiting(t, kt, kn, todo, groupsList.table, notes)
        decreases todo
      {
        var n :| n in todo;
        NotVisited(t, kt, kn, todo, groupsList.table, notes, n);
        ghost var was, told := groupsList.table, notes;
        ConcludedAt(t, regMembId, n);
        var sent := [];
        if groupsList.table[n].changed {
          sent := groupsList.ConcludeGroup(n, regMembId);
        }
        notes := notes[n := sent];
        OneVisited(t, kt, kn, todo, was, told, n, groupsList.table, notes);
        todo := todo - {n};
      }
      AllVisited(t, kt, kn, groupsList.table, notes);
    }

    /** G_compute_and_notify. */
    method ComputeAndNotify() returns (notes: map<Name, seq<Note>>)
      requires CanMerge(e, Taken(groupsList.table, mySyncedSet, []), gathered)
      modifies this, groupsList
      ensures Effect(Abs(), notes, [], {}) == Compute(e, old(Abs()))
    {
      hide TakeLinks, Finish, ConcludeNotes, CanMerge;
      UseAllLinks();
      notes := ConcludeGroups();
      gatheredComplete := false;
      numMessGathered := 0;
      numDaemonsGathered := 0;
      groupsBufs := [];
      groupsBufsFresh := false;
    }

    /** The two handlers' messages to one group, in the order they are sent. */
    method Joined(a: map<Name, seq<Note>>, b: map<Name, seq<Note>>) returns (r: map<Name, seq<Note>>)
      ensures r == Both(a, b)
    {
      r := map n | n in a.Keys + b.Keys :: (if n in a then a[n] else []) + (if n in b then b[n] else []);
    }

    method HandleGroupsMess(f: Frame) returns (notes: map<Name, seq<Note>>)
      requires gstate == GGATHER || gstate == GGT
      requires Relevant(e, Abs(), f) ==>
        var s1 := Recorded(Abs(), f);
        s1.numDaemons == |s1.reg| ==> CanMerge(e, Taken(s1.groups, s1.synced, []), s1.links)
      modifies this, groupsList
      ensures Effect(Abs(), notes, [], {}) == HandleGroups(e, old(Abs()), f)
    {
      hide Filed, TakeLinks, Finish, ConcludeNotes, CanMerge, SplitAll, SplitNotes, Both;
      notes := map[];
      if !StampedWith(f, regMembId) || f.sender !in e.conf {
        return;
      }
      Record(f);
      if numDaemonsGathered != |regMemb| {
        return;
      }
      held := false;
      notes := ComputeAndNotify();
      if gstate == GGATHER {
        gstate := GOP;
      } else {
        gstate := GOP;
        var more := HandleTransMemb(transMemb, transMembId);
        notes := Joined(notes, more);
      }
    }

    // -------------------------------------------------------------- members

    /** The group to be joined: a new one starts unchanged, with index 0, under the current membership. */
    method Joinable(group: Name) returns (g: Group)
      ensures g == if group in groupsList.table then groupsList.table[group]
                   else Blank(GroupId(if gstate == GOP then regMembId else transMembId, 0))
    {
      if group in groupsList.table {
        g := groupsList.table[group];
      } else {
        g := Blank(GroupId(if gstate == GOP then regMembId else transMembId, 0));
      }
    }

    /** Enters m at daemon p, whose entry is created with mark `memb` if it has none. */
    method AdmitMember(g0: Group, memb: MembId, p: ProcId, m: Name, mbox: seq<Mailbox>)
        returns (g: Group, sent: seq<Note>)
      ensures Outcome(g, sent) == Admit(g0, memb, p, m, mbox)
    {
      g := g0;
      if p !in g.daemons {
        g := g.(daemons := g.daemons[p := Daemon(memb, {})]);
      }
      var d := g.daemons[p];
      g := g.(daemons := g.daemons[p := d.(members := d.members + {m})], num := g.num + 1,
              id := g.id.(index := Increment(g.id.index)));
      g := g.(mboxes := g.mboxes + mbox);
      if Unknown(d.memb) && !g.changed {
        g := g.(changed := true);
      }
      sent := [];
      if g.mboxes != [] {
        sent := if g.changed then [Heavyweight(g, {m}), Transitional(g.id)] else [Lightweight(g, ByJoin, m)];
      }
      assert g == Admit(g0, memb, p, m, mbox).g;
    }

    method HandleJoinMess(m: Name, group: Name) returns (notes: map<Name, seq<Note>>)
      requires gstate == GOP || gstate == GTRANS
      modifies groupsList
      ensures Effect(Abs(), notes, [], {}) == HandleJoin(e, old(Abs()), m, group)
    {
      hide Admit;
      notes := map[];
      if m !in e.owner {
        return;
      }
      var p := e.owner[m];
      var g := Joinable(group);
      if (p in g.daemons && m in g.daemons[p].members) || (p == e.my && m !in sessions) {
        return;
      }
      var memb := if gstate == GOP || p in transMemb then g.id.memb else UNKNOWN;
      var sent;
      g, sent := AdmitMember(g, memb, p, m, if p == e.my then [sessions[m]] else []);
      groupsList.table := groupsList.table[group := g];
      notes := map[group := sent];
    }

    /** Takes member m out of group n; the group is dropped with its last member. */
    method DismissMember(m: Name, n: Name, cause: Cause) returns (gone: bool, sent: seq<Note>)
      requires IsMember(e, groupsList.table, m, n)
      modifies groupsList
      ensures var o := Dismissed(e, old(Abs()), m, n, cause);
        && (gone <==> o.g.num == 0)
        && groupsList.table == (if gone then old(groupsList.table) - {n} else old(groupsList.table)[n := o.g])
        && (!gone ==> sent == o.notes)
    {
      hide Unpost, Increment;
      var g := groupsList.table[n];
      ghost var o := Dismissed(e, Abs(), m, n, cause);
      var p := e.owner[m];
      sent := [];
      if p == e.my && m in sessions && sessions[m] in g.mboxes {
        g := g.(mboxes := Unpost(g.mboxes, sessions[m]));
      }
      var d := g.daemons[p].(members := g.daemons[p].members - {m});
      g := g.(daemons := g.daemons[p := d], num := g.num - 1);
      if d.members == {} {
        g := g.(daemons := g.daemons - {p});
        assert g.daemons == old(groupsList.table)[n].daemons - {p};
      }
      gone := g.num == 0;
      if gone {
        groupsList.table := groupsList.table - {n};
        return;
      }
      g := g.(id := g.id.(index := Increment(g.id.index)));
      if g.mboxes != [] {
        sent := if g.changed then [Heavyweight(g, {}), Transitional(g.id)] else [Lightweight(g, cause, m)];
      }
      assert g == o.g;
      groupsList.table := groupsList.table[n := g];
    }

    method HandleLeaveMess(m: Name, group: Name) returns (notes: map<Name, seq<Note>>, selfLeft: set<(Name, Name)>)
      requires gstate == GOP || gstate == GTRANS
      modifies groupsList
      ensures Effect(Abs(), notes, [], selfLeft) == HandleLeave(e, old(Abs()), m, group)
    {
      hide Dismissed;
      notes, selfLeft := map[], {};
      if !IsMember(e, groupsList.table, m, group) {
        return;
      }
      if e.owner[m] == e.my {
        selfLeft := {(m, group)};
      }
      var gone, sent := DismissMember(m, group, ByLeave);
      if !gone {
        notes := map[group := sent];
      }
    }

    method HandleKillMess(m: Name) returns (notes: map<Name, seq<Note>>)
      requires gstate == GOP || gstate == GTRANS
      modifies groupsList
      ensures Effect(Abs(), notes, [], {}) == HandleKill(e, old(Abs()), m)
    {
      hide Dismissed, IsMember, KilledTable, KilledNotes, Visiting;
      ghost var s, kt, kn := Abs(), KilledTable(e, Abs(), m), KilledNotes(e, Abs(), m);
      var todo := groupsList.table.Keys;
      notes := map[];
      KillingBegins(e, s, m);
      while todo != {}
        invariant Visiting(s.groups, kt, kn, todo, groupsList.table, notes)
        decreases todo
      {
        var n :| n in todo;
        NotVisited(s.groups, kt, kn, todo, groupsList.table, notes, n);
        ghost var was, told := groupsList.table, notes;
        KilledAt(e, s, m, n);
        SameMember(e, s.groups, groupsList.table, m, n);
        if IsMember(e, groupsList.table, m, n) {
          SameDismissal(e, s, Abs(), m, n);
          var gone, sent := DismissMember(m, n, ByDisconnect);
          if !gone {
            notes := notes[n := sent];
          }
        }
        OneVisited(s.groups, kt, kn, todo, was, told, n, groupsList.table, notes);
        todo := todo - {n};
      }
      AllVisited(s.groups, kt, kn, groupsList.table, notes);
    }
  }

  /** While the groups in `todo` have not been visited: what the others have become, and what was told. */
  ghost predicate Visiting(t: Table, kt: Table, kn: map<Name, seq<Note>>, todo: set<Name>, table: Table,
                          notes: map<Name, seq<Note>>)
  {
    && todo <= t.Keys && kt.Keys <= t.Keys && kn.Keys <= t.Keys
    && (forall n :: n in table <==> n in todo || n in kt)
    && (forall n :: n in notes <==> n !in todo && n in kn)
    && (forall n | n in table :: table[n] == if n in todo then t[n] else kt[n])
    && (forall n | n in notes :: notes[n] == kn[n])
  }

  lemma KillingBegins(e: Site, s: State, m: Name)
    ensures Visiting(s.groups, KilledTable(e, s, m), KilledNotes(e, s, m), s.groups.Keys, s.groups, map[])
  {
    hide Dismissed, IsMember, Vanishes;
  }

  lemma NotVisited(t: Table, kt: Table, kn: map<Name, seq<Note>>, todo: set<Name>, table: Table,
                     notes: map<Name, seq<Note>>, n: Name)
    requires Visiting(t, kt, kn, todo, table, notes) && n in todo
    ensures n in t && n in table && table[n] == t[n]
  {
  }

  lemma OneVisited(t: Table, kt: Table, kn: map<Name, seq<Note>>, todo: set<Name>, table: Table,
                      notes: map<Name, seq<Note>>, n: Name, table': Table, notes': map<Name, seq<Note>>)
    requires Visiting(t, kt, kn, todo, table, notes) && n in todo
    requires table' == if n in kt then table[n := kt[n]] else table - {n}
    requires notes' == if n in kn then notes[n := kn[n]] else notes
    ensures Visiting(t, kt, kn, todo - {n}, table', notes')
  {
  }

  lemma AllVisited(t: Table, kt: Table, kn: map<Name, seq<Note>>, table: Table, notes: map<Name, seq<Note>>)
    requires Visiting(t, kt, kn, {}, table, notes)
    ensures table == kt && notes == kn
  {
  }

  ghost predicate SettledAs(g: Group, id: MembId, h: Group, notes: seq<Note>) {
    if g.changed then h == Settle(g, id).g && notes == Settle(g, id).notes else h == g && notes == []
  }

  lemma SettlingBegins(t: Table, id: MembId)
    ensures Visiting(t, SettleAll(Swept(t), id), SettleNotes(Swept(t), id), t.Keys, t, map[])
  {
    hide Sweep, Settle;
  }

  lemma SweepingBegins(t: Table)
    ensures Visiting(t, Swept(t), map[], t.Keys, t, map[])
  {
    hide Sweep;
  }

  lemma SheddingBegins(t: Table, trans: set<ProcId>)
    ensures Visiting(t, ShedAll(t, trans), map[], t.Keys, t, map[])
  {
    hide Shed, Outside;
  }

  lemma ConcludingBegins(t: Table, id: MembId)
    ensures Visiting(t, Finish(t, id), ConcludeNotes(t, id), t.Keys, t, map[])
  {
    hide Settled, Conclude;
  }

  lemma ConcludedAt(t: Table, id: MembId, n: Name)
    requires n in t
    ensures n in Finish(t, id) && n in ConcludeNotes(t, id)
    ensures Finish(t, id)[n] == if t[n].changed then Conclude(t[n], id).g else t[n]
    ensures ConcludeNotes(t, id)[n] == if t[n].changed then Conclude(t[n], id).notes else []
  {
    hide Conclude;
  }

  lemma SettledAt(t: Table, id: MembId, n: Name)
    requires n in t
    ensures var kt, kn := SettleAll(Swept(t), id), SettleNotes(Swept(t), id);
      && (n in kt <==> !(t[n].changed && Sweep(t[n]).num == 0)) && (n in kn <==> n in kt)
      && (n in kt ==> SettledAs(Sweep(t[n]), id, kt[n], kn[n]))
  {
    hide Sweep, Settle;
  }

  lemma TrimmedIs(e: Site, s: State, memb: set<ProcId>, id: MembId, t: Taken, r: State)
    requires t == TakeLinks(e, Taken(s.groups, s.synced, []), UsableOf(s.ownComplete, s.links))
    requires r == s.(groups := ShedAll(t.groups, s.trans), synced := Select(t.synced, s.trans), links := [],
                     current := s.current && !Consumes(UsableOf(s.ownComplete, s.links))
                                && NobodyOutside(t.groups, s.trans) && Among(t.synced) <= s.trans)
                   .(ownComplete := false, numMess := 0, numDaemons := 0).(gstate := GGATHER, reg := memb, regId := id)
    ensures r == Trimmed(e, s, memb, id)
  {
    hide TakeLinks, UsableOf, Consumes, ShedAll, NobodyOutside, Among, Select;
  }

  lemma SweptAt(t: Table, n: Name)
    requires n in t
    ensures n in Swept(t) <==> !(t[n].changed && Sweep(t[n]).num == 0)
    ensures n in Swept(t) ==> Swept(t)[n] == Sweep(t[n])
  {
    hide Sweep;
  }

  lemma WholeLink(frames: seq<Frame>)
    ensures frames[0..] == frames
  {
  }

  lemma NextFrame(t: Table, frames: seq<Frame>, i: nat, sset: seq<ProcId>)
    requires i < |frames| && Readable(frames)
    ensures GetMsg(frames[i].body).Some?
    ensures MergeBodies(t, LinkBodies(frames[i..]))
      == MergeBodies(MergeBody(t, frames[i].body), LinkBodies(frames[i + 1..]))
    ensures LinkSynced(frames[i..], sset) == LinkSynced(frames[i + 1..],
              match GetMsg(frames[i].body).value.synced case Some(named) => named case None => sset)
  {
    hide GetMsg, MergeBody;
    assert frames[i..][1..] == frames[i + 1..];
    assert LinkBodies(frames[i..]) == [frames[i].body] + LinkBodies(frames[i + 1..]);
  }

  lemma NoMoreFrames(t: Table, frames: seq<Frame>, sset: seq<ProcId>)
    ensures MergeBodies(t, LinkBodies(frames[|frames|..])) == t && LinkSynced(frames[|frames|..], sset) == sset
  {
  }

  lemma FirstComplete(links: seq<Link>)
    requires links != []
    ensures CompleteOnes(links)
         == if links[0].complete then [links[0]] + CompleteOnes(links[1..]) else CompleteOnes(links[1..])
  {
  }

  lemma ConsumesFirst(links: seq<Link>)
    requires links != []
    ensures Consumes(links) <==> links[0].frames != [] || Consumes(links[1..])
  {
    assert links == [links[0]] + links[1..];
  }

  lemma NoLinks()
    ensures !Consumes([]) && CompleteOnes([]) == []
  {
  }

  lemma ShedAt(t: Table, trans: set<ProcId>, n: Name)
    requires n in t
    ensures n in ShedAll(t, trans) <==> !(Outside(t[n], trans) != {} && Shed(t[n], trans).num == 0)
    ensures n in ShedAll(t, trans) ==> ShedAll(t, trans)[n] == Shed(t[n], trans)
  {
    hide Shed;
  }

  lemma GatherAgain(e: Site, s: State, memb: set<ProcId>, id: MembId)
    ensures Trimmed(e, s, memb, id).bufs == s.bufs && Trimmed(e, s, memb, id).regId == id
    ensures CanBuild(e, RegInGgt(e, s, memb, id).s) == CanBuild(e, Trimmed(e, s, memb, id))
  {
    hide TakeLinks, Usable, ShedAll, StaysFresh, Built, Stamped, Frames, Sendable, Select;
  }

  lemma QuietRegInGgt(e: Site, s: State, memb: set<ProcId>, id: MembId)
    ensures RegInGgt(e, s, memb, id).notes == map[] && RegInGgt(e, s, memb, id).selfLeft == {}
  {
    hide TakeLinks, Usable, ShedAll, Built, Stamped, Frames, StaysFresh;
  }

  lemma KilledAt(e: Site, s: State, m: Name, n: Name)
    requires n in s.groups
    ensures var kt, kn := KilledTable(e, s, m), KilledNotes(e, s, m);
      if IsMember(e, s.groups, m, n) then
        var o := Dismissed(e, s, m, n, ByDisconnect);
        && (n in kt <==> o.g.num != 0) && (n in kn <==> o.g.num != 0)
        && (n in kt ==> kt[n] == o.g) && (n in kn ==> kn[n] == o.notes)
      else n in kt && kt[n] == s.groups[n] && n !in kn
  {
    hide Dismissed;
  }

  lemma SameMember(e: Site, t: Table, u: Table, m: Name, n: Name)
    requires n in t && n in u && t[n] == u[n]
    ensures IsMember(e, t, m, n) <==> IsMember(e, u, m, n)
  {
  }

  lemma SameDismissal(e: Site, s: State, r: State, m: Name, n: Name)
    requires IsMember(e, s.groups, m, n) && IsMember(e, r.groups, m, n)
    requires s.groups[n] == r.groups[n] && s.sessions == r.sessions
    ensures Dismissed(e, s, m, n, ByDisconnect) == Dismissed(e, r, m, n, ByDisconnect)
  {
    hide Dismiss, Unpost;
  }

  lemma SameLeader(e: Site, s: State, r: State)
    requires r.synced == s.synced
    ensures Leads(e, r) <==> Leads(e, s)
  {
  }

  /** The two outcomes of a regular membership in GTRANS. */
  lemma RegInTransIs(e: Site, s: State, memb: set<ProcId>, id: MembId)
    ensures |s.trans| == |memb| ==>
      RegInTrans(e, s, memb, id)
      == Effect(s.(gstate := GOP, reg := memb, regId := id, groups := SettleAll(Swept(s.groups), id)),
                SettleNotes(Swept(s.groups), id), [], {})
    ensures |s.trans| != |memb| && !Leads(e, s) ==>
      RegInTrans(e, s, memb, id)
      == Quiet(s.(gstate := GGATHER, reg := memb, regId := id, groups := Swept(s.groups), held := true))
    ensures |s.trans| != |memb| && Leads(e, s) ==>
      var bufs := Built(e, Swept(s.groups), s.synced, id) + s.bufs;
      && RegInTrans(e, s, memb, id)
         == Effect(s.(gstate := GGATHER, reg := memb, regId := id, groups := Swept(s.groups), held := true,
                      bufs := bufs, current := true),
                   map[], Frames(e, s.synced, bufs), {})
      && (CanBuild(e, RegInTrans(e, s, memb, id).s) ==> Sendable(Swept(s.groups), e.conf, s.synced))
  {
    hide Swept, SettleAll, SettleNotes, Built, Frames, Sendable;
  }
}
