/** GroupsList and the operations that change it in place: reading a GROUPS message into it, and what
    the membership handlers do to one group. */
module GroupsStore {
  import opened Sequences
  import opened Wire
  import opened Wrappers
  import opened GroupTable
  import opened GroupsCodec
  import opened GroupsMerge
  import opened GroupsRoundTrip
  import opened GroupsState

  lemma WithoutOneMore(g: Group, gone: set<ProcId>, p: ProcId)
    requires p in g.daemons && p !in gone
    ensures var h := Without(g, gone);
      Without(g, gone + {p}) == h.(daemons := h.daemons - {p}, num := h.num - |g.daemons[p].members|)
  {
    var all := Only(g.daemons, gone + {p});
    HeadCountSplit(all, p);
    assert all - {p} == Only(g.daemons, gone);
    assert g.daemons - (gone + {p}) == g.daemons - gone - {p};
  }

  ghost function Gone(g: Group, cascade: bool, trans: set<ProcId>): set<ProcId> {
    if cascade then Outside(g, trans) else Partitioned(g)
  }

  lemma GoneAtFirst(g: Group, cascade: bool, trans: set<ProcId>)
    ensures Gone(g, cascade, trans) - g.daemons.Keys == {}
  {
  }

  lemma IsGone(g: Group, cascade: bool, trans: set<ProcId>, p: ProcId)
    requires p in g.daemons
    ensures p in Gone(g, cascade, trans) <==> if cascade then p !in trans else Unknown(g.daemons[p].memb)
  {
  }

  lemma GoneNext(gone: set<ProcId>, todo: set<ProcId>, p: ProcId)
    requires p in todo
    ensures gone - (todo - {p}) == if p in gone then gone - todo + {p} else gone - todo
    ensures p in gone ==> gone - (todo - {p}) != {}
  {
    assert p in gone ==> p in gone - (todo - {p});
  }

  lemma Untouched(g: Group, gone: set<ProcId>, p: ProcId)
    requires p in g.daemons && p !in gone
    ensures p in Without(g, gone).daemons && Without(g, gone).daemons[p] == g.daemons[p]
  {
  }

  lemma WithoutNobody(g: Group)
    ensures Without(g, {}) == g
  {
    NobodyMeansEmpty(Only(g.daemons, {}));
    assert g.daemons - {} == g.daemons;
  }

  lemma NextDaemon(body: seq<byte>, at: nat, n: nat)
    requires at <= |body| && n > 0 && GetDaemons(body, at, n).Parsed?
    ensures GetDaemon(body, at).Parsed?
    ensures var d := GetDaemon(body, at);
      && GetDaemons(body, d.end, n - 1).Parsed?
      && GetDaemons(body, at, n) == Parsed([d.value] + GetDaemons(body, d.end, n - 1).value,
                                           GetDaemons(body, d.end, n - 1).end)
  {
  }

  lemma MergeDaemonsNext(g: Group, d: DaemonRec, ds: seq<DaemonRec>)
    ensures MergeDaemons(g, [d] + ds) == MergeDaemons(MergeDaemon(g, d), ds)
  {
    assert ([d] + ds)[1..] == ds;
  }

  lemma NextChunk(body: seq<byte>, at: nat)
    requires at < |body| && GetChunks(body, at).Some?
    ensures GetChunk(body, at).Parsed?
    ensures var c := GetChunk(body, at);
      && GetChunks(body, c.end).Some? && GetChunks(body, at) == Some([c.value] + GetChunks(body, c.end).value)
  {
  }

  lemma MergeChunksNext(t: Table, c: Chunk, cs: seq<Chunk>)
    ensures MergeChunks(t, [c] + cs) == MergeChunks(MergeChunk(t, c), cs)
  {
    assert ([c] + cs)[1..] == cs;
  }

  method RemoveDaemons(g0: Group, cascade: bool, trans: set<ProcId>) returns (g: Group, changed: bool)
    ensures g == Without(g0, Gone(g0, cascade, trans))
    ensures changed <==> Gone(g0, cascade, trans) != {}
  {
    hide HeadCount, Only, Without, Gone;
    ghost var gone := Gone(g0, cascade, trans);
    WithoutNobody(g0);
    GoneAtFirst(g0, cascade, trans);
    g, changed := g0, false;
    var todo := g.daemons.Keys;
    while todo != {}
      invariant todo <= g0.daemons.Keys && g == Without(g0, gone - todo)
      invariant changed <==> gone - todo != {}
      decreases todo
    {
      var p :| p in todo;
      Untouched(g0, gone - todo, p);
      GoneNext(gone, todo, p);
      IsGone(g0, cascade, trans, p);
      if if cascade then p !in trans else Unknown(g.daemons[p].memb) {
        WithoutOneMore(g0, gone - todo, p);
        g := g.(daemons := g.daemons - {p}, num := g.num - |g.daemons[p].members|);
        changed := true;
      }
      todo := todo - {p};
    }
    assert gone - todo == gone;
  }

  lemma NextProc(body: seq<byte>, at: nat, n: nat)
    requires at + 4 * n <= |body| && n > 0
    ensures GetProcs(body, at, n) == [Get32(body[at..at + 4])] + GetProcs(body, at + 4, n - 1)
  {
  }

  lemma NoMoreProcs(body: seq<byte>)
    ensures forall at: nat | at <= |body| :: GetProcs(body, at, 0) == []
  {
  }

  class GroupsList {
    var table: Table

    constructor ()
      ensures table == map[]
    {
      table := map[];
    }

    // -------------------------------------------------------------- G_mess_to_groups

    method ReadProcs(body: seq<byte>, at: nat, n: nat) returns (ps: seq<ProcId>)
      requires at + 4 * n <= |body|
      ensures ps == GetProcs(body, at, n)
    {
      hide Get32, GetProcs;
      ps := [];
      var pos := at;
      NoMoreProcs(body);
      for i := 0 to n
        invariant pos == at + 4 * i && ps + GetProcs(body, pos, n - i) == GetProcs(body, at, n)
      {
        NextProc(body, pos, n - i);
        Regroup(ps, [Get32(body[pos..pos + 4])], GetProcs(body, pos + 4, n - i - 1));
        ps := ps + [Get32(body[pos..pos + 4])];
        pos := pos + 4;
      }
      assert ps + [] == ps;
    }

    /** The members of one daemon's entry, inserted one by one. */
    method ReadMembers(body: seq<byte>, at: nat, n: nat) returns (members: set<Name>)
      requires at + 32 * n <= |body|
      ensures members == NamesOf(GetNames(body, at, n))
    {
      members := {};
      for i := 0 to n
        invariant members + NamesOf(GetNames(body, at + 32 * i, n - i)) == NamesOf(GetNames(body, at, n))
      {
        var name: Name := body[at + 32 * i..at + 32 * i + 32];
        assert GetNames(body, at + 32 * i, n - i) == [name] + GetNames(body, at + 32 * (i + 1), n - i - 1);
        members := members + {name};
      }
    }

    /** One daemon's entry: the daemon is put into the group, which is flagged if the ids differ. */
    method ReadDaemon(name: Name, body: seq<byte>, at: nat) returns (end: nat)
      requires name in table && GetDaemon(body, at).Parsed?
      modifies this
      ensures var d := GetDaemon(body, at);
        end == d.end && table == old(table)[name := MergeDaemon(old(table)[name], d.value)]
    {
      hide Get16, Get32, GetMembId, NamesOf, GetNames;
      var proc := Get32(body[at..at + 4]);
      var memb := GetMembId(body[at + 4..at + 12]);
      var numMemb := Get16(body[at + 12..at + 14]);
      end := at + 14;
      var g := table[name];
      table := table[name := g.(daemons := g.daemons[proc := Daemon(memb, {})])];
      if !g.changed && memb != g.id.memb {
        table := table[name := table[name].(changed := true)];
      }
      var members := ReadMembers(body, end, numMemb);
      end := end + 32 * numMemb;
      var h := table[name];
      table := table[name := h.(daemons := h.daemons[proc := Daemon(memb, members)], num := h.num + numMemb)];
      assert g.daemons[proc := Daemon(memb, {})][proc := Daemon(memb, members)]
        == g.daemons[proc := Daemon(memb, members)];
    }

    method ReadDaemons(name: Name, body: seq<byte>, at: nat, numDmns: nat) returns (end: nat)
      requires name in table && at <= |body| && GetDaemons(body, at, numDmns).Parsed?
      modifies this
      ensures var ds := GetDaemons(body, at, numDmns);
        end == ds.end && table == old(table)[name := MergeDaemons(old(table)[name], ds.value)]
    {
      hide GetDaemons, GetDaemon, MergeDaemon;
      NoMoreDaemons(body);
      end := at;
      for i := 0 to numDmns
        invariant end <= |body| && name in table && table == old(table)[name := table[name]]
        invariant GetDaemons(body, end, numDmns - i).Parsed?
        invariant GetDaemons(body, end, numDmns - i).end == GetDaemons(body, at, numDmns).end
        invariant MergeDaemons(table[name], GetDaemons(body, end, numDmns - i).value)
               == MergeDaemons(old(table)[name], GetDaemons(body, at, numDmns).value)
      {
        NextDaemon(body, end, numDmns - i);
        var d := GetDaemon(body, end);
        MergeDaemonsNext(table[name], d.value, GetDaemons(body, d.end, numDmns - i - 1).value);
        end := ReadDaemon(name, body, end);
      }
    }

    /** One group of the message: created with the sender's id if it is new here. */
    method ReadGroup(body: seq<byte>, at: nat) returns (end: nat)
      requires GetChunk(body, at).Parsed?
      modifies this
      ensures var c := GetChunk(body, at); end == c.end && table == MergeChunk(old(table), c.value)
    {
      hide GetDaemons, Get16, GetGroupId, MergeDaemons;
      var name: Name := body[at..at + 32];
      end := at + 32;
      if name !in table {
        table := table[name := Blank(GetGroupId(body[end..end + 12]))];
      }
      end := end + 12;
      if Get16(body[end..end + 2]) != 0 {
        table := table[name := table[name].(changed := true)];
      }
      end := end + 2;
      var numDmns := Get16(body[end..end + 2]);
      end := end + 2;
      assert table[name] == Target(old(table), GetChunk(body, at).value);
      end := ReadDaemons(name, body, end, numDmns);
    }

    /** G_mess_to_groups: `sset` keeps its value if the message carries no synced set. */
    method MessToGroups(body: seq<byte>, before: seq<ProcId>) returns (sset: seq<ProcId>)
      requires GetMsg(body).Some?
      modifies this
      ensures table == MergeBody(old(table), body)
      ensures sset == match GetMsg(body).value.synced case Some(named) => named case None => before
    {
      hide GetChunk, GetChunks, GetMembId, MergeChunk, MergeChunks, Get32u, GetProcs;
      var at := 9;
      sset := before;
      if body[8] == FIRST_MESSAGE {
        var size := Get32u(body[9..13]);
        sset := ReadProcs(body, 13, size);
        at := 13 + 4 * size;
      }
      ghost var cs := GetMsg(body).value.chunks;
      while at < |body|
        invariant GetChunks(body, at).Some?
        invariant MergeChunks(table, GetChunks(body, at).value) == MergeChunks(old(table), cs)
        decreases |body| - at
      {
        NextChunk(body, at);
        var c := GetChunk(body, at);
        MergeChunksNext(table, c.value, GetChunks(body, c.end).value);
        at := ReadGroup(body, at);
      }
      NoMoreChunks(body, at, table);
    }

    // -------------------------------------------------------------- one group

    /** G_update_daemon_memb_ids. */
    method UpdateDaemonMembIds(n: Name)
      requires n in table
      modifies this
      ensures table == old(table)[n := old(table)[n].(daemons := Refresh(old(table)[n].daemons, old(table)[n].id.memb))]
    {
      var g := table[n];
      var ds, todo := g.daemons, g.daemons.Keys;
      while todo != {}
        invariant todo <= g.daemons.Keys == ds.Keys
        invariant forall p | p in ds ::
          ds[p] == if p in todo || Unknown(g.daemons[p].memb) then g.daemons[p] else g.daemons[p].(memb := g.id.memb)
        decreases todo
      {
        var p :| p in todo;
        if !Unknown(ds[p].memb) {
          ds := ds[p := ds[p].(memb := g.id.memb)];
        }
        todo := todo - {p};
      }
      assert ds == Refresh(g.daemons, g.id.memb);
      table := table[n := g.(daemons := ds)];
    }

    /** Marks the group's daemons outside the membership as partitioned, and says whether there are any. */
    method MarkPartitioned(n: Name, trans: set<ProcId>) returns (changed: bool)
      requires n in table
      modifies this
      ensures table == old(table)[n := old(table)[n].(daemons := Mark(old(table)[n].daemons, trans))]
      ensures changed <==> Outside(old(table)[n], trans) != {}
    {
      var g := table[n];
      var ds, todo := g.daemons, g.daemons.Keys;
      changed := false;
      while todo != {}
        invariant todo <= g.daemons.Keys == ds.Keys
        invariant forall p | p in ds ::
          ds[p] == if p in todo || p in trans then g.daemons[p] else g.daemons[p].(memb := UNKNOWN)
        invariant changed <==> Outside(g, trans) - todo != {}
        decreases todo
      {
        var p :| p in todo;
        assert p in Outside(g, trans) <==> p !in trans;
        if p !in trans {
          ds := ds[p := ds[p].(memb := UNKNOWN)];
          changed := true;
          assert p in Outside(g, trans) - (todo - {p});
        } else {
          assert Outside(g, trans) - (todo - {p}) == Outside(g, trans) - todo;
        }
        todo := todo - {p};
      }
      assert ds == Mark(g.daemons, trans);
      table := table[n := g.(daemons := ds)];
    }

    /** G_eliminate_partitioned_daemons_status: with a cascading membership the daemons outside it go,
        otherwise the partitioned ones. */
    method EliminatePartitionedDaemons(n: Name, cascade: bool, trans: set<ProcId>) returns (changed: bool)
      requires n in table
      modifies this
      ensures table == old(table)[n := Without(old(table)[n], Gone(old(table)[n], cascade, trans))]
      ensures changed <==> Gone(old(table)[n], cascade, trans) != {}
    {
      var g;
      g, changed := RemoveDaemons(table[n], cascade, trans);
      table := table[n := g];
    }

    /** G_check_if_changed_by_cascade. */
    method ChangedByCascade(n: Name, trans: set<ProcId>) returns (changed: bool)
      requires n in table
      ensures changed <==> Outside(table[n], trans) != {}
    {
      var todo := table[n].daemons.Keys;
      while todo != {}
        invariant todo <= table[n].daemons.Keys && Outside(table[n], trans) <= todo
        decreases todo
      {
        var p :| p in todo;
        if p !in trans {
          assert p in Outside(table[n], trans);
          return true;
        }
        todo := todo - {p};
      }
      return false;
    }

    // -------------------------------------------------------------- one group, one membership event

    method SetId(n: Name, id: GroupId, changed: bool)
      requires n in table
      modifies this
      ensures table == old(table)[n := old(table)[n].(id := id, changed := changed)]
    {
      table := table[n := table[n].(id := id, changed := changed)];
    }

    /** A transitional membership in GOP. */
    method SplitGroup(n: Name, trans: set<ProcId>, transId: MembId) returns (notes: seq<Note>)
      requires n in table
      modifies this
      ensures var o := Split(old(table)[n], trans, transId); table == old(table)[n := o.g] && notes == o.notes
    {
      hide Mark, Refresh;
      ghost var g := table[n];
      notes := [];
      var changed := MarkPartitioned(n, trans);
      if changed {
        if table[n].mboxes != [] {
          notes := [Transitional(table[n].id)];
        }
        SetId(n, GroupId(transId, 1), true);
        UpdateDaemonMembIds(n);
      } else {
        MarkNobody(g, trans);
      }
    }

    /** A transitional membership during an exchange. */
    method FlagGroup(n: Name, trans: set<ProcId>)
      requires n in table
      modifies this
      ensures table == old(table)[n := FlagLosing(old(table)[n], trans)]
    {
      var changed := ChangedByCascade(n, trans);
      if changed {
        table := table[n := table[n].(changed := true)];
      }
    }

    /** A regular membership in GTRANS: the partitioned daemons of a changed group go, and the group with
        them if nobody is left. */
    method SweepGroup(n: Name)
      requires n in table
      modifies this
      ensures var g := old(table)[n];
        table == if g.changed && Sweep(g).num == 0 then old(table) - {n} else old(table)[n := Sweep(g)]
    {
      hide Partitioned, Without;
      if table[n].changed {
        var changed := EliminatePartitionedDaemons(n, false, {});
        if table[n].num == 0 {
          table := table - {n};
        }
      }
    }

    /** The changed group settles under the new membership; it is told after its daemons took the id. */
    method SettleGroup(n: Name, regId: MembId) returns (notes: seq<Note>)
      requires n in table
      modifies this
      ensures var o := Settle(old(table)[n], regId); table == old(table)[n := o.g] && notes == o.notes
    {
      hide Refresh;
      SetId(n, GroupId(regId, 1), false);
      UpdateDaemonMembIds(n);
      notes := if table[n].mboxes != [] then [Heavyweight(table[n], {})] else [];
    }

    /** The same at the end of an exchange, where the group is told first. */
    method ConcludeGroup(n: Name, regId: MembId) returns (notes: seq<Note>)
      requires n in table
      modifies this
      ensures var o := Conclude(old(table)[n], regId); table == old(table)[n := o.g] && notes == o.notes
    {
      hide Refresh;
      SetId(n, GroupId(regId, 1), false);
      notes := if table[n].mboxes != [] then [Heavyweight(table[n], {})] else [];
      UpdateDaemonMembIds(n);
    }

    /** A regular membership in GGT: daemons outside the last transitional membership go. */
    method ShedGroup(n: Name, trans: set<ProcId>) returns (changed: bool)
      requires n in table
      modifies this
      ensures changed <==> Outside(old(table)[n], trans) != {}
      ensures var g := old(table)[n];
        table == if changed && Shed(g, trans).num == 0 then old(table) - {n} else old(table)[n := Shed(g, trans)]
    {
      hide Outside, Without;
      ghost var g := table[n];
      changed := EliminatePartitionedDaemons(n, true, trans);
      if changed {
        if table[n].num == 0 {
          table := table - {n};
        } else {
          table := table[n := table[n].(changed := true)];
        }
      } else {
        WithoutNobody(g);
      }
    }
  }

  lemma MarkNobody(g: Group, trans: set<ProcId>)
    requires Outside(g, trans) == {}
    ensures g.(daemons := Mark(g.daemons, trans)) == g
  {
    forall p | p in g.daemons ensures p in trans {
      assert p !in Outside(g, trans);
    }
    assert Mark(g.daemons, trans) == g.daemons;
  }

  lemma NoMoreDaemons(body: seq<byte>)
    ensures forall at: nat | at <= |body| :: GetDaemons(body, at, 0) == Parsed([], at)
  {
  }

  lemma NoMoreChunks(body: seq<byte>, at: nat, t: Table)
    requires at >= |body|
    ensures GetChunks(body, at) == Some([]) && MergeChunks(t, []) == t
  {
  }
}
