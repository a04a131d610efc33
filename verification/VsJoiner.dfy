/** A joiner's place in the virtual-synchrony sets, and when it leaves an empty set behind. */
module VsJoiner {
  import opened Wire
  import opened Wrappers
  import opened Ordering
  import opened GroupTable
  import opened GroupsCodec
  import opened GroupsMerge
  import opened GroupsState
  import opened GroupsInvariant
  import opened GroupsSafety
  import opened GroupsDuty
  import opened VsSets
  import opened VsMessage

  // ---------------------------------------------------------------- sets and daemons

  lemma {:induction false} SetHasDaemon(ds: seq<DaemonRec>, n: nat, k: nat) returns (i: nat)
    requires n < |ds| && k <= SetOf(ds, n)
    ensures i <= n && SetOf(ds, i) == k
  {
    if k == SetOf(ds, n) {
      i := n;
    } else {
      i := SetHasDaemon(ds, n - 1, k);
    }
  }

  lemma {:induction false} NotInFlat(sets: seq<VsSet>, m: Name)
    requires m !in Flat(sets)
    ensures forall s | s in sets :: m !in s.members
  {
    if sets != [] {
      NotInFlat(sets[..|sets| - 1], m);
    }
  }

  lemma OneIsLast(a: seq<Name>, m: Name)
    requires multiset(a + [m])[m] == 1
    ensures m !in a
  {
    assert multiset(a + [m]) == multiset(a) + multiset{m};
    assert m in a <==> m in multiset(a);
  }

  /** The joiner is listed in its own set only. */
  lemma JoinerListedLast(g: Group, conf: seq<ProcId>, j: Name)
    requires Configured(g, conf) && IsMemberOf(g, j)
    ensures var walk := VsWalk(g, conf);
      forall s | s in WalkSets(walk, Some(j), |walk|).sets :: j !in s.members
  {
    hide VsWalk, WalkSets, Configured, HeadCount, IsMemberOf, Flat;
    var walk := VsWalk(g, conf);
    var sets := WalkSets(walk, Some(j), |walk|).sets;
    SetsPartitionGroup(g, conf, Some(j));
    FlatSnoc(sets, VsSet([j]));
    OneIsLast(Flat(sets), j);
    NotInFlat(sets, j);
  }

  /** Every listed name makes its daemon's set non-empty, but for the joiner's. */
  lemma OthersListed(g: Group, conf: seq<ProcId>, j: Name, k: nat, i: nat, m: Name)
    requires Configured(g, conf) && m != j
    requires var walk := VsWalk(g, conf);
      k < |WalkSets(walk, Some(j), |walk|).sets| && i < |walk| && SetOf(walk, i) == k && m in walk[i].members
    ensures var walk := VsWalk(g, conf);
      m in WalkSets(walk, Some(j), |walk|).sets[k].members
  {
    hide VsWalk, WalkSets, Configured, SetOf;
    var walk := VsWalk(g, conf);
    ListedInItsSet(walk, Some(j), |walk|, k, m);
  }

  /** A set that is empty is that of daemons with no member but the joiner. */
  lemma EmptyHasOnlyJoiner(g: Group, conf: seq<ProcId>, j: Name, k: nat)
    requires Configured(g, conf)
    requires var walk := VsWalk(g, conf);
      k < |WalkSets(walk, Some(j), |walk|).sets| && WalkSets(walk, Some(j), |walk|).sets[k].members == []
    ensures var walk := VsWalk(g, conf);
      forall i, m | 0 <= i < |walk| && SetOf(walk, i) == k && m in walk[i].members :: m == j
  {
    hide VsWalk, WalkSets, Configured, SetOf;
    var walk := VsWalk(g, conf);
    var sets := WalkSets(walk, Some(j), |walk|).sets;
    forall i, m | 0 <= i < |walk| && SetOf(walk, i) == k && m in walk[i].members ensures m == j {
      if m != j {
        OthersListed(g, conf, j, k, i, m);
      }
    }
  }

  lemma OnlyJoinerListed(g: Group, conf: seq<ProcId>, j: Name, k: nat)
    requires Configured(g, conf) && IsMemberOf(g, j)
    requires var walk := VsWalk(g, conf);
      && k < |WalkSets(walk, Some(j), |walk|).sets|
      && forall i, m | 0 <= i < |walk| && SetOf(walk, i) == k && m in walk[i].members :: m == j
    ensures var walk := VsWalk(g, conf);
      WalkSets(walk, Some(j), |walk|).sets[k].members == []
  {
    hide VsWalk, WalkSets, Configured, IsMemberOf, SetOf;
    var walk := VsWalk(g, conf);
    var sets := WalkSets(walk, Some(j), |walk|).sets;
    JoinerListedLast(g, conf, j);
    assert sets[k] in sets;
    forall m | m != j ensures m !in sets[k].members {
      ListedInItsSet(walk, Some(j), |walk|, k, m);
    }
    NothingIn(sets[k].members);
  }

  lemma NothingIn(a: seq<Name>)
    ensures a == [] || a[0] in a
  {
  }

  // ---------------------------------------------------------------- the theorem

  /** Daemon p has the joiner only, and no other daemon came with it. */
  ghost predicate Alone(g: Group, p: ProcId, j: Name)
    requires p in g.daemons
  {
    && g.daemons[p].members == {j}
    && (Unknown(g.daemons[p].memb) || forall q | q in g.daemons && q != p :: g.daemons[q].memb != g.daemons[p].memb)
  }

  /** The daemons in p's set. */
  lemma SetOfDaemon(g: Group, conf: seq<ProcId>, p: ProcId, i: nat)
    requires Configured(g, conf) && p in g.daemons && i < |VsWalk(g, conf)| && VsWalk(g, conf)[i].proc == p
    ensures var walk := VsWalk(g, conf);
      forall l | 0 <= l < |walk| ::
        && walk[l].proc in g.daemons && walk[l].memb == g.daemons[walk[l].proc].memb
        && (forall m :: m in walk[l].members <==> m in g.daemons[walk[l].proc].members)
        && (SetOf(walk, l) == SetOf(walk, i)
            <==> walk[l].proc == p || (walk[l].memb == g.daemons[p].memb && !Unknown(walk[l].memb)))
  {
    hide VsWalk, OwnedOnce, SetOf, Distinct;
    var walk := VsWalk(g, conf);
    forall l | 0 <= l < |walk|
      ensures walk[l].proc in g.daemons
      ensures walk[l] == DaemonRec(walk[l].proc, g.daemons[walk[l].proc].memb, InOrder(g.daemons[walk[l].proc].members))
      ensures SetOf(walk, l) == SetOf(walk, i)
         <==> walk[l].proc == p || (walk[l].memb == walk[i].memb && !Unknown(walk[l].memb))
    {
      assert walk[l] in walk;
      InWalk(g, conf, walk[l]);
      TogetherInWalk(g, conf, l, i);
    }
  }

  lemma LastIsSet(ds: seq<DaemonRec>, joiner: Option<Name>, i: nat)
    requires i < |ds|
    ensures SetOf(ds, i) < |WalkSets(ds, joiner, |ds|).sets|
  {
    SetsAscend(ds, i, |ds| - 1);
  }

  lemma AloneLeavesEmptySet(g: Group, conf: seq<ProcId>, p: ProcId, j: Name)
    requires Configured(g, conf) && p in g.daemons && Alone(g, p, j)
    ensures exists s :: s in AllSets(VsWalk(g, conf), Some(j)) && s.members == []
  {
    hide VsWalk, WalkSets, OwnedOnce, SetOf, Distinct;
    var walk := VsWalk(g, conf);
    var sets := WalkSets(walk, Some(j), |walk|).sets;
    var i := PlaceInWalk(g, conf, p);
    var k := SetOf(walk, i);
    SetOfDaemon(g, conf, p, i);
    LastIsSet(walk, Some(j), i);
    assert j in g.daemons[p].members;
    OnlyJoinerListed(g, conf, j, k);
    assert sets[k] in AllSets(walk, Some(j));
  }

  /** Every daemon has members; then a set that is empty is that of the joiner's daemon, alone. */
  lemma EmptySetIsAlone(g: Group, conf: seq<ProcId>, p: ProcId, j: Name, k: nat)
    requires Configured(g, conf) && p in g.daemons && j in g.daemons[p].members
    requires forall q | q in g.daemons :: g.daemons[q].members != {}
    requires var walk := VsWalk(g, conf);
      k < |WalkSets(walk, Some(j), |walk|).sets| && WalkSets(walk, Some(j), |walk|).sets[k].members == []
    ensures Alone(g, p, j)
  {
    hide VsWalk, WalkSets, SetOf, Distinct;
    var walk := VsWalk(g, conf);
    EmptyHasOnlyJoiner(g, conf, j, k);
    WalkedSets(walk, Some(j));
    var i := SetHasDaemon(walk, |walk| - 1, k);
    var q := walk[i].proc;
    assert walk[i] in walk;
    InWalk(g, conf, walk[i]);
    SetOfDaemon(g, conf, q, i);
    OnlyJoiner(g, q, p, j);
    forall r | r in g.daemons && r != p && !Unknown(g.daemons[p].memb) ensures g.daemons[r].memb != g.daemons[p].memb {
      var l := PlaceInWalk(g, conf, r);
      var m :| m in g.daemons[r].members;
      assert m != j && m in walk[l].members;
    }
  }

  lemma WalkedSets(ds: seq<DaemonRec>, joiner: Option<Name>)
    ensures |WalkSets(ds, joiner, |ds|).sets| == if ds == [] then 0 else SetOf(ds, |ds| - 1) + 1
  {
  }

  lemma OnlyJoiner(g: Group, q: ProcId, p: ProcId, j: Name)
    requires OwnedOnce(g) && q in g.daemons && p in g.daemons && j in g.daemons[p].members
    requires g.daemons[q].members != {} && forall m | m in g.daemons[q].members :: m == j
    ensures q == p && g.daemons[p].members == {j}
  {
    var m :| m in g.daemons[q].members;
    assert m == j;
  }

  /** When a set is empty: a membership message to a group without empty daemon entries has one if and only if
      the joiner is the only member at its daemon and no other daemon came with that one. */
  lemma EmptySetIff(g: Group, conf: seq<ProcId>, p: ProcId, j: Name)
    requires Configured(g, conf) && p in g.daemons && j in g.daemons[p].members
    requires forall q | q in g.daemons :: g.daemons[q].members != {}
    ensures (exists s :: s in AllSets(VsWalk(g, conf), Some(j)) && s.members == []) <==> Alone(g, p, j)
  {
    hide VsWalk, WalkSets, Configured, Alone;
    var walk := VsWalk(g, conf);
    if Alone(g, p, j) {
      AloneLeavesEmptySet(g, conf, p, j);
    }
    if s :| s in AllSets(walk, Some(j)) && s.members == [] {
      var k :| 0 <= k < |AllSets(walk, Some(j))| && AllSets(walk, Some(j))[k] == s;
      EmptySetIsAlone(g, conf, p, j, k);
    }
  }

  /** A message without a joiner has no empty set. */
  lemma NoEmptySet(g: Group, conf: seq<ProcId>)
    requires Configured(g, conf) && forall q | q in g.daemons :: g.daemons[q].members != {}
    ensures forall s | s in AllSets(VsWalk(g, conf), None) :: s.members != []
  {
    hide VsWalk, WalkSets, SetOf, OwnedOnce, Distinct;
    var walk := VsWalk(g, conf);
    var sets := WalkSets(walk, None, |walk|).sets;
    forall k | 0 <= k < |sets| ensures sets[k].members != [] {
      WalkedSets(walk, None);
      var i := SetHasDaemon(walk, |walk| - 1, k);
      assert walk[i] in walk;
      InWalk(g, conf, walk[i]);
      var m :| m in g.daemons[walk[i].proc].members;
      ListedInItsSet(walk, None, |walk|, k, m);
    }
  }

  // ---------------------------------------------------------------- joins that are announced

  ghost predicate Announced(f: Effect, n: Name, j: Name) {
    n in f.notes && exists g :: Heavyweight(g, {j}) in f.notes[n]
  }

  lemma AnnouncedGroup(e: Site, s: State, j: Name, n: Name)
    requires Inv(e, s) && (s.gstate == GOP || s.gstate == GTRANS) && Announced(HandleJoin(e, s, j, n), n, j)
    requires j in e.owner ==> e.owner[j] in s.reg && (e.owner[j] == e.my ==> j in s.sessions)
    ensures var f := HandleJoin(e, s, j, n);
      && n in f.s.groups && j in e.owner && e.owner[j] in f.s.groups[n].daemons
      && j in f.s.groups[n].daemons[e.owner[j]].members && f.notes[n][0] == Heavyweight(f.s.groups[n], {j})
  {
    hide Inv, Blank, Increment;
  }

  lemma NoEmptyEntries(e: Site, s: State, n: Name)
    requires Inv(e, s) && n in s.groups
    ensures forall q | q in s.groups[n].daemons :: s.groups[n].daemons[q].members != {}
  {
    hide Posted, HeadCount, SyncedInv, PhaseInv;
    assert GroupInv(e, s, s.groups[n]);
  }

  /** Of a join that is announced with virtual-synchrony sets, the message has an empty set if and only if the
      joiner is alone at its daemon and no other daemon came with that one. */
  lemma AnnouncedEmptySetIff(e: Site, s: State, j: Name, n: Name)
    requires Inv(e, s) && (s.gstate == GOP || s.gstate == GTRANS) && Announced(HandleJoin(e, s, j, n), n, j)
    requires j in e.owner ==> e.owner[j] in s.reg && (e.owner[j] == e.my ==> j in s.sessions)
    ensures var f := HandleJoin(e, s, j, n);
      && n in f.s.groups && j in e.owner && e.owner[j] in f.s.groups[n].daemons
      && f.notes[n][0] == Heavyweight(f.s.groups[n], {j})
      && ((exists v :: v in AllSets(VsWalk(f.s.groups[n], e.conf), Some(j)) && v.members == [])
          <==> Alone(f.s.groups[n], e.owner[j], j))
  {
    hide Inv, HandleJoin, Announced, Configured, Alone, VsWalk, AllSets;
    AnnouncedGroup(e, s, j, n);
    JoinKeeps(e, s, j, n);
    var f := HandleJoin(e, s, j, n);
    GroupCanBeTold(e, f.s, n);
    NoEmptyEntries(e, f.s, n);
    EmptySetIff(f.s.groups[n], e.conf, e.owner[j], j);
  }

  /** Such joins happen: the first member at a partitioned daemon joins a group with local members. */
  lemma PartitionedJoinerLeavesEmptySet(e: Site, s: State, j: Name, n: Name)
    requires Inv(e, s) && s.gstate == GTRANS && j in e.owner && n in s.groups && s.groups[n].mboxes != []
    requires var p := e.owner[j]; p in s.reg && p != e.my && p !in s.trans && p !in s.groups[n].daemons
    ensures var f := HandleJoin(e, s, j, n);
      && Announced(f, n, j) && n in f.s.groups
      && exists v :: v in AllSets(VsWalk(f.s.groups[n], e.conf), Some(j)) && v.members == []
  {
    hide Inv, Configured, VsWalk, AllSets, Increment;
    var f := HandleJoin(e, s, j, n);
    assert f.notes[n][0] == Heavyweight(f.s.groups[n], {j});
    assert f.notes[n][0] in f.notes[n];
    AnnouncedEmptySetIff(e, s, j, n);
  }
}
