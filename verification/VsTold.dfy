/** What a membership message says to those who read it: the members of the group in order, and who came with whom,
    in the sets, in their order. */
module VsTold {
  import opened Sequences
  import opened Wire
  import opened Wrappers
  import opened Ordering
  import opened GroupTable
  import opened GroupsCodec
  import opened VsSets
  import opened VsMessage
  import opened MembInfo

  // ---------------------------------------------------------------- the two orders

  ghost predicate Precedes(conf: seq<ProcId>, p: ProcId, q: ProcId) {
    exists k, l :: 0 <= k < l < |conf| && conf[k] == p && conf[l] == q
  }

  /** Daemon p comes before daemon q: in the configuration or, by id, with the lesser membership id, unknown ones
      last, and in the configuration if the ids compare equal. */
  ghost predicate DaemonBefore(g: Group, conf: seq<ProcId>, byId: bool, p: ProcId, q: ProcId)
    requires p in g.daemons && q in g.daemons
  {
    var a, b := g.daemons[p].memb, g.daemons[q].memb;
    if byId then IdBefore(a, b) || (IdLevel(a, b) && Precedes(conf, p, q)) else Precedes(conf, p, q)
  }

  /** Member m is listed before member n: by daemon, at one daemon by name. */
  ghost predicate MemberBefore(g: Group, conf: seq<ProcId>, byId: bool, m: Name, n: Name) {
    forall p, q | p in g.daemons && m in g.daemons[p].members && q in g.daemons && n in g.daemons[q].members ::
      if p == q then NameBefore(m, n) else DaemonBefore(g, conf, byId, p, q)
  }

  ghost predicate MembersOrdered(g: Group, conf: seq<ProcId>, byId: bool, names: seq<Name>) {
    forall i, j | 0 <= i < j < |names| :: MemberBefore(g, conf, byId, names[i], names[j])
  }

  // ---------------------------------------------------------------- the message

  /** The sets list every member but the joiner, by id; two of them share a set exactly if they are at one daemon or
      their daemons carry one known id. The joiner is listed alone, last, and nowhere else. */
  ghost predicate SetsTell(sets: seq<VsSet>, g: Group, conf: seq<ProcId>, joiner: Option<Name>) {
    && (joiner.Some? ==> sets != [] && sets[|sets| - 1] == VsSet([joiner.value]))
    && var listed := Flat(if joiner.Some? then sets[..|sets| - 1] else sets);
       && (forall m :: m in listed <==> IsMemberOf(g, m) && joiner != Some(m))
       && MembersOrdered(g, conf, true, listed)
       && forall p, m, q, n | p in g.daemons && m in g.daemons[p].members && joiner != Some(m)
                              && q in g.daemons && n in g.daemons[q].members && joiner != Some(n) ::
            (exists s :: s in sets && m in s.members && n in s.members)
            <==> p == q || (g.daemons[p].memb == g.daemons[q].memb && !Unknown(g.daemons[p].memb))
  }

  /** The set lists the members, other than the joiner, at daemon my and at those that came with it. */
  ghost predicate SetOfDaemonIs(s: VsSet, g: Group, joiner: Option<Name>, my: ProcId)
    requires my in g.daemons
  {
    forall p, m | p in g.daemons && m in g.daemons[p].members && joiner != Some(m) ::
      m in s.members
      <==> p == my || (g.daemons[p].memb == g.daemons[my].memb && !Unknown(g.daemons[p].memb))
  }

  /** The names of all members in configuration order. */
  ghost predicate NamesTell(names: seq<Name>, g: Group, conf: seq<ProcId>) {
    && (forall m :: m in names <==> IsMemberOf(g, m)) && MembersOrdered(g, conf, false, names)
  }

  /** What the message b, with count names in its header, says of group g. */
  ghost predicate Tells(b: seq<byte>, count: nat, g: Group, conf: seq<ProcId>, joiner: Option<Name>) {
    && 32 * count + FIRST_SET_OFFSET <= |b| && NamesTell(GetNames(b, 0, count), g, conf)
    && var d := b[32 * count..];
       && GetGroupId(d[..12]) == g.id
       && var r := GetInfos(d, FIRST_SET_OFFSET, NumSets(d));
          r.Parsed? && r.end == |d| && SetsTell(Members(d, r.value), g, conf, joiner)
  }

  /** The receiver's own set in the message. */
  ghost function OwnSet(b: seq<byte>, count: nat): Option<VsSet>
    requires 32 * count + FIRST_SET_OFFSET <= |b|
  {
    var d := b[32 * count..];
    var r := GetInfos(d, FIRST_SET_OFFSET, NumSets(d));
    if r.Beyond? then None
    else
      match PlaceOf(r.value, OwnSetAt(d))
      case None => None
      case Some(k) => Some(Members(d, r.value)[k])
  }

  // ---------------------------------------------------------------- configuration order

  lemma PrecedesTail(conf: seq<ProcId>, p: ProcId, q: ProcId)
    requires conf != [] && Precedes(conf[1..], p, q)
    ensures Precedes(conf, p, q)
  {
    var k, l :| 0 <= k < l < |conf[1..]| && conf[1..][k] == p && conf[1..][l] == q;
    assert conf[k + 1] == p && conf[l + 1] == q;
  }

  lemma {:induction false} SelectInOrder(conf: seq<ProcId>, s: set<ProcId>)
    ensures forall i, j | 0 <= i < j < |Select(conf, s)| :: Precedes(conf, Select(conf, s)[i], Select(conf, s)[j])
  {
    hide Precedes;
    if conf != [] {
      SelectInOrder(conf[1..], s);
      var ps, rest := Select(conf, s), Select(conf[1..], s);
      forall i, j | 0 <= i < j < |ps| ensures Precedes(conf, ps[i], ps[j]) {
        if conf[0] !in s {
          PrecedesTail(conf, ps[i], ps[j]);
        } else if i > 0 {
          assert Precedes(conf[1..], rest[i - 1], rest[j - 1]);
          PrecedesTail(conf, ps[i], ps[j]);
        } else {
          FirstPrecedes(conf, ps[j]);
        }
      }
    }
  }

  lemma FirstPrecedes(conf: seq<ProcId>, q: ProcId)
    requires conf != [] && q in conf[1..]
    ensures Precedes(conf, conf[0], q)
  {
    var l :| 0 <= l < |conf[1..]| && conf[1..][l] == q;
    assert conf[l + 1] == q;
  }

  // ---------------------------------------------------------------- daemons in order, members in order

  /** Records of group g's daemons. */
  ghost predicate RecsOf(g: Group, ds: seq<DaemonRec>) {
    forall d | d in ds :: d.proc in g.daemons
                          && d == DaemonRec(d.proc, g.daemons[d.proc].memb, InOrder(g.daemons[d.proc].members))
  }

  ghost predicate DaemonsOrdered(g: Group, conf: seq<ProcId>, byId: bool, ds: seq<DaemonRec>)
    requires RecsOf(g, ds)
  {
    forall i, j | 0 <= i < j < |ds| :: DaemonBefore(g, conf, byId, ds[i].proc, ds[j].proc)
  }

  lemma InsertRecs(g: Group, d: DaemonRec, ds: seq<DaemonRec>)
    requires RecsOf(g, ds) && RecsOf(g, [d])
    ensures RecsOf(g, Insert(d, ds))
  {
    InsertHolds(d, ds);
    forall x | x in Insert(d, ds) ensures x == d || x in ds {
      assert x in multiset(Insert(d, ds));
    }
    assert d in [d];
  }

  /** A daemon that comes behind all others in the configuration is put into its place. */
  lemma {:induction false} InsertOrdered(g: Group, conf: seq<ProcId>, d: DaemonRec, ds: seq<DaemonRec>)
    requires RecsOf(g, ds) && RecsOf(g, [d]) && DaemonsOrdered(g, conf, true, ds)
    requires forall x | x in ds :: Precedes(conf, x.proc, d.proc)
    ensures RecsOf(g, Insert(d, ds)) && DaemonsOrdered(g, conf, true, Insert(d, ds))
  {
    hide RecsOf, Precedes;
    InsertRecs(g, d, ds);
    if ds != [] {
      RecsSplit(g, d, ds);
      if IdBefore(d.memb, ds[0].memb) {
        forall x | x in ds ensures DaemonBefore(g, conf, true, d.proc, x.proc) {
          BeforeAll(g, conf, d, ds, x);
        }
      } else {
        RecsOrderedTail(g, conf, ds);
        InsertOrdered(g, conf, d, ds[1..]);
        IdsCompare(ds[0].memb, d.memb, d.memb);
        InsertHolds(d, ds[1..]);
        forall x | x in Insert(d, ds[1..]) ensures DaemonBefore(g, conf, true, ds[0].proc, x.proc) {
          assert x in multiset(Insert(d, ds[1..]));
          assert x == d || x in ds[1..];
        }
      }
    }
  }

  lemma RecsSplit(g: Group, d: DaemonRec, ds: seq<DaemonRec>)
    requires RecsOf(g, ds) && RecsOf(g, [d])
    ensures d.proc in g.daemons && d.memb == g.daemons[d.proc].memb
    ensures forall x | x in ds :: x.proc in g.daemons && x.memb == g.daemons[x.proc].memb
    ensures ds != [] ==> RecsOf(g, ds[1..])
  {
    assert d in [d];
  }

  lemma BeforeAll(g: Group, conf: seq<ProcId>, d: DaemonRec, ds: seq<DaemonRec>, x: DaemonRec)
    requires RecsOf(g, ds) && RecsOf(g, [d]) && DaemonsOrdered(g, conf, true, ds)
    requires x in ds && IdBefore(d.memb, ds[0].memb)
    ensures d.proc in g.daemons && x.proc in g.daemons && DaemonBefore(g, conf, true, d.proc, x.proc)
  {
    hide RecsOf, Precedes;
    RecsSplit(g, d, ds);
    var j :| 0 <= j < |ds| && ds[j] == x;
    assert j == 0 || DaemonBefore(g, conf, true, ds[0].proc, ds[j].proc);
    IdsCompare(d.memb, ds[0].memb, x.memb);
  }

  lemma RecsOrderedTail(g: Group, conf: seq<ProcId>, ds: seq<DaemonRec>)
    requires ds != [] && RecsOf(g, ds) && DaemonsOrdered(g, conf, true, ds)
    ensures RecsOf(g, ds[1..]) && DaemonsOrdered(g, conf, true, ds[1..])
    ensures forall x | x in ds[1..] :: DaemonBefore(g, conf, true, ds[0].proc, x.proc)
  {
    hide DaemonBefore;
  }

  lemma {:induction false} ByMembOrdered(g: Group, conf: seq<ProcId>, recs: seq<DaemonRec>)
    requires RecsOf(g, recs) && DaemonsOrdered(g, conf, false, recs)
    ensures RecsOf(g, ByMemb(recs)) && DaemonsOrdered(g, conf, true, ByMemb(recs))
  {
    hide Precedes;
    if recs != [] {
      var front, d := recs[..|recs| - 1], recs[|recs| - 1];
      ByMembOrdered(g, conf, front);
      ByMembIsOrdered(front);
      forall x | x in ByMemb(front) ensures Precedes(conf, x.proc, d.proc) {
        assert x in multiset(ByMemb(front));
        assert x in front;
        var i :| 0 <= i < |front| && front[i] == x;
        assert DaemonBefore(g, conf, false, recs[i].proc, recs[|recs| - 1].proc);
      }
      assert d in recs;
      InsertOrdered(g, conf, d, ByMemb(front));
    }
  }

  lemma ListedBy(ds: seq<DaemonRec>, m: Name)
    ensures m in AllNames(ds) <==> exists i :: 0 <= i < |ds| && m in ds[i].members
  {
    if ds != [] {
      ListedBy(ds[1..], m);
      if i :| 0 <= i < |ds| && m in ds[i].members {
        assert i == 0 || m in ds[1..][i - 1].members;
      }
      if i :| 0 <= i < |ds[1..]| && m in ds[1..][i].members {
        assert m in ds[i + 1].members;
      }
    }
  }

  /** Daemons in order give members in order. */
  lemma {:induction false} NamesOrdered(g: Group, conf: seq<ProcId>, byId: bool, ds: seq<DaemonRec>)
    requires OwnedOnce(g) && RecsOf(g, ds) && DaemonsOrdered(g, conf, byId, ds)
    requires Distinct(ds)
    ensures MembersOrdered(g, conf, byId, AllNames(ds))
  {
    hide MemberBefore, DaemonsOrdered, RecsOf, Distinct, OwnedOnce;
    if ds != [] {
      NamesTail(g, conf, byId, ds);
      NamesOrdered(g, conf, byId, ds[1..]);
      var a, b := ds[0].members, AllNames(ds[1..]);
      forall i, j | 0 <= i < j < |a + b| ensures MemberBefore(g, conf, byId, (a + b)[i], (a + b)[j]) {
        if j < |a| {
          AtOneDaemon(g, conf, byId, ds, i, j);
        } else if i < |a| {
          AtTwoDaemons(g, conf, byId, ds, a[i], b[j - |a|]);
        } else {
          assert MemberBefore(g, conf, byId, b[i - |a|], b[j - |a|]);
        }
      }
    }
  }

  lemma NamesTail(g: Group, conf: seq<ProcId>, byId: bool, ds: seq<DaemonRec>)
    requires ds != [] && RecsOf(g, ds) && DaemonsOrdered(g, conf, byId, ds) && Distinct(ds)
    ensures RecsOf(g, ds[1..]) && DaemonsOrdered(g, conf, byId, ds[1..]) && Distinct(ds[1..])
  {
    hide DaemonBefore;
  }

  lemma AtOneDaemon(g: Group, conf: seq<ProcId>, byId: bool, ds: seq<DaemonRec>, i: nat, j: nat)
    requires ds != [] && OwnedOnce(g) && RecsOf(g, ds) && i < j < |ds[0].members|
    ensures MemberBefore(g, conf, byId, ds[0].members[i], ds[0].members[j])
  {
    hide DaemonBefore;
    var d := ds[0];
    assert d in ds && d.members[i] in d.members && d.members[j] in d.members;
  }

  lemma AtTwoDaemons(g: Group, conf: seq<ProcId>, byId: bool, ds: seq<DaemonRec>, m: Name, n: Name)
    requires ds != [] && OwnedOnce(g) && RecsOf(g, ds) && DaemonsOrdered(g, conf, byId, ds) && Distinct(ds)
    requires m in ds[0].members && n in AllNames(ds[1..])
    ensures MemberBefore(g, conf, byId, m, n)
  {
    hide DaemonBefore;
    ListedBy(ds[1..], n);
    var k :| 0 <= k < |ds[1..]| && n in ds[1..][k].members;
    assert ds[1..][k] == ds[k + 1] && ds[k + 1] in ds && ds[0] in ds;
    assert DaemonBefore(g, conf, byId, ds[0].proc, ds[k + 1].proc);
    assert ds[0].proc != ds[k + 1].proc;
  }

  // ---------------------------------------------------------------- the walks

  lemma RecsInOrder(g: Group, conf: seq<ProcId>)
    requires Configured(g, conf)
    ensures var recs := VsRecs(g, Select(conf, g.daemons.Keys));
      RecsOf(g, recs) && DaemonsOrdered(g, conf, false, recs) && Distinct(recs)
  {
    hide Precedes, InOrder, OwnedOnce;
    var ps := Select(conf, g.daemons.Keys);
    SelectInOrder(conf, g.daemons.Keys);
    SelectDistinct(conf, g.daemons.Keys);
    var recs := VsRecs(g, ps);
    forall i, j | 0 <= i < j < |recs| ensures recs[i] != recs[j] {
      assert recs[i].proc == ps[i] && recs[j].proc == ps[j];
    }
  }

  /** The names in front of the message. */
  lemma NamesAreTold(g: Group, conf: seq<ProcId>)
    requires Configured(g, conf)
    ensures NamesTell(AllNames(VsRecs(g, Select(conf, g.daemons.Keys))), g, conf)
  {
    hide Precedes, RecsOf, DaemonsOrdered, VsRecs, AllNames, HeadCount, MembersOrdered;
    var ps := Select(conf, g.daemons.Keys);
    RecsInOrder(g, conf);
    NamesOrdered(g, conf, false, VsRecs(g, ps));
    SelectDistinct(conf, g.daemons.Keys);
    RecNames(g, ps);
    forall m ensures m in AllNames(VsRecs(g, ps)) <==> IsMemberOf(g, m) {
      InSomeDaemon(g, ps, m);
    }
  }

  lemma WalkInOrder(g: Group, conf: seq<ProcId>)
    requires Configured(g, conf)
    ensures MembersOrdered(g, conf, true, AllNames(VsWalk(g, conf)))
  {
    hide Precedes, RecsOf, DaemonsOrdered, VsRecs, AllNames, MembersOrdered, Select, ByMemb;
    var recs := VsRecs(g, Select(conf, g.daemons.Keys));
    RecsInOrder(g, conf);
    ByMembOrdered(g, conf, recs);
    ByMembIsOrdered(recs);
    DistinctRearranged(ByMemb(recs), recs);
    NamesOrdered(g, conf, true, VsWalk(g, conf));
  }

  // ---------------------------------------------------------------- the sets, one after another

  lemma {:induction false} ListedConcat(a: seq<Name>, b: seq<Name>, joiner: Option<Name>, found: bool)
    ensures var l := Listed(a, joiner, found);
      var r := Listed(b, joiner, l.found);
      Listed(a + b, joiner, found) == Listing(l.names + r.names, r.found)
  {
    if a == [] {
      assert a + b == b;
      assert [] + Listed(b, joiner, found).names == Listed(b, joiner, found).names;
    } else {
      assert (a + b)[1..] == a[1..] + b;
      if joiner == Some(a[0]) && !found {
        ListedAfter(a[1..], joiner);
        ListedAfter(b, joiner);
        ListedAfter(a[1..] + b, joiner);
      } else {
        ListedConcat(a[1..], b, joiner, found);
        var l := Listed(a[1..], joiner, found);
        Regroup([a[0]], l.names, Listed(b, joiner, l.found).names);
      }
    }
  }

  /** The walk's sets, one after another, are the members in the walk's order without the joiner. */
  lemma {:induction false} SetsFollowWalk(ds: seq<DaemonRec>, joiner: Option<Name>, n: nat)
    requires n <= |ds|
    ensures var w := WalkSets(ds, joiner, n);
      Listed(AllNames(ds[..n]), joiner, false) == Listing(Flat(w.sets), w.found)
  {
    hide Opens, Listed, WalkSets, AllNames, Flat, SetOf;
    NothingWalked(ds, joiner);
    if n == 0 {
      NoneListed(joiner);
    } else {
      SetsFollowWalk(ds, joiner, n - 1);
      WalkStep(ds, joiner, n);
      NamesStep(ds, n);
      ListedConcat(AllNames(ds[..n - 1]), ds[n - 1].members, joiner, false);
    }
  }

  lemma NoneListed(joiner: Option<Name>)
    ensures Listed([], joiner, false) == Listing([], false)
  {
  }

  lemma {:induction false} ListedOrdered(g: Group, conf: seq<ProcId>, ms: seq<Name>, joiner: Option<Name>, found: bool)
    requires MembersOrdered(g, conf, true, ms)
    ensures MembersOrdered(g, conf, true, Listed(ms, joiner, found).names)
    ensures forall m | m in Listed(ms, joiner, found).names :: m in ms
    decreases |ms|
  {
    hide MemberBefore;
    if ms != [] {
      assert MembersOrdered(g, conf, true, ms[1..]);
      ListedOrdered(g, conf, ms[1..], joiner, found);
      var rest := Listed(ms[1..], joiner, found).names;
      forall x | x in rest ensures MemberBefore(g, conf, true, ms[0], x) {
        var i :| 0 <= i < |ms[1..]| && ms[1..][i] == x;
        assert ms[i + 1] == x;
      }
    }
  }

  /** Whom the sets list, and in which order. */
  lemma SetsListed(g: Group, conf: seq<ProcId>, joiner: Option<Name>)
    requires Configured(g, conf)
    ensures var walk := VsWalk(g, conf);
      var listed := Flat(WalkSets(walk, joiner, |walk|).sets);
      && (forall m :: m in listed <==> IsMemberOf(g, m) && joiner != Some(m))
      && MembersOrdered(g, conf, true, listed)
  {
    hide VsWalk, WalkSets, AllNames, Flat, MembersOrdered, Listed, IsMemberOf, Configured, HeadCount;
    var walk := VsWalk(g, conf);
    var names := AllNames(walk);
    assert walk[..|walk|] == walk;
    SetsFollowWalk(walk, joiner, |walk|);
    WalkInOrder(g, conf);
    ListedOrdered(g, conf, names, joiner, false);
    NamesOfGroup(g, conf);
    forall m ensures m in Flat(WalkSets(walk, joiner, |walk|).sets) <==> IsMemberOf(g, m) && joiner != Some(m) {
      assert m in names <==> m in multiset(names);
      if joiner == Some(m) {
        JoinerNotListed(names, m);
      } else {
        ListedUnlessJoiner(names, joiner, false, m);
      }
    }
  }

  lemma {:induction false} JoinerNotListed(ms: seq<Name>, j: Name)
    requires multiset(ms)[j] <= 1
    ensures j !in Listed(ms, Some(j), false).names
    decreases |ms|
  {
    if ms != [] {
      assert ms == [ms[0]] + ms[1..];
      if ms[0] != j {
        JoinerNotListed(ms[1..], j);
      }
    }
  }

  lemma SetsAreTold(g: Group, conf: seq<ProcId>, joiner: Option<Name>)
    requires Configured(g, conf)
    ensures SetsTell(AllSets(VsWalk(g, conf), joiner), g, conf, joiner)
  {
    hide VsWalk, WalkSets, Flat, MembersOrdered, IsMemberOf, Configured;
    var walk := VsWalk(g, conf);
    var sets := AllSets(walk, joiner);
    SetsListed(g, conf, joiner);
    if joiner.Some? {
      assert sets[..|sets| - 1] == WalkSets(walk, joiner, |walk|).sets;
    } else {
      assert sets == WalkSets(walk, joiner, |walk|).sets;
    }
    forall p, m, q, n | p in g.daemons && m in g.daemons[p].members && joiner != Some(m)
                        && q in g.daemons && n in g.daemons[q].members && joiner != Some(n)
      ensures (exists s :: s in sets && m in s.members && n in s.members)
         <==> p == q || (g.daemons[p].memb == g.daemons[q].memb && !Unknown(g.daemons[p].memb))
    {
      ShareSetIff(g, conf, joiner, p, m, q, n);
    }
  }

  lemma OwnSetIs(g: Group, conf: seq<ProcId>, joiner: Option<Name>, my: ProcId, mine: nat)
    requires Configured(g, conf) && my in g.daemons
    requires mine < |VsWalk(g, conf)| && VsWalk(g, conf)[mine].proc == my
    ensures var sets, k := AllSets(VsWalk(g, conf), joiner), SetOf(VsWalk(g, conf), mine);
      && k < |sets| && Offset(sets, k) == LocalOffset(VsWalk(g, conf), joiner, mine)
      && SetOfDaemonIs(sets[k], g, joiner, my)
  {
    hide VsWalk, AllSets, SetOf, Configured, Offset, LocalOffset;
    var walk := VsWalk(g, conf);
    LocalOffsetStays(walk, joiner, mine);
    RecOfMine(g, conf, my, mine);
    var k := SetOf(walk, mine);
    forall p, m | p in g.daemons && m in g.daemons[p].members && joiner != Some(m)
      ensures m in AllSets(walk, joiner)[k].members
         <==> p == my || (g.daemons[p].memb == g.daemons[my].memb && !Unknown(g.daemons[p].memb))
    {
      var i := PlaceInWalk(g, conf, p);
      MemberInSet(g, conf, joiner, k, p, i, m);
      TogetherInWalk(g, conf, i, mine);
    }
  }

  lemma RecOfMine(g: Group, conf: seq<ProcId>, my: ProcId, mine: nat)
    requires Configured(g, conf) && my in g.daemons
    requires mine < |VsWalk(g, conf)| && VsWalk(g, conf)[mine].proc == my
    ensures VsWalk(g, conf)[mine].memb == g.daemons[my].memb
  {
    hide VsWalk;
    InWalk(g, conf, VsWalk(g, conf)[mine]);
    assert VsWalk(g, conf)[mine] in VsWalk(g, conf);
  }

  // ---------------------------------------------------------------- the message is read

  lemma NamesRead(names: seq<Name>, d: seq<byte>)
    ensures GetNames(PutNames(names) + d, 0, |names|) == names
  {
    hide PutNames, GetNames;
    assert (PutNames(names) + d)[0..32 * |names|] == PutNames(names);
    ReadNames(PutNames(names) + d, 0, names);
  }

  /** A message with the members' names in front and an offset that is some set's. */
  lemma MessageRead(g: Group, conf: seq<ProcId>, joiner: Option<Name>, k: nat)
    requires Configured(g, conf)
    requires var sets := AllSets(VsWalk(g, conf), joiner);
      k < |sets| && |PutSets(sets)| < 0x1_0000_0000
    ensures var sets, names := AllSets(VsWalk(g, conf), joiner), AllNames(VsRecs(g, Select(conf, g.daemons.Keys)));
      var b := PutNames(names) + PutData(g.id, sets, Offset(sets, k));
      Tells(b, |names|, g, conf, joiner) && OwnSet(b, |names|) == Some(sets[k])
  {
    hide VsWalk, AllSets, Configured, Offset, PutSets, PutData, PutNames, AllNames, GetInfos, GetNames, NumSets,
      Members, PlaceOf, OwnSetAt, NamesTell, SetsTell, VsRecs, GetGroupId;
    var sets, names := AllSets(VsWalk(g, conf), joiner), AllNames(VsRecs(g, Select(conf, g.daemons.Keys)));
    var d := PutData(g.id, sets, Offset(sets, k));
    DataReadsBack(g.id, sets, k);
    NamesRead(names, d);
    NamesAreTold(g, conf);
    SetsAreTold(g, conf, joiner);
    assert (PutNames(names) + d)[32 * |names|..] == d;
  }
}
