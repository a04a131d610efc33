/** The session layer's limit on the local members of a group against what the exchange can send: a table is sent
    if and only if every daemon's entry stays below the limit, and the limit itself is let in. */
module GroupsLimit {
  import opened Wire
  import opened Ordering
  import opened GroupTable
  import opened GroupsCodec
  import opened GroupsBuffers
  import opened GroupsWalk
  import opened GroupsRoundTrip
  import opened GroupsState
  import opened GroupsInvariant
  import opened GroupsSafety
  import opened GroupsDuty

  // ---------------------------------------------------------------- the table-level condition

  ghost predicate EntryBelow(g: Group, p: ProcId)
    requires p in g.daemons
  {
    |g.daemons[p].members| < MAX_LOCAL_GROUP_MEMBERS
  }

  /** Every daemon has fewer members than the limit in every group. */
  ghost predicate BelowLimit(t: Table) {
    forall n, p | n in t && p in t[n].daemons :: EntryBelow(t[n], p)
  }

  lemma {:induction false} RecsFit(g: Group, ps: seq<ProcId>)
    requires forall p | p in ps :: p in g.daemons
    ensures DaemonsFit(RecsOf(g, ps)) <==> forall p | p in ps :: EntryBelow(g, p)
  {
    hide FitsLaterBuffer;
    if ps != [] {
      var d, rest := RecOf(g, ps[0]), RecsOf(g, ps[1..]);
      LimitMissesHeader(d);
      RecsFit(g, ps[1..]);
      assert ps == [ps[0]] + ps[1..];
      FirstFits(d, rest);
    }
  }

  lemma FirstFits(d: DaemonRec, rest: seq<DaemonRec>)
    ensures DaemonsFit([d] + rest) <==> FitsLaterBuffer(d) && DaemonsFit(rest)
  {
    hide FitsLaterBuffer;
    var all := [d] + rest;
    assert d in all && forall x | x in rest :: x in all;
  }

  lemma {:induction false} WalkFits(t: Table, ns: seq<Name>, conf: seq<ProcId>)
    requires (forall n | n in ns :: n in t) && forall n, p | n in t && p in t[n].daemons :: p in conf
    ensures AllFit(WalkNames(t, ns, conf)) <==> forall n, p | n in ns && p in t[n].daemons :: EntryBelow(t[n], p)
  {
    hide EntryBelow, RecsOf, DaemonsFit, Select;
    if ns == [] {
      NoneFits();
    } else {
      var n, rest := ns[0], ns[1..];
      RecsFit(t[n], Select(conf, t[n].daemons.Keys));
      WalkFits(t, rest, conf);
      assert ns == [n] + rest;
      AllFitCons(ChunkOf(n, t[n], conf), WalkNames(t, rest, conf));
    }
  }

  lemma NoneFits()
    ensures AllFit([])
  {
  }

  lemma SolidNow(e: Site, s: State)
    requires Inv(e, s)
    ensures Solid(s.groups, e.conf)
  {
    hide Posted, HeadCount, SyncedInv, Distinct, PhaseInv;
    ConfiguredNow(e, s);
    forall n | n in s.groups
      ensures var g := s.groups[n];
        g.daemons != map[] && forall p | p in g.daemons :: p in e.conf && g.daemons[p].members != {}
    {
      assert GroupInv(e, s, s.groups[n]);
      GroupsAreConfigured(e, s, s.groups[n]);
    }
  }

  lemma ConfiguredNow(e: Site, s: State)
    requires SyncedInv(e, s)
    ensures Distinct(e.conf)
  {
  }

  /** The build loop over the table of any reachable state ends if and only if no entry has reached the limit. */
  lemma TableIsSentIff(e: Site, s: State)
    requires Inv(e, s) && SyncedFits(s.synced)
    ensures Terminates(Walk(s.groups, e.conf), s.synced) <==> BelowLimit(s.groups)
  {
    hide Inv, EntryBelow, SyncedFits, NonEmpty, AllFit, Terminates, WalkNames;
    SolidNow(e, s);
    WalkNonEmpty(s.groups, e.conf);
    BuildTerminates(Walk(s.groups, e.conf), s.synced);
    WalkFits(s.groups, InOrder(s.groups.Keys), e.conf);
  }

  // ---------------------------------------------------------------- the limit is reached

  /** G_get_num_local. */
  function NumLocal(t: Table, n: Name): nat {
    if n in t then |t[n].mboxes| else 0
  }

  ghost function LocalsOf(e: Site, t: Table, n: Name): set<Name> {
    if n in t then LocalMembers(e, t[n]) else {}
  }

  lemma {:induction false} OneAddressEach(sessions: map<Name, Mailbox>, ms: set<Name>)
    requires OneMailboxEach(sessions) && forall m | m in ms :: m in sessions
    ensures |Addresses(sessions, ms)| == |ms|
  {
    if ms == {} {
      assert Addresses(sessions, ms) == {};
    } else {
      var m :| m in ms;
      OneAddressEach(sessions, ms - {m});
      assert Addresses(sessions, ms) == Addresses(sessions, ms - {m}) + {sessions[m]};
    }
  }

  /** The mailboxes that the session layer counts are as many as the local members. */
  lemma LocalsCounted(e: Site, s: State, n: Name)
    requires Inv(e, s)
    ensures NumLocal(s.groups, n) == |LocalsOf(e, s.groups, n)|
  {
    hide Sound, SyncedInv, Addresses, OneMailboxEach;
    if n in s.groups {
      var g := s.groups[n];
      assert GroupInv(e, s, g);
      OneAddressEach(s.sessions, LocalMembers(e, g));
      SameCount(g.mboxes, Addresses(s.sessions, LocalMembers(e, g)));
    }
  }

  lemma SameCount(a: seq<Mailbox>, b: set<Mailbox>)
    requires multiset(a) == multiset(b)
    ensures |a| == |b|
  {
    assert |multiset(a)| == |a| && |multiset(b)| == |b|;
  }

  /** Local clients join group n one after the other. */
  ghost function Joined(e: Site, s: State, js: seq<Name>, n: Name): State
    requires s.gstate == GOP
    decreases |js|
  {
    if js == [] then s else Joined(e, HandleJoin(e, s, js[0], n).s, js[1..], n)
  }

  /** The session layer lets each of these joins pass. */
  ghost predicate Admitted(e: Site, s: State, js: seq<Name>, n: Name)
    requires s.gstate == GOP
    decreases |js|
  {
    js != [] ==>
      NumLocal(s.groups, n) != MAX_LOCAL_GROUP_MEMBERS && Admitted(e, HandleJoin(e, s, js[0], n).s, js[1..], n)
  }

  /** A local client with a session that is not yet a member. */
  predicate MayJoin(e: Site, sessions: map<Name, Mailbox>, j: Name) {
    j in e.owner && e.owner[j] == e.my && j in sessions
  }

  lemma OneMoreLocal(e: Site, s: State, j: Name, n: Name)
    requires s.gstate == GOP && MayJoin(e, s.sessions, j) && j !in LocalsOf(e, s.groups, n)
    ensures var r := HandleJoin(e, s, j, n).s;
      && r == s.(groups := r.groups) && LocalsOf(e, r.groups, n) == LocalsOf(e, s.groups, n) + {j}
  {
    hide Increment;
  }

  lemma {:induction false} JoinedLocals(e: Site, s: State, js: seq<Name>, n: Name)
    requires Inv(e, s) && s.gstate == GOP && e.my in s.reg && Distinct(js)
    requires forall j | j in js :: MayJoin(e, s.sessions, j) && j !in LocalsOf(e, s.groups, n)
    requires |LocalsOf(e, s.groups, n)| + |js| <= MAX_LOCAL_GROUP_MEMBERS
    ensures var r := Joined(e, s, js, n);
      && Admitted(e, s, js, n) && Inv(e, r) && r.synced == s.synced
      && LocalsOf(e, r.groups, n) == LocalsOf(e, s.groups, n) + Among(js)
    decreases |js|
  {
    hide Inv, HandleJoin, LocalsOf, NumLocal;
    if js == [] {
      assert Among(js) == {};
    } else {
      var j := js[0];
      assert j in js && js == [j] + js[1..];
      JoinKeeps(e, s, j, n);
      LocalsCounted(e, s, n);
      OneMoreLocal(e, s, j, n);
      JoinedLocals(e, HandleJoin(e, s, j, n).s, js[1..], n);
      assert Among(js) == {j} + Among(js[1..]);
    }
  }

  lemma LocalsAtLimit(e: Site, t: Table, n: Name)
    requires |LocalsOf(e, t, n)| == MAX_LOCAL_GROUP_MEMBERS
    ensures !BelowLimit(t)
  {
    assert MAX_LOCAL_GROUP_MEMBERS == 3122;
    assert LocalsOf(e, t, n) != {};
    assert !EntryBelow(t[n], e.my);
  }

  /** As many clients of one daemon as the limit allows join a group, each let in by the session layer; the
      table they leave cannot be sent. */
  lemma LimitIsLetIn(e: Site, s: State, js: seq<Name>, n: Name)
    requires Inv(e, s) && s.gstate == GOP && e.my in s.reg && SyncedFits(s.synced) && Distinct(js)
    requires forall j | j in js :: MayJoin(e, s.sessions, j) && j !in LocalsOf(e, s.groups, n)
    requires |LocalsOf(e, s.groups, n)| + |js| == MAX_LOCAL_GROUP_MEMBERS
    ensures var r := Joined(e, s, js, n);
      Admitted(e, s, js, n) && Inv(e, r) && !Terminates(Walk(r.groups, e.conf), r.synced)
  {
    hide Inv, LocalsOf, SyncedFits, Terminates, Walk, BelowLimit, Distinct;
    var r := Joined(e, s, js, n);
    JoinedLocals(e, s, js, n);
    DistinctSize(js);
    assert LocalsOf(e, s.groups, n) !! Among(js);
    LocalsAtLimit(e, r.groups, n);
    TableIsSentIff(e, r);
  }
}
