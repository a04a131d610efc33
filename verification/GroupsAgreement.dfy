/** The state exchange: every daemon ends with the same group table, whichever synced set's table it
    started from and in whatever order it takes in the others. */
module GroupsAgreement {
  import opened Wire
  import opened Ordering
  import opened GroupTable
  import opened GroupsMerge
  import opened GroupsWalk

  /** A table as it is when an exchange begins: counted, no daemon partitioned, and an unchanged
      group's daemons all under the group's own membership id. */
  ghost predicate Ready(t: Table) {
    forall n | n in t :: ReadyGroup(t[n])
  }

  ghost predicate ReadyGroup(g: Group) {
    && g.num == HeadCount(g.daemons) && !Unknown(g.id.memb)
    && (forall p | p in g.daemons :: !Unknown(g.daemons[p].memb))
    && (!g.changed ==> forall p | p in g.daemons :: g.daemons[p].memb == g.id.memb)
  }

  ghost predicate SameMembers(g: Group, h: Group) {
    g.daemons.Keys == h.daemons.Keys && forall p | p in g.daemons :: g.daemons[p].members == h.daemons[p].members
  }

  /** Two daemons of one synced set: same groups, members and flags; ids need only agree on groups
      that did not change, since a changed group's id is about to be replaced. */
  ghost predicate Alike(t: Table, u: Table) {
    t.Keys == u.Keys && forall n | n in t :: AlikeGroup(t[n], u[n])
  }

  ghost predicate AlikeGroup(g: Group, h: Group) {
    SameMembers(g, h) && g.changed == h.changed && (!g.changed ==> g.id == h.id)
  }

  /** Two tables that clients cannot tell apart: equal but for the local mailboxes. */
  ghost predicate SameView(t: Table, u: Table) {
    t.Keys == u.Keys && forall n | n in t :: t[n].(mboxes := []) == u[n].(mboxes := [])
  }

  ghost predicate Had(t: Table, n: Name, p: ProcId) {
    n in t && p in t[n].daemons
  }

  /** The tables of the representatives: each ready, no daemon in two of them, and unchanged groups
      under one membership id have one index. */
  ghost predicate Family(fam: map<ProcId, Table>) {
    && (forall r | r in fam :: Ready(fam[r]))
    && (forall r, s, n, p | r in fam && s in fam && Had(fam[r], n, p) && Had(fam[s], n, p) :: r == s)
    && (forall r, s, n | r in fam && s in fam && n in fam[r] && n in fam[s]
                         && !fam[r][n].changed && !fam[s][n].changed && fam[r][n].id.memb == fam[s][n].id.memb
          :: fam[r][n].id == fam[s][n].id)
  }

  /** A replica in place of its representative's table keeps a family a family. */
  lemma AlikeKeepsFamily(fam: map<ProcId, Table>, a: ProcId, la: Table)
    requires Family(fam) && a in fam && Alike(la, fam[a]) && Ready(la)
    ensures Family(fam[a := la])
  {
    hide ReadyGroup;
    var f: map<ProcId, Table> := fam[a := la];
    forall r, n, p | r in f ensures Had(f[r], n, p) <==> Had(fam[r], n, p) {
    }
    forall r, n | r in f && n in f[r]
      ensures n in fam[r] && fam[r][n].changed == f[r][n].changed
      ensures !f[r][n].changed ==> fam[r][n].id == f[r][n].id
    {
      assert r == a ==> AlikeGroup(la[n], fam[a][n]);
    }
  }

  // ---------------------------------------------------------------- gathering one group

  /** What the tables of rs hold under name n. */
  ghost function Votes(fam: map<ProcId, Table>, rs: set<ProcId>, n: Name): map<ProcId, Group> {
    map r | r in fam && r in rs && n in fam[r] :: fam[r][n]
  }

  /** Some vote flags the group or has it under another membership id than `memb`. */
  ghost predicate Differs(vs: map<ProcId, Group>, memb: MembId) {
    exists r :: r in vs && (vs[r].changed || vs[r].id.memb != memb)
  }

  ghost predicate Holds(vs: map<ProcId, Group>, p: ProcId) {
    exists r :: r in vs && p in vs[r].daemons
  }

  ghost predicate GatheredMembers(g: Group, vs: map<ProcId, Group>) {
    && g.num == HeadCount(g.daemons)
    && (forall p :: p in g.daemons <==> Holds(vs, p))
    && (forall r, p | r in vs && p in vs[r].daemons :: g.daemons[p].members == vs[r].daemons[p].members)
  }

  ghost predicate GatheredIds(g: Group, vs: map<ProcId, Group>) {
    && (exists r :: r in vs && g.id == vs[r].id)
    && (g.changed <==> Differs(vs, g.id.memb))
    && (forall p | p in g.daemons ::
          !Unknown(g.daemons[p].memb) && (!g.changed ==> g.daemons[p].memb == g.id.memb))
  }

  /** g is the group as the votes state it together. */
  ghost predicate GatheredGroup(g: Group, vs: map<ProcId, Group>) {
    GatheredMembers(g, vs) && GatheredIds(g, vs)
  }

  /** A group after one more vote was taken in. */
  ghost function OneMore(g: Group, u: Group): Group {
    Plus(g.(changed := g.changed || u.changed), RowsAs(u), {u.id.memb}, HeadCount(u.daemons))
  }

  lemma OneMoreIs(g: Group, u: Group)
    ensures var h := OneMore(g, u);
      && h.id == g.id && h.mboxes == g.mboxes && h.daemons == g.daemons + RowsAs(u)
      && h.num == g.num + HeadCount(u.daemons)
      && (h.changed <==> g.changed || u.changed || u.id.memb != g.id.memb)
  {
  }

  lemma HeldByMore(vs: map<ProcId, Group>, r: ProcId, u: Group, p: ProcId)
    requires r !in vs
    ensures Holds(vs[r := u], p) <==> Holds(vs, p) || p in u.daemons
  {
    var ws := vs[r := u];
    if Holds(vs, p) {
      var s :| s in vs && p in vs[s].daemons;
      assert s in ws && p in ws[s].daemons;
    }
    assert r in ws && ws[r] == u;
  }

  lemma AbsorbMembers(g: Group, u: Group, vs: map<ProcId, Group>, r: ProcId)
    requires GatheredMembers(g, vs) && ReadyGroup(u) && r !in vs
    requires forall s | s in vs :: vs[s].daemons.Keys !! u.daemons.Keys
    ensures GatheredMembers(OneMore(g, u), vs[r := u])
  {
    hide OneMore, HeadCount, Holds;
    var h, ws := OneMore(g, u), vs[r := u];
    OneMoreIs(g, u);
    forall p ensures p in h.daemons <==> Holds(ws, p) {
      HeldByMore(vs, r, u, p);
    }
    ApartFromVotes(g, u, vs);
    HeadCountDisjoint(g.daemons, RowsAs(u));
    HeadCountSame(RowsAs(u), u.daemons);
    forall s, p | s in ws && p in ws[s].daemons
      ensures p in h.daemons && h.daemons[p].members == ws[s].daemons[p].members
    {
      if s != r {
        VoteHolds(vs, s, p);
      }
    }
  }

  lemma VoteHolds(vs: map<ProcId, Group>, s: ProcId, p: ProcId)
    requires s in vs && p in vs[s].daemons
    ensures Holds(vs, p)
  {
  }

  lemma ApartFromVotes(g: Group, u: Group, vs: map<ProcId, Group>)
    requires GatheredMembers(g, vs) && forall s | s in vs :: vs[s].daemons.Keys !! u.daemons.Keys
    ensures g.daemons.Keys !! u.daemons.Keys
  {
    hide HeadCount;
    forall p | p in g.daemons ensures p !in u.daemons {
      assert Holds(vs, p);
    }
  }

  lemma AbsorbIds(g: Group, u: Group, vs: map<ProcId, Group>, r: ProcId)
    requires GatheredIds(g, vs) && ReadyGroup(u) && r !in vs
    ensures GatheredIds(OneMore(g, u), vs[r := u])
  {
    hide OneMore;
    var h, ws := OneMore(g, u), vs[r := u];
    OneMoreIs(g, u);
    var s :| s in vs && g.id == vs[s].id;
    assert s in ws && h.id == ws[s].id;
    if Differs(vs, h.id.memb) {
      var s :| s in vs && (vs[s].changed || vs[s].id.memb != h.id.memb);
      assert s in ws && ws[s] == vs[s];
    }
    assert r in ws && ws[r] == u;
  }

  lemma AbsorbGroup(g: Group, u: Group, vs: map<ProcId, Group>, r: ProcId)
    requires GatheredGroup(g, vs) && ReadyGroup(u) && r !in vs
    requires forall s | s in vs :: vs[s].daemons.Keys !! u.daemons.Keys
    ensures GatheredGroup(OneMore(g, u), vs[r := u])
  {
    AbsorbMembers(g, u, vs, r);
    AbsorbIds(g, u, vs, r);
  }

  lemma FirstVote(u: Group, r: ProcId)
    requires ReadyGroup(u)
    ensures GatheredGroup(OneMore(Blank(u.id), u), map[r := u])
  {
    var h := OneMore(Blank(u.id), u);
    OneMoreIs(Blank(u.id), u);
    assert map[] + RowsAs(u) == RowsAs(u);
    HeadCountSame(RowsAs(u), u.daemons);
    assert r in map[r := u];
  }

  lemma OwnVote(u: Group, r: ProcId)
    requires ReadyGroup(u)
    ensures GatheredGroup(u, map[r := u])
  {
    assert r in map[r := u];
  }

  // ---------------------------------------------------------------- gathering tables

  ghost predicate Gathers(t: Table, fam: map<ProcId, Table>, rs: set<ProcId>) {
    forall n ::
      && (n in t <==> Votes(fam, rs, n) != map[])
      && (n in t ==> GatheredGroup(t[n], Votes(fam, rs, n)))
  }

  lemma OwnTableGathers(fam: map<ProcId, Table>, a: ProcId)
    requires Family(fam) && a in fam
    ensures Gathers(fam[a], fam, {a})
  {
    forall n
      ensures n in fam[a] <==> Votes(fam, {a}, n) != map[]
      ensures n in fam[a] ==> GatheredGroup(fam[a][n], Votes(fam, {a}, n))
    {
      var vs := Votes(fam, {a}, n);
      if n in fam[a] {
        OwnVote(fam[a][n], a);
        assert vs == map[a := fam[a][n]];
        assert a in vs;
      }
    }
  }

  lemma VotesOneMore(fam: map<ProcId, Table>, rs: set<ProcId>, r: ProcId, n: Name)
    requires r in fam && r !in rs
    ensures r !in Votes(fam, rs, n)
    ensures Votes(fam, rs + {r}, n)
         == if n in fam[r] then Votes(fam, rs, n)[r := fam[r][n]] else Votes(fam, rs, n)
  {
  }

  lemma VotesApart(fam: map<ProcId, Table>, rs: set<ProcId>, r: ProcId, n: Name)
    requires Family(fam) && r in fam && r !in rs && n in fam[r]
    ensures ReadyGroup(fam[r][n])
    ensures forall s | s in Votes(fam, rs, n) :: Votes(fam, rs, n)[s].daemons.Keys !! fam[r][n].daemons.Keys
  {
    hide ReadyGroup;
    forall s, p | s in Votes(fam, rs, n) && p in fam[s][n].daemons ensures p !in fam[r][n].daemons {
      assert Had(fam[s], n, p) && r != s;
      assert !Had(fam[r], n, p);
    }
  }

  lemma AbsorbAt(t: Table, u: Table, n: Name)
    ensures n in Absorb(t, u) <==> n in t || n in u
    ensures n in u ==> Absorb(t, u)[n] == OneMore(if n in t then t[n] else Blank(u[n].id), u[n])
    ensures n in t && n !in u ==> Absorb(t, u)[n] == t[n]
  {
  }

  lemma AbsorbOne(t: Table, fam: map<ProcId, Table>, rs: set<ProcId>, r: ProcId, n: Name)
    requires Family(fam) && r in fam && r !in rs
    requires (n in t <==> Votes(fam, rs, n) != map[]) && (n in t ==> GatheredGroup(t[n], Votes(fam, rs, n)))
    ensures n in Absorb(t, fam[r]) <==> Votes(fam, rs + {r}, n) != map[]
    ensures n in Absorb(t, fam[r]) ==> GatheredGroup(Absorb(t, fam[r])[n], Votes(fam, rs + {r}, n))
  {
    hide Votes, Family, GatheredGroup, ReadyGroup, OneMore, Absorb, Blank;
    var vs := Votes(fam, rs, n);
    VotesOneMore(fam, rs, r, n);
    AbsorbAt(t, fam[r], n);
    if n in fam[r] {
      var u := fam[r][n];
      VotesApart(fam, rs, r, n);
      assert r in vs[r := u];
      if n in t {
        AbsorbGroup(t[n], u, vs, r);
      } else {
        FirstVote(u, r);
      }
    }
  }

  lemma AbsorbGathers(t: Table, fam: map<ProcId, Table>, rs: set<ProcId>, r: ProcId)
    requires Family(fam) && r in fam && r !in rs && Gathers(t, fam, rs)
    ensures Gathers(Absorb(t, fam[r]), fam, rs + {r})
  {
    forall n
      ensures n in Absorb(t, fam[r]) <==> Votes(fam, rs + {r}, n) != map[]
      ensures n in Absorb(t, fam[r]) ==> GatheredGroup(Absorb(t, fam[r])[n], Votes(fam, rs + {r}, n))
    {
      AbsorbOne(t, fam, rs, r, n);
    }
  }

  /** Taking in the tables of `order` one after the other. */
  ghost function AbsorbAll(t: Table, fam: map<ProcId, Table>, order: seq<ProcId>): Table
    requires forall r | r in order :: r in fam
    decreases |order|
  {
    if order == [] then t else AbsorbAll(Absorb(t, fam[order[0]]), fam, order[1..])
  }

  lemma {:induction false} AbsorbAllGathers(t: Table, fam: map<ProcId, Table>, rs: set<ProcId>, order: seq<ProcId>)
    requires Family(fam) && Gathers(t, fam, rs) && Distinct(order)
    requires forall r | r in order :: r in fam && r !in rs
    ensures Gathers(AbsorbAll(t, fam, order), fam, rs + Among(order))
    decreases |order|
  {
    hide Family, Gathers, Absorb, Distinct, Among;
    if order == [] {
      NoneAmong<ProcId>();
      assert rs + Among(order) == rs;
    } else {
      var r, rest := order[0], order[1..];
      FirstApart(order);
      AbsorbGathers(t, fam, rs, r);
      AbsorbAllGathers(Absorb(t, fam[r]), fam, rs + {r}, rest);
      assert rs + {r} + Among(rest) == rs + Among(order);
    }
  }

  // ---------------------------------------------------------------- the result

  ghost function Settled(g: Group, regId: MembId): Group {
    if g.changed then Conclude(g, regId).g else g
  }

  /** The second loop of G_compute_and_notify: changed groups settle under the new membership. */
  ghost function Finish(t: Table, regId: MembId): Table {
    map n | n in t :: Settled(t[n], regId)
  }

  /** A full exchange at a daemon of the set represented by a: its own table, then all others. */
  ghost predicate Exchange(fam: map<ProcId, Table>, a: ProcId, local: Table, order: seq<ProcId>) {
    && a in fam && Alike(local, fam[a]) && Ready(local)
    && Distinct(order) && Among(order) == fam.Keys - {a}
  }

  ghost function Collected(fam: map<ProcId, Table>, local: Table, order: seq<ProcId>): Table
    requires forall r | r in order :: r in fam
  {
    AbsorbAll(local, fam, order)
  }

  lemma {:induction false} OthersOnly(t: Table, fam: map<ProcId, Table>, a: ProcId, u: Table, order: seq<ProcId>)
    requires a !in order && forall r | r in order :: r in fam
    ensures AbsorbAll(t, fam, order) == AbsorbAll(t, fam[a := u], order)
    decreases |order|
  {
    if order != [] {
      OthersOnly(Absorb(t, fam[order[0]]), fam, a, u, order[1..]);
    }
  }

  /** Before the changed groups settle, a daemon holds exactly what all representatives hold. */
  lemma ExchangeCollects(fam: map<ProcId, Table>, a: ProcId, local: Table, order: seq<ProcId>)
    requires Family(fam) && Exchange(fam, a, local, order)
    ensures forall r | r in order :: r in fam
    ensures Gathers(Collected(fam, local, order), fam[a := local], fam.Keys)
    ensures Family(fam[a := local])
  {
    forall r | r in order ensures r in fam.Keys - {a} {
      assert r in Among(order);
    }
    var f := fam[a := local];
    AlikeKeepsFamily(fam, a, local);
    OwnTableGathers(f, a);
    AbsorbAllGathers(local, f, {a}, order);
    OthersOnly(local, fam, a, local, order);
    assert {a} + Among(order) == fam.Keys;
  }

  // ---------------------------------------------------------------- two daemons compared

  ghost predicate AlikeVotes(vs: map<ProcId, Group>, ws: map<ProcId, Group>) {
    vs.Keys == ws.Keys && forall r | r in vs :: AlikeGroup(vs[r], ws[r])
  }

  /** The votes place the same members. */
  ghost predicate EvenVotes(vs: map<ProcId, Group>, ws: map<ProcId, Group>) {
    vs.Keys == ws.Keys && forall r | r in vs :: SameMembers(vs[r], ws[r])
  }

  ghost predicate SameIndex(vs: map<ProcId, Group>) {
    forall r, s | r in vs && s in vs && !vs[r].changed && !vs[s].changed && vs[r].id.memb == vs[s].id.memb ::
      vs[r].id == vs[s].id
  }

  lemma UnchangedAlike(ga: Group, vs: map<ProcId, Group>, gb: Group, ws: map<ProcId, Group>)
    requires GatheredGroup(ga, vs) && GatheredGroup(gb, ws) && AlikeVotes(vs, ws) && SameIndex(vs)
    requires !ga.changed
    ensures !gb.changed && ga.id == gb.id
  {
    forall r | r in vs ensures !ws[r].changed && ws[r].id == vs[r].id && vs[r].id.memb == ga.id.memb {
      assert AlikeGroup(vs[r], ws[r]);
    }
    var r :| r in vs && ga.id == vs[r].id;
    var s :| s in ws && gb.id == ws[s].id;
  }

  lemma HeldAlike(vs: map<ProcId, Group>, ws: map<ProcId, Group>, p: ProcId)
    requires EvenVotes(vs, ws)
    ensures Holds(vs, p) <==> Holds(ws, p)
  {
    if r :| r in vs && (p in vs[r].daemons || p in ws[r].daemons) {
      assert SameMembers(vs[r], ws[r]);
    }
  }

  lemma VotedMembers(ga: Group, vs: map<ProcId, Group>, gb: Group, ws: map<ProcId, Group>, p: ProcId)
    requires GatheredMembers(ga, vs) && GatheredMembers(gb, ws) && EvenVotes(vs, ws) && p in ga.daemons
    ensures p in gb.daemons && ga.daemons[p].members == gb.daemons[p].members
  {
    hide HeadCount;
    HeldAlike(vs, ws, p);
    assert Holds(vs, p);
    var r :| r in vs && p in vs[r].daemons;
    assert SameMembers(vs[r], ws[r]);
  }

  lemma MembersAlike(ga: Group, vs: map<ProcId, Group>, gb: Group, ws: map<ProcId, Group>)
    requires GatheredMembers(ga, vs) && GatheredMembers(gb, ws) && EvenVotes(vs, ws)
    ensures SameMembers(ga, gb) && ga.num == gb.num
  {
    hide HeadCount, EvenVotes, Holds;
    forall p ensures p in ga.daemons <==> p in gb.daemons {
      HeldAlike(vs, ws, p);
    }
    forall p | p in ga.daemons ensures ga.daemons[p].members == gb.daemons[p].members {
      VotedMembers(ga, vs, gb, ws, p);
    }
    HeadCountSame(ga.daemons, gb.daemons);
  }

  lemma AlikeIsEven(vs: map<ProcId, Group>, ws: map<ProcId, Group>)
    requires AlikeVotes(vs, ws)
    ensures EvenVotes(vs, ws)
  {
    forall r | r in vs ensures SameMembers(vs[r], ws[r]) {
      assert AlikeGroup(vs[r], ws[r]);
    }
  }

  lemma SettledAlike(ga: Group, gb: Group, regId: MembId)
    requires SameMembers(ga, gb) && ga.num == gb.num && ga.changed == gb.changed
    requires !ga.changed ==> ga.id == gb.id
    requires forall p | p in ga.daemons ::
      !Unknown(ga.daemons[p].memb) && (!ga.changed ==> ga.daemons[p].memb == ga.id.memb)
    requires forall p | p in gb.daemons ::
      !Unknown(gb.daemons[p].memb) && (!gb.changed ==> gb.daemons[p].memb == gb.id.memb)
    ensures Settled(ga, regId).(mboxes := []) == Settled(gb, regId).(mboxes := [])
  {
    assert Settled(ga, regId).daemons == Settled(gb, regId).daemons;
  }

  /** With a replica for a's table, every vote is like the representative's. */
  lemma VoteAlike(fam: map<ProcId, Table>, a: ProcId, la: Table, n: Name)
    requires a in fam && Alike(la, fam[a])
    ensures var vs := Votes(fam[a := la], fam.Keys, n);
      && (forall r | r in fam :: r in vs <==> n in fam[r])
      && (forall r | r in fam && n in fam[r] :: AlikeGroup(vs[r], fam[r][n]))
  {
  }

  lemma AlikeBoth(g: Group, h: Group, k: Group)
    requires AlikeGroup(g, k) && AlikeGroup(h, k)
    ensures AlikeGroup(g, h)
  {
  }

  lemma VotesAlike(fam: map<ProcId, Table>, a: ProcId, la: Table, b: ProcId, lb: Table, n: Name)
    requires a in fam && b in fam && Alike(la, fam[a]) && Alike(lb, fam[b])
    ensures AlikeVotes(Votes(fam[a := la], fam.Keys, n), Votes(fam[b := lb], fam.Keys, n))
  {
    hide Alike, AlikeGroup;
    var vs, ws := Votes(fam[a := la], fam.Keys, n), Votes(fam[b := lb], fam.Keys, n);
    VoteAlike(fam, a, la, n);
    VoteAlike(fam, b, lb, n);
    forall r | r in vs ensures r in ws && AlikeGroup(vs[r], ws[r]) {
      AlikeBoth(vs[r], ws[r], fam[r][n]);
    }
  }

  lemma FamilySameIndex(fam: map<ProcId, Table>, rs: set<ProcId>, n: Name)
    requires Family(fam)
    ensures SameIndex(Votes(fam, rs, n))
  {
  }

  /** Agreement: two daemons, of the same set or of different ones, that complete the exchange hold
      the same groups, daemons, members and counts, and gave the new id to the same groups. */
  lemma Agreement(fam: map<ProcId, Table>, regId: MembId,
                  a: ProcId, la: Table, ordera: seq<ProcId>, b: ProcId, lb: Table, orderb: seq<ProcId>)
    requires Family(fam) && Exchange(fam, a, la, ordera) && Exchange(fam, b, lb, orderb)
    requires (forall r | r in ordera :: r in fam) && (forall r | r in orderb :: r in fam)
    ensures SameView(Finish(Collected(fam, la, ordera), regId), Finish(Collected(fam, lb, orderb), regId))
    ensures forall n | n in Collected(fam, la, ordera) && n in Collected(fam, lb, orderb) ::
      Collected(fam, la, ordera)[n].changed == Collected(fam, lb, orderb)[n].changed
  {
    ExchangeCollects(fam, a, la, ordera);
    ExchangeCollects(fam, b, lb, orderb);
    var fa: map<ProcId, Table>, fb: map<ProcId, Table> := fam[a := la], fam[b := lb];
    assert fa.Keys == fam.Keys && fb.Keys == fam.Keys;
    GatheredAgree(fam, a, la, b, lb, Collected(fam, la, ordera), Collected(fam, lb, orderb), regId);
  }

  lemma GatheredAgree(fam: map<ProcId, Table>, a: ProcId, la: Table, b: ProcId, lb: Table, ta: Table, tb: Table,
                      regId: MembId)
    requires a in fam && b in fam && Alike(la, fam[a]) && Alike(lb, fam[b])
    requires Family(fam[a := la]) && Family(fam[b := lb])
    requires Gathers(ta, fam[a := la], fam.Keys) && Gathers(tb, fam[b := lb], fam.Keys)
    ensures SameView(Finish(ta, regId), Finish(tb, regId))
    ensures forall n | n in ta && n in tb :: ta[n].changed == tb[n].changed
  {
    forall n
      ensures n in ta <==> n in tb
      ensures n in ta ==> ta[n].changed == tb[n].changed
      ensures n in ta ==> Settled(ta[n], regId).(mboxes := []) == Settled(tb[n], regId).(mboxes := [])
    {
      GroupsAgree(fam, a, la, b, lb, ta, tb, regId, n);
    }
  }

  lemma GroupsAgree(fam: map<ProcId, Table>, a: ProcId, la: Table, b: ProcId, lb: Table, ta: Table, tb: Table,
                    regId: MembId, n: Name)
    requires a in fam && b in fam && Alike(la, fam[a]) && Alike(lb, fam[b])
    requires Family(fam[a := la]) && Family(fam[b := lb])
    requires Gathers(ta, fam[a := la], fam.Keys) && Gathers(tb, fam[b := lb], fam.Keys)
    ensures n in ta <==> n in tb
    ensures n in ta ==> ta[n].changed == tb[n].changed
    ensures n in ta ==> Settled(ta[n], regId).(mboxes := []) == Settled(tb[n], regId).(mboxes := [])
  {
    hide Votes, Family, Alike, Settled, GatheredGroup, SameIndex;
    var vs, ws := Votes(fam[a := la], fam.Keys, n), Votes(fam[b := lb], fam.Keys, n);
    VotesAlike(fam, a, la, b, lb, n);
    FamilySameIndex(fam[a := la], fam.Keys, n);
    FamilySameIndex(fam[b := lb], fam.Keys, n);
    assert fam[a := la].Keys == fam.Keys == fam[b := lb].Keys;
    assert vs == map[] <==> ws == map[] by { assert vs.Keys == ws.Keys; }
    if n in ta {
      VotesGroupsAgree(ta[n], vs, tb[n], ws, regId);
    }
  }

  lemma VotesGroupsAgree(ga: Group, vs: map<ProcId, Group>, gb: Group, ws: map<ProcId, Group>, regId: MembId)
    requires GatheredGroup(ga, vs) && GatheredGroup(gb, ws) && AlikeVotes(vs, ws) && SameIndex(vs) && SameIndex(ws)
    ensures ga.changed == gb.changed
    ensures Settled(ga, regId).(mboxes := []) == Settled(gb, regId).(mboxes := [])
  {
    AlikeIsEven(vs, ws);
    MembersAlike(ga, vs, gb, ws);
    if !ga.changed {
      UnchangedAlike(ga, vs, gb, ws);
    } else if !gb.changed {
      assert AlikeVotes(ws, vs) by {
        forall r | r in vs ensures AlikeGroup(ws[r], vs[r]) { assert AlikeGroup(vs[r], ws[r]); }
      }
      UnchangedAlike(gb, ws, ga, vs);
    }
    SettledAlike(ga, gb, regId);
  }
}
