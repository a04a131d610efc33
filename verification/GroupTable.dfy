/** One process group as a daemon stores it, and what each membership event does to it. */
module GroupTable {
  import opened Wire

  type ProcId = int32
  type Mailbox = int

  datatype MembId = MembId(proc: ProcId, time: int32)
  datatype GroupId = GroupId(memb: MembId, index: int32)

  /** The id that marks a daemon as partitioned. */
  const UNKNOWN := MembId(-1, -1)

  predicate Unknown(m: MembId) {
    m.proc == -1
  }

  datatype Daemon = Daemon(memb: MembId, members: set<Name>)

  /** `num` is the stored num_members; `mboxes` the mailboxes of the local members, unordered. */
  datatype Group = Group(id: GroupId, changed: bool, num: int,
                         daemons: map<ProcId, Daemon>, mboxes: seq<Mailbox>)

  type Table = map<Name, Group>

  datatype Cause = ByJoin | ByLeave | ByDisconnect

  /** A membership message multicast to a group's local members, with the group as it stood when
      the message was built. */
  datatype Note =
    | Lightweight(g: Group, cause: Cause, who: Name)
    | Heavyweight(g: Group, joiner: set<Name>)
    | Transitional(id: GroupId)

  /** A group after an event, and what its local members were sent. */
  datatype Outcome = Outcome(g: Group, notes: seq<Note>)

  // ---------------------------------------------------------------- counting

  ghost function Seats(ds: map<ProcId, Daemon>): set<(ProcId, Name)> {
    set p, m | p in ds && m in ds[p].members :: (p, m)
  }

  /** The sum, over the daemons of ds, of the lengths of their member lists. */
  ghost function HeadCount(ds: map<ProcId, Daemon>): nat {
    |Seats(ds)|
  }

  ghost function Row(p: ProcId, s: set<Name>): set<(ProcId, Name)> {
    set m | m in s :: (p, m)
  }

  lemma {:induction false} RowSize(p: ProcId, s: set<Name>)
    ensures |Row(p, s)| == |s|
  {
    if s != {} {
      var m :| m in s;
      RowSize(p, s - {m});
      assert Row(p, s) == Row(p, s - {m}) + {(p, m)};
    }
  }

  lemma HeadCountSplit(ds: map<ProcId, Daemon>, p: ProcId)
    requires p in ds
    ensures HeadCount(ds) == HeadCount(ds - {p}) + |ds[p].members|
  {
    RowSize(p, ds[p].members);
    assert Seats(ds) == Seats(ds - {p}) + Row(p, ds[p].members);
    assert Seats(ds - {p}) !! Row(p, ds[p].members);
  }

  lemma HeadCountPut(ds: map<ProcId, Daemon>, p: ProcId, d: Daemon)
    ensures HeadCount(ds[p := d]) == HeadCount(ds - {p}) + |d.members|
  {
    HeadCountSplit(ds[p := d], p);
    assert ds[p := d] - {p} == ds - {p};
  }

  lemma HeadCountSame(ds: map<ProcId, Daemon>, es: map<ProcId, Daemon>)
    requires ds.Keys == es.Keys && forall p | p in ds :: ds[p].members == es[p].members
    ensures HeadCount(ds) == HeadCount(es)
  {
    assert Seats(ds) == Seats(es);
  }

  lemma HeadCountDisjoint(ds: map<ProcId, Daemon>, es: map<ProcId, Daemon>)
    requires ds.Keys !! es.Keys
    ensures HeadCount(ds + es) == HeadCount(ds) + HeadCount(es)
  {
    hide Seats;
    SeatsOfBoth(ds, es);
    assert |Seats(ds) + Seats(es)| == |Seats(ds)| + |Seats(es)|;
  }

  lemma SeatsOfBoth(ds: map<ProcId, Daemon>, es: map<ProcId, Daemon>)
    requires ds.Keys !! es.Keys
    ensures Seats(ds + es) == Seats(ds) + Seats(es) && Seats(ds) !! Seats(es)
  {
    forall p, m ensures (p, m) in Seats(ds + es) <==> (p, m) in Seats(ds) || (p, m) in Seats(es) {
      if p in es {
        assert (ds + es)[p] == es[p];
      }
    }
  }

  ghost function Only(ds: map<ProcId, Daemon>, s: set<ProcId>): map<ProcId, Daemon> {
    map p | p in ds && p in s :: ds[p]
  }

  lemma HeadCountCut(ds: map<ProcId, Daemon>, s: set<ProcId>)
    ensures HeadCount(ds) == HeadCount(ds - s) + HeadCount(Only(ds, s))
  {
    HeadCountDisjoint(ds - s, Only(ds, s));
    assert (ds - s) + Only(ds, s) == ds;
  }

  lemma NobodyMeansEmpty(ds: map<ProcId, Daemon>)
    requires forall p | p in ds :: ds[p].members != {}
    ensures HeadCount(ds) == 0 <==> ds == map[]
  {
    if ds != map[] {
      var p :| p in ds;
      var m :| m in ds[p].members;
      assert (p, m) in Seats(ds);
    }
  }

  // ---------------------------------------------------------------- events on one group

  /** G_update_daemon_memb_ids: every established daemon takes the group's membership id. */
  ghost function Refresh(ds: map<ProcId, Daemon>, id: MembId): map<ProcId, Daemon> {
    map p | p in ds :: if Unknown(ds[p].memb) then ds[p] else ds[p].(memb := id)
  }

  /** Drops the daemons in `gone` with their members. */
  ghost function Without(g: Group, gone: set<ProcId>): Group {
    g.(daemons := g.daemons - gone, num := g.num - HeadCount(Only(g.daemons, gone)))
  }

  ghost function Partitioned(g: Group): set<ProcId> {
    set p | p in g.daemons && Unknown(g.daemons[p].memb)
  }

  ghost function Outside(g: Group, memb: set<ProcId>): set<ProcId> {
    set p | p in g.daemons && p !in memb
  }

  ghost function Tell(g: Group, notes: seq<Note>): seq<Note> {
    if g.mboxes == [] then [] else notes
  }

  ghost function Mark(ds: map<ProcId, Daemon>, trans: set<ProcId>): map<ProcId, Daemon> {
    map p | p in ds :: if p in trans then ds[p] else ds[p].(memb := UNKNOWN)
  }

  /** A transitional membership reaching a group in operation. */
  ghost function Split(g: Group, trans: set<ProcId>, transId: MembId): Outcome {
    if Outside(g, trans) == {} then Outcome(g, [])
    else
      Outcome(g.(id := GroupId(transId, 1), changed := true, daemons := Refresh(Mark(g.daemons, trans), transId)),
              Tell(g, [Transitional(g.id)]))
  }

  /** A regular membership that only lost daemons: the group settles under the new id, and is
      told after its daemons took that id. */
  ghost function Settle(g: Group, regId: MembId): Outcome {
    var g' := g.(id := GroupId(regId, 1), changed := false, daemons := Refresh(g.daemons, regId));
    Outcome(g', Tell(g', [Heavyweight(g', {})]))
  }

  /** The end of a state exchange: the group is told who came with whom, that is, before its
      daemons take the new id. */
  ghost function Conclude(g: Group, regId: MembId): Outcome {
    var told := g.(id := GroupId(regId, 1), changed := false);
    Outcome(told.(daemons := Refresh(g.daemons, regId)), Tell(told, [Heavyweight(told, {})]))
  }

  ghost function NewDaemon(g: Group, memb: MembId, p: ProcId): Daemon {
    if p in g.daemons then g.daemons[p] else Daemon(memb, {})
  }

  /** A member joins at daemon p; `memb` is what a daemon new to the group is marked with, and
      `mbox` the joiner's mailbox when it is local. */
  ghost function Admit(g: Group, memb: MembId, p: ProcId, m: Name, mbox: seq<Mailbox>): Outcome {
    var d := NewDaemon(g, memb, p);
    var g' := g.(num := g.num + 1, id := g.id.(index := Increment(g.id.index)),
                 daemons := g.daemons[p := d.(members := d.members + {m})],
                 mboxes := g.mboxes + mbox, changed := g.changed || Unknown(d.memb));
    Outcome(g', Tell(g', if g'.changed then [Heavyweight(g', {m}), Transitional(g'.id)]
                         else [Lightweight(g', ByJoin, m)]))
  }

  /** The index of the first x in a, or |a|. */
  function FirstIndex(a: seq<Mailbox>, x: Mailbox): (i: nat)
    ensures i <= |a|
    ensures i < |a| ==> a[i] == x
    ensures forall j | 0 <= j < i :: a[j] != x
  {
    if a == [] || a[0] == x then 0 else 1 + FirstIndex(a[1..], x)
  }

  /** G_remove_mailbox: the last entry takes the place of x. */
  function Unpost(a: seq<Mailbox>, x: Mailbox): (r: seq<Mailbox>)
    requires x in a
  {
    a[FirstIndex(a, x) := a[|a| - 1]][..|a| - 1]
  }

  lemma UnpostRemovesOne(a: seq<Mailbox>, x: Mailbox)
    requires x in a
    ensures multiset(Unpost(a, x)) == multiset(a) - multiset{x}
  {
    var last := |a| - 1;
    var b := a[FirstIndex(a, x) := a[last]];
    assert multiset(b) == multiset(a) - multiset{x} + multiset{a[last]};
    assert b == b[..last] + [a[last]];
    assert multiset(b) == multiset(b[..last]) + multiset{a[last]};
    assert multiset(b[..last]) == multiset(b) - multiset{a[last]} == multiset(a) - multiset{x};
  }

  /** Member m of daemon p is gone; the group is empty when `num` reaches 0. */
  ghost function Remove(g: Group, p: ProcId, m: Name, mboxes: seq<Mailbox>): Group
    requires p in g.daemons
  {
    var d := g.daemons[p].(members := g.daemons[p].members - {m});
    g.(num := g.num - 1, mboxes := mboxes,
       daemons := if d.members == {} then g.daemons - {p} else g.daemons[p := d])
  }

  ghost function Dismiss(g: Group, p: ProcId, m: Name, mboxes: seq<Mailbox>, cause: Cause): Outcome
    requires p in g.daemons
  {
    var r := Remove(g, p, m, mboxes);
    var g' := r.(id := r.id.(index := Increment(r.id.index)));
    Outcome(g', Tell(g', if g'.changed then [Heavyweight(g', {}), Transitional(g'.id)]
                         else [Lightweight(g', cause, m)]))
  }
}
